/** The file system the staging code works on, as fs-extra presents it: a map from file
    paths to contents and a set of directory paths. A path is a sequence of segments, so
    `path.join(dir, "pages", "index.md")` is `dir + ["pages", "index.md"]`. */
module Files {

  type Path = seq<string>

  datatype Snapshot = Snapshot(files: map<Path, string>, dirs: set<Path>)

  /** `p` is `root` itself or lies below it. */
  predicate Under(p: Path, root: Path) {
    |root| <= |p| && p[..|root|] == root
  }

  /** Neither path lies below the other. */
  predicate Apart(a: Path, b: Path) {
    !Under(a, b) && !Under(b, a)
  }

  /** `fs.existsSync(p)`: a file or a directory is there. */
  predicate Exists(s: Snapshot, p: Path) {
    p in s.files || p in s.dirs
  }

  /** Both snapshots hold the same thing at `p`. */
  predicate Agree(s: Snapshot, t: Snapshot, p: Path) {
    && (p in s.files <==> p in t.files)
    && (p in s.files ==> s.files[p] == t.files[p])
    && (p in s.dirs <==> p in t.dirs)
  }

  /** Nothing outside `root` differs. */
  ghost predicate SameOutside(s: Snapshot, t: Snapshot, root: Path) {
    forall p :: !Under(p, root) ==> Agree(s, t, p)
  }

  lemma UnderTrans(p: Path, q: Path, r: Path)
    requires Under(p, q) && Under(q, r)
    ensures Under(p, r)
  {
    assert p[..|q|][..|r|] == p[..|r|];
  }

  /** A change confined to `inner` is confined to any `outer` above it. */
  lemma SameOutsideWiden(s: Snapshot, t: Snapshot, inner: Path, outer: Path)
    requires Under(inner, outer) && SameOutside(s, t, inner)
    ensures SameOutside(s, t, outer)
  {
    forall p | !Under(p, outer) ensures Agree(s, t, p) {
      if Under(p, inner) {
        UnderTrans(p, inner, outer);
      }
    }
  }

  lemma SameOutsideTrans(s: Snapshot, t: Snapshot, u: Snapshot, root: Path)
    requires SameOutside(s, t, root) && SameOutside(t, u, root)
    ensures SameOutside(s, u, root)
  {
  }

  /** Snapshots that agree at every path are the same snapshot. */
  lemma AgreeEverywhere(s: Snapshot, t: Snapshot)
    requires forall p :: Agree(s, t, p)
    ensures s == t
  {
    forall p ensures (p in s.files <==> p in t.files) && (p in s.dirs <==> p in t.dirs) {
      assert Agree(s, t, p);
    }
    forall p | p in s.files ensures s.files[p] == t.files[p] {
      assert Agree(s, t, p);
    }
    assert s.files == t.files;
  }

  /** Paths that part ways below a common `base` lie outside each other. */
  lemma Diverge(base: Path, a: string, b: string, x: Path, y: Path)
    requires a != b
    ensures !Under(base + [a] + x, base + [b] + y)
  {
    var p, root := base + [a] + x, base + [b] + y;
    assert p[|base|] == a && root[|base|] == b;
  }

  /** Whatever lies below `a` is outside whatever lies below `b` when `a` and `b` are apart. */
  lemma ApartBelow(a: Path, b: Path, x: Path, y: Path)
    requires Apart(a, b)
    ensures !Under(a + x, b + y)
  {
    var p, root := a + x, b + y;
    if |a| <= |b| {
      assert root[..|a|] == b[..|a|] && p[..|a|] == a;
    } else {
      assert p[..|b|] == a[..|b|] && root[..|b|] == b;
    }
  }

  /** Where `p`, below `src`, lands when `src` is copied to `dst`. */
  function Relocate(p: Path, src: Path, dst: Path): Path
    requires Under(p, src)
  {
    dst + p[|src|..]
  }

  /** `fs.removeSync(root)`: `root` and everything below it are gone, nothing else changes. */
  function Remove(s: Snapshot, root: Path): (r: Snapshot)
    ensures SameOutside(s, r, root)
    ensures forall p :: Under(p, root) ==> !Exists(r, p)
  {
    Snapshot(
      map p | p in s.files && !Under(p, root) :: s.files[p],
      set p | p in s.dirs && !Under(p, root))
  }

  /** `fs.ensureDirSync(p)`. */
  function EnsureDir(s: Snapshot, p: Path): Snapshot {
    s.(dirs := s.dirs + {p})
  }

  /** `fs.writeFileSync(p, text)`. */
  function WriteFile(s: Snapshot, p: Path, text: string): Snapshot {
    s.(files := s.files[p := text])
  }

  /** `fs.copyFileSync(src, dst)`. */
  function CopyFile(s: Snapshot, src: Path, dst: Path): Snapshot
    requires src in s.files
  {
    WriteFile(s, dst, s.files[src])
  }

  /** `fs.copySync(src, dst)`: every file and directory at or below `src` is put at the
      same place below `dst`, over whatever is there; the rest of `dst` stays. */
  function Copy(s: Snapshot, src: Path, dst: Path): (r: Snapshot)
    ensures SameOutside(s, r, dst)
    ensures forall p :: Under(p, dst) ==>
      (Exists(r, p) <==> Exists(s, p) || Exists(s, src + p[|dst|..]))
    ensures forall p :: Under(p, dst) && src + p[|dst|..] in s.files ==>
      p in r.files && r.files[p] == s.files[src + p[|dst|..]]
    ensures forall p :: Under(p, dst) && !Exists(s, src + p[|dst|..]) ==> Agree(s, r, p)
  {
    var r := Snapshot(s.files + Copied(s.files, src, dst), s.dirs + Relocated(s.dirs, src, dst));
    CopyLands(s, src, dst, r);
    r
  }

  function Relocated(ps: set<Path>, src: Path, dst: Path): set<Path> {
    set p | p in ps && Under(p, src) :: Relocate(p, src, dst)
  }

  /** The files a copy of `src` puts below `dst`, keyed by where they land. */
  function Copied(files: map<Path, string>, src: Path, dst: Path): map<Path, string> {
    map p | p in Relocated(files.Keys, src, dst) && Under(p, dst) && src + p[|dst|..] in files
      :: files[src + p[|dst|..]]
  }

  lemma CopyLands(s: Snapshot, src: Path, dst: Path, r: Snapshot)
    requires r.files == s.files + Copied(s.files, src, dst)
    requires r.dirs == s.dirs + Relocated(s.dirs, src, dst)
    ensures SameOutside(s, r, dst)
    ensures forall p :: Under(p, dst) ==>
      (Exists(r, p) <==> Exists(s, p) || Exists(s, src + p[|dst|..]))
    ensures forall p :: Under(p, dst) && src + p[|dst|..] in s.files ==>
      p in r.files && r.files[p] == s.files[src + p[|dst|..]]
    ensures forall p :: Under(p, dst) && !Exists(s, src + p[|dst|..]) ==> Agree(s, r, p)
  {
    forall p | Under(p, dst)
      ensures (p in r.files) <==> (p in s.files || src + p[|dst|..] in s.files)
      ensures src + p[|dst|..] in s.files ==> r.files[p] == s.files[src + p[|dst|..]]
      ensures src + p[|dst|..] !in s.files && p in s.files ==> r.files[p] == s.files[p]
      ensures (p in r.dirs) <==> (p in s.dirs || src + p[|dst|..] in s.dirs)
    {
      var q := src + p[|dst|..];
      assert Under(q, src) && Relocate(q, src, dst) == p;
      forall q' | Under(q', src) && Relocate(q', src, dst) == p ensures q' == q {
        assert q'[|src|..] == p[|dst|..];
        assert q' == q'[..|src|] + q'[|src|..];
      }
    }
    forall p | !Under(p, dst) ensures Agree(s, r, p) {
      forall q' | Under(q', src) ensures Relocate(q', src, dst) != p {
        assert Relocate(q', src, dst)[..|dst|] == dst;
      }
    }
  }

  /** The file system the code changes in place. */
  class FileSystem {
    var files: map<Path, string>
    var dirs: set<Path>

    function State(): Snapshot
      reads this
    {
      Snapshot(files, dirs)
    }

    predicate ExistsSync(p: Path)
      reads this
    {
      Exists(State(), p)
    }

    method ReadFileSync(p: Path) returns (text: string)
      requires p in files
      ensures text == files[p]
    {
      text := files[p];
    }

    method WriteFileSync(p: Path, text: string)
      modifies this
      ensures State() == WriteFile(old(State()), p, text)
    {
      files := files[p := text];
    }

    method CopyFileSync(src: Path, dst: Path)
      requires src in files
      modifies this
      ensures State() == CopyFile(old(State()), src, dst)
    {
      files := files[dst := files[src]];
    }

    method EnsureDirSync(p: Path)
      modifies this
      ensures State() == EnsureDir(old(State()), p)
    {
      dirs := dirs + {p};
    }

    method RemoveSync(root: Path)
      modifies this
      ensures State() == Remove(old(State()), root)
    {
      files := map p | p in files && !Under(p, root) :: files[p];
      dirs := set p | p in dirs && !Under(p, root);
    }

    /** Copying a source that does not exist throws. */
    method CopySync(src: Path, dst: Path)
      requires ExistsSync(src)
      modifies this
      ensures State() == Copy(old(State()), src, dst)
    {
      var r := Copy(State(), src, dst);
      files, dirs := r.files, r.dirs;
    }
  }
}
