/** The staging steps of `prepareProject`: the work directory `.moonwave-temp` inside the
    project is wiped on `fresh`, refilled from the template, given a home page, the
    project's content folders and a generated site configuration. */
module Staging {
  import opened Optional
  import opened JsString
  import opened RepoUrl
  import opened Configuration
  import opened Files

  const IndexExts: seq<string> := ["html", "js", "mdx", "md"]
  const CopyFolders: seq<string> := ["blog", "docs", "pages"]
  const WorkDirName: string := ".moonwave-temp"
  const Dependencies: string := "node_modules"
  const SiteConfigFile: string := "docusaurus.config.js"
  const FeaturesMarker: string := "/***features***/"
  const NoReadmeNotice: string :=
    "This project doesn't have a README. If it had a README.md in its root directory, you would be reading that right now."

  function WorkDir(projectDir: Path): Path {
    projectDir + [WorkDirName]
  }

  function IndexPath(dir: Path, ext: string): Path {
    dir + ["pages", "index." + ext]
  }

  /** The four `pages/index.*` candidates below `dir`, in the order they are probed. */
  function IndexPaths(dir: Path): (r: seq<Path>)
    ensures |r| == |IndexExts|
    ensures forall i :: 0 <= i < |IndexExts| ==> r[i] == IndexPath(dir, IndexExts[i])
  {
    seq(|IndexExts|, i requires 0 <= i < |IndexExts| => IndexPath(dir, IndexExts[i]))
  }

  function ReadmePath(projectDir: Path): Path {
    projectDir + ["README.md"]
  }

  function SiteConfigPath(dir: Path): Path {
    dir + [SiteConfigFile]
  }

  // The template shipped with the command: `root` is copied wholesale, `home` holds the
  // generated home page's script and stylesheet.

  function TemplateRoot(template: Path): Path {
    template + ["root"]
  }

  function HomeScript(template: Path): Path {
    template + ["home", "index.js"]
  }

  function HomeStyles(template: Path): Path {
    template + ["home", "index.module.css"]
  }

  /** `FoldersEnabled`: which content folders the project has. */
  datatype FoldersEnabled = FoldersEnabled(blog: bool, docs: bool, pages: bool) {
    function Get(folder: string): bool {
      if folder == "blog" then blog
      else if folder == "docs" then docs
      else if folder == "pages" then pages
      else false
    }
  }

  /** The features list handed to `JSON.stringify`: `None` for a missing list (`null`),
      and `None` for each entry the rewrite turned into `undefined`. */
  type FeatureList = Option<seq<Option<Feature>>>

  datatype Args = Args(code: seq<string>, freshStart: bool)

  /** The code this model does not see, as functions of what it is given: the TOML and
      JSON parsers, `JSON.stringify` of the features list, and `getDocusaurusConfig`
      followed by `JSON.stringify(…, null, 2)`. */
  datatype Collaborators = Collaborators(
    parseToml: string -> Config,
    parseJson: string -> Config,
    featuresJson: FeatureList -> string,
    siteConfigJson: (seq<string>, FoldersEnabled, Config) -> string)

  datatype PreparedProject = PreparedProject(
    tempDir: Path,
    projectDir: Path,
    watchPaths: seq<Path>,
    docusaurusConfigModified: bool)

  // ---------------------------------------------------------------------------
  // Paths that cannot meet

  lemma ProjectEntryOutsideWork(projectDir: Path, name: string, rest: Path)
    requires name != WorkDirName
    ensures !Under(projectDir + [name] + rest, WorkDir(projectDir))
    ensures !Under(projectDir + [name] + rest, WorkDir(projectDir) + ["pages"])
  {
    Diverge(projectDir, name, WorkDirName, rest, []);
    assert WorkDir(projectDir) + [] == WorkDir(projectDir);
    Diverge(projectDir, name, WorkDirName, rest, ["pages"]);
  }

  lemma TemplateOutsideWork(template: Path, projectDir: Path, rest: Path)
    requires Apart(template, WorkDir(projectDir))
    ensures !Under(template + rest, WorkDir(projectDir))
    ensures !Under(template + rest, WorkDir(projectDir) + ["pages"])
  {
    ApartBelow(template, WorkDir(projectDir), rest, []);
    assert WorkDir(projectDir) + [] == WorkDir(projectDir);
    ApartBelow(template, WorkDir(projectDir), rest, ["pages"]);
  }

  lemma WorkEntryUnder(projectDir: Path, rest: Path)
    ensures Under(WorkDir(projectDir) + rest, WorkDir(projectDir))
  {
    assert (WorkDir(projectDir) + rest)[..|WorkDir(projectDir)|] == WorkDir(projectDir);
  }

  // ---------------------------------------------------------------------------
  // readConfig

  function TomlPath(projectDir: Path): Path {
    projectDir + ["moonwave.toml"]
  }

  function JsonPath(projectDir: Path): Path {
    projectDir + ["moonwave.json"]
  }

  /** The configuration file `readConfig` picks is a file (reading a directory throws). */
  predicate ConfigReadable(s: Snapshot, projectDir: Path) {
    && (Exists(s, TomlPath(projectDir)) ==> TomlPath(projectDir) in s.files)
    && (!Exists(s, TomlPath(projectDir)) && Exists(s, JsonPath(projectDir)) ==> JsonPath(projectDir) in s.files)
  }

  /** `readConfig`: `moonwave.toml` if present, else `moonwave.json`, else `{}`. */
  function ReadConfig(s: Snapshot, projectDir: Path, env: Collaborators): Config
    requires ConfigReadable(s, projectDir)
  {
    if Exists(s, TomlPath(projectDir)) then env.parseToml(s.files[TomlPath(projectDir)])
    else if Exists(s, JsonPath(projectDir)) then env.parseJson(s.files[JsonPath(projectDir)])
    else EmptyConfig
  }

  /** The configuration is read from outside the work directory, so staging never changes it. */
  lemma ReadConfigOutsideWork(s: Snapshot, t: Snapshot, projectDir: Path, env: Collaborators)
    requires ConfigReadable(s, projectDir) && SameOutside(s, t, WorkDir(projectDir))
    ensures ConfigReadable(t, projectDir)
    ensures ReadConfig(t, projectDir, env) == ReadConfig(s, projectDir, env)
  {
    ProjectEntryOutsideWork(projectDir, "moonwave.toml", []);
    ProjectEntryOutsideWork(projectDir, "moonwave.json", []);
    assert Agree(s, t, TomlPath(projectDir)) && Agree(s, t, JsonPath(projectDir));
  }

  // ---------------------------------------------------------------------------
  // makeHomePage

  predicate HomeEnabled(config: Config) {
    config.home.Some? && config.home.value.enabled == Some(true)
  }

  /** `config.docusaurus?.baseUrl` as string concatenation renders it. */
  function BaseUrlText(config: Config): string {
    if config.docusaurus.Some? && config.docusaurus.value.baseUrl.Some? then config.docusaurus.value.baseUrl.value
    else "undefined"
  }

  /** `${config.title}`. */
  function TitleText(config: Config): string {
    config.title.GetOr("undefined")
  }

  /** The placeholder page for a project without a README. */
  function Placeholder(config: Config): string {
    "# " + TitleText(config) + "\n" + NoReadmeNotice
  }

  /** The `features.map(...)` callback, over the whole list: a feature whose image starts
      with `/` gets `prefix` put before the image, both in the list it returns and in the
      feature object itself; any other feature comes out as `undefined` and is left as is. */
  function RewriteFeatures(features: seq<Feature>, prefix: string): (r: (seq<Option<Feature>>, seq<Feature>))
    ensures |r.0| == |features| && |r.1| == |features|
    ensures forall i :: 0 <= i < |features| && StartsWith(features[i].image, "/") ==>
      r.0[i] == Some(features[i].(image := prefix + features[i].image)) && r.1[i] == r.0[i].value
    ensures forall i :: 0 <= i < |features| && !StartsWith(features[i].image, "/") ==>
      r.0[i] == None && r.1[i] == features[i]
  {
    if features == [] then ([], [])
    else
      var rest := RewriteFeatures(features[1..], prefix);
      var f := features[0];
      if StartsWith(f.image, "/") then
        var g := f.(image := prefix + f.image);
        ([Some(g)] + rest.0, [g] + rest.1)
      else
        ([None] + rest.0, [f] + rest.1)
  }

  /** The list substituted into the home page, and the configuration after the callback
      has rewritten its feature objects in place. */
  function HomeFeatures(config: Config): (FeatureList, Config) {
    if config.home.Some? && config.home.value.features.Some? then
      var rewritten := RewriteFeatures(config.home.value.features.value, BaseUrlText(config));
      (Some(rewritten.0), config.(home := Some(config.home.value.(features := Some(rewritten.1)))))
    else
      (None, config)
  }

  /** The project has its own `pages/index.*`. */
  predicate HasUserIndex(s: Snapshot, projectDir: Path) {
    exists i :: 0 <= i < |IndexExts| && Exists(s, IndexPath(projectDir, IndexExts[i]))
  }

  /** `p` lies below none of `roots`. */
  predicate Clear(p: Path, roots: seq<Path>) {
    forall i :: 0 <= i < |roots| ==> !Under(p, roots[i])
  }

  /** `fs.removeSync` on each of `roots` in turn. */
  function RemoveEach(s: Snapshot, roots: seq<Path>): (r: Snapshot)
    ensures forall p :: Clear(p, roots) ==> Agree(s, r, p)
    ensures forall i, p :: 0 <= i < |roots| && Under(p, roots[i]) ==> !Exists(r, p)
  {
    if roots == [] then s
    else
      var before := RemoveEach(s, roots[..|roots| - 1]);
      assert forall p :: Clear(p, roots) ==> Clear(p, roots[..|roots| - 1]);
      var r := Remove(before, roots[|roots| - 1]);
      assert forall p :: !Under(p, roots[|roots| - 1]) ==> Agree(before, r, p);
      assert forall i, p :: 0 <= i < |roots| && Under(p, roots[i]) ==> !Exists(r, p) by {
        forall i, p | 0 <= i < |roots| && Under(p, roots[i]) ensures !Exists(r, p) {
          if i < |roots| - 1 && !Under(p, roots[|roots| - 1]) {
            assert roots[..|roots| - 1][i] == roots[i];
            assert !Exists(before, p);
          }
        }
      }
      r
  }

  lemma IndexUnderPages(projectDir: Path, ext: string)
    ensures Under(IndexPath(WorkDir(projectDir), ext), WorkDir(projectDir) + ["pages"])
  {
    var pages := WorkDir(projectDir) + ["pages"];
    assert IndexPath(WorkDir(projectDir), ext)[..|pages|] == pages;
  }

  lemma OutsideIndexes(projectDir: Path, p: Path)
    requires !Under(p, WorkDir(projectDir) + ["pages"])
    ensures Clear(p, IndexPaths(WorkDir(projectDir)))
  {
    var work := WorkDir(projectDir);
    forall i | 0 <= i < |IndexExts| ensures !Under(p, IndexPaths(work)[i]) {
      IndexUnderPages(projectDir, IndexExts[i]);
      if Under(p, IndexPaths(work)[i]) {
        UnderTrans(p, IndexPaths(work)[i], work + ["pages"]);
      }
    }
  }

  /** What `makeHomePage` reads is there and readable. */
  predicate HomeReady(s: Snapshot, projectDir: Path, config: Config, template: Path) {
    && (HomeEnabled(config) ==>
          Apart(template, WorkDir(projectDir)) && HomeScript(template) in s.files && HomeStyles(template) in s.files)
    && (!HomeEnabled(config) && Exists(s, ReadmePath(projectDir)) ==> ReadmePath(projectDir) in s.files)
  }

  /** The work directory's `pages` after the four template index files are removed. */
  function ClearedPages(s: Snapshot, projectDir: Path): Snapshot {
    RemoveEach(EnsureDir(s, WorkDir(projectDir) + ["pages"]), IndexPaths(WorkDir(projectDir)))
  }

  /** Clearing the work directory's index files leaves everything outside it. */
  lemma ClearedKeeps(s: Snapshot, projectDir: Path, p: Path)
    requires !Under(p, WorkDir(projectDir) + ["pages"])
    ensures Agree(EnsureDir(s, WorkDir(projectDir) + ["pages"]), ClearedPages(s, projectDir), p)
    ensures p in s.files <==> p in ClearedPages(s, projectDir).files
    ensures p in s.files ==> ClearedPages(s, projectDir).files[p] == s.files[p]
  {
    OutsideIndexes(projectDir, p);
  }

  /** `makeHomePage`: the new state and the configuration as the features callback left it. */
  function HomePage(s: Snapshot, projectDir: Path, config: Config, template: Path, env: Collaborators): (Snapshot, Config)
    requires HomeReady(s, projectDir, config, template)
  {
    if HasUserIndex(s, projectDir) then (s, config)
    else
      var work := WorkDir(projectDir);
      var cleared := ClearedPages(s, projectDir);
      if HomeEnabled(config) then
        var features := HomeFeatures(config);
        TemplateOutsideWork(template, projectDir, ["home", "index.js"]);
        TemplateOutsideWork(template, projectDir, ["home", "index.module.css"]);
        ClearedKeeps(s, projectDir, HomeScript(template));
        ClearedKeeps(s, projectDir, HomeStyles(template));
        var source := ReplaceFirst(cleared.files[HomeScript(template)], FeaturesMarker, env.featuresJson(features.0));
        var written := WriteFile(cleared, IndexPath(work, "js"), source);
        (CopyFile(written, HomeStyles(template), work + ["pages", "index.module.css"]), features.1)
      else
        ProjectEntryOutsideWork(projectDir, "README.md", []);
        ClearedKeeps(s, projectDir, ReadmePath(projectDir));
        if Exists(cleared, ReadmePath(projectDir)) then
          (CopyFile(cleared, ReadmePath(projectDir), IndexPath(work, "md")), config)
        else
          (WriteFile(cleared, IndexPath(work, "md"), Placeholder(config)), config)
  }

  /** The `INDEX_EXTS.filter(...)` probe of the project's own index files. */
  method CountUserIndexes(fs: FileSystem, projectDir: Path) returns (count: nat)
    ensures count <= |IndexExts|
    ensures count == 0 <==> !HasUserIndex(fs.State(), projectDir)
  {
    count := 0;
    for i := 0 to |IndexExts|
      invariant count <= i
      invariant count == 0 <==> forall j :: 0 <= j < i ==> !Exists(fs.State(), IndexPath(projectDir, IndexExts[j]))
    {
      if fs.ExistsSync(IndexPath(projectDir, IndexExts[i])) {
        count := count + 1;
      }
    }
  }

  method MakeHomePage(fs: FileSystem, projectDir: Path, config: Config, template: Path, env: Collaborators)
    returns (updated: Config)
    requires HomeReady(fs.State(), projectDir, config, template)
    modifies fs
    ensures (fs.State(), updated) == HomePage(old(fs.State()), projectDir, config, template, env)
  {
    ghost var s := fs.State();
    var userIndexes := CountUserIndexes(fs, projectDir);
    updated := config;
    if userIndexes == 0 {
      var work := WorkDir(projectDir);
      fs.EnsureDirSync(work + ["pages"]);
      ghost var ensured := fs.State();
      for i := 0 to |IndexExts|
        invariant fs.State() == RemoveEach(ensured, IndexPaths(work)[..i])
      {
        assert IndexPaths(work)[..i + 1][..i] == IndexPaths(work)[..i];
        fs.RemoveSync(IndexPath(work, IndexExts[i]));
      }
      assert IndexPaths(work)[..|IndexExts|] == IndexPaths(work);
      assert fs.State() == ClearedPages(s, projectDir);
      if HomeEnabled(config) {
        var features := HomeFeatures(config);
        TemplateOutsideWork(template, projectDir, ["home", "index.js"]);
        TemplateOutsideWork(template, projectDir, ["home", "index.module.css"]);
        ClearedKeeps(s, projectDir, HomeScript(template));
        ClearedKeeps(s, projectDir, HomeStyles(template));
        var script := fs.ReadFileSync(HomeScript(template));
        fs.WriteFileSync(IndexPath(work, "js"), ReplaceFirst(script, FeaturesMarker, env.featuresJson(features.0)));
        fs.CopyFileSync(HomeStyles(template), work + ["pages", "index.module.css"]);
        updated := features.1;
      } else {
        ProjectEntryOutsideWork(projectDir, "README.md", []);
        ClearedKeeps(s, projectDir, ReadmePath(projectDir));
        if fs.ExistsSync(ReadmePath(projectDir)) {
          fs.CopyFileSync(ReadmePath(projectDir), IndexPath(work, "md"));
        } else {
          fs.WriteFileSync(IndexPath(work, "md"), Placeholder(config));
        }
      }
    }
  }

  // ---------------------------------------------------------------------------
  // writeDocusaurusConfig

  /** The site configuration module written for the generator. */
  function SiteConfigText(args: Args, found: FoldersEnabled, config: Config, env: Collaborators): string {
    "module.exports = " + env.siteConfigJson(args.code, found, config)
  }

  /** `writeDocusaurusConfig`: writes `text` to `dir/docusaurus.config.js` unless that file
      already holds it, and says whether it wrote. */
  function WriteConfig(s: Snapshot, dir: Path, text: string): (r: (Snapshot, bool))
    ensures r.1 <==> !(SiteConfigPath(dir) in s.files && s.files[SiteConfigPath(dir)] == text)
    ensures r.0.files == s.files[SiteConfigPath(dir) := text] && r.0.dirs == s.dirs
  {
    var p := SiteConfigPath(dir);
    if Exists(s, p) && p in s.files && s.files[p] == text then (s, false)
    else (WriteFile(s, p, text), true)
  }

  method WriteDocusaurusConfig(fs: FileSystem, dir: Path, text: string) returns (modified: bool)
    modifies fs
    ensures (fs.State(), modified) == WriteConfig(old(fs.State()), dir, text)
  {
    var p := SiteConfigPath(dir);
    if fs.ExistsSync(p) && p in fs.files {
      var current := fs.ReadFileSync(p);
      if current == text {
        return false;
      }
    }
    fs.WriteFileSync(p, text);
    modified := true;
  }

  // ---------------------------------------------------------------------------
  // copyContentFolders

  /** Which content folders the project has. */
  function Presence(s: Snapshot, projectDir: Path): FoldersEnabled {
    FoldersEnabled(
      Exists(s, projectDir + ["blog"]),
      Exists(s, projectDir + ["docs"]),
      Exists(s, projectDir + ["pages"]))
  }

  /** One folder of `copyContentFolders`: copied into the work directory if the project has it. */
  function CopyFolderStep(s: Snapshot, projectDir: Path, folder: string): (r: Snapshot)
    ensures SameOutside(s, r, WorkDir(projectDir) + [folder])
  {
    if Exists(s, projectDir + [folder]) then Copy(s, projectDir + [folder], WorkDir(projectDir) + [folder])
    else s
  }

  /** The first `k` folders of `COPY_FOLDERS` handled in order. */
  function CopyContentUpTo(s: Snapshot, projectDir: Path, k: nat): (r: Snapshot)
    requires k <= |CopyFolders|
    ensures SameOutside(s, r, WorkDir(projectDir))
    ensures forall p :: OutsideContent(p, projectDir) ==> Agree(s, r, p)
  {
    if k == 0 then s
    else
      var before := CopyContentUpTo(s, projectDir, k - 1);
      var r := CopyFolderStep(before, projectDir, CopyFolders[k - 1]);
      WorkEntryUnder(projectDir, [CopyFolders[k - 1]]);
      SameOutsideWiden(before, r, WorkDir(projectDir) + [CopyFolders[k - 1]], WorkDir(projectDir));
      SameOutsideTrans(s, before, r, WorkDir(projectDir));
      r
  }

  /** `p` lies below none of the three copy targets. */
  predicate OutsideContent(p: Path, projectDir: Path) {
    forall k :: 0 <= k < |CopyFolders| ==> !Under(p, WorkDir(projectDir) + [CopyFolders[k]])
  }

  function CopyContent(s: Snapshot, projectDir: Path): Snapshot {
    CopyContentUpTo(s, projectDir, |CopyFolders|)
  }

  /** The copies so far leave the project's own content folders as they were. */
  lemma ContentSourceKept(s: Snapshot, projectDir: Path, k: nat)
    requires k < |CopyFolders|
    ensures Exists(CopyContentUpTo(s, projectDir, k), projectDir + [CopyFolders[k]]) == Exists(s, projectDir + [CopyFolders[k]])
  {
    ProjectEntryOutsideWork(projectDir, CopyFolders[k], []);
    assert projectDir + [CopyFolders[k]] + [] == projectDir + [CopyFolders[k]];
    assert Agree(s, CopyContentUpTo(s, projectDir, k), projectDir + [CopyFolders[k]]);
  }

  method CopyContentFolders(fs: FileSystem, projectDir: Path) returns (found: FoldersEnabled)
    modifies fs
    ensures fs.State() == CopyContent(old(fs.State()), projectDir)
    ensures found == Presence(old(fs.State()), projectDir)
  {
    ghost var s := fs.State();
    var wasFound: seq<bool> := [];
    for k := 0 to |CopyFolders|
      invariant fs.State() == CopyContentUpTo(s, projectDir, k)
      invariant |wasFound| == k
      invariant forall j :: 0 <= j < k ==> wasFound[j] == Exists(s, projectDir + [CopyFolders[j]])
    {
      var folder := CopyFolders[k];
      ContentSourceKept(s, projectDir, k);
      if fs.ExistsSync(projectDir + [folder]) {
        fs.CopySync(projectDir + [folder], WorkDir(projectDir) + [folder]);
        wasFound := wasFound + [true];
      } else {
        wasFound := wasFound + [false];
      }
    }
    found := FoldersEnabled(wasFound[0], wasFound[1], wasFound[2]);
  }

  // ---------------------------------------------------------------------------
  // The fresh wipe

  /** `p` lies below the entry of `dir` whose name is in `names`. */
  predicate BelowEntry(p: Path, dir: Path, names: set<string>) {
    |dir| < |p| && p[..|dir|] == dir && p[|dir|] in names
  }

  /** The names `fs.readdirSync(dir)` lists. */
  function EntryNames(s: Snapshot, dir: Path): set<string> {
    set p | p in s.files.Keys + s.dirs && Under(p, dir) && |dir| < |p| :: p[|dir|]
  }

  /** `dir`'s entries called `names`, with everything below them, removed. */
  function RemoveEntries(s: Snapshot, dir: Path, names: set<string>): Snapshot {
    Snapshot(
      map p | p in s.files && !BelowEntry(p, dir, names) :: s.files[p],
      set p | p in s.dirs && !BelowEntry(p, dir, names))
  }

  lemma UnderEntry(p: Path, dir: Path, name: string)
    ensures Under(p, dir + [name]) <==> BelowEntry(p, dir, {name})
  {
    if Under(p, dir + [name]) {
      assert p[..|dir|] == p[..|dir| + 1][..|dir|];
      assert p[|dir|] == p[..|dir| + 1][|dir|];
    }
    if BelowEntry(p, dir, {name}) {
      assert p[..|dir| + 1] == p[..|dir|] + [p[|dir|]];
    }
  }

  /** Removing one more entry. */
  lemma RemoveOneMore(s: Snapshot, dir: Path, names: set<string>, name: string)
    ensures Remove(RemoveEntries(s, dir, names), dir + [name]) == RemoveEntries(s, dir, names + {name})
  {
    forall p ensures Under(p, dir + [name]) <==> BelowEntry(p, dir, {name}) {
      UnderEntry(p, dir, name);
    }
  }

  /** The fresh wipe: every entry of `dir` except `node_modules` removed. */
  function Wipe(s: Snapshot, dir: Path): (r: Snapshot)
    ensures SameOutside(s, r, dir) && Agree(s, r, dir)
    ensures forall p :: Under(p, dir + [Dependencies]) ==> Agree(s, r, p)
    ensures EntryNames(r, dir) == EntryNames(s, dir) * {Dependencies}
  {
    var r := RemoveEntries(s, dir, EntryNames(s, dir) - {Dependencies});
    forall p | Under(p, dir + [Dependencies]) ensures Agree(s, r, p) {
      UnderEntry(p, dir, Dependencies);
    }
    forall name | name in EntryNames(r, dir) ensures name in EntryNames(s, dir) && name == Dependencies {
      var p :| p in r.files.Keys + r.dirs && Under(p, dir) && |dir| < |p| && p[|dir|] == name;
      assert p in s.files.Keys + s.dirs;
    }
    forall name | name in EntryNames(s, dir) && name == Dependencies ensures name in EntryNames(r, dir) {
      var p :| p in s.files.Keys + s.dirs && Under(p, dir) && |dir| < |p| && p[|dir|] == name;
      assert p in r.files.Keys + r.dirs;
    }
    r
  }

  method ClearWorkDir(fs: FileSystem, dir: Path)
    modifies fs
    ensures fs.State() == Wipe(old(fs.State()), dir)
  {
    ghost var s := fs.State();
    var pending := EntryNames(fs.State(), dir) - {Dependencies};
    ghost var removed: set<string> := {};
    assert RemoveEntries(s, dir, {}) == s;
    while pending != {}
      invariant removed + pending == EntryNames(s, dir) - {Dependencies}
      invariant removed !! pending
      invariant fs.State() == RemoveEntries(s, dir, removed)
      decreases |pending|
    {
      var name :| name in pending;
      fs.RemoveSync(dir + [name]);
      RemoveOneMore(s, dir, removed, name);
      pending := pending - {name};
      removed := removed + {name};
    }
  }

  // ---------------------------------------------------------------------------
  // prepareProject

  /** The position of a content folder in `COPY_FOLDERS`. */
  function Rank(folder: string): nat {
    if folder == "blog" then 0 else if folder == "docs" then 1 else if folder == "pages" then 2 else 3
  }

  /** The found folders among `COPY_FOLDERS[k..]`, in that order. */
  function FoundFrom(found: FoldersEnabled, k: nat): (r: seq<string>)
    requires k <= |CopyFolders|
    ensures forall i :: k <= i < |CopyFolders| ==> (CopyFolders[i] in r <==> found.Get(CopyFolders[i]))
    ensures forall j :: 0 <= j < |r| ==> r[j] in CopyFolders && k <= Rank(r[j]) && found.Get(r[j])
    ensures forall i, j :: 0 <= i < j < |r| ==> Rank(r[i]) < Rank(r[j])
    decreases |CopyFolders| - k
  {
    if k == |CopyFolders| then []
    else
      var rest := FoundFrom(found, k + 1);
      if found.Get(CopyFolders[k]) then [CopyFolders[k]] + rest else rest
  }

  /** `path.join(projectDir, folder)` for each folder, in order. */
  function FolderPaths(projectDir: Path, names: seq<string>): (r: seq<Path>)
    ensures |r| == |names|
    ensures forall i :: 0 <= i < |names| ==> r[i] == projectDir + [names[i]]
  {
    if names == [] then [] else [projectDir + [names[0]]] + FolderPaths(projectDir, names[1..])
  }

  /** `watchPaths`: both configuration files, then each found content folder. */
  function WatchPaths(projectDir: Path, found: FoldersEnabled): seq<Path> {
    [TomlPath(projectDir), JsonPath(projectDir)] + FolderPaths(projectDir, FoundFrom(found, 0))
  }

  /** What `prepareProject` needs: a git configuration with the origin's URL where there is
      one, readable configuration, README and template files, and a template outside the
      work directory. */
  predicate Ready(s: Snapshot, projectDir: Path, git: Option<GitConfig>, template: Path) {
    && HasOriginUrl(git)
    && ConfigReadable(s, projectDir)
    && Apart(template, WorkDir(projectDir))
    && Exists(s, TemplateRoot(template))
    && HomeScript(template) in s.files && HomeStyles(template) in s.files
    && (Exists(s, ReadmePath(projectDir)) ==> ReadmePath(projectDir) in s.files)
  }

  /** The state after the optional wipe and the template copy still meets `Ready` outside
      the work directory. */
  lemma StagedReady(s: Snapshot, t: Snapshot, projectDir: Path, git: Option<GitConfig>, template: Path, config: Config)
    requires Ready(s, projectDir, git, template) && SameOutside(s, t, WorkDir(projectDir))
    ensures HomeReady(t, projectDir, config, template)
  {
    TemplateOutsideWork(template, projectDir, ["home", "index.js"]);
    TemplateOutsideWork(template, projectDir, ["home", "index.module.css"]);
    ProjectEntryOutsideWork(projectDir, "README.md", []);
    assert Agree(s, t, HomeScript(template)) && Agree(s, t, HomeStyles(template));
    assert Agree(s, t, ReadmePath(projectDir));
  }

  /** The optional wipe. */
  function Refresh(s: Snapshot, projectDir: Path, args: Args): (r: Snapshot)
    ensures SameOutside(s, r, WorkDir(projectDir))
  {
    if args.freshStart && Exists(s, WorkDir(projectDir)) then Wipe(s, WorkDir(projectDir)) else s
  }

  /** `prepareProject`: the final state, the prepared project and whether `npm i` runs. */
  function Prepare(s: Snapshot, projectDir: Path, args: Args, git: Option<GitConfig>, template: Path, env: Collaborators)
    : (Snapshot, PreparedProject, bool)
    requires Ready(s, projectDir, git, template)
  {
    var config := GetConfig(git, ReadConfig(s, projectDir, env));
    var work := WorkDir(projectDir);
    var s1 := Refresh(s, projectDir, args);
    var s2 := Copy(s1, TemplateRoot(template), work);
    SameOutsideTrans(s, s1, s2, work);
    StagedReady(s, s2, projectDir, git, template, config);
    var home := HomePage(s2, projectDir, config, template, env);
    var found := Presence(home.0, projectDir);
    var s4 := CopyContent(home.0, projectDir);
    var written := WriteConfig(s4, work, SiteConfigText(args, found, home.1, env));
    (written.0, PreparedProject(work, projectDir, WatchPaths(projectDir, found), written.1),
     !Exists(written.0, work + [Dependencies]))
  }

  method PrepareProject(fs: FileSystem, projectDir: Path, args: Args, git: Option<GitConfig>, template: Path, env: Collaborators)
    returns (prepared: PreparedProject, install: bool)
    requires Ready(fs.State(), projectDir, git, template)
    modifies fs
    ensures (fs.State(), prepared, install) == Prepare(old(fs.State()), projectDir, args, git, template, env)
  {
    ghost var s := fs.State();
    var config := GetConfig(git, ReadConfig(fs.State(), projectDir, env));
    var tempDir := WorkDir(projectDir);
    if args.freshStart && fs.ExistsSync(tempDir) {
      ClearWorkDir(fs, tempDir);
    }
    assert fs.State() == Refresh(s, projectDir, args);
    TemplateOutsideWork(template, projectDir, ["root"]);
    assert Agree(s, fs.State(), TemplateRoot(template));
    fs.CopySync(TemplateRoot(template), tempDir);
    SameOutsideTrans(s, Refresh(s, projectDir, args), fs.State(), tempDir);
    StagedReady(s, fs.State(), projectDir, git, template, config);
    config := MakeHomePage(fs, projectDir, config, template, env);
    var found := CopyContentFolders(fs, projectDir);
    var modified := WriteDocusaurusConfig(fs, tempDir, SiteConfigText(args, found, config, env));
    install := !fs.ExistsSync(tempDir + [Dependencies]);
    prepared := PreparedProject(tempDir, projectDir, WatchPaths(projectDir, found), modified);
  }
}
