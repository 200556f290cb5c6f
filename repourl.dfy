/** The repository metadata resolver: the origin URL read from the git configuration, with
    a trailing `.git` removed, and the author and project name taken from it by the pattern
    `^https?://.+/(.+)/(.+)$`. */
module RepoUrl {
  import opened Optional
  import opened JsString

  /** A parsed git configuration: section name (such as `remote "origin"`) to its entries. */
  type GitConfig = map<string, map<string, string>>

  const OriginSection: string := "remote \"origin\""

  /** Reading `['remote "origin"'].url` of a configuration that lacks either throws. */
  predicate HasOriginUrl(git: Option<GitConfig>) {
    git.Some? ==> OriginSection in git.value && "url" in git.value[OriginSection]
  }

  /** `url.replace(/\.git$/, "")`: `$` without the multiline flag anchors at the very end. */
  function StripGitSuffix(url: string): (r: string)
    ensures EndsWith(url, ".git") ==> r + ".git" == url
    ensures !EndsWith(url, ".git") ==> r == url
  {
    if EndsWith(url, ".git") then url[..|url| - 4] else url
  }

  /** Exactly one `.git` is removed: stripping undoes appending it. */
  lemma StripAppended(x: string)
    ensures StripGitSuffix(x + ".git") == x
  {
    assert EndsWith(x + ".git", ".git") by {
      assert (x + ".git")[|x|..] == ".git";
    }
  }

  /** `getGitRepoUrl`: no git configuration gives no URL. */
  function GitRepoUrl(git: Option<GitConfig>): (r: Option<string>)
    requires HasOriginUrl(git)
    ensures r.Some? <==> git.Some?
    ensures r.Some? ==> !EndsWith(git.value[OriginSection]["url"], ".git") ==> r.value == git.value[OriginSection]["url"]
    ensures r.Some? ==> EndsWith(git.value[OriginSection]["url"], ".git") ==> r.value + ".git" == git.value[OriginSection]["url"]
  {
    match git
    case None => None
    case Some(sections) => Some(StripGitSuffix(sections[OriginSection]["url"]))
  }

  /** Characters `.` in a JavaScript regular expression does not match. */
  predicate IsLineTerminator(c: char) {
    c == '\n' || c == '\r' || c == '\U{2028}' || c == '\U{2029}'
  }

  predicate HasLineTerminator(s: string) {
    exists i :: 0 <= i < |s| && IsLineTerminator(s[i])
  }

  /** Length of the `https?://` prefix the pattern demands, if the URL has one. */
  function SchemeLength(url: string): (r: Option<nat>)
    ensures r.Some? ==> r.value <= |url|
  {
    if StartsWith(url, "https://") then Some(8)
    else if StartsWith(url, "http://") then Some(7)
    else None
  }

  datatype Repo = Repo(author: string, name: string)

  /** In the text after the scheme, slashes at `h` and `q` separate a non-empty host
      `rest[..h]`, author `rest[h + 1..q]` and name `rest[q + 1..]`: one way for
      `.+/(.+)/(.+)$` to match. */
  ghost predicate IsSplit(rest: string, h: int, q: int) {
    1 <= h && h + 2 <= q && q + 2 <= |rest| && rest[h] == '/' && rest[q] == '/'
  }

  /** The pattern matches `url` with `author` and `name` as its two groups. */
  ghost predicate Matches(url: string, author: string, name: string) {
    && SchemeLength(url).Some?
    && var rest := url[SchemeLength(url).value..];
    && !HasLineTerminator(rest)
    && |author| > 0 && |name| > 0
    && |author| + |name| + 3 <= |rest|
    && EndsWith(rest, "/" + author + "/" + name)
  }

  /** The last slash of `s` before position `k`. */
  function LastSlashBefore(s: string, k: nat): (r: Option<nat>)
    requires k <= |s|
    ensures r.Some? ==> r.value < k && s[r.value] == '/'
    ensures forall j: nat :: (r.None? || r.value < j) && j < k ==> s[j] != '/'
  {
    if k == 0 then None
    else if s[k - 1] == '/' then Some(k - 1)
    else LastSlashBefore(s, k - 1)
  }

  /** The split a backtracking matcher reports: the greedy `.+` groups are tried longest
      first, so the host gets the last slash that still leaves room for the rest, and
      then the author gets the last slash that leaves a non-empty name. */
  function GreedySplit(rest: string): (r: Option<(nat, nat)>)
    ensures r.Some? ==> IsSplit(rest, r.value.0, r.value.1)
    ensures r.Some? ==> forall h, q :: IsSplit(rest, h, q) ==> h <= r.value.0 && q <= r.value.1
    ensures r.None? ==> forall h, q :: !IsSplit(rest, h, q)
  {
    if |rest| < 2 then None
    else
      match LastSlashBefore(rest, |rest| - 1)
      case None => None
      case Some(q) =>
        if q < 2 then None
        else
          match LastSlashBefore(rest, q - 1)
          case None => None
          case Some(h) => if h == 0 then None else Some((h, q))
  }

  /** `url.match(/^https?:\/\/.+\/(.+)\/(.+)$/)`, giving the two groups. */
  function MatchRepo(url: string): (r: Option<Repo>)
    ensures r.Some? ==> Matches(url, r.value.author, r.value.name)
    ensures r.None? ==> forall a, n :: !Matches(url, a, n)
    ensures r.Some? ==> forall a, n :: Matches(url, a, n) ==>
      |r.value.name| <= |n| && |r.value.author| + |r.value.name| <= |a| + |n|
  {
    match SchemeLength(url)
    case None => None
    case Some(k) =>
      var rest := url[k..];
      if HasLineTerminator(rest) then None
      else
        match GreedySplit(rest)
        case None =>
          NoSplitNoMatch(url, k);
          None
        case Some(hq) =>
          var repo := Repo(rest[hq.0 + 1..hq.1], rest[hq.1 + 1..]);
          GreedyMatch(url, k, hq.0, hq.1);
          assert Matches(url, repo.author, repo.name);
          Some(repo)
  }

  /** Matches and splits are the same thing, seen from the groups or from the slashes. */
  lemma MatchFromSplit(rest: string, h: nat, q: nat)
    requires IsSplit(rest, h, q)
    ensures EndsWith(rest, "/" + rest[h + 1..q] + "/" + rest[q + 1..])
  {
    assert rest[h..] == "/" + rest[h + 1..q] + "/" + rest[q + 1..];
  }

  lemma SplitFromMatch(rest: string, a: string, n: string)
    requires |a| > 0 && |n| > 0 && |a| + |n| + 3 <= |rest|
    requires EndsWith(rest, "/" + a + "/" + n)
    ensures IsSplit(rest, |rest| - |a| - |n| - 2, |rest| - |n| - 1)
    ensures a == rest[|rest| - |a| - |n| - 1..|rest| - |n| - 1] && n == rest[|rest| - |n|..]
  {
    var t := "/" + a + "/" + n;
    var h := |rest| - |a| - |n| - 2;
    assert rest[h..] == t;
    assert rest[h] == t[0];
    assert rest[h + 1 + |a|] == t[1 + |a|];
    assert rest[h..][1..1 + |a|] == rest[h + 1..h + 1 + |a|];
    assert t[1..1 + |a|] == a;
    assert rest[h..][2 + |a|..] == rest[|rest| - |n|..];
    assert t[2 + |a|..] == n;
  }

  lemma NoSplitNoMatch(url: string, k: nat)
    requires SchemeLength(url) == Some(k)
    requires forall h, q :: !IsSplit(url[k..], h, q)
    ensures forall a, n :: !Matches(url, a, n)
  {
    forall a, n | Matches(url, a, n) ensures false {
      SplitFromMatch(url[k..], a, n);
    }
  }

  /** The greedy split yields a match, and every other match has a name at least as
      long, and an author and name together at least as long, as the greedy one. */
  lemma GreedyMatch(url: string, k: nat, h: nat, q: nat)
    requires SchemeLength(url) == Some(k) && !HasLineTerminator(url[k..])
    requires IsSplit(url[k..], h, q)
    requires forall h', q' :: IsSplit(url[k..], h', q') ==> h' <= h && q' <= q
    ensures var r := Repo(url[k..][h + 1..q], url[k..][q + 1..]);
      && Matches(url, r.author, r.name)
      && forall a, n :: Matches(url, a, n) ==> |r.name| <= |n| && |r.author| + |r.name| <= |a| + |n|
  {
    var rest := url[k..];
    MatchFromSplit(rest, h, q);
    forall a, n | Matches(url, a, n)
      ensures |rest| - q - 1 <= |n| && |rest| - h - 2 <= |a| + |n|
    {
      SplitFromMatch(rest, a, n);
    }
  }

  lemma SchemeOf(scheme: string, rest: string)
    requires scheme == "https://" || scheme == "http://"
    ensures SchemeLength(scheme + rest) == Some(|scheme|)
    ensures (scheme + rest)[|scheme|..] == rest
  {
    var url := scheme + rest;
    assert url[..|scheme|] == scheme;
    assert scheme == "http://" ==> url[4] == ':';
  }

  /** The greedy split of `host/a/n` with slash-free `a` and `n` is at the two slashes
      written there. */
  lemma GreedyPlain(host: string, a: string, n: string)
    requires |host| > 0 && |a| > 0 && |n| > 0
    requires '/' !in a && '/' !in n
    ensures var rest := host + "/" + a + "/" + n;
      GreedySplit(rest) == Some((|host|, |host| + |a| + 1))
      && rest[|host| + 1..|host| + |a| + 1] == a && rest[|host| + |a| + 2..] == n
  {
    var rest := host + "/" + a + "/" + n;
    var h, q := |host|, |host| + |a| + 1;
    assert rest[h] == '/' && rest[q] == '/';
    assert IsSplit(rest, h, q);
    assert rest[h + 1..q] == a;
    assert rest[q + 1..] == n;
  }

  /** A URL of the usual shape `scheme://host/author/name`, with no slash in author or
      name, yields exactly that author and name. */
  lemma MatchPlain(url: string, scheme: string, host: string, a: string, n: string)
    requires url == scheme + host + "/" + a + "/" + n
    requires scheme == "https://" || scheme == "http://"
    requires |host| > 0 && |a| > 0 && |n| > 0
    requires '/' !in a && '/' !in n
    requires !HasLineTerminator(host + "/" + a + "/" + n)
    ensures MatchRepo(url) == Some(Repo(a, n))
  {
    var rest := host + "/" + a + "/" + n;
    PlainParts(url, scheme, host, a, n, rest);
    MatchOfSplit(url, |scheme|, rest, |host|, |host| + |a| + 1);
  }

  /** Where the scheme ends and the pattern's slashes fall in `scheme://host/a/n`. */
  lemma PlainParts(url: string, scheme: string, host: string, a: string, n: string, rest: string)
    requires url == scheme + host + "/" + a + "/" + n
    requires scheme == "https://" || scheme == "http://"
    requires |host| > 0 && |a| > 0 && |n| > 0
    requires '/' !in a && '/' !in n
    requires rest == host + "/" + a + "/" + n
    ensures SchemeLength(url) == Some(|scheme|) && url[|scheme|..] == rest
    ensures GreedySplit(rest) == Some((|host|, |host| + |a| + 1))
    ensures rest[|host| + 1..|host| + |a| + 1] == a && rest[|host| + |a| + 2..] == n
  {
    assert url == scheme + rest;
    SchemeOf(scheme, rest);
    GreedyPlain(host, a, n);
  }

  lemma MatchOfSplit(url: string, k: nat, rest: string, h: nat, q: nat)
    requires SchemeLength(url) == Some(k) && url[k..] == rest && !HasLineTerminator(rest)
    requires GreedySplit(rest) == Some((h, q))
    ensures MatchRepo(url) == Some(Repo(rest[h + 1..q], rest[q + 1..]))
  {
  }
}
