/** What `prepareProject` and its steps promise, stated over the model in `Staging`. */
module StagingProperties {
  import opened Optional
  import opened JsString
  import opened RepoUrl
  import opened Configuration
  import opened Files
  import opened Staging

  // ---------------------------------------------------------------------------
  // makeHomePage

  /** The index file `makeHomePage` generates when the project has none. */
  function HomeIndexExt(config: Config): string {
    if HomeEnabled(config) then "js" else "md"
  }

  function PagesDir(projectDir: Path): Path {
    WorkDir(projectDir) + ["pages"]
  }

  function HomeStylesTarget(projectDir: Path): Path {
    PagesDir(projectDir) + ["index.module.css"]
  }

  lemma StylesTargetUnderPages(projectDir: Path)
    ensures Under(HomeStylesTarget(projectDir), PagesDir(projectDir))
    ensures forall ext :: ext in IndexExts ==> HomeStylesTarget(projectDir) != IndexPath(WorkDir(projectDir), ext)
  {
    assert HomeStylesTarget(projectDir)[..|PagesDir(projectDir)|] == PagesDir(projectDir);
    forall ext | ext in IndexExts ensures HomeStylesTarget(projectDir) != IndexPath(WorkDir(projectDir), ext) {
      var n := |WorkDir(projectDir)| + 1;
      assert HomeStylesTarget(projectDir)[n] == "index.module.css";
      assert IndexPath(WorkDir(projectDir), ext)[n] == "index." + ext;
    }
  }

  /** `makeHomePage` changes nothing outside the work directory's `pages`. */
  lemma HomePageFrame(s: Snapshot, projectDir: Path, config: Config, template: Path, env: Collaborators)
    requires HomeReady(s, projectDir, config, template)
    ensures SameOutside(s, HomePage(s, projectDir, config, template, env).0, PagesDir(projectDir))
  {
    var r := HomePage(s, projectDir, config, template, env).0;
    if !HasUserIndex(s, projectDir) {
      var work := WorkDir(projectDir);
      IndexUnderPages(projectDir, "js");
      IndexUnderPages(projectDir, "md");
      StylesTargetUnderPages(projectDir);
      forall p | !Under(p, PagesDir(projectDir)) ensures Agree(s, r, p) {
        ClearedKeeps(s, projectDir, p);
        assert p != IndexPath(work, "js") && p != IndexPath(work, "md") && p != HomeStylesTarget(projectDir);
        assert Agree(s, ClearedPages(s, projectDir), p);
      }
    }
  }

  /** With its own `pages/index.*` the project's home page is left alone; otherwise exactly
      one generated index is in the work directory's `pages` afterwards. */
  lemma HomePageIndexes(s: Snapshot, projectDir: Path, config: Config, template: Path, env: Collaborators)
    requires HomeReady(s, projectDir, config, template)
    ensures HasUserIndex(s, projectDir) ==> HomePage(s, projectDir, config, template, env) == (s, config)
    ensures !HasUserIndex(s, projectDir) ==>
      forall ext :: ext in IndexExts ==>
        (Exists(HomePage(s, projectDir, config, template, env).0, IndexPath(WorkDir(projectDir), ext)) <==>
         ext == HomeIndexExt(config))
  {
    if !HasUserIndex(s, projectDir) {
      var work := WorkDir(projectDir);
      var cleared := ClearedPages(s, projectDir);
      var r := HomePage(s, projectDir, config, template, env).0;
      StylesTargetUnderPages(projectDir);
      forall ext | ext in IndexExts
        ensures Exists(r, IndexPath(work, ext)) <==> ext == HomeIndexExt(config)
      {
        var i :| 0 <= i < |IndexExts| && IndexExts[i] == ext;
        assert IndexPaths(work)[i] == IndexPath(work, ext);
        assert !Exists(cleared, IndexPath(work, ext));
        if ext != HomeIndexExt(config) {
          assert "index." + ext != "index." + HomeIndexExt(config) by {
            assert ("index." + ext)[6..] == ext;
            assert ("index." + HomeIndexExt(config))[6..] == HomeIndexExt(config);
          }
          assert IndexPath(work, ext)[|work| + 1] != IndexPath(work, HomeIndexExt(config))[|work| + 1];
        }
      }
    }
  }

  /** The generated index: the template's home page with the features substituted and its
      stylesheet beside it, or else the README copied unchanged, or else the placeholder
      page; only the home page rewrites the configuration's features. */
  lemma HomePageContent(s: Snapshot, projectDir: Path, config: Config, template: Path, env: Collaborators)
    requires HomeReady(s, projectDir, config, template) && !HasUserIndex(s, projectDir)
    ensures var r := HomePage(s, projectDir, config, template, env);
      var index := IndexPath(WorkDir(projectDir), HomeIndexExt(config));
      && index in r.0.files
      && (HomeEnabled(config) ==>
            && r.0.files[index]
               == ReplaceFirst(s.files[HomeScript(template)], FeaturesMarker, env.featuresJson(HomeFeatures(config).0))
            && HomeStylesTarget(projectDir) in r.0.files
            && r.0.files[HomeStylesTarget(projectDir)] == s.files[HomeStyles(template)]
            && r.1 == HomeFeatures(config).1)
      && (!HomeEnabled(config) && Exists(s, ReadmePath(projectDir)) ==>
            r.0.files[index] == s.files[ReadmePath(projectDir)] && r.1 == config)
      && (!HomeEnabled(config) && !Exists(s, ReadmePath(projectDir)) ==>
            r.0.files[index] == Placeholder(config) && r.1 == config)
  {
    StylesTargetUnderPages(projectDir);
    assert HomeStylesTarget(projectDir) == WorkDir(projectDir) + ["pages", "index.module.css"];
    if HomeEnabled(config) {
      TemplateOutsideWork(template, projectDir, ["home", "index.js"]);
      TemplateOutsideWork(template, projectDir, ["home", "index.module.css"]);
      ClearedKeeps(s, projectDir, HomeScript(template));
      ClearedKeeps(s, projectDir, HomeStyles(template));
    } else {
      ProjectEntryOutsideWork(projectDir, "README.md", []);
      ClearedKeeps(s, projectDir, ReadmePath(projectDir));
    }
  }

  /** Clearing the index files again, after one was written and other files beside them,
      gives back the cleared state with those other files. */
  lemma ClearedAgain(s: Snapshot, projectDir: Path, idx: Path, text: string, written: map<Path, string>)
    requires idx in IndexPaths(WorkDir(projectDir))
    requires forall p :: p in written ==> Clear(p, IndexPaths(WorkDir(projectDir)))
    ensures var c := ClearedPages(s, projectDir);
      ClearedPages(Snapshot(c.files[idx := text] + written, c.dirs), projectDir) == Snapshot(c.files + written, c.dirs)
  {
    var work := WorkDir(projectDir);
    var idxs := IndexPaths(work);
    var c := ClearedPages(s, projectDir);
    var t := Snapshot(c.files[idx := text] + written, c.dirs);
    var again := ClearedPages(t, projectDir);
    var expected := Snapshot(c.files + written, c.dirs);
    assert Clear(PagesDir(projectDir), idxs);
    assert Agree(EnsureDir(s, PagesDir(projectDir)), c, PagesDir(projectDir));
    forall p ensures Agree(again, expected, p) {
      if Clear(p, idxs) {
        assert Agree(EnsureDir(t, PagesDir(projectDir)), again, p);
        assert p != idx by {
          var i :| 0 <= i < |idxs| && idxs[i] == idx;
          assert !Under(p, idxs[i]);
        }
      } else {
        var i :| 0 <= i < |idxs| && Under(p, idxs[i]);
        assert !Exists(again, p) && !Exists(c, p);
      }
    }
    AgreeEverywhere(again, expected);
  }

  /** Generating the home page a second time, from the same configuration as read from the
      project, changes nothing more. The configuration given again is the one read before
      the first run, not the one it returned: the features callback rewrites the
      configuration's feature objects in place, and feeding that back would put `baseUrl`
      before the root-relative images a second time. Each run of `prepareProject` reads
      the configuration afresh, which is what makes the step repeatable. */
  lemma HomePageTwice(s: Snapshot, projectDir: Path, config: Config, template: Path, env: Collaborators)
    requires HomeReady(s, projectDir, config, template)
    ensures HomeReady(HomePage(s, projectDir, config, template, env).0, projectDir, config, template)
    ensures var once := HomePage(s, projectDir, config, template, env).0;
      HomePage(once, projectDir, config, template, env).0 == once
  {
    var t := HomePage(s, projectDir, config, template, env).0;
    HomePageFrame(s, projectDir, config, template, env);
    ProjectEntryOutsideWork(projectDir, "README.md", []);
    assert Agree(s, t, ReadmePath(projectDir));
    if HomeEnabled(config) {
      TemplateOutsideWork(template, projectDir, ["home", "index.js"]);
      TemplateOutsideWork(template, projectDir, ["home", "index.module.css"]);
      assert Agree(s, t, HomeScript(template)) && Agree(s, t, HomeStyles(template));
    }
    if !HasUserIndex(s, projectDir) {
      assert !HasUserIndex(t, projectDir) by {
        forall i | 0 <= i < |IndexExts| ensures !Exists(t, IndexPath(projectDir, IndexExts[i])) {
          ProjectEntryOutsideWork(projectDir, "pages", ["index." + IndexExts[i]]);
          assert IndexPath(projectDir, IndexExts[i]) == projectDir + ["pages"] + ["index." + IndexExts[i]];
          assert Agree(s, t, IndexPath(projectDir, IndexExts[i]));
        }
      }
      if HomeEnabled(config) {
        HomePageTwiceEnabled(s, projectDir, config, template, env, t);
      } else {
        HomePageTwiceDisabled(s, projectDir, config, template, env, t);
      }
    }
  }

  /** The enabled home page's result, in terms of the state with the index files cleared. */
  function EnabledHome(c: Snapshot, projectDir: Path, config: Config, template: Path, env: Collaborators): Snapshot
    requires HomeScript(template) in c.files && HomeStyles(template) in c.files
  {
    var source := ReplaceFirst(c.files[HomeScript(template)], FeaturesMarker, env.featuresJson(HomeFeatures(config).0));
    Snapshot(c.files[IndexPath(WorkDir(projectDir), "js") := source]
               + map[HomeStylesTarget(projectDir) := c.files[HomeStyles(template)]], c.dirs)
  }

  lemma EnabledHomeForm(s: Snapshot, projectDir: Path, config: Config, template: Path, env: Collaborators)
    requires HomeReady(s, projectDir, config, template) && HomeEnabled(config) && !HasUserIndex(s, projectDir)
    ensures HomeScript(template) in ClearedPages(s, projectDir).files
    ensures HomeStyles(template) in ClearedPages(s, projectDir).files
    ensures HomePage(s, projectDir, config, template, env).0
      == EnabledHome(ClearedPages(s, projectDir), projectDir, config, template, env)
  {
    TemplateOutsideWork(template, projectDir, ["home", "index.js"]);
    TemplateOutsideWork(template, projectDir, ["home", "index.module.css"]);
    ClearedKeeps(s, projectDir, HomeScript(template));
    ClearedKeeps(s, projectDir, HomeStyles(template));
    IndexUnderPages(projectDir, "js");
    assert HomeStylesTarget(projectDir) == WorkDir(projectDir) + ["pages", "index.module.css"];
  }

  /** Where the enabled home page writes, against the index files and the template. */
  lemma EnabledTargets(projectDir: Path, template: Path)
    requires Apart(template, WorkDir(projectDir))
    ensures IndexPath(WorkDir(projectDir), "js") == IndexPaths(WorkDir(projectDir))[1]
    ensures Clear(HomeStylesTarget(projectDir), IndexPaths(WorkDir(projectDir)))
    ensures HomeScript(template) != HomeStylesTarget(projectDir)
    ensures HomeStyles(template) != HomeStylesTarget(projectDir)
    ensures IndexPath(WorkDir(projectDir), "js") != HomeStylesTarget(projectDir)
  {
    var work := WorkDir(projectDir);
    var css := HomeStylesTarget(projectDir);
    StylesTargetUnderPages(projectDir);
    forall i | 0 <= i < |IndexExts| ensures !Under(css, IndexPaths(work)[i]) {
      assert css != IndexPath(work, IndexExts[i]);
    }
    TemplateOutsideWork(template, projectDir, ["home", "index.js"]);
    TemplateOutsideWork(template, projectDir, ["home", "index.module.css"]);
  }

  /** The enabled home page comes out the same from the cleared state and from the cleared
      state with the stylesheet already copied. */
  lemma EnabledHomeAgain(c: Snapshot, again: Snapshot, projectDir: Path, config: Config, template: Path, env: Collaborators)
    requires HomeScript(template) in c.files && HomeStyles(template) in c.files
    requires HomeScript(template) != HomeStylesTarget(projectDir) && HomeStyles(template) != HomeStylesTarget(projectDir)
    requires IndexPath(WorkDir(projectDir), "js") != HomeStylesTarget(projectDir)
    requires again == Snapshot(c.files + map[HomeStylesTarget(projectDir) := c.files[HomeStyles(template)]], c.dirs)
    ensures HomeScript(template) in again.files && HomeStyles(template) in again.files
    ensures EnabledHome(again, projectDir, config, template, env) == EnabledHome(c, projectDir, config, template, env)
  {
    var source := ReplaceFirst(c.files[HomeScript(template)], FeaturesMarker, env.featuresJson(HomeFeatures(config).0));
    var css := HomeStylesTarget(projectDir);
    var styles := c.files[HomeStyles(template)];
    var idx := IndexPath(WorkDir(projectDir), "js");
    assert again.files[HomeScript(template)] == c.files[HomeScript(template)];
    assert again.files[HomeStyles(template)] == styles;
    assert (c.files + map[css := styles])[idx := source] + map[css := styles]
        == c.files[idx := source] + map[css := styles];
  }

  lemma HomePageTwiceEnabled(s: Snapshot, projectDir: Path, config: Config, template: Path, env: Collaborators, t: Snapshot)
    requires HomeReady(s, projectDir, config, template) && HomeEnabled(config) && !HasUserIndex(s, projectDir)
    requires t == HomePage(s, projectDir, config, template, env).0
    requires HomeReady(t, projectDir, config, template) && !HasUserIndex(t, projectDir)
    ensures HomePage(t, projectDir, config, template, env).0 == t
  {
    var work := WorkDir(projectDir);
    var c := ClearedPages(s, projectDir);
    EnabledHomeForm(s, projectDir, config, template, env);
    EnabledHomeForm(t, projectDir, config, template, env);
    EnabledTargets(projectDir, template);
    var source := ReplaceFirst(c.files[HomeScript(template)], FeaturesMarker, env.featuresJson(HomeFeatures(config).0));
    var styles := c.files[HomeStyles(template)];
    ClearedAgain(s, projectDir, IndexPath(work, "js"), source, map[HomeStylesTarget(projectDir) := styles]);
    EnabledHomeAgain(c, ClearedPages(t, projectDir), projectDir, config, template, env);
  }

  lemma HomePageTwiceDisabled(s: Snapshot, projectDir: Path, config: Config, template: Path, env: Collaborators, t: Snapshot)
    requires HomeReady(s, projectDir, config, template) && !HomeEnabled(config) && !HasUserIndex(s, projectDir)
    requires t == HomePage(s, projectDir, config, template, env).0
    requires HomeReady(t, projectDir, config, template) && !HasUserIndex(t, projectDir)
    ensures HomePage(t, projectDir, config, template, env).0 == t
  {
    var work := WorkDir(projectDir);
    var idx := IndexPath(work, "md");
    var readme := ReadmePath(projectDir);
    var c := ClearedPages(s, projectDir);
    ProjectEntryOutsideWork(projectDir, "README.md", []);
    ClearedKeeps(s, projectDir, readme);
    var text := if Exists(c, readme) then c.files[readme] else Placeholder(config);
    assert t == Snapshot(c.files[idx := text] + map[], c.dirs);
    assert idx == IndexPaths(work)[3];
    ClearedAgain(s, projectDir, idx, text, map[]);
    ClearedKeeps(t, projectDir, readme);
    assert c.files + map[] == c.files;
  }

  /** The features the home page shows: those whose image starts with `/` get the site's
      `baseUrl` put before the image, in the list and in the configuration alike; the rest
      are `undefined` in the list and untouched in the configuration. */
  lemma HomeFeaturesRewrite(config: Config)
    requires config.home.Some? && config.home.value.features.Some?
    ensures var (list, updated) := HomeFeatures(config);
      var before := config.home.value.features.value;
      && list.Some? && |list.value| == |before|
      && updated == config.(home := Some(config.home.value.(features := updated.home.value.features)))
      && updated.home.value.features.Some? && |updated.home.value.features.value| == |before|
      && forall i :: 0 <= i < |before| ==>
           && (StartsWith(before[i].image, "/") ==>
                 list.value[i] == Some(before[i].(image := BaseUrlText(config) + before[i].image))
                 && updated.home.value.features.value[i] == list.value[i].value)
           && (!StartsWith(before[i].image, "/") ==>
                 list.value[i] == None && updated.home.value.features.value[i] == before[i])
  {
  }

  // ---------------------------------------------------------------------------
  // writeDocusaurusConfig

  /** Writing the same configuration twice: the second call writes nothing and says so. */
  lemma WriteConfigTwice(s: Snapshot, dir: Path, text: string)
    ensures var first := WriteConfig(s, dir, text);
      WriteConfig(first.0, dir, text) == (first.0, false)
  {
    var first := WriteConfig(s, dir, text);
    if first.1 {
      assert first.0 == WriteFile(s, SiteConfigPath(dir), text);
    }
  }

  /** `writeDocusaurusConfig` changes nothing but the configuration file. */
  lemma WriteConfigFrame(s: Snapshot, dir: Path, text: string)
    ensures forall p :: p != SiteConfigPath(dir) ==> Agree(s, WriteConfig(s, dir, text).0, p)
    ensures SameOutside(s, WriteConfig(s, dir, text).0, dir)
  {
    assert SiteConfigPath(dir)[..|dir|] == dir;
  }

  // ---------------------------------------------------------------------------
  // copyContentFolders

  /** Below the copy target of one content folder, only that folder's own step acts. */
  lemma {:induction false} OtherStepsKeep(s: Snapshot, projectDir: Path, k: nat, lo: nat, hi: nat, p: Path)
    requires k < |CopyFolders| && lo <= hi <= |CopyFolders| && (k < lo || hi <= k)
    requires Under(p, WorkDir(projectDir) + [CopyFolders[k]])
    ensures Agree(CopyContentUpTo(s, projectDir, lo), CopyContentUpTo(s, projectDir, hi), p)
    decreases hi
  {
    if lo < hi {
      OtherStepsKeep(s, projectDir, k, lo, hi - 1, p);
      var g := CopyFolders[hi - 1];
      var work := WorkDir(projectDir);
      var rest := p[|work| + 1..];
      assert p == work + [CopyFolders[k]] + rest;
      Diverge(work, CopyFolders[k], g, rest, []);
      assert work + [g] + [] == work + [g];
    }
  }

  lemma CopyPlaces(s: Snapshot, src: Path, dst: Path, rel: Path)
    requires src + rel in s.files
    ensures dst + rel in Copy(s, src, dst).files && Copy(s, src, dst).files[dst + rel] == s.files[src + rel]
  {
    var p := dst + rel;
    assert p[|dst|..] == rel && p[..|dst|] == dst;
  }

  /** Each file of a content folder the project has lands at the same place in the work
      directory's copy of that folder. */
  lemma CopyContentFile(s: Snapshot, projectDir: Path, k: nat, rel: Path)
    requires k < |CopyFolders| && Exists(s, projectDir + [CopyFolders[k]])
    requires projectDir + [CopyFolders[k]] + rel in s.files
    ensures var target := WorkDir(projectDir) + [CopyFolders[k]] + rel;
      var r := CopyContent(s, projectDir);
      target in r.files && r.files[target] == s.files[projectDir + [CopyFolders[k]] + rel]
  {
    var f := CopyFolders[k];
    var src := projectDir + [f];
    var before := CopyContentUpTo(s, projectDir, k);
    ProjectEntryOutsideWork(projectDir, f, rel);
    ProjectEntryOutsideWork(projectDir, f, []);
    assert src + [] == src;
    assert Agree(s, before, src + rel) && Agree(s, before, src);
    assert CopyContentUpTo(s, projectDir, k + 1) == Copy(before, src, WorkDir(projectDir) + [f]);
    CopyPlaces(before, src, WorkDir(projectDir) + [f], rel);
    OtherStepsKeep(s, projectDir, k, k + 1, |CopyFolders|, WorkDir(projectDir) + [f] + rel);
  }

  /** A content folder the project lacks leaves its place in the work directory as it was. */
  lemma CopyContentAbsent(s: Snapshot, projectDir: Path, k: nat)
    requires k < |CopyFolders| && !Exists(s, projectDir + [CopyFolders[k]])
    ensures forall p :: Under(p, WorkDir(projectDir) + [CopyFolders[k]]) ==> Agree(s, CopyContent(s, projectDir), p)
  {
    var f := CopyFolders[k];
    var before := CopyContentUpTo(s, projectDir, k);
    ProjectEntryOutsideWork(projectDir, f, []);
    assert projectDir + [f] + [] == projectDir + [f];
    assert Agree(s, before, projectDir + [f]);
    assert CopyContentUpTo(s, projectDir, k + 1) == before;
    forall p | Under(p, WorkDir(projectDir) + [f]) ensures Agree(s, CopyContent(s, projectDir), p) {
      OtherStepsKeep(s, projectDir, k, 0, k, p);
      OtherStepsKeep(s, projectDir, k, k + 1, |CopyFolders|, p);
    }
  }

  // ---------------------------------------------------------------------------
  // prepareProject

  lemma DependenciesApart(projectDir: Path, p: Path)
    requires Under(p, WorkDir(projectDir) + [Dependencies])
    ensures !Under(p, PagesDir(projectDir)) && OutsideContent(p, projectDir) && p != SiteConfigPath(WorkDir(projectDir))
  {
    var work := WorkDir(projectDir);
    var rest := p[|work| + 1..];
    assert p == work + [Dependencies] + rest;
    Diverge(work, Dependencies, "pages", rest, []);
    assert work + ["pages"] + [] == PagesDir(projectDir);
    forall k | 0 <= k < |CopyFolders| ensures !Under(p, work + [CopyFolders[k]]) {
      Diverge(work, Dependencies, CopyFolders[k], rest, []);
      assert work + [CopyFolders[k]] + [] == work + [CopyFolders[k]];
    }
    assert p[|work|] == Dependencies;
  }

  /** The steps of `prepareProject` after the template copy leave `node_modules` alone. */
  lemma LaterStepsKeepDependencies(s2: Snapshot, projectDir: Path, config: Config, template: Path, args: Args, env: Collaborators)
    requires HomeReady(s2, projectDir, config, template)
    ensures var home := HomePage(s2, projectDir, config, template, env);
      var s4 := CopyContent(home.0, projectDir);
      var s5 := WriteConfig(s4, WorkDir(projectDir), SiteConfigText(args, Presence(home.0, projectDir), home.1, env)).0;
      Agree(s2, s5, WorkDir(projectDir) + [Dependencies])
  {
    var p := WorkDir(projectDir) + [Dependencies];
    assert p[..|p|] == p;
    DependenciesApart(projectDir, p);
    HomePageFrame(s2, projectDir, config, template, env);
    var home := HomePage(s2, projectDir, config, template, env);
    WriteConfigFrame(CopyContent(home.0, projectDir), WorkDir(projectDir),
      SiteConfigText(args, Presence(home.0, projectDir), home.1, env));
  }

  /** After the optional wipe and the template copy, the work directory has `node_modules`
      exactly when it had one before or the template brings one. */
  lemma StagedDependencies(s: Snapshot, projectDir: Path, args: Args, template: Path)
    requires Apart(template, WorkDir(projectDir))
    ensures var s2 := Copy(Refresh(s, projectDir, args), TemplateRoot(template), WorkDir(projectDir));
      Exists(s2, WorkDir(projectDir) + [Dependencies])
      <==> Exists(s, WorkDir(projectDir) + [Dependencies]) || Exists(s, TemplateRoot(template) + [Dependencies])
  {
    var work := WorkDir(projectDir);
    var s1 := Refresh(s, projectDir, args);
    var p := work + [Dependencies];
    assert p[..|p|] == p;
    assert Agree(s, s1, p);
    assert p[..|work|] == work && p[|work|..] == [Dependencies];
    TemplateOutsideWork(template, projectDir, ["root", Dependencies]);
    assert TemplateRoot(template) + [Dependencies] == template + ["root", Dependencies];
    assert Agree(s, s1, TemplateRoot(template) + [Dependencies]);
  }

  /** Dependencies are installed exactly when neither the work directory (which a fresh
      wipe keeps `node_modules` in) nor the template brings a `node_modules`. */
  lemma PrepareInstall(s: Snapshot, projectDir: Path, args: Args, git: Option<GitConfig>, template: Path, env: Collaborators)
    requires Ready(s, projectDir, git, template)
    ensures Prepare(s, projectDir, args, git, template, env).2 <==>
      !Exists(s, WorkDir(projectDir) + [Dependencies]) && !Exists(s, TemplateRoot(template) + [Dependencies])
  {
    var work := WorkDir(projectDir);
    var config := GetConfig(git, ReadConfig(s, projectDir, env));
    var s1 := Refresh(s, projectDir, args);
    var s2 := Copy(s1, TemplateRoot(template), work);
    SameOutsideTrans(s, s1, s2, work);
    StagedReady(s, s2, projectDir, git, template, config);
    LaterStepsKeepDependencies(s2, projectDir, config, template, args, env);
    StagedDependencies(s, projectDir, args, template);
  }

  /** `prepareProject` changes nothing outside the work directory. */
  lemma PrepareFrame(s: Snapshot, projectDir: Path, args: Args, git: Option<GitConfig>, template: Path, env: Collaborators)
    requires Ready(s, projectDir, git, template)
    ensures SameOutside(s, Prepare(s, projectDir, args, git, template, env).0, WorkDir(projectDir))
  {
    var work := WorkDir(projectDir);
    var config := GetConfig(git, ReadConfig(s, projectDir, env));
    var s1 := Refresh(s, projectDir, args);
    var s2 := Copy(s1, TemplateRoot(template), work);
    SameOutsideTrans(s, s1, s2, work);
    StagedReady(s, s2, projectDir, git, template, config);
    HomePageFrame(s2, projectDir, config, template, env);
    var home := HomePage(s2, projectDir, config, template, env);
    WorkEntryUnder(projectDir, ["pages"]);
    SameOutsideWiden(s2, home.0, PagesDir(projectDir), work);
    SameOutsideTrans(s, s2, home.0, work);
    var s4 := CopyContent(home.0, projectDir);
    SameOutsideTrans(s, home.0, s4, work);
    var text := SiteConfigText(args, Presence(home.0, projectDir), home.1, env);
    WriteConfigFrame(s4, work, text);
    SameOutsideTrans(s, s4, WriteConfig(s4, work, text).0, work);
  }

  /** The content folders reported to the site configuration and watched are those the
      project had when `prepareProject` started. */
  lemma PrepareWatches(s: Snapshot, projectDir: Path, args: Args, git: Option<GitConfig>, template: Path, env: Collaborators)
    requires Ready(s, projectDir, git, template)
    ensures Prepare(s, projectDir, args, git, template, env).1
      == PreparedProject(
           WorkDir(projectDir), projectDir,
           WatchPaths(projectDir, Presence(s, projectDir)),
           Prepare(s, projectDir, args, git, template, env).1.docusaurusConfigModified)
  {
    var work := WorkDir(projectDir);
    var config := GetConfig(git, ReadConfig(s, projectDir, env));
    var s1 := Refresh(s, projectDir, args);
    var s2 := Copy(s1, TemplateRoot(template), work);
    SameOutsideTrans(s, s1, s2, work);
    StagedReady(s, s2, projectDir, git, template, config);
    HomePageFrame(s2, projectDir, config, template, env);
    var home := HomePage(s2, projectDir, config, template, env);
    WorkEntryUnder(projectDir, ["pages"]);
    SameOutsideWiden(s2, home.0, PagesDir(projectDir), work);
    SameOutsideTrans(s, s2, home.0, work);
    PresenceOutsideWork(s, home.0, projectDir);
  }

  lemma PresenceOutsideWork(s: Snapshot, t: Snapshot, projectDir: Path)
    requires SameOutside(s, t, WorkDir(projectDir))
    ensures Presence(t, projectDir) == Presence(s, projectDir)
  {
    ProjectEntryOutsideWork(projectDir, "blog", []);
    ProjectEntryOutsideWork(projectDir, "docs", []);
    ProjectEntryOutsideWork(projectDir, "pages", []);
    assert projectDir + ["blog"] + [] == projectDir + ["blog"];
    assert projectDir + ["docs"] + [] == projectDir + ["docs"];
    assert projectDir + ["pages"] + [] == projectDir + ["pages"];
  }

  lemma UserIndexOutsideWork(s: Snapshot, t: Snapshot, projectDir: Path)
    requires SameOutside(s, t, WorkDir(projectDir))
    ensures HasUserIndex(t, projectDir) == HasUserIndex(s, projectDir)
  {
    forall i | 0 <= i < |IndexExts| ensures Agree(s, t, IndexPath(projectDir, IndexExts[i])) {
      ProjectEntryOutsideWork(projectDir, "pages", ["index." + IndexExts[i]]);
      assert projectDir + ["pages"] + ["index." + IndexExts[i]] == IndexPath(projectDir, IndexExts[i]);
    }
  }

  /** The configuration `makeHomePage` hands on depends only on whether the project has its
      own index and on the configuration it was given. */
  lemma HomePageConfig(s: Snapshot, projectDir: Path, config: Config, template: Path, env: Collaborators)
    requires HomeReady(s, projectDir, config, template)
    ensures HomePage(s, projectDir, config, template, env).1
      == if HasUserIndex(s, projectDir) || !HomeEnabled(config) then config else HomeFeatures(config).1
  {
  }

  /** The configuration handed to the site configuration, as `prepareProject` computes it from
      the state it starts from. */
  function StagedConfig(s: Snapshot, projectDir: Path, git: Option<GitConfig>, env: Collaborators): Config
    requires HasOriginUrl(git) && ConfigReadable(s, projectDir)
  {
    var config := GetConfig(git, ReadConfig(s, projectDir, env));
    if HasUserIndex(s, projectDir) || !HomeEnabled(config) then config else HomeFeatures(config).1
  }

  /** The site configuration text `prepareProject` computes from the state it starts from. */
  function ExpectedSiteConfig(s: Snapshot, projectDir: Path, args: Args, git: Option<GitConfig>, env: Collaborators): string
    requires HasOriginUrl(git) && ConfigReadable(s, projectDir)
  {
    SiteConfigText(args, Presence(s, projectDir), StagedConfig(s, projectDir, git, env), env)
  }

  /** The home-page step of `prepareProject`, on any state that differs from the starting one
      only inside the work directory. */
  lemma HomeStage(s: Snapshot, s2: Snapshot, projectDir: Path, git: Option<GitConfig>, template: Path, env: Collaborators)
    requires Ready(s, projectDir, git, template) && SameOutside(s, s2, WorkDir(projectDir))
    ensures var config := GetConfig(git, ReadConfig(s, projectDir, env));
      && HomeReady(s2, projectDir, config, template)
      && SameOutside(s, HomePage(s2, projectDir, config, template, env).0, WorkDir(projectDir))
      && Presence(HomePage(s2, projectDir, config, template, env).0, projectDir) == Presence(s, projectDir)
      && HomePage(s2, projectDir, config, template, env).1 == StagedConfig(s, projectDir, git, env)
  {
    var work := WorkDir(projectDir);
    var config := GetConfig(git, ReadConfig(s, projectDir, env));
    StagedReady(s, s2, projectDir, git, template, config);
    var home := HomePage(s2, projectDir, config, template, env);
    HomePageFrame(s2, projectDir, config, template, env);
    WorkEntryUnder(projectDir, ["pages"]);
    SameOutsideWiden(s2, home.0, PagesDir(projectDir), work);
    SameOutsideTrans(s, s2, home.0, work);
    PresenceOutsideWork(s, home.0, projectDir);
    UserIndexOutsideWork(s, s2, projectDir);
    HomePageConfig(s2, projectDir, config, template, env);
  }

  /** After `prepareProject` the work directory's `docusaurus.config.js` holds the expected
      site configuration. */
  lemma PrepareWrites(s: Snapshot, projectDir: Path, args: Args, git: Option<GitConfig>, template: Path, env: Collaborators)
    requires Ready(s, projectDir, git, template)
    ensures var r := Prepare(s, projectDir, args, git, template, env).0;
      SiteConfigPath(WorkDir(projectDir)) in r.files
      && r.files[SiteConfigPath(WorkDir(projectDir))] == ExpectedSiteConfig(s, projectDir, args, git, env)
  {
    var work := WorkDir(projectDir);
    var s1 := Refresh(s, projectDir, args);
    var s2 := Copy(s1, TemplateRoot(template), work);
    SameOutsideTrans(s, s1, s2, work);
    HomeStage(s, s2, projectDir, git, template, env);
  }

  /** The home page and the content copy leave the work directory's `docusaurus.config.js` alone. */
  lemma StagingKeepsSiteConfig(s2: Snapshot, projectDir: Path, config: Config, template: Path, env: Collaborators)
    requires HomeReady(s2, projectDir, config, template)
    ensures var home := HomePage(s2, projectDir, config, template, env).0;
      Agree(s2, CopyContent(home, projectDir), SiteConfigPath(WorkDir(projectDir)))
  {
    var work := WorkDir(projectDir);
    var c := SiteConfigPath(work);
    HomePageFrame(s2, projectDir, config, template, env);
    Diverge(work, SiteConfigFile, "pages", [], []);
    assert work + [SiteConfigFile] + [] == c && work + ["pages"] + [] == PagesDir(projectDir);
    forall k | 0 <= k < |CopyFolders| ensures !Under(c, work + [CopyFolders[k]]) {
      Diverge(work, SiteConfigFile, CopyFolders[k], [], []);
      assert work + [CopyFolders[k]] + [] == work + [CopyFolders[k]];
    }
    var home := HomePage(s2, projectDir, config, template, env).0;
    assert Agree(s2, home, c);
    assert Agree(home, CopyContent(home, projectDir), c);
  }

  /** Copying the template, which has no `docusaurus.config.js`, leaves the work directory's alone. */
  lemma TemplateCopyKeepsSiteConfig(s: Snapshot, projectDir: Path, template: Path)
    requires Apart(template, WorkDir(projectDir))
    requires !Exists(s, TemplateRoot(template) + [SiteConfigFile])
    ensures Agree(s, Copy(s, TemplateRoot(template), WorkDir(projectDir)), SiteConfigPath(WorkDir(projectDir)))
  {
    var work := WorkDir(projectDir);
    var c := SiteConfigPath(work);
    assert c[..|work|] == work && c[|work|..] == [SiteConfigFile];
  }

  /** Without `fresh`, and with no `docusaurus.config.js` in the template, `prepareProject`
      reports the site configuration modified exactly when the work directory's file does
      not already hold the expected text. */
  lemma PrepareModified(s: Snapshot, projectDir: Path, args: Args, git: Option<GitConfig>, template: Path, env: Collaborators)
    requires Ready(s, projectDir, git, template) && !args.freshStart
    requires !Exists(s, TemplateRoot(template) + [SiteConfigFile])
    ensures var c := SiteConfigPath(WorkDir(projectDir));
      Prepare(s, projectDir, args, git, template, env).1.docusaurusConfigModified
      <==> !(c in s.files && s.files[c] == ExpectedSiteConfig(s, projectDir, args, git, env))
  {
    var work := WorkDir(projectDir);
    var config := GetConfig(git, ReadConfig(s, projectDir, env));
    var s2 := Copy(s, TemplateRoot(template), work);
    TemplateCopyKeepsSiteConfig(s, projectDir, template);
    HomeStage(s, s2, projectDir, git, template, env);
    StagingKeepsSiteConfig(s2, projectDir, config, template, env);
  }

  /** What `prepareProject` needs and computes from its starting state lies outside the
      work directory. */
  lemma ReadyOutsideWork(s: Snapshot, t: Snapshot, projectDir: Path, git: Option<GitConfig>, template: Path)
    requires Ready(s, projectDir, git, template) && SameOutside(s, t, WorkDir(projectDir))
    ensures Ready(t, projectDir, git, template)
    ensures Exists(t, TemplateRoot(template) + [SiteConfigFile]) == Exists(s, TemplateRoot(template) + [SiteConfigFile])
  {
    ReadConfigOutsideWork(s, t, projectDir, Collaborators(_ => EmptyConfig, _ => EmptyConfig, _ => "", (_, _, _) => ""));
    TemplateOutsideWork(template, projectDir, ["root"]);
    TemplateOutsideWork(template, projectDir, ["home", "index.js"]);
    TemplateOutsideWork(template, projectDir, ["home", "index.module.css"]);
    TemplateOutsideWork(template, projectDir, ["root", SiteConfigFile]);
    assert TemplateRoot(template) + [SiteConfigFile] == template + ["root", SiteConfigFile];
    ProjectEntryOutsideWork(projectDir, "README.md", []);
    assert Agree(s, t, TemplateRoot(template)) && Agree(s, t, HomeScript(template));
    assert Agree(s, t, HomeStyles(template)) && Agree(s, t, ReadmePath(projectDir));
    assert Agree(s, t, TemplateRoot(template) + [SiteConfigFile]);
  }

  lemma ExpectedOutsideWork(s: Snapshot, t: Snapshot, projectDir: Path, args: Args, git: Option<GitConfig>, env: Collaborators)
    requires HasOriginUrl(git) && ConfigReadable(s, projectDir) && SameOutside(s, t, WorkDir(projectDir))
    ensures ConfigReadable(t, projectDir)
    ensures ExpectedSiteConfig(t, projectDir, args, git, env) == ExpectedSiteConfig(s, projectDir, args, git, env)
  {
    ReadConfigOutsideWork(s, t, projectDir, env);
    PresenceOutsideWork(s, t, projectDir);
    UserIndexOutsideWork(s, t, projectDir);
  }

  /** Everything `prepareProject` needs lies outside the work directory, so it still holds
      afterwards and the expected site configuration is the same. */
  lemma PrepareAgain(s: Snapshot, projectDir: Path, args: Args, git: Option<GitConfig>, template: Path, env: Collaborators)
    requires Ready(s, projectDir, git, template)
    ensures var first := Prepare(s, projectDir, args, git, template, env).0;
      && Ready(first, projectDir, git, template)
      && ExpectedSiteConfig(first, projectDir, args, git, env) == ExpectedSiteConfig(s, projectDir, args, git, env)
      && Exists(first, TemplateRoot(template) + [SiteConfigFile]) == Exists(s, TemplateRoot(template) + [SiteConfigFile])
  {
    var first := Prepare(s, projectDir, args, git, template, env).0;
    PrepareFrame(s, projectDir, args, git, template, env);
    ReadyOutsideWork(s, first, projectDir, git, template);
    ExpectedOutsideWork(s, first, projectDir, args, git, env);
  }

  /** Running `prepareProject` again, without `fresh`, on what it left behind reports the
      site configuration unmodified, provided the template brings no `docusaurus.config.js`
      of its own. */
  lemma RerunUnmodified(s: Snapshot, projectDir: Path, args: Args, git: Option<GitConfig>, template: Path, env: Collaborators)
    requires Ready(s, projectDir, git, template) && !args.freshStart
    requires !Exists(s, TemplateRoot(template) + [SiteConfigFile])
    ensures Ready(Prepare(s, projectDir, args, git, template, env).0, projectDir, git, template)
    ensures !Prepare(Prepare(s, projectDir, args, git, template, env).0, projectDir, args, git, template, env)
              .1.docusaurusConfigModified
  {
    var first := Prepare(s, projectDir, args, git, template, env).0;
    PrepareWrites(s, projectDir, args, git, template, env);
    PrepareAgain(s, projectDir, args, git, template, env);
    PrepareModified(first, projectDir, args, git, template, env);
  }

  /** The watch list: `moonwave.toml`, `moonwave.json`, then the folders of `found`. */
  lemma WatchPathsMembers(projectDir: Path, found: FoldersEnabled)
    ensures var w := WatchPaths(projectDir, found);
      && |w| >= 2 && w[0] == TomlPath(projectDir) && w[1] == JsonPath(projectDir)
      && forall f :: f in CopyFolders ==> (projectDir + [f] in w[2..] <==> found.Get(f))
  {
    forall f | f in CopyFolders ensures projectDir + [f] in WatchPaths(projectDir, found)[2..] <==> found.Get(f) {
      WatchedFolder(projectDir, found, f);
    }
  }

  lemma WatchedFolder(projectDir: Path, found: FoldersEnabled, f: string)
    requires f in CopyFolders
    ensures projectDir + [f] in WatchPaths(projectDir, found)[2..] <==> found.Get(f)
  {
    var names := FoundFrom(found, 0);
    assert WatchPaths(projectDir, found)[2..] == FolderPaths(projectDir, names);
    FolderPathsHas(projectDir, names, f);
  }

  /** A folder's path is in the list exactly when the folder is. */
  lemma {:induction false} FolderPathsHas(projectDir: Path, names: seq<string>, f: string)
    ensures projectDir + [f] in FolderPaths(projectDir, names) <==> f in names
  {
    if names != [] {
      FolderPathsHas(projectDir, names[1..], f);
      if projectDir + [names[0]] == projectDir + [f] {
        assert (projectDir + [names[0]])[|projectDir|] == names[0];
      }
      assert names == [names[0]] + names[1..];
    }
  }

  /** After the two configuration files come the found folders, in the order blog, docs, pages. */
  lemma WatchPathsOrder(projectDir: Path, found: FoldersEnabled)
    ensures var w := WatchPaths(projectDir, found);
      var names := FoundFrom(found, 0);
      && |w| == 2 + |names|
      && (forall i :: 0 <= i < |names| ==> w[2 + i] == projectDir + [names[i]])
      && (forall i, j :: 0 <= i < j < |names| ==> Rank(names[i]) < Rank(names[j]))
  {
    var names := FoundFrom(found, 0);
    var w := WatchPaths(projectDir, found);
    assert w[2..] == FolderPaths(projectDir, names);
    forall i | 0 <= i < |names| ensures w[2 + i] == projectDir + [names[i]] {
      assert w[2 + i] == w[2..][i];
    }
  }
}
