# moonwave project staging, in Dafny

moonwave builds a documentation site for a Lua project by staging a Docusaurus site in a
work directory, `.moonwave-temp`, inside the project. This model covers
`cli/src/prepareProject.ts`, which does the staging. It covers these steps:

- resolving the repository's author and name from the git remote;
- merging them with the user's `moonwave.toml`/`moonwave.json`;
- the optional fresh wipe of the work directory, which keeps `node_modules`;
- copying the template;
- generating the home page (`makeHomePage`);
- copying the `blog`, `docs` and `pages` folders (`copyContentFolders`);
- writing `docusaurus.config.js` only when it changes (`writeDocusaurusConfig`);
- deciding whether to install dependencies;
- the list of paths a watcher should follow.

Modules, one file each:

- `Optional`: `Option` and the `??` operator.
- `JsString`: `startsWith`, `endsWith`, `indexOf` and `String.prototype.replace` with a string
  pattern. That `replace` changes the first occurrence only and expands `$` patterns in the
  replacement.
- `RepoUrl`: `getGitRepoUrl` and the pattern `^https?://.+/(.+)/(.+)$`. The pattern is modelled
  exactly: `.` does not match line terminators, and the backtracking matcher takes the longest
  possible host part.
- `Configuration`: the `Config` record and `getConfig`.
- `Files`: the file system as fs-extra presents it. A snapshot maps file paths to contents and
  holds a set of directory paths. The class `FileSystem` holds the same two fields, and each of
  its `*Sync` methods changes them as the snapshot function of the same name says.
- `Staging`: the staging steps. Each is a function on snapshots that says what it does. The
  method on `FileSystem` that does it step by step is proved equal to that function.
- `StagingProperties`: what the steps promise, stated as lemmas over those functions.
- `Examples`: concrete cases.

Three collaborators are given to the model as functions rather than modelled:

- the TOML and JSON parsers;
- `JSON.stringify` of the home-page features;
- `getDocusaurusConfig` followed by `JSON.stringify(…, null, 2)`.

The git configuration and the template's location are inputs too.

Two behaviours of the code are easy to misread:

- `getConfig` spreads the user's `docusaurus` and `navbar` sections over the derived defaults
  key by key (lines 99-110). A user section therefore overrides single keys and does not
  replace the defaults wholesale.
- In the home page, a feature whose image does not start with `/` comes out of the `map`
  callback as `undefined` (lines 127-133), so `JSON.stringify` writes `null` for it. It is not
  kept unchanged. The callback also rewrites the feature objects of the configuration in place.
  The model returns that rewritten configuration, and the site configuration is generated
  from it, as in the code.

## Model

| member | source | states |
|---|---|---|
| JsString.ReplaceFirstLiteral | cli/src/prepareProject.ts:139 | with a `$`-free replacement, only the first occurrence of the marker is replaced and the rest is kept around it |
| JsString.SubstitutionLiteral | cli/src/prepareProject.ts:139 | a replacement without `$` is inserted verbatim |
| RepoUrl.StripGitSuffix | cli/src/prepareProject.ts:66 | a URL ending in `.git` loses exactly those four characters; any other URL is unchanged |
| RepoUrl.StripAppended | cli/src/prepareProject.ts:66 | stripping undoes appending one `.git`, so only one suffix is removed |
| RepoUrl.GitRepoUrl | cli/src/prepareProject.ts:62-68 | a URL exists iff there is a git configuration, and it is the origin URL without its `.git` suffix |
| RepoUrl.GreedySplit | cli/src/prepareProject.ts:88 | the split the matcher settles on: the last name slash and then the last author slash; none iff no split exists |
| RepoUrl.MatchRepo | cli/src/prepareProject.ts:87-88 | a result is a match of the pattern; no result means no author and name match at all; the result has the shortest name and then the shortest author, as backtracking leaves them |
| RepoUrl.MatchPlain | cli/src/prepareProject.ts:87-88 | `http(s)://host/author/name` with slash-free author and name yields exactly that author and name |
| Examples.StripTwice | cli/src/prepareProject.ts:66 | `x.git.git` becomes `x.git` |
| Examples.MatchGitHubExample | cli/src/prepareProject.ts:87-88 | `https://github.com/acme/widget` has author `acme` and name `widget` |
| Configuration.RepoName | cli/src/prepareProject.ts:87-88 | a repository name, when there is one, is not empty |
| Configuration.RepoAuthor | cli/src/prepareProject.ts:87-88 | a repository author, when there is one, is not empty |
| Configuration.GetConfig | cli/src/prepareProject.ts:94-111 | the user's top-level keys win over the derived title and URL; `docusaurus` and `navbar` are always present; each user key in them wins; the defaults are the repository name and author, the title fallback, and a `baseUrl` of `/name/` or `/` that is always `/`-delimited; the navbar title falls back to title, then `docusaurus.title`, then the name |
| Staging.ReadConfigOutsideWork | cli/src/prepareProject.ts:70-82 | the configuration read is the same in any state that differs only inside the work directory |
| Staging.RewriteFeatures | cli/src/prepareProject.ts:127-133 | a feature whose image starts with `/` gets the prefix before its image, in the list and in the object; every other feature is `undefined` in the list and untouched |
| Staging.RemoveEach | cli/src/prepareProject.ts:122-124 | nothing under any removed root is left; everything outside them is kept |
| Staging.CountUserIndexes | cli/src/prepareProject.ts:115-118 | the count is zero iff the project has none of the four `pages/index.*` files |
| Staging.MakeHomePage | cli/src/prepareProject.ts:114-160 | the new state and configuration are those of `HomePage` |
| Staging.WriteConfig | cli/src/prepareProject.ts:181-190 | it reports a write iff the file did not already hold the text; afterwards the file holds the text and nothing else differs |
| Staging.WriteDocusaurusConfig | cli/src/prepareProject.ts:162-191 | the new state and result are those of `WriteConfig` |
| Staging.CopyFolderStep | cli/src/prepareProject.ts:199-208 | only the folder's target in the work directory changes |
| Staging.CopyContentUpTo | cli/src/prepareProject.ts:197-210 | nothing outside the work directory changes, and nothing outside the three copy targets |
| Staging.CopyContentFolders | cli/src/prepareProject.ts:193-211 | the new state is `CopyContent`, and the flags are exactly which content folders the project had |
| Staging.Wipe | cli/src/prepareProject.ts:230-236 | nothing outside the work directory changes and `node_modules` is kept whole; `node_modules`, if it was there, is the only top-level entry left |
| Staging.ClearWorkDir | cli/src/prepareProject.ts:230-236 | the new state is `Wipe` |
| Staging.Refresh | cli/src/prepareProject.ts:230-236 | the optional wipe changes nothing outside the work directory |
| Staging.FoundFrom | cli/src/prepareProject.ts:269-272 | exactly the found folders, each once, in `COPY_FOLDERS` order |
| Staging.FolderPaths | cli/src/prepareProject.ts:272 | one `projectDir/folder` path per folder, in the same order |
| Staging.PrepareProject | cli/src/prepareProject.ts:222-275 | the new state, the prepared project and the install decision are those of `Prepare` |
| StagingProperties.HomePageFrame | cli/src/prepareProject.ts:114-160 | the home-page step changes nothing outside the work directory's `pages` |
| StagingProperties.HomePageIndexes | cli/src/prepareProject.ts:115-158 | a project with its own index is left exactly as it was; otherwise exactly one index exists afterwards, `index.js` when the home page is enabled and `index.md` otherwise |
| StagingProperties.HomePageContent | cli/src/prepareProject.ts:126-157 | the enabled home page is the template with the features substituted, with the stylesheet copied unchanged; otherwise the README is copied byte for byte, or the placeholder with the title is written |
| StagingProperties.HomeFeaturesRewrite | cli/src/prepareProject.ts:127-133 | the substituted list and the rewritten configuration, feature by feature, with `baseUrl` prepended to root-relative images and the rest `undefined` |
| StagingProperties.HomePageTwice | cli/src/prepareProject.ts:114-160 | a second home-page step with the configuration as read from the project finds what it needs and leaves the state exactly as the first left it |
| StagingProperties.HomePageConfig | cli/src/prepareProject.ts:126-133 | the configuration is rewritten only when no user index exists and the home page is enabled |
| StagingProperties.WriteConfigTwice | cli/src/prepareProject.ts:181-190 | writing the same text twice leaves the second call without effect and reporting no change |
| StagingProperties.WriteConfigFrame | cli/src/prepareProject.ts:168-190 | only `docusaurus.config.js` in the given directory can change |
| StagingProperties.CopyContentFile | cli/src/prepareProject.ts:199-205 | each file of a present content folder lands, unchanged, at the same place under the work directory |
| StagingProperties.CopyContentAbsent | cli/src/prepareProject.ts:202-208 | an absent content folder leaves its target in the work directory untouched |
| StagingProperties.PrepareFrame | cli/src/prepareProject.ts:222-260 | `prepareProject` changes nothing outside the work directory |
| StagingProperties.StagedDependencies | cli/src/prepareProject.ts:230-238 | after the optional wipe and the template copy, `node_modules` is in the work directory iff it was there before or the template root has one |
| StagingProperties.PrepareInstall | cli/src/prepareProject.ts:253 | dependencies are installed iff neither the work directory nor the template root held `node_modules` beforehand |
| StagingProperties.PrepareWatches | cli/src/prepareProject.ts:262-274 | the prepared project names the work and project directories and watches the folders the project had at the start |
| StagingProperties.PrepareWrites | cli/src/prepareProject.ts:245-250 | afterwards `docusaurus.config.js` holds the site configuration computed from the starting state |
| StagingProperties.PrepareModified | cli/src/prepareProject.ts:181-190 | without `fresh`, and when the template root has no `docusaurus.config.js`, the run reports a modification iff the file did not already hold that configuration |
| StagingProperties.PrepareAgain | cli/src/prepareProject.ts:222-250 | after a run, the inputs a second run needs are still there, unchanged |
| StagingProperties.RerunUnmodified | cli/src/prepareProject.ts:245-250 | when the template root has no `docusaurus.config.js`, a second run without `fresh` on what the first left reports the configuration unmodified |
| StagingProperties.WatchPathsMembers | cli/src/prepareProject.ts:266-273 | `moonwave.toml` and `moonwave.json` come first, then a content folder exactly when it was found |
| StagingProperties.FolderPathsHas | cli/src/prepareProject.ts:272 | a folder's path is in the list iff the folder is |
| StagingProperties.WatchPathsOrder | cli/src/prepareProject.ts:266-273 | the found folders follow the order blog, docs, pages |

## Left out

- Installing dependencies: `execSync("npm i")` is a subprocess. The model computes only the
  decision to run it.
- `console.log` output.
- TOML and JSON parsing: `toml.parse` and `fs.readJSONSync` are the `parseToml` and
  `parseJson` collaborators. Values of the wrong JSON type (a numeric `title`, a `null`) are
  not modelled.
- `parse-git-config`: reading `.git/config` from the current directory is the `git` input.
  A configuration without an origin URL makes the code throw. The model requires an origin URL
  whenever there is a configuration (`HasOriginUrl`).
- `getDocusaurusConfig` and `JSON.stringify`: these are the `siteConfigJson` and
  `featuresJson` collaborators. The output formatting is not modelled.
- `siteConfigJson` is taken to depend only on the code paths, the flags and the
  configuration, since `getDocusaurusConfig` is not part of this model.
  `StagingProperties.RerunUnmodified` relies on this.
- The template's contents: the template is a directory in the snapshot, given by its path.
  `__dirname` is not modelled.
- File-system errors: Node throws when it reads a directory as a file, lists a file as a
  directory, or writes into a missing directory. The model's preconditions (`Ready`,
  `HomeReady`, `ConfigReadable`) rule out the reads the code would fail on. The model does not
  track whether parent directories exist. `Ready` does not exclude a work directory that is a
  file. With `fresh`, `readdirSync` (line 232) would throw there, while the model's wipe leaves
  the file in place.
- Staging.WriteConfig: treats a directory at `docusaurus.config.js` as a file to overwrite.
  Node would throw there.
- StagingProperties.CopyContentFile: requires the folder itself to exist. Without a parent
  directory invariant, a file below it does not imply that.
- fs-extra's `copySync` details are not modelled: symbolic links, permissions, timestamps,
  and the error when a directory is copied onto a file.
- `path.join` normalisation: paths are sequences of segments.
- A feature without an `image`: `image` is a string in the model. An absent image behaves like
  the empty string in the code, since both are falsy, and the model covers the empty string.
- Concurrent runs on the same project directory are not modelled.
