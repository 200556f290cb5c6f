/** The project configuration (the `Config` type of cli/src/prepareProject.ts) and the
    merger `getConfig`: derived repository metadata, then the user's file, then the
    computed `docusaurus` and `navbar` sections, each spread field by field. */
module Configuration {
  import opened Optional
  import opened JsString
  import opened RepoUrl

  // Every key of every section is optional: `None` is a key the object does not have.

  datatype Docusaurus = Docusaurus(
    title: Option<string>,
    tagline: Option<string>,
    url: Option<string>,
    baseUrl: Option<string>,
    onBrokenLinks: Option<string>,
    onBrokenMarkdownLinks: Option<string>,
    favicon: Option<string>,
    organizationName: Option<string>,
    projectName: Option<string>)

  datatype Logo = Logo(alt: string, src: string)
  datatype Position = Left | Right
  datatype NavItem = NavItem(to: string, text: string, position: Position)  // `text` is the source's `label`, a Dafny keyword

  datatype Navbar = Navbar(
    hideableSidebar: Option<bool>,
    title: Option<string>,
    logo: Option<Logo>,
    items: Option<seq<NavItem>>)

  datatype Feature = Feature(title: string, description: string, image: string)
  datatype Home = Home(enabled: Option<bool>, features: Option<seq<Feature>>)

  datatype FooterItem = FooterItem(text: string, to: string)
  datatype FooterLinks = FooterLinks(title: string, copyright: string, items: seq<FooterItem>)
  datatype Footer = Footer(style: Option<string>, links: Option<seq<FooterLinks>>)

  datatype Config = Config(
    gitRepoUrl: Option<string>,
    gitSourceBranch: Option<string>,
    title: Option<string>,
    docusaurus: Option<Docusaurus>,
    navbar: Option<Navbar>,
    home: Option<Home>,
    footer: Option<Footer>)

  const NoDocusaurus := Docusaurus(None, None, None, None, None, None, None, None, None)
  const NoNavbar := Navbar(None, None, None, None)
  /** `{}`: what `readConfig` gives when the project has no configuration file. */
  const EmptyConfig := Config(None, None, None, None, None, None, None)

  /** `{ ...base, ...over }`: every key `over` has replaces `base`'s. */
  function SpreadConfig(base: Config, over: Config): Config {
    Config(
      Coalesce(over.gitRepoUrl, base.gitRepoUrl),
      Coalesce(over.gitSourceBranch, base.gitSourceBranch),
      Coalesce(over.title, base.title),
      Coalesce(over.docusaurus, base.docusaurus),
      Coalesce(over.navbar, base.navbar),
      Coalesce(over.home, base.home),
      Coalesce(over.footer, base.footer))
  }

  function SpreadDocusaurus(base: Docusaurus, over: Docusaurus): Docusaurus {
    Docusaurus(
      Coalesce(over.title, base.title),
      Coalesce(over.tagline, base.tagline),
      Coalesce(over.url, base.url),
      Coalesce(over.baseUrl, base.baseUrl),
      Coalesce(over.onBrokenLinks, base.onBrokenLinks),
      Coalesce(over.onBrokenMarkdownLinks, base.onBrokenMarkdownLinks),
      Coalesce(over.favicon, base.favicon),
      Coalesce(over.organizationName, base.organizationName),
      Coalesce(over.projectName, base.projectName))
  }

  function SpreadNavbar(base: Navbar, over: Navbar): Navbar {
    Navbar(
      Coalesce(over.hideableSidebar, base.hideableSidebar),
      Coalesce(over.title, base.title),
      Coalesce(over.logo, base.logo),
      Coalesce(over.items, base.items))
  }

  /** The repository the git remote names, if there is a remote and it has the
      `https?://host/author/name` shape. */
  function RepoOf(git: Option<GitConfig>): Option<Repo>
    requires HasOriginUrl(git)
  {
    match GitRepoUrl(git)
    case None => None
    case Some(url) => MatchRepo(url)
  }

  function RepoName(git: Option<GitConfig>): (r: Option<string>)
    requires HasOriginUrl(git)
    ensures r.Some? ==> |r.value| > 0
  {
    match RepoOf(git)
    case None => None
    case Some(repo) => Some(repo.name)
  }

  function RepoAuthor(git: Option<GitConfig>): (r: Option<string>)
    requires HasOriginUrl(git)
    ensures r.Some? ==> |r.value| > 0
  {
    match RepoOf(git)
    case None => None
    case Some(repo) => Some(repo.author)
  }

  /** `repoName ? `/${repoName}/` : "/"`, with JavaScript's truthiness of a string. */
  function DefaultBaseUrl(name: Option<string>): string {
    if name.Some? && name.value != "" then "/" + name.value + "/" else "/"
  }

  /** The user's `docusaurus` section, or no keys at all (spreading `undefined` adds none). */
  function UserDocusaurus(user: Config): Docusaurus {
    user.docusaurus.GetOr(NoDocusaurus)
  }

  function UserNavbar(user: Config): Navbar {
    user.navbar.GetOr(NoNavbar)
  }

  /** `getConfig`: merges the git remote's metadata with the user's configuration. */
  function GetConfig(git: Option<GitConfig>, user: Config): (r: Config)
    requires HasOriginUrl(git)
    // top level: the user's keys win over the derived title and URL; the rest is the user's
    ensures r.title == Coalesce(user.title, RepoName(git))
    ensures r.gitRepoUrl == Coalesce(user.gitRepoUrl, GitRepoUrl(git))
    ensures r.gitSourceBranch == user.gitSourceBranch && r.home == user.home && r.footer == user.footer
    // both computed sections are always present
    ensures r.docusaurus.Some? && r.navbar.Some?
    // docusaurus: each key the user gives wins; otherwise the derived default
    ensures var d, u := r.docusaurus.value, UserDocusaurus(user);
      && d.projectName == Coalesce(u.projectName, RepoName(git))
      && d.organizationName == Coalesce(u.organizationName, RepoAuthor(git))
      && d.title == Coalesce(u.title, Coalesce(user.title, RepoName(git)))
      && d.baseUrl == (if u.baseUrl.Some? then u.baseUrl
                       else if RepoName(git).Some? then Some("/" + RepoName(git).value + "/")
                       else Some("/"))
      && d.tagline == u.tagline && d.url == u.url && d.favicon == u.favicon
      && d.onBrokenLinks == u.onBrokenLinks && d.onBrokenMarkdownLinks == u.onBrokenMarkdownLinks
    // a derived base URL is a `/`-delimited path
    ensures UserDocusaurus(user).baseUrl.None? ==>
      StartsWith(r.docusaurus.value.baseUrl.value, "/") && EndsWith(r.docusaurus.value.baseUrl.value, "/")
    // navbar: the user's key wins; the title falls back to title, docusaurus.title, repo name
    ensures var n, u := r.navbar.value, UserNavbar(user);
      && n.title == Coalesce(u.title, Coalesce(user.title, Coalesce(UserDocusaurus(user).title, RepoName(git))))
      && n.hideableSidebar == u.hideableSidebar && n.logo == u.logo && n.items == u.items
  {
    var url := GitRepoUrl(git);
    var name := RepoName(git);
    var author := RepoAuthor(git);
    var derived := EmptyConfig.(title := name, gitRepoUrl := url);
    var docusaurusDefaults := NoDocusaurus.(
      projectName := name,
      organizationName := author,
      title := Coalesce(user.title, name),
      baseUrl := Some(DefaultBaseUrl(name)));
    var navbarDefaults := NoNavbar.(
      title := Coalesce(user.title, Coalesce(user.docusaurus.GetOr(NoDocusaurus).title, name)));
    SpreadConfig(derived, user).(
      docusaurus := Some(SpreadDocusaurus(docusaurusDefaults, user.docusaurus.GetOr(NoDocusaurus))),
      navbar := Some(SpreadNavbar(navbarDefaults, user.navbar.GetOr(NoNavbar))))
  }
}
