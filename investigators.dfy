/** The investigators behind the dispatch of
    api/sourceresolver/sourceresolver.go: GetURL, PackageFromURL and Fetch of
    each implementation, and the fetch function the crawl runs with. */
module Investigators {
  import opened Wrappers
  import opened Errors
  import opened Strs
  import opened SourceType
  import opened SourceData
  import opened Extract
  import opened SourceImpl
  import opened Resolver
  import Investigation
  import Cache
  import GitHub
  import GitLab
  import PkgGoDev
  import NPM
  import Crates
  import RubyGems
  import PyPI
  import Packagist
  import JSR
  import Website

  /** Everything outside the process the investigators talk to. The
      pkg.go.dev investigator uses the same GitHub and GitLab worlds. */
  datatype World = World(
    github: GitHub.GitHubWorld,
    gitlab: GitLab.GitLabWorld,
    parse: string -> Option<PkgGoDev.GoURL>,
    goGet: PkgGoDev.GoURL -> Option<Option<PkgGoDev.MetaTags>>,
    npm: NPM.NPMWorld,
    crates: Crates.CratesWorld,
    rubygems: RubyGems.RubyGemsWorld,
    pypi: PyPI.PyPIWorld,
    packagist: Packagist.PackagistWorld)

  function GoWorldOf(w: World): PkgGoDev.GoWorld {
    PkgGoDev.GoWorld(w.parse, w.goGet, w.github, w.gitlab)
  }

  function GetURL(inv: Investigator, packagePath: string): string {
    match inv
    case GitHubInvestigator => GitHub.GetURL(packagePath)
    case GitLabInvestigator => GitLab.GetURL(packagePath)
    case NPMInvestigator => NPM.GetURL(packagePath)
    case GoPkgDevInvestigator => PkgGoDev.GetURL(packagePath)
    case CratesIOInvestigator => Crates.GetURL(packagePath)
    case RubyGemsInvestigator => RubyGems.GetURL(packagePath)
    case PyPIInvestigator => PyPI.GetURL(packagePath)
    case PackagistInvestigator => Packagist.GetURL(packagePath)
    case JSRInvestigator => JSR.GetURL(packagePath)
    case WebsiteInvestigator(_) => Website.GetURL(packagePath)
  }

  function PackageFromURL(inv: Investigator, url: string): Result<string, Error> {
    match inv
    case GitHubInvestigator => GitHub.PackageFromURL(url)
    case GitLabInvestigator => GitLab.PackageFromURL(url)
    case NPMInvestigator => NPM.PackageFromURL(url)
    case GoPkgDevInvestigator => PkgGoDev.PackageFromURL(url)
    case CratesIOInvestigator => Crates.PackageFromURL(url)
    case RubyGemsInvestigator => RubyGems.PackageFromURL(url)
    case PyPIInvestigator => PyPI.PackageFromURL(url)
    case PackagistInvestigator => Packagist.PackageFromURL(url)
    case JSRInvestigator => JSR.PackageFromURL(url)
    case WebsiteInvestigator(_) => Website.PackageFromURL(url)
  }

  function Fetch(inv: Investigator, w: World, m: Matchers, packagePath: string, now: int): Result<Data, Error> {
    match inv
    case GitHubInvestigator => GitHub.Fetch(w.github, m, packagePath, now)
    case GitLabInvestigator => GitLab.Fetch(w.gitlab, m, packagePath, now)
    case NPMInvestigator => NPM.Fetch(w.npm, m, packagePath, now)
    case GoPkgDevInvestigator => PkgGoDev.Fetch(GoWorldOf(w), m, packagePath, now)
    case CratesIOInvestigator => Crates.Fetch(w.crates, m, packagePath, now)
    case RubyGemsInvestigator => RubyGems.Fetch(w.rubygems, m, packagePath, now)
    case PyPIInvestigator => PyPI.Fetch(w.pypi, m, packagePath, now)
    case PackagistInvestigator => Packagist.Fetch(w.packagist, m, packagePath, now)
    case JSRInvestigator => JSR.Fetch(packagePath, now)
    case WebsiteInvestigator(_) => Website.Fetch(packagePath, now)
  }

  /** The package path an investigator's browser URL names: the last
      segment for crates.io, RubyGems and PyPI, the part after the host for
      GitHub and GitLab, the path itself elsewhere. */
  function CanonicalPath(inv: Investigator, packagePath: string): string {
    match inv
    case GitHubInvestigator => StripThrough(packagePath, GitHub.Host)
    case GitLabInvestigator => StripThrough(packagePath, GitLab.Host)
    case CratesIOInvestigator | RubyGemsInvestigator | PyPIInvestigator => AfterLast(packagePath, '/')
    case _ => packagePath
  }

  /** The fetch function of the crawl: the investigator of the type, if it
      has one. The crawl aborts before fetching a type without one. */
  function FetchByType(w: World, m: Matchers, now: int): (Type, string) -> Result<Data, Error> {
    (t: Type, p: string) =>
      match InvestigatorFor(t)
      case None => Failure(NoInvestigator(t.Name()))
      case Some(inv) => Fetch(inv, w, m, p, now)
  }

  /** The crawl's world built from the investigators. */
  function EnvOf(w: World, m: Matchers, defaultDir: string, now: int, save: Cache.SaveStep): Investigation.Env {
    Investigation.Env(FetchByType(w, m, now), defaultDir, now, save)
  }

  // ---------------------------------------------------------------------
  // Properties

  /** Every successful Fetch has the browser URL of GetURL, no error, the
      given time, and a zero source, which the crawl fills in. */
  lemma FetchBrowserURL(inv: Investigator, w: World, m: Matchers, packagePath: string, now: int)
    requires Fetch(inv, w, m, packagePath, now).Success?
    ensures var d := Fetch(inv, w, m, packagePath, now).value;
            d.browserURL == Some(GetURL(inv, packagePath)) && d.fetchError == None && d.fetchedAt == now &&
            d.source == ZeroReference
  {
    match inv
    case GitHubInvestigator =>
    case GitLabInvestigator =>
    case NPMInvestigator =>
    case GoPkgDevInvestigator =>
    case CratesIOInvestigator =>
    case RubyGemsInvestigator =>
    case PyPIInvestigator =>
    case PackagistInvestigator =>
    case JSRInvestigator =>
    case WebsiteInvestigator(_) =>
  }

  /** PackageFromURL recovers the path GetURL put in the browser URL,
      whenever that path is not empty. */
  lemma PackageFromURLRoundTrip(inv: Investigator, packagePath: string)
    requires CanonicalPath(inv, packagePath) != ""
    ensures PackageFromURL(inv, GetURL(inv, packagePath)) == Success(CanonicalPath(inv, packagePath))
  {
    var q := CanonicalPath(inv, packagePath);
    match inv
    case GitHubInvestigator => PathAfterPrefixRoundTrip(GitHub.BrowserPrefix, q, InvalidPackagePath);
    case GitLabInvestigator => PathAfterPrefixRoundTrip(GitLab.BrowserPrefix, q, InvalidPackagePath);
    case NPMInvestigator => NPM.PackageFromURLRoundTrip(packagePath);
    case GoPkgDevInvestigator => PkgGoDev.PackageFromURLRoundTrip(packagePath);
    case CratesIOInvestigator => Crates.PackageFromURLRoundTrip(packagePath);
    case RubyGemsInvestigator => RubyGems.PackageFromURLRoundTrip(packagePath);
    case PyPIInvestigator => PyPI.PackageFromURLRoundTrip(packagePath);
    case PackagistInvestigator => Packagist.PackageFromURLRoundTrip(packagePath);
    case JSRInvestigator => JSR.PackageFromURLRoundTrip(packagePath);
    case WebsiteInvestigator(_) =>
  }

  /** The investigators that cannot fail. */
  lemma PlaceholdersNeverFail(inv: Investigator, w: World, m: Matchers, packagePath: string, now: int)
    requires inv.JSRInvestigator? || inv.WebsiteInvestigator?
    ensures Fetch(inv, w, m, packagePath, now).Success?
    ensures Fetch(inv, w, m, packagePath, now).value.relatedSources == []
  {
  }

  /** The crawl's fetch of a type with an investigator is that
      investigator's Fetch. */
  lemma FetchByTypeDispatches(w: World, m: Matchers, now: int, t: Type, p: string)
    requires t != Unknown
    ensures InvestigatorFor(t).Some? && FetchByType(w, m, now)(t, p) == Fetch(InvestigatorFor(t).value, w, m, p, now)
  {
    InvestigatorForNoneIff(t);
  }
}
