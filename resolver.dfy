/** The investigator dispatch of api/sourceresolver/sourceresolver.go: every
    source type that can be crawled has one investigator; the others have
    none, which aborts a crawl that reaches them. */
module Resolver {
  import opened Wrappers
  import opened SourceType

  /** The investigator implementations of api/sourceimpl. Only the website
      investigator carries state: the type it was created for. */
  datatype Investigator =
    | GitHubInvestigator
    | GitLabInvestigator
    | NPMInvestigator
    | GoPkgDevInvestigator
    | CratesIOInvestigator
    | RubyGemsInvestigator
    | PyPIInvestigator
    | PackagistInvestigator
    | JSRInvestigator
    | WebsiteInvestigator(websiteType: Type)

  /** GetSourceType of each implementation. */
  function GetSourceType(inv: Investigator): Type {
    match inv
    case GitHubInvestigator => GitHub
    case GitLabInvestigator => GitLab
    case NPMInvestigator => NPM
    case GoPkgDevInvestigator => GoPkgDev
    case CratesIOInvestigator => CratesIO
    case RubyGemsInvestigator => RubyGems
    case PyPIInvestigator => PyPI
    case PackagistInvestigator => Packagist
    case JSRInvestigator => JSR
    case WebsiteInvestigator(t) => t
  }

  /** sourceresolver.Investigator: `None` stands for Go's nil. */
  function InvestigatorFor(t: Type): (r: Option<Investigator>)
    ensures r.Some? ==> GetSourceType(r.value) == t
  {
    match t
    case GitHub => Some(GitHubInvestigator)
    case GitLab => Some(GitLabInvestigator)
    case NPM => Some(NPMInvestigator)
    case GoPkgDev => Some(GoPkgDevInvestigator)
    case CratesIO => Some(CratesIOInvestigator)
    case RubyGems => Some(RubyGemsInvestigator)
    case PyPI => Some(PyPIInvestigator)
    case Packagist => Some(PackagistInvestigator)
    case JSR => Some(JSRInvestigator)
    case Homepage => Some(WebsiteInvestigator(Homepage))
    case Documentation => Some(WebsiteInvestigator(Documentation))
    case Unknown => None
  }

  /** Only the empty (unknown) type lacks an investigator. */
  lemma InvestigatorForNoneIff(t: Type)
    ensures InvestigatorFor(t).None? <==> t == Unknown
  {
  }

  /** Homepage and documentation share the website investigator, which
      remembers which of the two it serves. */
  lemma WebsiteInvestigators(t: Type)
    ensures InvestigatorFor(t).Some? && InvestigatorFor(t).value.WebsiteInvestigator? <==>
      t == Homepage || t == Documentation
  {
  }

  /** Distinct types get distinct investigators. */
  lemma InvestigatorForInjective(s: Type, t: Type)
    requires InvestigatorFor(s).Some? && InvestigatorFor(s) == InvestigatorFor(t)
    ensures s == t
  {
  }
}
