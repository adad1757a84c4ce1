/** How the browser URLs of the older package api (api/detect.go and
    api/extract.go) compare with those of the investigators that replaced
    it (api/sourceimpl). */
module LegacyCompat {
  import opened Strs
  import opened SourceType
  import opened Resolver
  import LegacyDetect
  import LegacyExtract
  import Investigators
  import GitHub
  import GitLab

  function Source(t: Type, p: string): LegacyDetect.DocSource {
    LegacyDetect.DocSource(t, p, [], "")
  }

  /** For pkg.go.dev, JSR, crates.io, RubyGems, PyPI and Packagist the older
      browser URL is the investigator's, whatever the path. */
  lemma RegistryURLsAgree(t: Type, p: string)
    requires t.IsRegistry() && t != NPM
    ensures InvestigatorFor(t).Some? &&
            LegacyDetect.GetURL(Source(t, p)) == Investigators.GetURL(InvestigatorFor(t).value, p)
  {
    match t
    case GoPkgDev =>
    case JSR =>
    case CratesIO =>
    case RubyGems =>
    case PyPI =>
    case Packagist =>
  }

  /** For npm they agree exactly when the path has no '/': the older code
      turns a scoped name's '/' into '-', the investigator keeps it. */
  lemma NPMURLsAgree(p: string)
    ensures LegacyDetect.GetURL(Source(NPM, p)) == Investigators.GetURL(NPMInvestigator, p) <==> '/' !in p
  {
    var flat := ReplaceAll(p, "/", "-");
    if '/' !in p {
      NotContainsByChar(p, "/", 0);
      ReplaceAllNone(p, "/", "-");
    } else {
      LegacyDetect.ReplaceSlashes(p);
      assert flat != p;
      var prefix := "https://www.npmjs.com/package/";
      assert (prefix + flat)[|prefix|..] == flat && (prefix + p)[|prefix|..] == p;
    }
  }

  /** For a GitHub or GitLab repository path that does not itself name the
      host, the older URL is the investigator's. */
  lemma RepositoryURLsAgree(t: Type, p: string)
    requires t.IsRepository()
    requires !Contains(p, "github.com/") && !Contains(p, "gitlab.com/")
    ensures InvestigatorFor(t).Some? &&
            LegacyDetect.GetURL(Source(t, p)) == Investigators.GetURL(InvestigatorFor(t).value, p)
  {
    if t == GitHub {
      IndexOfContains(p, GitHub.Host);
      if HasPrefix(p, "gitlab.com/") {
        ContainsAt(p, "gitlab.com/", 0);
      }
    } else {
      IndexOfContains(p, GitLab.Host);
    }
  }

  /** A related source the older extraction builds for a plain name (no
      '/') carries the browser URL the older DocSource of that package
      shows. */
  lemma ExtractedURLIsBrowserURL(t: Type, name: string)
    requires t.IsRegistry() && '/' !in name
    ensures LegacyExtract.PackageURL(t, name) == LegacyDetect.GetURL(Source(t, name))
  {
    NotContainsByChar(name, "/", 0);
    ReplaceAllNone(name, "/", "-");
  }
}
