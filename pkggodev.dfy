/** The pkg.go.dev investigator (api/sourceimpl/pkggodev.go). A Go import
    path is resolved as the go command does for remote import paths: fetch
    the path with "?go-get=1", read the "go-import" meta tag ("prefix vcs
    repo") and the optional "go-source" tag ("prefix home dir file"), then
    read the README from the GitHub or GitLab repository they point to.
    URL parsing, the HTTP request and the HTML tree walk are abstract. */
module PkgGoDev {
  import opened Wrappers
  import opened Errors
  import opened Strs
  import opened SourceType
  import opened SourceData
  import opened SourceDetect
  import opened Extract
  import opened SourceImpl
  import GitHub
  import GitLab

  /** A parsed URL (Go's *url.URL): its Hostname(), its String() and its
      query parameters. */
  datatype GoURL = GoURL(host: string, text: string, query: map<string, string>)

  /** The contents of the last non-empty "go-import" and "go-source" meta
      tags of a page ("" when there is none). */
  datatype MetaTags = MetaTags(importContent: string, sourceContent: string)

  /** The world: url.Parse (`None` on a parse error), the GET of the go-get
      URL (`None` on a transport error, `Some(None)` when the body is not
      HTML), and the two repository hosts' worlds. */
  datatype GoWorld = GoWorld(
    parse: string -> Option<GoURL>,
    get: GoURL -> Option<Option<MetaTags>>,
    github: GitHub.GitHubWorld,
    gitlab: GitLab.GitLabWorld)

  /** url.Parse keeps the host name in the URL's text, as Go's does. */
  ghost predicate ParseKeepsHost(parse: string -> Option<GoURL>) {
    forall s :: parse(s).Some? ==> Contains(parse(s).value.text, parse(s).value.host)
  }

  /** What detectGoMetadata returns: the repository URL, the homepage URL,
      and an error (`None` for nil). */
  datatype GoMetadata = GoMetadata(repository: Option<GoURL>, homepage: Option<GoURL>, err: Option<Error>)

  /** The package path with "https://" in front unless it is there. */
  function WithHTTPS(pkgPath: string): (r: string)
    ensures HasPrefix(r, "https://")
    ensures HasPrefix(pkgPath, "https://") ==> r == pkgPath
    ensures !HasPrefix(pkgPath, "https://") ==> r == "https://" + pkgPath
  {
    if HasPrefix(pkgPath, "https://") then pkgPath else "https://" + pkgPath
  }

  /** The request URL: the parsed URL with go-get=1 set. */
  function GoGetRequest(u: GoURL): (r: GoURL)
    ensures "go-get" in r.query && r.query["go-get"] == "1"
    ensures r.host == u.host && r.text == u.text
    ensures forall k :: k in u.query && k != "go-get" ==> k in r.query && r.query[k] == u.query[k]
  {
    u.(query := u.query["go-get" := "1"])
  }

  /** The homepage a go-source tag names: its second field, when it has at
      least two, parsed; `Some(None)` when that field does not parse. */
  function SourceHomepage(w: GoWorld, sourceContent: string): Option<Option<GoURL>> {
    if sourceContent != "" && |Fields(sourceContent)| >= 2 then Some(w.parse(Fields(sourceContent)[1]))
    else None
  }

  /** detectGoMetadata once the page's meta tags are known. */
  function MetadataFromTags(w: GoWorld, tags: MetaTags): (r: GoMetadata)
    ensures tags.importContent == "" || |Fields(tags.importContent)| != 3 ==>
              r == GoMetadata(None, None, Some(InvalidMetaTag))
    ensures r.repository.Some? ==>
              (|Fields(tags.importContent)| == 3 && r.repository == w.parse(Fields(tags.importContent)[2]))
    ensures r.homepage.Some? ==> SourceHomepage(w, tags.sourceContent) == Some(r.homepage)
    ensures r.repository.Some? && SourceHomepage(w, tags.sourceContent).None? ==> r.homepage.None? && r.err.None?
  {
    if tags.importContent == "" then GoMetadata(None, None, Some(InvalidMetaTag))
    else
      var importParts := Fields(tags.importContent);
      if |importParts| != 3 then GoMetadata(None, None, Some(InvalidMetaTag))
      else
        match w.parse(importParts[2])
        case None => GoMetadata(None, None, Some(InvalidMetaTag))
        case Some(repo) =>
          match SourceHomepage(w, tags.sourceContent)
          case None => GoMetadata(Some(repo), None, None)
          case Some(None) => GoMetadata(Some(repo), None, Some(InvalidMetaTag))
          case Some(Some(home)) => GoMetadata(Some(repo), Some(home), None)
  }

  /** detectGoMetadata: build the go-get URL, fetch it and read its tags. */
  function DetectGoMetadata(w: GoWorld, pkgPath: string): (r: GoMetadata)
    ensures r.repository.None? ==> r.homepage.None? && r.err.Some?
    ensures w.parse(WithHTTPS(pkgPath)).None? ==> r == GoMetadata(None, None, Some(RepositoryNotFound))
    ensures w.parse(WithHTTPS(pkgPath)).Some? && w.get(GoGetRequest(w.parse(WithHTTPS(pkgPath)).value)).None? ==>
              r == GoMetadata(None, None, Some(RepositoryNotFound))
  {
    match w.parse(WithHTTPS(pkgPath))
    case None => GoMetadata(None, None, Some(RepositoryNotFound))
    case Some(u) =>
      match w.get(GoGetRequest(u))
      case None => GoMetadata(None, None, Some(RepositoryNotFound))
      case Some(None) => GoMetadata(None, None, Some(InvalidMetaTag))
      case Some(Some(tags)) => MetadataFromTags(w, tags)
  }

  /** Whether a host is one whose README can be read. */
  predicate IsRepositoryHost(host: string) {
    host == "github.com" || host == "gitlab.com"
  }

  /** The source repository: the repository URL when it is on GitHub or
      GitLab, otherwise the homepage under the same condition. */
  function SourceRepository(repo: GoURL, home: Option<GoURL>): (r: Option<GoURL>)
    ensures r.Some? ==> IsRepositoryHost(r.value.host)
    ensures IsRepositoryHost(repo.host) ==> r == Some(repo)
    ensures !IsRepositoryHost(repo.host) ==> r == (if home.Some? && IsRepositoryHost(home.value.host) then home else None)
  {
    if IsRepositoryHost(repo.host) then Some(repo)
    else if home.Some? && IsRepositoryHost(home.value.host) then home
    else None
  }

  /** The references pkg.go.dev adds after the repository's own: the
      homepage, if any, then the source repository. */
  function TrailingReferences(home: Option<GoURL>, source: GoURL): (r: seq<RelatedReference>)
    ensures |r| == (if home.Some? then 2 else 1)
    ensures r[|r| - 1] == APIReference(DetectSourceTypeFromURL(source.text), source.text)
    ensures home.Some? ==> r[0] == APIReference(Homepage, home.value.text)
  {
    (if home.Some? then [APIReference(Homepage, home.value.text)] else []) +
    [APIReference(DetectSourceTypeFromURL(source.text), source.text)]
  }

  /** The README of the source repository, read by the GitHub fetcher when
      its URL mentions "github.com" and by the GitLab one otherwise (Go
      panics when neither host occurs; see SourceURLNamesHost). */
  function FetchSource(w: GoWorld, m: Matchers, source: GoURL): Result<Fetched, Error> {
    if Contains(source.text, "github.com") then GitHub.FetchGitHub(w.github, m, source.text)
    else GitLab.FetchGitLab(w.gitlab, m, source.text)
  }

  /** fetchPkgGoDev. */
  function FetchPkgGoDev(w: GoWorld, m: Matchers, pkgPath: string): Result<Fetched, Error> {
    if Contains(pkgPath, "github.com/") then GitHub.FetchGitHub(w.github, m, pkgPath)
    else if Contains(pkgPath, "gitlab.com/") then GitLab.FetchGitLab(w.gitlab, m, pkgPath)
    else
      var md := DetectGoMetadata(w, pkgPath);
      match md.repository
      case None => Failure(md.err.value)
      case Some(repo) =>
        match SourceRepository(repo, md.homepage)
        case None => Failure(PkgGoDevREADMENotFound)
        case Some(source) =>
          match FetchSource(w, m, source)
          case Failure(e) => Failure(e)
          case Success(f) => Success(Fetched(f.content, f.related + TrailingReferences(md.homepage, source)))
  }

  const BrowserPrefix := "https://pkg.go.dev/"

  function GetURL(packagePath: string): (u: string)
    ensures u == BrowserPrefix + packagePath
  {
    BrowserPrefix + packagePath
  }

  function PackageFromURL(url: string): Result<string, Error> {
    PathAfterPrefix(url, BrowserPrefix, InvalidPackagePath)
  }

  /** Fetch: fetchPkgGoDev's README and references with the browser URL. */
  function Fetch(w: GoWorld, m: Matchers, packagePath: string, now: int): Result<Data, Error> {
    FetchResult(FetchPkgGoDev(w, m, packagePath), GetURL(packagePath), now)
  }

  // ---------------------------------------------------------------------
  // Properties

  /** Paths on GitHub or GitLab are handed to those fetchers as they are. */
  lemma RepositoryPathsDelegated(w: GoWorld, m: Matchers, pkgPath: string)
    ensures Contains(pkgPath, "github.com/") ==> FetchPkgGoDev(w, m, pkgPath) == GitHub.FetchGitHub(w.github, m, pkgPath)
    ensures !Contains(pkgPath, "github.com/") && Contains(pkgPath, "gitlab.com/") ==>
              FetchPkgGoDev(w, m, pkgPath) == GitLab.FetchGitLab(w.gitlab, m, pkgPath)
  {
  }

  /** The go-import tag must have exactly three fields; the repository is
      the third, parsed. The go-source tag is optional: its second field is
      the homepage. A homepage that does not parse leaves the repository in
      place, and fetchPkgGoDev, which only looks at the repository, then
      goes on without a homepage. */
  lemma MetaTagsRead(w: GoWorld, tags: MetaTags)
    requires |Fields(tags.importContent)| == 3 && w.parse(Fields(tags.importContent)[2]).Some?
    ensures var r := MetadataFromTags(w, tags);
            r.repository == w.parse(Fields(tags.importContent)[2]) &&
            (|Fields(tags.sourceContent)| >= 2 ==> r.homepage == w.parse(Fields(tags.sourceContent)[1])) &&
            (|Fields(tags.sourceContent)| < 2 ==> r.homepage == None && r.err == None)
  {
    if |Fields(tags.sourceContent)| >= 2 {
      assert tags.sourceContent != "";
    }
  }

  /** When metadata detection fails the error is RepositoryNotFound (no
      URL, or no reply) or InvalidMetaTag (no tag, or a malformed one). */
  lemma MetadataErrors(w: GoWorld, pkgPath: string)
    ensures var r := DetectGoMetadata(w, pkgPath);
            r.repository.None? ==> r.err.value in {RepositoryNotFound, InvalidMetaTag}
  {
  }

  /** The repository URL the README is read from names its host, so the
      panic of fetchPkgGoDev cannot happen when url.Parse keeps the host. */
  lemma SourceURLNamesHost(w: GoWorld, repo: GoURL, home: Option<GoURL>, s: string, t: string)
    requires ParseKeepsHost(w.parse)
    requires w.parse(s) == Some(repo) && (home.Some? ==> w.parse(t) == home)
    requires SourceRepository(repo, home).Some?
    ensures Contains(SourceRepository(repo, home).value.text, "github.com") ||
            Contains(SourceRepository(repo, home).value.text, "gitlab.com")
  {
  }

  /** Other import paths: the repository's references, then the homepage
      reference if there is a homepage, then the source repository. */
  lemma ReferencesOrder(w: GoWorld, m: Matchers, pkgPath: string)
    requires !Contains(pkgPath, "github.com/") && !Contains(pkgPath, "gitlab.com/")
    requires FetchPkgGoDev(w, m, pkgPath).Success?
    ensures var md := DetectGoMetadata(w, pkgPath);
            var rel := FetchPkgGoDev(w, m, pkgPath).value.related;
            md.repository.Some? && SourceRepository(md.repository.value, md.homepage).Some? &&
            var source := SourceRepository(md.repository.value, md.homepage).value;
            var f := FetchSource(w, m, source);
            f.Success? && rel == f.value.related + TrailingReferences(md.homepage, source) &&
            rel[|rel| - 1] == APIReference(DetectSourceTypeFromURL(source.text), source.text)
  {
  }

  /** Without a GitHub or GitLab URL among repository and homepage, there
      is no README. */
  lemma NoRepositoryHost(w: GoWorld, m: Matchers, pkgPath: string)
    requires !Contains(pkgPath, "github.com/") && !Contains(pkgPath, "gitlab.com/")
    requires DetectGoMetadata(w, pkgPath).repository.Some?
    requires SourceRepository(DetectGoMetadata(w, pkgPath).repository.value, DetectGoMetadata(w, pkgPath).homepage).None?
    ensures FetchPkgGoDev(w, m, pkgPath) == Failure(PkgGoDevREADMENotFound)
  {
  }

  /** PackageFromURL undoes GetURL for every non-empty path. */
  lemma PackageFromURLRoundTrip(p: string)
    requires p != ""
    ensures PackageFromURL(GetURL(p)) == Success(p)
  {
    PathAfterPrefixRoundTrip(BrowserPrefix, p, InvalidPackagePath);
  }
}
