/** The PyPI investigator (api/sourceimpl/pypi.go): the project document of
    the PyPI JSON API gives the description, used as README, the homepage
    and the project URLs, each classified by its host or its name. */
module PyPI {
  import opened Wrappers
  import opened Errors
  import opened Strs
  import opened SourceType
  import opened SourceData
  import opened SourceDetect
  import opened Util
  import opened Extract
  import opened SourceImpl

  /** The fields of the project document that are read. The project URLs
      are a JSON object, iterated in no fixed order: the model takes them as
      a sequence of (name, URL) pairs in whatever order they come. */
  datatype ProjectInfo = ProjectInfo(projectURLs: seq<(string, string)>, description: string, homepage: string)

  /** The API's reply per URL. */
  datatype PyPIWorld = PyPIWorld(api: string -> Reply<ProjectInfo>)

  /** The package name: the last segment of the path. */
  function PackageName(pkgPath: string): (r: string)
    ensures '/' !in r
  {
    AfterLast(pkgPath, '/')
  }

  function APIURL(pkgPath: string): string {
    "https://pypi.org/pypi/" + PackageName(pkgPath) + "/json"
  }

  /** The names that mark a project URL as the home page or as the source
      repository, compared in lower case. */
  const HomeNames: set<string> := {"homepage", "home"}
  const RepositoryNames: set<string> := {"repository", "source", "source code", "code"}

  /** The type of a project URL: its host's when that is GitHub or GitLab;
      otherwise by its name, with documentation for any other name. */
  function ProjectURLType(name: string, url: string): Type {
    var detected := DetectSourceTypeFromURL(url);
    if detected.IsRepository() then detected
    else if ToLower(name) in HomeNames then Homepage
    else if ToLower(name) in RepositoryNames then DetectSourceTypeFromURL(url)
    else Documentation
  }

  /** One reference per project URL, in the order given. */
  function ProjectReferences(projectURLs: seq<(string, string)>): (r: seq<RelatedReference>)
    ensures |r| == |projectURLs|
    ensures forall i :: 0 <= i < |r| ==> r[i] == APIReference(ProjectURLType(projectURLs[i].0, projectURLs[i].1), projectURLs[i].1)
  {
    seq(|projectURLs|, i requires 0 <= i < |projectURLs| =>
      APIReference(ProjectURLType(projectURLs[i].0, projectURLs[i].1), projectURLs[i].1))
  }

  /** The project-URL loop of fetchPyPI. */
  method ClassifyProjectURLs(projectURLs: seq<(string, string)>) returns (sources: seq<RelatedReference>)
    ensures sources == ProjectReferences(projectURLs)
  {
    sources := [];
    for i := 0 to |projectURLs|
      invariant sources == ProjectReferences(projectURLs[..i])
    {
      var (name, url) := projectURLs[i];
      var detectedType := DetectSourceTypeFromURL(url);
      var sourceType;
      if detectedType.IsRepository() {
        sourceType := detectedType;
      } else {
        var lower := ToLower(name);
        if lower == "homepage" || lower == "home" {
          sourceType := Homepage;
        } else if lower == "repository" || lower == "source" || lower == "source code" || lower == "code" {
          sourceType := DetectSourceTypeFromURL(url);
        } else {
          sourceType := Documentation;
        }
      }
      sources := sources + [APIReference(sourceType, url)];
      assert projectURLs[..i + 1] == projectURLs[..i] + [projectURLs[i]];
    }
    assert projectURLs[..|projectURLs|] == projectURLs;
  }

  /** The references: the homepage (re-detected on cleaning), the project
      URLs, then those found in the description that mention the package. */
  function ProjectInfoReferences(m: Matchers, info: ProjectInfo, pkgPath: string): seq<RelatedReference> {
    HomepageReferences(info.homepage, true) + ProjectReferences(info.projectURLs) +
    RelatedSourcesOf(m, info.description, pkgPath)
  }

  /** fetchPyPI. */
  function FetchPyPI(w: PyPIWorld, m: Matchers, pkgPath: string): Result<Fetched, Error> {
    match w.api(APIURL(pkgPath))
    case TransportFailed => Failure(Wrapped("the project request failed"))
    case Answered(status, body) =>
      if status != 200 then Failure(RepositoryNotFound)
      else
        match body
        case None => Failure(Wrapped("the project document is not valid JSON"))
        case Some(info) =>
          if info.description == "" then Failure(PyPIREADMENotFound)
          else Success(Fetched(info.description, ProjectInfoReferences(m, info, pkgPath)))
  }

  const BrowserPrefix := "https://pypi.org/project/"

  /** The browser URL names the project by the last segment of the path. */
  function GetURL(packagePath: string): (u: string)
    ensures u == BrowserPrefix + PackageName(packagePath)
  {
    BrowserPrefix + PackageName(packagePath)
  }

  function PackageFromURL(url: string): Result<string, Error> {
    PathAfterPrefix(url, BrowserPrefix, InvalidPackagePath)
  }

  /** Fetch: fetchPyPI's description and references with the browser URL. */
  function Fetch(w: PyPIWorld, m: Matchers, packagePath: string, now: int): Result<Data, Error> {
    FetchResult(FetchPyPI(w, m, packagePath), GetURL(packagePath), now)
  }

  // ---------------------------------------------------------------------
  // Properties

  /** How a project URL is typed: GitHub and GitLab URLs keep their host's
      type whatever their name; otherwise a home name gives Homepage, a
      repository name gives the detected type (never a repository, possibly
      Unknown), and any other name gives Documentation. */
  lemma ProjectURLTypeCases(name: string, url: string)
    ensures Contains(url, "github.com") || Contains(url, "gitlab.com") ==>
              ProjectURLType(name, url) == DetectSourceTypeFromURL(url) && ProjectURLType(name, url).IsRepository()
    ensures !Contains(url, "github.com") && !Contains(url, "gitlab.com") ==>
              ProjectURLType(name, url) ==
                if ToLower(name) in HomeNames then Homepage
                else if ToLower(name) in RepositoryNames then DetectSourceTypeFromURL(url)
                else Documentation
    ensures ProjectURLType(name, url) == Unknown <==>
              ToLower(name) in RepositoryNames && DetectSourceTypeFromURL(url) == Unknown
  {
    DetectRepositoryIff(url);
    assert Unknown.IsRepository() == false;
  }

  /** The errors of fetchPyPI: a status other than 200 is
      RepositoryNotFound, an empty description is PyPIREADMENotFound,
      library failures are wrapped. */
  lemma FetchPyPIErrors(w: PyPIWorld, m: Matchers, pkgPath: string)
    ensures var reply := w.api(APIURL(pkgPath));
            reply.Answered? && reply.status != 200 ==> FetchPyPI(w, m, pkgPath) == Failure(RepositoryNotFound)
    ensures var reply := w.api(APIURL(pkgPath));
            reply.Answered? && reply.status == 200 && reply.body.Some? && reply.body.value.description == "" ==>
              FetchPyPI(w, m, pkgPath) == Failure(PyPIREADMENotFound)
    ensures var r := FetchPyPI(w, m, pkgPath);
            r.Failure? ==> r.error in {RepositoryNotFound, PyPIREADMENotFound} || r.error.Wrapped?
  {
  }

  /** A successful fetch returns the non-empty description as README. */
  lemma ContentIsDescription(w: PyPIWorld, m: Matchers, pkgPath: string)
    requires FetchPyPI(w, m, pkgPath).Success?
    ensures var reply := w.api(APIURL(pkgPath));
            reply.Answered? && reply.status == 200 && reply.body.Some? &&
            FetchPyPI(w, m, pkgPath).value.content == reply.body.value.description &&
            FetchPyPI(w, m, pkgPath).value.content != ""
  {
  }

  /** The API references come first, one per project URL after the
      homepage's; the description's follow. */
  lemma ReferencesOrder(m: Matchers, info: ProjectInfo, pkgPath: string)
    ensures APIThenDocuments(ProjectInfoReferences(m, info, pkgPath),
                             |HomepageReferences(info.homepage, true)| + |info.projectURLs|, pkgPath)
  {
    var h := HomepageReferences(info.homepage, true);
    var p := ProjectReferences(info.projectURLs);
    assert FromAPI(p) by {
      forall x | x in p
        ensures x.from == "api"
      {
        var i :| 0 <= i < |p| && p[i] == x;
      }
    }
    FromAPIAppend(h, p);
    RelatedSourcesFromDocument(m, info.description, pkgPath);
    APIThenDocumentsAppend(h + p, RelatedSourcesOf(m, info.description, pkgPath), pkgPath);
  }

  /** PackageFromURL recovers the project name GetURL used. */
  lemma PackageFromURLRoundTrip(p: string)
    requires PackageName(p) != ""
    ensures PackageFromURL(GetURL(p)) == Success(PackageName(p))
  {
    PathAfterPrefixRoundTrip(BrowserPrefix, PackageName(p), InvalidPackagePath);
  }

  /** The browser URL is stable. */
  lemma GetURLIdempotent(p: string)
    ensures GetURL(GetURL(p)) == GetURL(p)
  {
    AfterLastOfTail(BrowserPrefix, PackageName(p), '/');
  }
}
