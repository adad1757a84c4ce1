/** The GitLab investigator (api/sourceimpl/gitlab.go). The `glab` CLI and
    the README download are abstract: `GitLabWorld` says whether the command
    exists, what the paginated tree listing answers, and what each raw URL
    serves. */
module GitLab {
  import opened Wrappers
  import opened Errors
  import opened Strs
  import opened SourceType
  import opened SourceData
  import opened Extract
  import opened SourceImpl

  /** What `glab` and the network answer: whether the command is found; the
      output of "api /projects/<o>%2F<r>/repository/tree --paginate" as a
      decoded listing of entry names (`Failure` when the command fails,
      `Success(None)` when the output is not valid JSON); the body of a
      GET of a raw file URL (`None` on a transport or read failure). */
  datatype GitLabWorld = GitLabWorld(
    glabFound: bool,
    tree: string -> Result<Option<seq<string>>, Error>,
    download: string -> Option<string>)

  const Host := "gitlab.com/"
  const BrowserPrefix := "https://gitlab.com/"

  /** The API path of a project's tree: owner and repository joined by an
      escaped slash. */
  function TreeAPIPath(owner: string, repo: string): string {
    "/projects/" + owner + "%2F" + repo + "/repository/tree"
  }

  /** Where the README of a project is downloaded from: always the "main"
      branch. */
  function RawURL(owner: string, repo: string, name: string): (u: string)
    ensures HasPrefix(u, BrowserPrefix)
  {
    BrowserPrefix + owner + "/" + repo + "/-/raw/main/" + name
  }

  /** The name of the first README entry, if any. */
  function ReadmeName(names: seq<string>): (r: Option<string>)
    ensures r.None? <==> forall i :: 0 <= i < |names| ==> !IsReadmeName(names[i])
    ensures r.Some? ==> exists i :: 0 <= i < |names| && names[i] == r.value && IsReadmeName(names[i]) &&
                                     forall j :: 0 <= j < i ==> !IsReadmeName(names[j])
  {
    var i := FirstIndexWhere(names, IsReadmeName);
    if i < |names| then Some(names[i]) else None
  }

  /** The README search of fetchGitlab: the raw URL of the first README
      entry, "" when there is none. */
  method FindReadmeURL(owner: string, repo: string, names: seq<string>) returns (readmeURL: string)
    ensures ReadmeName(names).None? ==> readmeURL == ""
    ensures ReadmeName(names).Some? ==> readmeURL == RawURL(owner, repo, ReadmeName(names).value)
  {
    readmeURL := "";
    for i := 0 to |names|
      invariant forall j :: 0 <= j < i ==> !IsReadmeName(names[j])
      invariant readmeURL == ""
    {
      var name := ToLower(names[i]);
      if HasPrefix(name, "readme.") || name == "readme" {
        readmeURL := BrowserPrefix + owner + "/" + repo + "/-/raw/main/" + names[i];
        assert FirstIndexWhere(names, IsReadmeName) == i;
        return;
      }
    }
  }

  /** fetchGitlab once the project is known. */
  function FetchProject(w: GitLabWorld, m: Matchers, owner: string, repo: string): Result<Fetched, Error> {
    match w.tree(TreeAPIPath(owner, repo))
    case Failure(_) => Failure(GLabCommandFailed)
    case Success(None) => Failure(Wrapped("the tree listing is not valid JSON"))
    case Success(Some(names)) =>
      match ReadmeName(names)
      case None => Failure(READMENotFound)
      case Some(name) =>
        match w.download(RawURL(owner, repo, name))
        case None => Failure(Wrapped("the README download failed"))
        case Some(doc) => Success(Fetched(doc, RelatedSourcesOf(m, doc, repo)))
  }

  /** fetchGitlab: strip everything through "gitlab.com/", check for
      `glab`, split owner and repository, list the tree, then download the
      first README. */
  function FetchGitLab(w: GitLabWorld, m: Matchers, pkgPath: string): Result<Fetched, Error> {
    var path := StripThrough(pkgPath, Host);
    if !w.glabFound then Failure(GLabCommandNotFound)
    else
      match FirstTwoSegments(path)
      case None => Failure(InvalidPackagePath)
      case Some((owner, repo)) => FetchProject(w, m, owner, repo)
  }

  function GetURL(packagePath: string): (u: string)
    ensures HasPrefix(u, BrowserPrefix)
  {
    BrowserPrefix + StripThrough(packagePath, Host)
  }

  function PackageFromURL(url: string): Result<string, Error> {
    PathAfterPrefix(url, BrowserPrefix, InvalidPackagePath)
  }

  /** Fetch: fetchGitlab's README and references with the browser URL. */
  function Fetch(w: GitLabWorld, m: Matchers, packagePath: string, now: int): Result<Data, Error> {
    FetchResult(FetchGitLab(w, m, packagePath), GetURL(packagePath), now)
  }

  // ---------------------------------------------------------------------
  // Properties

  /** Unlike GitHub, a project without a README is an error. */
  lemma NoReadmeIsError(w: GitLabWorld, m: Matchers, owner: string, repo: string, names: seq<string>)
    requires w.tree(TreeAPIPath(owner, repo)) == Success(Some(names))
    requires forall i :: 0 <= i < |names| ==> !IsReadmeName(names[i])
    ensures FetchProject(w, m, owner, repo) == Failure(READMENotFound)
  {
  }

  /** A successful fetch downloaded the first README from the raw URL on
      the main branch, and returns it with only the references found in it,
      each naming the repository: there is no homepage reference. */
  lemma FetchedFromRawURL(w: GitLabWorld, m: Matchers, owner: string, repo: string)
    requires FetchProject(w, m, owner, repo).Success?
    ensures var names := w.tree(TreeAPIPath(owner, repo)).value.value;
            var f := FetchProject(w, m, owner, repo).value;
            ReadmeName(names).Some? &&
            w.download(RawURL(owner, repo, ReadmeName(names).value)) == Some(f.content) &&
            forall x :: x in f.related ==> x.from == "document" && Contains(x.path, repo)
  {
    match w.tree(TreeAPIPath(owner, repo))
    case Failure(_) =>
    case Success(None) =>
    case Success(Some(names)) =>
      match ReadmeName(names)
      case None =>
      case Some(name) =>
        match w.download(RawURL(owner, repo, name))
        case None =>
        case Some(doc) => RelatedSourcesFromDocument(m, doc, repo);
  }

  /** The errors fetchGitlab can report. */
  lemma FetchGitLabErrors(w: GitLabWorld, m: Matchers, pkgPath: string)
    ensures var r := FetchGitLab(w, m, pkgPath);
            r.Failure? ==> r.error in {GLabCommandNotFound, InvalidPackagePath, GLabCommandFailed, READMENotFound} ||
                           r.error.Wrapped?
    ensures !w.glabFound ==> FetchGitLab(w, m, pkgPath) == Failure(GLabCommandNotFound)
    ensures w.glabFound && '/' !in StripThrough(pkgPath, Host) ==> FetchGitLab(w, m, pkgPath) == Failure(InvalidPackagePath)
  {
    if w.glabFound {
      match FirstTwoSegments(StripThrough(pkgPath, Host))
      case None =>
      case Some((owner, repo)) => FetchProjectErrors(w, m, owner, repo);
    }
  }

  lemma FetchProjectErrors(w: GitLabWorld, m: Matchers, owner: string, repo: string)
    ensures var r := FetchProject(w, m, owner, repo);
            r.Failure? ==> r.error in {GLabCommandFailed, READMENotFound} || r.error.Wrapped?
  {
  }

  lemma HostAtEight(q: string)
    ensures IndexOf(BrowserPrefix + q, Host) == 8
  {
    var s := BrowserPrefix + q;
    assert s[8..8 + |Host|] == Host;
    NoOccurrenceBefore(s, Host, 8, 0);
    IndexOfAt(s, Host, 8);
  }

  /** The browser URL is stable: it names the same project again. */
  lemma GetURLIdempotent(packagePath: string)
    ensures GetURL(GetURL(packagePath)) == GetURL(packagePath)
  {
    var q := StripThrough(packagePath, Host);
    HostAtEight(q);
    var s := BrowserPrefix + q;
    assert s[..8] + Host + q == s;
  }

  /** PackageFromURL undoes GetURL for a non-empty path that does not itself
      contain the host. */
  lemma PackageFromURLRoundTrip(p: string)
    requires p != "" && !Contains(p, Host)
    ensures PackageFromURL(GetURL(p)) == Success(p)
  {
    StripThroughAbsent(p, Host);
    PathAfterPrefixRoundTrip(BrowserPrefix, p, InvalidPackagePath);
  }
}
