/** The GitHub investigator (api/sourceimpl/github.go). The `gh` CLI is
    abstract: `GitHubWorld` says whether the command exists and what each
    `gh api` request answers (already decoded from JSON; `None` when the
    command fails). */
module GitHub {
  import opened Wrappers
  import opened Errors
  import opened Strs
  import opened SourceType
  import opened SourceData
  import opened Extract
  import opened SourceImpl

  /** An entry of the repository's top-level listing. */
  datatype ListingEntry = ListingEntry(name: string, path: string, downloadURL: string)

  /** The reply for one file's contents. */
  datatype ContentResponse = ContentResponse(name: string, path: string, kind: string, content: string,
                                             encoding: string)

  /** What `gh` answers: whether the command is found, then the homepage of
      "/repos/<o>/<r>", the listing of "/repos/<o>/<r>/contents", the file
      of "/repos/<o>/<r>/contents/<path>", and the base64 decoding of a
      content field (`None` when decoding or reading fails). */
  datatype GitHubWorld = GitHubWorld(
    ghFound: bool,
    repoHomepage: string -> Option<string>,
    listing: string -> Option<seq<ListingEntry>>,
    content: string -> Option<ContentResponse>,
    base64Decode: string -> Option<string>)

  const Host := "github.com/"
  const BrowserPrefix := "https://github.com/"

  /** Owner and repository of a package path (after the host is stripped):
      the first two "/"-separated segments, the repository cut at its first
      '?' and then at its first '#'. */
  function OwnerRepo(path: string): (r: Result<(string, string), Error>)
    ensures r.Failure? ==> r.error == InvalidPackagePath
    ensures '/' !in path ==> r.Failure?
    ensures r.Success? ==> var (owner, repo) := r.value;
              repo != "" && '/' !in owner && '/' !in repo && '?' !in repo && '#' !in repo &&
              HasPrefix(path, owner + "/" + repo)
    ensures FirstTwoSegments(path).Some? ==>
              var seg := FirstTwoSegments(path).value.1;
              (r.Failure? <==> seg == "" || seg[0] == '?' || seg[0] == '#')
  {
    match FirstTwoSegments(path)
    case None => Failure(InvalidPackagePath)
    case Some((owner, segment)) =>
      var repo := CutAt(CutAt(segment, '?'), '#');
      if repo == "" then Failure(InvalidPackagePath)
      else
        assert repo <= segment;
        PrefixOfConcat(owner + "/", repo, segment);
        Success((owner, repo))
  }

  /** The README test on a listing entry. */
  predicate NamesReadme(e: ListingEntry) {
    IsReadmeName(e.name)
  }

  /** The path of the first README entry of a listing, "" when there is
      none. */
  function ReadmePath(listing: seq<ListingEntry>): (p: string)
    ensures (forall i :: 0 <= i < |listing| ==> !NamesReadme(listing[i])) ==> p == ""
    ensures forall i :: (0 <= i < |listing| && NamesReadme(listing[i]) &&
                         forall j :: 0 <= j < i ==> !NamesReadme(listing[j])) ==> p == listing[i].path
  {
    var i := FirstIndexWhere(listing, NamesReadme);
    if i < |listing| then listing[i].path else ""
  }

  /** The README search of fetchGitHub: the first entry whose name is a
      README, its path kept. */
  method FindReadmePath(listing: seq<ListingEntry>) returns (readmePath: string)
    ensures readmePath == ReadmePath(listing)
  {
    readmePath := "";
    for i := 0 to |listing|
      invariant forall j :: 0 <= j < i ==> !NamesReadme(listing[j])
      invariant readmePath == ""
    {
      var name := ToLower(listing[i].name);
      if HasPrefix(name, "readme.") || name == "readme" {
        readmePath := listing[i].path;
        return;
      }
    }
  }

  /** GetContent: only base64 content is accepted. */
  function GetContent(c: ContentResponse, base64Decode: string -> Option<string>): (r: Result<string, Error>)
    ensures c.encoding != "base64" ==> r == Failure(GHCommandFailed)
    ensures c.encoding == "base64" && base64Decode(c.content).Some? ==> r == Success(base64Decode(c.content).value)
    ensures c.encoding == "base64" && base64Decode(c.content).None? ==> r.Failure? && r.error.Wrapped?
  {
    if c.encoding != "base64" then Failure(GHCommandFailed)
    else match base64Decode(c.content)
      case None => Failure(Wrapped("base64 decoding of the README failed"))
      case Some(d) => Success(d)
  }

  /** The API path of a repository. */
  function RepoAPIPath(owner: string, repo: string): string {
    "/repos/" + owner + "/" + repo
  }

  /** fetchGitHub once the repository and its listing are known. */
  function FetchFromListing(w: GitHubWorld, m: Matchers, owner: string, repo: string, homepage: string,
                            listing: seq<ListingEntry>): Result<Fetched, Error>
  {
    var readmePath := ReadmePath(listing);
    if readmePath == "" then Success(Fetched("", HomepageReferences(homepage, false)))
    else
      match w.content(RepoAPIPath(owner, repo) + "/contents/" + readmePath)
      case None => Failure(GHCommandFailed)
      case Some(c) =>
        match GetContent(c, w.base64Decode)
        case Failure(e) => Failure(e)
        case Success(doc) => Success(Fetched(doc, RelatedSourcesOf(m, doc, repo) + HomepageReferences(homepage, false)))
  }

  /** fetchGitHub: strip everything through "github.com/", check for `gh`,
      split owner and repository, fetch the repository's homepage and
      listing, then the first README if there is one. */
  function FetchGitHub(w: GitHubWorld, m: Matchers, pkgPath: string): Result<Fetched, Error> {
    var path := StripThrough(pkgPath, Host);
    if !w.ghFound then Failure(GHCommandNotFound)
    else
      match OwnerRepo(path)
      case Failure(e) => Failure(e)
      case Success((owner, repo)) =>
        match w.repoHomepage(RepoAPIPath(owner, repo))
        case None => Failure(GHCommandFailed)
        case Some(homepage) =>
          match w.listing(RepoAPIPath(owner, repo) + "/contents")
          case None => Failure(GHCommandFailed)
          case Some(listing) => FetchFromListing(w, m, owner, repo, homepage, listing)
  }

  function GetURL(packagePath: string): (u: string)
    ensures HasPrefix(u, BrowserPrefix)
  {
    BrowserPrefix + StripThrough(packagePath, Host)
  }

  function PackageFromURL(url: string): Result<string, Error> {
    PathAfterPrefix(url, BrowserPrefix, InvalidPackagePath)
  }

  /** Fetch: fetchGitHub's README and references with the browser URL. */
  function Fetch(w: GitHubWorld, m: Matchers, packagePath: string, now: int): Result<Data, Error> {
    FetchResult(FetchGitHub(w, m, packagePath), GetURL(packagePath), now)
  }

  // ---------------------------------------------------------------------
  // Properties

  /** The errors of the README step. */
  lemma FetchFromListingErrors(w: GitHubWorld, m: Matchers, owner: string, repo: string, homepage: string,
                               listing: seq<ListingEntry>)
    ensures var r := FetchFromListing(w, m, owner, repo, homepage, listing);
            r.Failure? ==> r.error == GHCommandFailed || r.error.Wrapped?
  {
  }

  /** The errors fetchGitHub can report: a missing `gh` first, then a path
      without two segments, then failed commands and undecodable content. */
  lemma FetchGitHubErrors(w: GitHubWorld, m: Matchers, pkgPath: string)
    ensures var r := FetchGitHub(w, m, pkgPath);
            r.Failure? ==> r.error in {GHCommandNotFound, InvalidPackagePath, GHCommandFailed} || r.error.Wrapped?
    ensures !w.ghFound ==> FetchGitHub(w, m, pkgPath) == Failure(GHCommandNotFound)
    ensures w.ghFound && '/' !in StripThrough(pkgPath, Host) ==> FetchGitHub(w, m, pkgPath) == Failure(InvalidPackagePath)
  {
    if w.ghFound {
      match OwnerRepo(StripThrough(pkgPath, Host))
      case Failure(_) =>
      case Success((owner, repo)) =>
        match w.repoHomepage(RepoAPIPath(owner, repo))
        case None =>
        case Some(homepage) =>
          match w.listing(RepoAPIPath(owner, repo) + "/contents")
          case None =>
          case Some(listing) => FetchFromListingErrors(w, m, owner, repo, homepage, listing);
    }
  }

  /** A repository without a README is no error: the content is empty and
      only the homepage reference, if any, is returned. */
  lemma NoReadmeIsNoError(w: GitHubWorld, m: Matchers, owner: string, repo: string, homepage: string,
                          listing: seq<ListingEntry>)
    requires forall i :: 0 <= i < |listing| ==> !NamesReadme(listing[i])
    ensures FetchFromListing(w, m, owner, repo, homepage, listing) == Success(Fetched("", HomepageReferences(homepage, false)))
  {
  }

  /** The shape of the references: document ones, each naming `pkg`, then
      the homepage reference last. */
  predicate DocumentsThenHomepage(rel: seq<RelatedReference>, pkg: string, homepage: string) {
    var n := if homepage == "" then |rel| else |rel| - 1;
    0 <= n &&
    (forall i :: 0 <= i < n ==> rel[i].from == "document" && Contains(rel[i].path, pkg)) &&
    (homepage != "" ==> rel[n] == HomepageReference(homepage, false))
  }

  lemma DocumentsThenHomepageAppend(docs: seq<RelatedReference>, pkg: string, homepage: string)
    requires forall x :: x in docs ==> x.from == "document" && Contains(x.path, pkg)
    ensures DocumentsThenHomepage(docs + HomepageReferences(homepage, false), pkg, homepage)
  {
    var rel := docs + HomepageReferences(homepage, false);
    forall i | 0 <= i < |docs|
      ensures rel[i].from == "document" && Contains(rel[i].path, pkg)
    {
      assert rel[i] == docs[i] && docs[i] in docs;
    }
  }

  /** The references of a fetch: those of the README, each with a path
      that names the repository, then the homepage reference last. */
  lemma ReferencesOrder(w: GitHubWorld, m: Matchers, owner: string, repo: string, homepage: string,
                        listing: seq<ListingEntry>)
    requires FetchFromListing(w, m, owner, repo, homepage, listing).Success?
    ensures DocumentsThenHomepage(FetchFromListing(w, m, owner, repo, homepage, listing).value.related, repo, homepage)
  {
    var readmePath := ReadmePath(listing);
    if readmePath == "" {
      DocumentsThenHomepageAppend([], repo, homepage);
      assert [] + HomepageReferences(homepage, false) == HomepageReferences(homepage, false);
    } else {
      match w.content(RepoAPIPath(owner, repo) + "/contents/" + readmePath)
      case None =>
      case Some(c) =>
        match GetContent(c, w.base64Decode)
        case Failure(_) =>
        case Success(doc) =>
          RelatedSourcesFromDocument(m, doc, repo);
          DocumentsThenHomepageAppend(RelatedSourcesOf(m, doc, repo), repo, homepage);
    }
  }

  /** A non-base64 README is rejected with GHCommandFailed. */
  lemma NonBase64Rejected(w: GitHubWorld, m: Matchers, owner: string, repo: string, homepage: string,
                          listing: seq<ListingEntry>)
    requires ReadmePath(listing) != ""
    requires w.content(RepoAPIPath(owner, repo) + "/contents/" + ReadmePath(listing)).Some?
    requires w.content(RepoAPIPath(owner, repo) + "/contents/" + ReadmePath(listing)).value.encoding != "base64"
    ensures FetchFromListing(w, m, owner, repo, homepage, listing) == Failure(GHCommandFailed)
  {
  }

  /** "https://github.com/" does not contain "github.com/" before index 8. */
  lemma HostAtEight(q: string)
    ensures IndexOf(BrowserPrefix + q, Host) == 8
  {
    var s := BrowserPrefix + q;
    assert s[8..8 + |Host|] == Host;
    NoOccurrenceBefore(s, Host, 8, 0);
    IndexOfAt(s, Host, 8);
  }

  /** The browser URL is stable: it names the same repository again. */
  lemma GetURLIdempotent(packagePath: string)
    ensures GetURL(GetURL(packagePath)) == GetURL(packagePath)
  {
    var q := StripThrough(packagePath, Host);
    HostAtEight(q);
    var s := BrowserPrefix + q;
    assert s[..8] + Host + q == s;
  }

  /** PackageFromURL undoes GetURL for a non-empty path that does not itself
      contain the host. */
  lemma PackageFromURLRoundTrip(p: string)
    requires p != "" && !Contains(p, Host)
    ensures PackageFromURL(GetURL(p)) == Success(p)
  {
    StripThroughAbsent(p, Host);
    PathAfterPrefixRoundTrip(BrowserPrefix, p, InvalidPackagePath);
  }
}
