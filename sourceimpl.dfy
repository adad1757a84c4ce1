/** Pieces shared by the investigators of api/sourceimpl: what a successful
    Fetch returns, the package-path prefix handling of PackageFromURL, the
    owner/repository split of the repository hosts, and the reference every
    registry builds from a homepage field. */
module SourceImpl {
  import opened Wrappers
  import opened Errors
  import opened Strs
  import opened SourceType
  import opened SourceData
  import opened SourceDetect
  import opened Util

  /** What an investigator's inner fetch function returns on success: the
      README text and the related references, in order. */
  datatype Fetched = Fetched(content: string, related: seq<RelatedReference>)

  /** The Data of a successful Fetch: the README under "README.md", the
      related references, the browser URL and the fetch time. The source is
      left zero; the crawl fills it in. */
  function FetchedData(f: Fetched, browserURL: string, now: int): (d: Data)
    ensures d.source == ZeroReference && d.fetchError == None && d.fetchedAt == now
    ensures d.contents == map["README.md" := f.content] && Readme(d) == f.content
    ensures d.relatedSources == f.related && d.browserURL == Some(browserURL)
  {
    Data(ZeroReference, map["README.md" := f.content], Some(browserURL), None, now, f.related)
  }

  /** A Fetch: the inner function's error as is, or its result as Data. */
  function FetchResult(r: Result<Fetched, Error>, browserURL: string, now: int): (d: Result<Data, Error>)
    ensures r.Failure? ==> d == Failure(r.error)
    ensures r.Success? ==> d.Success? && d.value == FetchedData(r.value, browserURL, now)
  {
    match r
    case Failure(e) => Failure(e)
    case Success(f) => Success(FetchedData(f, browserURL, now))
  }

  /** A reference found in registry metadata: a type and a URL, no path. */
  function APIReference(t: Type, url: string): (r: RelatedReference)
    ensures r.typ == t && r.path == "" && r.url == url && r.from == "api"
  {
    RelatedReference(t, "", url, "api")
  }

  /** The reference a non-empty homepage field becomes: when a known host
      occurs in it, a reference of that type with the cleaned URL (cleaned
      for the detected type, or re-detected when `redetect`); otherwise a
      homepage reference with the URL as given. */
  function HomepageReference(homepage: string, redetect: bool): (r: RelatedReference)
    ensures r.from == "api" && r.path == ""
    ensures r.typ == Homepage <==> DetectSourceTypeFromURL(homepage) == Unknown
    ensures r.typ != Homepage ==> r.typ == DetectSourceTypeFromURL(homepage) && HasPrefix(r.url, "https://")
    ensures r.typ == Homepage ==> r.url == homepage
  {
    var detected := DetectSourceTypeFromURL(homepage);
    DetectNeverNonHostTypes(homepage);
    if detected != Unknown then
      APIReference(detected, CleanupURL(homepage, if redetect then Unknown else detected))
    else
      APIReference(Homepage, homepage)
  }

  /** The references of an optional homepage field: none for "". */
  function HomepageReferences(homepage: string, redetect: bool): (r: seq<RelatedReference>)
    ensures homepage == "" <==> r == []
    ensures homepage != "" ==> r == [HomepageReference(homepage, redetect)]
  {
    if homepage != "" then [HomepageReference(homepage, redetect)] else []
  }

  /** The references of an optional repository field: none for "";
      otherwise one typed by detection (possibly Unknown) whose URL is
      cleaned with the type re-detected. */
  function RepositoryReferences(url: string): (r: seq<RelatedReference>)
    ensures url == "" <==> r == []
    ensures url != "" ==> r == [APIReference(DetectSourceTypeFromURL(url), CleanupURL(url, Unknown))]
    ensures url != "" ==> HasPrefix(r[0].url, "https://")
  {
    if url != "" then [APIReference(DetectSourceTypeFromURL(url), CleanupURL(url, Unknown))] else []
  }

  /** The first `n` references come from registry metadata and the rest
      from the document, each mentioning the package `pkg`. */
  predicate FromAPI(r: seq<RelatedReference>) {
    forall x :: x in r ==> x.from == "api"
  }

  lemma FromAPIAppend(a: seq<RelatedReference>, b: seq<RelatedReference>)
    requires FromAPI(a) && FromAPI(b)
    ensures FromAPI(a + b)
  {
  }

  predicate APIThenDocuments(r: seq<RelatedReference>, n: nat, pkg: string) {
    n <= |r| &&
    (forall i :: 0 <= i < n ==> r[i].from == "api") &&
    (forall i :: n <= i < |r| ==> r[i].from == "document" && Contains(r[i].path, pkg))
  }

  lemma APIThenDocumentsAppend(api: seq<RelatedReference>, docs: seq<RelatedReference>, pkg: string)
    requires forall x :: x in api ==> x.from == "api"
    requires forall x :: x in docs ==> x.from == "document" && Contains(x.path, pkg)
    ensures APIThenDocuments(api + docs, |api|, pkg)
  {
    var r := api + docs;
    forall i | 0 <= i < |api|
      ensures r[i].from == "api"
    {
      assert r[i] == api[i];
    }
    forall i | |api| <= i < |r|
      ensures r[i].from == "document" && Contains(r[i].path, pkg)
    {
      assert r[i] == docs[i - |api|];
    }
  }

  /** A metadata or link line of a formatted registry page: the field
      name in bold, then the value. */
  function Labeled(field: string, value: string): string {
    "**" + field + ":** " + value
  }

  /** The reply of an HTTP GET whose JSON body is decoded into a `T`: a
      transport failure, or a status code with the decoded body (`None`
      when decoding fails). */
  datatype Reply<T> = TransportFailed | Answered(status: int, body: Option<T>)

  /** The PackageFromURL shape: a URL under `prefix` yields what follows it,
      an error when nothing does; anything else is returned unchanged. */
  function PathAfterPrefix(url: string, prefix: string, err: Error): (r: Result<string, Error>)
    ensures HasPrefix(url, prefix) && |url| == |prefix| ==> r == Failure(err)
    ensures HasPrefix(url, prefix) && |url| > |prefix| ==> r == Success(url[|prefix|..]) && url == prefix + r.value
    ensures !HasPrefix(url, prefix) ==> r == Success(url)
  {
    if HasPrefix(url, prefix) then
      var rest := url[|prefix|..];
      if rest == "" then Failure(err) else Success(rest)
    else Success(url)
  }

  /** PathAfterPrefix undoes the prefixing of a non-empty path. */
  lemma PathAfterPrefixRoundTrip(prefix: string, p: string, err: Error)
    requires p != ""
    ensures PathAfterPrefix(prefix + p, prefix, err) == Success(p)
  {
    assert (prefix + p)[..|prefix|] == prefix;
    assert (prefix + p)[|prefix|..] == p;
  }

  /** Everything after the first occurrence of `marker`, or `s` itself when
      there is none: Go's `s[strings.Index(s, marker)+len(marker):]`. */
  function StripThrough(s: string, marker: string): (r: string)
    ensures IndexOf(s, marker) == -1 ==> r == s
    ensures IndexOf(s, marker) >= 0 ==> s == s[..IndexOf(s, marker)] + marker + r
  {
    var pos := IndexOf(s, marker);
    if pos == -1 then s
    else
      assert s[pos..pos + |marker|] == marker;
      assert s == s[..pos] + s[pos..pos + |marker|] + s[pos + |marker|..];
      s[pos + |marker|..]
  }

  /** A path in which the marker does not occur is kept. */
  lemma StripThroughAbsent(s: string, marker: string)
    requires !Contains(s, marker)
    ensures StripThrough(s, marker) == s
  {
    IndexOfContains(s, marker);
  }

  /** The first two "/"-separated segments, when there are at least two. */
  function FirstTwoSegments(path: string): (r: Option<(string, string)>)
    ensures r.None? <==> '/' !in path
    ensures r.Some? ==> '/' !in r.value.0 && '/' !in r.value.1
    ensures r.Some? ==> HasPrefix(path, r.value.0 + "/" + r.value.1)
  {
    var parts := Split(path, '/');
    if |parts| < 2 then None
    else
      SecondSegment(path);
      Some((parts[0], parts[1]))
  }

  lemma SecondSegment(path: string)
    requires |Split(path, '/')| >= 2
    ensures HasPrefix(path, Split(path, '/')[0] + "/" + Split(path, '/')[1])
  {
    var i := IndexOfChar(path, '/');
    assert '/' in path;
    var rest := path[i + 1..];
    var a := path[..i];
    var b := Split(rest, '/')[0];
    assert Split(path, '/')[1] == b;
    Decompose(path, i);
    PrefixOfConcat(a + "/", b, rest);
  }

  lemma Decompose(path: string, i: nat)
    requires i < |path| && path[i] == '/'
    ensures path == path[..i] + "/" + path[i + 1..]
  {
    assert [path[i]] == "/";
    assert path == path[..i] + [path[i]] + path[i + 1..];
  }

  lemma PrefixOfConcat(x: string, b: string, rest: string)
    requires b <= rest
    ensures HasPrefix(x + rest, x + b)
  {
    assert (x + rest)[..|x + b|] == x + b;
  }

  /** Whether a file name is a README: "readme", or "readme." followed by
      anything, in any ASCII case. */
  predicate IsReadmeName(name: string) {
    HasPrefix(ToLower(name), "readme.") || ToLower(name) == "readme"
  }

  /** The index of the first entry satisfying `p`, or |s| when none does. */
  function FirstIndexWhere<T>(s: seq<T>, p: T -> bool): (i: nat)
    ensures i <= |s|
    ensures i < |s| ==> p(s[i])
    ensures forall j :: 0 <= j < i ==> !p(s[j])
  {
    if |s| == 0 then 0
    else if p(s[0]) then 0
    else
      var i := FirstIndexWhere(s[1..], p);
      assert forall j :: 1 <= j < i + 1 ==> s[j] == s[1..][j - 1];
      1 + i
  }
}
