/** The RubyGems investigator (api/sourceimpl/rubygems.go): the gem document
    of the RubyGems API is formatted into a markdown page, and its links and
    the references found in that page are deduplicated by URL. */
module RubyGems {
  import opened Wrappers
  import opened Errors
  import opened Strs
  import opened SourceType
  import opened SourceData
  import opened SourceDetect
  import opened Util
  import opened Dedup
  import opened Extract
  import opened SourceImpl

  datatype GemInfo = GemInfo(
    name: string, description: string, info: string,
    homepage: string, source: string, documentation: string,
    version: string, platform: string, downloads: int, authors: string, licenses: seq<string>)

  /** The RubyGems API's reply per URL. */
  datatype RubyGemsWorld = RubyGemsWorld(api: string -> Reply<GemInfo>)

  function APIURL(pkgPath: string): string {
    "https://rubygems.org/api/v1/gems/" + pkgPath + ".json"
  }

  /** The separator of the metadata line: a bullet. */
  const MetadataSeparator := " • "

  function Title(gem: GemInfo): string {
    "# " + gem.name + " v" + gem.version
  }

  /** The summary: the description, else the info text, else nothing. */
  function Summary(gem: GemInfo): (r: seq<string>)
    ensures gem.description != "" ==> r == [gem.description]
    ensures gem.description == "" && gem.info != "" ==> r == [gem.info]
    ensures gem.description == "" && gem.info == "" ==> r == []
  {
    if gem.description != "" then [gem.description]
    else if gem.info != "" then [gem.info]
    else []
  }

  /** The metadata entries: authors, licenses and platform when present,
      and the download count always. */
  function Metadata(gem: GemInfo): (r: seq<string>)
    ensures |r| >= 1 && r[|r| - 1] == Labeled("Downloads", IntToString(gem.downloads))
    ensures gem.authors != "" ==> r[0] == Labeled("Authors", gem.authors)
    ensures |r| == 1 + (if gem.authors != "" then 1 else 0) + (if gem.licenses != [] then 1 else 0) +
                       (if gem.platform != "" then 1 else 0)
  {
    (if gem.authors != "" then [Labeled("Authors", gem.authors)] else []) +
    (if gem.licenses != [] then [Labeled("License", Join(gem.licenses, ", "))] else []) +
    (if gem.platform != "" then [Labeled("Platform", gem.platform)] else []) +
    [Labeled("Downloads", IntToString(gem.downloads))]
  }

  /** The link lines: homepage, documentation, source, each when non-empty. */
  function Links(gem: GemInfo): (r: seq<string>)
    ensures r == [] <==> gem.homepage == "" && gem.documentation == "" && gem.source == ""
    ensures gem.homepage != "" ==> r[0] == Labeled("Homepage", gem.homepage)
    ensures gem.source != "" ==> r[|r| - 1] == Labeled("Source", gem.source)
  {
    (if gem.homepage != "" then [Labeled("Homepage", gem.homepage)] else []) +
    (if gem.documentation != "" then [Labeled("Documentation", gem.documentation)] else []) +
    (if gem.source != "" then [Labeled("Source", gem.source)] else [])
  }

  /** The sections: title, summary, metadata line (always), links block
      when there are links. */
  function Sections(gem: GemInfo): (r: seq<string>)
    ensures |r| == 2 + |Summary(gem)| + (if Links(gem) != [] then 1 else 0)
    ensures r[0] == Title(gem)
    ensures r[1 + |Summary(gem)|] == Join(Metadata(gem), MetadataSeparator)
    ensures Summary(gem) != [] ==> r[1] == Summary(gem)[0]
  {
    var links := Links(gem);
    [Title(gem)] + Summary(gem) + [Join(Metadata(gem), MetadataSeparator)] +
    (if links != [] then [Join(links, "\n")] else [])
  }

  /** formatRubyGemsDoc. */
  function FormatDoc(gem: GemInfo): string {
    Join(Sections(gem), "\n\n")
  }

  /** The references from the gem's links: homepage, documentation,
      source. */
  function LinkReferences(gem: GemInfo): (r: seq<RelatedReference>)
    ensures FromAPI(r)
    ensures |r| == (if gem.homepage != "" then 1 else 0) + (if gem.documentation != "" then 1 else 0) +
                   (if gem.source != "" then 1 else 0)
  {
    var h := HomepageReferences(gem.homepage, false);
    var d := if gem.documentation != "" then [APIReference(Documentation, gem.documentation)] else [];
    var p := RepositoryReferences(gem.source);
    FromAPIAppend(h, d);
    FromAPIAppend(h + d, p);
    h + d + p
  }

  /** The references before deduplication: the links, then those found in
      the page that mention the package. */
  function GemReferences(m: Matchers, gem: GemInfo, doc: string, pkgPath: string): seq<RelatedReference> {
    LinkReferences(gem) + RelatedSourcesOf(m, doc, pkgPath)
  }

  function URLOf(r: RelatedReference): string {
    r.url
  }

  /** The deduplicated references: the first of each URL. */
  function UniqueByURL(sources: seq<RelatedReference>): seq<RelatedReference> {
    KeepFirst(sources, URLOf, Always)
  }

  /** The deduplication loop of fetchRubyGemsReadme. */
  method DeduplicateByURL(sources: seq<RelatedReference>) returns (unique: seq<RelatedReference>)
    ensures unique == UniqueByURL(sources)
  {
    var seen: set<string> := {};
    unique := [];
    for i := 0 to |sources|
      invariant unique == UniqueByURL(sources[..i])
      invariant seen == SeenKeys(unique, URLOf)
    {
      var s := sources[i];
      assert sources[..i + 1] == sources[..i] + [s];
      KeepFirstSnoc(sources[..i], s, URLOf, Always);
      if s.url !in seen {
        SeenKeysSnoc(unique, s, URLOf);
        unique := unique + [s];
        seen := seen + {s.url};
      }
    }
    assert sources[..|sources|] == sources;
  }

  /** fetchRubyGemsReadme. */
  function FetchRubyGems(w: RubyGemsWorld, m: Matchers, pkgPath: string): Result<Fetched, Error> {
    match w.api(APIURL(pkgPath))
    case TransportFailed => Failure(Wrapped("the gem request failed"))
    case Answered(status, body) =>
      if status == 404 then Failure(RubyGemsREADMENotFound)
      else
        match body
        case None => Failure(Wrapped("the gem document is not valid JSON"))
        case Some(gem) =>
          var doc := FormatDoc(gem);
          Success(Fetched(doc, UniqueByURL(GemReferences(m, gem, doc, pkgPath))))
  }

  const BrowserPrefix := "https://rubygems.org/gems/"

  /** The browser URL names the gem by the last segment of the path. */
  function GetURL(packagePath: string): (u: string)
    ensures u == BrowserPrefix + AfterLast(packagePath, '/')
  {
    BrowserPrefix + AfterLast(packagePath, '/')
  }

  function PackageFromURL(url: string): Result<string, Error> {
    PathAfterPrefix(url, BrowserPrefix, InvalidPackagePath)
  }

  /** Fetch: fetchRubyGemsReadme's page and references with the browser URL. */
  function Fetch(w: RubyGemsWorld, m: Matchers, packagePath: string, now: int): Result<Data, Error> {
    FetchResult(FetchRubyGems(w, m, packagePath), GetURL(packagePath), now)
  }

  // ---------------------------------------------------------------------
  // Properties

  /** The errors of fetchRubyGemsReadme: a 404 is RubyGemsREADMENotFound,
      library failures are wrapped. */
  lemma FetchRubyGemsErrors(w: RubyGemsWorld, m: Matchers, pkgPath: string)
    ensures var reply := w.api(APIURL(pkgPath));
            reply.Answered? && reply.status == 404 ==> FetchRubyGems(w, m, pkgPath) == Failure(RubyGemsREADMENotFound)
    ensures var r := FetchRubyGems(w, m, pkgPath);
            r.Failure? ==> r.error == RubyGemsREADMENotFound || r.error.Wrapped?
  {
  }

  /** The page starts with the title and always holds the metadata line,
      which ends with the download count. */
  lemma PageFrame(gem: GemInfo)
    ensures HasPrefix(FormatDoc(gem), Title(gem))
    ensures Join(Metadata(gem), MetadataSeparator) in Sections(gem)
    ensures HasSuffix(Join(Metadata(gem), MetadataSeparator), Labeled("Downloads", IntToString(gem.downloads)))
  {
    JoinLast(Metadata(gem), MetadataSeparator);
    assert Sections(gem)[1 + |Summary(gem)|] == Join(Metadata(gem), MetadataSeparator);
  }

  /** The returned references have pairwise distinct URLs, each the first
      of its URL among the references built; they come from those
      references, in order. */
  lemma UniqueURLs(sources: seq<RelatedReference>)
    ensures var r := UniqueByURL(sources);
            (forall i, j :: 0 <= i < j < |r| ==> r[i].url != r[j].url) &&
            (forall x :: x in r ==> x in sources)
  {
    KeepFirstDistinct(sources, URLOf, Always);
    KeepFirstFrom(sources, URLOf, Always);
  }

  /** Document references carry no URL, so deduplicating by URL keeps at
      most one of them, however many the page mentions. */
  lemma AtMostOneDocumentReference(m: Matchers, gem: GemInfo, doc: string, pkgPath: string)
    ensures var r := UniqueByURL(GemReferences(m, gem, doc, pkgPath));
            forall i, j :: 0 <= i < |r| && 0 <= j < |r| && r[i].from == "document" && r[j].from == "document" ==> i == j
  {
    var sources := GemReferences(m, gem, doc, pkgPath);
    var r := UniqueByURL(sources);
    RelatedSourcesFromDocument(m, doc, pkgPath);
    DocumentReferencesWithoutURL(LinkReferences(gem), RelatedSourcesOf(m, doc, pkgPath));
    UniqueURLs(sources);
    forall i, j | 0 <= i < |r| && 0 <= j < |r| && r[i].from == "document" && r[j].from == "document"
      ensures i == j
    {
      assert r[i] in r && r[j] in r;
    }
  }

  lemma DocumentReferencesWithoutURL(api: seq<RelatedReference>, docs: seq<RelatedReference>)
    requires FromAPI(api)
    requires forall x :: x in docs ==> x.url == ""
    ensures forall x :: x in api + docs && x.from == "document" ==> x.url == ""
  {
  }

  /** PackageFromURL recovers the gem name GetURL used. */
  lemma PackageFromURLRoundTrip(p: string)
    requires AfterLast(p, '/') != ""
    ensures PackageFromURL(GetURL(p)) == Success(AfterLast(p, '/'))
  {
    PathAfterPrefixRoundTrip(BrowserPrefix, AfterLast(p, '/'), InvalidPackagePath);
  }

  /** The browser URL is stable. */
  lemma GetURLIdempotent(p: string)
    ensures GetURL(GetURL(p)) == GetURL(p)
  {
    AfterLastOfTail(BrowserPrefix, AfterLast(p, '/'), '/');
  }
}
