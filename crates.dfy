/** The crates.io investigator (api/sourceimpl/crates.go): the crate
    document of the crates.io API names the default version, whose rendered
    README is fetched, converted to markdown and framed by a title, the
    description, a metadata line and a links block. */
module Crates {
  import opened Wrappers
  import opened Errors
  import opened Strs
  import opened SourceType
  import opened SourceData
  import opened SourceDetect
  import opened Util
  import opened Extract
  import opened SourceImpl

  datatype CrateInfo = CrateInfo(
    name: string, description: string, defaultVersion: string,
    homepage: string, repository: string, documentation: string,
    categories: seq<string>, keywords: seq<string>)

  datatype VersionInfo = VersionInfo(num: string, readmePath: string, license: string)

  /** The decoded crate document: the crate and its versions, in order. */
  datatype CrateDocument = CrateDocument(crate: CrateInfo, versions: seq<VersionInfo>)

  /** The crates.io API's reply per URL, the reply for a README URL (its
      body is the HTML, `None` when reading it fails), and the HTML to
      markdown conversion (`None` when it fails). */
  datatype CratesWorld = CratesWorld(
    api: string -> Reply<CrateDocument>,
    readme: string -> Reply<string>,
    toMarkdown: string -> Option<string>)

  function APIURL(pkgPath: string): string {
    "https://crates.io/api/v1/crates/" + pkgPath + "?include=default_version"
  }

  function ReadmeURL(readmePath: string): string {
    "https://crates.io" + readmePath
  }

  function IsVersion(num: string): VersionInfo -> bool {
    (v: VersionInfo) => v.num == num
  }

  /** The default version: the first whose number is the crate's default. */
  function DefaultVersion(versions: seq<VersionInfo>, num: string): (r: Option<VersionInfo>)
    ensures r.None? <==> forall i :: 0 <= i < |versions| ==> versions[i].num != num
    ensures r.Some? ==> exists i :: 0 <= i < |versions| && versions[i] == r.value && r.value.num == num &&
                                     forall j :: 0 <= j < i ==> versions[j].num != num
  {
    var i := FirstIndexWhere(versions, IsVersion(num));
    if i < |versions| then Some(versions[i]) else None
  }

  /** The version search of fetchCratesIO. */
  method FindDefaultVersion(versions: seq<VersionInfo>, num: string) returns (v: Option<VersionInfo>)
    ensures v == DefaultVersion(versions, num)
  {
    v := None;
    for i := 0 to |versions|
      invariant forall j :: 0 <= j < i ==> !IsVersion(num)(versions[j])
    {
      if versions[i].num == num {
        v := Some(versions[i]);
        assert FirstIndexWhere(versions, IsVersion(num)) == i;
        return;
      }
    }
  }

  /** The separator of the metadata line, as the source spells it: the
      UTF-8 bytes of a bullet read as Windows-1252 ("â€¢"). */
  const MetadataSeparator := " â€¢ "

  /** The metadata entries: license, categories, keywords, each when
      present. */
  function Metadata(license: string, categories: seq<string>, keywords: seq<string>): (r: seq<string>)
    ensures r == [] <==> license == "" && categories == [] && keywords == []
    ensures license != "" ==> r[0] == Labeled("License", license)
    ensures keywords != [] ==> r[|r| - 1] == Labeled("Keywords", Join(keywords, ", "))
  {
    (if license != "" then [Labeled("License", license)] else []) +
    (if categories != [] then [Labeled("Categories", Join(categories, ", "))] else []) +
    (if keywords != [] then [Labeled("Keywords", Join(keywords, ", "))] else [])
  }

  /** The link lines: homepage, documentation, repository, each when
      non-empty. */
  function Links(info: CrateInfo): (r: seq<string>)
    ensures r == [] <==> info.homepage == "" && info.documentation == "" && info.repository == ""
    ensures info.homepage != "" ==> r[0] == Labeled("Homepage", info.homepage)
    ensures info.repository != "" ==> r[|r| - 1] == Labeled("Repository", info.repository)
  {
    (if info.homepage != "" then [Labeled("Homepage", info.homepage)] else []) +
    (if info.documentation != "" then [Labeled("Documentation", info.documentation)] else []) +
    (if info.repository != "" then [Labeled("Repository", info.repository)] else [])
  }

  function Title(info: CrateInfo): string {
    "# " + info.name + " v" + info.defaultVersion
  }

  /** The sections of the document: title, description, metadata line,
      links block, README markdown; the three in between only when they
      have content. */
  function Sections(info: CrateInfo, v: VersionInfo, markdown: string): (r: seq<string>)
    ensures |r| == 2 + (if info.description != "" then 1 else 0) +
                       (if Metadata(v.license, info.categories, info.keywords) != [] then 1 else 0) +
                       (if Links(info) != [] then 1 else 0)
    ensures r[0] == Title(info) && r[|r| - 1] == markdown
    ensures info.description != "" ==> r[1] == info.description
  {
    var meta := Metadata(v.license, info.categories, info.keywords);
    var links := Links(info);
    [Title(info)] +
    (if info.description != "" then [info.description] else []) +
    (if meta != [] then [Join(meta, MetadataSeparator)] else []) +
    (if links != [] then [Join(links, "\n")] else []) +
    [markdown]
  }

  /** The formatted document: the sections joined by blank lines. */
  function Document(info: CrateInfo, v: VersionInfo, markdown: string): string {
    Join(Sections(info, v, markdown), "\n\n")
  }

  /** The documentation reference keeps the raw value as path and URL. */
  function DocumentationReferences(documentation: string): (r: seq<RelatedReference>)
    ensures documentation == "" <==> r == []
    ensures r != [] ==> r[0].typ == Documentation && r[0].path == documentation &&
                        r[0].url == documentation && r[0].from == "api"
  {
    if documentation != "" then [RelatedReference(Documentation, documentation, documentation, "api")] else []
  }

  /** The repository reference has the raw URL as path and the cleaned URL
      as URL, typed by detection. */
  function CrateRepositoryReferences(repository: string): (r: seq<RelatedReference>)
    ensures repository == "" <==> r == []
    ensures r != [] ==> r[0].typ == DetectSourceTypeFromURL(repository) && r[0].path == repository &&
                        r[0].url == CleanupURL(repository, Unknown) && r[0].from == "api"
  {
    if repository != "" then
      [RelatedReference(DetectSourceTypeFromURL(repository), repository, CleanupURL(repository, Unknown), "api")]
    else []
  }

  /** The references: homepage, documentation, repository, then those found
      in the document that mention the package. */
  function CrateReferences(m: Matchers, info: CrateInfo, doc: string, pkgPath: string): seq<RelatedReference> {
    MetadataReferences(info) + RelatedSourcesOf(m, doc, pkgPath)
  }

  /** fetchCratesIO once the default version is known. */
  function FetchReadme(w: CratesWorld, m: Matchers, info: CrateInfo, v: VersionInfo, pkgPath: string): Result<Fetched, Error> {
    if v.readmePath == "" then Failure(CratesREADMENotFound)
    else
      match w.readme(ReadmeURL(v.readmePath))
      case TransportFailed => Failure(Wrapped("the README request failed"))
      case Answered(status, html) =>
        if status == 404 then Failure(CratesREADMENotFound)
        else
          match html
          case None => Failure(Wrapped("reading the README failed"))
          case Some(h) =>
            match w.toMarkdown(h)
            case None => Failure(Wrapped("the README could not be converted"))
            case Some(markdown) =>
              var doc := Document(info, v, markdown);
              Success(Fetched(doc, CrateReferences(m, info, doc, pkgPath)))
  }

  /** fetchCratesIO. */
  function FetchCratesIO(w: CratesWorld, m: Matchers, pkgPath: string): Result<Fetched, Error> {
    match w.api(APIURL(pkgPath))
    case TransportFailed => Failure(Wrapped("the crate request failed"))
    case Answered(status, body) =>
      if status == 404 then Failure(CratesPackageNotFound)
      else
        match body
        case None => Failure(Wrapped("the crate document is not valid JSON"))
        case Some(d) =>
          match DefaultVersion(d.versions, d.crate.defaultVersion)
          case None => Failure(CratesREADMENotFound)
          case Some(v) => FetchReadme(w, m, d.crate, v, pkgPath)
  }

  const BrowserPrefix := "https://crates.io/crates/"

  /** The browser URL names the crate by the last segment of the path. */
  function GetURL(packagePath: string): (u: string)
    ensures u == BrowserPrefix + AfterLast(packagePath, '/')
  {
    BrowserPrefix + AfterLast(packagePath, '/')
  }

  function PackageFromURL(url: string): Result<string, Error> {
    PathAfterPrefix(url, BrowserPrefix, InvalidPackagePath)
  }

  /** Fetch: fetchCratesIO's document and references with the browser URL. */
  function Fetch(w: CratesWorld, m: Matchers, packagePath: string, now: int): Result<Data, Error> {
    FetchResult(FetchCratesIO(w, m, packagePath), GetURL(packagePath), now)
  }

  // ---------------------------------------------------------------------
  // Properties

  /** The errors of fetchCratesIO: a 404 for the crate is
      CratesPackageNotFound; no default version, no README path, or a 404
      for the README is CratesREADMENotFound; library failures are wrapped. */
  lemma FetchCratesErrors(w: CratesWorld, m: Matchers, pkgPath: string)
    ensures var reply := w.api(APIURL(pkgPath));
            reply.Answered? && reply.status == 404 ==> FetchCratesIO(w, m, pkgPath) == Failure(CratesPackageNotFound)
    ensures var r := FetchCratesIO(w, m, pkgPath);
            r.Failure? ==> r.error in {CratesPackageNotFound, CratesREADMENotFound} || r.error.Wrapped?
  {
    match w.api(APIURL(pkgPath))
    case TransportFailed =>
    case Answered(status, body) =>
      if status != 404 && body.Some? {
        var d := body.value;
        match DefaultVersion(d.versions, d.crate.defaultVersion)
        case None =>
        case Some(v) => FetchReadmeErrors(w, m, d.crate, v, pkgPath);
      }
  }

  lemma FetchReadmeErrors(w: CratesWorld, m: Matchers, info: CrateInfo, v: VersionInfo, pkgPath: string)
    ensures var r := FetchReadme(w, m, info, v, pkgPath);
            r.Failure? ==> r.error == CratesREADMENotFound || r.error.Wrapped?
  {
  }

  /** A crate whose versions do not include the default one has no README. */
  lemma NoDefaultVersion(w: CratesWorld, m: Matchers, pkgPath: string, d: CrateDocument)
    requires w.api(APIURL(pkgPath)) == Answered(200, Some(d))
    requires forall i :: 0 <= i < |d.versions| ==> d.versions[i].num != d.crate.defaultVersion
    ensures FetchCratesIO(w, m, pkgPath) == Failure(CratesREADMENotFound)
  {
  }

  /** The document starts with the title line and ends with the README
      markdown. */
  lemma DocumentFrame(info: CrateInfo, v: VersionInfo, markdown: string)
    ensures HasPrefix(Document(info, v, markdown), Title(info))
    ensures HasSuffix(Document(info, v, markdown), markdown)
  {
    JoinLast(Sections(info, v, markdown), "\n\n");
  }

  /** A successful fetch returns the formatted document of the default
      version, and the references follow it: three from the metadata at
      most, then those found in the document. */
  lemma FetchedDocument(w: CratesWorld, m: Matchers, pkgPath: string)
    requires FetchCratesIO(w, m, pkgPath).Success?
    ensures var d := w.api(APIURL(pkgPath)).body.value;
            var v := DefaultVersion(d.versions, d.crate.defaultVersion);
            var f := FetchCratesIO(w, m, pkgPath).value;
            v.Some? && v.value.readmePath != "" &&
            exists markdown :: f.content == Document(d.crate, v.value, markdown) &&
                               f.related == CrateReferences(m, d.crate, f.content, pkgPath)
  {
    var d := w.api(APIURL(pkgPath)).body.value;
    var v := DefaultVersion(d.versions, d.crate.defaultVersion).value;
    var h := w.readme(ReadmeURL(v.readmePath)).body.value;
    var markdown := w.toMarkdown(h).value;
    assert FetchCratesIO(w, m, pkgPath).value.content == Document(d.crate, v, markdown);
  }

  /** The references from the crate's metadata. */
  function MetadataReferences(info: CrateInfo): (r: seq<RelatedReference>)
    ensures FromAPI(r)
    ensures |r| == (if info.homepage != "" then 1 else 0) + (if info.documentation != "" then 1 else 0) +
                   (if info.repository != "" then 1 else 0)
  {
    var h := HomepageReferences(info.homepage, false);
    var d := DocumentationReferences(info.documentation);
    var p := CrateRepositoryReferences(info.repository);
    FromAPIAppend(h, d);
    FromAPIAppend(h + d, p);
    h + d + p
  }

  /** Metadata references precede document references. */
  lemma ReferencesOrder(m: Matchers, info: CrateInfo, doc: string, pkgPath: string)
    ensures APIThenDocuments(CrateReferences(m, info, doc, pkgPath), |MetadataReferences(info)|, pkgPath)
  {
    RelatedSourcesFromDocument(m, doc, pkgPath);
    APIThenDocumentsAppend(MetadataReferences(info), RelatedSourcesOf(m, doc, pkgPath), pkgPath);
  }

  /** PackageFromURL recovers the crate name GetURL used. */
  lemma PackageFromURLRoundTrip(p: string)
    requires AfterLast(p, '/') != ""
    ensures PackageFromURL(GetURL(p)) == Success(AfterLast(p, '/'))
  {
    PathAfterPrefixRoundTrip(BrowserPrefix, AfterLast(p, '/'), InvalidPackagePath);
  }

  /** The browser URL is stable. */
  lemma GetURLIdempotent(p: string)
    ensures GetURL(GetURL(p)) == GetURL(p)
  {
    AfterLastOfTail(BrowserPrefix, AfterLast(p, '/'), '/');
  }
}
