/** The Packagist investigator (api/sourceimpl/packagist.go): the package
    document of Packagist gives the description, used as README, with
    fallbacks to the versions for the description and the repository. */
module Packagist {
  import opened Wrappers
  import opened Errors
  import opened Strs
  import opened SourceType
  import opened SourceData
  import opened SourceDetect
  import opened Util
  import opened Extract
  import opened SourceImpl

  datatype VersionInfo = VersionInfo(description: string, homepage: string, sourceURL: string)

  /** The fields of the package document that are read. The versions are a
      JSON object that fetchPackagist ranges over twice, and each range
      visits them in an order of its own: `versions` is the order of the
      description fallback and `sourceOrder` that of the repository
      fallback, the same entries (SameVersions) possibly rearranged. */
  datatype PackageInfo = PackageInfo(
    name: string, description: string, repository: string, homepage: string,
    versions: seq<VersionInfo>, sourceOrder: seq<VersionInfo>)

  /** Both ranges visit the same version entries. */
  predicate SameVersions(info: PackageInfo) {
    multiset(info.sourceOrder) == multiset(info.versions)
  }

  /** Packagist's reply per URL; the status code is not looked at. */
  datatype PackagistWorld = PackagistWorld(api: string -> Reply<PackageInfo>)

  function APIURL(pkgPath: string): string {
    "https://packagist.org/packages/" + pkgPath + ".json"
  }

  predicate NonEmpty(v: string) {
    v != ""
  }

  /** The first non-empty string, or "" when there is none. */
  function FirstNonEmpty(s: seq<string>): (r: string)
    ensures r == "" <==> forall i :: 0 <= i < |s| ==> s[i] == ""
    ensures r != "" ==> exists i :: 0 <= i < |s| && s[i] == r && forall j :: 0 <= j < i ==> s[j] == ""
  {
    var i := FirstIndexWhere(s, NonEmpty);
    if i < |s| then s[i] else ""
  }

  function VersionDescriptions(versions: seq<VersionInfo>): (r: seq<string>)
    ensures |r| == |versions| && forall i :: 0 <= i < |r| ==> r[i] == versions[i].description
  {
    seq(|versions|, i requires 0 <= i < |versions| => versions[i].description)
  }

  function VersionSourceURLs(versions: seq<VersionInfo>): (r: seq<string>)
    ensures |r| == |versions| && forall i :: 0 <= i < |r| ==> r[i] == versions[i].sourceURL
  {
    seq(|versions|, i requires 0 <= i < |versions| => versions[i].sourceURL)
  }

  /** The description used as README: the package's own, else the first
      non-empty one of a version ("" when there is none). */
  function Description(info: PackageInfo): string {
    if info.description != "" then info.description else FirstNonEmpty(VersionDescriptions(info.versions))
  }

  /** The repository URL: the package's own, else the first non-empty
      source URL of a version, in the second range's order ("" when there
      is none). */
  function RepositoryURL(info: PackageInfo): string {
    if info.repository != "" then info.repository else FirstNonEmpty(VersionSourceURLs(info.sourceOrder))
  }

  /** The fallback loops of fetchPackagist: the first non-empty value among
      the versions' descriptions or source URLs. */
  method FindFirstNonEmpty(values: seq<string>) returns (found: string)
    ensures found == FirstNonEmpty(values)
  {
    found := "";
    for i := 0 to |values|
      invariant forall j :: 0 <= j < i ==> !NonEmpty(values[j])
    {
      if values[i] != "" {
        found := values[i];
        assert FirstIndexWhere(values, NonEmpty) == i;
        return;
      }
    }
  }

  /** The references: the homepage (re-detected on cleaning), the
      repository, then those found in the description that mention the
      package. */
  function PackageReferences(m: Matchers, info: PackageInfo, description: string, pkgPath: string): seq<RelatedReference> {
    HomepageReferences(info.homepage, true) + RepositoryReferences(RepositoryURL(info)) +
    RelatedSourcesOf(m, description, pkgPath)
  }

  /** fetchPackagist. */
  function FetchPackagist(w: PackagistWorld, m: Matchers, pkgPath: string): Result<Fetched, Error> {
    match w.api(APIURL(pkgPath))
    case TransportFailed => Failure(Wrapped("the package request failed"))
    case Answered(_, body) =>
      match body
      case None => Failure(Wrapped("the package document is not valid JSON"))
      case Some(info) =>
        var description := Description(info);
        if description == "" then Failure(PackagistREADMENotFound)
        else Success(Fetched(description, PackageReferences(m, info, description, pkgPath)))
  }

  const BrowserPrefix := "https://packagist.org/packages/"

  function GetURL(packagePath: string): (u: string)
    ensures u == BrowserPrefix + packagePath
  {
    BrowserPrefix + packagePath
  }

  function PackageFromURL(url: string): Result<string, Error> {
    PathAfterPrefix(url, BrowserPrefix, InvalidPackagePath)
  }

  /** Fetch: fetchPackagist's description and references with the browser
      URL. */
  function Fetch(w: PackagistWorld, m: Matchers, packagePath: string, now: int): Result<Data, Error> {
    FetchResult(FetchPackagist(w, m, packagePath), GetURL(packagePath), now)
  }

  // ---------------------------------------------------------------------
  // Properties

  /** The README is the package description when it has one; otherwise the
      description of a version, the first in order that has one; and there
      is none exactly when neither the package nor a version has one. */
  lemma DescriptionFallback(info: PackageInfo)
    ensures info.description != "" ==> Description(info) == info.description
    ensures Description(info) == "" <==>
              info.description == "" && forall i :: 0 <= i < |info.versions| ==> info.versions[i].description == ""
    ensures info.description == "" && Description(info) != "" ==>
              exists i :: 0 <= i < |info.versions| && info.versions[i].description == Description(info) &&
                          forall j :: 0 <= j < i ==> info.versions[j].description == ""
  {
    var ds := VersionDescriptions(info.versions);
    if info.description == "" && Description(info) != "" {
      var i :| 0 <= i < |ds| && ds[i] == Description(info) && forall j :: 0 <= j < i ==> ds[j] == "";
      assert info.versions[i].description == Description(info);
    }
  }

  /** The repository field wins over the versions' source URLs, which are
      tried in the second range's order; a reference is added exactly when
      some URL is found, whichever order that range takes. */
  lemma RepositoryFallback(info: PackageInfo)
    requires SameVersions(info)
    ensures info.repository != "" ==> RepositoryURL(info) == info.repository
    ensures info.repository == "" && RepositoryURL(info) != "" ==>
              exists i :: 0 <= i < |info.sourceOrder| && info.sourceOrder[i].sourceURL == RepositoryURL(info) &&
                          forall j :: 0 <= j < i ==> info.sourceOrder[j].sourceURL == ""
    ensures RepositoryReferences(RepositoryURL(info)) == [] <==>
              info.repository == "" && forall i :: 0 <= i < |info.versions| ==> info.versions[i].sourceURL == ""
  {
    var us := VersionSourceURLs(info.sourceOrder);
    if info.repository == "" && RepositoryURL(info) != "" {
      var i :| 0 <= i < |us| && us[i] == RepositoryURL(info) && forall j :: 0 <= j < i ==> us[j] == "";
      assert info.sourceOrder[i].sourceURL == RepositoryURL(info);
    }
    if info.repository == "" {
      NoneNonEmptyInEither(info);
      if RepositoryURL(info) == "" {
        assert forall i :: 0 <= i < |info.sourceOrder| ==> us[i] == "";
      }
    }
  }

  /** Whether some version has a source URL does not depend on the order. */
  lemma NoneNonEmptyInEither(info: PackageInfo)
    requires SameVersions(info)
    ensures (forall i :: 0 <= i < |info.versions| ==> info.versions[i].sourceURL == "") <==>
            (forall i :: 0 <= i < |info.sourceOrder| ==> info.sourceOrder[i].sourceURL == "")
  {
    forall i | 0 <= i < |info.versions|
      ensures exists k :: 0 <= k < |info.sourceOrder| && info.sourceOrder[k] == info.versions[i]
    {
      assert info.versions[i] in multiset(info.versions);
      assert info.versions[i] in info.sourceOrder;
    }
    forall i | 0 <= i < |info.sourceOrder|
      ensures exists k :: 0 <= k < |info.versions| && info.versions[k] == info.sourceOrder[i]
    {
      assert info.sourceOrder[i] in multiset(info.sourceOrder);
      assert info.sourceOrder[i] in info.versions;
    }
  }

  /** The two fallbacks are independent: with no package description and
      no repository, the README can come from one version and the
      repository from another. */
  lemma FallbacksMayDisagree()
    ensures exists info :: SameVersions(info) && info.description == "" && info.repository == "" &&
                           |info.versions| == 2 &&
                           Description(info) == info.versions[0].description &&
                           RepositoryURL(info) == info.versions[1].sourceURL &&
                           info.versions[0].sourceURL != info.versions[1].sourceURL
  {
    var a := VersionInfo("a", "", "u1");
    var b := VersionInfo("b", "", "u2");
    var info := PackageInfo("vendor/pkg", "", "", "", [a, b], [b, a]);
    assert multiset([b, a]) == multiset([a, b]);
    assert FirstIndexWhere(VersionDescriptions([a, b]), NonEmpty) == 0;
    assert FirstIndexWhere(VersionSourceURLs([b, a]), NonEmpty) == 0;
  }

  /** The errors of fetchPackagist: no description anywhere is
      PackagistREADMENotFound, library failures are wrapped; the status
      code alone never fails a fetch. */
  lemma FetchPackagistErrors(w: PackagistWorld, m: Matchers, pkgPath: string)
    ensures var r := FetchPackagist(w, m, pkgPath);
            r.Failure? ==> r.error == PackagistREADMENotFound || r.error.Wrapped?
    ensures var reply := w.api(APIURL(pkgPath));
            reply.Answered? && reply.body.Some? && Description(reply.body.value) != "" ==>
              FetchPackagist(w, m, pkgPath).Success? &&
              FetchPackagist(w, m, pkgPath).value.content == Description(reply.body.value)
  {
  }

  /** The API references come first; the description's follow. */
  lemma ReferencesOrder(m: Matchers, info: PackageInfo, description: string, pkgPath: string)
    ensures APIThenDocuments(PackageReferences(m, info, description, pkgPath),
                             |HomepageReferences(info.homepage, true)| + |RepositoryReferences(RepositoryURL(info))|,
                             pkgPath)
  {
    var api := HomepageReferences(info.homepage, true) + RepositoryReferences(RepositoryURL(info));
    RelatedSourcesFromDocument(m, description, pkgPath);
    APIThenDocumentsAppend(api, RelatedSourcesOf(m, description, pkgPath), pkgPath);
  }

  /** PackageFromURL undoes GetURL for every non-empty path. */
  lemma PackageFromURLRoundTrip(p: string)
    requires p != ""
    ensures PackageFromURL(GetURL(p)) == Success(p)
  {
    PathAfterPrefixRoundTrip(BrowserPrefix, p, InvalidPackagePath);
  }
}
