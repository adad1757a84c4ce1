/** The npm investigator (api/sourceimpl/npm.go): the package document of
    the npm registry gives the README, the homepage and the repository. */
module NPM {
  import opened Wrappers
  import opened Errors
  import opened Strs
  import opened SourceType
  import opened SourceData
  import opened SourceDetect
  import opened Util
  import opened Extract
  import opened SourceImpl

  /** The fields of the registry's package document that are read. */
  datatype PackageInfo = PackageInfo(readme: string, homepage: string, repositoryURL: string)

  /** The registry's reply for each request URL. */
  datatype NPMWorld = NPMWorld(registry: string -> Reply<PackageInfo>)

  function RegistryURL(pkgPath: string): string {
    "https://registry.npmjs.org/" + pkgPath
  }

  /** The references of a package document: the homepage, then the
      repository, then those found in the README that mention the package. */
  function PackageReferences(m: Matchers, info: PackageInfo, pkgPath: string): seq<RelatedReference> {
    HomepageReferences(info.homepage, false) + RepositoryReferences(info.repositoryURL) +
    RelatedSourcesOf(m, info.readme, pkgPath)
  }

  /** fetchNPM. */
  function FetchNPM(w: NPMWorld, m: Matchers, pkgPath: string): Result<Fetched, Error> {
    match w.registry(RegistryURL(pkgPath))
    case TransportFailed => Failure(Wrapped("the registry request failed"))
    case Answered(status, body) =>
      if status != 200 then Failure(RepositoryNotFound)
      else
        match body
        case None => Failure(Wrapped("the package document is not valid JSON"))
        case Some(info) => Success(Fetched(info.readme, PackageReferences(m, info, pkgPath)))
  }

  const BrowserPrefix := "https://www.npmjs.com/package/"

  function GetURL(packagePath: string): (u: string)
    ensures u == BrowserPrefix + packagePath
  {
    BrowserPrefix + packagePath
  }

  function PackageFromURL(url: string): Result<string, Error> {
    PathAfterPrefix(url, BrowserPrefix, InvalidPackagePath)
  }

  /** Fetch: fetchNPM's README and references with the browser URL. */
  function Fetch(w: NPMWorld, m: Matchers, packagePath: string, now: int): Result<Data, Error> {
    FetchResult(FetchNPM(w, m, packagePath), GetURL(packagePath), now)
  }

  // ---------------------------------------------------------------------
  // Properties

  /** A successful fetch returns the registry's README verbatim (possibly
      empty), after a 200 reply that decoded. */
  lemma ContentIsReadme(w: NPMWorld, m: Matchers, pkgPath: string)
    requires FetchNPM(w, m, pkgPath).Success?
    ensures var reply := w.registry(RegistryURL(pkgPath));
            reply.Answered? && reply.status == 200 && reply.body.Some? &&
            FetchNPM(w, m, pkgPath).value.content == reply.body.value.readme
  {
  }

  /** The errors of fetchNPM: a status other than 200 is RepositoryNotFound;
      transport and decoding failures are wrapped. */
  lemma FetchNPMErrors(w: NPMWorld, m: Matchers, pkgPath: string)
    ensures var reply := w.registry(RegistryURL(pkgPath));
            reply.Answered? && reply.status != 200 ==> FetchNPM(w, m, pkgPath) == Failure(RepositoryNotFound)
    ensures var r := FetchNPM(w, m, pkgPath);
            r.Failure? ==> r.error == RepositoryNotFound || r.error.Wrapped?
  {
  }

  /** The API references come first: at most one for the homepage, then at
      most one for the repository; the README's follow, each mentioning the
      package. */
  lemma ReferencesOrder(m: Matchers, info: PackageInfo, pkgPath: string)
    ensures APIThenDocuments(PackageReferences(m, info, pkgPath),
                             |HomepageReferences(info.homepage, false)| + |RepositoryReferences(info.repositoryURL)|,
                             pkgPath)
  {
    var api := HomepageReferences(info.homepage, false) + RepositoryReferences(info.repositoryURL);
    RelatedSourcesFromDocument(m, info.readme, pkgPath);
    APIThenDocumentsAppend(api, RelatedSourcesOf(m, info.readme, pkgPath), pkgPath);
  }

  /** PackageFromURL undoes GetURL for every non-empty path. */
  lemma PackageFromURLRoundTrip(p: string)
    requires p != ""
    ensures PackageFromURL(GetURL(p)) == Success(p)
  {
    PathAfterPrefixRoundTrip(BrowserPrefix, p, InvalidPackagePath);
  }
}
