/** The website investigator (api/sourceimpl/website.go), which serves the
    homepage and documentation types: the package path is the page's URL,
    and nothing is fetched. */
module Website {
  import opened Wrappers
  import opened Errors
  import opened SourceType
  import opened SourceData

  /** The browser URL is the path itself. */
  function GetURL(packagePath: string): (u: string)
    ensures u == packagePath
  {
    packagePath
  }

  /** Fetch never fails and contributes no contents, hence an empty README,
      and no related references. */
  function Fetch(packagePath: string, now: int): (d: Result<Data, Error>)
    ensures d.Success? && d.value.contents == map[] && Readme(d.value) == ""
    ensures d.value.relatedSources == [] && d.value.fetchError == None
    ensures d.value.browserURL == Some(packagePath) && d.value.fetchedAt == now
  {
    Success(Data(ZeroReference, map[], Some(GetURL(packagePath)), None, now, []))
  }

  /** Any non-empty URL is a package path. */
  function PackageFromURL(url: string): (r: Result<string, Error>)
    ensures url == "" <==> r.Failure?
    ensures r.Failure? ==> r.error == InvalidWebsiteURL
    ensures r.Success? ==> r.value == url
  {
    if url == "" then Failure(InvalidWebsiteURL) else Success(url)
  }
}
