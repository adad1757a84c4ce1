/** The JSR investigator (api/sourceimpl/jsr.go): a placeholder that makes
    up a one-line README without any request. */
module JSR {
  import opened Wrappers
  import opened Errors
  import opened Strs
  import opened SourceData
  import opened SourceImpl

  const BrowserPrefix := "https://jsr.io/"

  function GetURL(packagePath: string): (u: string)
    ensures HasPrefix(u, BrowserPrefix) && u[|BrowserPrefix|..] == packagePath
  {
    BrowserPrefix + packagePath
  }

  /** The README of every JSR package: a sentence naming its page. */
  function Placeholder(packagePath: string): string {
    "JavaScript package documentation for " + GetURL(packagePath) + "\nSource: jsr.io"
  }

  /** Fetch never fails: the placeholder README, no related references, the
      browser URL. */
  function Fetch(packagePath: string, now: int): (d: Result<Data, Error>)
    ensures d.Success?
    ensures Readme(d.value) == Placeholder(packagePath) && d.value.relatedSources == []
    ensures d.value.browserURL == Some(GetURL(packagePath)) && d.value.fetchError == None
  {
    Success(FetchedData(Fetched(Placeholder(packagePath), []), GetURL(packagePath), now))
  }

  function PackageFromURL(url: string): Result<string, Error> {
    PathAfterPrefix(url, BrowserPrefix, InvalidJSRPath)
  }

  /** PackageFromURL undoes GetURL for every non-empty path; the bare prefix
      is rejected and other input is returned unchanged. */
  lemma PackageFromURLRoundTrip(p: string)
    requires p != ""
    ensures PackageFromURL(GetURL(p)) == Success(p)
  {
    PathAfterPrefixRoundTrip(BrowserPrefix, p, InvalidJSRPath);
  }

  lemma PackageFromURLCases(url: string)
    ensures url == BrowserPrefix ==> PackageFromURL(url) == Failure(InvalidJSRPath)
    ensures !HasPrefix(url, BrowserPrefix) ==> PackageFromURL(url) == Success(url)
  {
  }
}
