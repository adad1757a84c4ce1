/** The records passed between the crawl and the investigators
    (api/source/data.go, api/source/relatedsource.go and the `Reference`
    type they share). */
module SourceData {
  import opened Wrappers
  import opened Errors
  import opened SourceType

  /** A source to investigate: its type and the package path within it. */
  datatype Reference = Reference(typ: Type, path: string)

  /** Go's zero `Reference`: the empty (unknown) type and an empty path. */
  const ZeroReference := Reference(Unknown, "")

  /** A source mentioned by another one. `from` says where it was found:
      "api" (registry metadata) or "document" (the README text). */
  datatype RelatedReference = RelatedReference(typ: Type, path: string, url: string, from: string)

  /** What one fetch of one source produced. Go's `BrowserURL` is a nil-able
      pointer, hence an `Option`; `FetchError` is `None` for Go's nil. The
      free-form `Metadata` map is not modelled. */
  datatype Data = Data(
    source: Reference,
    contents: map<string, string>,
    browserURL: Option<string>,
    fetchError: Option<Error>,
    fetchedAt: int,
    relatedSources: seq<RelatedReference>)

  /** Go's zero `Data`. */
  const ZeroData := Data(ZeroReference, map[], None, None, 0, [])

  /** The entry the crawl stores for a failed fetch: only the error and the
      time are set, everything else keeps its zero value. */
  function FailedData(err: Error, now: int): (d: Data)
    ensures d.source == ZeroReference && d.browserURL == None && d.relatedSources == []
    ensures d.fetchError == Some(err) && d.fetchedAt == now && d.contents == map[]
  {
    ZeroData.(fetchError := Some(err), fetchedAt := now)
  }

  /** `Contents["README.md"]`, with Go's "" for a missing key. */
  function Readme(d: Data): (r: string)
    ensures "README.md" in d.contents ==> r == d.contents["README.md"]
    ensures "README.md" !in d.contents ==> r == ""
  {
    if "README.md" in d.contents then d.contents["README.md"] else ""
  }

  /** RelatedReference.ToSourceReference: the type is kept, and the path is
      the related path when there is one and the URL otherwise. */
  function ToSourceReference(r: RelatedReference): (ref: Reference)
    ensures ref.typ == r.typ
    ensures r.path != "" ==> ref.path == r.path
    ensures r.path == "" ==> ref.path == r.url
  {
    Reference(r.typ, if r.path != "" then r.path else r.url)
  }

  /** With neither a path nor a URL the reference path is empty. */
  lemma ToSourceReferenceEmpty(r: RelatedReference)
    requires r.path == "" && r.url == ""
    ensures ToSourceReference(r) == Reference(r.typ, "")
  {
  }
}
