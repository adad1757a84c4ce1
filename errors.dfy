/** The error values the resolution pipeline can produce. Each `ErrorCode`
    constant of the Go packages becomes a constructor; errors that Go builds
    by wrapping a library error (a failed HTTP request, an undecodable body)
    are `Wrapped`, carrying the error code the wrapper was given, if any. */
module Errors {

  datatype Error =
    | InvalidPackagePath
    | RepositoryNotFound
    | GHCommandNotFound
    | GHCommandFailed
    | GLabCommandNotFound
    | GLabCommandFailed
    | READMENotFound
    | PkgGoDevREADMENotFound
    | InvalidMetaTag
    | CratesREADMENotFound
    | CratesPackageNotFound
    | RubyGemsREADMENotFound
    | PyPIREADMENotFound
    | PackagistREADMENotFound
      // "invalid JSR package path" built with fmt.Errorf
    | InvalidJSRPath
      // "invalid website URL" built with fmt.Errorf
    | InvalidWebsiteURL
      // "investigator not found for source type", the crawl's abort error
    | NoInvestigator(typeName: string)
      // a library or I/O failure passed up through failure.Wrap
    | Wrapped(cause: string)
      // the gob file of a cache entry could not be written
    | CacheSaveFailed
}
