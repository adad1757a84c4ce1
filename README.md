# miru documentation resolution, in Dafny

miru looks up the documentation of a software package. It takes a package
reference and, optionally, a language hint. It works out which kind of
source the reference names: a registry (pkg.go.dev, npm, JSR, crates.io,
RubyGems, PyPI, Packagist), a repository host (GitHub, GitLab) or a plain
web page. It then crawls breadth-first from that source. Each source is
fetched by the investigator of its type, through a file-backed TTL cache.
Each fetch yields a README, a browser URL and the related sources it
mentions, and those related sources are crawled in turn. The data
collected per type is finally reduced to one result: the longest README
and one link per source.

This project models that pipeline and proves what each step promises.

- `SourceType`, `SourceDetect`, `SourceData` and `Resolver` model the
  source types and their four predicates. They also model URL sniffing,
  the records passed between the steps, and the dispatch from a type to
  its investigator.
- `Investigation` is the crawl. It is a class with the queue and the
  collected map as fields. Its `Do` loop is proved to terminate and to
  collect exactly the types of the references it processes. A fetch
  failure is stored without queueing anything. A type without an
  investigator aborts the crawl.
- `Cache` is the TTL cache: a `Disk` object shared by `Cache` objects,
  with key normalisation and `GetOrSet`. `FetchCache` routes an
  investigator's fetch through it.
- `Results` reduces a finished crawl; `Dedup` is the first-wins
  deduplication behind every `seen` map.
- `Extract` and `Util` model related-source extraction from README text
  and the cleanup of repository URLs.
- `SourceImpl`, `GitHub`, `GitLab`, `PkgGoDev`, `NPM`, `Crates`,
  `RubyGems`, `PyPI`, `Packagist`, `JSR`, `Website` and `Investigators`
  are the investigators, with `GetURL`, `PackageFromURL` and `Fetch`.
- `LegacySource`, `LegacyDetect`, `LegacyExtract` and `LegacyCompat` model
  the older package `api` (api/source.go, api/detect.go, api/extract.go)
  and compare it with its successors.
- `Strs` holds the Go `strings` functions over `seq<char>`; `Wrappers` and
  `Errors` hold the option, result and error types.

Everything outside the process is a parameter: HTTP replies, the `gh` and
`glab` commands, decoded JSON, the base64 and HTML-to-markdown
conversions, the meta tags of a Go import page, the clock, and how far writing a
cache file gets. Each investigator gets a "world" record with
the replies it would see, already decoded. The regular expressions of the
extraction tables are an abstract `Matchers` record: the model fixes what
is done with a match, not what matches.

Behaviour modelled as the code has it:

- **Cache save failures.** The documented behaviour is that a failed
  cache write is ignored. The code of `GetOrSet` (api/cache/cache.go:153-163)
  returns the value together with the save error, and the crawl
  (api/investigation.go:41-47) then treats the fetch as failed. The model
  follows the code. Where `saveEntry` (api/cache/cache.go:181-194) stops
  is a parameter: at `MkdirAll` or `os.Create` the disk is untouched, but
  at the gob `Encode` the old entry has already been truncated, so the
  file is left unreadable and the next unforced call runs its generator
  again (`Cache.EncodeFailureLosesEntry`).
- **Metadata separators.** The crates.io page joins its metadata with the
  three characters "â€¢", as written in api/sourceimpl/crates.go:144 (a
  bullet mis-decoded). RubyGems uses the bullet " • ".
- **Doubled GitLab host.** The older `GetURL` (api/detect.go:448-454)
  prefixes a "gitlab.com/..." path of a type without its own case with
  "https://gitlab.com/", which doubles the host. `LegacyDetect.GetURLDefault`
  states this as written.
- **Dead hint checks.** No language alias maps to GitHub or GitLab, so
  the hint tests of api/detect.go:231-232 can only pass through the path
  prefix (`LegacyDetect.HintRange`).
- **npm names.** The older npm browser URL flattens a scoped name's '/'
  to '-', and the investigator keeps it (`LegacyCompat.NPMURLsAgree`).
- **Filter keys.** The older extraction filters and deduplicates on the
  package URL, and the newer one on the path (`LegacyExtract.LegacyKeepsNewer`).
- **RubyGems references.** The RubyGems investigator deduplicates all of
  its references by URL. References found in the page carry no URL, so at
  most one of them survives (`RubyGems.AtMostOneDocumentReference`).

## Model

| member | source | states |
|---|---|---|
| SourceType.AllTypesComplete | api/source/type.go:57-71 | every source type is one of the twelve constants |
| SourceType.AllTypesCount | api/source/type.go:57-71 | there are exactly twelve source types |
| SourceType.NameInjective | api/source/type.go:57-71 | two types have the same string value exactly when they are the same type |
| SourceType.RegistryExactly | api/source/type.go:19-27 | IsRegistry holds exactly for pkg.go.dev, jsr, npm, crates.io, rubygems, pypi and packagist |
| SourceType.RepositoryExactly | api/source/type.go:29-37 | IsRepository holds exactly for github and gitlab |
| SourceType.DocumentationIsRegistry | api/source/type.go:39-46 | IsDocumentation holds exactly for pkg.go.dev and jsr, and implies IsRegistry |
| SourceType.RegistryNotRepository | api/source/type.go:19-37 | no type is both a registry and a repository |
| SourceType.ContainRepositoryURLExactly | api/source/type.go:48-55 | ContainRepositoryURL holds exactly for the repositories and pkg.go.dev |
| SourceType.NonPackageTypes | api/source/type.go:19-70 | homepage, documentation and the empty type satisfy none of the four predicates |
| SourceDetect.FirstHostMatch | api/source/detect.go:6-27 | the detected type is Unknown or the type of a row of the host table |
| SourceDetect.DetectSourceTypeFromURL | api/source/detect.go:6-27 | the URL sniffer; its answers are stated by DetectSwitch, DetectUnknownIff, DetectRepositoryIff, DetectNeverNonHostTypes and DetectKnownIsPackageSource |
| SourceDetect.DetectSwitch | api/source/detect.go:6-27 | the table search is exactly the switch: the first of github.com, gitlab.com, rubygems.org, npmjs.com, jsr.io, pkg.go.dev, crates.io, packagist.org that occurs decides |
| SourceDetect.DetectUnknownIff | api/source/detect.go:24-25 | the result is Unknown exactly when none of the eight host names occurs in the URL |
| SourceDetect.DetectNeverNonHostTypes | api/source/detect.go:6-27 | pypi, homepage and documentation are never detected |
| SourceDetect.DetectRepositoryIff | api/source/detect.go:8-11 | the result is a repository exactly when the URL contains github.com or gitlab.com |
| SourceDetect.DetectKnownIsPackageSource | api/source/detect.go:6-27 | every detected type other than Unknown is a registry or a repository |
| SourceData.FailedData | api/investigation.go:41-47 | a failed fetch's entry has the zero source, no browser URL, no related sources, no contents, the error and the fetch time |
| SourceData.Readme | api/result.go:29-34 | the README of an entry is its "README.md" content, or "" when there is none |
| SourceData.ToSourceReference | api/source/relatedsource.go:17-30 | the type is kept; a non-empty path becomes the reference path, otherwise the URL does |
| SourceData.ToSourceReferenceEmpty | api/source/relatedsource.go:17-30 | with neither a path nor a URL the reference has an empty path |
| Resolver.InvestigatorFor | api/sourceresolver/sourceresolver.go:10-35 | whenever an investigator is returned, its GetSourceType is the requested type |
| Resolver.InvestigatorForNoneIff | api/sourceresolver/sourceresolver.go:10-35 | nil is returned exactly for the empty (unknown) type, the only type outside the switch's cases |
| Resolver.WebsiteInvestigators | api/sourceresolver/sourceresolver.go:30-31 | homepage and documentation, and only they, get the website investigator |
| Resolver.InvestigatorForInjective | api/sourceresolver/sourceresolver.go:12-31 | distinct types get distinct investigators |
| Investigation.Investigation.constructor | api/investigation.go:21-27 | a new investigation holds its query and no entries |
| Investigation.Investigation.IsSufficient | api/investigation.go:70-72 | never sufficient, so Do stops only when the queue runs out or on an abort |
| Investigation.Investigation.Do | api/investigation.go:29-68 | the loop ends with the error, the entries and the cache files of the crawl from the single-element queue of the query's reference (the loop's invariant and termination measure carry the proof) |
| Investigation.Investigation.Visit | api/investigation.go:35-64 | one turn leaves the remaining crawl's outcome unchanged and decreases the termination measure: fewer uncollected types, or as many and fewer queued references of collected types |
| Investigation.StepDecreases | api/investigation.go:43-64 | storing the head's entry and queueing only references of uncollected types decreases the measure (uncollected types, queued revisits) lexicographically |
| Investigation.Enqueued | api/investigation.go:59-64 | no queued reference has a type that already has an entry, and no more are queued than were related |
| Investigation.EnqueuedExactly | api/investigation.go:59-64 | the queued references are exactly the converted related references whose type has no entry, in their order |
| Investigation.EnqueueRelated | api/investigation.go:59-64 | the loop queues exactly Enqueued of the related references |
| Investigation.StepData | api/investigation.go:41-51 | after a successful fetch the entry's source is the popped reference; after a failed one the entry is the failure record |
| Investigation.StepAdded | api/investigation.go:42-47 | nothing queued has a type with an entry; nothing is queued after a failure |
| Investigation.CrawlStep | api/investigation.go:34-64 | a crawl from a non-empty queue whose head has an investigator is one fetch and store followed by the crawl of the rest, with a smaller measure |
| Investigation.CrawlKeys | api/investigation.go:43-51 | the entries at the end are those at the start plus one per type of the fetched references |
| Investigation.CrawlKeepsOthers | api/investigation.go:43-51 | entries of types the crawl did not fetch are left as they were |
| Investigation.CrawlProcessesQueue | api/investigation.go:34-67 | a crawl that ends without error has fetched its whole starting queue, in order, first |
| Investigation.CrawlFailsOnlyOnUnknown | api/investigation.go:37-40 | the only error a crawl can end with is the missing investigator of the empty type |
| Investigation.CrawlFetchesKnownTypes | api/investigation.go:37-41 | no fetched reference has the empty type |
| Investigation.CrawlEntriesOk | api/investigation.go:41-51 | every stored entry is either data whose source is a reference of that type or a failure record with the zero source |
| Investigation.DoOnFreshInvestigation | api/investigation.go:22-67 | from no entries, a crawl without error fetched the query first and ends with an entry for exactly the types it fetched, never the empty type; an error is always the missing investigator |
| Investigation.DoUnknownQuery | api/investigation.go:30-40 | a query of the empty type aborts at once with the error, leaving entries and cache untouched |
| Cache.Disk.constructor | api/cache/cache.go:166-194 | the cache files start as given |
| Cache.MapKeyChars | api/cache/cache.go:108-116 | same length; each character is kept when it is in [a-zA-Z0-9-_./] and becomes '_' otherwise |
| Cache.Collapse | api/cache/cache.go:118-126 | repeated ReplaceAll ends with no occurrence of the pattern |
| Cache.NormalizedKey | api/cache/cache.go:106-129 | the normalised key; NormalizeKey computes it, and NormalizedKeyShape, NormalizedKeyIdempotent, NormalizedKeyFixed and MapKeyCharsAllowed state its properties |
| Cache.NormalizeKey | api/cache/cache.go:106-129 | the method with its two collapse loops computes NormalizedKey: map the characters, collapse "..", then collapse "//" |
| Cache.ReplaceAllAllowed | api/cache/cache.go:118-126 | replacing with an allowed string keeps every character allowed |
| Cache.CollapseAllowed | api/cache/cache.go:118-126 | the collapse loops keep every character allowed |
| Cache.SlashReplaceKeepsNoDots | api/cache/cache.go:123-126 | one pass of "//" to "/" cannot bring two dots together |
| Cache.CollapseSlashesKeepsNoDots | api/cache/cache.go:123-126 | the "//" loop keeps a string free of ".." |
| Cache.NormalizedKeyShape | api/cache/cache.go:106-129 | every character of a normalised key is in [a-zA-Z0-9-_./] and it contains neither ".." nor "//" |
| Cache.NormalizedKeyIdempotent | api/cache/cache.go:106-129 | normalising twice gives the same key as normalising once |
| Cache.NormalizedKeyFixed | api/cache/cache.go:106-129 | a key of allowed characters without ".." or "//" is its own normal form |
| Cache.MapKeyCharsAllowed | api/cache/cache.go:108-116 | the character map yields only allowed characters and leaves an allowed key unchanged |
| Cache.EntryPath | api/cache/cache.go:133-134 | the entry file of a key ends in "_" + kind + ".gob" |
| Cache.FreshEntry | api/cache/cache.go:137-143 | a value is found exactly when the file is present and readable and younger than the TTL, and it is that file's value |
| Cache.Cache.constructor | api/cache/cache.go:97-103 | a new cache has the given kind, the default directory and the 24-hour TTL |
| Cache.Cache.SetTTL | api/cache/cache.go:201-204 | the TTL becomes the given duration and the directory is unchanged |
| Cache.Cache.SetDir | api/cache/cache.go:206-213 | when the directory cannot be created an error is returned and the directory is unchanged, otherwise it becomes the new one |
| Cache.AfterSave | api/cache/cache.go:181-194 | a completed save stores the entry at its path; a save stopped at MkdirAll or os.Create changes no file; one stopped at Encode leaves an unreadable file at the path; no other path changes |
| Cache.Cache.SaveEntry | api/cache/cache.go:181-194 | the three steps end with the files of AfterSave, and with an error exactly when a step failed |
| Cache.Cache.GetOrSet | api/cache/cache.go:131-164 | returns and stores what GetOrSetSpec prescribes for the entry path of the key (a fresh hit, the generator's error, or the generated value saved through SaveEntry) |
| Cache.GetOrSetHit | api/cache/cache.go:137-143 | an unforced call with a readable entry younger than the TTL returns its value without running the generator or writing |
| Cache.GetOrSetCallsGenerator | api/cache/cache.go:136-147 | the generator runs exactly when forced or when there is no readable fresh entry |
| Cache.GetOrSetGeneratorFails | api/cache/cache.go:147-151 | a failing generator gives the zero value and its error, and nothing is written |
| Cache.GetOrSetMemoises | api/cache/cache.go:137-163 | a value stored by one call is served by the next unforced call within the TTL without running its generator |
| Cache.GetOrSetSaveFails | api/cache/cache.go:159-161 | when saving fails the generated value is returned together with the save error; a failure at MkdirAll or os.Create leaves the files as they were, one at Encode leaves an unreadable file at the entry path |
| Cache.EncodeFailureLosesEntry | api/cache/cache.go:181-194 | after a save that failed at Encode, the next unforced call finds no readable entry and runs its generator |
| Cache.EarlySaveFailureKeepsEntry | api/cache/cache.go:181-190 | after a save that failed at MkdirAll or os.Create, a previously stored entry that is still fresh is served by the next unforced call |
| Cache.StaleDirs | api/cache/cache.go:81-94 | every removed name starts with "v" and differs from "v1" |
| Cache.CleanupOldCache | api/cache/cache.go:72-95 | the loop removes exactly StaleDirs of the listing, in listing order |
| Cache.StaleDirsExactly | api/cache/cache.go:81-94 | a name is removed exactly when some listed directory has that name, starts with "v" and is not "v1" |
| FetchCache.CacheKey | api/sourceimpl/cache.go:16-17 | the key is the investigator's source type, ":", and the package path |
| FetchCache.SameKeySamePath | api/sourceimpl/cache.go:16-23 | two investigators of the same source type share the cache file of a package path |
| FetchCache.FetchWithCache | api/sourceimpl/cache.go:15-28 | a "fetch" cache's GetOrSet with the key above and the investigator's fetch as generator, with forceUpdate passed through; its value, error and disk are returned unmodified |
| FetchCache.ForcedFetchUsesInvestigator | api/sourceimpl/cache.go:15-28 | a forced fetch always runs the investigator: its failure gives the zero Data and its error, its success its data, with an error exactly when saving did not complete |
| Results.LinksOf | api/result.go:26-39 | one link per visited entry, in visiting order, with the entry's source type and browser URL |
| Results.CreateResult | api/result.go:24-49 | the README is the longest-README pass over the entries, the links are LinksOf, and the query's URL and type are set exactly when the query's type has an entry (the type then being the query's) |
| Results.LongestReadmeIsLongest | api/result.go:29-34 | the README is at least as long as every entry's README, and is "" or one of them |
| Results.LongestReadmeFirst | api/result.go:32-33 | only a strictly longer README replaces the current one: the chosen one belongs to an entry every earlier entry of which has a shorter README |
| Results.DistinctCard | api/result.go:29 | a visiting order without repeats has as many types as positions |
| Results.OneLinkPerEntry | api/result.go:26-39 | exactly as many links as entries, each entry's type and URL among them; a failed entry gives a link of the empty type without URL |
| Results.FirstMatch | api/result.go:51-85 | no URL when no link's type matches; otherwise the URL of the first matching link |
| Results.GetHomepage | api/result.go:51-58 | the URL of the first Homepage link; LookupsSkipFailedLinks states that an answer comes from a Homepage link, FirstMatch that it is the first one |
| Results.GetDocumentation | api/result.go:60-67 | the URL of the first link of a registry with documentation; LookupsSkipFailedLinks and FirstMatch carry the contract (pkg.go.dev or JSR, first such link) |
| Results.GetRegistry | api/result.go:69-76 | the URL of the first registry link; LookupsSkipFailedLinks and FirstMatch carry the contract (a registry type, never the empty type, first such link) |
| Results.GetRepository | api/result.go:78-85 | the URL of the first repository link; LookupsSkipFailedLinks and FirstMatch carry the contract (GitHub or GitLab, first such link) |
| Results.FirstMatchFrom | api/result.go:51-85 | a URL found comes from a link whose type matches |
| Results.LookupsSkipFailedLinks | api/result.go:51-85 | GetHomepage answers only from a homepage link, GetDocumentation from pkg.go.dev or jsr, GetRegistry from a registry, GetRepository from github or gitlab; never from a failed entry's link of the empty type |
| Dedup.KeepFirstSnoc | api/sourceimpl/extract.go:120-137 | one more item is kept exactly when its key is accepted and not seen yet |
| Dedup.SeenKeysSnoc | api/sourceimpl/extract.go:131-133 | marking an item seen adds exactly its key |
| Dedup.SeenKeysExactly | api/sourceimpl/extract.go:120-137 | a key is seen exactly when it is accepted and some input item has it |
| Dedup.KeepFirstSubsequence | api/sourceimpl/extract.go:120-137 | the kept items are the input items at strictly increasing positions: a subsequence in input order |
| Dedup.KeepFirstExactly | api/sourceimpl/extract.go:120-137 | an item is kept exactly when its key is accepted and no earlier item has that key |
| Dedup.KeepFirstDistinct | api/sourceimpl/extract.go:120-137 | the kept items have pairwise distinct keys |
| Dedup.KeepFirstFrom | api/sourceimpl/extract.go:120-137 | every kept item is an input item whose key is accepted |
| Extract.DocumentReference | api/sourceimpl/extract.go:81-85 | a reference found in a document has the row's type, the captured name as path, no URL and "document" as origin |
| Extract.StripFragments | api/sourceimpl/extract.go:172-188 | every URL is cut at its first '#' and so holds no '#' |
| Extract.Candidates | api/sourceimpl/extract.go:164-195 | no candidate URL holds a '#' |
| Extract.AddLineURLs | api/sourceimpl/extract.go:169-193 | the inner loop appends the line's fragment-free URLs not seen before, keeping the seen set equal to the URLs so far |
| Extract.ExtractURLs | api/sourceimpl/extract.go:154-198 | the loop over lines computes ExtractedURLs: every candidate, first occurrence only, in order |
| Extract.ExtractedURLsSpec | api/sourceimpl/extract.go:154-198 | the extracted URLs are pairwise distinct, hold no '#', and are exactly the candidates of the lines (markdown link targets on lines with "](", raw http(s) tokens elsewhere) |
| Extract.FirstURLMatch | api/sourceimpl/extract.go:74-88 | no reference exactly when no row's URL pattern matches; otherwise the reference of the first matching row, always of a registry type |
| Extract.SourcesFromURLs | api/sourceimpl/extract.go:71-92 | at most one reference per URL, each from a document, without URL and of a registry type |
| Extract.ExtractSourcesFromURLs | api/sourceimpl/extract.go:71-92 | the nested loops compute SourcesFromURLs |
| Extract.RowCommandSources | api/sourceimpl/extract.go:99-113 | a row's command pattern yields one reference of the row's type per match, each from a document without URL |
| Extract.CommandSources | api/sourceimpl/extract.go:95-117 | every command reference is from a document and has no URL |
| Extract.ExtractSourcesFromCommands | api/sourceimpl/extract.go:95-117 | the loops compute CommandSources over the whole table |
| Extract.CommandSourcesGrouped | api/sourceimpl/extract.go:98-114 | the references of the first k rows are a prefix of those of the first n, and every match is kept: their count is the number of matches of the rows |
| Extract.RelatedKey | api/sourceimpl/extract.go:125 | the key is the URL when it is set and the path otherwise |
| Extract.FilterAndDeduplicate | api/sourceimpl/extract.go:120-137 | the loop computes the first-wins filter on RelatedKey that accepts keys containing the current package |
| Extract.FilteredSpec | api/sourceimpl/extract.go:120-137 | the output is a subsequence of the input; an item is kept exactly when its key contains the package and no earlier item has its key; kept keys are distinct |
| Extract.RelatedSourcesFromDocument | api/sourceimpl/extract.go:142-150 | every related source of a README comes from the document, has no URL and a path containing the package; no two share a path |
| Extract.ExtractRelatedSources | api/sourceimpl/extract.go:142-150 | URL references, then command references, then the filter |
| Extract.RowWithoutMatches | api/sourceimpl/extract.go:103-113 | a row without matches contributes nothing |
| Extract.RowsWithoutMatches | api/sourceimpl/extract.go:98-114 | rows without matches leave the command references unchanged |
| Extract.InstallRows | api/sourceimpl/extract.go:98-114 | when only the npm install pattern matches, once, the command references are that one npm reference |
| Extract.NPMPageURL | api/sourceimpl/extract.go:74-88 | an npm package page the JSR row does not match yields the npm reference of the captured name |
| Extract.FilteredTwice | api/sourceimpl/extract.go:124-134 | a reference met twice is kept once |
| Extract.NPMPageAndInstall | api/sourceimpl/extract_test.go:22-42 | a README linking to the npm page of a package and showing its npm install line yields exactly one npm reference with that name as path |
| Util.NormalizeScheme | api/sourceimpl/util.go:132-160 | after dropping ".git", "git+", "git://" and rewriting the scp and ssh forms, the URL always starts with "https://" |
| Util.CleanupURL | api/sourceimpl/util.go:131-187 | the result always starts with "https://", and has no '#' when the given type, or for the empty type the detected one, is a repository |
| Util.Finish | api/sourceimpl/util.go:162-186 | keeps the "https://" prefix; a repository URL loses everything from its first '#' |
| UtilCases.FinishPlain | api/sourceimpl/util.go:167-186 | a URL without '#' and '-' comes out of the type-dependent tail unchanged |
| UtilCases.NormalizeHttpsGit | api/sourceimpl/util.go:132-133 | one trailing ".git" is removed from an https URL |
| UtilCases.NormalizeGitPlus | api/sourceimpl/util.go:135-136 | "git+https://R.git" becomes "https://R" |
| UtilCases.NormalizeScp | api/sourceimpl/util.go:141-147 | "git@HOST:PATH.git" becomes "https://HOST/PATH" |
| UtilCases.NormalizeSsh | api/sourceimpl/util.go:149-155 | "ssh://git@R.git" becomes "https://R" |
| UtilCases.NormalizeGitProtocol | api/sourceimpl/util.go:138-139 | "git://R.git" becomes "https://R" |
| UtilCases.NormalizeHttpsPlain | api/sourceimpl/util.go:157-160 | an https URL without ".git" is already normal |
| UtilCases.CleanupStages | api/sourceimpl/util.go:131-187 | cleanupURL is the scheme rewriting followed by the type-dependent tail on the effective type |
| UtilCases.CleanupPlain | api/sourceimpl/util.go:131-187 | once the scheme is normal and the URL holds no '#' or '-', nothing else changes, whatever the type |
| UtilCases.CleanupHttpsGit | api/sourceimpl/util.go:131-187 | cleanupURL of "https://R.git" is "https://R" for every type, when R has no '#' and no '-' |
| UtilCases.CleanupGitPlus | api/sourceimpl/util.go:131-187 | cleanupURL of "git+https://R.git" is "https://R" for every type, when R has no '#' and no '-' |
| UtilCases.CleanupScp | api/sourceimpl/util.go:131-187 | cleanupURL of "git@HOST:PATH.git" is "https://HOST/PATH" for every type, when HOST has no ':' and HOST and PATH have no '#' and no '-' |
| UtilCases.CleanupSsh | api/sourceimpl/util.go:131-187 | cleanupURL of "ssh://git@R.git" is "https://R" for every type, when R has no '#' and no '-' |
| UtilCases.CleanupGitProtocol | api/sourceimpl/util.go:131-187 | cleanupURL of "git://R.git" is "https://R" for every type, when R has no '#' and no '-' and does not itself start with "git@", "ssh://" or "https://" |
| UtilCases.CleanupRowGitHubHttps | api/sourceimpl/util_test.go:11-15 | the GitHub HTTPS row of the table holds for cleanupURL, the successor of the cleanupRepositoryURL the table calls |
| UtilCases.CleanupRowGitHubGitPlus | api/sourceimpl/util_test.go:16-20 | the GitHub git+https row of the table holds for cleanupURL, the successor of the cleanupRepositoryURL the table calls |
| UtilCases.CleanupRowGitHubScp | api/sourceimpl/util_test.go:21-25 | the GitHub SSH row of the table holds for cleanupURL, the successor of the cleanupRepositoryURL the table calls |
| UtilCases.CleanupRowGitHubSsh | api/sourceimpl/util_test.go:26-30 | the GitHub ssh:// row of the table holds for cleanupURL, the successor of the cleanupRepositoryURL the table calls |
| UtilCases.CleanupRowGitHubGitProtocol | api/sourceimpl/util_test.go:31-35 | the GitHub git:// row of the table holds for cleanupURL, the successor of the cleanupRepositoryURL the table calls |
| UtilCases.CleanupRowGitLabTree | api/sourceimpl/util_test.go:36-40 | the GitLab "/-/" row of the table holds for cleanupURL, the successor of the cleanupRepositoryURL the table calls, with the type left empty and detected |
| UtilCases.CleanupRowGitLabScp | api/sourceimpl/util_test.go:41-45 | the GitLab SSH row of the table holds for cleanupURL, the successor of the cleanupRepositoryURL the table calls |
| UtilCases.CleanupRowOtherHttps | api/sourceimpl/util_test.go:46-50 | the other-host HTTPS row of the table holds for cleanupURL, the successor of the cleanupRepositoryURL the table calls |
| UtilCases.CleanupRowOtherScp | api/sourceimpl/util_test.go:51-55 | the other-host SSH row of the table holds for cleanupURL, the successor of the cleanupRepositoryURL the table calls |
| UtilCases.FinishGitLabMarker | api/sourceimpl/util.go:176-182 | a GitLab URL with one "/-/" marker has it replaced by "/" |
| UtilCases.CleanupGitLabVia | api/sourceimpl/util.go:162-182 | a URL whose normal form mentions gitlab.com is detected as GitLab and its "/-/" marker collapses |
| UtilCases.CleanupGitLabMarker | api/sourceimpl/util.go:131-187 | cleanupURL of "https://gitlab.com/P/-/Q" with the empty type is "https://gitlab.com/P/Q", when P and Q have no '#' and no '-', the URL does not mention github.com, and Q has at least four characters and does not end in ".git" |
| SourceImpl.FetchedData | api/sourceimpl/github.go:216-224 | a successful Fetch's Data holds the README under "README.md", the related references, the browser URL and the fetch time, with no error and the zero source |
| SourceImpl.FetchResult | api/sourceimpl/github.go:209-225 | a Fetch returns the inner fetch's error as is, or its result as Data |
| SourceImpl.APIReference | api/sourceimpl/npm.go:75-81 | a metadata reference has the given type and URL, no path, and "api" as origin |
| SourceImpl.HomepageReference | api/sourceimpl/github.go:170-187 | a homepage on a known host becomes a reference of the detected type with a cleaned https URL; any other homepage becomes a homepage reference with the URL as given |
| SourceImpl.HomepageReferences | api/sourceimpl/github.go:169-187 | an empty homepage field gives no reference, a non-empty one exactly its homepage reference |
| SourceImpl.RepositoryReferences | api/sourceimpl/npm.go:75-81 | an empty repository field gives no reference; a non-empty one gives one reference typed by detection (possibly unknown) with the URL cleaned, starting with "https://" |
| SourceImpl.PathAfterPrefix | api/sourceimpl/github.go:240-255 | a URL under the prefix gives what follows it, an error when nothing follows; any other URL is returned unchanged |
| SourceImpl.PathAfterPrefixRoundTrip | api/sourceimpl/github.go:227-255 | stripping the prefix from prefix + p gives back a non-empty p |
| SourceImpl.StripThrough | api/sourceimpl/github.go:51-55 | without the marker the path is kept; with it, the result is what follows its first occurrence |
| SourceImpl.StripThroughAbsent | api/sourceimpl/github.go:51-55 | a path without the marker is kept |
| SourceImpl.FirstTwoSegments | api/sourceimpl/github.go:75-83 | no segments exactly when the path has no '/'; otherwise the two segments hold no '/' and the path starts with them joined by '/' |
| SourceImpl.FirstIndexWhere | api/sourceimpl/github.go:132-137 | the index of the first entry that satisfies the test, or the length when none does |
| GitHub.OwnerRepo | api/sourceimpl/github.go:74-97 | a path without two segments, or whose repository is empty once cut at '?' and then '#', is an invalid package path; otherwise owner and repository are segments without '/', the repository without '?' or '#', and the path starts with them |
| GitHub.ReadmePath | api/sourceimpl/github.go:129-137 | the path of the first listing entry whose lowercased name is "readme" or starts with "readme.", or "" when there is none |
| GitHub.FindReadmePath | api/sourceimpl/github.go:129-137 | the loop with its break computes ReadmePath |
| GitHub.GetContent | api/sourceimpl/github.go:192-204 | any encoding other than "base64" is GHCommandFailed; base64 content gives its decoding, or a wrapped error when it does not decode |
| GitHub.FetchFromListing | api/sourceimpl/github.go:129-189 | the README step of fetchGitHub; FetchFromListingErrors, NoReadmeIsNoError, NonBase64Rejected and ReferencesOrder carry its contract |
| GitHub.FetchGitHub | api/sourceimpl/github.go:50-190 | fetchGitHub; FetchGitHubErrors states its failures and when it succeeds, ReferencesOrder the order of its references |
| GitHub.PackageFromURL | api/sourceimpl/github.go:240-255 | the path after the browser prefix; InvalidPackagePath for the bare prefix; any other URL unchanged; PackageFromURLRoundTrip states that it undoes GetURL |
| GitHub.Fetch | api/sourceimpl/github.go:209-225 | fetchGitHub wrapped as source data; Investigators.FetchBrowserURL states the browser URL, time and empty error of a success |
| GitHub.GetURL | api/sourceimpl/github.go:227-234 | the browser URL is "https://github.com/" followed by the path with everything through the first "github.com/" removed |
| GitHub.FetchFromListingErrors | api/sourceimpl/github.go:139-167 | the README step fails only with GHCommandFailed or a wrapped error |
| GitHub.FetchGitHubErrors | api/sourceimpl/github.go:50-190 | fetchGitHub fails only with GHCommandNotFound, InvalidPackagePath, GHCommandFailed or a wrapped error; a missing gh comes first, then a path without two segments |
| GitHub.NoReadmeIsNoError | api/sourceimpl/github.go:139-189 | a repository without a README gives empty content and only the homepage reference, with no error |
| GitHub.DocumentsThenHomepageAppend | api/sourceimpl/github.go:166-187 | README references followed by the homepage references have the documents-then-homepage shape |
| GitHub.ReferencesOrder | api/sourceimpl/github.go:166-187 | the references of a fetch are README references, each naming the repository, followed by the homepage reference if there is a homepage |
| GitHub.NonBase64Rejected | api/sourceimpl/github.go:141-159 | a README whose content is not base64-encoded makes the fetch fail with GHCommandFailed |
| GitHub.HostAtEight | api/sourceimpl/github.go:227-234 | in a browser URL the first "github.com/" is the host itself |
| GitHub.GetURLIdempotent | api/sourceimpl/github.go:227-234 | the browser URL of a browser URL is the same URL |
| GitHub.PackageFromURLRoundTrip | api/sourceimpl/github.go:227-255 | PackageFromURL of GetURL(p) is p for every non-empty p without "github.com/" |
| GitLab.RawURL | api/sourceimpl/gitlab.go:96-98 | the README is downloaded from a gitlab.com URL (the main branch's raw file) |
| GitLab.ReadmeName | api/sourceimpl/gitlab.go:92-101 | no README exactly when no entry's lowercased name is "readme" or starts with "readme."; otherwise the first such name |
| GitLab.FindReadmeURL | api/sourceimpl/gitlab.go:92-101 | the loop with its break gives "" without a README, and otherwise the raw URL "https://gitlab.com/<owner>/<repo>/-/raw/main/<name>" of the first README |
| GitLab.GetURL | api/sourceimpl/gitlab.go:153-160 | the browser URL is "https://gitlab.com/" followed by the path with everything through the first "gitlab.com/" removed |
| GitLab.FetchProject | api/sourceimpl/gitlab.go:72-130 | the tree listing and README download of fetchGitlab; FetchProjectErrors, NoReadmeIsError and FetchedFromRawURL carry its contract |
| GitLab.FetchGitLab | api/sourceimpl/gitlab.go:38-130 | fetchGitlab; FetchGitLabErrors states its failures, FetchedFromRawURL what a success holds |
| GitLab.PackageFromURL | api/sourceimpl/gitlab.go:166-181 | the path after the browser prefix; InvalidPackagePath for the bare prefix; any other URL unchanged; PackageFromURLRoundTrip states that it undoes GetURL |
| GitLab.Fetch | api/sourceimpl/gitlab.go:135-151 | fetchGitlab wrapped as source data; Investigators.FetchBrowserURL carries the contract |
| GitLab.NoReadmeIsError | api/sourceimpl/gitlab.go:103-111 | unlike GitHub, a project without a README is the error READMENotFound |
| GitLab.FetchedFromRawURL | api/sourceimpl/gitlab.go:92-129 | a successful fetch returns what was downloaded from the raw URL of the first README, with only references found in it, each naming the repository; there is no homepage reference |
| GitLab.FetchGitLabErrors | api/sourceimpl/gitlab.go:38-130 | fetchGitlab fails only with GLabCommandNotFound, InvalidPackagePath, GLabCommandFailed, READMENotFound or a wrapped error; a missing glab comes first, then a path without two segments |
| GitLab.FetchProjectErrors | api/sourceimpl/gitlab.go:72-130 | once the project is known, only GLabCommandFailed, READMENotFound or a wrapped error can occur |
| GitLab.HostAtEight | api/sourceimpl/gitlab.go:153-160 | in a browser URL the first "gitlab.com/" is the host itself |
| GitLab.GetURLIdempotent | api/sourceimpl/gitlab.go:153-160 | the browser URL of a browser URL is the same URL |
| GitLab.PackageFromURLRoundTrip | api/sourceimpl/gitlab.go:153-181 | PackageFromURL of GetURL(p) is p for every non-empty p without "gitlab.com/" |
| NPM.ContentIsReadme | api/sourceimpl/npm.go:36-87 | a successful fetch follows a 200 reply that decoded, and returns the registry's readme verbatim |
| NPM.FetchNPM | api/sourceimpl/npm.go:27-87 | fetchNPM; ContentIsReadme, FetchNPMErrors and ReferencesOrder carry its contract |
| NPM.GetURL | api/sourceimpl/npm.go:112-114 | the npmjs.com browser URL of the package path |
| NPM.PackageFromURL | api/sourceimpl/npm.go:120-137 | the path after the browser prefix; InvalidPackagePath for the bare prefix; any other URL unchanged; PackageFromURLRoundTrip states that it undoes GetURL |
| NPM.Fetch | api/sourceimpl/npm.go:93-110 | fetchNPM wrapped as source data; Investigators.FetchBrowserURL carries the contract |
| NPM.FetchNPMErrors | api/sourceimpl/npm.go:27-49 | a status other than 200 is RepositoryNotFound; every other failure is a wrapped error |
| NPM.ReferencesOrder | api/sourceimpl/npm.go:52-85 | the metadata references (at most the homepage, then the repository) come first, then the README's, each mentioning the package path |
| NPM.PackageFromURLRoundTrip | api/sourceimpl/npm.go:112-137 | PackageFromURL of GetURL(p) is p for every non-empty p |
| PkgGoDev.WithHTTPS | api/sourceimpl/pkggodev.go:102-105 | the request URL starts with "https://": the path itself when it already does, "https://" + path otherwise |
| PkgGoDev.GoGetRequest | api/sourceimpl/pkggodev.go:107-116 | the request carries go-get=1, keeps the host and every other query parameter |
| PkgGoDev.MetadataFromTags | api/sourceimpl/pkggodev.go:162-210 | no go-import content, or one without exactly three fields, is InvalidMetaTag with no URLs; a repository is the parsed third go-import field; a homepage is the parsed second go-source field; without a usable go-source tag there is no homepage and no error |
| PkgGoDev.DetectGoMetadata | api/sourceimpl/pkggodev.go:98-211 | without a repository there is no homepage and always an error; an unparsable path or a failed request is RepositoryNotFound |
| PkgGoDev.SourceRepository | api/sourceimpl/pkggodev.go:33-39 | the source repository is the repository when its host is github.com or gitlab.com, else the homepage under the same condition, else none |
| PkgGoDev.TrailingReferences | api/sourceimpl/pkggodev.go:57-69 | after the repository's references come the homepage reference, when there is a homepage, and last the source repository typed by detection |
| PkgGoDev.FetchSource | api/sourceimpl/pkggodev.go:44-50 | the README of the chosen source repository, by the GitHub fetcher when its URL mentions "github.com" and by the GitLab one otherwise; SourceURLNamesHost and ReferencesOrder carry the contract |
| PkgGoDev.FetchPkgGoDev | api/sourceimpl/pkggodev.go:20-80 | fetchPkgGoDev; RepositoryPathsDelegated, MetadataErrors, NoRepositoryHost and ReferencesOrder carry its contract |
| PkgGoDev.GetURL | api/sourceimpl/pkggodev.go:234-236 | the pkg.go.dev browser URL of the package path |
| PkgGoDev.PackageFromURL | api/sourceimpl/pkggodev.go:242-257 | the path after the browser prefix; InvalidPackagePath for the bare prefix; any other URL unchanged; PackageFromURLRoundTrip states that it undoes GetURL |
| PkgGoDev.Fetch | api/sourceimpl/pkggodev.go:216-232 | fetchPkgGoDev wrapped as source data; Investigators.FetchBrowserURL carries the contract |
| PkgGoDev.RepositoryPathsDelegated | api/sourceimpl/pkggodev.go:22-26 | a path containing "github.com/" is the GitHub fetch, else one containing "gitlab.com/" is the GitLab fetch, unchanged |
| PkgGoDev.MetaTagsRead | api/sourceimpl/pkggodev.go:179-210 | with a three-field go-import tag whose third field parses, that is the repository; the homepage is the parsed second go-source field when there are two, and otherwise there is none and no error |
| PkgGoDev.MetadataErrors | api/sourceimpl/pkggodev.go:98-211 | a failed detection is RepositoryNotFound or InvalidMetaTag |
| PkgGoDev.SourceURLNamesHost | api/sourceimpl/pkggodev.go:40-51 | the source repository's URL contains github.com or gitlab.com, so the panic branch is unreachable when parsing keeps the host |
| PkgGoDev.ReferencesOrder | api/sourceimpl/pkggodev.go:28-72 | for other import paths a successful fetch read the source repository, and its references are the repository's followed by the homepage, if any, and then the source repository |
| PkgGoDev.NoRepositoryHost | api/sourceimpl/pkggodev.go:74-79 | without a GitHub or GitLab URL among repository and homepage the fetch fails with PkgGoDevREADMENotFound |
| PkgGoDev.PackageFromURLRoundTrip | api/sourceimpl/pkggodev.go:234-257 | PackageFromURL of GetURL(p) is p for every non-empty p |
| Crates.DefaultVersion | api/sourceimpl/crates.go:73-80 | no version exactly when no version's number is the crate's default; otherwise the first one whose number is |
| Crates.FindDefaultVersion | api/sourceimpl/crates.go:73-80 | the loop with its break computes DefaultVersion |
| Crates.Metadata | api/sourceimpl/crates.go:132-142 | no metadata entries exactly when license, categories and keywords are all empty; the license comes first and the keywords last when present |
| Crates.Links | api/sourceimpl/crates.go:147-157 | no link lines exactly when homepage, documentation and repository are all empty; the homepage comes first and the repository last when present |
| Crates.Sections | api/sourceimpl/crates.go:121-163 | the title "# <name> v<default version>" first and the README markdown last, with the description, the metadata line and the links block in between exactly when they have content |
| Crates.DocumentationReferences | api/sourceimpl/crates.go:191-199 | an empty documentation field gives no reference; otherwise one documentation reference whose path and URL are both the raw value |
| Crates.CrateRepositoryReferences | api/sourceimpl/crates.go:201-209 | an empty repository field gives no reference; otherwise one typed by detection, with the raw URL as path and the cleaned URL as URL |
| Crates.MetadataReferences | api/sourceimpl/crates.go:171-209 | the metadata references all come from the API, one per non-empty homepage, documentation and repository field |
| Crates.FetchCratesIO | api/sourceimpl/crates.go:44-216 | fetchCratesIO; FetchCratesErrors, NoDefaultVersion, FetchedDocument and ReferencesOrder carry its contract |
| Crates.GetURL | api/sourceimpl/crates.go:239-246 | the crates.io browser URL of the last path segment; GetURLIdempotent and PackageFromURLRoundTrip carry the contract |
| Crates.PackageFromURL | api/sourceimpl/crates.go:252-267 | the path after the browser prefix; InvalidPackagePath for the bare prefix; any other URL unchanged; PackageFromURLRoundTrip states that it undoes GetURL |
| Crates.Fetch | api/sourceimpl/crates.go:221-237 | fetchCratesIO wrapped as source data; Investigators.FetchBrowserURL carries the contract |
| Crates.FetchCratesErrors | api/sourceimpl/crates.go:44-216 | a 404 for the crate is CratesPackageNotFound; every failure is CratesPackageNotFound, CratesREADMENotFound or a wrapped error |
| Crates.FetchReadmeErrors | api/sourceimpl/crates.go:82-119 | once the default version is known, a failure is CratesREADMENotFound or a wrapped error |
| Crates.NoDefaultVersion | api/sourceimpl/crates.go:82-89 | a crate whose versions do not include the default one is CratesREADMENotFound |
| Crates.DocumentFrame | api/sourceimpl/crates.go:121-166 | the document starts with the title line and ends with the README markdown |
| Crates.FetchedDocument | api/sourceimpl/crates.go:73-216 | a successful fetch found the default version with a README path and returns the formatted document, followed by the metadata references and then those found in the document |
| Crates.ReferencesOrder | api/sourceimpl/crates.go:168-213 | metadata references precede document references, which each mention the package path |
| Crates.PackageFromURLRoundTrip | api/sourceimpl/crates.go:239-266 | PackageFromURL of GetURL(p) is the last segment of p, whenever that is not empty |
| Crates.GetURLIdempotent | api/sourceimpl/crates.go:239-246 | the browser URL of a browser URL is the same URL |
| RubyGems.Summary | api/sourceimpl/rubygems.go:123-128 | the summary section is the description, else the info text, else absent |
| RubyGems.Metadata | api/sourceimpl/rubygems.go:130-141 | the download count is always the last metadata entry and the authors the first when present; one entry per present field plus the downloads |
| RubyGems.Links | api/sourceimpl/rubygems.go:146-156 | no link lines exactly when homepage, documentation and source are all empty; homepage first and source last when present |
| RubyGems.Sections | api/sourceimpl/rubygems.go:117-159 | the title comes first, the summary second when present, then the metadata line, which is always present; a links block only when there are links |
| RubyGems.LinkReferences | api/sourceimpl/rubygems.go:64-97 | every reference built from the gem's links is marked as coming from the API, one per non-empty homepage, documentation and source |
| RubyGems.DeduplicateByURL | api/sourceimpl/rubygems.go:103-111 | the loop with its seen-set keeps exactly the first reference of each URL, in order |
| RubyGems.UniqueURLs | api/sourceimpl/rubygems.go:103-111 | the kept references have pairwise distinct URLs and all come from the input |
| RubyGems.AtMostOneDocumentReference | api/sourceimpl/rubygems.go:99-111 | references found in the page carry no URL, so at most one of them survives the URL deduplication |
| RubyGems.FetchRubyGems | api/sourceimpl/rubygems.go:37-114 | fetchRubyGemsReadme; FetchRubyGemsErrors, PageFrame, UniqueURLs and AtMostOneDocumentReference carry its contract |
| RubyGems.GetURL | api/sourceimpl/rubygems.go:186-193 | the rubygems.org browser URL of the last path segment; GetURLIdempotent and PackageFromURLRoundTrip carry the contract |
| RubyGems.PackageFromURL | api/sourceimpl/rubygems.go:199-214 | the path after the browser prefix; InvalidPackagePath for the bare prefix; any other URL unchanged; PackageFromURLRoundTrip states that it undoes GetURL |
| RubyGems.Fetch | api/sourceimpl/rubygems.go:168-184 | fetchRubyGemsReadme wrapped as source data; Investigators.FetchBrowserURL carries the contract |
| RubyGems.FetchRubyGemsErrors | api/sourceimpl/rubygems.go:37-59 | a 404 reply yields RubyGemsREADMENotFound; every other failure is a wrapped library error |
| RubyGems.PageFrame | api/sourceimpl/rubygems.go:117-163 | the page starts with the title and always contains the metadata line, which ends with the download count |
| RubyGems.PackageFromURLRoundTrip | api/sourceimpl/rubygems.go:186-214 | PackageFromURL recovers from the browser URL the gem name (last path segment) that GetURL put there |
| RubyGems.GetURLIdempotent | api/sourceimpl/rubygems.go:186-193 | GetURL applied to its own browser URL gives that URL back |
| PyPI.PackageName | api/sourceimpl/pypi.go:33-36 | the package name sent to the API contains no '/': only the last segment of the path is kept |
| PyPI.ProjectReferences | api/sourceimpl/pypi.go:95-124 | one reference from the API per project URL, in the order given, typed by its host when that is GitHub or GitLab and otherwise by its name |
| PyPI.ClassifyProjectURLs | api/sourceimpl/pypi.go:95-124 | the loop over the project URLs, with its switch on the lower-cased name, computes ProjectReferences |
| PyPI.ProjectURLTypeCases | api/sourceimpl/pypi.go:97-117 | a GitHub or GitLab URL keeps its host's type whatever its name; otherwise "homepage"/"home" give Homepage, a repository name the detected type and any other name Documentation; the type is Unknown exactly for a repository name on an unrecognised host |
| PyPI.FetchPyPI | api/sourceimpl/pypi.go:31-131 | fetchPyPI; FetchPyPIErrors, ContentIsDescription and ReferencesOrder carry its contract |
| PyPI.GetURL | api/sourceimpl/pypi.go:154-161 | the pypi.org browser URL of the last path segment; GetURLIdempotent and PackageFromURLRoundTrip carry the contract |
| PyPI.PackageFromURL | api/sourceimpl/pypi.go:167-182 | the path after the browser prefix; InvalidPackagePath for the bare prefix; any other URL unchanged; PackageFromURLRoundTrip states that it undoes GetURL |
| PyPI.Fetch | api/sourceimpl/pypi.go:136-152 | fetchPyPI wrapped as source data; Investigators.FetchBrowserURL carries the contract |
| PyPI.FetchPyPIErrors | api/sourceimpl/pypi.go:31-69 | a status other than 200 yields RepositoryNotFound and an empty description PyPIREADMENotFound; every other failure is a wrapped library error |
| PyPI.ContentIsDescription | api/sourceimpl/pypi.go:61-130 | a successful fetch returns the project's description as README, and it is never empty |
| PyPI.ReferencesOrder | api/sourceimpl/pypi.go:72-130 | the API references (homepage, then one per project URL) come first, followed only by references found in the description that mention the package |
| PyPI.PackageFromURLRoundTrip | api/sourceimpl/pypi.go:154-182 | PackageFromURL recovers from the browser URL the project name that GetURL put there |
| PyPI.GetURLIdempotent | api/sourceimpl/pypi.go:154-161 | GetURL applied to its own browser URL gives that URL back |
| Packagist.FirstNonEmpty | api/sourceimpl/packagist.go:57-109 | the fallback value is empty exactly when every candidate is empty; otherwise it is the first non-empty candidate, every earlier one being empty |
| Packagist.FindFirstNonEmpty | api/sourceimpl/packagist.go:57-109 | the loop with its break computes FirstNonEmpty |
| Packagist.FetchPackagist | api/sourceimpl/packagist.go:39-126 | fetchPackagist; DescriptionFallback, RepositoryFallback, FallbacksMayDisagree, FetchPackagistErrors and ReferencesOrder carry its contract |
| Packagist.GetURL | api/sourceimpl/packagist.go:149-151 | the packagist.org browser URL of the package path |
| Packagist.PackageFromURL | api/sourceimpl/packagist.go:157-172 | the path after the browser prefix; InvalidPackagePath for the bare prefix; any other URL unchanged; PackageFromURLRoundTrip states that it undoes GetURL |
| Packagist.Fetch | api/sourceimpl/packagist.go:131-147 | fetchPackagist wrapped as source data; Investigators.FetchBrowserURL carries the contract |
| Packagist.DescriptionFallback | api/sourceimpl/packagist.go:54-73 | the package description wins; otherwise the first version description in iteration order is used; there is none exactly when neither the package nor any version has one |
| Packagist.RepositoryFallback | api/sourceimpl/packagist.go:98-119 | the repository field wins; otherwise the first version source URL in the second range's own order is used; a repository reference is added exactly when the package or some version has a URL, whichever order that range takes |
| Packagist.NoneNonEmptyInEither | api/sourceimpl/packagist.go:57-109 | the two ranges visit the same versions, so whether some version has a source URL does not depend on the order |
| Packagist.FallbacksMayDisagree | api/sourceimpl/packagist.go:57-109 | with no package description and no repository, the README can come from the first version of one range and the repository URL from a different version of the other |
| Packagist.FetchPackagistErrors | api/sourceimpl/packagist.go:39-73 | a failure is either PackagistREADMENotFound or a wrapped library error, whatever the status code; a parsed document with a description anywhere always succeeds with that description as README |
| Packagist.ReferencesOrder | api/sourceimpl/packagist.go:75-125 | the API references (homepage, repository) come first, followed only by references found in the description that mention the package |
| Packagist.PackageFromURLRoundTrip | api/sourceimpl/packagist.go:149-172 | PackageFromURL undoes GetURL for every non-empty package path |
| JSR.GetURL | api/sourceimpl/jsr.go:33-35 | the browser URL is the jsr.io prefix followed by the package path, unchanged |
| JSR.Fetch | api/sourceimpl/jsr.go:15-31 | fetching never fails and makes no request: the README is the placeholder sentence naming the package's page, with no related references and the browser URL set |
| JSR.PackageFromURL | api/sourceimpl/jsr.go:41-53 | the path after the jsr.io prefix; InvalidJSRPath for the bare prefix; any other URL unchanged; PackageFromURLCases and PackageFromURLRoundTrip carry the contract |
| JSR.PackageFromURLRoundTrip | api/sourceimpl/jsr.go:33-53 | PackageFromURL undoes GetURL for every non-empty package path |
| JSR.PackageFromURLCases | api/sourceimpl/jsr.go:41-53 | the bare prefix is rejected as an invalid JSR path, and a URL without the prefix is returned unchanged |
| Website.Fetch | api/sourceimpl/website.go:16-27 | fetching never fails and fetches nothing: no contents, hence an empty README, no related references, and the path itself as browser URL |
| Website.GetURL | api/sourceimpl/website.go:29-31 | the browser URL is the package path itself |
| Website.PackageFromURL | api/sourceimpl/website.go:37-43 | the URL is rejected exactly when it is empty; otherwise it is itself the package path |
| Investigators.FetchBrowserURL | api/investigator/investigator.go:7-11 | every investigator's successful Fetch carries the browser URL its GetURL gives for the same path, no fetch error and the fetch time, leaving the source for the crawl to fill in |
| Investigators.GetURL | api/investigator/investigator.go:7-14 | the dispatch of GetURL to each investigator; PackageFromURLRoundTrip and LegacyCompat.RegistryURLsAgree carry the contract |
| Investigators.PackageFromURL | api/investigator/investigator.go:7-14 | the dispatch of PackageFromURL; PackageFromURLRoundTrip states that it undoes GetURL on the canonical path |
| Investigators.Fetch | api/investigator/investigator.go:7-14 | the dispatch of Fetch; FetchBrowserURL and PlaceholdersNeverFail carry the contract |
| Investigators.FetchByType | api/sourceresolver/sourceresolver.go:10-35 | the crawl's fetch by source type; FetchByTypeDispatches states that a type with an investigator is fetched by it |
| Investigators.PackageFromURLRoundTrip | api/investigator/investigator.go:10-14 | for every investigator, PackageFromURL of GetURL's browser URL recovers the package path that URL names (the last segment for crates.io, RubyGems and PyPI, the part after the host for GitHub and GitLab, the path itself elsewhere), whenever that path is not empty |
| Investigators.PlaceholdersNeverFail | api/sourceimpl/jsr.go:15-31 | the JSR and website investigators always succeed and report no related references |
| Investigators.FetchByTypeDispatches | api/sourceresolver/sourceresolver.go:9-35 | every type but Unknown has an investigator, and the crawl's fetch of that type is exactly that investigator's Fetch |
| LegacySource.CleanupRepositoryURL | api/source.go:30-78 | the older repository-URL cleanup always yields an "https://" URL |
| LegacySource.DetectSourceTypeFromURL | api/source.go:8-27 | the older URL sniffer; DetectSwitch, DetectAgreesExceptPackagist and DetectRange carry its contract |
| LegacySource.DetectSwitch | api/source.go:8-27 | the host table search answers exactly as the older switch: GitHub, GitLab, RubyGems, npm, JSR, pkg.go.dev, crates.io, tried in that order, else Unknown |
| LegacySource.DetectAgreesExceptPackagist | api/source.go:8-27 | the older detector agrees with the current one on every URL, except that a URL the current one calls Packagist is Unknown to it |
| LegacySource.DetectRange | api/source.go:8-27 | the older detector never answers Packagist, PyPI, Homepage or Documentation, and answers Unknown exactly when none of its seven host names occurs |
| LegacySource.NormalizeSchemeKeepsChar | api/source.go:31-59 | the scheme rewriting adds no character that is absent from the input, "https://" and '/' |
| LegacySource.CleanupAgreesWithoutFragment | api/source.go:30-78 | once the scheme is normal, a URL without '#' is cleaned alike by the older function and by cleanupURL of an untyped URL |
| LegacySource.NoFragmentAgrees | api/source.go:30-78 | every URL without '#' is cleaned alike by the older function and by cleanupURL of an untyped URL |
| LegacySource.FragmentKept | api/source.go:61-77 | a URL that is not GitLab's comes back merely normalised, its fragment kept, where cleanupURL cuts a GitHub URL at '#' |
| LegacySource.CleanupPlain | api/source.go:61-77 | once the scheme is normal, a URL without '#' and '-' comes back unchanged |
| LegacySource.CleanupHttpsGit | api/source.go:30-78 | "https://R.git" becomes "https://R", when R has no '#' and no '-' |
| LegacySource.CleanupGitPlus | api/source.go:30-78 | "git+https://R.git" becomes "https://R", when R has no '#' and no '-' |
| LegacySource.CleanupScp | api/source.go:30-78 | "git@HOST:PATH.git" becomes "https://HOST/PATH", when HOST has no ':' and HOST and PATH have no '#' and no '-' |
| LegacySource.CleanupSsh | api/source.go:30-78 | "ssh://git@R.git" becomes "https://R", when R has no '#' and no '-' |
| LegacySource.CleanupGitProtocol | api/source.go:30-78 | "git://R.git" becomes "https://R", when R has no '#' and no '-' and does not itself start with "git@", "ssh://" or "https://" |
| LegacySource.CleanupGitLabMarker | api/source.go:67-73 | "https://gitlab.com/P/-/Q" becomes "https://gitlab.com/P/Q", when P and Q have no '#' and no '-', the URL does not mention github.com, and Q has at least four characters and does not end in ".git" |
| LegacySource.TableRowGitHubHttps | api/sourceimpl/util_test.go:11-15 | cleanupRepositoryURL, the function the cleanup table calls, meets its GitHub HTTPS row |
| LegacySource.TableRowGitHubGitPlus | api/sourceimpl/util_test.go:16-20 | cleanupRepositoryURL meets the table's GitHub git+https row |
| LegacySource.TableRowGitHubScp | api/sourceimpl/util_test.go:21-25 | cleanupRepositoryURL meets the table's GitHub SSH row |
| LegacySource.TableRowGitHubSsh | api/sourceimpl/util_test.go:26-30 | cleanupRepositoryURL meets the table's GitHub ssh:// row |
| LegacySource.TableRowGitHubGitProtocol | api/sourceimpl/util_test.go:31-35 | cleanupRepositoryURL meets the table's GitHub git:// row |
| LegacySource.TableRowGitLabTree | api/sourceimpl/util_test.go:36-40 | cleanupRepositoryURL meets the table's GitLab "/-/" row |
| LegacySource.TableRowGitLabScp | api/sourceimpl/util_test.go:41-45 | cleanupRepositoryURL meets the table's GitLab SSH row |
| LegacySource.TableRowOtherHttps | api/sourceimpl/util_test.go:46-50 | cleanupRepositoryURL meets the table's other-host HTTPS row |
| LegacySource.TableRowOtherScp | api/sourceimpl/util_test.go:51-55 | cleanupRepositoryURL meets the table's other-host SSH row |
| LegacyDetect.FirstParsed | api/detect.go:280-288 | nothing is found exactly when no source of the wanted type parses; otherwise the URL of the first such source, all earlier ones being unwanted or unparsable |
| LegacyDetect.DetectDocSource | api/detect.go:165-266 | the older detection of a package's source; HintRange, DetectHinted, DetectGo, DetectRepositoryPath, DetectFallback, DetectShape, DetectedURL and DetectGitHubOwnerName carry its contract |
| LegacyDetect.GetURL | api/detect.go:410-459 | the older browser URL; GetURLNames, GetURLDefault and the LegacyCompat lemmas carry its contract |
| LegacyDetect.GetHomepage | api/detect.go:271-291 | the older homepage pick; HomepageChoice carries its contract |
| LegacyDetect.GetDocument | api/detect.go:293-324 | the older document pick; ShortestDocument and DocumentOfSite carry its contract |
| LegacyDetect.GetRepository | api/detect.go:328-352 | the older repository pick; RepositoryChoice carries its contract |
| LegacyDetect.GetRegistry | api/detect.go:356-370 | the older registry pick; RegistryChoice carries its contract |
| LegacyDetect.ExcludedURLs | api/detect.go:377-395 | the seen set before the loop holds exactly the homepage, repository, registry and document URLs that were found |
| LegacyDetect.KeepUnseen | api/detect.go:397-403 | the loop with its seen map keeps the first source of each URL that is not excluded, in order |
| LegacyDetect.OtherLinks | api/detect.go:373-406 | OtherLinks computes the other links: the first of each URL among the (sorted) related sources, none with an excluded URL |
| LegacyDetect.HintRange | api/detect.go:124-173 | a language hint stands for a registry or for pkg.go.dev, never for a repository host, and for nothing exactly when it is not one of the aliases |
| LegacyDetect.DetectHinted | api/detect.go:175-219 | a hint for JSR, npm, crates.io, RubyGems, PyPI or Packagist decides the type and keeps the path |
| LegacyDetect.DetectGo | api/detect.go:221-228 | otherwise the Go hint, or a "pkg.go.dev/" path, gives pkg.go.dev with the path unchanged |
| LegacyDetect.DetectRepositoryPath | api/detect.go:230-260 | without a hint, a github.com/ or gitlab.com/ path goes to pkg.go.dev when its repository name marks a Go module, and to its host, without the host prefix, otherwise |
| LegacyDetect.DetectFallback | api/detect.go:262-265 | any other path is Unknown with the path unchanged |
| LegacyDetect.DetectShape | api/detect.go:165-266 | a detected source never has related sources or a homepage; its type is a hinted registry, pkg.go.dev, GitHub, GitLab or Unknown, and its path is the input, or the input without the host prefix for GitHub and GitLab |
| LegacyDetect.DetectedURL | api/detect.go:165-266 | the browser URL of a detected repository is "https://" followed by the input path, and that of a Go package the pkg.go.dev prefix followed by it |
| LegacyDetect.DetectGitHubOwnerName | api/detect.go:230-254 | without a hint, "github.com/OWNER/NAME" is a Go module exactly when the lower-case name starts with "go-", ends with "-go" or contains ".go", and the GitHub repository "OWNER/NAME" otherwise |
| LegacyDetect.DetectGoSuffixExample | api/detect.go:230-246 | "github.com/acme/foo-go" is detected as a pkg.go.dev package |
| LegacyDetect.DetectGitHubExample | api/detect.go:249-254 | "github.com/acme/foo" is detected as the GitHub repository "acme/foo" |
| LegacyDetect.ReplaceSlashes | api/detect.go:418-421 | the npm package name in the browser URL contains no '/' |
| LegacyDetect.GetURLNames | api/detect.go:418-442 | the npm URL names a package without '/'; the crates.io, RubyGems and PyPI URLs depend only on the last segment of the path |
| LegacyDetect.GetURLDefault | api/detect.go:448-454 | types without a case of their own get a GitHub URL, or a GitLab one, which keeps the "gitlab.com/" prefix, for a path that starts with it |
| LegacyDetect.HomepageChoice | api/detect.go:271-291 | the Homepage field wins when it parses; there is no homepage exactly when neither it nor any homepage-typed related source parses |
| LegacyDetect.RepositoryChoice | api/detect.go:328-352 | a repository's own browser URL is its repository; with no parsing repository source, pkg.go.dev falls back to "https://" + path when that parses, and every other type has none |
| LegacyDetect.RegistryChoice | api/detect.go:356-370 | outside a registry only the first registry-typed related source is looked at: when it does not parse there is no registry, even if a later one would |
| LegacyDetect.ShortestDocument | api/detect.go:293-309 | after the sort by URL length, the document candidate exists exactly when some documentation source parses, and then has the shortest URL of them, whatever the order of ties |
| LegacyDetect.DocumentOfSite | api/detect.go:293-324 | a documentation site always has a document URL, no longer than its own URL or any parsing documentation source, and it is one of those |
| LegacyDetect.OtherLinksDistinct | api/detect.go:397-403 | the other links have pairwise distinct URLs |
| LegacyDetect.OtherLinksFrom | api/detect.go:373-406 | every other link is a related source whose URL is not the homepage, repository, registry or document |
| LegacyDetect.OtherLinksComplete | api/detect.go:373-406 | every related source whose URL is not excluded has its URL among the other links |
| LegacyDetect.OtherLinksByLength | api/detect.go:296-403 | because GetDocument sorts the slice the other links are read from, they come shortest URL first |
| LegacyExtract.RegistryPrefix | api/extract.go:202-221 | every registry's package URL prefix is an "https://" URL with a host |
| LegacyExtract.PackageURL | api/extract.go:202-221 | the package URL of a registry is never empty: its prefix followed by the name, unchanged |
| LegacyExtract.PackageURLInjective | api/extract.go:202-221 | two names give the same package URL of a registry exactly when they are the same name |
| LegacyExtract.PackageURLMentions | api/extract.go:202-221 | the package URL contains the package name |
| LegacyExtract.TableRegistries | api/extract.go:18-66 | every row of the pattern table is for a registry, so generatePackageURL never panics on a row's type |
| LegacyExtract.Legacy | api/extract.go:77-84 | a related source built from a match has the row's type, comes from the document, and its URL contains the matched name |
| LegacyExtract.AsLegacy | api/extract.go:69-116 | references become related sources one for one, in order |
| LegacyExtract.CommandSourcesRegistries | api/extract.go:97-116 | every reference from the command rows has a registry type |
| LegacyExtract.URLSource | api/extract.go:72-87 | a URL contributes at most one related source: the inner loop stops at its first matching row |
| LegacyExtract.ExtractSourcesFromURLs | api/extract.go:69-91 | the loop over the URLs gathers, per URL in order, the package URL of its first matching row |
| LegacyExtract.MatchURL | api/extract.go:73-87 | the inner loop with its break yields the package URL of the first row whose URL pattern matches, or nothing |
| LegacyExtract.RowSources | api/extract.go:102-115 | the loop over one row's matches builds one related source per match, in order |
| LegacyExtract.ExtractSourcesFromCommands | api/extract.go:94-119 | the loop over the rows gathers, row by row, the related sources of every installation-command match |
| LegacyExtract.FilterAndDeduplicate | api/extract.go:122-138 | the loop with its seen map computes the filtered list: the first source of each URL among those whose URL contains the package |
| LegacyExtract.FilteredSpec | api/extract.go:122-138 | the kept sources have pairwise distinct URLs, all come from the input and mention the package, and every input URL that mentions the package is kept |
| LegacyExtract.ExtractRelatedSources | api/extract.go:143-150 | the URL sources, then the command sources, filtered and deduplicated |
| LegacyExtract.UnfilteredIsLegacy | api/extract.go:143-146 | before filtering, the older extraction yields the newer extraction's references one for one and in the same order, each given its package URL |
| LegacyExtract.RelatedSourcesFromDocument | api/extract.go:140-150 | every related source returned comes from the document, has a registry type and a URL containing the package, and no two share a URL |
| LegacyExtract.LegacyKeepsNewer | api/extract.go:122-150 | the package URL of every reference the newer extraction keeps is among the URLs the older one keeps |
| LegacyExtract.NPMPageAndInstall | api/extract.go:143-150 | a README that links to a package's npm page and shows "npm install" of it yields exactly one related source, its npm package URL |
| LegacyCompat.RegistryURLsAgree | api/detect.go:410-445 | for pkg.go.dev, JSR, crates.io, RubyGems, PyPI and Packagist the older browser URL is the investigator's, whatever the path |
| LegacyCompat.NPMURLsAgree | api/detect.go:418-421 | the older and the newer npm browser URLs agree exactly when the path has no '/': the older code flattens a scoped name |
| LegacyCompat.RepositoryURLsAgree | api/detect.go:446-454 | for a GitHub or GitLab repository path that does not name a host itself, the older browser URL is the investigator's |
| LegacyCompat.ExtractedURLIsBrowserURL | api/extract.go:202-221 | the package URL the older extraction builds for a plain name is the browser URL of the older DocSource of that package |

## Left out

- HTTP requests, the `gh` and `glab` commands, JSON and gob decoding, and file operations are not modelled. Their decoded outcomes are parameters (the "world" records, `Disk`), because they are I/O and foreign calls.
- `time.Now` is not modelled. A crawl reads the clock once, as the parameter `now`, so the model cannot tell two reads apart.
- Regular-expression matching is not modelled. The pattern tables of api/sourceimpl/extract.go and api/extract.go and the patterns of `extractURLs` are the abstract `Matchers`, because full regex semantics belong to the library.
- The HTML-to-markdown conversion and page fetch (`fetchHTML`, `FetchHTML`, `markdown` in api/sourceimpl/util.go) are not modelled: the converted text is a world parameter.
- The `html.Parse` tree walk of `findMeta` is not modelled: the `go-import` and `go-source` meta contents are world parameters.
- Base64 decoding in GitHub's `GetContent` is not modelled. The decoded text is a world parameter, and only the encoding check is modelled.
- Go map iteration order is not modelled. Entries in `Results`, project URLs in `PyPI` and versions in `Packagist` are visited in an explicit order given as a parameter, and the properties about results hold for every order. fetchPackagist ranges over its versions twice, and each range has its own order (`versions` and `sourceOrder`, the same entries), so the README and the repository may come from different versions (`Packagist.FallbacksMayDisagree`).
- `sort.Slice` is not modelled. `LegacyDetect.GetDocument` receives the sorted related sources as the parameter `sorted`, constrained to be a permutation ordered by URL length, and the order among equal lengths is left open.
- LegacyDetect.OtherLinks: iterates the sorted order. `GetDocument` sorts, in place, the slice that `OtherLinks` then reads through the same backing array; the aliasing itself is not modelled, only its effect.
- `url.Parse` is not modelled. It is a `parses` predicate in the older pickers, and a parsed URL is taken to print back as its text. For the investigators' browser URLs, parsing is taken to succeed (`BrowserURL` is `Some(GetURL(path))`).
- PkgGoDev.FetchSource: sends every source URL that does not mention "github.com" to the GitLab fetcher, where Go panics unless it mentions "gitlab.com" (api/sourceimpl/pkggodev.go:49-50). The panic is not modelled; `PkgGoDev.SourceURLNamesHost` shows the branch is unreachable when URL parsing keeps the host (`ParseKeepsHost`), which the model assumes of the parsing parameter rather than proves.
- LegacyDetect.GetURL: `lo.Must` is taken to succeed, so the panic on an unparsable URL is not modelled.
- LegacyExtract.PackageURL: requires a registry type, because Go panics on any other type. The `url != ""` test of `extractSourcesFromCommands` is modelled (`LegacyExtract.RowSources`) and can never fail, since `PackageURL` is never empty.
- Cache.EntryPath: joins the directory and the file name with "/" and does not model the path cleaning of `filepath.Join`.
- The package-level `init`/`prepareCacheDir` and both `Clear` functions of api/cache/cache.go are not modelled, because they are environment lookups and directory removal. `DefaultDir` is a parameter.
- The goroutine that runs `cleanupOldCache` is not modelled. Only its name filter and removal loop are (`Cache.CleanupOldCache`), over a given directory listing.
- Integer widths are not modelled. Download counts and durations are unbounded `int`, because no arithmetic on them can overflow in the pipeline.
- Only ASCII letters are case-folded by `Strs.ToLower`: Unicode case folding is not modelled.
- The CLI (cli/, cmd/miru/main.go) and the MCP adapter (mcp/) are not modelled, because they are argument parsing, rendering and protocol glue.
- api/doc.go is not modelled. It calls a package-level `cache.GetOrSet` that api/cache/cache.go does not define, so it is not a coherent target.
- api/initialquery.go is not modelled: its `detectInitialQuery` is not part of this model. The crawl starts from a given `Query`.
- The older fetchers of package `api` (api/crates.go, api/github.go, api/gitlab.go, api/npm.go, api/packagist.go, api/pypi.go, api/rubygems.go) are not modelled, because they are network plumbing that the sourceimpl investigators replace.
- Logging (log/log.go) and build metadata (api/version.go) are not modelled.
