/** The older related-source extraction of package api (api/extract.go).
    It shares the pattern table and the URL harvesting of the newer
    extraction (module Extract), but turns every captured name into a
    package URL on the spot, and filters and deduplicates on that URL. */
module LegacyExtract {
  import opened Wrappers
  import opened Strs
  import opened SourceType
  import opened SourceData
  import opened Dedup
  import opened Extract
  import opened LegacyDetect

  // ---------------------------------------------------------------------
  // generatePackageURL

  /** The URL prefix of each registry. */
  function RegistryPrefix(t: Type): (p: string)
    requires t.IsRegistry()
    ensures HasPrefix(p, "https://") && |p| > |"https://"|
  {
    match t
    case NPM => "https://www.npmjs.com/package/"
    case GoPkgDev => "https://pkg.go.dev/"
    case CratesIO => "https://crates.io/crates/"
    case RubyGems => "https://rubygems.org/gems/"
    case JSR => "https://jsr.io/"
    case PyPI => "https://pypi.org/project/"
    case Packagist => "https://packagist.org/packages/"
  }

  /** generatePackageURL. Go panics for a type that is not a registry; the
      precondition says no caller passes one. The URL is never empty, so
      the emptiness check of extractSourcesFromCommands never drops a
      match. */
  function PackageURL(t: Type, name: string): (u: string)
    requires t.IsRegistry()
    ensures u != "" && HasPrefix(u, RegistryPrefix(t)) && u[|RegistryPrefix(t)|..] == name
  {
    RegistryPrefix(t) + name
  }

  /** A package URL names its package: the URL determines the name. */
  lemma PackageURLInjective(t: Type, a: string, b: string)
    requires t.IsRegistry()
    ensures PackageURL(t, a) == PackageURL(t, b) <==> a == b
  {
    if PackageURL(t, a) == PackageURL(t, b) {
      assert a == PackageURL(t, a)[|RegistryPrefix(t)|..];
    }
  }

  /** The package URL mentions the name. */
  lemma PackageURLMentions(t: Type, name: string)
    requires t.IsRegistry()
    ensures Contains(PackageURL(t, name), name)
  {
    ContainsAt(PackageURL(t, name), name, |RegistryPrefix(t)|);
  }

  /** What a string contains, it still contains behind a prefix. */
  lemma ContainsAfter(p: string, s: string, sub: string)
    requires Contains(s, sub)
    ensures Contains(p + s, sub)
  {
    var k :| 0 <= k <= |s| - |sub| && OccursAt(s, sub, k);
    assert (p + s)[|p| + k..|p| + k + |sub|] == s[k..k + |sub|];
    ContainsAt(p + s, sub, |p| + k);
  }

  // ---------------------------------------------------------------------
  // From the references of the table to the older related sources

  predicate AllRegistries(refs: seq<RelatedReference>) {
    forall i :: 0 <= i < |refs| ==> refs[i].typ.IsRegistry()
  }

  /** Every row of the table is a registry. */
  lemma TableRegistries(k: nat)
    requires k < |SourcePatterns|
    ensures SourcePatterns[k].typ.IsRegistry()
  {
  }

  /** The related source the older code builds where the newer code
      records a reference: the type, the package URL, "document". */
  function Legacy(ref: RelatedReference): (s: RelatedSource)
    requires ref.typ.IsRegistry()
    ensures s.kind == ref.typ && s.from == "document" && Contains(s.url, ref.path)
  {
    PackageURLMentions(ref.typ, ref.path);
    RelatedSource(ref.typ, PackageURL(ref.typ, ref.path), "document")
  }

  function AsLegacy(refs: seq<RelatedReference>): (r: seq<RelatedSource>)
    requires AllRegistries(refs)
    ensures |r| == |refs| && forall i :: 0 <= i < |r| ==> r[i] == Legacy(refs[i])
  {
    seq(|refs|, i requires 0 <= i < |refs| => Legacy(refs[i]))
  }

  /** The references of the command rows all come from the table. */
  lemma {:induction false} CommandSourcesRegistries(m: Matchers, content: string, n: nat)
    requires n <= |SourcePatterns|
    ensures AllRegistries(CommandSources(m, content, n))
  {
    if n > 0 {
      CommandSourcesRegistries(m, content, n - 1);
      TableRegistries(n - 1);
    }
  }

  // ---------------------------------------------------------------------
  // extractSourcesFromURLs

  /** The related sources of a list of URLs: the package URL of the first
      row that matches each URL. */
  function LegacySourcesFromURLs(m: Matchers, urls: seq<string>): seq<RelatedSource> {
    AsLegacy(SourcesFromURLs(m, urls))
  }

  /** What one URL adds: the package URL of its reference, if any. */
  function URLSource(m: Matchers, url: string): (r: seq<RelatedSource>)
    ensures |r| <= 1
  {
    match FirstURLMatch(m, url, 0)
    case None => []
    case Some(ref) => [Legacy(ref)]
  }

  lemma LegacySourcesSnoc(m: Matchers, urls: seq<string>, url: string)
    ensures LegacySourcesFromURLs(m, urls + [url]) == LegacySourcesFromURLs(m, urls) + URLSource(m, url)
  {
    assert (urls + [url])[..|urls|] == urls;
  }

  lemma LegacySourcesPrefix(m: Matchers, urls: seq<string>, i: nat)
    requires i < |urls|
    ensures LegacySourcesFromURLs(m, urls[..i + 1]) == LegacySourcesFromURLs(m, urls[..i]) + URLSource(m, urls[i])
  {
    assert urls[..i + 1] == urls[..i] + [urls[i]];
    LegacySourcesSnoc(m, urls[..i], urls[i]);
  }

  /** extractSourcesFromURLs. */
  method ExtractSourcesFromURLs(m: Matchers, urls: seq<string>) returns (sources: seq<RelatedSource>)
    ensures sources == LegacySourcesFromURLs(m, urls)
  {
    sources := [];
    for i := 0 to |urls|
      invariant sources == LegacySourcesFromURLs(m, urls[..i])
    {
      var url := urls[i];
      LegacySourcesPrefix(m, urls, i);
      var found := MatchURL(m, url);
      sources := sources + found;
    }
    assert urls[..|urls|] == urls;
  }

  /** The inner loop of extractSourcesFromURLs: the rows are tried in
      order, and the first whose URL pattern matches gives the package URL
      of its capture. */
  method MatchURL(m: Matchers, url: string) returns (found: seq<RelatedSource>)
    ensures found == URLSource(m, url)
  {
    found := [];
    var k := 0;
    while k < |SourcePatterns|
      invariant 0 <= k <= |SourcePatterns|
      invariant FirstURLMatch(m, url, 0) == FirstURLMatch(m, url, k)
    {
      var pattern := SourcePatterns[k];
      if pattern.hasURLPattern {
        var matches := m.urlSubmatch(k, url);
        if matches.Some? {
          TableRegistries(k);
          found := [RelatedSource(pattern.typ, PackageURL(pattern.typ, matches.value), "document")];
          return;
        }
      }
      k := k + 1;
    }
  }

  // ---------------------------------------------------------------------
  // extractSourcesFromCommands

  /** The related sources of the first `n` command rows, row by row. */
  function LegacyCommandSources(m: Matchers, content: string, n: nat): seq<RelatedSource>
    requires n <= |SourcePatterns|
  {
    CommandSourcesRegistries(m, content, n);
    AsLegacy(CommandSources(m, content, n))
  }

  /** The related sources of row k. */
  function LegacyRowSources(m: Matchers, content: string, k: nat): seq<RelatedSource>
    requires k < |SourcePatterns|
  {
    TableRegistries(k);
    AsLegacy(RowCommandSources(m, content, k))
  }

  lemma LegacyCommandSourcesStep(m: Matchers, content: string, k: nat)
    requires k < |SourcePatterns|
    ensures LegacyCommandSources(m, content, k + 1) ==
            LegacyCommandSources(m, content, k) + LegacyRowSources(m, content, k)
  {
    CommandSourcesRegistries(m, content, k + 1);
    CommandSourcesRegistries(m, content, k);
    TableRegistries(k);
  }

  /** The matches of one command row, each turned into a related source. */
  method RowSources(m: Matchers, content: string, k: nat) returns (sources: seq<RelatedSource>)
    requires k < |SourcePatterns| && SourcePatterns[k].hasCommandPattern
    ensures sources == LegacyRowSources(m, content, k)
  {
    var pattern := SourcePatterns[k];
    TableRegistries(k);
    var matches := m.commandSubmatches(k, content);
    sources := [];
    for i := 0 to |matches|
      invariant |sources| == i
      invariant forall j :: 0 <= j < i ==> sources[j] == RelatedSource(pattern.typ, PackageURL(pattern.typ, matches[j]), "document")
    {
      var url := PackageURL(pattern.typ, matches[i]);
      if url != "" {
        sources := sources + [RelatedSource(pattern.typ, url, "document")];
      }
    }
  }

  /** extractSourcesFromCommands. */
  method ExtractSourcesFromCommands(m: Matchers, content: string) returns (sources: seq<RelatedSource>)
    ensures sources == LegacyCommandSources(m, content, |SourcePatterns|)
  {
    sources := [];
    for k := 0 to |SourcePatterns|
      invariant sources == LegacyCommandSources(m, content, k)
    {
      LegacyCommandSourcesStep(m, content, k);
      if SourcePatterns[k].hasCommandPattern {
        var row := RowSources(m, content, k);
        sources := sources + row;
      } else {
        assert LegacyRowSources(m, content, k) == [];
      }
    }
  }

  // ---------------------------------------------------------------------
  // filterAndDeduplicate

  /** The related sources kept by filterAndDeduplicate: the first of each
      URL, among those whose URL contains the current package. */
  function Filtered(sources: seq<RelatedSource>, currentPackage: string): seq<RelatedSource> {
    KeepFirst(sources, SourceURL, MentionsPackage(currentPackage))
  }

  /** filterAndDeduplicate. */
  method FilterAndDeduplicate(sources: seq<RelatedSource>, currentPackage: string)
    returns (filtered: seq<RelatedSource>)
    ensures filtered == Filtered(sources, currentPackage)
  {
    filtered := [];
    var seen: set<string> := {};
    for i := 0 to |sources|
      invariant filtered == Filtered(sources[..i], currentPackage)
      invariant seen == SeenKeys(filtered, SourceURL)
    {
      var source := sources[i];
      assert sources[..i + 1] == sources[..i] + [source];
      KeepFirstSnoc(sources[..i], source, SourceURL, MentionsPackage(currentPackage));
      if source.url in seen {
        continue;
      }
      if Contains(source.url, currentPackage) {
        SeenKeysSnoc(filtered, source, SourceURL);
        filtered := filtered + [source];
        seen := seen + {source.url};
      }
    }
    assert sources[..|sources|] == sources;
  }

  /** filterAndDeduplicate keeps related sources whose URL contains the
      current package, no two with the same URL, each of them from its
      input; and every URL of its input that contains the package is
      kept. */
  lemma FilteredSpec(sources: seq<RelatedSource>, currentPackage: string)
    ensures var r := Filtered(sources, currentPackage);
            (forall k1, k2 :: 0 <= k1 < k2 < |r| ==> r[k1].url != r[k2].url) &&
            (forall x :: x in r ==> x in sources && Contains(x.url, currentPackage)) &&
            (forall x :: x in sources && Contains(x.url, currentPackage) ==> x.url in SeenKeys(r, SourceURL))
  {
    KeepFirstDistinct(sources, SourceURL, MentionsPackage(currentPackage));
    KeepFirstFrom(sources, SourceURL, MentionsPackage(currentPackage));
    forall x | x in sources && Contains(x.url, currentPackage)
      ensures x.url in SeenKeys(Filtered(sources, currentPackage), SourceURL)
    {
      var j :| 0 <= j < |sources| && sources[j] == x;
      SeenKeysExactly(sources, SourceURL, MentionsPackage(currentPackage), x.url);
      assert SourceURL(sources[j]) == x.url;
    }
  }

  // ---------------------------------------------------------------------
  // ExtractRelatedSources

  /** The unfiltered related sources of a README: those of its URLs, then
      those of its installation commands. */
  function Unfiltered(m: Matchers, content: string): seq<RelatedSource> {
    LegacySourcesFromURLs(m, ExtractedURLs(m, content)) + LegacyCommandSources(m, content, |SourcePatterns|)
  }

  function RelatedSourcesOf(m: Matchers, content: string, currentPackage: string): seq<RelatedSource> {
    Filtered(Unfiltered(m, content), currentPackage)
  }

  /** ExtractRelatedSources. The URL harvesting of api/extract.go is the
      same code as that of the newer extraction and is modelled once, by
      Extract.ExtractURLs. */
  method ExtractRelatedSources(m: Matchers, content: string, currentPackage: string)
    returns (sources: seq<RelatedSource>)
    ensures sources == RelatedSourcesOf(m, content, currentPackage)
  {
    var urls := ExtractURLs(m, content);
    sources := ExtractSourcesFromURLs(m, urls);
    var commands := ExtractSourcesFromCommands(m, content);
    sources := sources + commands;
    sources := FilterAndDeduplicate(sources, currentPackage);
  }

  // ---------------------------------------------------------------------
  // Properties

  /** The unfiltered related sources are the newer extraction's
      references, one for one and in the same order, each given its package
      URL. */
  lemma UnfilteredIsLegacy(m: Matchers, content: string)
    ensures var refs := SourcesFromURLs(m, ExtractedURLs(m, content)) + CommandSources(m, content, |SourcePatterns|);
            AllRegistries(refs) && Unfiltered(m, content) == AsLegacy(refs)
  {
    var a := SourcesFromURLs(m, ExtractedURLs(m, content));
    var b := CommandSources(m, content, |SourcePatterns|);
    CommandSourcesRegistries(m, content, |SourcePatterns|);
    AsLegacyAppend(a, b);
  }

  lemma AsLegacyAppend(a: seq<RelatedReference>, b: seq<RelatedReference>)
    requires AllRegistries(a) && AllRegistries(b)
    ensures AllRegistries(a + b) && AsLegacy(a + b) == AsLegacy(a) + AsLegacy(b)
  {
    assert forall i :: 0 <= i < |a + b| ==> (a + b)[i] == if i < |a| then a[i] else b[i - |a|];
  }

  /** Every related source the older extraction returns comes from the
      document, has a URL that contains the package, and no two share a
      URL. */
  lemma RelatedSourcesFromDocument(m: Matchers, content: string, currentPackage: string)
    ensures var r := RelatedSourcesOf(m, content, currentPackage);
            (forall x :: x in r ==> x.from == "document" && x.kind.IsRegistry() && Contains(x.url, currentPackage)) &&
            (forall k1, k2 :: 0 <= k1 < k2 < |r| ==> r[k1].url != r[k2].url)
  {
    var s := Unfiltered(m, content);
    UnfilteredIsLegacy(m, content);
    FilteredSpec(s, currentPackage);
    forall x | x in RelatedSourcesOf(m, content, currentPackage)
      ensures x.from == "document" && x.kind.IsRegistry()
    {
      var i :| 0 <= i < |s| && s[i] == x;
    }
  }

  /** The older extraction finds at least what the newer one does: the
      package URL of every reference the newer filter keeps is among the
      URLs the older one keeps. (The converse fails: the older filter
      looks at the whole URL, and keeps one source per URL rather than one
      per path.) */
  lemma LegacyKeepsNewer(m: Matchers, content: string, currentPackage: string)
    ensures forall x :: x in Extract.RelatedSourcesOf(m, content, currentPackage) ==>
              x.typ.IsRegistry() &&
              Legacy(x).url in SeenKeys(RelatedSourcesOf(m, content, currentPackage), SourceURL)
  {
    var refs := SourcesFromURLs(m, ExtractedURLs(m, content)) + CommandSources(m, content, |SourcePatterns|);
    UnfilteredIsLegacy(m, content);
    var s := Unfiltered(m, content);
    KeepFirstFrom(refs, RelatedKey, MentionsPackage(currentPackage));
    forall x | x in Extract.RelatedSourcesOf(m, content, currentPackage)
      ensures x.typ.IsRegistry() && Legacy(x).url in SeenKeys(RelatedSourcesOf(m, content, currentPackage), SourceURL)
    {
      var j :| 0 <= j < |refs| && refs[j] == x;
      assert s[j] == Legacy(x);
      assert RelatedKey(x) == x.path;
      PackageURLMentions(x.typ, x.path);
      ContainsAfter(RegistryPrefix(x.typ), x.path, currentPackage);
      FilteredSpec(s, currentPackage);
    }
  }

  /** The package's own sample (a README linking to the npm page of
      "express" and running "npm install express"): both yield the same
      package URL, and only the first survives deduplication. */
  lemma NPMPageAndInstall(m: Matchers, content: string, url: string, name: string)
    requires ExtractedURLs(m, content) == [url]
    requires m.urlSubmatch(0, url).None? && m.urlSubmatch(2, url) == Some(name)
    requires forall k :: 0 <= k < |SourcePatterns| ==>
               m.commandSubmatches(k, content) == if k == 2 then [name] else []
    ensures RelatedSourcesOf(m, content, name) ==
              [RelatedSource(NPM, "https://www.npmjs.com/package/" + name, "document")]
  {
    var src := RelatedSource(NPM, "https://www.npmjs.com/package/" + name, "document");
    SampleUnfiltered(m, content, url, name);
    NPMLegacy(name);
    PackageURLMentions(NPM, name);
    FilteredTwice(src, name);
  }

  lemma SampleUnfiltered(m: Matchers, content: string, url: string, name: string)
    requires ExtractedURLs(m, content) == [url]
    requires m.urlSubmatch(0, url).None? && m.urlSubmatch(2, url) == Some(name)
    requires forall k :: 0 <= k < |SourcePatterns| ==>
               m.commandSubmatches(k, content) == if k == 2 then [name] else []
    ensures var src := Legacy(DocumentReference(NPM, name));
            Unfiltered(m, content) == [src, src]
  {
    var ref := DocumentReference(NPM, name);
    NPMPageURL(m, url, name);
    OneURLSource(m, url, ref);
    InstallRows(m, content, name);
    OneLegacy(ref);
    UnfilteredOf(m, content, [ref], [ref]);
  }

  /** Unfiltered, given the references of the URLs and of the commands. */
  lemma UnfilteredOf(m: Matchers, content: string, a: seq<RelatedReference>, b: seq<RelatedReference>)
    requires SourcesFromURLs(m, ExtractedURLs(m, content)) == a
    requires CommandSources(m, content, |SourcePatterns|) == b
    ensures AllRegistries(a) && AllRegistries(b) && Unfiltered(m, content) == AsLegacy(a) + AsLegacy(b)
  {
    CommandSourcesRegistries(m, content, |SourcePatterns|);
  }

  lemma NPMLegacy(name: string)
    ensures Legacy(DocumentReference(NPM, name)) ==
              RelatedSource(NPM, "https://www.npmjs.com/package/" + name, "document")
  { }

  lemma OneLegacy(ref: RelatedReference)
    requires ref.typ.IsRegistry()
    ensures AllRegistries([ref]) && AsLegacy([ref]) == [Legacy(ref)]
  { }

  /** A related source met twice is kept once. */
  lemma FilteredTwice(src: RelatedSource, currentPackage: string)
    requires Contains(src.url, currentPackage)
    ensures Filtered([src, src], currentPackage) == [src]
  {
    KeepFirstSnoc([], src, SourceURL, MentionsPackage(currentPackage));
    assert [] + [src] == [src];
    KeepFirstSnoc([src], src, SourceURL, MentionsPackage(currentPackage));
    assert [src] + [src] == [src, src];
    SeenKeysSnoc([], src, SourceURL);
  }
}
