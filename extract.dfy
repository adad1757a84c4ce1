/** Related-source extraction from README text (api/sourceimpl/extract.go).
    URLs are harvested line by line, each URL is matched against the
    pattern table, installation commands are matched pattern by pattern,
    and the result is filtered to the current package with first-wins
    deduplication. The regular expressions are abstract: `Matchers` says
    what each of them captures. */
module Extract {
  import opened Wrappers
  import opened Strs
  import opened SourceType
  import opened SourceData
  import opened Dedup

  /** One row of the pattern table: the source type, and whether the row
      has a URL pattern and a command pattern. */
  datatype SourcePattern = SourcePattern(typ: Type, hasURLPattern: bool, hasCommandPattern: bool)

  /** The table, in its order; the second JSR row (`deno add jsr:`) has no
      URL pattern. */
  const SourcePatterns: seq<SourcePattern> := [
    SourcePattern(JSR, true, true),
    SourcePattern(JSR, false, true),
    SourcePattern(NPM, true, true),
    SourcePattern(GoPkgDev, true, true),
    SourcePattern(CratesIO, true, true),
    SourcePattern(RubyGems, true, true),
    SourcePattern(PyPI, true, true),
    SourcePattern(Packagist, true, true)
  ]

  /** What the regular expressions capture:
      - `urlSubmatch(k, u)`: the first group of row k's URL pattern in `u`,
        `None` when it does not match;
      - `commandSubmatches(k, c)`: the first group of every match of row k's
        command pattern in `c`, in order;
      - `markdownLinkTargets(line)`: the target of every `[text](target)`
        in a line;
      - `rawURLs(line)`: every `https?://` token of a line. */
  datatype Matchers = Matchers(
    urlSubmatch: (nat, string) -> Option<string>,
    commandSubmatches: (nat, string) -> seq<string>,
    markdownLinkTargets: string -> seq<string>,
    rawURLs: string -> seq<string>)

  /** A reference found in a document: only the type and the captured name
      are set. */
  function DocumentReference(t: Type, name: string): (r: RelatedReference)
    ensures r.typ == t && r.path == name && r.url == "" && r.from == "document"
  {
    RelatedReference(t, name, "", "document")
  }

  // ---------------------------------------------------------------------
  // extractURLs

  /** Every URL cut at its first '#'. */
  function StripFragments(found: seq<string>): (r: seq<string>)
    ensures |r| == |found|
    ensures forall i :: 0 <= i < |r| ==> r[i] == CutAt(found[i], '#') && '#' !in r[i]
  {
    seq(|found|, i requires 0 <= i < |found| => CutAt(found[i], '#'))
  }

  /** The URLs a line offers: the markdown link targets when the line
      contains "](", its raw URLs otherwise. */
  function LineMatches(m: Matchers, line: string): seq<string> {
    if Contains(line, "](") then m.markdownLinkTargets(line) else m.rawURLs(line)
  }

  /** The candidates of all lines, in order, without fragments. */
  function Candidates(m: Matchers, lines: seq<string>): (r: seq<string>)
    ensures forall i :: 0 <= i < |r| ==> '#' !in r[i]
    decreases |lines|
  {
    if |lines| == 0 then []
    else Candidates(m, lines[..|lines| - 1]) + StripFragments(LineMatches(m, lines[|lines| - 1]))
  }

  function Identity(u: string): string {
    u
  }

  function Always(k: string): bool {
    true
  }

  /** The URLs of a README: every candidate, first occurrence only. */
  function ExtractedURLs(m: Matchers, content: string): seq<string> {
    KeepFirst(Candidates(m, Split(content, '\n')), Identity, Always)
  }

  /** The inner loop of extractURLs: the matches of one line, each cut at
      '#', appended unless already seen. */
  method AddLineURLs(ghost prefix: seq<string>, urls: seq<string>, seen: set<string>, found: seq<string>)
    returns (urls': seq<string>, seen': set<string>)
    requires urls == KeepFirst(prefix, Identity, Always) && seen == SeenKeys(urls, Identity)
    ensures urls' == KeepFirst(prefix + StripFragments(found), Identity, Always)
    ensures seen' == SeenKeys(urls', Identity)
  {
    urls', seen' := urls, seen;
    assert prefix + StripFragments(found)[..0] == prefix;
    for j := 0 to |found|
      invariant urls' == KeepFirst(prefix + StripFragments(found)[..j], Identity, Always)
      invariant seen' == SeenKeys(urls', Identity)
    {
      var u := CutAt(found[j], '#');
      PrefixSnoc(prefix, StripFragments(found), j);
      KeepFirstSnoc(prefix + StripFragments(found)[..j], u, Identity, Always);
      if u in seen' {
        continue;
      }
      SeenKeysSnoc(urls', u, Identity);
      urls' := urls' + [u];
      seen' := seen' + {u};
    }
    assert StripFragments(found)[..|found|] == StripFragments(found);
  }

  /** The candidates of one more line. */
  lemma CandidatesSnoc(m: Matchers, lines: seq<string>, i: nat)
    requires i < |lines|
    ensures Candidates(m, lines[..i + 1]) == Candidates(m, lines[..i]) + StripFragments(LineMatches(m, lines[i]))
  {
    assert lines[..i + 1][..i] == lines[..i];
  }

  /** Extending a slice after a fixed prefix by one element. */
  lemma PrefixSnoc<T>(prefix: seq<T>, s: seq<T>, j: nat)
    requires j < |s|
    ensures prefix + s[..j + 1] == (prefix + s[..j]) + [s[j]]
  {
    assert s[..j + 1] == s[..j] + [s[j]];
  }

  /** extractURLs. */
  method ExtractURLs(m: Matchers, content: string) returns (urls: seq<string>)
    ensures urls == ExtractedURLs(m, content)
  {
    var lines := Split(content, '\n');
    urls := [];
    var seen: set<string> := {};
    for i := 0 to |lines|
      invariant urls == KeepFirst(Candidates(m, lines[..i]), Identity, Always)
      invariant seen == SeenKeys(urls, Identity)
    {
      var line := lines[i];
      var found := if Contains(line, "](") then m.markdownLinkTargets(line) else m.rawURLs(line);
      CandidatesSnoc(m, lines, i);
      urls, seen := AddLineURLs(Candidates(m, lines[..i]), urls, seen, found);
    }
    assert lines[..|lines|] == lines;
  }

  /** The extracted URLs are pairwise distinct, free of '#', and exactly
      the candidates of the README's lines. */
  lemma ExtractedURLsSpec(m: Matchers, content: string)
    ensures forall k1, k2 :: 0 <= k1 < k2 < |ExtractedURLs(m, content)| ==>
              ExtractedURLs(m, content)[k1] != ExtractedURLs(m, content)[k2]
    ensures forall u :: u in ExtractedURLs(m, content) ==> '#' !in u
    ensures forall u :: u in ExtractedURLs(m, content) <==> u in Candidates(m, Split(content, '\n'))
  {
    var c := Candidates(m, Split(content, '\n'));
    KeepFirstDistinct(c, Identity, Always);
    KeepFirstFrom(c, Identity, Always);
    forall u | u in c
      ensures u in ExtractedURLs(m, content)
    {
      SeenKeysExactly(c, Identity, Always, u);
      var r := ExtractedURLs(m, content);
      var i :| 0 <= i < |r| && Identity(r[i]) == u;
      assert r[i] in r;
    }
  }

  // ---------------------------------------------------------------------
  // extractSourcesFromURLs

  /** Whether row k's URL pattern matches `url`. */
  predicate URLRowMatches(m: Matchers, url: string, k: nat)
    requires k < |SourcePatterns|
  {
    SourcePatterns[k].hasURLPattern && m.urlSubmatch(k, url).Some?
  }

  /** The reference a URL yields, from the first row at or after `k` whose
      URL pattern matches. */
  function FirstURLMatch(m: Matchers, url: string, k: nat): (r: Option<RelatedReference>)
    requires k <= |SourcePatterns|
    ensures r.None? <==> forall j :: k <= j < |SourcePatterns| ==> !URLRowMatches(m, url, j)
    ensures r.Some? ==>
              exists j :: k <= j < |SourcePatterns| && URLRowMatches(m, url, j) &&
                          (forall j' :: k <= j' < j ==> !URLRowMatches(m, url, j')) &&
                          r.value == DocumentReference(SourcePatterns[j].typ, m.urlSubmatch(j, url).value)
    ensures r.Some? ==> r.value.typ.IsRegistry()
    decreases |SourcePatterns| - k
  {
    if k == |SourcePatterns| then None
    else if URLRowMatches(m, url, k) then Some(DocumentReference(SourcePatterns[k].typ, m.urlSubmatch(k, url).value))
    else FirstURLMatch(m, url, k + 1)
  }

  /** The references of a list of URLs: at most one per URL, in order. */
  function SourcesFromURLs(m: Matchers, urls: seq<string>): (r: seq<RelatedReference>)
    ensures |r| <= |urls|
    ensures forall i :: 0 <= i < |r| ==> r[i].url == "" && r[i].from == "document" && r[i].typ.IsRegistry()
    decreases |urls|
  {
    if |urls| == 0 then []
    else
      var prev := SourcesFromURLs(m, urls[..|urls| - 1]);
      match FirstURLMatch(m, urls[|urls| - 1], 0)
      case None => prev
      case Some(ref) => prev + [ref]
  }

  /** extractSourcesFromURLs. */
  method ExtractSourcesFromURLs(m: Matchers, urls: seq<string>) returns (sources: seq<RelatedReference>)
    ensures sources == SourcesFromURLs(m, urls)
  {
    sources := [];
    for i := 0 to |urls|
      invariant sources == SourcesFromURLs(m, urls[..i])
    {
      assert urls[..i + 1][..i] == urls[..i];
      var url := urls[i];
      var k := 0;
      while k < |SourcePatterns|
        invariant 0 <= k <= |SourcePatterns|
        invariant FirstURLMatch(m, url, 0) == FirstURLMatch(m, url, k)
      {
        var pattern := SourcePatterns[k];
        if pattern.hasURLPattern {
          var matches := m.urlSubmatch(k, url);
          if matches.Some? {
            sources := sources + [DocumentReference(pattern.typ, matches.value)];
            break;
          }
        }
        k := k + 1;
      }
    }
    assert urls[..|urls|] == urls;
  }

  // ---------------------------------------------------------------------
  // extractSourcesFromCommands

  /** The references of row k's command pattern: one per match, in order. */
  function RowCommandSources(m: Matchers, content: string, k: nat): (r: seq<RelatedReference>)
    requires k < |SourcePatterns|
    ensures forall i :: 0 <= i < |r| ==> r[i].typ == SourcePatterns[k].typ && r[i].url == "" && r[i].from == "document"
    ensures SourcePatterns[k].hasCommandPattern ==> |r| == |m.commandSubmatches(k, content)|
  {
    if !SourcePatterns[k].hasCommandPattern then []
    else
      var names := m.commandSubmatches(k, content);
      seq(|names|, i requires 0 <= i < |names| => DocumentReference(SourcePatterns[k].typ, names[i]))
  }

  /** The references of the first `n` rows, row by row. */
  function CommandSources(m: Matchers, content: string, n: nat): (r: seq<RelatedReference>)
    requires n <= |SourcePatterns|
    ensures forall i :: 0 <= i < |r| ==> r[i].url == "" && r[i].from == "document"
  {
    if n == 0 then [] else CommandSources(m, content, n - 1) + RowCommandSources(m, content, n - 1)
  }

  /** extractSourcesFromCommands. */
  method ExtractSourcesFromCommands(m: Matchers, content: string) returns (sources: seq<RelatedReference>)
    ensures sources == CommandSources(m, content, |SourcePatterns|)
  {
    sources := [];
    for k := 0 to |SourcePatterns|
      invariant sources == CommandSources(m, content, k)
    {
      var pattern := SourcePatterns[k];
      if pattern.hasCommandPattern {
        var matches := m.commandSubmatches(k, content);
        ghost var start := sources;
        for i := 0 to |matches|
          invariant sources == start + RowCommandSources(m, content, k)[..i]
        {
          assert RowCommandSources(m, content, k)[..i + 1] == RowCommandSources(m, content, k)[..i] + [DocumentReference(pattern.typ, matches[i])];
          sources := sources + [DocumentReference(pattern.typ, matches[i])];
        }
        assert RowCommandSources(m, content, k)[..|matches|] == RowCommandSources(m, content, k);
      }
    }
  }

  /** Rows come in table order: the references of the first k rows are a
      prefix of those of the first n, and every match of every row is kept. */
  lemma {:induction false} CommandSourcesGrouped(m: Matchers, content: string, k: nat, n: nat)
    requires k <= n <= |SourcePatterns|
    ensures CommandSources(m, content, k) <= CommandSources(m, content, n)
    ensures |CommandSources(m, content, n)| ==
            |CommandSources(m, content, k)| + SumMatches(m, content, k, n)
    decreases n - k
  {
    if k < n {
      CommandSourcesGrouped(m, content, k, n - 1);
      var a := CommandSources(m, content, n - 1);
      assert a <= a + RowCommandSources(m, content, n - 1);
    }
  }

  /** The number of matches of the command rows k..n-1. */
  function SumMatches(m: Matchers, content: string, k: nat, n: nat): nat
    requires k <= n <= |SourcePatterns|
    decreases n - k
  {
    if k == n then 0
    else SumMatches(m, content, k, n - 1) +
         (if SourcePatterns[n - 1].hasCommandPattern then |m.commandSubmatches(n - 1, content)| else 0)
  }

  // ---------------------------------------------------------------------
  // filterAndDeduplicate

  /** The deduplication key: the URL when set, the path otherwise. */
  function RelatedKey(r: RelatedReference): (k: string)
    ensures r.url != "" ==> k == r.url
    ensures r.url == "" ==> k == r.path
  {
    if r.url != "" then r.url else r.path
  }

  /** Whether a key mentions the current package. */
  function MentionsPackage(currentPackage: string): string -> bool {
    (k: string) => Contains(k, currentPackage)
  }

  /** The references kept by filterAndDeduplicate. */
  function Filtered(sources: seq<RelatedReference>, currentPackage: string): seq<RelatedReference> {
    KeepFirst(sources, RelatedKey, MentionsPackage(currentPackage))
  }

  /** filterAndDeduplicate. */
  method FilterAndDeduplicate(sources: seq<RelatedReference>, currentPackage: string)
    returns (filtered: seq<RelatedReference>)
    ensures filtered == Filtered(sources, currentPackage)
  {
    filtered := [];
    var seen: set<string> := {};
    for i := 0 to |sources|
      invariant filtered == Filtered(sources[..i], currentPackage)
      invariant seen == SeenKeys(filtered, RelatedKey)
    {
      var source := sources[i];
      assert sources[..i + 1] == sources[..i] + [source];
      KeepFirstSnoc(sources[..i], source, RelatedKey, MentionsPackage(currentPackage));
      var key := if source.url != "" then source.url else source.path;
      if key in seen {
        continue;
      }
      if Contains(key, currentPackage) {
        SeenKeysSnoc(filtered, source, RelatedKey);
        filtered := filtered + [source];
        seen := seen + {key};
      }
    }
    assert sources[..|sources|] == sources;
  }

  /** filterAndDeduplicate keeps a reference exactly when its key contains
      the current package and no earlier reference has the same key; what
      it keeps is a subsequence of its input with distinct keys. */
  lemma FilteredSpec(sources: seq<RelatedReference>, currentPackage: string)
    ensures var r := Filtered(sources, currentPackage);
            var idx := KeptIndices(sources, RelatedKey, MentionsPackage(currentPackage));
            |idx| == |r| &&
            (forall k :: 0 <= k < |r| ==> idx[k] < |sources| && r[k] == sources[idx[k]]) &&
            (forall k1, k2 :: 0 <= k1 < k2 < |r| ==> idx[k1] < idx[k2]) &&
            (forall i :: 0 <= i < |sources| ==>
               (i in idx <==> Contains(RelatedKey(sources[i]), currentPackage) &&
                              forall j :: 0 <= j < i ==> RelatedKey(sources[j]) != RelatedKey(sources[i])))
    ensures forall k1, k2 :: 0 <= k1 < k2 < |Filtered(sources, currentPackage)| ==>
              RelatedKey(Filtered(sources, currentPackage)[k1]) != RelatedKey(Filtered(sources, currentPackage)[k2])
  {
    KeepFirstSubsequence(sources, RelatedKey, MentionsPackage(currentPackage));
    KeepFirstExactly(sources, RelatedKey, MentionsPackage(currentPackage));
    KeepFirstDistinct(sources, RelatedKey, MentionsPackage(currentPackage));
  }

  // ---------------------------------------------------------------------
  // extractRelatedSources

  /** The related sources of a README: URL-derived references, then
      command-derived ones, filtered to the current package. */
  function RelatedSourcesOf(m: Matchers, content: string, currentPackage: string): seq<RelatedReference> {
    Filtered(SourcesFromURLs(m, ExtractedURLs(m, content)) + CommandSources(m, content, |SourcePatterns|),
             currentPackage)
  }

  /** Every related source of a README was found in the document, has no
      URL, and has a path that contains the package; no two share a path. */
  lemma RelatedSourcesFromDocument(m: Matchers, content: string, currentPackage: string)
    ensures forall x :: x in RelatedSourcesOf(m, content, currentPackage) ==>
              x.from == "document" && x.url == "" && Contains(x.path, currentPackage)
    ensures forall k1, k2 :: 0 <= k1 < k2 < |RelatedSourcesOf(m, content, currentPackage)| ==>
              RelatedSourcesOf(m, content, currentPackage)[k1].path != RelatedSourcesOf(m, content, currentPackage)[k2].path
  {
    var s := SourcesFromURLs(m, ExtractedURLs(m, content)) + CommandSources(m, content, |SourcePatterns|);
    KeepFirstFrom(s, RelatedKey, MentionsPackage(currentPackage));
    KeepFirstDistinct(s, RelatedKey, MentionsPackage(currentPackage));
    var r := RelatedSourcesOf(m, content, currentPackage);
    forall k1, k2 | 0 <= k1 < k2 < |r|
      ensures r[k1].path != r[k2].path
    {
      assert r[k1] in r && r[k2] in r;
    }
  }

  /** extractRelatedSources. */
  method ExtractRelatedSources(m: Matchers, content: string, currentPackage: string)
    returns (sources: seq<RelatedReference>)
    ensures sources == RelatedSourcesOf(m, content, currentPackage)
  {
    var urls := ExtractURLs(m, content);
    sources := ExtractSourcesFromURLs(m, urls);
    var commands := ExtractSourcesFromCommands(m, content);
    sources := sources + commands;
    sources := FilterAndDeduplicate(sources, currentPackage);
  }

  lemma RowWithoutMatches(m: Matchers, content: string, k: nat)
    requires k < |SourcePatterns| && m.commandSubmatches(k, content) == []
    ensures RowCommandSources(m, content, k) == []
  {
  }

  lemma {:induction false} RowsWithoutMatches(m: Matchers, content: string, k: nat, n: nat)
    requires k <= n <= |SourcePatterns|
    requires forall j :: k <= j < n ==> m.commandSubmatches(j, content) == []
    ensures CommandSources(m, content, n) == CommandSources(m, content, k)
    decreases n - k
  {
    if k < n {
      RowsWithoutMatches(m, content, k, n - 1);
      RowWithoutMatches(m, content, n - 1);
    }
  }

  lemma InstallRows(m: Matchers, content: string, name: string)
    requires forall k :: 0 <= k < |SourcePatterns| ==>
               m.commandSubmatches(k, content) == if k == 2 then [name] else []
    ensures CommandSources(m, content, |SourcePatterns|) == [DocumentReference(NPM, name)]
  {
    var ref := DocumentReference(NPM, name);
    RowWithoutMatches(m, content, 0);
    RowWithoutMatches(m, content, 1);
    assert CommandSources(m, content, 1) == [];
    assert CommandSources(m, content, 2) == [];
    assert RowCommandSources(m, content, 2) == [ref];
    assert CommandSources(m, content, 3) == [ref];
    RowsWithoutMatches(m, content, 3, |SourcePatterns|);
  }

  /** An npm page that the JSR row does not match yields an npm reference
      (the second row has no URL pattern). */
  lemma NPMPageURL(m: Matchers, url: string, name: string)
    requires m.urlSubmatch(0, url).None? && m.urlSubmatch(2, url) == Some(name)
    ensures FirstURLMatch(m, url, 0) == Some(DocumentReference(NPM, name))
  {
    assert FirstURLMatch(m, url, 2) == Some(DocumentReference(NPM, name));
    assert !URLRowMatches(m, url, 1);
    assert FirstURLMatch(m, url, 1) == FirstURLMatch(m, url, 2);
  }

  /** A reference met twice is kept once. */
  lemma FilteredTwice(ref: RelatedReference, currentPackage: string)
    requires Contains(RelatedKey(ref), currentPackage)
    ensures Filtered([ref, ref], currentPackage) == [ref]
  {
    KeepFirstSnoc([], ref, RelatedKey, MentionsPackage(currentPackage));
    assert [] + [ref] == [ref];
    KeepFirstSnoc([ref], ref, RelatedKey, MentionsPackage(currentPackage));
    assert [ref] + [ref] == [ref, ref];
    SeenKeysSnoc([], ref, RelatedKey);
  }

  /** The shape of the package's own sample (a README linking to the npm
      page of "express" and running "npm install express"): the URL and the
      command both yield the path of the package, and only the first
      survives deduplication. */
  lemma NPMPageAndInstall(m: Matchers, content: string, url: string, name: string)
    requires ExtractedURLs(m, content) == [url]
    requires m.urlSubmatch(0, url).None? && m.urlSubmatch(2, url) == Some(name)
    requires forall k :: 0 <= k < |SourcePatterns| ==>
               m.commandSubmatches(k, content) == if k == 2 then [name] else []
    ensures RelatedSourcesOf(m, content, name) == [RelatedReference(NPM, name, "", "document")]
  {
    var ref := DocumentReference(NPM, name);
    NPMPageURL(m, url, name);
    OneURLSource(m, url, ref);
    InstallRows(m, content, name);
    assert SourcesFromURLs(m, ExtractedURLs(m, content)) + CommandSources(m, content, |SourcePatterns|) == [ref, ref];
    assert Contains(RelatedKey(ref), name) by {
      assert OccursAt(name, name, 0);
    }
    FilteredTwice(ref, name);
  }

  /** The references of a single URL: its first match. */
  lemma OneURLSource(m: Matchers, url: string, ref: RelatedReference)
    requires FirstURLMatch(m, url, 0) == Some(ref)
    ensures SourcesFromURLs(m, [url]) == [ref]
  {
    assert [url][..0] == [];
  }
}
