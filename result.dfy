/** The reduction of a finished crawl to one result (api/result.go): the
    longest README among the entries, one link per entry, and the browser
    URL of the query's own source. Go ranges over the entry map in an
    unspecified order; here that order is an explicit parameter, any
    arrangement of the map's keys. */
module Results {
  import opened Wrappers
  import opened SourceType
  import opened SourceData

  /** A link to one collected source: its type and its browser URL (Go's
      nil-able *url.URL). */
  datatype Link = Link(typ: Type, url: Option<string>)

  /** api/result.go's Result. Go's zero InitialQueryType is the empty type. */
  datatype Result = Result(readme: string, initialQueryURL: Option<string>, initialQueryType: Type,
                           links: seq<Link>)

  /** `order` visits every entry of `collected` exactly once. */
  predicate IsKeyOrder(order: seq<Type>, collected: map<Type, Data>) {
    (forall i, j :: 0 <= i < j < |order| ==> order[i] != order[j]) &&
    (forall t :: t in order <==> t in collected)
  }

  /** The README after visiting `order`: a later entry replaces the current
      one only when strictly longer. */
  function LongestReadme(collected: map<Type, Data>, order: seq<Type>): string
    requires forall t :: t in order ==> t in collected
  {
    if |order| == 0 then ""
    else
      var prev := LongestReadme(collected, order[..|order| - 1]);
      var readme := Readme(collected[order[|order| - 1]]);
      if |readme| > |prev| then readme else prev
  }

  /** The link of each visited entry, in visiting order. */
  function LinksOf(collected: map<Type, Data>, order: seq<Type>): (links: seq<Link>)
    requires forall t :: t in order ==> t in collected
    ensures |links| == |order|
    ensures forall i :: 0 <= i < |order| ==>
              links[i] == Link(collected[order[i]].source.typ, collected[order[i]].browserURL)
  {
    seq(|order|, i requires 0 <= i < |order| => Link(collected[order[i]].source.typ, collected[order[i]].browserURL))
  }

  /** CreateResult: one pass over the entries collecting the longest README
      and a link per entry, then the query's own entry if there is one. */
  method CreateResult(collected: map<Type, Data>, queryRef: Reference, order: seq<Type>) returns (r: Result)
    requires IsKeyOrder(order, collected)
    ensures r.readme == LongestReadme(collected, order)
    ensures r.links == LinksOf(collected, order)
    ensures queryRef.typ in collected ==>
              r.initialQueryURL == collected[queryRef.typ].browserURL && r.initialQueryType == queryRef.typ
    ensures queryRef.typ !in collected ==> r.initialQueryURL == None && r.initialQueryType == Unknown
  {
    r := Result("", None, Unknown, []);
    for i := 0 to |order|
      invariant r.readme == LongestReadme(collected, order[..i])
      invariant r.links == LinksOf(collected, order[..i])
      invariant r.initialQueryURL == None && r.initialQueryType == Unknown
    {
      VisitSnoc(collected, order, i);
      var data := collected[order[i]];
      var readme := Readme(data);
      if |readme| > |r.readme| {
        r := r.(readme := readme);
      }
      r := r.(links := r.links + [Link(data.source.typ, data.browserURL)]);
    }
    assert order[..|order|] == order;
    if queryRef.typ in collected {
      var data := collected[queryRef.typ];
      r := r.(initialQueryURL := data.browserURL, initialQueryType := queryRef.typ);
    }
  }

  /** Visiting one more entry: its README may replace the current one, and
      its link is appended. */
  lemma VisitSnoc(collected: map<Type, Data>, order: seq<Type>, i: nat)
    requires forall t :: t in order ==> t in collected
    requires i < |order|
    ensures forall t :: t in order[..i + 1] ==> t in collected
    ensures var readme := Readme(collected[order[i]]);
            var prev := LongestReadme(collected, order[..i]);
            LongestReadme(collected, order[..i + 1]) == if |readme| > |prev| then readme else prev
    ensures LinksOf(collected, order[..i + 1]) ==
              LinksOf(collected, order[..i]) + [Link(collected[order[i]].source.typ, collected[order[i]].browserURL)]
  {
    assert order[..i + 1][..i] == order[..i];
  }

  /** The README is at least as long as every entry's, and is either empty
      or the README of one of the entries. */
  lemma {:induction false} LongestReadmeIsLongest(collected: map<Type, Data>, order: seq<Type>)
    requires forall t :: t in order ==> t in collected
    ensures var r := LongestReadme(collected, order);
            (forall i :: 0 <= i < |order| ==> |Readme(collected[order[i]])| <= |r|) &&
            (r == "" || exists i :: 0 <= i < |order| && r == Readme(collected[order[i]]))
    decreases |order|
  {
    if |order| > 0 {
      var init := order[..|order| - 1];
      LongestReadmeIsLongest(collected, init);
      assert forall i :: 0 <= i < |init| ==> init[i] == order[i];
    }
  }

  /** Ties go to the earliest entry: the README chosen is that of an entry
      every earlier entry of which has a strictly shorter README. */
  lemma {:induction false} LongestReadmeFirst(collected: map<Type, Data>, order: seq<Type>)
    requires forall t :: t in order ==> t in collected
    ensures var r := LongestReadme(collected, order);
            r == "" ||
            exists i :: 0 <= i < |order| && r == Readme(collected[order[i]]) &&
                        forall j :: 0 <= j < i ==> |Readme(collected[order[j]])| < |r|
    decreases |order|
  {
    if |order| > 0 {
      var init := order[..|order| - 1];
      LongestReadmeFirst(collected, init);
      LongestReadmeIsLongest(collected, init);
      assert forall i :: 0 <= i < |init| ==> init[i] == order[i];
    }
  }

  lemma {:induction false} DistinctCard(order: seq<Type>)
    requires forall i, j :: 0 <= i < j < |order| ==> order[i] != order[j]
    ensures |set t | t in order| == |order|
    decreases |order|
  {
    if |order| > 0 {
      var init := order[..|order| - 1];
      var last := order[|order| - 1];
      DistinctCard(init);
      assert (set t | t in order) == (set t | t in init) + {last};
      assert last !in init;
    }
  }

  /** One link per collected entry: the links are as many as the entries,
      and each entry's type and browser URL appear among them. A failed
      entry contributes a link of the empty type with no URL. */
  lemma OneLinkPerEntry(collected: map<Type, Data>, order: seq<Type>)
    requires IsKeyOrder(order, collected)
    ensures |LinksOf(collected, order)| == |collected|
    ensures forall t :: t in collected ==>
              Link(collected[t].source.typ, collected[t].browserURL) in LinksOf(collected, order)
    ensures forall t :: t in collected && collected[t].source == ZeroReference && collected[t].browserURL == None ==>
              Link(Unknown, None) in LinksOf(collected, order)
  {
    DistinctCard(order);
    assert (set t | t in order) == collected.Keys;
    var links := LinksOf(collected, order);
    forall t | t in collected
      ensures Link(collected[t].source.typ, collected[t].browserURL) in links
    {
      var i :| 0 <= i < |order| && order[i] == t;
      assert links[i] == Link(collected[t].source.typ, collected[t].browserURL);
    }
  }

  // ---------------------------------------------------------------------
  // First-match lookups

  /** The URL of the first link whose type satisfies `p`; `None` when no
      link does (or when that link has no URL). */
  function FirstMatch(links: seq<Link>, p: Type -> bool): (u: Option<string>)
    ensures (forall i :: 0 <= i < |links| ==> !p(links[i].typ)) ==> u == None
    ensures forall i :: 0 <= i < |links| && p(links[i].typ) && (forall j :: 0 <= j < i ==> !p(links[j].typ)) ==>
              u == links[i].url
  {
    if |links| == 0 then None
    else if p(links[0].typ) then links[0].url
    else
      assert forall i :: 1 <= i < |links| ==> links[i] == links[1..][i - 1];
      FirstMatch(links[1..], p)
  }

  /** A lookup that yields a URL found it on a link whose type satisfies
      the predicate. */
  lemma {:induction false} FirstMatchFrom(links: seq<Link>, p: Type -> bool)
    ensures FirstMatch(links, p).Some? ==>
              exists i :: 0 <= i < |links| && p(links[i].typ) && links[i].url == FirstMatch(links, p)
    decreases |links|
  {
    if |links| > 0 && !p(links[0].typ) {
      FirstMatchFrom(links[1..], p);
      if FirstMatch(links[1..], p).Some? {
        var i :| 0 <= i < |links[1..]| && p(links[1..][i].typ) && links[1..][i].url == FirstMatch(links[1..], p);
        assert links[i + 1] == links[1..][i];
      }
    }
  }

  function GetHomepage(r: Result): Option<string> {
    FirstMatch(r.links, (t: Type) => t == Homepage)
  }

  function GetDocumentation(r: Result): Option<string> {
    FirstMatch(r.links, (t: Type) => t.IsDocumentation())
  }

  function GetRegistry(r: Result): Option<string> {
    FirstMatch(r.links, (t: Type) => t.IsRegistry())
  }

  function GetRepository(r: Result): Option<string> {
    FirstMatch(r.links, (t: Type) => t.IsRepository())
  }

  /** No lookup ever answers with the link of a failed fetch: the empty type
      satisfies none of the four predicates. GetDocumentation looks at the
      registries with documentation (pkg.go.dev, jsr.io), never at the
      "documentation" website type. */
  lemma LookupsSkipFailedLinks(r: Result)
    ensures GetHomepage(r).Some? ==>
              exists i :: 0 <= i < |r.links| && r.links[i].typ == Homepage && r.links[i].url == GetHomepage(r)
    ensures GetDocumentation(r).Some? ==>
              exists i :: 0 <= i < |r.links| && r.links[i].typ in {GoPkgDev, JSR} &&
                          r.links[i].url == GetDocumentation(r)
    ensures GetRegistry(r).Some? ==>
              exists i :: 0 <= i < |r.links| && r.links[i].typ.IsRegistry() && r.links[i].typ != Unknown &&
                          r.links[i].url == GetRegistry(r)
    ensures GetRepository(r).Some? ==>
              exists i :: 0 <= i < |r.links| && r.links[i].typ in {GitHub, GitLab} &&
                          r.links[i].url == GetRepository(r)
  {
    FirstMatchFrom(r.links, (t: Type) => t == Homepage);
    FirstMatchFrom(r.links, (t: Type) => t.IsDocumentation());
    FirstMatchFrom(r.links, (t: Type) => t.IsRegistry());
    FirstMatchFrom(r.links, (t: Type) => t.IsRepository());
  }
}
