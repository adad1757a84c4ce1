/** The breadth-first crawl of api/investigation.go. Starting from the
    query's reference, each queued reference is fetched through the cache and
    stored under its type; the related references of a successful fetch are
    queued when their type has no entry yet. A type without an investigator
    aborts the crawl.

    Termination: a type, once it has an entry, keeps it, and a reference is
    only queued for a type without one. So each step either gives one more
    type an entry, or removes from the queue a reference whose type already
    has one while queueing only references whose type has none. The pair
    (types without an entry, queued references whose type has one) therefore
    decreases lexicographically. */
module Investigation {
  import opened Wrappers
  import opened Errors
  import opened SourceType
  import opened SourceData
  import opened Resolver
  import opened Cache
  import opened FetchCache

  /** The query a crawl starts from (api/initialquery.go). */
  datatype InitialQuery = InitialQuery(sourceRef: Reference, forceUpdate: bool)

  /** The world the crawl runs in: what each investigator's Fetch returns for
      a package path, the default cache directory, the clock reading used for
      every timestamp, and how far writing a cache file gets. */
  datatype Env = Env(
    fetch: (Type, string) -> Result<Data, Error>,
    defaultDir: string,
    now: int,
    save: SaveStep)

  type Files = map<string, Option<Entry<Data>>>

  /** How a crawl ends: the error of Do (`None` for Go's nil), the collected
      entries, the cache files, and the references fetched, in order. */
  datatype CrawlResult = CrawlResult(err: Option<Error>, collected: map<Type, Data>, files: Files,
                                     processed: seq<Reference>)

  // ---------------------------------------------------------------------
  // The termination measure

  /** The number of types without an entry. */
  function Uncollected(collected: map<Type, Data>): nat {
    |AllTypes - collected.Keys|
  }

  /** The number of queued references whose type already has an entry. */
  function Revisits(queue: seq<Reference>, keys: set<Type>): nat {
    if |queue| == 0 then 0 else (if queue[0].typ in keys then 1 else 0) + Revisits(queue[1..], keys)
  }

  lemma {:induction false} RevisitsAppend(a: seq<Reference>, b: seq<Reference>, keys: set<Type>)
    ensures Revisits(a + b, keys) == Revisits(a, keys) + Revisits(b, keys)
    decreases |a|
  {
    if |a| > 0 {
      assert (a + b)[0] == a[0];
      assert (a + b)[1..] == a[1..] + b;
      RevisitsAppend(a[1..], b, keys);
    } else {
      assert a + b == b;
    }
  }

  lemma {:induction false} RevisitsNone(a: seq<Reference>, keys: set<Type>)
    requires forall i :: 0 <= i < |a| ==> a[i].typ !in keys
    ensures Revisits(a, keys) == 0
    decreases |a|
  {
    if |a| > 0 {
      assert forall i :: 1 <= i < |a| ==> a[1..][i - 1] == a[i];
      RevisitsNone(a[1..], keys);
    }
  }

  lemma RemoveOneCard<T>(a: set<T>, x: T)
    requires x in a
    ensures |a - {x}| == |a| - 1
  {
    assert a == (a - {x}) + {x};
  }

  lemma UncollectedAdd(keys: set<Type>, t: Type)
    ensures t !in keys ==> |AllTypes - (keys + {t})| == |AllTypes - keys| - 1
    ensures t in keys ==> |AllTypes - (keys + {t})| == |AllTypes - keys|
  {
    AllTypesComplete(t);
    if t !in keys {
      assert AllTypes - (keys + {t}) == (AllTypes - keys) - {t};
      RemoveOneCard(AllTypes - keys, t);
    } else {
      assert keys + {t} == keys;
    }
  }

  /** Storing the entry of the head and queueing references of types without
      an entry goes down in the termination order. */
  lemma StepDecreases(queue: seq<Reference>, collected: map<Type, Data>, d: Data, added: seq<Reference>)
    requires |queue| > 0
    requires forall i :: 0 <= i < |added| ==> added[i].typ !in collected[queue[0].typ := d]
    ensures var after := collected[queue[0].typ := d];
            Uncollected(after) < Uncollected(collected) ||
            (Uncollected(after) == Uncollected(collected) &&
             Revisits(queue[1..] + added, after.Keys) < Revisits(queue, collected.Keys))
  {
    var t := queue[0].typ;
    var after := collected[t := d];
    assert after.Keys == collected.Keys + {t};
    UncollectedAdd(collected.Keys, t);
    if t in collected {
      assert after.Keys == collected.Keys;
      RevisitsAppend(queue[1..], added, after.Keys);
      RevisitsNone(added, after.Keys);
    }
  }

  // ---------------------------------------------------------------------
  // One step

  /** The references Do queues after a successful fetch: those related
      references whose type has no entry, in their original order. */
  function Enqueued(related: seq<RelatedReference>, collected: map<Type, Data>): (r: seq<Reference>)
    ensures |r| <= |related|
    ensures forall i :: 0 <= i < |r| ==> r[i].typ !in collected
  {
    if |related| == 0 then []
    else
      var ref := ToSourceReference(related[0]);
      var rest := Enqueued(related[1..], collected);
      if ref.typ !in collected then [ref] + rest else rest
  }

  /** Enqueued keeps exactly the related sources whose type is not yet
      collected, converted to references. */
  lemma {:induction false} EnqueuedExactly(related: seq<RelatedReference>, collected: map<Type, Data>)
    ensures var r := Enqueued(related, collected);
            (forall i :: 0 <= i < |related| && related[i].typ !in collected ==> ToSourceReference(related[i]) in r) &&
            (forall x :: x in r ==> exists i :: 0 <= i < |related| && related[i].typ !in collected &&
                                               x == ToSourceReference(related[i]))
    decreases |related|
  {
    if |related| > 0 {
      EnqueuedExactly(related[1..], collected);
      assert forall i :: 1 <= i < |related| ==> related[i] == related[1..][i - 1];
    }
  }

  /** Enqueued grows one related reference at a time. */
  lemma {:induction false} EnqueuedSnoc(related: seq<RelatedReference>, x: RelatedReference, collected: map<Type, Data>)
    ensures Enqueued(related + [x], collected) ==
      Enqueued(related, collected) + (if ToSourceReference(x).typ !in collected then [ToSourceReference(x)] else [])
    decreases |related|
  {
    if |related| == 0 {
      assert related + [x] == [x];
    } else {
      assert (related + [x])[1..] == related[1..] + [x];
      EnqueuedSnoc(related[1..], x, collected);
    }
  }

  /** The loop of Do that queues the related sources not yet collected. */
  method EnqueueRelated(related: seq<RelatedReference>, collected: map<Type, Data>) returns (added: seq<Reference>)
    ensures added == Enqueued(related, collected)
  {
    added := [];
    for i := 0 to |related|
      invariant added == Enqueued(related[..i], collected)
    {
      var ref := ToSourceReference(related[i]);
      assert related[..i + 1] == related[..i] + [related[i]];
      EnqueuedSnoc(related[..i], related[i], collected);
      if ref.typ !in collected {
        added := added + [ref];
      }
    }
    assert related[..|related|] == related;
  }

  /** What one fetch of `ref` gives, through the cache. */
  function StepOutcome(ref: Reference, inv: Investigator, files: Files, forceUpdate: bool, env: Env): Outcome<Data> {
    FetchOutcome(files, env.defaultDir, inv, ref.path, forceUpdate, env.fetch(ref.typ, ref.path),
                 env.now, env.save)
  }

  /** The entry stored for `ref`: the failure record, or the fetched data
      with its Source set to `ref`. */
  function StepData(ref: Reference, o: Outcome<Data>, now: int): (d: Data)
    ensures o.err.None? ==> d.source == ref
    ensures o.err.Some? ==> d == FailedData(o.err.value, now)
  {
    if o.err.Some? then FailedData(o.err.value, now) else o.value.(source := ref)
  }

  /** The references queued after storing `d`: none after a failure. */
  function StepAdded(o: Outcome<Data>, d: Data, after: map<Type, Data>): (r: seq<Reference>)
    ensures forall i :: 0 <= i < |r| ==> r[i].typ !in after
  {
    if o.err.Some? then [] else Enqueued(d.relatedSources, after)
  }

  // ---------------------------------------------------------------------
  // The crawl as a function

  /** The crawl from a given queue, entries and cache files. */
  function Crawl(queue: seq<Reference>, collected: map<Type, Data>, files: Files,
                 forceUpdate: bool, env: Env): CrawlResult
    decreases Uncollected(collected), Revisits(queue, collected.Keys)
  {
    if |queue| == 0 then CrawlResult(None, collected, files, [])
    else
      var ref := queue[0];
      var inv := InvestigatorFor(ref.typ);
      if inv.None? then CrawlResult(Some(NoInvestigator(ref.typ.Name())), collected, files, [])
      else
        var o := StepOutcome(ref, inv.value, files, forceUpdate, env);
        var d := StepData(ref, o, env.now);
        var after := collected[ref.typ := d];
        var added := StepAdded(o, d, after);
        StepDecreases(queue, collected, d, added);
        var rest := Crawl(queue[1..] + added, after, o.files, forceUpdate, env);
        rest.(processed := [ref] + rest.processed)
  }

  /** One step of the crawl, for a reference that has an investigator. */
  lemma CrawlStep(queue: seq<Reference>, collected: map<Type, Data>, files: Files, forceUpdate: bool, env: Env)
    requires |queue| > 0 && InvestigatorFor(queue[0].typ).Some?
    ensures var ref := queue[0];
            var o := StepOutcome(ref, InvestigatorFor(ref.typ).value, files, forceUpdate, env);
            var d := StepData(ref, o, env.now);
            var after := collected[ref.typ := d];
            var added := StepAdded(o, d, after);
            var rest := Crawl(queue[1..] + added, after, o.files, forceUpdate, env);
            (Uncollected(after) < Uncollected(collected) ||
             (Uncollected(after) == Uncollected(collected) &&
              Revisits(queue[1..] + added, after.Keys) < Revisits(queue, collected.Keys))) &&
            Crawl(queue, collected, files, forceUpdate, env) == rest.(processed := [ref] + rest.processed)
  {
    var ref := queue[0];
    var o := StepOutcome(ref, InvestigatorFor(ref.typ).value, files, forceUpdate, env);
    var d := StepData(ref, o, env.now);
    StepDecreases(queue, collected, d, StepAdded(o, d, collected[ref.typ := d]));
  }

  /** The crawl Do performs from a query. */
  function CrawlFrom(query: InitialQuery, collected: map<Type, Data>, files: Files, env: Env): CrawlResult {
    Crawl([query.sourceRef], collected, files, query.forceUpdate, env)
  }

  /** The part of a crawl's outcome Do exposes. */
  ghost predicate SameOutcome(a: CrawlResult, b: CrawlResult) {
    a.err == b.err && a.collected == b.collected && a.files == b.files
  }

  // ---------------------------------------------------------------------
  // The crawl as Go runs it

  /** api/investigation.go's Investigation: the query and the entries
      collected so far. */
  class Investigation {
    const query: InitialQuery
    var collectedData: map<Type, Data>

    /** NewInvestigation: no entries yet. */
    constructor(query: InitialQuery)
      ensures this.query == query && collectedData == map[]
    {
      this.query := query;
      collectedData := map[];
    }

    /** IsSufficient: never; a crawl only stops when its queue runs out or
        on an abort. */
    function IsSufficient(): (r: bool)
      ensures !r
    {
      false
    }

    /** Do: the crawl loop. */
    method Do(disk: Disk<Data>, env: Env) returns (err: Option<Error>)
      modifies this, disk
      ensures var r := CrawlFrom(query, old(collectedData), old(disk.files), env);
              err == r.err && collectedData == r.collected && disk.files == r.files
    {
      var queue := [query.sourceRef];
      ghost var goal := Crawl(queue, collectedData, disk.files, query.forceUpdate, env);
      while |queue| > 0
        invariant SameOutcome(Crawl(queue, collectedData, disk.files, query.forceUpdate, env), goal)
        decreases Uncollected(collectedData), Revisits(queue, collectedData.Keys)
      {
        var investigator := InvestigatorFor(queue[0].typ);
        if investigator.None? {
          return Some(NoInvestigator(queue[0].typ.Name()));
        }
        queue := Visit(disk, env, queue);
      }
      return None;
    }

    /** One turn of Do's loop for a reference that has an investigator:
        fetch it through the cache, store the entry, queue its related
        sources that are not collected yet. */
    method Visit(disk: Disk<Data>, env: Env, queue: seq<Reference>) returns (next: seq<Reference>)
      requires |queue| > 0 && InvestigatorFor(queue[0].typ).Some?
      modifies this, disk
      ensures SameOutcome(Crawl(next, collectedData, disk.files, query.forceUpdate, env),
                          old(Crawl(queue, collectedData, disk.files, query.forceUpdate, env)))
      ensures Uncollected(collectedData) < old(Uncollected(collectedData)) ||
              (Uncollected(collectedData) == old(Uncollected(collectedData)) &&
               Revisits(next, collectedData.Keys) < old(Revisits(queue, collectedData.Keys)))
    {
      var sourceRef := queue[0];
      var investigator := InvestigatorFor(sourceRef.typ).value;
      CrawlStep(queue, collectedData, disk.files, query.forceUpdate, env);
      ghost var o := StepOutcome(sourceRef, investigator, disk.files, query.forceUpdate, env);
      var data, fetchErr := FetchWithCache(disk, env.defaultDir, investigator, sourceRef.path,
                                           query.forceUpdate, env.fetch(sourceRef.typ, sourceRef.path),
                                           env.now, env.save);
      assert data == o.value && fetchErr == o.err && disk.files == o.files;
      if fetchErr.Some? {
        collectedData := collectedData[sourceRef.typ := FailedData(fetchErr.value, env.now)];
        next := queue[1..] + [];
        return;
      }
      data := data.(source := sourceRef);
      collectedData := collectedData[sourceRef.typ := data];
      if IsSufficient() {
        // The early `return nil` of api/investigation.go:54-56: unreachable,
        // because IsSufficient is constantly false.
        assert false;
      }
      var added := EnqueueRelated(data.relatedSources, collectedData);
      next := queue[1..] + added;
    }
  }

  // ---------------------------------------------------------------------
  // What a crawl guarantees

  /** The types of a sequence of references. */
  function TypesOf(refs: seq<Reference>): set<Type> {
    if |refs| == 0 then {} else {refs[0].typ} + TypesOf(refs[1..])
  }

  /** TypesOf holds the type of each reference and nothing else. */
  lemma {:induction false} TypesOfMembers(refs: seq<Reference>)
    ensures forall i :: 0 <= i < |refs| ==> refs[i].typ in TypesOf(refs)
    ensures forall t :: t in TypesOf(refs) ==> exists i :: 0 <= i < |refs| && refs[i].typ == t
    decreases |refs|
  {
    if |refs| > 0 {
      TypesOfMembers(refs[1..]);
      assert forall i :: 1 <= i < |refs| ==> refs[i] == refs[1..][i - 1];
    }
  }

  /** A stored entry is either the fetched data of its own type or the
      failure record, whose source is the zero reference. */
  ghost predicate EntriesOk(collected: map<Type, Data>) {
    forall t :: t in collected ==>
      collected[t].source.typ == t || (collected[t].source == ZeroReference && collected[t].fetchError.Some?)
  }

  /** Storing an entry for the head of the fetched references adds its
      type to both sides of CrawlKeys's equation. */
  lemma KeysStep(ref: Reference, processed: seq<Reference>, collected: map<Type, Data>, d: Data)
    ensures collected[ref.typ := d].Keys + TypesOf(processed) == collected.Keys + TypesOf([ref] + processed)
  {
    assert ([ref] + processed)[1..] == processed;
  }

  /** The crawl ends with an entry for exactly the types it started with
      plus those of the references it fetched. */
  lemma {:induction false} CrawlKeys(queue: seq<Reference>, collected: map<Type, Data>, files: Files,
                                     forceUpdate: bool, env: Env)
    ensures var r := Crawl(queue, collected, files, forceUpdate, env);
            r.collected.Keys == collected.Keys + TypesOf(r.processed)
    decreases Uncollected(collected), Revisits(queue, collected.Keys)
  {
    if |queue| > 0 && InvestigatorFor(queue[0].typ).Some? {
      CrawlStep(queue, collected, files, forceUpdate, env);
      var ref := queue[0];
      var o := StepOutcome(ref, InvestigatorFor(ref.typ).value, files, forceUpdate, env);
      var d := StepData(ref, o, env.now);
      var after := collected[ref.typ := d];
      var added := StepAdded(o, d, after);
      CrawlKeys(queue[1..] + added, after, o.files, forceUpdate, env);
      KeysStep(ref, Crawl(queue[1..] + added, after, o.files, forceUpdate, env).processed, collected, d);
    }
  }

  /** The entries of types the crawl did not fetch are untouched. */
  lemma {:induction false} CrawlKeepsOthers(queue: seq<Reference>, collected: map<Type, Data>, files: Files,
                                            forceUpdate: bool, env: Env)
    ensures var r := Crawl(queue, collected, files, forceUpdate, env);
            forall t :: t in collected && t !in TypesOf(r.processed) ==> t in r.collected && r.collected[t] == collected[t]
    decreases Uncollected(collected), Revisits(queue, collected.Keys)
  {
    if |queue| > 0 && InvestigatorFor(queue[0].typ).Some? {
      CrawlStep(queue, collected, files, forceUpdate, env);
      var ref := queue[0];
      var o := StepOutcome(ref, InvestigatorFor(ref.typ).value, files, forceUpdate, env);
      var d := StepData(ref, o, env.now);
      var after := collected[ref.typ := d];
      var added := StepAdded(o, d, after);
      CrawlKeepsOthers(queue[1..] + added, after, o.files, forceUpdate, env);
      var rest := Crawl(queue[1..] + added, after, o.files, forceUpdate, env);
      KeepsStep(ref, rest.processed, collected, d, rest.collected);
    }
  }

  lemma KeepsStep(ref: Reference, processed: seq<Reference>, collected: map<Type, Data>, d: Data,
                  final: map<Type, Data>)
    requires forall t :: t in collected[ref.typ := d] && t !in TypesOf(processed) ==>
               t in final && final[t] == collected[ref.typ := d][t]
    ensures forall t :: t in collected && t !in TypesOf([ref] + processed) ==> t in final && final[t] == collected[t]
  {
    assert ([ref] + processed)[1..] == processed;
  }

  /** A crawl that ends without error has fetched every reference of its
      queue, first to last, before any it queued itself. */
  lemma {:induction false} CrawlProcessesQueue(queue: seq<Reference>, collected: map<Type, Data>, files: Files,
                                               forceUpdate: bool, env: Env)
    ensures var r := Crawl(queue, collected, files, forceUpdate, env);
            r.err.None? ==> queue <= r.processed
    decreases Uncollected(collected), Revisits(queue, collected.Keys)
  {
    if |queue| > 0 && InvestigatorFor(queue[0].typ).Some? {
      CrawlStep(queue, collected, files, forceUpdate, env);
      var ref := queue[0];
      var o := StepOutcome(ref, InvestigatorFor(ref.typ).value, files, forceUpdate, env);
      var d := StepData(ref, o, env.now);
      var after := collected[ref.typ := d];
      var added := StepAdded(o, d, after);
      CrawlProcessesQueue(queue[1..] + added, after, o.files, forceUpdate, env);
      var rest := Crawl(queue[1..] + added, after, o.files, forceUpdate, env);
      if rest.err.None? {
        PrefixStep(queue, added, rest.processed);
      }
    }
  }

  lemma PrefixStep(queue: seq<Reference>, added: seq<Reference>, rest: seq<Reference>)
    requires |queue| > 0 && queue[1..] + added <= rest
    ensures queue <= [queue[0]] + rest
  {
    assert queue[1..] <= queue[1..] + added;
    assert queue == [queue[0]] + queue[1..];
  }

  /** The only way a crawl fails is reaching a reference of the empty
      (unknown) type, the one type without an investigator. */
  lemma {:induction false} CrawlFailsOnlyOnUnknown(queue: seq<Reference>, collected: map<Type, Data>, files: Files,
                                                   forceUpdate: bool, env: Env)
    ensures var r := Crawl(queue, collected, files, forceUpdate, env);
            r.err.Some? ==> r.err == Some(NoInvestigator(""))
    decreases Uncollected(collected), Revisits(queue, collected.Keys)
  {
    if |queue| > 0 {
      if InvestigatorFor(queue[0].typ).None? {
        InvestigatorForNoneIff(queue[0].typ);
      } else {
        CrawlStep(queue, collected, files, forceUpdate, env);
        var ref := queue[0];
        var o := StepOutcome(ref, InvestigatorFor(ref.typ).value, files, forceUpdate, env);
        var d := StepData(ref, o, env.now);
        var after := collected[ref.typ := d];
        CrawlFailsOnlyOnUnknown(queue[1..] + StepAdded(o, d, after), after, o.files, forceUpdate, env);
      }
    }
  }

  /** Every reference the crawl fetched has an investigator, so none is of
      the empty type. */
  lemma {:induction false} CrawlFetchesKnownTypes(queue: seq<Reference>, collected: map<Type, Data>, files: Files,
                                                  forceUpdate: bool, env: Env)
    ensures var r := Crawl(queue, collected, files, forceUpdate, env);
            forall i :: 0 <= i < |r.processed| ==> r.processed[i].typ != Unknown
    decreases Uncollected(collected), Revisits(queue, collected.Keys)
  {
    if |queue| > 0 && InvestigatorFor(queue[0].typ).Some? {
      CrawlStep(queue, collected, files, forceUpdate, env);
      var ref := queue[0];
      var o := StepOutcome(ref, InvestigatorFor(ref.typ).value, files, forceUpdate, env);
      var d := StepData(ref, o, env.now);
      var after := collected[ref.typ := d];
      CrawlFetchesKnownTypes(queue[1..] + StepAdded(o, d, after), after, o.files, forceUpdate, env);
      InvestigatorForNoneIff(ref.typ);
      KnownCons(ref, Crawl(queue[1..] + StepAdded(o, d, after), after, o.files, forceUpdate, env).processed);
    }
  }

  lemma KnownCons(ref: Reference, rest: seq<Reference>)
    requires ref.typ != Unknown && forall i :: 0 <= i < |rest| ==> rest[i].typ != Unknown
    ensures forall i :: 0 <= i < |[ref] + rest| ==> ([ref] + rest)[i].typ != Unknown
  {
    assert forall i :: 1 <= i < |[ref] + rest| ==> ([ref] + rest)[i] == rest[i - 1];
  }

  /** Every entry the crawl stores is the fetched data of its own type or a
      failure record. */
  lemma {:induction false} CrawlEntriesOk(queue: seq<Reference>, collected: map<Type, Data>, files: Files,
                                          forceUpdate: bool, env: Env)
    requires EntriesOk(collected)
    ensures EntriesOk(Crawl(queue, collected, files, forceUpdate, env).collected)
    decreases Uncollected(collected), Revisits(queue, collected.Keys)
  {
    if |queue| > 0 && InvestigatorFor(queue[0].typ).Some? {
      CrawlStep(queue, collected, files, forceUpdate, env);
      var ref := queue[0];
      var o := StepOutcome(ref, InvestigatorFor(ref.typ).value, files, forceUpdate, env);
      var d := StepData(ref, o, env.now);
      var after := collected[ref.typ := d];
      EntriesStep(collected, ref, d);
      CrawlEntriesOk(queue[1..] + StepAdded(o, d, after), after, o.files, forceUpdate, env);
    }
  }

  lemma EntriesStep(collected: map<Type, Data>, ref: Reference, d: Data)
    requires EntriesOk(collected)
    requires d.source == ref || (d.source == ZeroReference && d.fetchError.Some?)
    ensures EntriesOk(collected[ref.typ := d])
  {
  }

  /** Do on a fresh investigation: without error, the entries are exactly
      those of the fetched references' types, the query's type first among
      them, none of the empty type, each holding its own type's data or a
      failure record. With an error, the error names the empty type. */
  lemma DoOnFreshInvestigation(query: InitialQuery, files: Files, env: Env)
    ensures var r := CrawlFrom(query, map[], files, env);
            (r.err.None? ==> |r.processed| > 0 && r.processed[0] == query.sourceRef &&
                             r.collected.Keys == TypesOf(r.processed) && Unknown !in r.collected) &&
            (r.err.Some? ==> r.err == Some(NoInvestigator(""))) &&
            EntriesOk(r.collected)
  {
    var r := CrawlFrom(query, map[], files, env);
    CrawlKeys([query.sourceRef], map[], files, query.forceUpdate, env);
    CrawlProcessesQueue([query.sourceRef], map[], files, query.forceUpdate, env);
    CrawlFailsOnlyOnUnknown([query.sourceRef], map[], files, query.forceUpdate, env);
    CrawlFetchesKnownTypes([query.sourceRef], map[], files, query.forceUpdate, env);
    CrawlEntriesOk([query.sourceRef], map[], files, query.forceUpdate, env);
    TypesOfMembers(r.processed);
    if r.err.None? {
      assert [query.sourceRef] <= r.processed;
    }
  }

  /** A query of the empty type aborts at once: an error, and the entries
      as they were. */
  lemma DoUnknownQuery(query: InitialQuery, collected: map<Type, Data>, files: Files, env: Env)
    requires query.sourceRef.typ == Unknown
    ensures var r := CrawlFrom(query, collected, files, env);
            r.err == Some(NoInvestigator("")) && r.collected == collected && r.files == files && r.processed == []
  {
  }
}
