/** First-wins deduplication, the pattern behind every `seen` map of the
    extraction code (api/sourceimpl/extract.go, api/extract.go): walk the
    items in order and keep an item when `keep` accepts its key and no item
    with the same key was kept before. */
module Dedup {

  /** The items kept from `s`. */
  function KeepFirst<T>(s: seq<T>, key: T -> string, keep: string -> bool): seq<T>
    decreases |s|
  {
    if |s| == 0 then []
    else
      var prev := KeepFirst(s[..|s| - 1], key, keep);
      var x := s[|s| - 1];
      if keep(key(x)) && key(x) !in SeenKeys(prev, key) then prev + [x] else prev
  }

  /** The keys of the kept items: Go's `seen` map. */
  function SeenKeys<T>(r: seq<T>, key: T -> string): set<string> {
    set i | 0 <= i < |r| :: key(r[i])
  }

  /** The positions in `s` of the kept items. */
  function KeptIndices<T>(s: seq<T>, key: T -> string, keep: string -> bool): seq<nat>
    decreases |s|
  {
    if |s| == 0 then []
    else
      var prev := KeepFirst(s[..|s| - 1], key, keep);
      var x := s[|s| - 1];
      var idx := KeptIndices(s[..|s| - 1], key, keep);
      if keep(key(x)) && key(x) !in SeenKeys(prev, key) then idx + [|s| - 1] else idx
  }

  /** One more item: it is kept exactly when its key is accepted and not
      yet seen. */
  lemma KeepFirstSnoc<T>(s: seq<T>, x: T, key: T -> string, keep: string -> bool)
    ensures KeepFirst(s + [x], key, keep) ==
            if keep(key(x)) && key(x) !in SeenKeys(KeepFirst(s, key, keep), key)
            then KeepFirst(s, key, keep) + [x] else KeepFirst(s, key, keep)
  {
    assert (s + [x])[..|s|] == s;
  }

  lemma SeenKeysSnoc<T>(r: seq<T>, x: T, key: T -> string)
    ensures SeenKeys(r + [x], key) == SeenKeys(r, key) + {key(x)}
  {
    assert forall i :: 0 <= i < |r| ==> (r + [x])[i] == r[i];
    assert (r + [x])[|r|] == x;
  }

  /** A key has been seen exactly when `keep` accepts it and some item
      carries it. */
  lemma {:induction false} SeenKeysExactly<T>(s: seq<T>, key: T -> string, keep: string -> bool, k: string)
    ensures k in SeenKeys(KeepFirst(s, key, keep), key) <==>
            keep(k) && exists j :: 0 <= j < |s| && key(s[j]) == k
    decreases |s|
  {
    if |s| > 0 {
      var init := s[..|s| - 1];
      var x := s[|s| - 1];
      var prev := KeepFirst(init, key, keep);
      SeenKeysExactly(init, key, keep, k);
      SeenKeysExactly(init, key, keep, key(x));
      SeenKeysSnoc(prev, x, key);
      assert forall j :: 0 <= j < |init| ==> init[j] == s[j];
      if keep(k) && exists j :: 0 <= j < |s| && key(s[j]) == k {
        var j :| 0 <= j < |s| && key(s[j]) == k;
        if j < |init| {
          assert key(init[j]) == k;
        }
      }
    }
  }

  /** The kept items are those of `s` at strictly increasing positions: a
      subsequence, in the original order. */
  lemma {:induction false} KeepFirstSubsequence<T>(s: seq<T>, key: T -> string, keep: string -> bool)
    ensures var r := KeepFirst(s, key, keep);
            var idx := KeptIndices(s, key, keep);
            |idx| == |r| &&
            (forall k :: 0 <= k < |idx| ==> idx[k] < |s| && r[k] == s[idx[k]]) &&
            (forall k1, k2 :: 0 <= k1 < k2 < |idx| ==> idx[k1] < idx[k2])
    decreases |s|
  {
    if |s| > 0 {
      var init := s[..|s| - 1];
      KeepFirstSubsequence(init, key, keep);
      assert forall i :: 0 <= i < |init| ==> init[i] == s[i];
    }
  }

  /** An item is kept exactly when `keep` accepts its key and no earlier
      item has the same key. */
  lemma {:induction false} KeepFirstExactly<T>(s: seq<T>, key: T -> string, keep: string -> bool)
    ensures var idx := KeptIndices(s, key, keep);
            forall i :: 0 <= i < |s| ==>
              (i in idx <==> keep(key(s[i])) && forall j :: 0 <= j < i ==> key(s[j]) != key(s[i]))
    decreases |s|
  {
    if |s| > 0 {
      var init := s[..|s| - 1];
      var x := s[|s| - 1];
      KeepFirstExactly(init, key, keep);
      KeepFirstSubsequence(init, key, keep);
      SeenKeysExactly(init, key, keep, key(x));
      assert forall i :: 0 <= i < |init| ==> init[i] == s[i];
    }
  }

  /** The kept items have pairwise distinct keys. */
  lemma {:induction false} KeepFirstDistinct<T>(s: seq<T>, key: T -> string, keep: string -> bool)
    ensures forall k1, k2 :: 0 <= k1 < k2 < |KeepFirst(s, key, keep)| ==>
              key(KeepFirst(s, key, keep)[k1]) != key(KeepFirst(s, key, keep)[k2])
    decreases |s|
  {
    if |s| > 0 {
      var init := s[..|s| - 1];
      var prev := KeepFirst(init, key, keep);
      var x := s[|s| - 1];
      KeepFirstDistinct(init, key, keep);
      if keep(key(x)) && key(x) !in SeenKeys(prev, key) {
        var r := prev + [x];
        forall k1, k2 | 0 <= k1 < k2 < |r|
          ensures key(r[k1]) != key(r[k2])
        {
          assert r[k1] == prev[k1];
          if k2 == |prev| {
            assert r[k2] == x;
            assert key(prev[k1]) in SeenKeys(prev, key);
          } else {
            assert r[k2] == prev[k2];
          }
        }
      }
    }
  }

  /** Every kept item comes from `s` and has an accepted key. */
  lemma KeepFirstFrom<T>(s: seq<T>, key: T -> string, keep: string -> bool)
    ensures forall x :: x in KeepFirst(s, key, keep) ==> x in s && keep(key(x))
  {
    KeepFirstSubsequence(s, key, keep);
    KeepFirstExactly(s, key, keep);
    var r := KeepFirst(s, key, keep);
    var idx := KeptIndices(s, key, keep);
    forall x | x in r
      ensures x in s && keep(key(x))
    {
      var k :| 0 <= k < |r| && r[k] == x;
      assert idx[k] in idx;
    }
  }
}
