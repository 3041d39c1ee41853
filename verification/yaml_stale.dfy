// What the merge removes: an item of a merged list keeps no key that src's item lacks, and
// of the pairs that a removal looks at exactly those stay whose key src has.
module YamlStale {
  import opened Ordering
  import opened Text
  import opened YamlTree
  import opened YamlMeaning

  // ---- Keys, as they stand in the nodes -----------------------------------------------------

  // src has a pair with this key, white space aside.
  ghost predicate HasKey(s: Tree, key: string)
  {
    exists i :: KeyAt(s, key, i)
  }

  predicate KeyAt(s: Tree, key: string, i: int)
  {
    0 <= i && i + 1 < |s.kids| && i % 2 == 0 && TrimSpace(s.kids[i].value) == TrimSpace(key)
  }

  // Every key of r is one of s.
  ghost predicate NoOtherKeys(s: Tree, r: Tree)
  {
    forall m :: 0 <= m && m + 1 < |r.kids| && m % 2 == 0 ==> HasKey(s, r.kids[m].value)
  }

  // In every list of r that stands where src has a list, at any depth, each item that is a
  // mapping where src's is one has no key that src's item lacks.
  ghost predicate NothingStale(s: Tree, r: Tree)
    decreases s
  {
    match s.kind
    case Sequence =>
      r.kind == Sequence ==>
        && |r.kids| == |s.kids|
        && forall i :: 0 <= i < |s.kids| ==>
             && (s.kids[i].kind == Mapping && r.kids[i].kind == Mapping ==> NoOtherKeys(s.kids[i], r.kids[i]))
             && NothingStale(s.kids[i], r.kids[i])
    case Mapping =>
      forall i, m :: SamePair(s, r, i, m) ==> NothingStale(s.kids[i + 1], r.kids[m + 1])
    case _ => true
  }

  // The first pair of r with the key of src's pair i.
  predicate SamePair(s: Tree, r: Tree, i: int, m: int)
  {
    && 0 <= i && i + 1 < |s.kids| && i % 2 == 0
    && 0 <= m && m + 1 < |r.kids| && m % 2 == 0
    && r.kids[m].value == s.kids[i].value
    && forall q :: 0 <= q < m && q % 2 == 0 ==> r.kids[q].value != s.kids[i].value
  }

  lemma SamePairIs(s: Tree, r: Tree, i: nat, m: nat)
    requires SamePair(s, r, i, m)
    ensures FindKey(r.kids, s.kids[i].value) == m
  {
    FindKeyUnique(r.kids, s.kids[i].value, m);
  }

  // ---- What stays as it is --------------------------------------------------------------------

  lemma OwnKeys(s: Tree)
    ensures NoOtherKeys(s, s)
  {
    forall m | 0 <= m && m + 1 < |s.kids| && m % 2 == 0 ensures HasKey(s, s.kids[m].value) {
      assert KeyAt(s, s.kids[m].value, m);
    }
  }

  lemma {:induction false} WholeStale(s: Tree)
    requires Proper(s)
    ensures NothingStale(s, s)
    decreases s
  {
    hide TrimSpace, NoOtherKeys;
    match s.kind
    case Sequence =>
      forall i | 0 <= i < |s.kids| ensures NoOtherKeys(s.kids[i], s.kids[i]) && NothingStale(s.kids[i], s.kids[i]) {
        OwnKeys(s.kids[i]);
        WholeStale(s.kids[i]);
      }
    case Mapping =>
      forall i, m | SamePair(s, s, i, m) ensures NothingStale(s.kids[i + 1], s.kids[m + 1]) {
        SamePairIs(s, s, i, m);
        FindKeyAt(s.kids, i);
        WholeStale(s.kids[i + 1]);
      }
    case _ =>
  }

  lemma {:induction false} PrunedKeys(path: seq<string>, t: Tree, n: nat)
    requires n <= |t.kids|
    ensures forall m :: 0 <= m && m + 1 < |PrunePairs(path, t, n)| && m % 2 == 0 ==>
              HasKey(t, PrunePairs(path, t, n)[m].value)
    decreases n
  {
    hide TrimSpace, Survives, Prune;
    if n >= 2 {
      var k := if n % 2 == 1 then n - 1 else n - 2;
      PrunedKeys(path, t, k);
      PrunePairsEven(path, t, k);
      if n % 2 == 0 {
        assert KeyAt(t, t.kids[n - 2].value, n - 2);
      }
    }
  }

  lemma PrunedNoOther(path: seq<string>, s: Tree)
    requires s.kind == Mapping
    ensures NoOtherKeys(s, Prune(path, s))
  {
    PrunedKeys(path, s, |s.kids|);
  }

  lemma {:induction false} PrunedStale(path: seq<string>, s: Tree)
    requires Proper(s)
    ensures NothingStale(s, Prune(path, s))
    decreases s
  {
    hide TrimSpace, NoOtherKeys, IsDefault, PrunePairs;
    var r := Prune(path, s);
    match s.kind
    case Sequence =>
      forall i | 0 <= i < |s.kids|
        ensures (s.kids[i].kind == Mapping ==> NoOtherKeys(s.kids[i], r.kids[i])) && NothingStale(s.kids[i], r.kids[i])
      {
        if s.kids[i].kind == Mapping { PrunedNoOther(path, s.kids[i]); }
        PrunedStale(path, s.kids[i]);
      }
    case Mapping =>
      forall i, m | SamePair(s, r, i, m) ensures NothingStale(s.kids[i + 1], r.kids[m + 1]) {
        SamePairIs(s, r, i, m);
        PruneLookup(path, s, |s.kids|, i);
        PrunedStale(path + [s.kids[i].value], s.kids[i + 1]);
      }
    case _ =>
  }

  // ---- What the removal leaves -------------------------------------------------------------------

  lemma KeptNoOther(d: Tree, s: Tree)
    requires d.kind == Mapping && s.kind == Mapping && |d.kids| % 2 == 0
    ensures NoOtherKeys(s, PruneMissing(d, s))
  {
    hide TrimSpace, KeepKeys;
    var r := PruneMissing(d, s);
    KeepOnly(d.kids, TrimmedKeys(s.kids), |d.kids|);
    forall m | 0 <= m && m + 1 < |r.kids| && m % 2 == 0 ensures HasKey(s, r.kids[m].value) {
      var i :| 0 <= i && i + 1 < |s.kids| && i % 2 == 0 && TrimSpace(s.kids[i].value) == TrimSpace(r.kids[m].value);
      assert KeyAt(s, r.kids[m].value, i);
    }
  }

  lemma KeptStale(d: Tree, s: Tree)
    requires Proper(s) && |d.kids| % 2 == 0 && NothingStale(s, d)
    ensures NothingStale(s, PruneMissing(d, s))
  {
    hide TrimSpace, KeepKeys, NoOtherKeys;
    var r := PruneMissing(d, s);
    if s.kind == Mapping && d.kind == Mapping {
      forall i, m | SamePair(s, r, i, m) ensures NothingStale(s.kids[i + 1], r.kids[m + 1]) {
        var key := s.kids[i].value;
        SamePairIs(s, r, i, m);
        assert TrimSpace(key) in TrimmedKeys(s.kids);
        KeepLookup(d.kids, TrimmedKeys(s.kids), |d.kids|, key);
        assert SamePair(s, d, i, FindKey(d.kids, key));
      }
    }
  }

  // The pairs of the first n entries that stay: in place order, exactly those whose key src has
  // and that is not blank.
  ghost predicate KeptPairs(s: Tree, was: seq<Tree>, n: nat, left: seq<Tree>, at: seq<nat>)
  {
    && n <= |was| && Rising(at, n) && |left| == 2 * |at|
    && (forall k :: 0 <= k < |at| ==> KeptPair(was, left, at, k))
    && forall i :: 0 <= i < n && i % 2 == 0 && i + 1 < n ==>
         (i in at <==> HasKey(s, was[i].value) && TrimSpace(was[i].value) != "")
  }

  predicate KeptPair(was: seq<Tree>, left: seq<Tree>, at: seq<nat>, k: nat)
    requires k < |at| && |left| == 2 * |at|
  {
    at[k] % 2 == 0 && at[k] + 1 < |was| && left[2 * k] == was[at[k]] && left[2 * k + 1] == was[at[k] + 1]
  }

  lemma KeptNext(s: Tree, was: seq<Tree>, n: nat, left: seq<Tree>, at: seq<nat>)
    requires KeptPairs(s, was, n, left, at) && n % 2 == 0 && n + 1 < |was|
    ensures var key := was[n].value;
            if HasKey(s, key) && TrimSpace(key) != ""
            then KeptPairs(s, was, n + 2, left + [was[n], was[n + 1]], at + [n])
            else KeptPairs(s, was, n + 2, left, at)
  {
    hide TrimSpace, HasKey;
    var more, next := at + [n], left + [was[n], was[n + 1]];
    assert n !in at && n in more;
    forall k | 0 <= k < |more| ensures KeptPair(was, next, more, k) {
      if k < |at| { assert KeptPair(was, left, at, k); }
    }
    forall i | 0 <= i < n + 2 && i % 2 == 0 && i + 1 < n + 2
      ensures i == n || (i + 1 < n && (i in at <==> i in more)) {}
  }

  lemma {:induction false} KeepsPairs(s: Tree, was: seq<Tree>, n: nat) returns (at: seq<nat>)
    requires n <= |was| && n % 2 == 0
    ensures KeptPairs(s, was, n, KeepKeys(was, TrimmedKeys(s.kids), n), at)
    decreases n
  {
    hide TrimSpace, KeptPairs, HasKey;
    if n == 0 {
      at := [];
      NothingKept(s, was);
    } else {
      at := KeepsPairs(s, was, n - 2);
      var key := was[n - 2].value;
      KeptNext(s, was, n - 2, KeepKeys(was, TrimmedKeys(s.kids), n - 2), at);
      InTrimmed(s, key);
      at := if HasKey(s, key) && TrimSpace(key) != "" then at + [n - 2] else at;
    }
  }

  lemma NothingKept(s: Tree, was: seq<Tree>)
    ensures KeptPairs(s, was, 0, [], [])
  {
  }

  lemma InTrimmed(s: Tree, key: string)
    ensures TrimSpace(key) in TrimmedKeys(s.kids) <==> HasKey(s, key) && TrimSpace(key) != ""
  {
    hide TrimSpace;
    if TrimSpace(key) in TrimmedKeys(s.kids) {
      var i :| 0 <= i && i + 1 < |s.kids| && i % 2 == 0 && TrimSpace(s.kids[i].value) == TrimSpace(key);
      assert KeyAt(s, key, i);
    }
  }

  // After the removal.
  ghost predicate OnlyItsPairs(s: Tree, was: Tree, r: Tree)
  {
    exists at: seq<nat> :: KeptPairs(s, was.kids, |was.kids|, r.kids, at)
  }

  lemma RemovalKeeps(d: Tree, s: Tree)
    requires d.kind == Mapping && s.kind == Mapping && |d.kids| % 2 == 0
    ensures OnlyItsPairs(s, d, PruneMissing(d, s))
  {
    hide KeptPairs, KeepKeys;
    var at := KeepsPairs(s, d.kids, |d.kids|);
  }

  // ---- The merge ---------------------------------------------------------------------------------

  // After the merge nothing is left in a list item that src's item does not have.
  lemma {:induction false} MergeNothingStale(path: seq<string>, d: Tree, s: Tree)
    requires WholePairs(d) && Proper(s)
    ensures NothingStale(s, MergeNode(path, d, s))
    decreases s, 1
  {
    hide TrimSpace, NoOtherKeys, IsDefault, Prune;
    match s.kind
    case Mapping =>
      if d.kind == Mapping {
        MergeMappingStale(path, d, s);
      } else {
        AlikeSelfKids(path, d, s);
        WholeStale(s);
        ReplacedStale(d, s);
      }
    case Sequence =>
      var r := MergeNode(path, d, s);
      if !(d.kind == Scalar && d.tag == "!!null" && |s.kids| == 0) {
        forall i | 0 <= i < |s.kids|
          ensures s.kids[i].kind == Mapping && r.kids[i].kind == Mapping ==> NoOtherKeys(s.kids[i], r.kids[i])
          ensures NothingStale(s.kids[i], r.kids[i])
        {
          MergeItemStale(path, d, s, i);
        }
      }
    case _ =>
  }

  lemma ReplacedStale(d: Tree, s: Tree)
    requires s.kind == Mapping && NothingStale(s, s)
    ensures NothingStale(s, CopyShallow(d, s))
  {
    forall i, m | SamePair(s, CopyShallow(d, s), i, m) ensures NothingStale(s.kids[i + 1], s.kids[m + 1]) {
      assert SamePair(s, s, i, m);
    }
  }

  lemma {:induction false} MergeMappingStale(path: seq<string>, d: Tree, s: Tree)
    requires WholePairs(d) && Proper(s) && d.kind == Mapping && s.kind == Mapping
    ensures NothingStale(s, MergeNode(path, d, s))
    decreases s, 0
  {
    hide TrimSpace, IsDefault, Prune;
    var r := MergeNode(path, d, s);
    MergeMappingClosed(path, d, s);
    forall i, m | SamePair(s, r, i, m) ensures NothingStale(s.kids[i + 1], r.kids[m + 1]) {
      var key := s.kids[i].value;
      SamePairIs(s, r, i, m);
      var was := FindKey(d.kids, key);
      if was >= 0 {
        ClosedLookupOld(path, d.kids, s, i);
        MergeNothingStale(path + [key], d.kids[was + 1], s.kids[i + 1]);
      } else {
        ClosedLookupNew(path, d.kids, s, i);
        PrunedStale(path + [key], s.kids[i + 1]);
      }
    }
  }

  lemma {:induction false} MergeItemStale(path: seq<string>, d: Tree, s: Tree, i: nat)
    requires WholePairs(d) && Proper(s) && s.kind == Sequence && i < |s.kids|
    requires !(d.kind == Scalar && d.tag == "!!null" && |s.kids| == 0)
    ensures var r := MergeNode(path, d, s).kids[i];
            && (s.kids[i].kind == Mapping && r.kind == Mapping ==> NoOtherKeys(s.kids[i], r))
            && NothingStale(s.kids[i], r)
    decreases s, 0
  {
    hide TrimSpace, NoOtherKeys, PruneMissing;
    var item := s.kids[i];
    MergedItem(path, d, s, i);
    var prior := ItemPrior(Was(d), s, i);
    if prior.Was? {
      var merged := MergeNode(path, prior.d, item);
      MergeNothingStale(path, prior.d, item);
      if item.kind == Mapping {
        MergeEvenPairs(path, prior.d, item);
        MappingStays(path, prior.d, item);
        KeptNoOther(merged, item);
        KeptStale(merged, item);
      } else {
        NotRemoved(merged, item);
      }
    } else {
      OwnKeys(item);
      WholeStale(item);
    }
  }

  lemma MappingStays(path: seq<string>, d: Tree, s: Tree)
    requires s.kind == Mapping
    ensures MergeNode(path, d, s).kind == Mapping
  {
  }

  lemma NotRemoved(d: Tree, s: Tree)
    requires s.kind != Mapping
    ensures PruneMissing(d, s) == d
  {
  }
}
