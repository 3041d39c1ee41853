// What the merge means: pruning, self-merge, the closed form of a merged mapping, and
// the theorem that everything in src is carried by the merged tree.
module YamlMeaning {
  import opened Text
  import opened YamlTree

  // ---- Hypotheses ----------------------------------------------------------------

  predicate DistinctKeys(kids: seq<Tree>)
  {
    forall i, j :: 0 <= i < j && j + 1 < |kids| && i % 2 == 0 && j % 2 == 0 ==> kids[i].value != kids[j].value
  }

  // A tree as the YAML decoder builds it from a document without aliases: every mapping
  // has whole pairs with distinct scalar keys that are not blank.
  predicate Proper(t: Tree)
  {
    && t.kind in {Scalar, Sequence, Mapping}
    && (t.kind == Mapping ==>
          && |t.kids| % 2 == 0
          && DistinctKeys(t.kids)
          && forall i ::
              0 <= i < |t.kids| && i % 2 == 0 ==> t.kids[i].kind == Scalar && TrimSpace(t.kids[i].value) != "")
    && forall i :: 0 <= i < |t.kids| ==> Proper(t.kids[i])
  }

  // Any tree the decoder builds: keys may repeat or be blank, and aliases may occur.
  predicate WholePairs(t: Tree)
  {
    (t.kind == Mapping ==> |t.kids| % 2 == 0) && forall i :: 0 <= i < |t.kids| ==> WholePairs(t.kids[i])
  }

  lemma {:induction false} ProperPairsWhole(t: Tree)
    requires Proper(t)
    ensures WholePairs(t)
    decreases t
  {
    forall i | 0 <= i < |t.kids| ensures WholePairs(t.kids[i]) { ProperPairsWhole(t.kids[i]); }
  }

  // ---- Key lookup ----------------------------------------------------------------

  lemma FindKeyAt(kids: seq<Tree>, i: nat)
    requires i + 1 < |kids| && i % 2 == 0 && DistinctKeys(kids)
    ensures FindKey(kids, kids[i].value) == i
  {
    var r := FindKey(kids, kids[i].value);
    assert 0 <= r <= i;
  }

  lemma FindKeyUnique(kids: seq<Tree>, key: string, i: nat)
    requires i + 1 < |kids| && i % 2 == 0 && kids[i].value == key
    requires forall m :: 0 <= m < i && m % 2 == 0 ==> kids[m].value != key
    ensures FindKey(kids, key) == i
  {
    var r := FindKey(kids, key);
    assert kids[i].value == key;
  }

  lemma FindKeyAbsent(kids: seq<Tree>, key: string)
    requires forall m :: 0 <= m && m + 1 < |kids| && m % 2 == 0 ==> kids[m].value != key
    ensures FindKey(kids, key) == -1
  {
  }

  // Keys of b are found in a + b where b has them, when a lacks them.
  lemma FindKeyInTail(a: seq<Tree>, b: seq<Tree>, key: string)
    requires |a| % 2 == 0 && |b| % 2 == 0 && FindKey(a, key) < 0
    ensures var at, was := FindKey(a + b, key), FindKey(b, key);
            if was < 0 then at < 0 else at == |a| + was
  {
    var all := a + b;
    var was := FindKey(b, key);
    var last := if was < 0 then |b| else was;
    forall m | 0 <= m && m + 1 < |all| && m < |a| + last && m % 2 == 0 ensures all[m].value != key {
      if m >= |a| { assert all[m] == b[m - |a|]; }
    }
    if was >= 0 {
      FindKeyUnique(all, key, |a| + was);
    } else {
      FindKeyAbsent(all, key);
    }
  }

  lemma FindKeySame(a: seq<Tree>, b: seq<Tree>, key: string)
    requires |a| == |b| && forall m :: 0 <= m < |a| && m % 2 == 0 ==> a[m].value == b[m].value
    ensures FindKey(a, key) == FindKey(b, key)
  {
    var r := FindKey(b, key);
    if r >= 0 {
      FindKeyUnique(a, key, r);
    } else {
      FindKeyAbsent(a, key);
    }
  }

  lemma FindKeyAppend(q: seq<Tree>, k: Tree, v: Tree, key: string)
    requires |q| % 2 == 0
    ensures FindKey(q + [k, v], key) == if FindKey(q, key) >= 0 then FindKey(q, key) else if k.value == key then |q|
        else -1
  {
    if FindKey(q, key) >= 0 {
      FindKeyInFront(q, [k, v], key);
    } else {
      assert FindKey([k, v], key) == if k.value == key then 0 else -1;
      FindKeyInTail(q, [k, v], key);
    }
  }

  lemma FindKeyInFront(a: seq<Tree>, b: seq<Tree>, key: string)
    requires |a| % 2 == 0 && FindKey(a, key) >= 0
    ensures FindKey(a + b, key) == FindKey(a, key)
  {
    FindKeyUnique(a + b, key, FindKey(a, key));
  }

  // ---- Pruning -------------------------------------------------------------------

  lemma {:induction false} PruneKeepsZero(path: seq<string>, t: Tree)
    requires IsZero(t)
    ensures IsZero(Prune(path, t))
    decreases t
  {
    match t.kind
    case Mapping => PruneZeroPairs(path, t, |t.kids|);
    case Sequence =>
      forall i | 0 <= i < |t.kids| ensures IsZero(Prune(path, t.kids[i])) { PruneKeepsZero(path, t.kids[i]); }
    case _ =>
  }

  lemma {:induction false} PruneZeroPairs(path: seq<string>, t: Tree, n: nat)
    requires t.kind == Mapping && IsZero(t) && n <= |t.kids|
    ensures PrunePairs(path, t, n) == []
    decreases n
  {
    if n >= 2 {
      PruneZeroPairs(path, t, if n % 2 == 1 then n - 1 else n - 2);
    }
  }

  // Pruning a value never turns a known default into something to be written.
  lemma {:induction false} PruneKeepsDefault(path: seq<string>, t: Tree)
    requires IsDefault(path, t)
    ensures IsDefault(path, Prune(path, t))
  {
    if IsZero(t) {
      PruneKeepsZero(path, t);
    }
  }

  lemma {:induction false} PrunePairsEven(path: seq<string>, t: Tree, n: nat)
    requires n <= |t.kids|
    ensures |PrunePairs(path, t, n)| % 2 == 0
    decreases n
  {
    if n >= 2 {
      PrunePairsEven(path, t, if n % 2 == 1 then n - 1 else n - 2);
    }
  }

  // A key that none of the first n entries has is not in their pruned pairs.
  lemma {:induction false} PrunePairsLack(path: seq<string>, t: Tree, n: nat, key: string)
    requires n <= |t.kids| && n % 2 == 0
    requires forall i :: 0 <= i < n && i % 2 == 0 ==> t.kids[i].value != key
    ensures FindKey(PrunePairs(path, t, n), key) < 0
    decreases n
  {
    if n >= 2 {
      PrunePairsLack(path, t, n - 2, key);
      PrunePairsEven(path, t, n - 2);
      FindKeyAppend(PrunePairs(path, t, n - 2), t.kids[n - 2], Prune(path + [t.kids[n - 2].value], t.kids[n - 1]), key);
    }
  }

  // Looking a key up in the pruned pairs: found with its pruned value, or dropped.
  lemma {:induction false} PruneLookup(path: seq<string>, t: Tree, n: nat, i: nat)
    requires n <= |t.kids| && n % 2 == 0 && DistinctKeys(t.kids)
    requires i + 1 < n && i % 2 == 0
    ensures var p := PrunePairs(path, t, n);
            var at := FindKey(p, t.kids[i].value);
            if Survives(path, t, i)
            then at >= 0 && p[at + 1] == Prune(path + [t.kids[i].value], t.kids[i + 1])
            else at < 0
    decreases n
  {
    var key := t.kids[i].value;
    PrunePairsEven(path, t, n - 2);
    if i == n - 2 {
      PrunePairsLack(path, t, n - 2, key);
    } else {
      PruneLookup(path, t, n - 2, i);
    }
    FindKeyAppend(PrunePairs(path, t, n - 2), t.kids[n - 2], Prune(path + [t.kids[n - 2].value], t.kids[n - 1]), key);
  }

  // ---- Merging a tree into a copy of itself ---------------------------------------

  // c is src again, up to node identity, style and comments.
  predicate Alike(c: Tree, s: Tree)
    decreases c
  {
    && c.kind == s.kind && c.tag == s.tag && c.value == s.value && |c.kids| == |s.kids|
    && (c.kind == Alias ==> c.alias == s.alias)
    && forall i :: 0 <= i < |c.kids| ==> Alike(c.kids[i], s.kids[i])
  }

  lemma {:induction false} AlikeReflexive(t: Tree)
    ensures Alike(t, t)
  {
    forall i | 0 <= i < |t.kids| ensures Alike(t.kids[i], t.kids[i]) { AlikeReflexive(t.kids[i]); }
  }

  lemma {:induction false} AlikeStruct(c: Tree, s: Tree)
    requires Alike(c, s)
    ensures StructEqual(c, s)
    decreases c
  {
    forall i | 0 <= i < |c.kids| ensures StructEqual(c.kids[i], s.kids[i]) { AlikeStruct(c.kids[i], s.kids[i]); }
  }

  lemma {:induction false} AlikeHandle(c: Tree, s: Tree)
    requires Alike(c, s)
    ensures Handle(c) == Handle(s)
  {
    if c.kind == Mapping {
      forall i | 0 <= i < |c.kids| / 2 ensures PairAt(c.kids, 2 * i) == PairAt(s.kids, 2 * i) {
        assert Alike(c.kids[2 * i], s.kids[2 * i]) && Alike(c.kids[2 * i + 1], s.kids[2 * i + 1]);
      }
      assert Pairs(c.kids) == Pairs(s.kids);
    }
  }

  lemma FirstAcceptedAt(stage: Stage, dk: seq<Tree>, used: set<int>, target: Tree, n: nat)
    requires n < |dk| && n !in used && Accepts(stage, dk[n], target)
    requires forall j :: 0 <= j < n ==> j in used
    ensures FirstAccepted(stage, dk, used, target, 0) == n
  {
    var r := FirstAccepted(stage, dk, used, target, 0);
    assert 0 <= r <= n;
  }

  lemma SelfMatch(ck: seq<Tree>, used: set<int>, target: Tree, n: nat)
    requires n < |ck| && n !in used && Alike(ck[n], target)
    requires forall j :: 0 <= j < n ==> j in used
    ensures Match(ck, used, target) == n
  {
    AlikeHandle(ck[n], target);
    AlikeStruct(ck[n], target);
    FirstAcceptedAt(ByIdentity, ck, used, target, n);
    FirstAcceptedAt(ByStructure, ck, used, target, n);
  }

  // A sequence pairs with a copy of itself item by item.
  lemma {:induction false} SelfPairing(ck: seq<Tree>, sk: seq<Tree>, n: nat)
    requires |ck| == |sk| && n <= |sk| && forall i :: 0 <= i < |ck| ==> Alike(ck[i], sk[i])
    ensures forall i :: 0 <= i < n ==> Pairing(ck, sk, n)[i] == i
    decreases n
  {
    if n > 0 {
      SelfPairing(ck, sk, n - 1);
      var before := Pairing(ck, sk, n - 1);
      forall j | 0 <= j < n - 1 ensures j in Taken(before) {
        assert before[j] == j;
      }
      SelfMatch(ck, Taken(before), sk[n - 1], n - 1);
    }
  }

  lemma {:induction false} KeepAll(kids: seq<Tree>, keep: set<string>, n: nat)
    requires n <= |kids|
    requires forall m :: 0 <= m && m + 1 < |kids| && m % 2 == 0 ==> TrimSpace(kids[m].value) in keep
    ensures KeepKeys(kids, keep, n) == kids[..n]
    decreases n
  {
    if n > 0 {
      KeepAll(kids, keep, if n % 2 == 1 then n - 1 else n - 2);
    }
  }

  // Merging src into a copy of itself changes nothing.
  lemma {:induction false} SelfMerge(path: seq<string>, c: Tree, s: Tree)
    requires Proper(s) && Alike(c, s)
    ensures MergeNode(path, c, s) == c
    decreases s, 1
  {
    match s.kind
    case Mapping => SelfMergePairs(path, c, s, 0);
    case Sequence =>
      if |s.kids| > 0 {
        SelfPairing(c.kids, s.kids, |s.kids|);
        var pairing := Pairing(c.kids, s.kids, |s.kids|);
        forall i | 0 <= i < |s.kids| ensures MergeItem(path, c.kids, pairing[i], s, i) == c.kids[i] {
          SelfMerge(path, c.kids[i], s.kids[i]);
          SelfPrune(c.kids[i], s.kids[i]);
        }
        assert MergeItems(path, c.kids, s) == c.kids;
      }
    case _ =>
  }

  lemma {:induction false} SelfPrune(c: Tree, s: Tree)
    requires Proper(s) && Alike(c, s)
    ensures PruneMissing(c, s) == c
  {
    if c.kind == Mapping {
      forall m | 0 <= m && m + 1 < |c.kids| && m % 2 == 0
        ensures TrimSpace(c.kids[m].value) in TrimmedKeys(s.kids)
      {
        assert Alike(c.kids[m], s.kids[m]);
      }
      KeepAll(c.kids, TrimmedKeys(s.kids), |c.kids|);
    }
  }

  lemma AlikeKeys(c: Tree, s: Tree)
    requires Alike(c, s) && DistinctKeys(s.kids)
    ensures DistinctKeys(c.kids)
  {
    assert forall m :: 0 <= m < |c.kids| ==> Alike(c.kids[m], s.kids[m]);
  }

  lemma {:induction false} SelfMergePair(path: seq<string>, c: Tree, s: Tree, i: nat)
    requires Proper(s) && Alike(c, s) && s.kind == Mapping && i % 2 == 0 && i + 1 < |s.kids|
    ensures MergePair(path, c.kids, s, i) == c.kids
    decreases s, 0, |s.kids| - i
  {
    AlikeKeys(c, s);
    FindKeyAt(c.kids, i);
    assert Alike(c.kids[i], s.kids[i]) && Alike(c.kids[i + 1], s.kids[i + 1]);
    SelfMerge(path + [s.kids[i].value], c.kids[i + 1], s.kids[i + 1]);
  }

  lemma {:induction false} SelfMergePairs(path: seq<string>, c: Tree, s: Tree, i: nat)
    requires Proper(s) && Alike(c, s) && s.kind == Mapping && i % 2 == 0
    ensures MergePairs(path, c.kids, s, i) == c.kids
    decreases s, 0, |s.kids| - i + 1
  {
    hide MergePair, Alike, Proper;
    if i + 1 < |s.kids| {
      SelfMergePair(path, c, s, i);
      SelfMergePairs(path, c, s, i + 2);
    }
  }

  // ---- The closed form of a merged mapping ----------------------------------------

  // dst's entry at index m after the first i entries of src have been merged.
  function MergedEntry(path: seq<string>, dk: seq<Tree>, s: Tree, m: nat, i: nat): Tree
    requires m < |dk|
  {
    if m % 2 == 0 || FindKey(dk, dk[m - 1].value) != m - 1 then dk[m]
    else
      var j := FindKey(s.kids, dk[m - 1].value);
      if 0 <= j < i then MergeNode(path + [dk[m - 1].value], dk[m], s.kids[j + 1]) else dk[m]
  }

  // The pairs appended for the first i entries of src: keys dst lacks, in src's order,
  // with pruned values, leaving out known defaults.
  function NewPairs(path: seq<string>, dk: seq<Tree>, s: Tree, i: nat): seq<Tree>
    requires i <= |s.kids|
    decreases i
  {
    if i < 2 then []
    else
      var sk, sv := s.kids[i - 2], s.kids[i - 1];
      var child := path + [sk.value];
      if FindKey(dk, sk.value) >= 0 || IsDefault(child, Prune(child, sv)) then NewPairs(path, dk, s, i - 2)
      else NewPairs(path, dk, s, i - 2) + [sk, Prune(child, sv)]
  }

  // dst's old list with matching values merged in place, then the new pairs.
  function Closed(path: seq<string>, dk: seq<Tree>, s: Tree, i: nat): seq<Tree>
    requires i <= |s.kids|
  {
    seq(|dk|, m requires 0 <= m < |dk| => MergedEntry(path, dk, s, m, i)) + NewPairs(path, dk, s, i)
  }

  lemma {:induction false} MergeKeepsRoot(path: seq<string>, d: Tree, s: Tree)
    ensures MergeNode(path, d, s).node == d.node
    ensures MergeNode(path, d, s).style == d.style && MergeNode(path, d, s).note == d.note
  {
  }

  lemma {:induction false} NewPairsEven(path: seq<string>, dk: seq<Tree>, s: Tree, i: nat)
    requires i <= |s.kids|
    ensures |NewPairs(path, dk, s, i)| % 2 == 0
    decreases i
  {
    if i >= 2 {
      NewPairsEven(path, dk, s, i - 2);
    }
  }

  // A key that is not one of src's first n keys is not among the new pairs.
  lemma {:induction false} NewPairsLack(path: seq<string>, dk: seq<Tree>, s: Tree, n: nat, key: string)
    requires n <= |s.kids| && n % 2 == 0
    requires forall i :: 0 <= i < n && i % 2 == 0 ==> s.kids[i].value != key
    ensures FindKey(NewPairs(path, dk, s, n), key) < 0
    decreases n
  {
    if n >= 2 {
      NewPairsLack(path, dk, s, n - 2, key);
      NewPairsEven(path, dk, s, n - 2);
      FindKeyAppend(NewPairs(path, dk, s, n - 2), s.kids[n - 2], Prune(path + [s.kids[n - 2].value], s.kids[n - 1]),
          key);
    }
  }

  // Where the loop finds src's next key: where dst had it, since it cannot be new.
  lemma ClosedFind(path: seq<string>, dk: seq<Tree>, s: Tree, i: nat)
    requires s.kind == Mapping && DistinctKeys(s.kids) && |dk| % 2 == 0
    requires i + 1 < |s.kids| && i % 2 == 0
    ensures FindKey(Closed(path, dk, s, i), s.kids[i].value) == FindKey(dk, s.kids[i].value)
  {
    var key, n := s.kids[i].value, NewPairs(path, dk, s, i);
    var front := Closed(path, dk, s, i)[..|dk|];
    assert Closed(path, dk, s, i) == front + n;
    NewPairsEven(path, dk, s, i);
    NewPairsLack(path, dk, s, i, key);
    FindKeySame(front, dk, key);
    if FindKey(dk, key) < 0 {
      FindKeyInTail(front, n, key);
    } else {
      FindKeyInFront(front, n, key);
    }
  }

  // Processing src's pair i changes one entry of dst at most: the value of its key.
  lemma EntryStep(path: seq<string>, dk: seq<Tree>, s: Tree, i: nat, m: nat)
    requires s.kind == Mapping && DistinctKeys(s.kids) && i + 1 < |s.kids| && i % 2 == 0 && m < |dk|
    ensures var at, before := FindKey(dk, s.kids[i].value), MergedEntry(path, dk, s, m, i);
            if at >= 0 && m == at + 1
            then before == dk[m]
                && MergedEntry(path, dk, s, m, i + 2) == MergeNode(path + [s.kids[i].value], dk[m], s.kids[i + 1])
            else MergedEntry(path, dk, s, m, i + 2) == before
  {
    if m % 2 == 1 && FindKey(dk, dk[m - 1].value) == m - 1 {
      FindKeyAt(s.kids, i);
      var j := FindKey(s.kids, dk[m - 1].value);
      assert j % 2 == 0 || j == -1;
    }
  }

  lemma ClosedStep(path: seq<string>, dk: seq<Tree>, s: Tree, i: nat)
    requires s.kind == Mapping && DistinctKeys(s.kids) && |dk| % 2 == 0
    requires i + 1 < |s.kids| && i % 2 == 0
    ensures MergePair(path, Closed(path, dk, s, i), s, i) == Closed(path, dk, s, i + 2)
  {
    hide IsDefault, Prune, MergeNode, TrimSpace;
    ClosedFind(path, dk, s, i);
    forall m | 0 <= m < |dk|
      ensures Closed(path, dk, s, i)[m] == MergedEntry(path, dk, s, m, i)
      ensures Closed(path, dk, s, i + 2)[m] == MergedEntry(path, dk, s, m, i + 2)
    {
      EntryStep(path, dk, s, i, m);
    }
    var at := FindKey(dk, s.kids[i].value);
    if at >= 0 {
      assert NewPairs(path, dk, s, i + 2) == NewPairs(path, dk, s, i);
      forall m | 0 <= m < |dk|
        ensures m != at + 1 ==> MergedEntry(path, dk, s, m, i + 2) == MergedEntry(path, dk, s, m, i) {
        EntryStep(path, dk, s, i, m);
      }
      EntryStep(path, dk, s, i, at + 1);
    } else {
      forall m | 0 <= m < |dk| ensures MergedEntry(path, dk, s, m, i + 2) == MergedEntry(path, dk, s, m, i) {
        EntryStep(path, dk, s, i, m);
      }
    }
  }

  // The loop computes the closed form.
  lemma {:induction false} MergePairsClosed(path: seq<string>, dk: seq<Tree>, s: Tree, i: nat)
    requires s.kind == Mapping && DistinctKeys(s.kids) && |dk| % 2 == 0 && |s.kids| % 2 == 0
    requires i <= |s.kids| && i % 2 == 0
    ensures MergePairs(path, Closed(path, dk, s, i), s, i) == Closed(path, dk, s, |s.kids|)
    decreases |s.kids| - i
  {
    hide MergePair, Closed;
    if i + 1 < |s.kids| {
      ClosedStep(path, dk, s, i);
      MergePairsClosed(path, dk, s, i + 2);
    }
  }

  lemma {:induction false} MergeMappingClosed(path: seq<string>, d: Tree, s: Tree)
    requires d.kind == Mapping && s.kind == Mapping && DistinctKeys(s.kids) && |d.kids| % 2 == 0 && |s.kids| % 2 == 0
    ensures MergeMapping(path, d, s).kids == Closed(path, d.kids, s, |s.kids|)
  {
    assert Closed(path, d.kids, s, 0) == d.kids;
    MergePairsClosed(path, d.kids, s, 0);
  }

  // ---- The frame of a merged mapping ----------------------------------------------

  function KeyList(kids: seq<Tree>): seq<string>
  {
    if |kids| < 2 then [] else [kids[0].value] + KeyList(kids[2..])
  }

  lemma {:induction false} KeyListAppend(a: seq<Tree>, b: seq<Tree>)
    requires |a| % 2 == 0
    ensures KeyList(a + b) == KeyList(a) + KeyList(b)
    decreases |a|
  {
    if |a| == 0 {
      assert a + b == b;
    } else {
      assert (a + b)[2..] == a[2..] + b;
      KeyListAppend(a[2..], b);
    }
  }

  lemma {:induction false} KeyListSame(a: seq<Tree>, b: seq<Tree>)
    requires |a| == |b| && forall m :: 0 <= m < |a| && m % 2 == 0 ==> a[m].value == b[m].value
    ensures KeyList(a) == KeyList(b)
    decreases |a|
  {
    if |a| >= 2 {
      forall m | 0 <= m < |a| - 2 && m % 2 == 0 ensures a[2..][m].value == b[2..][m].value {
        assert a[2..][m] == a[m + 2] && b[2..][m] == b[m + 2];
      }
      KeyListSame(a[2..], b[2..]);
    }
  }

  // src's keys that dst lacks and whose pruned value is not a known default.
  function NewKeys(path: seq<string>, dk: seq<Tree>, s: Tree, i: nat): seq<string>
    requires i <= |s.kids|
    decreases i
  {
    if i < 2 then []
    else
      var child := path + [s.kids[i - 2].value];
      NewKeys(path, dk, s, i - 2) +
      if FindKey(dk, s.kids[i - 2].value) < 0 && !IsDefault(child, Prune(child, s.kids[i - 1]))
          then [s.kids[i - 2].value] else []
  }

  lemma {:induction false} NewPairsKeys(path: seq<string>, dk: seq<Tree>, s: Tree, i: nat)
    requires i <= |s.kids| && i % 2 == 0
    ensures KeyList(NewPairs(path, dk, s, i)) == NewKeys(path, dk, s, i)
    decreases i
  {
    if i >= 2 {
      NewPairsKeys(path, dk, s, i - 2);
      NewPairsEven(path, dk, s, i - 2);
      var sk, sv := s.kids[i - 2], s.kids[i - 1];
      var child := path + [sk.value];
      KeyListAppend(NewPairs(path, dk, s, i - 2), [sk, Prune(child, sv)]);
      assert KeyList([sk, Prune(child, sv)]) == [sk.value];
    }
  }

  // dst keeps its node, tag, style and comments, and its key list becomes the old list
  // followed by src's new keys in src's order.
  lemma MergeFrameKeys(path: seq<string>, d: Tree, s: Tree)
    requires d.kind == Mapping && s.kind == Mapping && Proper(s) && |d.kids| % 2 == 0
    ensures var r := MergeNode(path, d, s);
            && r == d.(kids := r.kids)
            && KeyList(r.kids) == KeyList(d.kids) + NewKeys(path, d.kids, s, |s.kids|)
  {
    MergeMappingClosed(path, d, s);
    var front := Closed(path, d.kids, s, |s.kids|)[..|d.kids|];
    assert Closed(path, d.kids, s, |s.kids|) == front + NewPairs(path, d.kids, s, |s.kids|);
    KeyListAppend(front, NewPairs(path, d.kids, s, |s.kids|));
    KeyListSame(front, d.kids);
    NewPairsKeys(path, d.kids, s, |s.kids|);
  }

  // Every entry of dst stays at its place with its node, style and comments; key nodes,
  // and the whole subtree of a key that src lacks, stay exactly as they were.
  lemma MergeFrameEntries(path: seq<string>, d: Tree, s: Tree, m: nat)
    requires d.kind == Mapping && s.kind == Mapping && Proper(s) && |d.kids| % 2 == 0 && m < |d.kids|
    ensures var r := MergeNode(path, d, s);
            && m < |r.kids|
            && r.kids[m].node == d.kids[m].node && r.kids[m].style == d.kids[m].style
                && r.kids[m].note == d.kids[m].note
            && (m % 2 == 0 || FindKey(s.kids, d.kids[m - 1].value) < 0 ==> r.kids[m] == d.kids[m])
  {
    MergeMappingClosed(path, d, s);
    assert Closed(path, d.kids, s, |s.kids|)[m] == MergedEntry(path, d.kids, s, m, |s.kids|);
    if m % 2 == 1 {
      var j := FindKey(s.kids, d.kids[m - 1].value);
      if j >= 0 {
        MergeKeepsRoot(path + [d.kids[m - 1].value], d.kids[m], s.kids[j + 1]);
      }
    }
  }

  // ---- Carrying ------------------------------------------------------------------

  // Where the merged node for a src node came from: an unpruned copy, a pruned copy of
  // a new key, or the dst node it was merged into.
  datatype Prior = Whole | Pruned | Was(d: Tree)

  function ItemPrior(prior: Prior, s: Tree, i: nat): Prior
    requires i < |s.kids|
  {
    if !prior.Was? then prior
    else if prior.d.kind != Sequence || |prior.d.kids| == 0 then Whole
    else
      var j := Pairing(prior.d.kids, s.kids, |s.kids|)[i];
      if j < 0 then Whole else Was(prior.d.kids[j])
  }

  function KeyPrior(prior: Prior, key: string): Prior
  {
    if !prior.Was? then prior
    else if prior.d.kind != Mapping then Whole
    else
      var at := FindKey(prior.d.kids, key);
      if at < 0 then Pruned else Was(prior.d.kids[at + 1])
  }

  predicate IsNull(t: Tree)
  {
    t.kind == Scalar && t.tag == "!!null"
  }

  // r carries src: the same kind everywhere, the same tag and value for every scalar,
  // sequences of src's exact length item by item, and every key. The only key that may be
  // missing is one that dst lacked too and whose pruned value is a known default; the only
  // kind that may differ is a null scalar that dst had for what is an empty sequence in src.
  predicate Carries(path: seq<string>, prior: Prior, s: Tree, r: Tree)
    decreases s
  {
    match s.kind
    case Scalar => r.kind == Scalar && r.tag == s.tag && r.value == s.value
    case Sequence =>
      || (prior.Was? && IsNull(prior.d) && IsNull(r) && |s.kids| == 0)
      || (r.kind == Sequence && |r.kids| == |s.kids| &&
          forall i :: 0 <= i < |s.kids| ==> Carries(path, ItemPrior(prior, s, i), s.kids[i], r.kids[i]))
    case Mapping =>
      && r.kind == Mapping
      && forall i :: 0 <= i && i + 1 < |s.kids| && i % 2 == 0 ==> CarriesKey(path, prior, s, r, i)
    case _ => false
  }

  predicate CarriesKey(path: seq<string>, prior: Prior, s: Tree, r: Tree, i: nat)
    requires i + 1 < |s.kids|
    decreases s, 0
  {
    var key := s.kids[i].value;
    var at := FindKey(r.kids, key);
    var child := path + [key];
    if at >= 0 then Carries(child, KeyPrior(prior, key), s.kids[i + 1], r.kids[at + 1])
    else KeyPrior(prior, key) == Pruned && IsDefault(child, Prune(child, s.kids[i + 1]))
  }

  lemma {:induction false} WholeCarries(path: seq<string>, s: Tree)
    requires Proper(s)
    ensures Carries(path, Whole, s, s)
    decreases s
  {
    forall i | 0 <= i < |s.kids| && s.kind == Sequence ensures Carries(path, Whole, s.kids[i], s.kids[i]) {
      WholeCarries(path, s.kids[i]);
    }
    forall i | 0 <= i && i + 1 < |s.kids| && i % 2 == 0 && s.kind == Mapping ensures CarriesKey(path, Whole, s, s, i) {
      FindKeyAt(s.kids, i);
      WholeCarries(path + [s.kids[i].value], s.kids[i + 1]);
    }
  }

  lemma {:induction false} PrunedCarries(path: seq<string>, s: Tree)
    requires Proper(s)
    ensures Carries(path, Pruned, s, Prune(path, s))
    decreases s
  {
    var r := Prune(path, s);
    forall i | 0 <= i < |s.kids| && s.kind == Sequence ensures Carries(path, Pruned, s.kids[i], r.kids[i]) {
      PrunedCarries(path, s.kids[i]);
    }
    forall i | 0 <= i && i + 1 < |s.kids| && i % 2 == 0 && s.kind == Mapping ensures CarriesKey(path, Pruned, s, r, i) {
      PruneLookup(path, s, |s.kids|, i);
      var child := path + [s.kids[i].value];
      if Survives(path, s, i) {
        PrunedCarries(child, s.kids[i + 1]);
      } else if IsDefault(child, s.kids[i + 1]) {
        PruneKeepsDefault(child, s.kids[i + 1]);
      }
    }
  }

  // Looking src's key up in the closed form, when dst had it.
  lemma ClosedLookupOld(path: seq<string>, dk: seq<Tree>, s: Tree, i: nat)
    requires s.kind == Mapping && DistinctKeys(s.kids) && |dk| % 2 == 0 && |s.kids| % 2 == 0
    requires i + 1 < |s.kids| && i % 2 == 0 && FindKey(dk, s.kids[i].value) >= 0
    ensures var key, c, was := s.kids[i].value, Closed(path, dk, s, |s.kids|), FindKey(dk, s.kids[i].value);
            FindKey(c, key) == was && c[was + 1] == MergeNode(path + [key], dk[was + 1], s.kids[i + 1])
  {
    var key, c := s.kids[i].value, Closed(path, dk, s, |s.kids|);
    var was := FindKey(dk, key);
    assert forall m :: 0 <= m < |dk| && m % 2 == 0 ==> c[m] == dk[m];
    FindKeyAt(s.kids, i);
    FindKeyUnique(c, key, was);
    assert c[was + 1] == MergedEntry(path, dk, s, was + 1, |s.kids|);
  }

  // Looking src's key up among the new pairs, when dst lacks it.
  lemma {:induction false} NewPairsLookup(path: seq<string>, dk: seq<Tree>, s: Tree, n: nat, i: nat)
    requires DistinctKeys(s.kids) && n <= |s.kids| && n % 2 == 0
    requires i + 1 < n && i % 2 == 0 && FindKey(dk, s.kids[i].value) < 0
    ensures var child, p := path + [s.kids[i].value], NewPairs(path, dk, s, n);
            var at := FindKey(p, s.kids[i].value);
            if IsDefault(child, Prune(child, s.kids[i + 1])) then at < 0
            else at >= 0 && p[at + 1] == Prune(child, s.kids[i + 1])
    decreases n
  {
    hide IsDefault, Prune, FindKey;
    var key := s.kids[i].value;
    NewPairsEven(path, dk, s, n - 2);
    if i == n - 2 {
      NewPairsLack(path, dk, s, i, key);
    } else {
      NewPairsLookup(path, dk, s, n - 2, i);
    }
    FindKeyAppend(NewPairs(path, dk, s, n - 2), s.kids[n - 2], Prune(path + [s.kids[n - 2].value], s.kids[n - 1]), key);
  }

  lemma ClosedLookupNew(path: seq<string>, dk: seq<Tree>, s: Tree, i: nat)
    requires s.kind == Mapping && DistinctKeys(s.kids) && |dk| % 2 == 0 && |s.kids| % 2 == 0
    requires i + 1 < |s.kids| && i % 2 == 0 && FindKey(dk, s.kids[i].value) < 0
    ensures var child, c := path + [s.kids[i].value], Closed(path, dk, s, |s.kids|);
            var at := FindKey(c, s.kids[i].value);
            if IsDefault(child, Prune(child, s.kids[i + 1])) then at < 0
            else at >= 0 && c[at + 1] == Prune(child, s.kids[i + 1])
  {
    var key, c := s.kids[i].value, Closed(path, dk, s, |s.kids|);
    var front, p := c[..|dk|], NewPairs(path, dk, s, |s.kids|);
    assert c == front + p;
    FindKeySame(front, dk, key);
    NewPairsEven(path, dk, s, |s.kids|);
    NewPairsLookup(path, dk, s, |s.kids|, i);
    FindKeyInTail(front, p, key);
  }

  lemma {:induction false} KeepEven(kids: seq<Tree>, keep: set<string>, n: nat)
    requires n <= |kids| && n % 2 == 0
    ensures |KeepKeys(kids, keep, n)| % 2 == 0
    decreases n
  {
    hide TrimSpace;
    if n > 0 {
      KeepEven(kids, keep, n - 2);
    }
  }

  // A merged item keeps no key that src's item lacks.
  lemma {:induction false} KeepOnly(kids: seq<Tree>, keep: set<string>, n: nat)
    requires n <= |kids| && n % 2 == 0
    ensures forall m ::
        0 <= m < |KeepKeys(kids, keep, n)| && m % 2 == 0 ==> TrimSpace(KeepKeys(kids, keep, n)[m].value) in keep
    decreases n
  {
    hide TrimSpace;
    if n > 0 {
      KeepOnly(kids, keep, n - 2);
      KeepEven(kids, keep, n - 2);
    }
  }

  // Dropping keys that are not src's keeps every key of src.
  lemma {:induction false} KeepLookup(kids: seq<Tree>, keep: set<string>, n: nat, key: string)
    requires n <= |kids| && n % 2 == 0 && TrimSpace(key) in keep
    ensures var kept, was := KeepKeys(kids, keep, n), FindKey(kids, key);
            if 0 <= was < n then FindKey(kept, key) >= 0 && kept[FindKey(kept, key) + 1] == kids[was + 1]
            else FindKey(kept, key) < 0
    decreases n
  {
    hide TrimSpace;
    if n > 0 {
      KeepLookup(kids, keep, n - 2, key);
      KeepEven(kids, keep, n - 2);
      if TrimSpace(kids[n - 2].value) in keep {
        FindKeyAppend(KeepKeys(kids, keep, n - 2), kids[n - 2], kids[n - 1], key);
      }
    }
  }

  lemma PruneMissingCarries(path: seq<string>, prior: Prior, s: Tree, r: Tree)
    requires Proper(s) && Carries(path, prior, s, r) && |r.kids| % 2 == 0
    ensures Carries(path, prior, s, PruneMissing(r, s))
  {
    if s.kind == Mapping {
      var q := PruneMissing(r, s);
      forall i | 0 <= i && i + 1 < |s.kids| && i % 2 == 0 ensures CarriesKey(path, prior, s, q, i) {
        assert CarriesKey(path, prior, s, r, i);
        KeepLookup(r.kids, TrimmedKeys(s.kids), |r.kids|, s.kids[i].value);
      }
    } else if s.kind == Sequence {
      assert PruneMissing(r, s) == r;
    }
  }

  lemma ClosedEven(path: seq<string>, dk: seq<Tree>, s: Tree)
    requires |dk| % 2 == 0 && |s.kids| % 2 == 0
    ensures |Closed(path, dk, s, |s.kids|)| % 2 == 0
  {
    NewPairsEven(path, dk, s, |s.kids|);
  }

  lemma MergeEvenPairs(path: seq<string>, d: Tree, s: Tree)
    requires WholePairs(d) && Proper(s) && s.kind == Mapping
    ensures |MergeNode(path, d, s).kids| % 2 == 0
  {
    if d.kind == Mapping {
      MergeMappingClosed(path, d, s);
      ClosedEven(path, d.kids, s);
    } else {
      AlikeSelfKids(path, d, s);
    }
  }

  // Replacing a node of another kind and then merging leaves the copy as it is.
  lemma AlikeSelfKids(path: seq<string>, d: Tree, s: Tree)
    requires Proper(s) && s.kind == Mapping
    ensures MergeMapping(path, CopyShallow(d, s), s) == CopyShallow(d, s)
  {
    AlikeReflexive(s);
    SelfMerge(path, CopyShallow(d, s), s);
  }

  // After the merge, dst carries everything that src says.
  lemma {:induction false} MergeCarries(path: seq<string>, d: Tree, s: Tree)
    requires WholePairs(d) && Proper(s)
    ensures Carries(path, Was(d), s, MergeNode(path, d, s))
    decreases s
  {
    match s.kind
    case Mapping =>
      if d.kind == Mapping {
        MergeMappingCarries(path, d, s);
      } else {
        AlikeSelfKids(path, d, s);
        WholeCarries(path, s);
        ReplacedCarries(path, d, s);
      }
    case Sequence =>
      var r := MergeNode(path, d, s);
      if !(d.kind == Scalar && d.tag == "!!null" && |s.kids| == 0) {
        forall i | 0 <= i < |s.kids| ensures Carries(path, ItemPrior(Was(d), s, i), s.kids[i], r.kids[i]) {
          MergeItemCarries(path, d, s, i);
        }
      }
    case _ =>
  }

  lemma ReplacedCarries(path: seq<string>, d: Tree, s: Tree)
    requires Proper(s) && s.kind == Mapping && d.kind != Mapping && Carries(path, Whole, s, s)
    ensures Carries(path, Was(d), s, CopyShallow(d, s))
  {
    var r := CopyShallow(d, s);
    forall i | 0 <= i && i + 1 < |s.kids| && i % 2 == 0 ensures CarriesKey(path, Was(d), s, r, i) {
      assert CarriesKey(path, Whole, s, s, i);
    }
  }

  // What item i of a merged sequence is.
  lemma MergedItem(path: seq<string>, d: Tree, s: Tree, i: nat)
    requires s.kind == Sequence && i < |s.kids| && !(d.kind == Scalar && d.tag == "!!null" && |s.kids| == 0)
    ensures var prior, item := ItemPrior(Was(d), s, i), s.kids[i];
            MergeNode(path, d, s).kids[i] == if prior.Was? then PruneMissing(MergeNode(path, prior.d, item), item)
                else item
  {
    var e := if d.kind == Sequence then d else d.(kind := Sequence, tag := "!!seq", kids := []);
    assert MergeNode(path, d, s).kids == MergeItems(path, e.kids, s);
    if |e.kids| > 0 {
      assert MergeItems(path, e.kids, s)[i] == MergeItem(path, e.kids, Pairing(e.kids, s.kids, |s.kids|)[i], s, i);
    }
  }

  lemma {:induction false} MergeItemCarries(path: seq<string>, d: Tree, s: Tree, i: nat)
    requires WholePairs(d) && Proper(s) && s.kind == Sequence && i < |s.kids|
    requires !(d.kind == Scalar && d.tag == "!!null" && |s.kids| == 0)
    ensures Carries(path, ItemPrior(Was(d), s, i), s.kids[i], MergeNode(path, d, s).kids[i])
    decreases s, 0
  {
    var item := s.kids[i];
    MergedItem(path, d, s, i);
    var prior := ItemPrior(Was(d), s, i);
    if prior.Was? {
      MergeCarries(path, prior.d, item);
      if item.kind == Mapping {
        MergeEvenPairs(path, prior.d, item);
        PruneMissingCarries(path, prior, item, MergeNode(path, prior.d, item));
      }
    } else {
      WholeCarries(path, item);
    }
  }

  lemma {:induction false} MergeMappingCarries(path: seq<string>, d: Tree, s: Tree)
    requires WholePairs(d) && Proper(s) && d.kind == Mapping && s.kind == Mapping
    ensures Carries(path, Was(d), s, MergeNode(path, d, s))
    decreases s, 0
  {
    var r := MergeNode(path, d, s);
    MergeMappingClosed(path, d, s);
    forall i | 0 <= i && i + 1 < |s.kids| && i % 2 == 0 ensures CarriesKey(path, Was(d), s, r, i) {
      var key := s.kids[i].value;
      var child := path + [key];
      var was := FindKey(d.kids, key);
      if was >= 0 {
        ClosedLookupOld(path, d.kids, s, i);
        MergeCarries(child, d.kids[was + 1], s.kids[i + 1]);
      } else {
        ClosedLookupNew(path, d.kids, s, i);
        PrunedCarries(child, s.kids[i + 1]);
      }
    }
  }
}
