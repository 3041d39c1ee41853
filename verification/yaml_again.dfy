// Merging may be repeated: the merged tree is again one that the merge is meant for.
module YamlAgain {
  import opened Text
  import opened YamlTree
  import opened YamlMeaning

  // The children of a proper mapping.
  predicate ProperPairs(kids: seq<Tree>)
  {
    && |kids| % 2 == 0
    && DistinctKeys(kids)
    && (forall i :: 0 <= i < |kids| && i % 2 == 0 ==> kids[i].kind == Scalar && TrimSpace(kids[i].value) != "")
    && forall i :: 0 <= i < |kids| ==> Proper(kids[i])
  }

  lemma AppendPair(kids: seq<Tree>, k: Tree, v: Tree)
    requires ProperPairs(kids) && FindKey(kids, k.value) < 0
    requires Proper(k) && k.kind == Scalar && TrimSpace(k.value) != "" && Proper(v)
    ensures ProperPairs(kids + [k, v])
  {
    hide TrimSpace, Proper, FindKey;
    AbsentKey(kids, k.value);
    var all := kids + [k, v];
    forall i, j | 0 <= i < j && j + 1 < |all| && i % 2 == 0 && j % 2 == 0 ensures all[i].value != all[j].value {
      assert all[i] == kids[i] && (j < |kids| ==> all[j] == kids[j]);
    }
  }

  lemma AbsentKey(kids: seq<Tree>, key: string)
    requires FindKey(kids, key) < 0 && |kids| % 2 == 0
    ensures forall i :: 0 <= i < |kids| && i % 2 == 0 ==> kids[i].value != key
  {
  }

  lemma ReplaceValue(kids: seq<Tree>, at: nat, v: Tree)
    requires ProperPairs(kids) && at % 2 == 0 && at + 1 < |kids| && Proper(v)
    ensures ProperPairs(kids[at + 1 := v])
  {
    hide TrimSpace, Proper;
  }

  // ---- Pruning -----------------------------------------------------------------------------

  lemma {:induction false} PruneProper(path: seq<string>, t: Tree)
    requires Proper(t)
    ensures Proper(Prune(path, t))
    decreases t, 1
  {
    hide TrimSpace;
    if t.kind == Mapping {
      PrunePairsProper(path, t, |t.kids|);
    } else if t.kind == Sequence {
      forall i | 0 <= i < |t.kids| ensures Proper(Prune(path, t.kids[i])) { PruneProper(path, t.kids[i]); }
    }
  }

  lemma {:induction false} PrunePairsProper(path: seq<string>, t: Tree, n: nat)
    requires Proper(t) && t.kind == Mapping && n <= |t.kids| && n % 2 == 0
    ensures ProperPairs(PrunePairs(path, t, n))
    decreases t, 0, n
  {
    hide TrimSpace, IsDefault, IsEmptied;
    if n >= 2 {
      PrunePairsProper(path, t, n - 2);
      if Survives(path, t, n - 2) {
        var k, v := t.kids[n - 2], t.kids[n - 1];
        PrunePairsLack(path, t, n - 2, k.value);
        PruneProper(path + [k.value], v);
        AppendPair(PrunePairs(path, t, n - 2), k, Prune(path + [k.value], v));
      }
    }
  }

  lemma {:induction false} KeepProper(kids: seq<Tree>, keep: set<string>, n: nat)
    requires ProperPairs(kids) && n <= |kids| && n % 2 == 0
    ensures ProperPairs(KeepKeys(kids, keep, n))
    ensures forall m :: n <= m && m + 1 < |kids| && m % 2 == 0 ==> FindKey(KeepKeys(kids, keep, n), kids[m].value) < 0
    decreases n
  {
    hide TrimSpace, Proper;
    if n > 0 {
      KeepProper(kids, keep, n - 2);
      var before, k, v := KeepKeys(kids, keep, n - 2), kids[n - 2], kids[n - 1];
      if TrimSpace(k.value) in keep {
        AppendPair(before, k, v);
        forall m | n <= m && m + 1 < |kids| && m % 2 == 0 ensures FindKey(before + [k, v], kids[m].value) < 0 {
          FindKeyAppend(before, k, v, kids[m].value);
        }
      }
    }
  }

  lemma PruneMissingProper(r: Tree, s: Tree)
    requires Proper(r)
    ensures Proper(PruneMissing(r, s))
  {
    hide TrimSpace;
    if r.kind == Mapping && s.kind == Mapping {
      KeepProper(r.kids, TrimmedKeys(s.kids), |r.kids|);
    }
  }

  // ---- Merging -----------------------------------------------------------------------------

  // Whatever is merged into whatever, the result is proper again.
  lemma {:induction false} MergeProper(path: seq<string>, d: Tree, s: Tree)
    requires Proper(d) && Proper(s)
    ensures Proper(MergeNode(path, d, s))
    decreases s, 2
  {
    hide TrimSpace;
    match s.kind
    case Mapping =>
      if d.kind == Mapping {
        MergePairsProper(path, d.kids, s, 0);
      } else {
        AlikeSelfKids(path, d, s);
      }
    case Sequence =>
      var r := MergeNode(path, d, s);
      if !(d.kind == Scalar && d.tag == "!!null" && |s.kids| == 0) {
        forall i | 0 <= i < |s.kids| ensures Proper(r.kids[i]) {
          MergeItemProper(path, d, s, i);
        }
      }
    case _ =>
  }

  lemma {:induction false} MergeItemProper(path: seq<string>, d: Tree, s: Tree, i: nat)
    requires Proper(d) && Proper(s) && s.kind == Sequence && i < |s.kids|
    requires !(d.kind == Scalar && d.tag == "!!null" && |s.kids| == 0)
    ensures Proper(MergeNode(path, d, s).kids[i])
    decreases s, 0
  {
    hide TrimSpace;
    MergedItem(path, d, s, i);
    var prior := ItemPrior(Was(d), s, i);
    if prior.Was? {
      MergeProper(path, prior.d, s.kids[i]);
      PruneMissingProper(MergeNode(path, prior.d, s.kids[i]), s.kids[i]);
    }
  }

  lemma {:induction false} MergePairsProper(path: seq<string>, dk: seq<Tree>, s: Tree, i: nat)
    requires ProperPairs(dk) && Proper(s) && s.kind == Mapping && i % 2 == 0
    ensures ProperPairs(MergePairs(path, dk, s, i))
    decreases s, 1, |s.kids| - i
  {
    hide TrimSpace;
    if i + 1 < |s.kids| {
      MergePairProper(path, dk, s, i);
      MergePairsProper(path, MergePair(path, dk, s, i), s, i + 2);
    }
  }

  lemma {:induction false} MergePairProper(path: seq<string>, dk: seq<Tree>, s: Tree, i: nat)
    requires ProperPairs(dk) && Proper(s) && s.kind == Mapping && i % 2 == 0 && i + 1 < |s.kids|
    ensures ProperPairs(MergePair(path, dk, s, i))
    decreases s, 0
  {
    hide TrimSpace, IsDefault, Prune;
    var sk, sv := s.kids[i], s.kids[i + 1];
    var child := path + [sk.value];
    var idx := FindKey(dk, sk.value);
    if idx >= 0 {
      MergeProper(child, dk[idx + 1], sv);
      ReplaceValue(dk, idx, MergeNode(child, dk[idx + 1], sv));
    } else if !IsDefault(child, Prune(child, sv)) {
      PruneProper(child, sv);
      AppendPair(dk, sk, Prune(child, sv));
    }
  }

  // ---- Whole pairs stay whole ----------------------------------------------------------------

  predicate AllWhole(ts: seq<Tree>)
  {
    forall i :: 0 <= i < |ts| ==> WholePairs(ts[i])
  }

  lemma {:induction false} PruneWhole(path: seq<string>, t: Tree)
    requires WholePairs(t)
    ensures WholePairs(Prune(path, t))
    decreases t, 1
  {
    if t.kind == Mapping {
      PrunePairsWhole(path, t, |t.kids|);
      PrunePairsEven(path, t, |t.kids|);
    } else if t.kind == Sequence {
      forall i | 0 <= i < |t.kids| ensures WholePairs(Prune(path, t.kids[i])) { PruneWhole(path, t.kids[i]); }
    }
  }

  lemma {:induction false} PrunePairsWhole(path: seq<string>, t: Tree, n: nat)
    requires WholePairs(t) && n <= |t.kids|
    ensures AllWhole(PrunePairs(path, t, n))
    decreases t, 0, n
  {
    hide IsDefault, IsEmptied;
    if n >= 2 {
      PrunePairsWhole(path, t, if n % 2 == 1 then n - 1 else n - 2);
      if n % 2 == 0 && Survives(path, t, n - 2) {
        PruneWhole(path + [t.kids[n - 2].value], t.kids[n - 1]);
      }
    }
  }

  lemma {:induction false} KeepWhole(kids: seq<Tree>, keep: set<string>, n: nat)
    requires AllWhole(kids) && n <= |kids|
    ensures AllWhole(KeepKeys(kids, keep, n))
    decreases n
  {
    hide TrimSpace;
    if n > 0 {
      KeepWhole(kids, keep, if n % 2 == 1 then n - 1 else n - 2);
    }
  }

  lemma PruneMissingWhole(r: Tree, s: Tree)
    requires WholePairs(r)
    ensures WholePairs(PruneMissing(r, s))
  {
    if r.kind == Mapping && s.kind == Mapping {
      KeepWhole(r.kids, TrimmedKeys(s.kids), |r.kids|);
      KeepEven(r.kids, TrimmedKeys(s.kids), |r.kids|);
    }
  }

  // Whatever is merged into whatever, mappings have whole pairs again.
  lemma {:induction false} MergeWhole(path: seq<string>, d: Tree, s: Tree)
    requires WholePairs(d) && WholePairs(s)
    ensures WholePairs(MergeNode(path, d, s))
    decreases s, 2
  {
    match s.kind
    case Mapping => MergePairsWhole(path, if d.kind == Mapping then d.kids else s.kids, s, 0);
    case Sequence =>
      var r := MergeNode(path, d, s);
      if !(d.kind == Scalar && d.tag == "!!null" && |s.kids| == 0) {
        forall i | 0 <= i < |s.kids| ensures WholePairs(r.kids[i]) {
          MergeItemWhole(path, d, s, i);
        }
      }
    case _ =>
  }

  lemma {:induction false} MergeItemWhole(path: seq<string>, d: Tree, s: Tree, i: nat)
    requires WholePairs(d) && WholePairs(s) && s.kind == Sequence && i < |s.kids|
    requires !(d.kind == Scalar && d.tag == "!!null" && |s.kids| == 0)
    ensures WholePairs(MergeNode(path, d, s).kids[i])
    decreases s, 0
  {
    MergedItem(path, d, s, i);
    var prior := ItemPrior(Was(d), s, i);
    if prior.Was? {
      MergeWhole(path, prior.d, s.kids[i]);
      PruneMissingWhole(MergeNode(path, prior.d, s.kids[i]), s.kids[i]);
    }
  }

  lemma {:induction false} MergePairsWhole(path: seq<string>, dk: seq<Tree>, s: Tree, i: nat)
    requires AllWhole(dk) && |dk| % 2 == 0 && WholePairs(s)
    ensures AllWhole(MergePairs(path, dk, s, i)) && |MergePairs(path, dk, s, i)| % 2 == 0
    decreases s, 1, |s.kids| - i
  {
    if i + 1 < |s.kids| {
      MergePairWhole(path, dk, s, i);
      MergePairsWhole(path, MergePair(path, dk, s, i), s, i + 2);
    }
  }

  lemma {:induction false} MergePairWhole(path: seq<string>, dk: seq<Tree>, s: Tree, i: nat)
    requires AllWhole(dk) && |dk| % 2 == 0 && WholePairs(s) && i + 1 < |s.kids|
    ensures AllWhole(MergePair(path, dk, s, i)) && |MergePair(path, dk, s, i)| % 2 == 0
    decreases s, 0
  {
    hide IsDefault, Prune;
    var sk, sv := s.kids[i], s.kids[i + 1];
    var child := path + [sk.value];
    var idx := FindKey(dk, sk.value);
    if idx >= 0 {
      MergeWhole(child, dk[idx + 1], sv);
    } else {
      PruneWhole(child, sv);
    }
  }

  // Configs can be saved over and over: each merge carries all that its src says, whatever
  // was merged before.
  lemma MergeAgain(path: seq<string>, d: Tree, s: Tree, next: Tree)
    requires WholePairs(d) && Proper(s) && Proper(next)
    ensures WholePairs(MergeNode(path, d, s))
    ensures var was := MergeNode(path, d, s); Carries(path, Was(was), next, MergeNode(path, was, next))
  {
    ProperPairsWhole(s);
    MergeWhole(path, d, s);
    MergeCarries(path, MergeNode(path, d, s), next);
  }
}
