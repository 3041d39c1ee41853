// Copies decide like their originals: everything the merge looks at is unchanged when
// nodes are replaced by copies.
module YamlCopied {
  import opened Text
  import opened YamlTree
  import opened YamlMeaning
  import opened YamlHeap
  import opened YamlStale

  ghost predicate AllCopied(rs: seq<Tree>, es: seq<Tree>, src: set<Node>)
  {
    |rs| == |es| && forall i :: 0 <= i < |rs| ==> Copied(rs[i], es[i], src)
  }

  lemma {:induction false} CopiedZero(r: Tree, e: Tree, src: set<Node>)
    requires Copied(r, e, src)
    ensures IsZero(r) == IsZero(e)
    decreases r
  {
    forall i | 0 <= i < |r.kids|
      ensures IsZero(r.kids[i]) == IsZero(e.kids[i]) { CopiedZero(r.kids[i], e.kids[i], src); }
  }

  lemma CopiedDefault(path: seq<string>, r: Tree, e: Tree, src: set<Node>)
    requires Copied(r, e, src)
    ensures IsDefault(path, r) == IsDefault(path, e)
  {
    CopiedZero(r, e, src);
  }

  lemma {:induction false} CopiedPrune(path: seq<string>, r: Tree, e: Tree, src: set<Node>)
    requires Copied(r, e, src)
    ensures Copied(Prune(path, r), Prune(path, e), src)
    decreases r, 1
  {
    if r.kind == Mapping {
      CopiedPrunePairs(path, r, e, |r.kids|, src);
    } else if r.kind == Sequence {
      forall i | 0 <= i < |r.kids| ensures Copied(Prune(path, r.kids[i]), Prune(path, e.kids[i]), src) {
        CopiedPrune(path, r.kids[i], e.kids[i], src);
      }
    }
  }

  lemma {:induction false} CopiedPrunePairs(path: seq<string>, r: Tree, e: Tree, n: nat, src: set<Node>)
    requires Copied(r, e, src) && n <= |r.kids|
    ensures AllCopied(PrunePairs(path, r, n), PrunePairs(path, e, n), src)
    decreases r, 0, n
  {
    hide IsDefault, IsEmptied, Prune;
    if n >= 2 {
      if n % 2 == 1 {
        CopiedPrunePairs(path, r, e, n - 1, src);
      } else {
        CopiedPrunePairs(path, r, e, n - 2, src);
        assert Copied(r.kids[n - 2], e.kids[n - 2], src) && Copied(r.kids[n - 1], e.kids[n - 1], src);
        var child := path + [r.kids[n - 2].value];
        CopiedDefault(child, r.kids[n - 1], e.kids[n - 1], src);
        CopiedPrune(child, r.kids[n - 1], e.kids[n - 1], src);
        CopiedEmptied(Prune(child, r.kids[n - 1]), Prune(child, e.kids[n - 1]), src);
      }
    }
  }

  lemma CopiedEmptied(r: Tree, e: Tree, src: set<Node>)
    requires Copied(r, e, src)
    ensures IsEmptied(r) == IsEmptied(e)
  {
  }

  lemma SameValue(r: Tree, e: Tree, src: set<Node>)
    requires Copied(r, e, src)
    ensures r.value == e.value
  {
  }

  lemma {:induction false} CopiedKeepKeys(rs: seq<Tree>, es: seq<Tree>, keep: set<string>, n: nat, src: set<Node>)
    requires AllCopied(rs, es, src) && n <= |rs|
    ensures AllCopied(KeepKeys(rs, keep, n), KeepKeys(es, keep, n), src)
    decreases n
  {
    hide TrimSpace, Copied;
    if n > 0 {
      var m := if n % 2 == 1 then n - 1 else n - 2;
      assert rs[m].value == es[m].value by { SameValue(rs[m], es[m], src); }
      CopiedKeepKeys(rs, es, keep, m, src);
    }
  }

  lemma CopiedPruneMissing(r: Tree, e: Tree, s: Tree, src: set<Node>)
    requires Copied(r, e, src)
    ensures Copied(PruneMissing(r, s), PruneMissing(e, s), src)
  {
    CopiedKeepKeys(r.kids, e.kids, TrimmedKeys(s.kids), |r.kids|, src);
  }

  lemma CopiedFindKey(rs: seq<Tree>, es: seq<Tree>, key: string, src: set<Node>)
    requires AllCopied(rs, es, src)
    ensures FindKey(rs, key) == FindKey(es, key)
  {
    FindKeySame(rs, es, key);
  }

  lemma {:induction false} CopiedProper(r: Tree, e: Tree, src: set<Node>)
    requires Copied(r, e, src) && Proper(e)
    ensures Proper(r)
    decreases r
  {
    forall i | 0 <= i < |r.kids| ensures Proper(r.kids[i]) { CopiedProper(r.kids[i], e.kids[i], src); }
  }

  lemma {:induction false} CopiedWhole(r: Tree, e: Tree, src: set<Node>)
    requires Copied(r, e, src) && WholePairs(e)
    ensures WholePairs(r)
    decreases r
  {
    forall i | 0 <= i < |r.kids| ensures WholePairs(r.kids[i]) { CopiedWhole(r.kids[i], e.kids[i], src); }
  }

  // What a tree carries, a copy of it carries.
  lemma {:induction false} CopiedCarries(path: seq<string>, prior: Prior, s: Tree, e: Tree, r: Tree, src: set<Node>)
    requires Copied(r, e, src) && Carries(path, prior, s, e)
    ensures Carries(path, prior, s, r)
    decreases s
  {
    match s.kind
    case Sequence =>
      if e.kind == Sequence && |e.kids| == |s.kids|
          && (forall i :: 0 <= i < |s.kids| ==> Carries(path, ItemPrior(prior, s, i), s.kids[i], e.kids[i])) {
        forall i | 0 <= i < |s.kids| ensures Carries(path, ItemPrior(prior, s, i), s.kids[i], r.kids[i]) {
          CopiedCarries(path, ItemPrior(prior, s, i), s.kids[i], e.kids[i], r.kids[i], src);
        }
      }
    case Mapping =>
      forall i | 0 <= i && i + 1 < |s.kids| && i % 2 == 0 ensures CarriesKey(path, prior, s, r, i) {
        assert CarriesKey(path, prior, s, e, i);
        var key := s.kids[i].value;
        CopiedFindKey(r.kids, e.kids, key, src);
        var at := FindKey(e.kids, key);
        if at >= 0 {
          CopiedCarries(path + [key], KeyPrior(prior, key), s.kids[i + 1], e.kids[at + 1], r.kids[at + 1], src);
        }
      }
    case _ =>
  }

  // What is not stale in a tree is not stale in a copy of it.
  lemma {:induction false} CopiedStale(s: Tree, e: Tree, r: Tree, src: set<Node>)
    requires Copied(r, e, src) && NothingStale(s, e)
    ensures NothingStale(s, r)
    decreases s
  {
    hide NoOtherKeys;
    match s.kind
    case Sequence =>
      if e.kind == Sequence {
        forall i | 0 <= i < |s.kids|
          ensures s.kids[i].kind == Mapping && r.kids[i].kind == Mapping ==> NoOtherKeys(s.kids[i], r.kids[i])
          ensures NothingStale(s.kids[i], r.kids[i])
        {
          CopiedKeys(s.kids[i], e.kids[i], r.kids[i], src);
          CopiedStale(s.kids[i], e.kids[i], r.kids[i], src);
        }
      }
    case Mapping =>
      forall i, m | SamePair(s, r, i, m) ensures NothingStale(s.kids[i + 1], r.kids[m + 1]) {
        assert SamePair(s, e, i, m);
        CopiedStale(s.kids[i + 1], e.kids[m + 1], r.kids[m + 1], src);
      }
    case _ =>
  }

  lemma CopiedKeys(s: Tree, e: Tree, r: Tree, src: set<Node>)
    requires Copied(r, e, src)
    ensures NoOtherKeys(s, e) ==> NoOtherKeys(s, r)
  {
    hide HasKey;
    forall m | 0 <= m < |r.kids| ensures r.kids[m].value == e.kids[m].value { SameValue(r.kids[m], e.kids[m], src); }
  }
}
