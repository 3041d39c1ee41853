// A replaced node of dst holds copies of src's nodes where the functions of YamlTree keep
// src's nodes themselves. The merge goes on the same way with either.
module YamlLike {
  import opened Text
  import opened YamlTree
  import opened YamlMeaning
  import opened YamlHeap

  // The same tree, except that some nodes of x stand for copies of nodes of src in y.
  ghost predicate Like(x: Tree, y: Tree, src: set<Node>)
    decreases x
  {
    && x.kind == y.kind && x.tag == y.tag && x.value == y.value && x.style == y.style && x.note == y.note
        && x.alias == y.alias
    && (x.node == y.node || (y.node in src && x.node !in src))
    && |x.kids| == |y.kids|
    && forall i :: 0 <= i < |x.kids| ==> Like(x.kids[i], y.kids[i], src)
  }

  ghost predicate AllLike(xs: seq<Tree>, ys: seq<Tree>, src: set<Node>)
  {
    |xs| == |ys| && forall i :: 0 <= i < |xs| ==> Like(xs[i], ys[i], src)
  }

  lemma {:induction false} LikeSelf(t: Tree, src: set<Node>)
    ensures Like(t, t, src)
    decreases t
  {
    forall i | 0 <= i < |t.kids| ensures Like(t.kids[i], t.kids[i], src) { LikeSelf(t.kids[i], src); }
  }

  lemma AllLikeSelf(ts: seq<Tree>, src: set<Node>)
    ensures AllLike(ts, ts, src)
  {
    forall i | 0 <= i < |ts| ensures Like(ts[i], ts[i], src) { LikeSelf(ts[i], src); }
  }

  lemma {:induction false} CopiedLike(r: Tree, e: Tree, src: set<Node>)
    requires Copied(r, e, src)
    ensures Like(r, e, src)
    decreases r
  {
    forall i | 0 <= i < |r.kids| ensures Like(r.kids[i], e.kids[i], src) { CopiedLike(r.kids[i], e.kids[i], src); }
  }

  // What describes x also describes y.
  lemma {:induction false} CopiedOfLike(r: Tree, x: Tree, y: Tree, src: set<Node>)
    requires Copied(r, x, src) && Like(x, y, src)
    ensures Copied(r, y, src)
    decreases r
  {
    forall i | 0 <= i < |r.kids|
      ensures Copied(r.kids[i], y.kids[i], src) { CopiedOfLike(r.kids[i], x.kids[i], y.kids[i], src); }
  }

  lemma {:induction false} LikeAlike(x: Tree, y: Tree, src: set<Node>)
    requires Like(x, y, src)
    ensures Alike(x, y)
    decreases x
  {
    forall i | 0 <= i < |x.kids| ensures Alike(x.kids[i], y.kids[i]) { LikeAlike(x.kids[i], y.kids[i], src); }
  }

  // ---- Items are paired the same way -----------------------------------------------------

  lemma {:induction false} AlikeStructEqual(x: Tree, y: Tree, t: Tree)
    requires Alike(x, y)
    ensures StructEqual(x, t) <==> StructEqual(y, t)
    decreases x
  {
    if |x.kids| == |t.kids| {
      forall i | 0 <= i < |x.kids| ensures StructEqual(x.kids[i], t.kids[i]) <==> StructEqual(y.kids[i], t.kids[i]) {
        AlikeStructEqual(x.kids[i], y.kids[i], t.kids[i]);
      }
    }
  }

  predicate AllAlike(xs: seq<Tree>, ys: seq<Tree>)
  {
    |xs| == |ys| && forall i :: 0 <= i < |xs| ==> Alike(xs[i], ys[i])
  }

  lemma AlikeAccepts(stage: Stage, x: Tree, y: Tree, t: Tree)
    requires Alike(x, y)
    ensures Accepts(stage, x, t) <==> Accepts(stage, y, t)
  {
    hide Handle, StructEqual;
    AlikeHandle(x, y);
    AlikeStructEqual(x, y, t);
  }

  lemma {:induction false} AlikeFirst(stage: Stage, xs: seq<Tree>, ys: seq<Tree>, used: set<int>, t: Tree, i: nat)
    requires AllAlike(xs, ys) && i <= |xs|
    ensures FirstAccepted(stage, xs, used, t, i) == FirstAccepted(stage, ys, used, t, i)
    decreases |xs| - i
  {
    hide Accepts;
    if i < |xs| {
      AlikeAccepts(stage, xs[i], ys[i], t);
      AlikeFirst(stage, xs, ys, used, t, i + 1);
    }
  }

  lemma {:induction false} AlikePairing(xs: seq<Tree>, ys: seq<Tree>, sk: seq<Tree>, n: nat)
    requires AllAlike(xs, ys) && n <= |sk|
    ensures Pairing(xs, sk, n) == Pairing(ys, sk, n)
    decreases n
  {
    hide FirstAccepted;
    if n > 0 {
      AlikePairing(xs, ys, sk, n - 1);
      var used := Taken(Pairing(xs, sk, n - 1));
      AlikeFirst(ByIdentity, xs, ys, used, sk[n - 1], 0);
      AlikeFirst(ByStructure, xs, ys, used, sk[n - 1], 0);
    }
  }

  // ---- Merging goes the same way -----------------------------------------------------------

  lemma SameValue(x: Tree, y: Tree, src: set<Node>)
    requires Like(x, y, src)
    ensures x.value == y.value
  {
  }

  lemma {:induction false} LikeKeepKeys(xs: seq<Tree>, ys: seq<Tree>, keep: set<string>, n: nat, src: set<Node>)
    requires AllLike(xs, ys, src) && n <= |xs|
    ensures AllLike(KeepKeys(xs, keep, n), KeepKeys(ys, keep, n), src)
    decreases n
  {
    hide TrimSpace, Like;
    if n > 0 {
      var m := if n % 2 == 1 then n - 1 else n - 2;
      assert xs[m].value == ys[m].value by { SameValue(xs[m], ys[m], src); }
      LikeKeepKeys(xs, ys, keep, m, src);
    }
  }

  lemma LikePruneMissing(x: Tree, y: Tree, s: Tree, src: set<Node>)
    requires Like(x, y, src)
    ensures Like(PruneMissing(x, s), PruneMissing(y, s), src)
  {
    LikeKeepKeys(x.kids, y.kids, TrimmedKeys(s.kids), |x.kids|, src);
  }

  lemma {:induction false} LikeMerge(path: seq<string>, x: Tree, y: Tree, s: Tree, src: set<Node>)
    requires Like(x, y, src)
    ensures Like(MergeNode(path, x, s), MergeNode(path, y, s), src)
    decreases s, 3
  {
    hide MergePairs, MergeItems;
    AllLikeSelf(s.kids, src);
    match s.kind
    case Mapping => LikeMapping(path, if x.kind == Mapping then x else CopyShallow(x, s), if y.kind == Mapping then y
        else CopyShallow(y, s), s, src);
    case Sequence =>
      if x.kind == Sequence {
        LikeItems(path, x.kids, y.kids, s, src);
      } else {
        LikeItems(path, [], [], s, src);
      }
    case _ =>
  }

  lemma {:induction false} LikeMapping(path: seq<string>, x: Tree, y: Tree, s: Tree, src: set<Node>)
    requires Like(x, y, src)
    ensures Like(MergeMapping(path, x, s), MergeMapping(path, y, s), src)
    decreases s, 2
  {
    hide MergePairs;
    AllLikeSelf(s.kids, src);
    LikePairs(path, x.kids, y.kids, s, 0, src);
  }

  lemma {:induction false} LikePairs(path: seq<string>, xs: seq<Tree>, ys: seq<Tree>, s: Tree, i: nat, src: set<Node>)
    requires AllLike(xs, ys, src)
    ensures AllLike(MergePairs(path, xs, s, i), MergePairs(path, ys, s, i), src)
    decreases s, 1, |s.kids| - i
  {
    hide MergePair;
    if i + 1 < |s.kids| {
      LikePair(path, xs, ys, s, i, src);
      LikePairs(path, MergePair(path, xs, s, i), MergePair(path, ys, s, i), s, i + 2, src);
    }
  }

  lemma {:induction false} LikePair(path: seq<string>, xs: seq<Tree>, ys: seq<Tree>, s: Tree, i: nat, src: set<Node>)
    requires AllLike(xs, ys, src) && i + 1 < |s.kids|
    ensures AllLike(MergePair(path, xs, s, i), MergePair(path, ys, s, i), src)
    decreases s, 0
  {
    hide MergeNode, IsDefault, Prune;
    var sk, sv := s.kids[i], s.kids[i + 1];
    var child := path + [sk.value];
    FindKeySame(xs, ys, sk.value);
    var idx := FindKey(xs, sk.value);
    if idx >= 0 {
      LikeMerge(child, xs[idx + 1], ys[idx + 1], sv, src);
    } else {
      LikeSelf(sk, src);
      LikeSelf(Prune(child, sv), src);
    }
  }

  lemma {:induction false} LikeItems(path: seq<string>, xs: seq<Tree>, ys: seq<Tree>, s: Tree, src: set<Node>)
    requires AllLike(xs, ys, src)
    ensures AllLike(MergeItems(path, xs, s), MergeItems(path, ys, s), src)
    decreases s, 2
  {
    hide MergeNode, PruneMissing, Pairing;
    AllLikeSelf(s.kids, src);
    if |xs| > 0 {
      forall i | 0 <= i < |xs| ensures Alike(xs[i], ys[i]) { LikeAlike(xs[i], ys[i], src); }
      AlikePairing(xs, ys, s.kids, |s.kids|);
      var p := Pairing(xs, s.kids, |s.kids|);
      forall i | 0 <= i < |s.kids| ensures Like(MergeItem(path, xs, p[i], s, i), MergeItem(path, ys, p[i], s, i), src) {
        if p[i] >= 0 {
          LikeMerge(path, xs[p[i]], ys[p[i]], s.kids[i], src);
          LikePruneMissing(MergeNode(path, xs[p[i]], s.kids[i]), MergeNode(path, ys[p[i]], s.kids[i]), s.kids[i], src);
        }
      }
    }
  }
}
