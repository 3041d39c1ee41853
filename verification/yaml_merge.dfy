// The merge as the code runs it: dst's node objects rewritten in place. What is left
// below dst is exactly the tree that MergeNode computes, with src's nodes copied, and it
// therefore carries everything that src says.
module YamlMerge {
  import opened Text
  import opened YamlTree
  import opened YamlMeaning
  import opened YamlPairing
  import opened YamlAgain
  import opened YamlHeap
  import opened YamlPrune
  import opened YamlInPlace
  import opened YamlCopied
  import opened YamlLike
  import opened YamlStale

  // ---- Separate trees ------------------------------------------------------------------

  // src holds a tree without sharing or aliases; its nodes are among srcs.
  ghost predicate SourceNode(src: Node, s: Tree, srcs: set<Node>)
    reads Nodes(s)
  {
    Rep(s) && s.node == src && Distinct(s) && AliasFree(s) && Nodes(s) <= srcs
  }

  // dst and src hold separate trees.
  ghost predicate Ready(dst: Node, src: Node, d: Tree, s: Tree, srcs: set<Node>)
    reads Nodes(d), Nodes(s)
  {
    Rep(d) && d.node == dst && Distinct(d) && Nodes(d) !! srcs && SourceNode(src, s, srcs)
  }

  // dst holds r, which is e with src's nodes copied.
  ghost predicate Outcome(dst: Node, r: Tree, e: Tree, srcs: set<Node>)
    reads Nodes(r)
  {
    Rep(r) && r.node == dst && Distinct(r) && Copied(r, e, srcs)
  }

  lemma ReplaceNodes(ts: seq<Tree>, i: nat, r: Tree)
    requires i < |ts|
    ensures forall n :: n in NodesOf(ts[i := r]) ==> n in NodesOf(ts) || n in Nodes(r)
  {
    forall n | n in NodesOf(ts[i := r]) ensures n in NodesOf(ts) || n in Nodes(r) {
      var j := Where(ts[i := r], n);
      if j != i { ListInside(ts, j); }
    }
  }

  lemma ReplaceDistinct(ts: seq<Tree>, i: nat, r: Tree)
    requires i < |ts| && AllDistinct(ts) && Distinct(r)
    requires forall n :: n in Nodes(r) && n in NodesOf(ts) ==> n in Nodes(ts[i])
    ensures AllDistinct(ts[i := r])
  {
    var us := ts[i := r];
    forall j, k | 0 <= j < k < |us| ensures Nodes(us[j]) !! Nodes(us[k]) {
      assert Nodes(ts[j]) !! Nodes(ts[k]);
      ListInside(ts, j);
      ListInside(ts, k);
    }
  }

  // ---- Mappings ------------------------------------------------------------------------

  // A node whose children hold these trees, apart from each other, the node and src.
  ghost predicate Held(d: Tree, cur: seq<Tree>, srcs: set<Node>)
    reads d.node, NodesOf(cur)
  {
    && Fields(d) && Links(d.node.content, cur)
    && AllDistinct(cur) && d.node !in NodesOf(cur) && NodesOf(cur) !! srcs
  }

  // Merging the entry of an existing key: src goes into dst's node, which may itself be a copy
  // of what an earlier entry of src left there.
  lemma ExistingStep(path: seq<string>, s: Tree, srcs: set<Node>, cur: seq<Tree>, to: seq<Tree>, i: nat, r: Tree)
    requires i + 1 < |s.kids| && AllCopied(cur, to, srcs) && FindKey(cur, s.kids[i].value) >= 0
    requires Copied(r, MergeNode(path + [s.kids[i].value], cur[FindKey(cur, s.kids[i].value) + 1], s.kids[i + 1]), srcs)
    ensures AllCopied(cur[FindKey(cur, s.kids[i].value) + 1 := r], MergePair(path, to, s, i), srcs)
  {
    hide MergeNode, Copied, Like;
    var key, sv := s.kids[i].value, s.kids[i + 1];
    CopiedFindKey(cur, to, key, srcs);
    var at := FindKey(cur, key) + 1;
    CopiedLike(cur[at], to[at], srcs);
    LikeMerge(path + [key], cur[at], to[at], sv, srcs);
    CopiedOfLike(r, MergeNode(path + [key], cur[at], sv), MergeNode(path + [key], to[at], sv), srcs);
  }

  // What appending a new key does to a list of children.
  ghost predicate Grown(child: seq<string>, k: Tree, s: Tree, srcs: set<Node>, cur: seq<Tree>, next: seq<Tree>)
  {
    if IsDefault(child, Prune(child, s)) then next == cur
    else
      && |next| == |cur| + 2 && next[..|cur|] == cur
      && Copied(next[|cur|], k, srcs) && Copied(next[|cur| + 1], Prune(child, s), srcs)
  }

  lemma NewStep(path: seq<string>, s: Tree, srcs: set<Node>, cur: seq<Tree>, to: seq<Tree>, i: nat, next: seq<Tree>)
    requires i + 1 < |s.kids| && AllCopied(cur, to, srcs) && FindKey(cur, s.kids[i].value) < 0
    requires Grown(path + [s.kids[i].value], s.kids[i], s.kids[i + 1], srcs, cur, next)
    ensures AllCopied(next, MergePair(path, to, s, i), srcs)
  {
    hide IsDefault, Prune, Copied, FindKey, MergeNode;
    CopiedFindKey(cur, to, s.kids[i].value, srcs);
    assert forall m :: 0 <= m < |cur| && |next| > |cur| ==> next[m] == next[..|cur|][m];
  }

  lemma HeldRep(d: Tree, cur: seq<Tree>, srcs: set<Node>)
    requires Held(d, cur, srcs)
    ensures Rep(d.(kids := cur)) && Distinct(d.(kids := cur))
  {
  }

  lemma HeldStart(d: Tree, srcs: set<Node>)
    requires Rep(d) && Distinct(d) && Nodes(d) !! srcs
    ensures Held(d, d.kids, srcs) && AllCopied(d.kids, d.kids, srcs)
  {
    forall m | 0 <= m < |d.kids| ensures Copied(d.kids[m], d.kids[m], srcs) {
      KidInside(d, m);
      CopiedSelf(d.kids[m], srcs);
    }
  }

  // mergeMappingPreserve
  method MergeMappingPreserve(path: seq<string>, dst: Node, src: Node, ghost d: Tree, ghost s: Tree,
          ghost srcs: set<Node>)
    returns (ghost r: Tree)
    requires Ready(dst, src, d, s, srcs)
    modifies Nodes(d)
    ensures Outcome(dst, r, MergeMapping(path, d, s), srcs)
    ensures forall n :: n in Nodes(r) ==> n in Nodes(d) || fresh(n)
    decreases s, 2
  {
    if dst.kind != Mapping || src.kind != Mapping {
      r := CopyNodeShallow(dst, src, d, s, srcs);
      return;
    }
    ghost var cur := MergeKeys(path, dst, src, d, s, srcs);
    r := d.(kids := cur);
    HeldRep(d, cur, srcs);
  }

  // Its loop. `to` is what the first pairs of src make of dst's children.
  method MergeKeys(path: seq<string>, dst: Node, src: Node, ghost d: Tree, ghost s: Tree,
          ghost srcs: set<Node>) returns (ghost cur: seq<Tree>)
    requires Ready(dst, src, d, s, srcs) && d.kind == Mapping && s.kind == Mapping
    modifies Nodes(d)
    ensures Held(d, cur, srcs) && AllCopied(cur, MergePairs(path, d.kids, s, 0), srcs)
    ensures forall n :: n in NodesOf(cur) ==> n in Nodes(d) || fresh(n)
    decreases s, 1
  {
    cur := d.kids;
    ghost var to := d.kids;
    HeldStart(d, srcs);
    var i := 0;
    while i + 1 < |src.content|
      invariant 0 <= i && Rep(s) && Held(d, cur, srcs)
      invariant AllCopied(cur, to, srcs) && MergePairs(path, to, s, i) == MergePairs(path, d.kids, s, 0)
      invariant forall n :: n in NodesOf(cur) ==> n in Nodes(d) || fresh(n)
    {
      cur := MergeKey(path, dst, src, i, d, s, srcs, cur, to);
      to := MergePair(path, to, s, i);
      i := i + 2;
    }
  }

  // One pass of it.
  method MergeKey(path: seq<string>, dst: Node, src: Node, i: nat, ghost d: Tree, ghost s: Tree,
          ghost srcs: set<Node>, ghost cur: seq<Tree>, ghost to: seq<Tree>)
    returns (ghost next: seq<Tree>)
    requires d.kind == Mapping && d.node == dst && dst !in srcs && SourceNode(src, s, srcs) && i + 1 < |s.kids|
    requires Held(d, cur, srcs) && AllCopied(cur, to, srcs)
    modifies dst`content, NodesOf(cur)
    ensures Rep(s) && Held(d, next, srcs) && AllCopied(next, MergePair(path, to, s, i), srcs)
    ensures forall n :: n in NodesOf(next) ==> n in NodesOf(cur) || fresh(n)
    decreases s, 0
  {
    hide Copied, AllCopied, MergePair;
    Known(s);
    PairNodes(src, s, srcs, i);
    var sk, sv := src.content[i], src.content[i + 1];
    var idx := FindIn(dst, sk.value, d, cur, srcs);
    Unmoved(s);
    PairNodes(src, s, srcs, i);
    if idx >= 0 {
      ListInside(cur, idx + 1);
      ghost var r := MergeExisting(path + [sk.value], dst, sv, idx, d, s.kids[i + 1], srcs, cur);
      next := cur[idx + 1 := r];
      ExistingStep(path, s, srcs, cur, to, i, r);
    } else {
      next := AppendNew(path + [sk.value], dst, sk, sv, d, s.kids[i], s.kids[i + 1], srcs, cur);
      NewStep(path, s, srcs, cur, to, i, next);
    }
    Unmoved(s);
  }

  // The key and the value of src's pair i.
  lemma PairNodes(src: Node, s: Tree, srcs: set<Node>, i: nat)
    requires SourceNode(src, s, srcs) && i + 1 < |s.kids|
    ensures |src.content| == |s.kids| && Nodes(s.kids[i]) <= Nodes(s) && Nodes(s.kids[i + 1]) <= Nodes(s)
    ensures src.content[i] == s.kids[i].node && SourceNode(s.kids[i].node, s.kids[i], srcs)
    ensures src.content[i + 1] == s.kids[i + 1].node && SourceNode(s.kids[i + 1].node, s.kids[i + 1], srcs)
    ensures s.kids[i].node.value == s.kids[i].value
  {
    KidInside(s, i);
    KidInside(s, i + 1);
  }

  method FindIn(dst: Node, key: string, ghost d: Tree, ghost cur: seq<Tree>, ghost srcs: set<Node>) returns (idx: int)
    requires Held(d, cur, srcs) && d.node == dst && d.kind == Mapping
    ensures idx == FindKey(cur, key) && Held(d, cur, srcs)
  {
    KnownItems(cur);
    HeldRep(d, cur, srcs);
    idx := FindMapKeyIndex(dst, key, d.(kids := cur));
    LinksUnmoved(dst.content, cur, 0);
  }

  // The branch for a key that dst has.
  method MergeExisting(child: seq<string>, dst: Node, sv: Node, idx: nat, ghost d: Tree, ghost s: Tree,
          ghost srcs: set<Node>, ghost cur: seq<Tree>)
    returns (ghost r: Tree)
    requires Held(d, cur, srcs) && d.node == dst && idx + 1 < |cur| && SourceNode(sv, s, srcs)
    modifies Nodes(cur[idx + 1])
    ensures Held(d, cur[idx + 1 := r], srcs) && Copied(r, MergeNode(child, cur[idx + 1], s), srcs)
    ensures forall n :: n in NodesOf(cur[idx + 1 := r]) ==> n in NodesOf(cur) || fresh(n)
    decreases s, 4
  {
    KnownItems(cur);
    ListInside(cur, idx + 1);
    r := MergeNodePreserve(child, dst.content[idx + 1], sv, cur[idx + 1], s, srcs);
    LinksUpdate(dst.content, cur, idx + 1, r);
    ReplaceDistinct(cur, idx + 1, r);
    ReplaceNodes(cur, idx + 1, r);
  }

  // The branch for a new key: a pruned copy, unless that is a known default.
  method AppendNew(child: seq<string>, dst: Node, sk: Node, sv: Node, ghost d: Tree, ghost k: Tree, ghost s: Tree,
          ghost srcs: set<Node>, ghost cur: seq<Tree>)
    returns (ghost next: seq<Tree>)
    requires Held(d, cur, srcs) && d.node == dst && dst !in srcs
    requires SourceNode(sk, k, srcs) && SourceNode(sv, s, srcs)
    modifies dst`content
    ensures Held(d, next, srcs) && Grown(child, k, s, srcs, cur, next)
    ensures forall n :: n in NodesOf(next) ==> n in NodesOf(cur) || fresh(n)
  {
    Known(k);
    KnownItems(cur);
    next := cur;
    ghost var v;
    var candidate, known;
    candidate, known, v := NewValue(child, sv, s, srcs);
    LinksUnmoved(dst.content, cur, 0);
    Unmoved(k);
    if !known {
      next := AppendPair(dst, sk, candidate, d, k, v, srcs, cur);
    }
  }

  method NewValue(child: seq<string>, sv: Node, ghost t: Tree, ghost srcs: set<Node>)
    returns (candidate: Node, known: bool, ghost v: Tree)
    requires SourceNode(sv, t, srcs)
    ensures Outcome(candidate, v, Prune(child, t), srcs) && fresh(Nodes(v))
    ensures known == IsDefault(child, Prune(child, t))
  {
    ghost var c;
    candidate, c := CopyTree(sv, t, srcs);
    Known(c);
    PruneKnownDefaultsInNewNode(child, candidate, c);
    v := Prune(child, c);
    PruneNodes(child, c);
    PruneDistinct(child, c);
    CopiedPrune(child, c, t, srcs);
    Known(v);
    known := IsKnownDefaultValue(child, candidate, v);
    CopiedDefault(child, v, Prune(child, t), srcs);
  }

  method AppendPair(dst: Node, sk: Node, candidate: Node, ghost d: Tree, ghost k: Tree, ghost v: Tree,
          ghost srcs: set<Node>, ghost cur: seq<Tree>)
    returns (ghost next: seq<Tree>)
    requires SourceNode(sk, k, srcs)
    requires Rep(v) && v.node == candidate && Distinct(v)
    requires Fields(d) && d.node == dst && Links(dst.content, cur) && AllDistinct(cur) && dst !in NodesOf(cur)
    requires NodesOf(cur) !! Nodes(v) && dst !in Nodes(v)
    modifies dst`content
    ensures Fields(d) && Links(dst.content, next) && AllDistinct(next) && dst !in NodesOf(next)
    ensures |next| == |cur| + 2 && next[..|cur|] == cur && Copied(next[|cur|], k, srcs) && next[|cur| + 1] == v
    ensures forall n :: n in NodesOf(next) ==> n in NodesOf(cur) || n in Nodes(v) || fresh(n)
  {
    hide Distinct, Copied, Apart;
    KnownItems(cur);
    Known(v);
    ghost var kt;
    var key;
    key, kt := CopyTree(sk, k, srcs);
    Unmoved(v);
    LinksUnmoved(dst.content, cur, 0);
    next := cur + [kt, v];
    AppendNodes(cur, kt, v);
    AppendDistinct(cur, kt, v);
    LinksAppend(dst.content, cur, kt, v);
    SetContent(dst, dst.content + [key, candidate], d, next);
  }

  // ---- Sequences -----------------------------------------------------------------------

  lemma {:induction false} KeepNodes(kids: seq<Tree>, keep: set<string>, n: nat)
    requires n <= |kids| && AllDistinct(kids)
    ensures NodesOf(KeepKeys(kids, keep, n)) <= NodesTo(kids, n) && AllDistinct(KeepKeys(kids, keep, n))
    decreases n
  {
    if n > 0 {
      var m := if n % 2 == 1 then n - 1 else n - 2;
      KeepNodes(kids, keep, m);
      PrefixApart(kids, m, m);
      if n % 2 == 1 {
        AppendOneNodes(KeepKeys(kids, keep, m), kids[m]);
        AppendOneDistinct(KeepKeys(kids, keep, m), kids[m]);
      } else if TrimSpace(kids[m].value) in keep {
        PrefixApart(kids, m, m + 1);
        assert Nodes(kids[m]) !! Nodes(kids[m + 1]);
        AppendNodes(KeepKeys(kids, keep, m), kids[m], kids[m + 1]);
        AppendDistinct(KeepKeys(kids, keep, m), kids[m], kids[m + 1]);
      }
    }
  }

  lemma PruneMissingNodes(r: Tree, s: Tree)
    requires Distinct(r)
    ensures Nodes(PruneMissing(r, s)) <= Nodes(r) && Distinct(PruneMissing(r, s))
  {
    KeepNodes(r.kids, TrimmedKeys(s.kids), |r.kids|);
    assert NodesTo(r.kids, |r.kids|) == NodesOf(r.kids);
  }

  // A dst item merged with the src item that it was paired with.
  method MergePaired(path: seq<string>, item: Node, srcItem: Node, ghost d: Tree, ghost s: Tree, ghost srcs: set<Node>)
    returns (ghost r: Tree)
    requires Ready(item, srcItem, d, s, srcs)
    modifies Nodes(d)
    ensures Outcome(item, r, PruneMissing(MergeNode(path, d, s), s), srcs)
    ensures forall n :: n in Nodes(r) ==> n in Nodes(d) || fresh(n)
    decreases s, 4
  {
    Known(s);
    ghost var m := MergeNodePreserve(path, item, srcItem, d, s, srcs);
    Unmoved(s);
    if item.kind == Mapping && srcItem.kind == Mapping {
      PruneMissingMapKeys(item, srcItem, m, s);
    }
    r := PruneMissing(m, s);
    PruneMissingNodes(m, s);
    CopiedPruneMissing(m, MergeNode(path, d, s), s, srcs);
  }

  // The children of a sequence being merged: rs are the items done so far; the places
  // after them still hold the dst items that p chose, or nil.
  ghost predicate Items(content: seq<Node?>, ds: seq<Tree>, p: seq<int>, rs: seq<Tree>)
    reads NodesOf(ds), NodesOf(rs)
  {
    && |rs| <= |p| <= |content| && PairsOnce(ds, p)
    && AllDistinct(rs) && Links(content[..|rs|], rs)
    && forall k :: |rs| <= k < |p| ==>
         if p[k] < 0 then content[k] == null
         else content[k] == ds[p[k]].node && (ListInside(ds, p[k]); Pending(ds, rs, p[k]))
  }

  // A dst item that is still as it was, apart from everything done so far.
  ghost predicate Pending(ds: seq<Tree>, rs: seq<Tree>, j: nat)
    requires j < |ds|
    reads Nodes(ds[j])
  {
    Rep(ds[j]) && Nodes(ds[j]) !! NodesOf(rs)
  }

  // p chooses items of ds, none of them twice.
  ghost predicate PairsOnce(ds: seq<Tree>, p: seq<int>)
  {
    && (forall k :: 0 <= k < |p| ==> -1 <= p[k] < |ds|)
    && (forall j, k :: 0 <= j < k < |p| && p[j] >= 0 ==> p[j] != p[k])
  }

  // The nodes of `now` come from ds[m], if it was chosen, or are new.
  twostate predicate From(new ds: seq<Tree>, m: int, new now: Tree)
    requires m < |ds|
  {
    forall n: Node :: n in Nodes(now) ==> (m >= 0 && n in Nodes(ds[m])) || !old(allocated(n))
  }

  // Only ds[m], if it was chosen, and new nodes have changed.
  twostate predicate OnlyAt(new ds: seq<Tree>, m: int, new rs: seq<Tree>)
    requires m < |ds|
    reads NodesOf(rs), NodesOf(ds)
  {
    && (forall n: Node {:trigger n in NodesOf(rs)} :: n in NodesOf(rs) ==> old(allocated(n)) && unchanged(n))
    && (forall n: Node {:trigger n in NodesOf(ds)} ::
        n in NodesOf(ds) ==> old(allocated(n)) && ((m >= 0 && n in Nodes(ds[m])) || unchanged(n)))
  }

  // A pending item other than the one just done is still pending.
  twostate lemma PendingStep(new ds: seq<Tree>, new rs: seq<Tree>, m: int, new r: Tree)
    requires old(allocated(ds) && allocated(rs)) && Apart(ds) && m < |ds|
    requires From(ds, m, r) && OnlyAt(ds, m, rs)
    ensures forall j :: 0 <= j < |ds| && j != m && old(Pending(ds, rs, j)) ==> Pending(ds, rs + [r], j)
  {
    AppendOneNodes(rs, r);
    forall j | 0 <= j < |ds| && j != m && old(Pending(ds, rs, j)) ensures Pending(ds, rs + [r], j) {
      ListInside(ds, j);
      if m >= 0 {
        ChosenApart(ds, m, j);
      }
      Unmoved(ds[j]);
    }
  }

  // One more item done, with nothing else changed.
  twostate lemma ItemsStep(new content: seq<Node?>, new ds: seq<Tree>, p: seq<int>, new rs: seq<Tree>, new c: Node,
          new r: Tree)
    requires old(allocated(content) && allocated(ds) && allocated(rs)) && old(Items(content, ds, p, rs)) && |rs| < |p|
    requires Apart(ds)
    requires Rep(r) && Distinct(r) && r.node == c
    requires From(ds, p[|rs|], r) && OnlyAt(ds, p[|rs|], rs)
    ensures Items(content[|rs| := c], ds, p, rs + [r])
  {
    var i := |rs|;
    DoneStep(content, ds, p, rs, c, r);
    PendingStep(ds, rs, p[i], r);
    assert forall k :: i < k < |p| && p[k] >= 0 ==> p[k] != p[i];
  }

  twostate lemma DoneStep(new content: seq<Node?>, new ds: seq<Tree>, p: seq<int>, new rs: seq<Tree>, new c: Node,
          new r: Tree)
    requires old(allocated(content) && allocated(ds) && allocated(rs)) && old(Items(content, ds, p, rs)) && |rs| < |p|
    requires Rep(r) && Distinct(r) && r.node == c
    requires From(ds, p[|rs|], r) && OnlyAt(ds, p[|rs|], rs)
    ensures Links(content[|rs| := c][..|rs| + 1], rs + [r]) && AllDistinct(rs + [r])
  {
    var i := |rs|;
    KnownItems(rs);
    LinksUnmoved(content[..i], rs, 0);
    if p[i] >= 0 {
      assert Nodes(ds[p[i]]) !! NodesOf(rs);
    }
    AppendOneDistinct(rs, r);
    assert content[i := c][..i + 1] == content[..i] + [c];
  }

  lemma ChosenApart(ds: seq<Tree>, a: int, b: int)
    requires Apart(ds) && 0 <= a < |ds| && 0 <= b < |ds| && a != b
    ensures Nodes(ds[a]) !! Nodes(ds[b])
  {
    if a < b {
      assert Nodes(ds[a]) !! Nodes(ds[b]);
    } else {
      assert Nodes(ds[b]) !! Nodes(ds[a]);
    }
  }

  // What a sequence of src makes of dst's items, and which of them it takes over.
  ghost function Chosen(ds: seq<Tree>, s: Tree): (p: seq<int>)
  {
    if |ds| == 0 || |s.kids| == 0 then [] else Pairing(ds, s.kids, |s.kids|)
  }

  lemma ChosenOnce(ds: seq<Tree>, s: Tree)
    ensures PairsOnce(ds, Chosen(ds, s))
  {
    PairingInjective(ds, s.kids, |s.kids|);
  }

  // A sequence node e of dst, apart from src.
  ghost predicate Separate(e: Tree, srcs: set<Node>)
  {
    && e.kind == Sequence && e.node !in srcs && e.node !in NodesOf(e.kids)
    && AllDistinct(e.kids) && NodesOf(e.kids) !! srcs
  }

  // It, with the items rs done.
  ghost predicate Underway(e: Tree, s: Tree, srcs: set<Node>, rs: seq<Tree>)
    reads e.node, NodesOf(e.kids), NodesOf(rs)
  {
    && Fields(e) && Items(e.node.content, e.kids, Chosen(e.kids, s), rs)
    && e.node !in NodesOf(rs) && NodesOf(rs) !! srcs
  }

  method CopyItem(src: Node, i: nat, ghost s: Tree, ghost srcs: set<Node>) returns (c: Node, ghost r: Tree)
    requires SourceNode(src, s, srcs) && i < |s.kids|
    ensures Rep(r) && r.node == c && Distinct(r) && fresh(Nodes(r)) && Copied(r, s.kids[i], srcs)
  {
    KidInside(s, i);
    c, r := CopyTree(src.content[i], s.kids[i], srcs);
  }

  // A pass of the updating loop where no item of dst was chosen.
  method FillGap(dst: Node, src: Node, i: nat, ghost e: Tree, ghost s: Tree, ghost srcs: set<Node>, ghost rs: seq<Tree>)
    returns (ghost r: Tree)
    requires Separate(e, srcs) && e.node == dst && Underway(e, s, srcs, rs) && SourceNode(src, s, srcs)
    requires i == |rs| < |Chosen(e.kids, s)| && Chosen(e.kids, s)[i] < 0
    modifies dst`content
    ensures Underway(e, s, srcs, rs + [r]) && Rep(s) && |dst.content| == |old(dst.content)|
    ensures Copied(r, s.kids[i], srcs) && fresh(Nodes(r))
  {
    Known(s);
    KnownList(e.kids);
    KnownList(rs);
    var c;
    c, r := CopyItem(src, i, s, srcs);
    dst.content := dst.content[i := c];
    Unmoved(s);
    AppendOneNodes(rs, r);
    ItemsStep(old(dst.content), e.kids, Chosen(e.kids, s), rs, c, r);
  }

  // A pass where one was.
  method UpdateTaken(path: seq<string>, dst: Node, src: Node, i: nat, ghost e: Tree, ghost s: Tree,
          ghost srcs: set<Node>, ghost rs: seq<Tree>)
    returns (ghost r: Tree)
    requires Separate(e, srcs) && e.node == dst && Underway(e, s, srcs, rs) && SourceNode(src, s, srcs)
    requires i == |rs| < |Chosen(e.kids, s)| && Chosen(e.kids, s)[i] >= 0
    modifies Nodes(e.kids[Chosen(e.kids, s)[i]])
    ensures Underway(e, s, srcs, rs + [r]) && Rep(s) && dst.content == old(dst.content)
    ensures Copied(r, PruneMissing(MergeNode(path, e.kids[Chosen(e.kids, s)[i]], s.kids[i]), s.kids[i]), srcs)
    ensures forall n :: n in Nodes(r) ==> n in NodesOf(e.kids) || fresh(n)
    decreases s, 1, 0
  {
    Known(s);
    KnownList(e.kids);
    KnownList(rs);
    ghost var j := Chosen(e.kids, s)[i];
    KidInside(s, i);
    ListInside(e.kids, j);
    r := MergePaired(path, dst.content[i], src.content[i], e.kids[j], s.kids[i], srcs);
    Unmoved(s);
    AppendOneNodes(rs, r);
    ItemsStep(dst.content, e.kids, Chosen(e.kids, s), rs, r.node, r);
    SamePut(dst.content, i, r.node);
  }

  lemma SamePut(content: seq<Node?>, i: nat, n: Node)
    requires i < |content| && content[i] == n
    ensures content[i := n] == content
  {
  }

  // rs are copies of the first trees of es.
  ghost predicate CopiedPrefix(rs: seq<Tree>, es: seq<Tree>, srcs: set<Node>)
  {
    |rs| <= |es| && forall k :: 0 <= k < |rs| ==> Copied(rs[k], es[k], srcs)
  }

  lemma CopiedMore(rs: seq<Tree>, es: seq<Tree>, srcs: set<Node>, r: Tree)
    requires CopiedPrefix(rs, es, srcs) && |rs| < |es| && Copied(r, es[|rs|], srcs)
    ensures CopiedPrefix(rs + [r], es, srcs)
  {
  }

  // What item i of the merged list is.
  lemma ItemAt(path: seq<string>, ds: seq<Tree>, s: Tree, i: nat)
    requires i < |Chosen(ds, s)|
    ensures |Chosen(ds, s)| == |s.kids| && -1 <= Chosen(ds, s)[i] < |ds|
    ensures MergeItems(path, ds, s)[i] ==
            if Chosen(ds, s)[i] < 0 then s.kids[i]
                else PruneMissing(MergeNode(path, ds[Chosen(ds, s)[i]], s.kids[i]), s.kids[i])
  {
  }

  // The updating loop.
  method UpdateItems(path: seq<string>, dst: Node, src: Node, minContent: nat, ghost e: Tree, ghost s: Tree,
          ghost srcs: set<Node>)
    returns (ghost rs: seq<Tree>)
    requires Separate(e, srcs) && e.node == dst && Underway(e, s, srcs, []) && SourceNode(src, s, srcs)
    requires minContent == |Chosen(e.kids, s)|
    modifies dst`content, NodesOf(e.kids)
    ensures |rs| == minContent && Underway(e, s, srcs, rs) && Rep(s)
    ensures |dst.content| == |old(dst.content)|
    ensures CopiedPrefix(rs, MergeItems(path, e.kids, s), srcs)
    ensures forall n :: n in NodesOf(rs) ==> n in NodesOf(e.kids) || fresh(n)
    decreases s, 2, 0
  {
    hide Copied, Distinct, AliasFree, MergeNode, PruneMissing, MergeItems, Chosen;
    rs := [];
    for i := 0 to minContent
      invariant |rs| == i && Underway(e, s, srcs, rs) && Rep(s)
      invariant |dst.content| == |old(dst.content)|
      invariant CopiedPrefix(rs, MergeItems(path, e.kids, s), srcs)
      invariant forall n :: n in NodesOf(rs) ==> n in NodesOf(e.kids) || fresh(n)
    {
      ghost var r;
      ItemAt(path, e.kids, s, i);
      if dst.content[i] == null {
        r := FillGap(dst, src, i, e, s, srcs, rs);
      } else {
        ListInside(e.kids, Chosen(e.kids, s)[i]);
        r := UpdateTaken(path, dst, src, i, e, s, srcs, rs);
      }
      AppendOneNodes(rs, r);
      CopiedMore(rs, MergeItems(path, e.kids, s), srcs, r);
      rs := rs + [r];
    }
  }

  // One pass of the appending loop.
  method AppendItem(dst: Node, src: Node, i: nat, ghost e: Tree, ghost s: Tree, ghost srcs: set<Node>,
          ghost rs: seq<Tree>)
    returns (ghost r: Tree)
    requires e.node == dst && dst !in srcs && SourceNode(src, s, srcs) && Held(e, rs, srcs) && i == |rs| < |s.kids|
    modifies dst`content
    ensures Held(e, rs + [r], srcs) && Rep(s)
    ensures Copied(r, s.kids[i], srcs) && fresh(Nodes(r))
  {
    Known(s);
    KnownItems(rs);
    var c;
    c, r := CopyItem(src, i, s, srcs);
    Known(r);
    dst.content := dst.content + [c];
    Unmoved(s);
    HeldMore(e, rs, srcs, r);
  }

  twostate lemma HeldMore(new e: Tree, new rs: seq<Tree>, new srcs: set<Node>, new r: Tree)
    requires old(allocated(e) && allocated(rs) && allocated(srcs)) && old(Held(e, rs, srcs)) && Fields(e)
    requires forall i, n: Node {:trigger n in Nodes(rs[i])} ::
        0 <= i < |rs| && n in Nodes(rs[i]) ==> old(allocated(n)) && unchanged(n)
    requires Rep(r) && Distinct(r) && forall n: Node :: n in Nodes(r) ==> !old(allocated(n))
    requires e.node.content == old(e.node.content) + [r.node]
    ensures Held(e, rs + [r], srcs)
  {
    KnownItems(rs);
    AppendOneNodes(rs, r);
    AppendOneDistinct(rs, r);
    LinksUnmoved(old(e.node.content), rs, 0);
  }

  // The appending loop.
  method AppendItems(dst: Node, src: Node, ghost e: Tree, ghost s: Tree, ghost srcs: set<Node>,
          ghost done: seq<Tree>, ghost es: seq<Tree>)
    returns (ghost rs: seq<Tree>)
    requires e.node == dst && dst !in srcs && SourceNode(src, s, srcs) && Held(e, done, srcs)
    requires CopiedPrefix(done, es, srcs) && |es| == |s.kids| && es[|done|..] == s.kids[|done|..]
    modifies dst`content
    ensures Held(e, rs, srcs) && |rs| == |es| && CopiedPrefix(rs, es, srcs)
    ensures forall n :: n in NodesOf(rs) ==> n in NodesOf(done) || fresh(n)
  {
    rs := done;
    for i := |dst.content| to |src.content|
      invariant |rs| == i && Held(e, rs, srcs) && Rep(s)
      invariant |done| <= i && CopiedPrefix(rs, es, srcs)
      invariant forall n :: n in NodesOf(rs) ==> n in NodesOf(done) || fresh(n)
    {
      ghost var r := AppendItem(dst, src, i, e, s, srcs, rs);
      assert es[i] == es[|done|..][i - |done|] == s.kids[i];
      AppendOneNodes(rs, r);
      CopiedMore(rs, es, srcs, r);
      rs := rs + [r];
    }
  }

  ghost function Reordered(was: seq<Node?>, ds: seq<Tree>, s: Tree): seq<Node?>
  {
    if |ds| == 0 || |s.kids| == 0 then was else Ordered(ds, Pairing(ds, s.kids, |s.kids|))
  }

  // Right after the reordering nothing is done and every chosen item is pending.
  twostate lemma ReorderedStart(new e: Tree, new s: Tree, new srcs: set<Node>)
    requires old(allocated(e) && allocated(srcs)) && old(Held(e, e.kids, srcs)) && Fields(e)
    requires forall i, n: Node {:trigger n in Nodes(e.kids[i])} ::
        0 <= i < |e.kids| && n in Nodes(e.kids[i]) ==> old(allocated(n)) && unchanged(n)
    requires e.node.content == Reordered(old(e.node.content), e.kids, s)
    ensures Underway(e, s, srcs, [])
    ensures |Chosen(e.kids, s)| == if |s.kids| < |e.node.content| then |s.kids| else |e.node.content|
  {
    ChosenOnce(e.kids, s);
    forall j | 0 <= j < |e.kids| ensures Rep(e.kids[j]) {
      ListInside(e.kids, j);
      Unmoved(e.kids[j]);
    }
  }

  method StartItems(dst: Node, src: Node, ghost e: Tree, ghost s: Tree, ghost srcs: set<Node>)
    requires Separate(e, srcs) && e.node == dst && SourceNode(src, s, srcs) && Held(e, e.kids, srcs)
    modifies dst`content
    ensures Underway(e, s, srcs, []) && Rep(s)
    ensures |Chosen(e.kids, s)| == if |s.kids| < |dst.content| then |s.kids| else |dst.content|
  {
    Known(s);
    KnownItems(e.kids);
    ReorderSequenceForMerge(dst, src, e.kids, s);
    Unmoved(s);
    ReorderedStart(e, s, srcs);
  }

  // Items beyond those that were paired are copies of src's.
  lemma RestCopied(path: seq<string>, ds: seq<Tree>, s: Tree)
    ensures |Chosen(ds, s)| <= |s.kids| && MergeItems(path, ds, s)[|Chosen(ds, s)|..] == s.kids[|Chosen(ds, s)|..]
  {
  }

  // Items that src does not have are cut off.
  method Truncate(dst: Node, n: nat, ghost e: Tree, ghost s: Tree, ghost srcs: set<Node>, ghost rs: seq<Tree>)
    requires e.node == dst && Underway(e, s, srcs, rs) && |rs| == n
    modifies dst`content
    ensures Held(e, rs, srcs)
  {
    hide Chosen, PairsOnce, Pending;
    KnownItems(rs);
    dst.content := dst.content[..n];
    LinksUnmoved(dst.content, rs, 0);
  }

  // Everything from the reordering on: update, then append or truncate.
  method MergeItemsPreserve(path: seq<string>, dst: Node, src: Node, ghost e: Tree, ghost s: Tree,
          ghost srcs: set<Node>)
    returns (ghost rs: seq<Tree>)
    requires Separate(e, srcs) && e.node == dst && SourceNode(src, s, srcs) && Held(e, e.kids, srcs)
    modifies dst`content, NodesOf(e.kids)
    ensures Held(e, rs, srcs) && AllCopied(rs, MergeItems(path, e.kids, s), srcs)
    ensures forall n :: n in NodesOf(rs) ==> n in NodesOf(e.kids) || fresh(n)
    decreases s, 2, 1
  {
    hide MergeItems, Chosen, Distinct, Proper, Copied;
    StartItems(dst, src, e, s, srcs);
    var minContent := if |src.content| < |dst.content| then |src.content| else |dst.content|;
    rs := UpdateItems(path, dst, src, minContent, e, s, srcs);
    if |src.content| < |dst.content| {
      Truncate(dst, |src.content|, e, s, srcs, rs);
    } else {
      assert dst.content[..|rs|] == dst.content;
      RestCopied(path, e.kids, s);
      rs := AppendItems(dst, src, e, s, srcs, rs, MergeItems(path, e.kids, s));
    }
  }

  // The sequence case.
  method MergeSequence(path: seq<string>, dst: Node, src: Node, ghost d: Tree, ghost s: Tree, ghost srcs: set<Node>)
    returns (ghost r: Tree)
    requires Ready(dst, src, d, s, srcs) && s.kind == Sequence
    modifies Nodes(d)
    ensures Outcome(dst, r, MergeNode(path, d, s), srcs)
    ensures forall n :: n in Nodes(r) ==> n in Nodes(d) || fresh(n)
    decreases s, 3, 0
  {
    if dst.kind == Scalar && dst.tag == "!!null" && |src.content| == 0 {
      r := d;
      CopiedSelf(d, srcs);
      return;
    }
    ghost var e := d;
    if dst.kind != Sequence {
      e := EmptySequence(dst, src, d, s, srcs);
    }
    ghost var rs := MergeItemsPreserve(path, dst, src, e, s, srcs);
    HeldRep(e, rs, srcs);
    r := e.(kids := rs);
  }

  method EmptySequence(dst: Node, src: Node, ghost d: Tree, ghost s: Tree, ghost srcs: set<Node>)
    returns (ghost e: Tree)
    requires Ready(dst, src, d, s, srcs)
    modifies dst
    ensures e == d.(kind := Sequence, tag := "!!seq", kids := []) && Held(e, [], srcs) && Rep(s)
  {
    Known(s);
    dst.kind := Sequence;
    dst.tag := "!!seq";
    dst.content := [];
    e := d.(kind := Sequence, tag := "!!seq", kids := []);
    Unmoved(s);
  }

  // ---- Any node ------------------------------------------------------------------------

  // The scalar case: dst takes the tag and value, and keeps the rest.
  method MergeScalar(dst: Node, src: Node, ghost d: Tree, ghost s: Tree, ghost srcs: set<Node>) returns (ghost r: Tree)
    requires Ready(dst, src, d, s, srcs)
    modifies dst
    ensures Outcome(dst, r, d.(kind := s.kind, tag := s.tag, value := s.value), srcs)
    ensures Nodes(r) == Nodes(d)
  {
    KnownItems(d.kids);
    dst.kind := src.kind;
    dst.tag := src.tag;
    dst.value := src.value;
    LinksUnmoved(dst.content, d.kids, 0);
    r := d.(kind := s.kind, tag := s.tag, value := s.value);
    CopiedSelf(r, srcs);
  }

  // The mapping case.
  method MergeIntoMapping(path: seq<string>, dst: Node, src: Node, ghost d: Tree, ghost s: Tree, ghost srcs: set<Node>)
    returns (ghost r: Tree)
    requires Ready(dst, src, d, s, srcs) && s.kind == Mapping
    modifies Nodes(d)
    ensures Outcome(dst, r, MergeNode(path, d, s), srcs)
    ensures forall n :: n in Nodes(r) ==> n in Nodes(d) || fresh(n)
    decreases s, 3, 0
  {
    Known(s);
    ghost var e := d;
    if dst.kind != Mapping {
      e := CopyNodeShallow(dst, src, d, s, srcs);
      Unmoved(s);
    }
    r := MergeMappingPreserve(path, dst, src, e, s, srcs);
    if d.kind != Mapping {
      ReplacedMerge(path, d, s, srcs, e, r);
    }
  }

  // Merging goes on from the copies as it would from src's own nodes.
  lemma ReplacedMerge(path: seq<string>, d: Tree, s: Tree, srcs: set<Node>, e: Tree, r: Tree)
    requires s.kind == Mapping && d.kind != Mapping
    requires Copied(e, CopyShallow(d, s), srcs) && Copied(r, MergeMapping(path, e, s), srcs)
    ensures Copied(r, MergeNode(path, d, s), srcs)
  {
    var c := CopyShallow(d, s);
    CopiedLike(e, c, srcs);
    LikeMapping(path, e, c, s, srcs);
    CopiedOfLike(r, MergeMapping(path, e, s), MergeMapping(path, c, s), srcs);
  }

  // mergeNodePreserve
  method MergeNodePreserve(path: seq<string>, dst: Node, src: Node, ghost d: Tree, ghost s: Tree, ghost srcs: set<Node>)
    returns (ghost r: Tree)
    requires Ready(dst, src, d, s, srcs)
    modifies Nodes(d)
    ensures Outcome(dst, r, MergeNode(path, d, s), srcs)
    ensures forall n :: n in Nodes(r) ==> n in Nodes(d) || fresh(n)
    decreases s, 3
  {
    if src.kind == Mapping {
      r := MergeIntoMapping(path, dst, src, d, s, srcs);
    } else if src.kind == Sequence {
      r := MergeSequence(path, dst, src, d, s, srcs);
    } else if src.kind == Scalar || src.kind == Alias {
      r := MergeScalar(dst, src, d, s, srcs);
    } else if src.kind == Unset {
      r := d;
      CopiedSelf(d, srcs);
    } else {
      r := CopyNodeShallow(dst, src, d, s, srcs);
    }
  }

  // The merge of a generated config into the user's, whatever keys and aliases the user's
  // has: afterwards dst holds a tree that carries everything src says, built from dst's own
  // nodes and new ones only, and can be merged into again. Distinct and non-blank keys of the
  // user stay so.
  method MergeGenerated(dst: Node, src: Node, ghost d: Tree, ghost s: Tree) returns (ghost r: Tree)
    requires Ready(dst, src, d, s, Nodes(s)) && d.kind == Mapping && s.kind == Mapping
    modifies Nodes(d)
    ensures Rep(r) && r.node == dst && Distinct(r) && Rep(s)
    ensures Copied(r, MergeNode([], d, s), Nodes(s))
    ensures forall n :: n in Nodes(r) ==> n in Nodes(d) || fresh(n)
    ensures WholePairs(d) && Proper(s) ==> WholePairs(r) && Carries([], Was(d), s, r) && NothingStale(s, r)
    ensures Proper(d) && Proper(s) ==> Proper(r)
  {
    Known(s);
    r := MergeMappingPreserve([], dst, src, d, s, Nodes(s));
    Unmoved(s);
    if WholePairs(d) && Proper(s) {
      MergeCarries([], d, s);
      ProperPairsWhole(s);
      MergeWhole([], d, s);
      CopiedWhole(r, MergeNode([], d, s), Nodes(s));
      CopiedCarries([], Was(d), s, MergeNode([], d, s), r, Nodes(s));
      MergeNothingStale([], d, s);
      CopiedStale(s, MergeNode([], d, s), r, Nodes(s));
    }
    if Proper(d) && Proper(s) {
      MergeProper([], d, s);
      CopiedProper(r, MergeNode([], d, s), Nodes(s));
    }
  }
}
