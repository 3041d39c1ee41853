// The steps of the merge that rewrite single nodes: shallow replacement, reordering of
// sequences and removal of keys, each shown to leave the tree its function computes.
module YamlInPlace {
  import opened Text
  import opened YamlTree
  import opened YamlHeap
  import opened YamlPrune
  import opened YamlStale

  // ---- Replacing a node's content ------------------------------------------------------

  // The copies of a node's children.
  method CopyKids(src: Node, ghost s: Tree, ghost srcs: set<Node>) returns (content: seq<Node?>, ghost ts: seq<Tree>)
    requires Rep(s) && s.node == src && Distinct(s) && AliasFree(s) && Nodes(s) <= srcs
    ensures Links(content, ts) && AllDistinct(ts) && fresh(NodesOf(ts))
    ensures |ts| == |s.kids| && forall i :: 0 <= i < |ts| ==> Copied(ts[i], s.kids[i], srcs)
  {
    content, ts := [], [];
    Known(s);
    for i := 0 to |src.content|
      invariant Rep(s) && |ts| == i
      invariant Links(content, ts) && AllDistinct(ts) && fresh(NodesOf(ts))
      invariant forall j :: 0 <= j < i ==> Copied(ts[j], s.kids[j], srcs)
    {
      KidInside(s, i);
      content, ts := AppendCopy(content, src.content[i], ts, s.kids[i], srcs);
    }
  }

  // One more copy at the end of a list of children.
  method AppendCopy(content: seq<Node?>, n: Node, ghost ts: seq<Tree>, ghost t: Tree, ghost srcs: set<Node>)
    returns (more: seq<Node?>, ghost rs: seq<Tree>)
    requires Links(content, ts) && AllDistinct(ts)
    requires Rep(t) && t.node == n && Distinct(t) && AliasFree(t) && Nodes(t) <= srcs
    ensures |rs| == |ts| + 1 && rs[..|ts|] == ts && Copied(rs[|ts|], t, srcs)
    ensures Links(more, rs) && AllDistinct(rs)
    ensures forall x :: x in NodesOf(rs) ==> x in NodesOf(ts) || fresh(x)
  {
    KnownItems(ts);
    ghost var r;
    var c;
    c, r := CopyTree(n, t, srcs);
    LinksUnmoved(content, ts, 0);
    more, rs := content + [c], ts + [r];
    AppendOneDistinct(ts, r);
    AppendOneNodes(ts, r);
  }

  lemma AppendOneNodes(ts: seq<Tree>, a: Tree)
    ensures NodesOf(ts + [a]) == NodesOf(ts) + Nodes(a)
  {
    var all := ts + [a];
    forall x | x in NodesOf(all) ensures x in NodesOf(ts) + Nodes(a) {
      var i := Where(all, x);
      if i < |ts| { assert all[i] == ts[i]; }
    }
    forall x | x in NodesOf(ts) ensures x in NodesOf(all) {
      var i := Where(ts, x);
      assert all[i] == ts[i];
    }
    assert all[|ts|] == a;
  }

  // copyNodeShallow
  method CopyNodeShallow(dst: Node, src: Node, ghost d: Tree, ghost s: Tree, ghost srcs: set<Node>)
    returns (ghost r: Tree)
    requires Fields(d) && d.node == dst && dst !in srcs
    requires Rep(s) && s.node == src && Distinct(s) && AliasFree(s) && Nodes(s) <= srcs
    modifies dst
    ensures Rep(r) && r.node == dst && Distinct(r) && fresh(Nodes(r) - {dst})
    ensures Copied(r, CopyShallow(d, s), srcs)
  {
    Known(s);
    dst.kind := src.kind;
    dst.tag := src.tag;
    dst.value := src.value;
    Unmoved(s);
    var content, ts := CopyKids(src, s, srcs);
    r := CopyShallow(d, s).(kids := ts);
    SetContent(dst, content, r, ts);
  }

  // ---- Pairing -----------------------------------------------------------------------

  ghost predicate UsedMarks(used: seq<bool>, taken: set<int>, n: nat)
  {
    |used| == n && forall i :: 0 <= i < n ==> (used[i] <==> i in taken)
  }

  // matchSequenceElement
  method MatchSequenceElement(original: seq<Node?>, used: seq<bool>, target: Node, ghost ds: seq<Tree>,
          ghost taken: set<int>, ghost t: Tree)
    returns (idx: int)
    requires Links(original, ds) && Rep(t) && t.node == target && AliasFree(t) && UsedMarks(used, taken, |ds|)
    ensures idx == Match(ds, taken, t)
  {
    KnownItems(ds);
    Known(t);
    idx := -1;
    match target.kind {
      case Mapping =>
        var id := SequenceElementIdentity(target, t);
        LinksUnmoved(original, ds, 0);
        if id != "" {
          idx := FirstMapping(original, used, id, ds, taken, t);
        }
      case Scalar =>
        var val := TrimSpace(target.value);
        if val != "" {
          idx := FirstScalarNode(original, used, val, ds, taken, t);
        }
      case _ =>
    }
    if idx < 0 {
      Unmoved(t);
      LinksUnmoved(original, ds, 0);
      idx := FirstStructural(original, used, target, ds, taken, t);
    }
  }

  method FirstMapping(original: seq<Node?>, used: seq<bool>, id: string, ghost ds: seq<Tree>, ghost taken: set<int>,
          ghost t: Tree)
    returns (idx: int)
    requires Links(original, ds) && UsedMarks(used, taken, |ds|) && t.kind == Mapping && Handle(t) == id
    ensures idx == FirstAccepted(ByIdentity, ds, taken, t, 0)
  {
    KnownItems(ds);
    for i := 0 to |original|
      invariant Links(original, ds)
      invariant FirstAccepted(ByIdentity, ds, taken, t, 0) == FirstAccepted(ByIdentity, ds, taken, t, i)
    {
      if !used[i] && original[i].kind == Mapping {
        var other := SequenceElementIdentity(original[i], ds[i]);
        LinksUnmoved(original, ds, 0);
        if other == id {
          return i;
        }
      }
    }
    return -1;
  }

  method FirstScalarNode(original: seq<Node?>, used: seq<bool>, val: string, ghost ds: seq<Tree>,
          ghost taken: set<int>, ghost t: Tree)
    returns (idx: int)
    requires Links(original, ds) && UsedMarks(used, taken, |ds|) && t.kind == Scalar && Handle(t) == val
    ensures idx == FirstAccepted(ByIdentity, ds, taken, t, 0)
  {
    for i := 0 to |original|
      invariant FirstAccepted(ByIdentity, ds, taken, t, 0) == FirstAccepted(ByIdentity, ds, taken, t, i)
    {
      if !used[i] && original[i].kind == Scalar && TrimSpace(original[i].value) == val {
        return i;
      }
    }
    return -1;
  }

  method FirstStructural(original: seq<Node?>, used: seq<bool>, target: Node, ghost ds: seq<Tree>,
          ghost taken: set<int>, ghost t: Tree)
    returns (idx: int)
    requires Links(original, ds) && Rep(t) && t.node == target && AliasFree(t) && UsedMarks(used, taken, |ds|)
    ensures idx == FirstAccepted(ByStructure, ds, taken, t, 0)
  {
    KnownItems(ds);
    Known(t);
    for i := 0 to |original|
      invariant Links(original, ds) && Rep(t)
      invariant FirstAccepted(ByStructure, ds, taken, t, 0) == FirstAccepted(ByStructure, ds, taken, t, i)
    {
      if !used[i] {
        var eq := NodesStructurallyEqual(original[i], target, ds[i], t);
        LinksUnmoved(original, ds, 0);
        Unmoved(t);
        if eq {
          return i;
        }
      }
    }
    return -1;
  }

  // The children of a reordered sequence: dst's paired node for each item of src, or nil.
  ghost function Ordered(ds: seq<Tree>, p: seq<int>): seq<Node?>
    requires forall i :: 0 <= i < |p| ==> -1 <= p[i] < |ds|
  {
    seq(|p|, i requires 0 <= i < |p| => if p[i] < 0 then null else ds[p[i]].node)
  }

  // reorderSequenceForMerge
  method ReorderSequenceForMerge(dst: Node, src: Node, ghost ds: seq<Tree>, ghost s: Tree)
    requires Links(dst.content, ds) && Rep(s) && s.node == src && AliasFree(s)
    requires dst !in NodesOf(ds) && dst !in Nodes(s)
    modifies dst`content
    ensures if |ds| == 0 || |s.kids| == 0 then dst.content == old(dst.content)
            else dst.content == Ordered(ds, Pairing(ds, s.kids, |s.kids|))
  {
    if |dst.content| == 0 {
      return;
    }
    if |src.content| == 0 {
      return;
    }
    dst.content := Arrange(dst.content, src, ds, s);
  }

  // The table after i items: the paired nodes so far, nil from there on.
  ghost predicate ArrangedTo(ordered: seq<Node?>, ds: seq<Tree>, sk: seq<Tree>, i: nat)
    requires i <= |sk|
  {
    ordered == Ordered(ds, Pairing(ds, sk, i)) + seq(|sk| - i, _ => null)
  }

  lemma ArrangedNone(ordered: seq<Node?>, ds: seq<Tree>, sk: seq<Tree>)
    requires ordered == seq(|sk|, _ => null)
    ensures ArrangedTo(ordered, ds, sk, 0)
  {
    assert Ordered(ds, Pairing(ds, sk, 0)) == [];
  }

  lemma ArrangedAll(ordered: seq<Node?>, ds: seq<Tree>, sk: seq<Tree>)
    requires ArrangedTo(ordered, ds, sk, |sk|)
    ensures ordered == Ordered(ds, Pairing(ds, sk, |sk|))
  {
  }

  // Its loop, with the `used` and `ordered` tables.
  method Arrange(original: seq<Node?>, src: Node, ghost ds: seq<Tree>, ghost s: Tree) returns (ordered: seq<Node?>)
    requires Links(original, ds) && Rep(s) && s.node == src && AliasFree(s)
    ensures ordered == Ordered(ds, Pairing(ds, s.kids, |s.kids|))
  {
    var used := seq(|original|, _ => false);
    ordered := seq(|src.content|, _ => null);
    ArrangedNone(ordered, ds, s.kids);
    for i := 0 to |src.content|
      invariant Links(original, ds) && Rep(s)
      invariant UsedMarks(used, Taken(Pairing(ds, s.kids, i)), |ds|)
      invariant ArrangedTo(ordered, ds, s.kids, i)
    {
      used, ordered := ArrangeItem(original, used, ordered, src, i, ds, s);
    }
    ArrangedAll(ordered, ds, s.kids);
  }

  method ArrangeItem(original: seq<Node?>, used: seq<bool>, ordered: seq<Node?>, src: Node, i: nat,
          ghost ds: seq<Tree>, ghost s: Tree)
    returns (marks: seq<bool>, more: seq<Node?>)
    requires Links(original, ds) && Rep(s) && s.node == src && AliasFree(s) && i < |s.kids|
    requires UsedMarks(used, Taken(Pairing(ds, s.kids, i)), |ds|) && ArrangedTo(ordered, ds, s.kids, i)
    ensures UsedMarks(marks, Taken(Pairing(ds, s.kids, i + 1)), |ds|) && ArrangedTo(more, ds, s.kids, i + 1)
    ensures Links(original, ds) && Rep(s)
  {
    KnownItems(ds);
    Known(s);
    ghost var before := Pairing(ds, s.kids, i);
    var idx := MatchSequenceElement(original, used, src.content[i], ds, Taken(before), s.kids[i]);
    LinksUnmoved(original, ds, 0);
    Unmoved(s);
    PairingStep(ds, s.kids, i);
    marks, more := used, ordered;
    if idx >= 0 {
      more := more[i := original[idx]];
      marks := marks[idx := true];
    }
    OrderedStep(ds, before, idx, |s.kids|);
  }

  lemma OrderedStep(ds: seq<Tree>, before: seq<int>, m: int, n: nat)
    requires |before| < n && -1 <= m < |ds| && forall i :: 0 <= i < |before| ==> -1 <= before[i] < |ds|
    ensures var was, next := Ordered(ds, before) + seq(n - |before|, _ => null),
        Ordered(ds, before + [m]) + seq(n - |before| - 1, _ => null);
            next == if m < 0 then was else was[|before| := ds[m].node]
  {
  }

  lemma PairingStep(ds: seq<Tree>, sk: seq<Tree>, i: nat)
    requires i < |sk|
    ensures var before, m := Pairing(ds, sk, i), Match(ds, Taken(Pairing(ds, sk, i)), sk[i]);
            && Pairing(ds, sk, i + 1) == before + [m]
            && Taken(before + [m]) == Taken(before) + if m >= 0 then {m} else {}
  {
    var before, m := Pairing(ds, sk, i), Match(ds, Taken(Pairing(ds, sk, i)), sk[i]);
    assert (before + [m])[i] == m;
    assert forall j :: 0 <= j < i ==> (before + [m])[j] == before[j];
  }

  // ---- Removing keys -------------------------------------------------------------------

  // pruneMissingMapKeys
  method PruneMissingMapKeys(dst: Node, src: Node, ghost r: Tree, ghost s: Tree)
    requires Rep(r) && r.node == dst && Distinct(r) && Rep(s) && s.node == src && dst !in Nodes(s)
    modifies dst`content
    ensures Rep(PruneMissing(r, s))
    ensures r.kind == Mapping && s.kind == Mapping && |r.kids| % 2 == 0 ==> OnlyItsPairs(s, r, PruneMissing(r, s))
    ensures r.kind != Mapping || s.kind != Mapping ==> PruneMissing(r, s) == r
  {
    hide OnlyItsPairs;
    if r.kind == Mapping && s.kind == Mapping && |r.kids| % 2 == 0 {
      RemovalKeeps(r, s);
    }
    if dst.kind != Mapping || src.kind != Mapping {
      return;
    }
    Known(r);
    var keep := TrimmedKeysOf(src, s);
    Unmoved(r);
    var content := DropKeys(dst.content, keep, r.kids);
    ghost var kept := KeepKeys(r.kids, keep, |r.kids|);
    forall m | 0 <= m < |kept| ensures Rep(kept[m]) && dst !in Nodes(kept[m]) {
      var j := KeepSource(r.kids, keep, |r.kids|, m);
      KidInside(r, j);
    }
    assert dst !in NodesOf(kept) by {
      if dst in NodesOf(kept) {
        var m := Where(kept, dst);
      }
    }
    SetContent(dst, content, r, kept);
  }

  method TrimmedKeysOf(src: Node, ghost s: Tree) returns (keep: set<string>)
    requires Rep(s) && s.node == src
    ensures keep == TrimmedKeys(s.kids)
  {
    keep := {};
    var i := 0;
    while i + 1 < |src.content|
      invariant 0 <= i && i % 2 == 0
      invariant keep == set j | 0 <= j < i && j + 1 < |s.kids| && j % 2 == 0 && TrimSpace(s.kids[j].value) != "" ::
          TrimSpace(s.kids[j].value)
    {
      var key := TrimSpace(src.content[i].value);
      if key != "" {
        keep := keep + {key};
      }
      i := i + 2;
    }
  }

  ghost function Roots(ts: seq<Tree>): seq<Node?>
  {
    seq(|ts|, i requires 0 <= i < |ts| => ts[i].node)
  }

  // The deleting loop of pruneMissingMapKeys: i is where it stands in the shrinking list,
  // n how many of the original entries it has looked at.
  method DropKeys(original: seq<Node?>, keep: set<string>, ghost kids: seq<Tree>) returns (content: seq<Node?>)
    requires Links(original, kids)
    ensures content == Roots(KeepKeys(kids, keep, |kids|))
  {
    hide KeepKeys, Roots, TrimSpace;
    content := original;
    DropStart(original, kids, keep);
    var i := 0;
    ghost var n := 0;
    while i + 1 < |content|
      invariant n <= |kids| && n % 2 == 0
      invariant i == |KeepKeys(kids, keep, n)| && |content| == i + |kids| - n
      invariant content == Roots(KeepKeys(kids, keep, n) + kids[n..])
      decreases |kids| - n
    {
      DropStep(content, kids, keep, n);
      var key := TrimSpace(content[i].value);
      if key !in keep {
        content := content[..i] + content[i + 2..];
      } else {
        i := i + 2;
      }
      n := n + 2;
    }
    KeepEnd(kids, keep, n);
  }

  lemma DropStart(original: seq<Node?>, kids: seq<Tree>, keep: set<string>)
    requires Links(original, kids)
    ensures KeepKeys(kids, keep, 0) == [] && original == Roots(KeepKeys(kids, keep, 0) + kids[0..])
  {
  }

  lemma DropStep(content: seq<Node?>, kids: seq<Tree>, keep: set<string>, n: nat)
    requires n + 1 < |kids| && n % 2 == 0 && content == Roots(KeepKeys(kids, keep, n) + kids[n..])
    ensures var i, more := |KeepKeys(kids, keep, n)|, KeepKeys(kids, keep, n + 2);
            && i + 1 < |content| && content[i] == kids[n].node
            && (n + 2) % 2 == 0
            && (if TrimSpace(kids[n].value) in keep
                then |more| == i + 2 && Roots(more + kids[n + 2..]) == content
                else |more| == i && Roots(more + kids[n + 2..]) == content[..i] + content[i + 2..])
  {
    KeepStep(kids, keep, n);
  }

  lemma KeepEnd(kids: seq<Tree>, keep: set<string>, n: nat)
    requires n <= |kids| <= n + 1 && n % 2 == 0
    ensures KeepKeys(kids, keep, n) + kids[n..] == KeepKeys(kids, keep, |kids|)
  {
  }

  // Every kept entry is one of the original ones.
  lemma {:induction false} KeepSource(kids: seq<Tree>, keep: set<string>, n: nat, m: nat) returns (j: nat)
    requires n <= |kids| && m < |KeepKeys(kids, keep, n)|
    ensures j < n && KeepKeys(kids, keep, n)[m] == kids[j]
    decreases n
  {
    var before := KeepKeys(kids, keep, if n % 2 == 1 then n - 1 else n - 2);
    if m < |before| {
      assert KeepKeys(kids, keep, n)[m] == before[m];
      j := KeepSource(kids, keep, if n % 2 == 1 then n - 1 else n - 2, m);
    } else if n % 2 == 1 {
      j := n - 1;
    } else {
      j := n - 2 + (m - |before|);
    }
  }

  lemma KeepStep(kids: seq<Tree>, keep: set<string>, n: nat)
    requires n + 1 < |kids| && n % 2 == 0
    ensures var was, i := KeepKeys(kids, keep, n) + kids[n..], |KeepKeys(kids, keep, n)|;
            && was[i] == kids[n]
            && KeepKeys(kids, keep, n + 2) + kids[n + 2..] ==
               if TrimSpace(kids[n].value) in keep then was else was[..i] + was[i + 2..]
  {
    assert kids[n..] == [kids[n], kids[n + 1]] + kids[n + 2..];
  }
}
