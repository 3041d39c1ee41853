// Pruning as the code runs it: node objects rewritten in place, shown to leave exactly
// the tree that the functions of YamlTree compute.
module YamlPrune {
  import opened YamlTree
  import opened YamlHeap

  // ---- What pruning does to node sets ------------------------------------------------

  lemma {:induction false} PruneNodes(path: seq<string>, t: Tree)
    ensures Nodes(Prune(path, t)) <= Nodes(t)
    decreases t, 1
  {
    var r := Prune(path, t);
    forall n | n in NodesOf(r.kids) ensures n in Nodes(t) {
      var i := Where(r.kids, n);
      if t.kind == Mapping {
        PrunePairsNodes(path, t, |t.kids|);
      } else if t.kind == Sequence {
        PruneNodes(path, t.kids[i]);
      }
    }
  }

  // The nodes of the first n trees.
  ghost function NodesTo(ts: seq<Tree>, n: nat): set<Node>
    requires n <= |ts|
  {
    set i, x | 0 <= i < n && x in Nodes(ts[i]) :: x
  }

  lemma {:induction false} PrunePairsNodes(path: seq<string>, t: Tree, n: nat)
    requires n <= |t.kids|
    ensures NodesOf(PrunePairs(path, t, n)) <= NodesTo(t.kids, n)
    decreases t, 0, n
  {
    if n >= 2 {
      if n % 2 == 1 {
        PrunePairsNodes(path, t, n - 1);
      } else {
        PrunePairsNodes(path, t, n - 2);
        if Survives(path, t, n - 2) {
          var child := path + [t.kids[n - 2].value];
          PruneNodes(child, t.kids[n - 1]);
          AppendNodes(PrunePairs(path, t, n - 2), t.kids[n - 2], Prune(child, t.kids[n - 1]));
        }
      }
    }
  }

  lemma AppendNodes(ts: seq<Tree>, a: Tree, b: Tree)
    ensures NodesOf(ts + [a, b]) == NodesOf(ts) + Nodes(a) + Nodes(b)
  {
    var all := ts + [a, b];
    forall x | x in NodesOf(all) ensures x in NodesOf(ts) + Nodes(a) + Nodes(b) {
      var i := Where(all, x);
      if i < |ts| { assert all[i] == ts[i]; }
    }
    forall x | x in NodesOf(ts) ensures x in NodesOf(all) {
      var i := Where(ts, x);
      assert all[i] == ts[i];
    }
    assert all[|ts|] == a && all[|ts| + 1] == b;
  }

  // The nodes of the first trees are apart from those of a later one.
  lemma PrefixApart(ts: seq<Tree>, n: nat, j: nat)
    requires Apart(ts) && n <= j < |ts|
    ensures NodesTo(ts, n) !! Nodes(ts[j])
  {
    forall x | x in NodesTo(ts, n) ensures x !in Nodes(ts[j]) {
      var i :| 0 <= i < n && x in Nodes(ts[i]);
      assert Nodes(ts[i]) !! Nodes(ts[j]);
    }
  }

  ghost predicate AllDistinct(ts: seq<Tree>)
  {
    Apart(ts) && forall i :: 0 <= i < |ts| ==> Distinct(ts[i])
  }

  lemma AppendOneDistinct(ts: seq<Tree>, a: Tree)
    requires AllDistinct(ts) && Distinct(a) && NodesOf(ts) !! Nodes(a)
    ensures AllDistinct(ts + [a])
  {
    var all := ts + [a];
    forall i, j | 0 <= i < j < |all| ensures Nodes(all[i]) !! Nodes(all[j]) {
      if j < |ts| {
        assert Nodes(ts[i]) !! Nodes(ts[j]);
      } else {
        assert forall x :: x in Nodes(ts[i]) ==> x in NodesOf(ts);
      }
    }
  }

  lemma AppendDistinct(ts: seq<Tree>, a: Tree, b: Tree)
    requires AllDistinct(ts) && Distinct(a) && Distinct(b)
    requires NodesOf(ts) !! Nodes(a) && NodesOf(ts) !! Nodes(b) && Nodes(a) !! Nodes(b)
    ensures AllDistinct(ts + [a, b])
  {
    AppendOneDistinct(ts, a);
    forall x | x in NodesOf(ts + [a]) ensures x !in Nodes(b) {
      var i := Where(ts + [a], x);
      if i < |ts| { assert x in Nodes(ts[i]); }
    }
    AppendOneDistinct(ts + [a], b);
    assert ts + [a] + [b] == ts + [a, b];
  }

  lemma {:induction false} PruneDistinct(path: seq<string>, t: Tree)
    requires Distinct(t)
    ensures Distinct(Prune(path, t))
    decreases t, 1
  {
    var r := Prune(path, t);
    if t.kind == Mapping {
      PrunePairsDistinct(path, t, |t.kids|);
      PrunePairsNodes(path, t, |t.kids|);
    } else if t.kind == Sequence {
      forall i | 0 <= i < |t.kids| ensures Distinct(r.kids[i]) && Nodes(r.kids[i]) <= Nodes(t.kids[i]) {
        PruneDistinct(path, t.kids[i]);
        PruneNodes(path, t.kids[i]);
      }
      forall i, j | 0 <= i < j < |t.kids| ensures Nodes(r.kids[i]) !! Nodes(r.kids[j]) {
        assert Nodes(t.kids[i]) !! Nodes(t.kids[j]);
      }
      if t.node in NodesOf(r.kids) {
        var i := Where(r.kids, t.node);
      }
    }
  }

  lemma {:induction false} PrunePairsDistinct(path: seq<string>, t: Tree, n: nat)
    requires Distinct(t) && n <= |t.kids|
    ensures AllDistinct(PrunePairs(path, t, n))
    decreases t, 0, n
  {
    if n >= 2 {
      var m := if n % 2 == 1 then n - 1 else n - 2;
      PrunePairsDistinct(path, t, m);
      if n % 2 == 0 && Survives(path, t, m) {
        var child := path + [t.kids[m].value];
        PrunePairsNodes(path, t, m);
        PrefixApart(t.kids, m, m);
        PrefixApart(t.kids, m, m + 1);
        PruneNodes(child, t.kids[m + 1]);
        PruneDistinct(child, t.kids[m + 1]);
        assert Nodes(t.kids[m]) !! Nodes(t.kids[m + 1]);
        AppendDistinct(PrunePairs(path, t, m), t.kids[m], Prune(child, t.kids[m + 1]));
      }
    }
  }

  // ---- Pruning in place ----------------------------------------------------------------

  // pruneKnownDefaultsInNewNode
  method PruneKnownDefaultsInNewNode(path: seq<string>, node: Node, ghost t: Tree)
    requires Rep(t) && t.node == node && Distinct(t)
    modifies Nodes(t)
    ensures Rep(Prune(path, t))
    decreases t, 3
  {
    match node.kind
    case Mapping => PruneMapping(path, node, t);
    case Sequence => PruneSequence(path, node, t);
    case _ =>
  }

  // The children of t with the first n pruned.
  ghost function PrunedTo(path: seq<string>, t: Tree, n: nat): seq<Tree>
    requires n <= |t.kids|
  {
    seq(|t.kids|, j requires 0 <= j < |t.kids| => if j < n then Prune(path, t.kids[j]) else t.kids[j])
  }

  lemma PrunedToNodes(path: seq<string>, t: Tree, n: nat)
    requires n <= |t.kids|
    ensures NodesOf(PrunedTo(path, t, n)) <= NodesOf(t.kids)
    ensures Apart(t.kids) ==> Apart(PrunedTo(path, t, n))
  {
    var ts := PrunedTo(path, t, n);
    forall j | 0 <= j < |ts| ensures Nodes(ts[j]) <= Nodes(t.kids[j]) { PruneNodes(path, t.kids[j]); }
    forall x | x in NodesOf(ts) ensures x in NodesOf(t.kids) {
      var j := Where(ts, x);
      KidInside(t, j);
    }
    if Apart(t.kids) {
      forall j, k | 0 <= j < k < |ts| ensures Nodes(ts[j]) !! Nodes(ts[k]) {
        assert Nodes(t.kids[j]) !! Nodes(t.kids[k]);
      }
    }
  }

  method PruneSequence(path: seq<string>, node: Node, ghost t: Tree)
    requires Rep(t) && t.node == node && Distinct(t) && t.kind == Sequence
    modifies NodesOf(t.kids)
    ensures Rep(Prune(path, t))
    decreases t, 2
  {
    hide Prune;
    Known(t);
    PrunedToEnds(path, t);
    for i := 0 to |node.content|
      invariant Fields(t) && |node.content| == |t.kids|
      invariant Links(node.content, PrunedTo(path, t, i))
    {
      KidInside(t, i);
      PruneItem(path, node.content[i], node.content, t, i);
    }
  }

  lemma PrunedToEnds(path: seq<string>, t: Tree)
    requires t.kind == Sequence
    ensures PrunedTo(path, t, 0) == t.kids && Prune(path, t) == t.(kids := PrunedTo(path, t, |t.kids|))
  {
  }

  method PruneItem(path: seq<string>, child: Node, ghost content: seq<Node?>, ghost t: Tree, ghost i: nat)
    requires Distinct(t) && i < |t.kids| && child == t.kids[i].node
    requires Links(content, PrunedTo(path, t, i))
    modifies Nodes(t.kids[i])
    ensures Links(content, PrunedTo(path, t, i + 1))
    decreases t, 1
  {
    ghost var ts := PrunedTo(path, t, i);
    KnownList(ts);
    PrunedToNodes(path, t, i);
    assert ts[i] == t.kids[i];
    PruneKnownDefaultsInNewNode(path, child, t.kids[i]);
    LinksUpdate(content, ts, i, Prune(path, t.kids[i]));
    assert ts[i := Prune(path, t.kids[i])] == PrunedTo(path, t, i + 1);
  }

  lemma StillEven(i: nat)
    requires i % 2 == 0
    ensures (i + 2) % 2 == 0
  {
  }

  lemma PrunePairsNone(path: seq<string>, t: Tree)
    ensures PrunePairs(path, t, 0) == []
  {
  }

  lemma PrunePairsEnd(path: seq<string>, t: Tree, i: nat)
    requires i <= |t.kids| <= i + 1 && i % 2 == 0
    ensures PrunePairs(path, t, |t.kids|) == PrunePairs(path, t, i)
  {
  }

  method PruneMapping(path: seq<string>, node: Node, ghost t: Tree)
    requires Rep(t) && t.node == node && Distinct(t) && t.kind == Mapping
    modifies Nodes(t)
    ensures Rep(Prune(path, t))
    decreases t, 2
  {
    hide PrunePairs;
    assert PrunePairs(path, t, 0) == [] by { PrunePairsNone(path, t); }
    var filtered: seq<Node?> := [];
    var i := 0;
    while i + 1 < |node.content|
      invariant 0 <= i <= |t.kids| && i % 2 == 0
      invariant Fields(t) && LinksFrom(node.content, t.kids, i)
      invariant Links(filtered, PrunePairs(path, t, i))
    {
      KidInside(t, i + 1);
      filtered := PrunePair(path, node, filtered, i, t, PrunePairs(path, t, i));
      StillEven(i);
      i := i + 2;
    }
    PrunePairsNodes(path, t, |t.kids|);
    PrunePairsEnd(path, t, i);
    SetContent(node, filtered, t, PrunePairs(path, t, i));
  }

  // One pair of the loop: kept with its value pruned in place, or left out.
  method PrunePair(path: seq<string>, node: Node, filtered: seq<Node?>, i: nat, ghost t: Tree, ghost kept: seq<Tree>)
    returns (more: seq<Node?>)
    requires Distinct(t) && t.node == node && i + 1 < |t.kids| && i % 2 == 0
    requires kept == PrunePairs(path, t, i) && Links(filtered, kept)
    requires Fields(t) && LinksFrom(node.content, t.kids, i)
    modifies Nodes(t.kids[i + 1])
    ensures Fields(t) && LinksFrom(node.content, t.kids, i + 2) && node.content == old(node.content)
    ensures Links(more, PrunePairs(path, t, i + 2))
    decreases t, 1
  {
    hide IsDefault, IsEmptied, Prune, PrunePairs;
    Known(t);
    PairsApart(path, t, i);
    var keyNode, valueNode := node.content[i], node.content[i + 1];
    var keep := PruneValue(path + [keyNode.value], valueNode, t.kids[i + 1]);
    PairFramed(path, filtered, t, i, kept);
    PrunePairsStep(path, t, i);
    if keep {
      LinksAppend(filtered, kept, t.kids[i], Prune(path + [t.kids[i].value], t.kids[i + 1]));
      more := filtered + [keyNode, valueNode];
    } else {
      more := filtered;
    }
  }

  // Rewriting the value of pair i leaves the mapping, the key, and the pairs before and after.
  twostate lemma PairFramed(new path: seq<string>, new filtered: seq<Node?>, new t: Tree, i: nat, new kept: seq<Tree>)
    requires old(allocated(t) && allocated(filtered) && allocated(kept))
    requires Distinct(t) && i + 1 < |t.kids| && kept == PrunePairs(path, t, i)
    requires old(LinksFrom(t.node.content, t.kids, i) && Links(filtered, kept) && Fields(t))
    requires forall n: Node {:trigger n in Nodes(t)} ::
        n in Nodes(t) && n !in Nodes(t.kids[i + 1]) ==> old(allocated(n)) && unchanged(n)
    ensures Fields(t) && t.node.content == old(t.node.content) && LinksFrom(t.node.content, t.kids, i + 2)
    ensures Links(filtered, kept) && Rep(t.kids[i])
  {
    PairsApart(path, t, i);
    assert t.node in Nodes(t);
    Unmoved(t.kids[i]);
    forall j, n: Node {:trigger n in Nodes(kept[j])} | 0 <= j < |kept| && n in Nodes(kept[j])
      ensures old(allocated(n)) && unchanged(n) {
      assert n in Nodes(t);
    }
    LinksUnmoved(filtered, kept, 0);
    forall j, n: Node {:trigger n in Nodes(t.kids[j])} | i + 2 <= j < |t.kids| && n in Nodes(t.kids[j])
      ensures old(allocated(n)) && unchanged(n)
    {
      assert n in Nodes(t);
    }
    LinksUnmoved(t.node.content, t.kids, i + 2);
  }

  lemma LinksAppend(content: seq<Node?>, ts: seq<Tree>, k: Tree, v: Tree)
    requires Links(content, ts) && Rep(k) && Rep(v)
    ensures Links(content + [k.node, v.node], ts + [k, v])
  {
  }

  lemma PrunePairsNext(path: seq<string>, t: Tree, i: nat)
    requires i + 1 < |t.kids| && i % 2 == 0
    ensures var child := path + [t.kids[i].value];
            PrunePairs(path, t, i + 2) == PrunePairs(path, t, i) +
              if Survives(path, t, i) then [t.kids[i], Prune(child, t.kids[i + 1])] else []
  {
    hide IsDefault, IsEmptied, Prune, Survives;
  }

  lemma PrunePairsStep(path: seq<string>, t: Tree, i: nat)
    requires i + 1 < |t.kids| && i % 2 == 0
    ensures var child, v := path + [t.kids[i].value], t.kids[i + 1];
            PrunePairs(path, t, i + 2) == PrunePairs(path, t, i) +
              if !IsDefault(child, v) && !IsEmptied(Prune(child, v)) then [t.kids[i], Prune(child, v)] else []
    ensures Prune(path + [t.kids[i].value], t.kids[i + 1]).node == t.kids[i + 1].node
  {
    hide IsDefault, IsEmptied, PrunePairs;
    PrunePairsNext(path, t, i);
  }

  // The value of pair i is apart from its mapping, its key, the pairs kept so far and
  // the pairs still to come.
  lemma PairsApart(path: seq<string>, t: Tree, i: nat)
    requires Distinct(t) && i + 1 < |t.kids|
    ensures t.node !in Nodes(t.kids[i + 1])
    ensures forall n :: n in Nodes(t.kids[i]) ==> n !in Nodes(t.kids[i + 1]) && n in Nodes(t)
    ensures var kept := PrunePairs(path, t, i);
            forall j, n :: 0 <= j < |kept| && n in Nodes(kept[j]) ==> n !in Nodes(t.kids[i + 1]) && n in Nodes(t)
    ensures forall j, n ::
        i + 2 <= j < |t.kids| && n in Nodes(t.kids[j]) ==> n !in Nodes(t.kids[i + 1]) && n in Nodes(t)
  {
    var kept := PrunePairs(path, t, i);
    KidInside(t, i);
    KidInside(t, i + 1);
    assert Nodes(t.kids[i]) !! Nodes(t.kids[i + 1]);
    PrunePairsNodes(path, t, i);
    PrefixApart(t.kids, i, i + 1);
    forall j, n | 0 <= j < |kept| && n in Nodes(kept[j]) ensures n !in Nodes(t.kids[i + 1]) && n in Nodes(t) {
      ListInside(kept, j);
      var k :| 0 <= k < i && n in Nodes(t.kids[k]);
      KidInside(t, k);
    }
    forall j, n | i + 2 <= j < |t.kids| && n in Nodes(t.kids[j]) ensures n !in Nodes(t.kids[i + 1]) && n in Nodes(t) {
      KidInside(t, j);
      assert Nodes(t.kids[i + 1]) !! Nodes(t.kids[j]);
    }
  }

  // Whether a value stays, and if so its pruned form in place.
  method PruneValue(childPath: seq<string>, valueNode: Node, ghost v: Tree) returns (keep: bool)
    requires Rep(v) && v.node == valueNode && Distinct(v)
    modifies Nodes(v)
    ensures keep == (!IsDefault(childPath, v) && !IsEmptied(Prune(childPath, v)))
    ensures keep ==> Rep(Prune(childPath, v))
    decreases v, 4
  {
    Known(v);
    var known := IsKnownDefaultValue(childPath, valueNode, v);
    if known {
      return false;
    }
    PruneKnownDefaultsInNewNode(childPath, valueNode, v);
    assert Rep(Prune(childPath, v)) && Prune(childPath, v).node == valueNode;
    keep := !((valueNode.kind == Mapping || valueNode.kind == Sequence) && |valueNode.content| == 0);
  }
}
