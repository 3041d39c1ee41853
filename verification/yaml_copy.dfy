// Node objects on the heap: deep copies of arbitrary graphs, and what it means for a
// node to hold a tree.
module YamlCopy {
  import opened YamlTree

  // ---- Deep copy of a graph with sharing and cycles --------------------------------

  // The map that deepCopyNodeSeen threads through its recursion.
  class Seen {
    var copies: map<Node, Node>

    constructor ()
      ensures copies == map[]
    {
      copies := map[];
    }
  }

  // Nothing leads out of the set, through children or aliases.
  ghost predicate ClosedSet(nodes: set<Node>)
    reads nodes
  {
    forall n <- nodes ::
      && (n.alias != null ==> n.alias in nodes)
      && forall i :: 0 <= i < |n.content| && n.content[i] != null ==> n.content[i] in nodes
  }

  ghost predicate Injective(m: map<Node, Node>)
  {
    forall a, b :: a in m && b in m && m[a] == m[b] ==> a == b
  }

  // The image of an edge under the map.
  ghost predicate EdgeCopied(from: Node?, to: Node?, m: map<Node, Node>)
  {
    if from == null then to == null else from in m && to == m[from]
  }

  // c is n with every edge redirected through m, in the same order.
  ghost predicate IsCopy(n: Node, c: Node, m: map<Node, Node>)
    reads n, c
  {
    && c.kind == n.kind && c.tag == n.tag && c.value == n.value && c.style == n.style && c.note == n.note
    && EdgeCopied(n.alias, c.alias, m)
    && |c.content| == |n.content|
    && forall i :: 0 <= i < |n.content| ==> EdgeCopied(n.content[i], c.content[i], m)
  }

  // What the map always satisfies: it sends nodes of the universe, injectively, outside it.
  ghost predicate SeenOk(m: map<Node, Node>, universe: set<Node>)
  {
    m.Keys <= universe && (forall k :: k in m ==> m[k] !in universe) && Injective(m)
  }

  ghost predicate Extends(m: map<Node, Node>, more: map<Node, Node>)
  {
    forall k :: k in m ==> k in more && more[k] == m[k]
  }

  // Every entry of `more` that m lacks, apart from `open`, is a finished copy.
  ghost predicate Finished(m: map<Node, Node>, more: map<Node, Node>, open: set<Node>)
    reads more.Keys, more.Values
  {
    forall k :: k in more && k !in m && k !in open ==> IsCopy(k, more[k], more)
  }

  lemma CopyGrows(n: Node, c: Node, m: map<Node, Node>, more: map<Node, Node>)
    requires IsCopy(n, c, m) && Extends(m, more)
    ensures IsCopy(n, c, more)
  {
  }

  lemma FinishedGrows(m: map<Node, Node>, mid: map<Node, Node>, more: map<Node, Node>, open: set<Node>)
    requires Finished(m, mid, open) && Extends(mid, more) && Finished(mid, more, {})
    ensures Finished(m, more, open)
  {
    forall k | k in more && k !in m && k !in open ensures IsCopy(k, more[k], more) {
      if k in mid { CopyGrows(k, mid[k], mid, more); }
    }
  }

  // deepCopyNodeSeen. Nodes in `seen` on entry may still be under construction by outer
  // calls; every node added by this call is finished when it returns.
  method DeepCopySeen(n: Node?, seen: Seen, ghost universe: set<Node>) returns (cp: Node?)
    requires ClosedSet(universe) && (n != null ==> n in universe) && SeenOk(seen.copies, universe)
    modifies seen
    ensures EdgeCopied(n, cp, seen.copies)
    ensures SeenOk(seen.copies, universe) && Extends(old(seen.copies), seen.copies)
    ensures forall k :: k in seen.copies && k !in old(seen.copies) ==> fresh(seen.copies[k])
    ensures Finished(old(seen.copies), seen.copies, {})
    decreases universe - seen.copies.Keys, 1
  {
    if n == null {
      return null;
    }
    if n in seen.copies {
      return seen.copies[n];
    }
    ghost var before := seen.copies;
    var c := Open(n, seen, universe);
    CopyEdges(n, c, seen, universe, before);
    return c;
  }

  // Alias and children of a node that was just recorded.
  method CopyEdges(n: Node, c: Node, seen: Seen, ghost universe: set<Node>, ghost before: map<Node, Node>)
    requires ClosedSet(universe) && n in universe && SeenOk(seen.copies, universe) && Extends(before, seen.copies)
    requires n !in before && seen.copies == before[n := c]
    requires c.kind == n.kind && c.tag == n.tag && c.value == n.value && c.style == n.style && c.note == n.note
    requires c.alias == n.alias && c.content == n.content
    modifies seen, c
    ensures SeenOk(seen.copies, universe) && Extends(old(seen.copies), seen.copies)
    ensures forall k :: k in seen.copies && k !in old(seen.copies) ==> fresh(seen.copies[k])
    ensures Finished(before, seen.copies, {})
    decreases universe - seen.copies.Keys, 4
  {
    CopyAlias(n, c, seen, universe, before);
    CopyChildren(n, c, seen, universe, before);
    assert IsCopy(n, c, seen.copies);
  }

  // The copy of n is recorded before its edges are followed.
  method Open(n: Node, seen: Seen, ghost universe: set<Node>) returns (c: Node)
    requires n in universe && n !in seen.copies && SeenOk(seen.copies, universe)
    modifies seen
    ensures fresh(c) && seen.copies == old(seen.copies)[n := c] && SeenOk(seen.copies, universe)
    ensures c.kind == n.kind && c.tag == n.tag && c.value == n.value && c.style == n.style && c.note == n.note
    ensures c.alias == n.alias && c.content == n.content
    ensures universe - seen.copies.Keys < universe - old(seen.copies.Keys)
  {
    c := new Node.Clone(n);
    seen.copies := seen.copies[n := c];
    assert n in universe - old(seen.copies.Keys) && n !in universe - seen.copies.Keys;
  }

  // The alias step of deepCopyNodeSeen: the copy of n's alias, into c.
  method CopyAlias(n: Node, c: Node, seen: Seen, ghost universe: set<Node>, ghost before: map<Node, Node>)
    requires ClosedSet(universe) && n in universe && SeenOk(seen.copies, universe) && Extends(before, seen.copies)
    requires n !in before && n in seen.copies && seen.copies[n] == c
    requires c.alias == n.alias && Finished(before, seen.copies, {n})
    modifies seen, c`alias
    ensures SeenOk(seen.copies, universe) && Extends(old(seen.copies), seen.copies)
    ensures forall k :: k in seen.copies && k !in old(seen.copies) ==> fresh(seen.copies[k])
    ensures Finished(before, seen.copies, {n})
    ensures EdgeCopied(n.alias, c.alias, seen.copies)
    decreases universe - seen.copies.Keys, 2
  {
    if n.alias != null {
      ghost var mid := seen.copies;
      var a := DeepCopySeen(n.alias, seen, universe);
      FinishedGrows(before, mid, seen.copies, {n});
      c.alias := a;
    }
  }

  // The loop of deepCopyNodeSeen: the copies of n's children, into c.
  method CopyChildren(n: Node, c: Node, seen: Seen, ghost universe: set<Node>, ghost before: map<Node, Node>)
    requires ClosedSet(universe) && n in universe && SeenOk(seen.copies, universe) && Extends(before, seen.copies)
    requires n !in before && n in seen.copies && seen.copies[n] == c
    requires c.content == n.content && Finished(before, seen.copies, {n})
    modifies seen, c
    ensures SeenOk(seen.copies, universe) && Extends(old(seen.copies), seen.copies)
    ensures forall k :: k in seen.copies && k !in old(seen.copies) ==> fresh(seen.copies[k])
    ensures Finished(before, seen.copies, {n})
    ensures unchanged(c`kind, c`tag, c`value, c`style, c`note, c`alias)
    ensures |c.content| == |n.content|
    ensures forall i :: 0 <= i < |n.content| ==> EdgeCopied(n.content[i], c.content[i], seen.copies)
    decreases universe - seen.copies.Keys, 3
  {
    if |n.content| > 0 {
      c.content := seq(|n.content|, _ => null);
      for i := 0 to |n.content|
        invariant SeenOk(seen.copies, universe) && Extends(old(seen.copies), seen.copies)
        invariant forall k :: k in seen.copies && k !in old(seen.copies) ==> fresh(seen.copies[k])
        invariant Finished(before, seen.copies, {n})
        invariant unchanged(c`kind, c`tag, c`value, c`style, c`note, c`alias)
        invariant |c.content| == |n.content|
        invariant forall j :: 0 <= j < i ==> EdgeCopied(n.content[j], c.content[j], seen.copies)
        invariant universe - seen.copies.Keys <= universe - old(seen.copies.Keys)
      {
        CopyChild(n, c, i, seen, universe, before);
      }
    }
  }

  method CopyChild(n: Node, c: Node, i: nat, seen: Seen, ghost universe: set<Node>, ghost before: map<Node, Node>)
    requires ClosedSet(universe) && n in universe && SeenOk(seen.copies, universe) && Extends(before, seen.copies)
    requires n !in before && n in seen.copies && seen.copies[n] == c
    requires i < |n.content| == |c.content| && Finished(before, seen.copies, {n})
    modifies seen, c`content
    ensures SeenOk(seen.copies, universe) && Extends(old(seen.copies), seen.copies)
    ensures forall k :: k in seen.copies && k !in old(seen.copies) ==> fresh(seen.copies[k])
    ensures Finished(before, seen.copies, {n})
    ensures |c.content| == |n.content| && EdgeCopied(n.content[i], c.content[i], seen.copies)
    ensures forall j :: 0 <= j < |n.content| && j != i ==> c.content[j] == old(c.content[j])
    decreases universe - seen.copies.Keys, 2
  {
    ghost var mid := seen.copies;
    var child := DeepCopySeen(n.content[i], seen, universe);
    FinishedGrows(before, mid, seen.copies, {n});
    c.content := c.content[i := child];
  }

  // deepCopyNode: the copies form a fresh graph isomorphic to what n reaches, with the
  // same fields and the same child order, and nothing that existed is changed.
  method DeepCopy(n: Node?, ghost universe: set<Node>) returns (cp: Node?, ghost m: map<Node, Node>)
    requires ClosedSet(universe) && (n != null ==> n in universe)
    ensures EdgeCopied(n, cp, m)
    ensures m.Keys <= universe && ClosedSet(m.Keys) && Injective(m)
    ensures forall k :: k in m ==> fresh(m[k]) && IsCopy(k, m[k], m)
  {
    var seen := new Seen();
    cp := DeepCopySeen(n, seen, universe);
    m := seen.copies;
  }
}
