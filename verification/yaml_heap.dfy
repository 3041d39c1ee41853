// Node objects that hold a tree, copies of such trees, and the readers of the merge.
module YamlHeap {
  import opened Text
  import opened YamlTree
  import opened YamlCopy

  // ---- Holding a tree --------------------------------------------------------------

  ghost function Nodes(t: Tree): set<Node>
  {
    {t.node} + NodesOf(t.kids)
  }

  ghost function NodesOf(ts: seq<Tree>): set<Node>
  {
    set i, n | 0 <= i < |ts| && n in Nodes(ts[i]) :: n
  }

  lemma KidInside(t: Tree, i: nat)
    requires i < |t.kids|
    ensures Nodes(t.kids[i]) <= NodesOf(t.kids) && Nodes(t.kids[i]) <= Nodes(t)
  {
  }

  // The node's own fields, apart from its children.
  ghost predicate Fields(t: Tree)
    reads t.node
  {
    && t.node.kind == t.kind && t.node.tag == t.tag && t.node.value == t.value
    && t.node.style == t.style && t.node.note == t.note && t.node.alias == t.alias
  }

  // The node and everything below it hold exactly this snapshot.
  ghost predicate Rep(t: Tree)
    reads Nodes(t)
    decreases t
  {
    && Fields(t)
    && |t.node.content| == |t.kids|
    && forall i :: 0 <= i < |t.kids| ==> t.node.content[i] == t.kids[i].node && (KidInside(t, i); Rep(t.kids[i]))
  }

  lemma Where(ts: seq<Tree>, n: Node) returns (i: nat)
    requires n in NodesOf(ts)
    ensures i < |ts| && n in Nodes(ts[i])
  {
    i :| i < |ts| && n in Nodes(ts[i]);
  }

  // A snapshot only names nodes that exist.
  lemma {:induction false} Known(t: Tree)
    ensures forall n: Node :: n in Nodes(t) ==> allocated(n)
    decreases t
  {
    forall n: Node | n in Nodes(t) ensures allocated(n) {
      if n != t.node {
        var i := Where(t.kids, n);
        Known(t.kids[i]);
      }
    }
  }

  ghost predicate Apart(ts: seq<Tree>)
  {
    forall i, j :: 0 <= i < j < |ts| ==> Nodes(ts[i]) !! Nodes(ts[j])
  }

  // content links the roots of these trees, and they are held.
  ghost predicate Links(content: seq<Node?>, ts: seq<Tree>)
    reads NodesOf(ts)
  {
    |content| == |ts| && forall i :: 0 <= i < |ts| ==> content[i] == ts[i].node && (ListInside(ts, i); Rep(ts[i]))
  }

  // The same for the trees from index `from` on.
  ghost predicate LinksFrom(content: seq<Node?>, ts: seq<Tree>, from: nat)
    reads NodesOf(ts)
  {
    |content| == |ts| && forall i :: from <= i < |ts| ==> content[i] == ts[i].node && (ListInside(ts, i); Rep(ts[i]))
  }

  lemma ListInside(ts: seq<Tree>, i: nat)
    requires i < |ts|
    ensures Nodes(ts[i]) <= NodesOf(ts)
  {
  }

  lemma KnownList(ts: seq<Tree>)
    ensures forall n: Node :: n in NodesOf(ts) ==> allocated(n)
  {
    forall n: Node | n in NodesOf(ts) ensures allocated(n) {
      var i := Where(ts, n);
      Known(ts[i]);
    }
  }

  lemma KnownItems(ts: seq<Tree>)
    ensures forall i, n: Node {:trigger n in Nodes(ts[i])} ::
        0 <= i < |ts| && n in Nodes(ts[i]) ==> n in NodesOf(ts) && allocated(n)
  {
    KnownList(ts);
    forall i, n: Node | 0 <= i < |ts| && n in Nodes(ts[i]) ensures n in NodesOf(ts) {
      ListInside(ts, i);
    }
  }

  // A tree none of whose nodes changed is still held.
  twostate lemma {:induction false} Unmoved(new t: Tree)
    requires old(allocated(t)) && old(Rep(t))
    requires forall n: Node {:trigger n in Nodes(t)} :: n in Nodes(t) ==> old(allocated(n)) && unchanged(n)
    ensures Rep(t)
    decreases t
  {
    assert t.node in Nodes(t);
    forall i | 0 <= i < |t.kids| ensures Rep(t.kids[i]) {
      KidInside(t, i);
      Unmoved(t.kids[i]);
    }
  }

  twostate lemma LinksUnmoved(new content: seq<Node?>, new ts: seq<Tree>, from: nat)
    requires old(allocated(content) && allocated(ts)) && old(LinksFrom(content, ts, from))
    requires forall i, n: Node {:trigger n in Nodes(ts[i])} ::
        from <= i < |ts| && n in Nodes(ts[i]) ==> old(allocated(n)) && unchanged(n)
    ensures LinksFrom(content, ts, from)
  {
    forall i | from <= i < |ts| ensures Rep(ts[i]) {
      ListInside(ts, i);
      Unmoved(ts[i]);
    }
  }

  // Rewriting one of several separate trees leaves the others as they were.
  twostate lemma LinksUpdate(new content: seq<Node?>, new ts: seq<Tree>, i: nat, new r: Tree)
    requires old(allocated(content) && allocated(ts)) && i < |ts| && Apart(ts) && old(Links(content, ts))
    requires forall n: Node {:trigger n in NodesOf(ts)} ::
        n in NodesOf(ts) && n !in Nodes(ts[i]) ==> old(allocated(n)) && unchanged(n)
    requires Rep(r) && r.node == ts[i].node
    ensures Links(content, ts[i := r])
  {
    forall j | 0 <= j < |ts| && j != i ensures Rep(ts[j]) {
      if j < i {
        assert Nodes(ts[j]) !! Nodes(ts[i]);
      } else {
        assert Nodes(ts[i]) !! Nodes(ts[j]);
      }
      ListInside(ts, j);
      Unmoved(ts[j]);
    }
  }

  // Giving a node a new list of children.
  method SetContent(node: Node, content: seq<Node?>, ghost t: Tree, ghost ts: seq<Tree>)
    requires Fields(t) && t.node == node && Links(content, ts) && node !in NodesOf(ts)
    modifies node`content
    ensures Rep(t.(kids := ts))
  {
    KnownItems(ts);
    node.content := content;
    LinksUnmoved(content, ts, 0);
  }

  // No alias anywhere, as in the tree of a document that the encoder wrote.
  predicate AliasFree(t: Tree)
  {
    t.alias == null && forall i :: 0 <= i < |t.kids| ==> AliasFree(t.kids[i])
  }

  // No node occurs twice.
  ghost predicate Distinct(t: Tree)
  {
    && t.node !in NodesOf(t.kids)
    && Apart(t.kids)
    && forall i :: 0 <= i < |t.kids| ==> Distinct(t.kids[i])
  }

  // r is what e describes, where e's nodes in src stand for copies of them.
  ghost predicate Copied(r: Tree, e: Tree, src: set<Node>)
    decreases r
  {
    && r.kind == e.kind && r.tag == e.tag && r.value == e.value && r.style == e.style && r.note == e.note
        && r.alias == e.alias
    && (if e.node in src then r.node !in src else r.node == e.node)
    && |r.kids| == |e.kids|
    && forall i :: 0 <= i < |r.kids| ==> Copied(r.kids[i], e.kids[i], src)
  }

  lemma {:induction false} CopiedSelf(t: Tree, src: set<Node>)
    requires Nodes(t) !! src
    ensures Copied(t, t, src)
    decreases t
  {
    forall i | 0 <= i < |t.kids| ensures Copied(t.kids[i], t.kids[i], src) { CopiedSelf(t.kids[i], src); }
  }

  // ---- Copying a tree --------------------------------------------------------------

  ghost function MapTree(t: Tree, m: map<Node, Node>): (r: Tree)
    requires Nodes(t) <= m.Keys
  {
    t.(node := m[t.node],
        kids := seq(|t.kids|, i requires 0 <= i < |t.kids| => (KidInside(t, i); MapTree(t.kids[i], m))))
  }

  // Every node of the image is the image of a node.
  lemma {:induction false} MapTreeOrigin(t: Tree, m: map<Node, Node>, n: Node) returns (k: Node)
    requires Nodes(t) <= m.Keys && n in Nodes(MapTree(t, m))
    ensures k in Nodes(t) && m[k] == n
    decreases t
  {
    if n == m[t.node] {
      k := t.node;
    } else {
      var kids := MapTree(t, m).kids;
      var i := Where(kids, n);
      assert kids[i] == MapTree(t.kids[i], m);
      k := MapTreeOrigin(t.kids[i], m, n);
      assert k in Nodes(t.kids[i]);
    }
  }

  lemma {:induction false} MapTreeDistinct(t: Tree, m: map<Node, Node>)
    requires Nodes(t) <= m.Keys && Injective(m) && Distinct(t)
    ensures Distinct(MapTree(t, m))
    decreases t
  {
    var r := MapTree(t, m);
    forall i | 0 <= i < |t.kids| ensures Distinct(r.kids[i]) {
      MapTreeDistinct(t.kids[i], m);
    }
    if r.node in NodesOf(r.kids) {
      var i := Where(r.kids, r.node);
      var k := MapTreeOrigin(t.kids[i], m, r.node);
    }
    forall i, j | 0 <= i < j < |t.kids| ensures Nodes(r.kids[i]) !! Nodes(r.kids[j]) {
      MapTreeApart(t.kids[i], t.kids[j], m);
    }
  }

  lemma MapTreeApart(a: Tree, b: Tree, m: map<Node, Node>)
    requires Nodes(a) <= m.Keys && Nodes(b) <= m.Keys && Injective(m) && Nodes(a) !! Nodes(b)
    ensures Nodes(MapTree(a, m)) !! Nodes(MapTree(b, m))
  {
    forall n | n in Nodes(MapTree(a, m)) ensures n !in Nodes(MapTree(b, m)) {
      if n in Nodes(MapTree(b, m)) {
        var k := MapTreeOrigin(a, m, n);
        var l := MapTreeOrigin(b, m, n);
      }
    }
  }

  lemma {:induction false} MapTreeRep(t: Tree, m: map<Node, Node>)
    requires Nodes(t) <= m.Keys && Rep(t) && AliasFree(t) && forall k :: k in Nodes(t) ==> IsCopy(k, m[k], m)
    ensures Rep(MapTree(t, m))
    decreases t
  {
    assert IsCopy(t.node, m[t.node], m);
    forall i | 0 <= i < |t.kids| ensures Rep(MapTree(t.kids[i], m)) && m[t.node].content[i] == m[t.kids[i].node] {
      assert EdgeCopied(t.node.content[i], m[t.node].content[i], m);
      MapTreeRep(t.kids[i], m);
    }
  }

  lemma {:induction false} MapTreeCopied(t: Tree, m: map<Node, Node>, src: set<Node>)
    requires Nodes(t) <= m.Keys && Nodes(t) <= src && forall k :: k in m ==> m[k] !in src
    ensures Copied(MapTree(t, m), t, src)
    decreases t
  {
    forall i | 0 <= i < |t.kids|
      ensures Copied(MapTree(t.kids[i], m), t.kids[i], src) { MapTreeCopied(t.kids[i], m, src); }
  }

  lemma {:induction false} RepInside(t: Tree, n: Node)
    requires Rep(t) && AliasFree(t) && n in Nodes(t)
    ensures n.alias == null && forall i :: 0 <= i < |n.content| ==> n.content[i] != null && n.content[i] in Nodes(t)
    decreases t
  {
    if n == t.node {
      forall i | 0 <= i < |n.content| ensures n.content[i] != null && n.content[i] in Nodes(t) {
        assert n.content[i] == t.kids[i].node && t.kids[i].node in Nodes(t.kids[i]);
      }
    } else {
      var i := Where(t.kids, n);
      RepInside(t.kids[i], n);
    }
  }

  lemma {:induction false} RepClosed(t: Tree, nodes: set<Node>)
    requires Rep(t) && ClosedSet(nodes) && t.node in nodes
    ensures Nodes(t) <= nodes
    decreases t
  {
    forall i | 0 <= i < |t.kids| ensures Nodes(t.kids[i]) <= nodes {
      assert t.node.content[i] == t.kids[i].node;
      RepClosed(t.kids[i], nodes);
    }
  }

  // deepCopyNode on a tree: a fresh tree with the same content.
  method CopyTree(n: Node, ghost t: Tree, ghost src: set<Node>) returns (cp: Node, ghost r: Tree)
    requires Rep(t) && t.node == n && Distinct(t) && AliasFree(t) && Nodes(t) <= src
    ensures Rep(r) && r.node == cp && Distinct(r) && fresh(Nodes(r))
    ensures Copied(r, t, src)
  {
    forall k | k in Nodes(t)
      ensures k.alias == null && forall i :: 0 <= i < |k.content| ==> k.content[i] != null && k.content[i] in Nodes(t)
    {
      RepInside(t, k);
    }
    var c, m := DeepCopy(n, Nodes(t));
    RepClosed(t, m.Keys);
    cp, r := c, MapTree(t, m);
    forall n | n in Nodes(r) ensures fresh(n) {
      var k := MapTreeOrigin(t, m, n);
    }
    MapTreeDistinct(t, m);
    MapTreeRep(t, m);
    MapTreeCopied(t, m, src);
  }

  // ---- Readers ---------------------------------------------------------------------

  method FindMapKeyIndex(mapNode: Node, key: string, ghost t: Tree) returns (idx: int)
    requires Rep(t) && t.node == mapNode
    ensures idx == if t.kind == Mapping then FindKey(t.kids, key) else -1
  {
    if mapNode.kind != Mapping {
      return -1;
    }
    var i := 0;
    while i + 1 < |mapNode.content|
      invariant 0 <= i && i % 2 == 0
      invariant FindKey(t.kids, key) == FindKeyFrom(t.kids, key, i)
    {
      if mapNode.content[i].value == key {
        return i;
      }
      i := i + 2;
    }
    return -1;
  }

  method IsZeroValueNode(node: Node, ghost t: Tree) returns (zero: bool)
    requires Rep(t) && t.node == node
    ensures zero == IsZero(t)
    decreases t
  {
    Known(t);
    match node.kind
    case Scalar =>
      match node.tag {
        case "!!bool" => return node.value == "false";
        case "!!int" => return node.value == "0" || node.value == "0.0";
        case "!!float" => return node.value == "0" || node.value == "0.0";
        case "!!str" => return node.value == "";
        case "!!null" => return true;
        case _ => return false;
      }
    case Sequence =>
      for i := 0 to |node.content|
        invariant Rep(t) && forall j :: 0 <= j < i ==> IsZero(t.kids[j])
      {
        var z := IsZeroValueNode(node.content[i], t.kids[i]);
        if !z {
          return false;
        }
      }
      return true;
    case Mapping =>
      var i := 1;
      while i < |node.content|
        invariant i % 2 == 1 && 0 < i
        invariant Rep(t) && forall j :: 0 <= j < i && j < |t.kids| && j % 2 == 1 ==> IsZero(t.kids[j])
      {
        var z := IsZeroValueNode(node.content[i], t.kids[i]);
        if !z {
          return false;
        }
        i := i + 2;
      }
      return true;
    case _ => return false;
  }

  method IsKnownDefaultValue(path: seq<string>, node: Node, ghost t: Tree) returns (known: bool)
    requires Rep(t) && t.node == node
    ensures known == IsDefault(path, t) && Rep(t)
  {
    Known(t);
    var zero := IsZeroValueNode(node, t);
    Unmoved(t);
    if zero {
      return true;
    }
    if |path| == 0 {
      return false;
    }
    return node.kind == Scalar && IsDefaultScalar(Join(path, "."), node.tag, node.value);
  }

  lemma PairsStep(kids: seq<Tree>, i: nat)
    requires i + 1 < |kids| && i % 2 == 0
    ensures Pairs(kids)[i / 2..][0] == PairAt(kids, i) && Pairs(kids)[i / 2..][1..] == Pairs(kids)[(i + 2) / 2..]
  {
    assert i == 2 * (i / 2);
  }

  method MappingScalarValue(node: Node, key: string, ghost t: Tree) returns (v: string)
    requires Rep(t) && t.node == node
    ensures v == if t.kind == Mapping then ScalarUnder(Pairs(t.kids), ToLower(key)) else ""
  {
    hide TrimSpace, ToLower;
    if node.kind != Mapping {
      return "";
    }
    var lowerKey := ToLower(key);
    ghost var pairs := Pairs(t.kids);
    var i := 0;
    while i + 1 < |node.content|
      invariant 0 <= i <= |t.kids| && i % 2 == 0 && i / 2 <= |pairs|
      invariant ScalarUnder(pairs, lowerKey) == ScalarUnder(pairs[i / 2..], lowerKey)
    {
      var keyNode, valNode := node.content[i], node.content[i + 1];
      PairsStep(t.kids, i);
      if valNode.kind == Scalar && ToLower(TrimSpace(keyNode.value)) == lowerKey {
        return TrimSpace(valNode.value);
      }
      i := i + 2;
    }
    return "";
  }

  method SequenceElementIdentity(node: Node, ghost t: Tree) returns (id: string)
    requires Rep(t) && t.node == node
    ensures id == Identity(t)
  {
    if node.kind != Mapping {
      return "";
    }
    ghost var pairs := Pairs(t.kids);
    Known(t);
    for k := 0 to |IDENTITY_KEYS|
      invariant Rep(t) && Identity(t) == IdentityFrom(pairs, k)
    {
      var v := MappingScalarValue(node, IDENTITY_KEYS[k], t);
      if v != "" {
        return IDENTITY_KEYS[k] + "=" + v;
      }
    }
    id := FirstScalarIdentity(node, t);
  }

  // The fallback of sequenceElementIdentity: the first scalar that is not blank.
  method FirstScalarIdentity(node: Node, ghost t: Tree) returns (id: string)
    requires Rep(t) && t.node == node
    ensures id == FirstScalar(Pairs(t.kids))
  {
    hide TrimSpace, ToLower;
    ghost var pairs := Pairs(t.kids);
    var i := 0;
    while i + 1 < |node.content|
      invariant 0 <= i <= |t.kids| && i % 2 == 0 && i / 2 <= |pairs|
      invariant FirstScalar(pairs) == FirstScalar(pairs[i / 2..])
    {
      var keyNode, valNode := node.content[i], node.content[i + 1];
      PairsStep(t.kids, i);
      if valNode.kind == Scalar {
        var val := TrimSpace(valNode.value);
        if val != "" {
          return ToLower(TrimSpace(keyNode.value)) + "=" + val;
        }
      }
      i := i + 2;
    }
    return "";
  }

  // b is an item of src, so an alias of dst is compared with nil.
  method NodesStructurallyEqual(a: Node, b: Node, ghost ta: Tree, ghost tb: Tree) returns (eq: bool)
    requires Rep(ta) && ta.node == a && Rep(tb) && tb.node == b && AliasFree(tb)
    ensures eq == StructEqual(ta, tb)
    decreases ta
  {
    hide TrimSpace;
    Known(ta);
    Known(tb);
    if a.kind != b.kind {
      return false;
    }
    match a.kind
    case Mapping =>
      if |a.content| != |b.content| {
        return false;
      }
      var i := 0;
      while i + 1 < |a.content|
        invariant 0 <= i && i % 2 == 0 && Rep(ta) && Rep(tb)
        invariant forall j :: 0 <= j < i && j < |ta.kids| ==> StructEqual(ta.kids[j], tb.kids[j])
      {
        var k := NodesStructurallyEqual(a.content[i], b.content[i], ta.kids[i], tb.kids[i]);
        if !k {
          return false;
        }
        assert Rep(ta) && Rep(tb);
        var v := NodesStructurallyEqual(a.content[i + 1], b.content[i + 1], ta.kids[i + 1], tb.kids[i + 1]);
        if !v {
          return false;
        }
        i := i + 2;
      }
      return true;
    case Sequence =>
      if |a.content| != |b.content| {
        return false;
      }
      for i := 0 to |a.content|
        invariant Rep(ta) && Rep(tb) && forall j :: 0 <= j < i ==> StructEqual(ta.kids[j], tb.kids[j])
      {
        var e := NodesStructurallyEqual(a.content[i], b.content[i], ta.kids[i], tb.kids[i]);
        if !e {
          return false;
        }
      }
      return true;
    case Alias => return a.alias == null;
    case _ => return TrimSpace(a.value) == TrimSpace(b.value);
  }
}
