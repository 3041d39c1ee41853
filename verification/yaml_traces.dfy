// Where every node of a merged tree comes from: style, comments and identity of a node of
// dst, or all there is to a node of src.
module YamlTraces {
  import opened Text
  import opened YamlTree
  import opened YamlMeaning

  // What the merge never rewrites in a node of dst.
  datatype Mark = Mark(node: Node, style: int, note: string, alias: Node?)

  // A node without its children.
  datatype Bare = Bare(node: Node, kind: Kind, tag: string, value: string, style: int, note: string, alias: Node?)

  function MarkOf(t: Tree): Mark
  {
    Mark(t.node, t.style, t.note, t.alias)
  }

  function BareOf(t: Tree): Bare
  {
    Bare(t.node, t.kind, t.tag, t.value, t.style, t.note, t.alias)
  }

  function Marks(t: Tree): set<Mark>
  {
    {MarkOf(t)} + set i, m | 0 <= i < |t.kids| && m in Marks(t.kids[i]) :: m
  }

  function Bares(t: Tree): set<Bare>
  {
    {BareOf(t)} + set i, b | 0 <= i < |t.kids| && b in Bares(t.kids[i]) :: b
  }

  // Every node of t has one of these marks, or is one of these nodes.
  predicate Traced(t: Tree, marks: set<Mark>, bares: set<Bare>)
  {
    (MarkOf(t) in marks || BareOf(t) in bares) && forall i :: 0 <= i < |t.kids| ==> Traced(t.kids[i], marks, bares)
  }

  predicate AllTraced(ts: seq<Tree>, marks: set<Mark>, bares: set<Bare>)
  {
    forall i :: 0 <= i < |ts| ==> Traced(ts[i], marks, bares)
  }

  predicate Marked(t: Tree, marks: set<Mark>)
  {
    MarkOf(t) in marks && forall i :: 0 <= i < |t.kids| ==> Marked(t.kids[i], marks)
  }

  lemma {:induction false} MarksMark(t: Tree, marks: set<Mark>)
    requires Marks(t) <= marks
    ensures Marked(t, marks)
    decreases t
  {
    forall i | 0 <= i < |t.kids| ensures Marked(t.kids[i], marks) {
      assert Marks(t.kids[i]) <= Marks(t);
      MarksMark(t.kids[i], marks);
    }
  }

  lemma {:induction false} MarkedTrace(t: Tree, marks: set<Mark>, bares: set<Bare>)
    requires Marked(t, marks)
    ensures Traced(t, marks, bares)
    decreases t
  {
    forall i | 0 <= i < |t.kids| ensures Traced(t.kids[i], marks, bares) { MarkedTrace(t.kids[i], marks, bares); }
  }

  // A node of src, and everything below it, is there as it is.
  predicate Copies(t: Tree, bares: set<Bare>)
  {
    BareOf(t) in bares && forall i :: 0 <= i < |t.kids| ==> Copies(t.kids[i], bares)
  }

  lemma {:induction false} BaresCopy(t: Tree, bares: set<Bare>)
    requires Bares(t) <= bares
    ensures Copies(t, bares)
    decreases t
  {
    forall i | 0 <= i < |t.kids| ensures Copies(t.kids[i], bares) {
      assert Bares(t.kids[i]) <= Bares(t);
      BaresCopy(t.kids[i], bares);
    }
  }

  lemma {:induction false} CopiesTrace(t: Tree, marks: set<Mark>, bares: set<Bare>)
    requires Copies(t, bares)
    ensures Traced(t, marks, bares)
    decreases t
  {
    forall i | 0 <= i < |t.kids| ensures Traced(t.kids[i], marks, bares) { CopiesTrace(t.kids[i], marks, bares); }
  }

  lemma KidsTrace(s: Tree, marks: set<Mark>, bares: set<Bare>)
    requires Copies(s, bares)
    ensures AllTraced(s.kids, marks, bares)
  {
    forall i | 0 <= i < |s.kids| ensures Traced(s.kids[i], marks, bares) { CopiesTrace(s.kids[i], marks, bares); }
  }

  lemma {:induction false} PruneCopies(path: seq<string>, t: Tree, bares: set<Bare>)
    requires Copies(t, bares)
    ensures Copies(Prune(path, t), bares)
    decreases t, 1
  {
    match t.kind
    case Mapping => PrunedPairs(path, t, |t.kids|, bares);
    case Sequence =>
      forall i | 0 <= i < |t.kids| ensures Copies(Prune(path, t.kids[i]), bares) {
        PruneCopies(path, t.kids[i], bares);
      }
    case _ =>
  }

  lemma {:induction false} PrunedPairs(path: seq<string>, t: Tree, n: nat, bares: set<Bare>)
    requires Copies(t, bares) && n <= |t.kids|
    ensures forall m :: 0 <= m < |PrunePairs(path, t, n)| ==> Copies(PrunePairs(path, t, n)[m], bares)
    decreases t, 0, n
  {
    hide Survives, Prune;
    if n >= 2 {
      PrunedPairs(path, t, if n % 2 == 1 then n - 1 else n - 2, bares);
      if n % 2 == 0 { PruneCopies(path + [t.kids[n - 2].value], t.kids[n - 1], bares); }
    }
  }

  lemma {:induction false} KeptTraced(kids: seq<Tree>, keep: set<string>, n: nat, marks: set<Mark>, bares: set<Bare>)
    requires AllTraced(kids, marks, bares) && n <= |kids|
    ensures AllTraced(KeepKeys(kids, keep, n), marks, bares)
    decreases n
  {
    hide TrimSpace, Traced;
    if n > 0 {
      KeptTraced(kids, keep, if n % 2 == 1 then n - 1 else n - 2, marks, bares);
    }
  }

  lemma RemovalTraced(d: Tree, s: Tree, marks: set<Mark>, bares: set<Bare>)
    requires Traced(d, marks, bares)
    ensures Traced(PruneMissing(d, s), marks, bares)
  {
    KeptTraced(d.kids, TrimmedKeys(s.kids), |d.kids|, marks, bares);
  }

  lemma {:induction false} NewTraced(path: seq<string>, dk: seq<Tree>, s: Tree, i: nat, marks: set<Mark>,
          bares: set<Bare>)
    requires Copies(s, bares) && i <= |s.kids|
    ensures AllTraced(NewPairs(path, dk, s, i), marks, bares)
    decreases i
  {
    hide IsDefault, Prune, Traced;
    if i >= 2 {
      NewTraced(path, dk, s, i - 2, marks, bares);
      var sk, sv := s.kids[i - 2], s.kids[i - 1];
      PruneCopies(path + [sk.value], sv, bares);
      CopiesTrace(sk, marks, bares);
      CopiesTrace(Prune(path + [sk.value], sv), marks, bares);
    }
  }

  // Every node of the merged tree is a node of dst with its style, comments and anchor, or a
  // node of src with all that it had.
  lemma {:induction false} MergeTraced(path: seq<string>, d: Tree, s: Tree, marks: set<Mark>, bares: set<Bare>)
    requires WholePairs(d) && Proper(s) && Marked(d, marks) && Copies(s, bares)
    ensures Traced(MergeNode(path, d, s), marks, bares)
    decreases s, 1
  {
    hide IsDefault, Prune, Traced, Marked, Copies;
    MarkedHere(d, marks);
    match s.kind
    case Mapping =>
      if d.kind == Mapping {
        MappingTraced(path, d, s, marks, bares);
      } else {
        AlikeSelfKids(path, d, s);
        KidsTrace(s, marks, bares);
        Rooted(d, CopyShallow(d, s), marks, bares);
      }
    case Sequence =>
      if d.kind == Scalar && d.tag == "!!null" && |s.kids| == 0 {
        MarkedTrace(d, marks, bares);
      } else {
        var r := MergeNode(path, d, s);
        forall i | 0 <= i < |s.kids| ensures Traced(r.kids[i], marks, bares) {
          ItemTraced(path, d, s, i, marks, bares);
        }
        Rooted(d, r, marks, bares);
      }
    case _ => ScalarTraced(d, s, marks, bares);
  }

  lemma MarkedHere(d: Tree, marks: set<Mark>)
    requires Marked(d, marks)
    ensures MarkOf(d) in marks && forall i :: 0 <= i < |d.kids| ==> Marked(d.kids[i], marks)
  {
  }

  lemma Rooted(d: Tree, r: Tree, marks: set<Mark>, bares: set<Bare>)
    requires MarkOf(d) in marks && MarkOf(r) == MarkOf(d) && AllTraced(r.kids, marks, bares)
    ensures Traced(r, marks, bares)
  {
  }

  lemma ScalarTraced(d: Tree, s: Tree, marks: set<Mark>, bares: set<Bare>)
    requires Marked(d, marks)
    ensures Traced(d.(kind := s.kind, tag := s.tag, value := s.value), marks, bares)
  {
    forall i | 0 <= i < |d.kids| ensures Traced(d.kids[i], marks, bares) { MarkedTrace(d.kids[i], marks, bares); }
  }

  lemma {:induction false} MappingTraced(path: seq<string>, d: Tree, s: Tree, marks: set<Mark>, bares: set<Bare>)
    requires WholePairs(d) && Proper(s) && Marked(d, marks) && Copies(s, bares)
    requires d.kind == Mapping && s.kind == Mapping
    ensures Traced(MergeNode(path, d, s), marks, bares)
    decreases s, 0
  {
    hide IsDefault, Prune, Traced, Marked, Copies;
    MarkedHere(d, marks);
    CopiesHere(s, bares);
    MergeMappingClosed(path, d, s);
    NewTraced(path, d.kids, s, |s.kids|, marks, bares);
    forall m | 0 <= m < |d.kids| ensures Traced(MergedEntry(path, d.kids, s, m, |s.kids|), marks, bares) {
      MarkedTrace(d.kids[m], marks, bares);
      if MergedEntry(path, d.kids, s, m, |s.kids|) != d.kids[m] {
        var i := FindKey(s.kids, d.kids[m - 1].value);
        MergeTraced(path + [d.kids[m - 1].value], d.kids[m], s.kids[i + 1], marks, bares);
      }
    }
    Rooted(d, MergeNode(path, d, s), marks, bares);
  }

  lemma CopiesHere(s: Tree, bares: set<Bare>)
    requires Copies(s, bares)
    ensures forall i :: 0 <= i < |s.kids| ==> Copies(s.kids[i], bares)
  {
  }

  lemma {:induction false} ItemTraced(path: seq<string>, d: Tree, s: Tree, i: nat, marks: set<Mark>,
          bares: set<Bare>)
    requires WholePairs(d) && Proper(s) && Marked(d, marks) && Copies(s, bares) && s.kind == Sequence && i < |s.kids|
    requires !(d.kind == Scalar && d.tag == "!!null" && |s.kids| == 0)
    ensures Traced(MergeNode(path, d, s).kids[i], marks, bares)
    decreases s, 0
  {
    hide PruneMissing, Traced, Marked, Copies;
    MarkedHere(d, marks);
    CopiesHere(s, bares);
    MergedItem(path, d, s, i);
    var prior := ItemPrior(Was(d), s, i);
    if prior.Was? {
      MergeTraced(path, prior.d, s.kids[i], marks, bares);
      RemovalTraced(MergeNode(path, prior.d, s.kids[i]), s.kids[i], marks, bares);
    } else {
      CopiesTrace(s.kids[i], marks, bares);
    }
  }

  // Nothing in a merged tree comes from anywhere else.
  lemma MergeTraces(path: seq<string>, d: Tree, s: Tree)
    requires WholePairs(d) && Proper(s)
    ensures Traced(MergeNode(path, d, s), Marks(d), Bares(s))
  {
    MarksMark(d, Marks(d));
    BaresCopy(s, Bares(s));
    MergeTraced(path, d, s, Marks(d), Bares(s));
  }
}
