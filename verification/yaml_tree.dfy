// The YAML node tree and what the merge computes on it, as functions on snapshots.
//
// A Tree is a snapshot of a node and everything below it. It keeps the identity of the
// node object it was taken from, so that "dst's node was reused" can be stated: in the
// tree a merge computes, a node of dst stands for itself and a node of src stands for
// a fresh copy of it. YamlHeap shows that the in-place code builds exactly these trees.
module YamlTree {
  import opened Text

  datatype Kind = Unset | Document | Sequence | Mapping | Scalar | Alias

  // yaml.Node. `note` stands for the anchor and the three comment fields.
  class Node {
    var kind: Kind
    var tag: string
    var value: string
    var style: int
    var note: string
    var alias: Node?
    var content: seq<Node?>

    // *n, as in `cp := *n`.
    constructor Clone(n: Node)
      ensures kind == n.kind && tag == n.tag && value == n.value && style == n.style && note == n.note
      ensures alias == n.alias && content == n.content
    {
      kind, tag, value, style, note, alias, content := n.kind, n.tag, n.value, n.style, n.note, n.alias, n.content;
    }
  }

  // An alias is kept as the node it points to, which the merge never follows.
  datatype Tree = Tree(node: Node, kind: Kind, tag: string, value: string, style: int, note: string, alias: Node?,
          kids: seq<Tree>)

  // ---- Small readers -------------------------------------------------------------

  // Index of the first key node with this value at or after `from`, or -1.
  function FindKeyFrom(kids: seq<Tree>, key: string, from: nat): (r: int)
    ensures r == -1 || (from <= r && r + 1 < |kids| && (r - from) % 2 == 0 && kids[r].value == key)
    ensures forall m {:trigger kids[m]} :: from <= m && m + 1 < |kids| && (m - from) % 2 == 0 && (r == -1 || m < r)
                                           ==> kids[m].value != key
    decreases |kids| - from
  {
    if from + 1 >= |kids| then -1
    else if kids[from].value == key then from
    else FindKeyFrom(kids, key, from + 2)
  }

  // findMapKeyIndex
  function FindKey(kids: seq<Tree>, key: string): (r: int)
    ensures r == -1 || (0 <= r && r + 1 < |kids| && r % 2 == 0 && kids[r].value == key)
    ensures forall m {:trigger kids[m]} :: 0 <= m && m + 1 < |kids| && m % 2 == 0 && (r == -1 || m < r)
                                           ==> kids[m].value != key
  {
    FindKeyFrom(kids, key, 0)
  }

  // isZeroValueNode
  predicate IsZero(t: Tree)
  {
    match t.kind
    case Scalar =>
      (match t.tag
       case "!!bool" => t.value == "false"
       case "!!int" => t.value == "0" || t.value == "0.0"
       case "!!float" => t.value == "0" || t.value == "0.0"
       case "!!str" => t.value == ""
       case "!!null" => true
       case _ => false)
    case Sequence => forall i :: 0 <= i < |t.kids| ==> IsZero(t.kids[i])
    case Mapping => forall i :: 0 <= i < |t.kids| && i % 2 == 1 ==> IsZero(t.kids[i])
    case _ => false
  }

  const DEFAULT_PPROF_ADDR := "127.0.0.1:8316"
  const DEFAULT_PANEL_REPOSITORY := "https://github.com/router-for-me/Cli-Proxy-API-Management-Center"

  // isKnownDefaultValue
  predicate IsDefault(path: seq<string>, t: Tree)
  {
    || IsZero(t)
    || (|path| > 0 && t.kind == Scalar && IsDefaultScalar(Join(path, "."), t.tag, t.value))
  }

  predicate IsDefaultScalar(fullPath: string, tag: string, value: string)
  {
    if tag == "!!str" then
      match fullPath
      case "pprof.addr" => value == DEFAULT_PPROF_ADDR
      case "remote-management.panel-github-repository" => value == DEFAULT_PANEL_REPOSITORY
      case "plugins.dir" => value == "plugins"
      case "routing.strategy" => value == "round-robin"
      case _ => false
    else
      tag == "!!int" && fullPath == "error-logs-max-files" && value == "10"
  }

  // ---- Pruning -------------------------------------------------------------------

  // pruneKnownDefaultsInNewNode
  function Prune(path: seq<string>, t: Tree): (r: Tree)
    decreases t, 1
  {
    match t.kind
    case Mapping => t.(kids := PrunePairs(path, t, |t.kids|))
    case Sequence => t.(kids := seq(|t.kids|, i requires 0 <= i < |t.kids| => Prune(path, t.kids[i])))
    case _ => t
  }

  // Whether the pair at key index i survives the pruning of its mapping.
  predicate Survives(path: seq<string>, t: Tree, i: nat)
    requires i + 1 < |t.kids|
    decreases t, 0, 0
  {
    var child := path + [t.kids[i].value];
    && !IsDefault(child, t.kids[i + 1])
    && !IsEmptied(Prune(child, t.kids[i + 1]))
  }

  predicate IsEmptied(t: Tree)
  {
    (t.kind == Mapping || t.kind == Sequence) && |t.kids| == 0
  }

  // The surviving pairs among the first n entries.
  function PrunePairs(path: seq<string>, t: Tree, n: nat): (r: seq<Tree>)
    requires n <= |t.kids|
    decreases t, 0, n
  {
    if n < 2 then []
    else if n % 2 == 1 then PrunePairs(path, t, n - 1)
    else if Survives(path, t, n - 2) then
      PrunePairs(path, t, n - 2) + [t.kids[n - 2], Prune(path + [t.kids[n - 2].value], t.kids[n - 1])]
    else PrunePairs(path, t, n - 2)
  }

  // pruneMissingMapKeys: what is left of the first n entries.
  function KeepKeys(kids: seq<Tree>, keep: set<string>, n: nat): (r: seq<Tree>)
    requires n <= |kids|
    decreases n
  {
    if n == 0 then []
    else if n % 2 == 1 then KeepKeys(kids, keep, n - 1) + [kids[n - 1]]
    else if TrimSpace(kids[n - 2].value) in keep then KeepKeys(kids, keep, n - 2) + [kids[n - 2], kids[n - 1]]
    else KeepKeys(kids, keep, n - 2)
  }

  // The non-blank trimmed keys of a mapping.
  function TrimmedKeys(kids: seq<Tree>): (r: set<string>)
  {
    set i | 0 <= i && i + 1 < |kids| && i % 2 == 0 && TrimSpace(kids[i].value) != "" :: TrimSpace(kids[i].value)
  }

  function PruneMissing(d: Tree, s: Tree): Tree
  {
    if d.kind == Mapping && s.kind == Mapping then d.(kids := KeepKeys(d.kids, TrimmedKeys(s.kids), |d.kids|)) else d
  }

  // ---- Pairing of sequence items -------------------------------------------------

  // nodesStructurallyEqual, where at most one side has aliases.
  predicate StructEqual(a: Tree, b: Tree)
    decreases a
  {
    && a.kind == b.kind
    && match a.kind
       case Mapping =>
         |a.kids| == |b.kids| &&
         forall i :: 0 <= i < |a.kids| && (i % 2 == 1 || i + 1 < |a.kids|) ==> StructEqual(a.kids[i], b.kids[i])
       case Sequence =>
         |a.kids| == |b.kids| && forall i :: 0 <= i < |a.kids| ==> StructEqual(a.kids[i], b.kids[i])
       case Alias => a.alias == b.alias
       case _ => TrimSpace(a.value) == TrimSpace(b.value)
  }

  // One pair of a mapping as sequenceElementIdentity sees it: the key trimmed and
  // lower-cased, and the trimmed value when it is a scalar.
  datatype Pair = Pair(key: string, scalar: Option<string>)

  function PairAt(kids: seq<Tree>, i: nat): Pair
    requires i + 1 < |kids|
  {
    Pair(ToLower(TrimSpace(kids[i].value)), if kids[i + 1].kind == Scalar then Some(TrimSpace(kids[i + 1].value))
        else None)
  }

  function Pairs(kids: seq<Tree>): (r: seq<Pair>)
    ensures |r| == |kids| / 2
  {
    seq(|kids| / 2, i requires 0 <= i < |kids| / 2 => PairAt(kids, 2 * i))
  }

  // mappingScalarValue: the first scalar under this key.
  function ScalarUnder(pairs: seq<Pair>, lowerKey: string): string
  {
    if |pairs| == 0 then ""
    else if pairs[0].scalar.Some? && pairs[0].key == lowerKey then pairs[0].scalar.value
    else ScalarUnder(pairs[1..], lowerKey)
  }

  // The first scalar that is not blank, with its key.
  function FirstScalar(pairs: seq<Pair>): string
  {
    if |pairs| == 0 then ""
    else if pairs[0].scalar.Some? && pairs[0].scalar.value != "" then pairs[0].key + "=" + pairs[0].scalar.value
    else FirstScalar(pairs[1..])
  }

  const IDENTITY_KEYS := ["id", "name", "alias", "api-key", "api_key", "apikey", "key", "provider", "model"]

  // The identity keys from index k on, then the first scalar that is not blank.
  function IdentityFrom(pairs: seq<Pair>, k: nat): string
    requires k <= |IDENTITY_KEYS|
    decreases |IDENTITY_KEYS| - k
  {
    if k == |IDENTITY_KEYS| then FirstScalar(pairs)
    else
      var v := ScalarUnder(pairs, ToLower(IDENTITY_KEYS[k]));
      if v != "" then IDENTITY_KEYS[k] + "=" + v else IdentityFrom(pairs, k + 1)
  }

  // sequenceElementIdentity
  function Identity(t: Tree): string
  {
    if t.kind != Mapping then "" else IdentityFrom(Pairs(t.kids), 0)
  }

  // The two ways matchSequenceElement accepts a candidate.
  datatype Stage = ByIdentity | ByStructure

  // What the first loop compares: a mapping's identity or a scalar's trimmed value.
  function Handle(t: Tree): string
  {
    match t.kind
    case Mapping => Identity(t)
    case Scalar => TrimSpace(t.value)
    case _ => ""
  }

  predicate Accepts(stage: Stage, d: Tree, target: Tree)
  {
    match stage
    case ByIdentity => d.kind == target.kind && Handle(d) == Handle(target)
    case ByStructure => StructEqual(d, target)
  }

  function FirstAccepted(stage: Stage, dk: seq<Tree>, used: set<int>, target: Tree, i: nat): (r: int)
    ensures r == -1 || (i <= r < |dk| && r !in used && Accepts(stage, dk[r], target))
    ensures forall j :: i <= j < |dk| && (r == -1 || j < r) ==> j in used || !Accepts(stage, dk[j], target)
    decreases |dk| - i
  {
    if i >= |dk| then -1
    else if i !in used && Accepts(stage, dk[i], target) then i
    else FirstAccepted(stage, dk, used, target, i + 1)
  }

  // matchSequenceElement
  function Match(dk: seq<Tree>, used: set<int>, target: Tree): (r: int)
    ensures r == -1 || (0 <= r < |dk| && r !in used)
  {
    var first := if Handle(target) != "" then FirstAccepted(ByIdentity, dk, used, target, 0) else -1;
    if first >= 0 then first else FirstAccepted(ByStructure, dk, used, target, 0)
  }

  // The loop of reorderSequenceForMerge over any chooser of a dst index: what the first n
  // items of src are given, each chosen knowing which indices are taken.
  function Assign(choose: (set<int>, Tree) -> int, sk: seq<Tree>, n: nat): (r: seq<int>)
    requires n <= |sk|
    ensures |r| == n
  {
    if n == 0 then []
    else
      var before := Assign(choose, sk, n - 1);
      before + [choose(Taken(before), sk[n - 1])]
  }

  function Matcher(dk: seq<Tree>): (set<int>, Tree) -> int
  {
    (used, target) => Match(dk, used, target)
  }

  // reorderSequenceForMerge: for each of the first n items of src, the index of the dst
  // item it takes over, or -1.
  function Pairing(dk: seq<Tree>, sk: seq<Tree>, n: nat): (r: seq<int>)
    requires n <= |sk|
    ensures |r| == n && forall i :: 0 <= i < n ==> -1 <= r[i] < |dk|
  {
    PairingInRange(dk, sk, n);
    Assign(Matcher(dk), sk, n)
  }

  lemma PairingInRange(dk: seq<Tree>, sk: seq<Tree>, n: nat)
    requires n <= |sk|
    ensures forall i :: 0 <= i < n ==> -1 <= Assign(Matcher(dk), sk, n)[i] < |dk|
  {
    if n > 0 {
      PairingInRange(dk, sk, n - 1);
    }
  }

  function Taken(pairing: seq<int>): set<int>
  {
    set j | j in pairing && j >= 0
  }

  // ---- The merge -----------------------------------------------------------------

  // copyNodeShallow
  function CopyShallow(d: Tree, s: Tree): Tree
  {
    d.(kind := s.kind, tag := s.tag, value := s.value, kids := s.kids)
  }

  // mergeNodePreserve
  function MergeNode(path: seq<string>, d: Tree, s: Tree): Tree
    decreases s, 2
  {
    match s.kind
    case Mapping => MergeMapping(path, if d.kind == Mapping then d else CopyShallow(d, s), s)
    case Sequence =>
      if d.kind == Scalar && d.tag == "!!null" && |s.kids| == 0 then d
      else
        var e := if d.kind == Sequence then d else d.(kind := Sequence, tag := "!!seq", kids := []);
        e.(kids := MergeItems(path, e.kids, s))
    case Scalar => d.(kind := s.kind, tag := s.tag, value := s.value)
    case Alias => d.(kind := s.kind, tag := s.tag, value := s.value)
    case Unset => d
    case Document => CopyShallow(d, s)
  }

  // mergeMappingPreserve
  function MergeMapping(path: seq<string>, d: Tree, s: Tree): Tree
    decreases s, 1
  {
    if d.kind != Mapping || s.kind != Mapping then CopyShallow(d, s)
    else d.(kids := MergePairs(path, d.kids, s, 0))
  }

  // The loop over src's pairs, from key index i on.
  function MergePairs(path: seq<string>, dk: seq<Tree>, s: Tree, i: nat): seq<Tree>
    decreases s, 0, |s.kids| - i
  {
    if i + 1 >= |s.kids| then dk
    else MergePairs(path, MergePair(path, dk, s, i), s, i + 2)
  }

  function MergePair(path: seq<string>, dk: seq<Tree>, s: Tree, i: nat): seq<Tree>
    requires i + 1 < |s.kids|
    decreases s, 0, 0
  {
    var sk, sv := s.kids[i], s.kids[i + 1];
    var child := path + [sk.value];
    var idx := FindKey(dk, sk.value);
    if idx >= 0 then dk[idx + 1 := MergeNode(child, dk[idx + 1], sv)]
    else if IsDefault(child, Prune(child, sv)) then dk
    else dk + [sk, Prune(child, sv)]
  }

  // The items of a merged sequence.
  function MergeItems(path: seq<string>, dk: seq<Tree>, s: Tree): (r: seq<Tree>)
    ensures |r| == |s.kids|
    decreases s, 1
  {
    if |dk| == 0 then s.kids
    else
      var pairing := Pairing(dk, s.kids, |s.kids|);
      seq(|s.kids|, i requires 0 <= i < |s.kids| => MergeItem(path, dk, pairing[i], s, i))
  }

  function MergeItem(path: seq<string>, dk: seq<Tree>, j: int, s: Tree, i: nat): Tree
    requires -1 <= j < |dk| && i < |s.kids|
    decreases s, 0
  {
    if j < 0 then s.kids[i] else PruneMissing(MergeNode(path, dk[j], s.kids[i]), s.kids[i])
  }
}
