// What list items are recognised by: the identity of a mapping, the shape of any node.
module YamlIdentity {
  import opened Text
  import opened YamlTree
  import opened YamlMeaning
  import opened YamlPairing

  // ---- The identity of a mapping --------------------------------------------------------

  const RECOGNISED: seq<string> := ["id", "name", "alias", "api-key", "api_key", "apikey", "key", "provider", "model"]

  // The pair at m has a scalar value, and this key but for case and white space.
  predicate ScalarPair(t: Tree, m: nat)
  {
    m % 2 == 0 && m + 1 < |t.kids| && t.kids[m + 1].kind == Scalar
  }

  predicate Names(t: Tree, m: nat, key: string)
  {
    ScalarPair(t, m) && ToLower(TrimSpace(t.kids[m].value)) == key
  }

  predicate FirstNamed(t: Tree, m: nat, key: string)
  {
    Names(t, m, key) && forall k: nat :: k < m ==> !Names(t, k, key)
  }

  predicate Blank(t: Tree, m: nat)
    requires m + 1 < |t.kids|
  {
    TrimSpace(t.kids[m + 1].value) == ""
  }

  // The key says nothing: no scalar stands under it, or the first one is blank.
  ghost predicate Silent(t: Tree, key: string)
  {
    forall m: nat :: FirstNamed(t, m, key) ==> Blank(t, m)
  }

  // The first pair with a scalar that is not blank.
  predicate FirstTelling(t: Tree, m: nat)
  {
    ScalarPair(t, m) && !Blank(t, m) && forall k: nat :: k < m && ScalarPair(t, k) ==> Blank(t, k)
  }

  // The first of the nine keys that says something, with what it says; failing that the
  // first scalar that is not blank, with its key; failing that nothing.
  ghost predicate RecognisedBy(t: Tree, id: string)
  {
    || (exists k, m: nat :: 0 <= k < |RECOGNISED| && FirstNamed(t, m, RECOGNISED[k]) && !Blank(t, m)
            && (forall j :: 0 <= j < k ==> Silent(t, RECOGNISED[j]))
            && id == RECOGNISED[k] + "=" + TrimSpace(t.kids[m + 1].value))
    || ((forall j :: 0 <= j < |RECOGNISED| ==> Silent(t, RECOGNISED[j]))
        && exists m: nat :: FirstTelling(t, m)
            && id == ToLower(TrimSpace(t.kids[m].value)) + "=" + TrimSpace(t.kids[m + 1].value))
    || (id == "" && forall m: nat :: ScalarPair(t, m) ==> Blank(t, m))
  }

  // From the pair at 2 * n on.
  lemma {:induction false} UnderIs(t: Tree, key: string, n: nat)
    requires 2 * n <= |t.kids| && forall m: nat :: m < 2 * n ==> !Names(t, m, key)
    ensures var v := ScalarUnder(Pairs(t.kids)[n..], key);
            if v == "" then Silent(t, key)
            else exists m: nat :: FirstNamed(t, m, key) && !Blank(t, m) && v == TrimSpace(t.kids[m + 1].value)
    decreases |t.kids| - 2 * n
  {
    hide TrimSpace, ToLower;
    var pairs := Pairs(t.kids)[n..];
    if |pairs| > 0 {
      assert pairs[1..] == Pairs(t.kids)[n + 1..];
      assert pairs[0] == PairAt(t.kids, 2 * n);
      if Names(t, 2 * n, key) {
        assert FirstNamed(t, 2 * n, key);
        if Blank(t, 2 * n) { OneFirst(t, 2 * n, key); }
      } else {
        UnderIs(t, key, n + 1);
      }
    }
  }

  lemma OneFirst(t: Tree, m: nat, key: string)
    requires FirstNamed(t, m, key) && Blank(t, m)
    ensures Silent(t, key)
  {
    hide TrimSpace, ToLower;
    forall k: nat | FirstNamed(t, k, key) ensures Blank(t, k) { assert k == m; }
  }

  lemma {:induction false} TellingIs(t: Tree, n: nat)
    requires 2 * n <= |t.kids| && forall m: nat :: m < 2 * n && ScalarPair(t, m) ==> Blank(t, m)
    ensures var v := FirstScalar(Pairs(t.kids)[n..]);
            || (exists m: nat :: FirstTelling(t, m)
                    && v == ToLower(TrimSpace(t.kids[m].value)) + "=" + TrimSpace(t.kids[m + 1].value))
            || (v == "" && forall m: nat :: ScalarPair(t, m) ==> Blank(t, m))
    decreases |t.kids| - 2 * n
  {
    hide TrimSpace, ToLower;
    var pairs := Pairs(t.kids)[n..];
    if |pairs| > 0 {
      assert pairs[1..] == Pairs(t.kids)[n + 1..];
      assert pairs[0] == PairAt(t.kids, 2 * n);
      if ScalarPair(t, 2 * n) && !Blank(t, 2 * n) {
        assert FirstTelling(t, 2 * n);
      } else {
        TellingIs(t, n + 1);
      }
    }
  }

  lemma {:induction false} IdentityFromIs(t: Tree, n: nat)
    requires n <= 9 && forall j :: 0 <= j < n ==> Silent(t, RECOGNISED[j])
    ensures RecognisedBy(t, IdentityFrom(Pairs(t.kids), n))
    decreases 9 - n
  {
    hide TrimSpace, ToLower, Silent, FirstNamed, Blank, FirstTelling, ScalarPair;
    if n == 9 {
      TellingIs(t, 0);
    } else {
      KeyAt(n);
      UnderIs(t, RECOGNISED[n], 0);
      if ScalarUnder(Pairs(t.kids), RECOGNISED[n]) == "" {
        IdentityFromIs(t, n + 1);
      }
    }
  }

  lemma KeyAt(n: nat)
    requires n < 9
    ensures IDENTITY_KEYS[n] == RECOGNISED[n] && ToLower(IDENTITY_KEYS[n]) == RECOGNISED[n]
  {
  }

  // The first loop of the matching compares mappings by what they are recognised by and
  // scalars by their trimmed value; nothing else has anything to be recognised by.
  lemma HandleIs(t: Tree)
    ensures t.kind == Mapping ==> RecognisedBy(t, Handle(t))
    ensures t.kind == Scalar ==> Handle(t) == TrimSpace(t.value)
    ensures t.kind != Mapping && t.kind != Scalar ==> Handle(t) == ""
  {
    hide TrimSpace, ToLower, RecognisedBy;
    IdentityFromIs(t, 0);
  }

  // ---- Shapes -----------------------------------------------------------------------------

  // What is left of a node when tags, styles, comments and the white space around scalars
  // do not count, nor an odd last entry of a mapping.
  datatype Shape = Shape(kind: Kind, text: string, alias: Node?, length: nat, parts: seq<Shape>)

  function ShapeOf(t: Tree): Shape
  {
    var inner := t.kind == Mapping || t.kind == Sequence;
    var n := if t.kind == Mapping then |t.kids| - |t.kids| % 2 else |t.kids|;
    Shape(t.kind,
          if inner || t.kind == Alias then "" else TrimSpace(t.value),
          if t.kind == Alias then t.alias else null,
          if inner then |t.kids| else 0,
          if inner then seq(n, i requires 0 <= i < n => ShapeOf(t.kids[i])) else [])
  }

  // Structural equality is equality of shapes.
  lemma {:induction false} StructEqualIs(a: Tree, b: Tree)
    ensures StructEqual(a, b) <==> ShapeOf(a) == ShapeOf(b)
    decreases a
  {
    hide TrimSpace;
    if a.kind == b.kind && |a.kids| == |b.kids| && (a.kind == Mapping || a.kind == Sequence) {
      forall i | 0 <= i < |a.kids|
        ensures StructEqual(a.kids[i], b.kids[i]) <==> ShapeOf(a.kids[i]) == ShapeOf(b.kids[i])
      {
        StructEqualIs(a.kids[i], b.kids[i]);
      }
      if ShapeOf(a) == ShapeOf(b) {
        SameParts(a, b);
      }
    }
  }

  lemma SameParts(a: Tree, b: Tree)
    requires ShapeOf(a) == ShapeOf(b) && (a.kind == Mapping || a.kind == Sequence)
    ensures forall i ::
        0 <= i < |a.kids| && (a.kind == Sequence || i % 2 == 1 || i + 1 < |a.kids|)
        ==> ShapeOf(a.kids[i]) == ShapeOf(b.kids[i])
  {
    hide TrimSpace;
    forall i | 0 <= i < |a.kids| && (a.kind == Sequence || i % 2 == 1 || i + 1 < |a.kids|)
      ensures ShapeOf(a.kids[i]) == ShapeOf(b.kids[i])
    {
      assert ShapeOf(a).parts[i] == ShapeOf(b).parts[i];
    }
  }

  // ---- Items without an identity --------------------------------------------------------------

  // An item that nothing recognises, and whose shape no earlier src item has, is paired
  // exactly when dst has an item of that shape, and then with the first one.
  lemma PairingByShape(dk: seq<Tree>, sk: seq<Tree>, n: nat, i: nat)
    requires i < n <= |sk| && Handle(sk[i]) == ""
    requires forall m :: 0 <= m < |dk| ==> Proper(dk[m])
    requires forall m :: 0 <= m < |sk| ==> Proper(sk[m])
    requires forall m :: 0 <= m < i ==> ShapeOf(sk[m]) != ShapeOf(sk[i])
    ensures var j := Pairing(dk, sk, n)[i];
            && (j >= 0 <==> exists m :: 0 <= m < |dk| && ShapeOf(dk[m]) == ShapeOf(sk[i]))
            && (j >= 0 ==>
                  && ShapeOf(dk[j]) == ShapeOf(sk[i])
                  && forall m :: 0 <= m < j ==> ShapeOf(dk[m]) != ShapeOf(sk[i]))
  {
    hide ShapeOf, StructEqual, Handle;
    var before := Pairing(dk, sk, i);
    PairingAt(dk, sk, n, i);
    forall m | 0 <= m < |dk| ensures StructEqual(dk[m], sk[i]) <==> ShapeOf(dk[m]) == ShapeOf(sk[i]) {
      StructEqualIs(dk[m], sk[i]);
    }
    forall m | 0 <= m < |dk| && m in Taken(before) ensures ShapeOf(dk[m]) != ShapeOf(sk[i]) {
      if ShapeOf(dk[m]) == ShapeOf(sk[i]) {
        var k :| 0 <= k < i && before[k] == m;
        TakenByShape(dk, sk, i, k);
        StructEqualHandle(dk[m], sk[i]);
        PairingFaithful(dk, sk, i, k);
      }
    }
  }

  // What an item without an identity takes has its shape.
  lemma TakenByShape(dk: seq<Tree>, sk: seq<Tree>, n: nat, i: nat)
    requires i < n <= |sk|
    ensures var j := Pairing(dk, sk, n)[i];
            j >= 0 && Handle(sk[i]) == "" ==> ShapeOf(dk[j]) == ShapeOf(sk[i])
  {
    hide ShapeOf, StructEqual, Handle;
    PairingAt(dk, sk, n, i);
    var j := Pairing(dk, sk, n)[i];
    if j >= 0 { StructEqualIs(dk[j], sk[i]); }
  }
}
