// How merged sequences pair their items: injectively, and faithfully to identities.
module YamlPairing {
  import opened YamlTree
  import opened YamlMeaning

  lemma {:induction false} AssignPrefix(choose: (set<int>, Tree) -> int, sk: seq<Tree>, n: nat, i: nat)
    requires i < n <= |sk|
    ensures Assign(choose, sk, n)[i] == choose(Taken(Assign(choose, sk, i)), sk[i])
    decreases n
  {
    if i < n - 1 {
      AssignPrefix(choose, sk, n - 1, i);
    }
  }

  lemma PairingAt(dk: seq<Tree>, sk: seq<Tree>, n: nat, i: nat)
    requires i < n <= |sk|
    ensures Pairing(dk, sk, n)[i] == Match(dk, Taken(Pairing(dk, sk, i)), sk[i])
  {
    AssignPrefix(Matcher(dk), sk, n, i);
  }

  // No node of dst is placed twice.
  lemma PairingInjective(dk: seq<Tree>, sk: seq<Tree>, n: nat)
    requires n <= |sk|
    ensures forall i, j ::
        0 <= i < j < n && Pairing(dk, sk, n)[i] >= 0 ==> Pairing(dk, sk, n)[i] != Pairing(dk, sk, n)[j]
  {
    forall i, j | 0 <= i < j < n && Pairing(dk, sk, n)[i] >= 0 ensures Pairing(dk, sk, n)[i] != Pairing(dk, sk, n)[j] {
      PairingAt(dk, sk, n, i);
      PairingAt(dk, sk, n, j);
      PairingAt(dk, sk, j, i);
      assert Pairing(dk, sk, j)[i] in Taken(Pairing(dk, sk, j));
    }
  }

  // Structural equality never contradicts the identities it falls back from.
  lemma StructEqualHandle(a: Tree, b: Tree)
    requires Proper(a) && Proper(b) && StructEqual(a, b)
    ensures Handle(a) == Handle(b)
  {
    if a.kind == Mapping {
      forall i | 0 <= i < |a.kids| / 2 ensures PairAt(a.kids, 2 * i) == PairAt(b.kids, 2 * i) {
        StructEqualPair(a, b, 2 * i);
      }
      assert Pairs(a.kids) == Pairs(b.kids);
    }
  }

  lemma StructEqualPair(a: Tree, b: Tree, i: nat)
    requires a.kind == Mapping && StructEqual(a, b) && i + 1 < |a.kids| && i % 2 == 0 && a.kids[i].kind == Scalar
    ensures PairAt(a.kids, i) == PairAt(b.kids, i)
  {
    assert StructEqual(a.kids[i], b.kids[i]) && StructEqual(a.kids[i + 1], b.kids[i + 1]);
  }

  // A match has the target's kind and the target's identity, whatever loop found it.
  lemma MatchFaithful(dk: seq<Tree>, used: set<int>, target: Tree)
    requires Proper(target) && forall i :: 0 <= i < |dk| ==> Proper(dk[i])
    ensures var r := Match(dk, used, target);
            r >= 0 ==> dk[r].kind == target.kind && Handle(dk[r]) == Handle(target)
  {
    var r := Match(dk, used, target);
    if r >= 0 && !Accepts(ByIdentity, dk[r], target) {
      StructEqualHandle(dk[r], target);
    }
  }

  // Every paired item takes over a dst item of its own kind and identity.
  lemma PairingFaithful(dk: seq<Tree>, sk: seq<Tree>, n: nat, i: nat)
    requires i < n <= |sk|
    requires forall m :: 0 <= m < |dk| ==> Proper(dk[m])
    requires forall m :: 0 <= m < |sk| ==> Proper(sk[m])
    ensures var j := Pairing(dk, sk, n)[i];
            j >= 0 ==> dk[j].kind == sk[i].kind && Handle(dk[j]) == Handle(sk[i])
  {
    PairingAt(dk, sk, n, i);
    MatchFaithful(dk, Taken(Pairing(dk, sk, i)), sk[i]);
  }

  predicate SameIdentity(a: Tree, b: Tree)
  {
    a.kind == b.kind && Handle(a) == Handle(b)
  }

  // An item whose identity no earlier src item shares is paired exactly when dst has an
  // item of that identity, and then with the first one.
  lemma PairingComplete(dk: seq<Tree>, sk: seq<Tree>, n: nat, i: nat)
    requires i < n <= |sk| && Handle(sk[i]) != ""
    requires forall m :: 0 <= m < |dk| ==> Proper(dk[m])
    requires forall m :: 0 <= m < |sk| ==> Proper(sk[m])
    requires forall m :: 0 <= m < i ==> !SameIdentity(sk[m], sk[i])
    ensures var j := Pairing(dk, sk, n)[i];
            && (j >= 0 <==> exists m :: 0 <= m < |dk| && SameIdentity(dk[m], sk[i]))
            && (j >= 0 ==> SameIdentity(dk[j], sk[i]) && forall m :: 0 <= m < j ==> !SameIdentity(dk[m], sk[i]))
  {
    var before := Pairing(dk, sk, i);
    PairingAt(dk, sk, n, i);
    forall m | 0 <= m < |dk| && m in Taken(before) ensures !SameIdentity(dk[m], sk[i]) {
      var k :| 0 <= k < i && before[k] == m;
      PairingFaithful(dk, sk, i, k);
    }
    var j := Pairing(dk, sk, n)[i];
    PairingFaithful(dk, sk, n, i);
    var first := FirstAccepted(ByIdentity, dk, Taken(before), sk[i], 0);
    forall m | 0 <= m < |dk| && SameIdentity(dk[m], sk[i])
      ensures m !in Taken(before) && Accepts(ByIdentity, dk[m], sk[i]) {}
  }
}
