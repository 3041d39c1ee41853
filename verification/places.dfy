// Numbered things kept in places: each of the first `issued` numbers is in exactly one
// place, once. A place is any value of P; `box` says what is in it.
module Places {
  predicate NoRepeats(cs: seq<nat>)
  {
    forall i, j :: 0 <= i < j < |cs| ==> cs[i] != cs[j]
  }

  ghost predicate OnePlace<P(!new)>(box: P -> seq<nat>, issued: nat)
  {
    && (forall p :: NoRepeats(box(p)))
    && (forall p, q, c :: c in box(p) && c in box(q) ==> p == q)
    && (forall p, c :: c in box(p) ==> c < issued)
    && (forall c :: 0 <= c < issued ==> Somewhere(box, c))
  }

  ghost predicate Somewhere<P(!new)>(box: P -> seq<nat>, c: nat)
  {
    exists p :: c in box(p)
  }

  // In one place and in no other.
  ghost predicate InOnePlace<P(!new)>(box: P -> seq<nat>, c: nat)
  {
    exists p :: c in box(p) && OnlyAt(box, c, p)
  }

  ghost predicate OnlyAt<P(!new)>(box: P -> seq<nat>, c: nat, p: P)
  {
    forall q :: c in box(q) ==> q == p
  }

  lemma Found<P(!new)>(box: P -> seq<nat>, issued: nat, c: nat)
    requires OnePlace(box, issued) && c < issued
    ensures InOnePlace(box, c)
  {
    assert Somewhere(box, c);
    var p :| c in box(p);
    assert OnlyAt(box, c, p);
  }

  lemma AppendNew(cs: seq<nat>, c: nat)
    requires NoRepeats(cs) && c !in cs
    ensures NoRepeats(cs + [c])
  {
  }

  lemma Joined(a: seq<nat>, b: seq<nat>)
    requires NoRepeats(a) && NoRepeats(b) && forall c :: c in a ==> c !in b
    ensures NoRepeats(a + b)
  {
    var ab := a + b;
    forall i, j | 0 <= i < j < |ab| ensures ab[i] != ab[j] {
      if i < |a| && j >= |a| {
        assert ab[i] in a && ab[j] in b;
      }
    }
  }

  // One new number, put at the end of one place.
  lemma AddOne<P(!new)>(before: P -> seq<nat>, after: P -> seq<nat>, issued: nat, at: P)
    requires OnePlace(before, issued)
    requires after(at) == before(at) + [issued]
    requires forall p :: p != at ==> after(p) == before(p)
    ensures OnePlace(after, issued + 1)
  {
    assert issued in after(at) && issued !in before(at);
    AppendNew(before(at), issued);
    forall c | 0 <= c < issued + 1 ensures Somewhere(after, c) {
      if c < issued {
        assert Somewhere(before, c);
        var p :| c in before(p);
        assert c in after(p);
      }
    }
  }

  // Everything in one place moved to the end of another.
  lemma MoveAll<P(!new)>(before: P -> seq<nat>, after: P -> seq<nat>, issued: nat, from: P, to: P)
    requires OnePlace(before, issued) && from != to
    requires after(from) == [] && after(to) == before(to) + before(from)
    requires forall p :: p != from && p != to ==> after(p) == before(p)
    ensures OnePlace(after, issued)
  {
    Joined(before(to), before(from));
    forall c | 0 <= c < issued ensures Somewhere(after, c) {
      assert Somewhere(before, c);
      var p :| c in before(p);
      assert c in after(if p == from then to else p);
    }
  }

  // The first of one place moved to the end of another.
  lemma MoveFirst<P(!new)>(before: P -> seq<nat>, after: P -> seq<nat>, issued: nat, from: P, to: P)
    requires OnePlace(before, issued) && from != to && before(from) != []
    requires after(from) == before(from)[1..] && after(to) == before(to) + [before(from)[0]]
    requires forall p :: p != from && p != to ==> after(p) == before(p)
    ensures OnePlace(after, issued)
  {
    var first := before(from)[0];
    assert first in before(from);
    AppendNew(before(to), first);
    forall c | c in after(from) ensures c in before(from) && c != first {
      var i :| 0 <= i < |after(from)| && after(from)[i] == c;
      assert before(from)[i + 1] == c;
    }
    forall c | 0 <= c < issued ensures Somewhere(after, c) {
      assert Somewhere(before, c);
      var p :| c in before(p);
      if c == first {
        assert after(to)[|before(to)|] == c;
      } else if p == from {
        var i :| 0 <= i < |before(from)| && before(from)[i] == c;
        assert after(from)[i - 1] == c;
      } else {
        assert c in after(p);
      }
    }
  }

  // Everything moved to the end of one place, in any order.
  lemma GatherAll<P(!new)>(before: P -> seq<nat>, after: P -> seq<nat>, issued: nat, to: P, order: seq<nat>)
    requires OnePlace(before, issued) && NoRepeats(order)
    requires forall c :: c in order <==> exists p :: p != to && c in before(p)
    requires after(to) == before(to) + order && forall p :: p != to ==> after(p) == []
    ensures OnePlace(after, issued)
  {
    Joined(before(to), order);
    forall c | 0 <= c < issued ensures Somewhere(after, c) {
      assert Somewhere(before, c);
      assert c in after(to);
    }
  }

  lemma Same<P(!new)>(before: P -> seq<nat>, after: P -> seq<nat>, issued: nat)
    requires OnePlace(before, issued) && forall p :: after(p) == before(p)
    ensures OnePlace(after, issued)
  {
    forall c | 0 <= c < issued ensures Somewhere(after, c) {
      assert Somewhere(before, c);
      var p :| c in before(p);
      assert c in after(p);
    }
  }
}
