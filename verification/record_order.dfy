// sortRecords: higher priority first, then ids in byte order.
module RecordOrder {
  import opened HostState
  import opened Ordering

  predicate IdLeq(a: string, b: string)
  {
    |a| == 0 || (|b| > 0 && (a[0] < b[0] || (a[0] == b[0] && IdLeq(a[1..], b[1..]))))
  }

  predicate Leq(a: Record, b: Record)
  {
    a.priority > b.priority || (a.priority == b.priority && IdLeq(a.id, b.id))
  }

  lemma {:induction false} IdTotal(a: string, b: string)
    ensures IdLeq(a, b) || IdLeq(b, a)
  {
    if |a| > 0 && |b| > 0 && a[0] == b[0] {
      IdTotal(a[1..], b[1..]);
    }
  }

  lemma {:induction false} IdTransitive(a: string, b: string, c: string)
    requires IdLeq(a, b) && IdLeq(b, c)
    ensures IdLeq(a, c)
  {
    if |a| > 0 && a[0] == b[0] == c[0] {
      IdTransitive(a[1..], b[1..], c[1..]);
    }
  }

  lemma LeqIsTotal()
    ensures TotalPreorder(Leq)
  {
    hide IdLeq;
    forall a: Record, b: Record ensures Leq(a, b) || Leq(b, a) { IdTotal(a.id, b.id); }
    forall a: Record, b: Record, c: Record | Leq(a, b) && Leq(b, c) ensures Leq(a, c) {
      if a.priority == b.priority == c.priority {
        IdTransitive(a.id, b.id, c.id);
      }
    }
  }

  // The two agree up to n, where a has ended or has the smaller byte.
  predicate PartAt(a: string, b: string, n: nat)
  {
    n <= |a| && n <= |b| && (forall k :: 0 <= k < n ==> a[k] == b[k]) && (n == |a| || (n < |b| && a[n] < b[n]))
  }

  ghost predicate NotAfter(a: string, b: string)
  {
    exists n: nat :: PartAt(a, b, n)
  }

  lemma {:induction false} IdLeqIs(a: string, b: string)
    ensures IdLeq(a, b) <==> NotAfter(a, b)
  {
    if |a| == 0 || |b| == 0 || a[0] != b[0] {
      assert PartAt(a, b, 0) <==> IdLeq(a, b);
    } else {
      IdLeqIs(a[1..], b[1..]);
      if n: nat :| PartAt(a[1..], b[1..], n) {
        assert forall k :: 0 < k < n + 1 ==> a[k] == a[1..][k - 1] && b[k] == b[1..][k - 1];
        assert PartAt(a, b, n + 1);
      }
      if n: nat :| PartAt(a, b, n) {
        assert PartAt(a[1..], b[1..], n - 1);
      }
    }
  }

  // Priorities fall, and among equal ones the ids rise.
  ghost predicate Falling(records: seq<Record>)
  {
    forall i, j :: 0 <= i < j < |records| ==>
      || records[i].priority > records[j].priority
      || (records[i].priority == records[j].priority && NotAfter(records[i].id, records[j].id))
  }

  lemma OrderedFalls(records: seq<Record>)
    requires Ordered(records, Leq)
    ensures Falling(records)
  {
    hide IdLeq, NotAfter;
    forall i, j | 0 <= i < j < |records|
      ensures Leq(records[i], records[j]) && (IdLeq(records[i].id, records[j].id) <==> NotAfter(records[i].id,
          records[j].id))
    {
      IdLeqIs(records[i].id, records[j].id);
    }
  }

  method SortRecords(records: seq<Record>) returns (sorted: seq<Record>)
    ensures Ordered(sorted, Leq) && multiset(sorted) == multiset(records)
    ensures Falling(sorted)
  {
    LeqIsTotal();
    sorted := Sort(records, Leq);
    OrderedFalls(sorted);
  }
}
