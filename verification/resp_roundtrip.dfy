// Reading back what was written, wherever it stands in a stream, and failing cleanly
// wherever the stream breaks off.
module RespRoundTrip {
  import opened Text
  import opened Decimal
  import opened RespFormat
  import opened RespLaws

  // s holds e from position i on.
  predicate Holds(s: bytes, i: nat, e: bytes)
  {
    i + |e| <= |s| && s[i..i + |e|] == e
  }

  lemma HoldsParts(s: bytes, i: nat, a: bytes, b: bytes)
    requires Holds(s, i, a + b)
    ensures Holds(s, i, a) && Holds(s, i + |a|, b)
  {
    assert s[i..i + |a|] == (a + b)[..|a|];
    assert s[i + |a|..i + |a| + |b|] == s[i..i + |a| + |b|][|a|..] == (a + b)[|a|..];
  }

  lemma HoldsByte(s: bytes, i: nat, e: bytes, j: nat)
    requires Holds(s, i, e) && j < |e|
    ensures s[i + j] == e[j]
  {
    assert s[i..i + |e|][j] == e[j];
  }

  lemma {:induction false} LineEndAt(s: bytes, i: nat, n: nat, k: nat)
    requires i <= n < k <= |s| && s[n] == '\n' && forall j :: i <= j < n ==> s[j] != '\n'
    ensures LineEnd(s, i, k) == n
    decreases n - i
  {
    if i < n {
      LineEndAt(s, i + 1, n, k);
    }
  }

  predicate OneLine(line: bytes)
  {
    forall j :: 0 <= j < |line| ==> line[j] != '\n'
  }

  lemma LineHeld(s: bytes, i: nat, k: nat, line: bytes)
    requires Holds(s, i, line + "\r\n") && OneLine(line) && i + |line| + 2 <= k <= |s|
    ensures StrictLine(s, i, k) == Done(line, i + |line| + 2)
  {
    var e := line + "\r\n";
    forall j | i <= j < i + |line| + 1 ensures s[j] != '\n' {
      HoldsByte(s, i, e, j - i);
    }
    HoldsByte(s, i, e, |line| + 1);
    LineEndAt(s, i, i + |line| + 1, k);
    assert StringAt(s, i, k) == Done(e, i + |e|);
    assert e[|line|..] == "\r\n" && e[..|line|] == line;
  }

  lemma NumberHeld(prefix: char, s: bytes, i: nat, k: nat, n: int)
    requires MIN_INT <= n <= MAX_INT
    requires Holds(s, i, [prefix] + Itoa(n) + "\r\n") && i + |Itoa(n)| + 3 <= k <= |s|
    ensures StrictNumber(prefix, s, i, k) == Done(n, i + |Itoa(n)| + 3)
  {
    hide Atoi, StrictLine;
    assert [prefix] + Itoa(n) + "\r\n" == [prefix] + (Itoa(n) + "\r\n");
    HoldsParts(s, i, [prefix], Itoa(n) + "\r\n");
    HoldsByte(s, i, [prefix], 0);
    ItoaChars(n);
    LineHeld(s, i + 1, k, Itoa(n));
    AtoiOfItoa(n);
  }

  // No string, and no slice, is longer than the largest int.
  predicate Sized(items: seq<Option<bytes>>)
  {
    |items| <= MAX_INT && forall i :: 0 <= i < |items| ==> |Flat(items[i])| <= MAX_INT
  }

  lemma BulkHeld(s: bytes, i: nat, k: nat, p: Option<bytes>)
    requires Holds(s, i, Bulk(p)) && |Flat(p)| <= MAX_INT && i + |Bulk(p)| <= k <= |s|
    ensures StrictBulk(s, i, k) == Done(p, i + |Bulk(p)|)
  {
    hide StrictNumber, Itoa;
    if p.None? {
      assert Itoa(-1) == "-1" by { MinusOne(); }
      NumberHeld('$', s, i, k, -1);
    } else {
      var head, body := "$" + Itoa(|p.value|) + "\r\n", p.value + "\r\n";
      assert Bulk(p) == head + body;
      HoldsParts(s, i, head, body);
      NumberHeld('$', s, i, k, |p.value|);
      assert body[|p.value|..] == "\r\n" && body[..|p.value|] == p.value;
    }
  }

  lemma MinusOne()
    ensures Itoa(-1) == "-1"
  {
  }

  lemma {:induction false} BulksHeld(s: bytes, i: nat, k: nat, items: seq<Option<bytes>>)
    requires Holds(s, i, Bulks(items)) && Sized(items) && i + |Bulks(items)| <= k <= |s|
    ensures StrictItems(s, i, k, |items|) == Done(items, i + |Bulks(items)|)
    decreases |items|
  {
    hide StrictBulk, Bulk;
    if |items| > 0 {
      HoldsParts(s, i, Bulk(items[0]), Bulks(items[1..]));
      BulkHeld(s, i, k, items[0]);
      BulksHeld(s, i + |Bulk(items[0])|, k, items[1..]);
      assert items == [items[0]] + items[1..];
    }
  }

  // An array that stands somewhere in a stream is read back, and nothing beyond it.
  lemma ArrayHeld(s: bytes, i: nat, k: nat, items: seq<Option<bytes>>)
    requires Holds(s, i, ArrayOf(items)) && Sized(items) && i + |ArrayOf(items)| <= k <= |s|
    ensures StrictArray(s, i, k) == Done(items, i + |ArrayOf(items)|)
  {
    hide StrictNumber, StrictItems, Itoa;
    HoldsParts(s, i, Header(|items|), Bulks(items));
    NumberHeld('*', s, i, k, |items|);
    BulksHeld(s, i + |Header(|items|)|, k, items);
  }

  // Both readers invert the array writer, whatever comes before and after it; the lenient
  // one reads a nil payload as the empty string.
  lemma ArrayRoundTrip(before: bytes, items: seq<Option<bytes>>, after: bytes)
    requires Sized(items)
    ensures var s, end := before + ArrayOf(items) + after, |before| + |ArrayOf(items)|;
            && StrictArray(s, |before|, |s|) == Done(items, end)
            && LenientArray(s, |before|, |s|) == Done(Flats(items), end)
  {
    hide StrictArray, LenientArray, ArrayOf;
    var s := before + ArrayOf(items) + after;
    assert s[|before|..|before| + |ArrayOf(items)|] == ArrayOf(items);
    ArrayHeld(s, |before|, |s|, items);
    StrictRefinesLenient(s, |before|, |s|);
  }

  // A command of at least one word reaches the server word for word. An empty command is
  // not written at all.
  lemma CommandRoundTrip(before: bytes, args: seq<bytes>, after: bytes)
    requires 0 < |args| && Sized(Present(args))
    ensures var s := before + Command(args) + after;
            LenientArray(s, |before|, |s|) == Done(args, |before| + |Command(args)|)
  {
    hide LenientArray, ArrayOf;
    ArrayRoundTrip(before, Present(args), after);
    assert Flats(Present(args)) == args;
  }

  // On a stream that ends anywhere inside an array both readers meet the end of file.
  lemma ArrayCutShort(items: seq<Option<bytes>>, k: nat)
    requires Sized(items) && k < |ArrayOf(items)|
    ensures Ended(StrictArray(ArrayOf(items), 0, k)) && Ended(LenientArray(ArrayOf(items), 0, k))
  {
    hide StrictArray, LenientArray, ArrayOf;
    var s := ArrayOf(items);
    ArrayHeld(s, 0, |s|, items);
    StrictRefinesLenient(s, 0, |s|);
    StrictArrayFramed(s, 0, k, |s|);
    LenientArrayFramed(s, 0, k, |s|);
  }
}
