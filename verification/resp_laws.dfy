// What the two readers do with every stream: that any shorter stream ends a successful
// read with an end-of-file error, that the strict reader refines the lenient one, and
// that both invert the writers.
module RespLaws {
  import opened Text
  import opened Decimal
  import opened RespFormat

  // ---- Framing -----------------------------------------------------------------------

  predicate Ended<T>(p: Parse<T>)
  {
    p.Fail? && (p.error == Eof || p.error == UnexpectedEof)
  }

  // A read that succeeds does the same on a stream that ends at k or later than it got to,
  // and meets the end of file on every shorter one.
  predicate Framed<T(==)>(k: nat, whole: Parse<T>, cut: Parse<T>)
  {
    whole.Done? ==> if whole.at <= k then cut == whole else Ended(cut)
  }

  lemma {:induction false} LineEndCut(s: bytes, i: nat, k: nat, n: nat)
    requires i <= k <= n <= |s|
    ensures LineEnd(s, i, k) == if LineEnd(s, i, n) < k then LineEnd(s, i, n) else k
    decreases k - i
  {
    if i < k && s[i] != '\n' {
      LineEndCut(s, i + 1, k, n);
    }
  }

  lemma LinesFramed(s: bytes, i: nat, k: nat, n: nat)
    requires i <= k <= n <= |s|
    ensures Framed(k, StrictLine(s, i, n), StrictLine(s, i, k))
    ensures Framed(k, LenientLine(s, i, n), LenientLine(s, i, k))
  {
    hide LineEnd, HasSuffix, TrimSuffix;
    LineEndCut(s, i, k, n);
  }

  lemma StrictNumberFramed(prefix: char, s: bytes, i: nat, k: nat, n: nat)
    requires i <= k <= n <= |s|
    ensures Framed(k, StrictNumber(prefix, s, i, n), StrictNumber(prefix, s, i, k))
  {
    hide Atoi, StrictLine;
    if i < k {
      LinesFramed(s, i + 1, k, n);
    }
  }

  lemma StrictBulkFramed(s: bytes, i: nat, k: nat, n: nat)
    requires i <= k <= n <= |s|
    ensures Framed(k, StrictBulk(s, i, n), StrictBulk(s, i, k))
  {
    hide StrictNumber;
    StrictNumberFramed('$', s, i, k, n);
  }

  lemma {:induction false} StrictItemsFramed(s: bytes, i: nat, k: nat, n: nat, count: nat)
    requires i <= k <= n <= |s|
    ensures Framed(k, StrictItems(s, i, n, count), StrictItems(s, i, k, count))
    decreases count
  {
    hide StrictBulk;
    if count > 0 {
      var first, cut := StrictBulk(s, i, n), StrictBulk(s, i, k);
      StrictBulkFramed(s, i, k, n);
      if first.Done? && first.at <= k {
        assert cut == first;
        StrictItemsFramed(s, first.at, k, n, count - 1);
        assert StrictItems(s, i, k, count) == Prefixed([first.value], StrictItems(s, first.at, k, count - 1));
      } else if first.Done? {
        assert StrictItems(s, i, k, count) == Fail(cut.error, cut.at);
      }
    }
  }

  lemma StrictArrayFramed(s: bytes, i: nat, k: nat, n: nat)
    requires i <= k <= n <= |s|
    ensures Framed(k, StrictArray(s, i, n), StrictArray(s, i, k))
  {
    StrictNumberFramed('*', s, i, k, n);
    var first := StrictHeader(s, i, n);
    if first.Done? && first.at <= k {
      StrictItemsFramed(s, first.at, k, n, first.value);
    }
  }

  lemma LenientBulkFramed(s: bytes, i: nat, k: nat, n: nat)
    requires i <= k <= n <= |s|
    ensures Framed(k, LenientBulk(s, i, n), LenientBulk(s, i, k))
  {
    hide Atoi, LenientLine, FullAt;
    LinesFramed(s, i, k, n);
    var first := LenientLine(s, i, n);
    if first.Done? && first.at <= k && Atoi(first.value).Some? && Atoi(first.value).value >= 0 {
      FullFramed(s, first.at, k, n, Atoi(first.value).value + 2);
    }
  }

  lemma FullFramed(s: bytes, i: nat, k: nat, n: nat, count: nat)
    requires i <= k <= n <= |s|
    ensures Framed(k, FullAt(s, i, n, count), FullAt(s, i, k, count))
  {
  }

  lemma LenientStringFramed(s: bytes, i: nat, k: nat, n: nat)
    requires i <= k <= n <= |s|
    ensures Framed(k, LenientString(s, i, n), LenientString(s, i, k))
  {
    hide LenientBulk, LenientLine;
    if i < k {
      LinesFramed(s, i + 1, k, n);
      LenientBulkFramed(s, i + 1, k, n);
    }
  }

  lemma {:induction false} LenientItemsFramed(s: bytes, i: nat, k: nat, n: nat, count: nat)
    requires i <= k <= n <= |s|
    ensures Framed(k, LenientItems(s, i, n, count), LenientItems(s, i, k, count))
    decreases count
  {
    hide LenientString;
    if count > 0 {
      var first, cut := LenientString(s, i, n), LenientString(s, i, k);
      LenientStringFramed(s, i, k, n);
      if first.Done? && first.at <= k {
        assert cut == first;
        LenientItemsFramed(s, first.at, k, n, count - 1);
        assert LenientItems(s, i, k, count) == Prefixed([first.value], LenientItems(s, first.at, k, count - 1));
      } else if first.Done? {
        assert LenientItems(s, i, k, count) == Fail(cut.error, cut.at);
      }
    }
  }

  lemma LenientHeaderFramed(s: bytes, i: nat, k: nat, n: nat)
    requires i <= k <= n <= |s|
    ensures Framed(k, LenientHeader(s, i, n), LenientHeader(s, i, k))
  {
    hide Atoi, LenientLine;
    if i < k {
      LinesFramed(s, i + 1, k, n);
    }
  }

  lemma LenientArrayFramed(s: bytes, i: nat, k: nat, n: nat)
    requires i <= k <= n <= |s|
    ensures Framed(k, LenientArray(s, i, n), LenientArray(s, i, k))
  {
    LenientHeaderFramed(s, i, k, n);
    var first := LenientHeader(s, i, n);
    if first.Done? && first.at <= k {
      LenientItemsFramed(s, first.at, k, n, first.value);
    }
  }

  // ---- The strict reader refines the lenient one ---------------------------------------

  function Flats(items: seq<Option<bytes>>): (r: seq<bytes>)
    ensures |r| == |items|
  {
    seq(|items|, i requires 0 <= i < |items| => Flat(items[i]))
  }

  lemma LineRefines(s: bytes, i: nat, k: nat)
    requires i <= k <= |s| && StrictLine(s, i, k).Done?
    ensures LenientLine(s, i, k) == StrictLine(s, i, k)
  {
    var line := StringAt(s, i, k).value;
    assert line[..|line| - 1][..|line| - 2] == line[..|line| - 2];
    assert line[|line| - 2..] == "\r\n";
    assert line[|line| - 2] == '\r' && line[|line| - 1] == '\n';
  }

  lemma BulkRefines(s: bytes, i: nat, k: nat)
    requires i <= k <= |s| && StrictBulk(s, i, k).Done?
    ensures var p := StrictBulk(s, i, k); LenientString(s, i, k) == Done(Flat(p.value), p.at)
  {
    hide Atoi, StrictLine, LenientLine, FullAt;
    LineRefines(s, i + 1, k);
  }

  lemma FlatsCons(v: Option<bytes>, vs: seq<Option<bytes>>)
    ensures Flats([v] + vs) == [Flat(v)] + Flats(vs)
  {
  }

  lemma {:induction false} ItemsRefine(s: bytes, i: nat, k: nat, n: nat)
    requires i <= k <= |s| && StrictItems(s, i, k, n).Done?
    ensures var p := StrictItems(s, i, k, n); LenientItems(s, i, k, n) == Done(Flats(p.value), p.at)
    decreases n
  {
    hide StrictBulk, LenientString;
    if n > 0 {
      BulkRefines(s, i, k);
      var first := StrictBulk(s, i, k);
      var more := StrictItems(s, first.at, k, n - 1);
      assert StrictItems(s, i, k, n) == Prefixed([first.value], more);
      ItemsRefine(s, first.at, k, n - 1);
      assert LenientItems(s, i, k, n) == Prefixed([Flat(first.value)], LenientItems(s, first.at, k, n - 1));
      FlatsCons(first.value, more.value);
    }
  }

  // Every array the bridge can read, the server reads to the same elements, a nil one as
  // the empty string, and stops at the same place.
  lemma StrictRefinesLenient(s: bytes, i: nat, k: nat)
    requires i <= k <= |s| && StrictArray(s, i, k).Done?
    ensures var p := StrictArray(s, i, k); LenientArray(s, i, k) == Done(Flats(p.value), p.at)
  {
    LineRefines(s, i + 1, k);
    var first := StrictHeader(s, i, k);
    ItemsRefine(s, first.at, k, first.value);
  }
}
