// What the two readers accept, as a grammar: a read succeeds with a value exactly when the
// bytes it consumed spell that value.
module RespGrammar {
  import opened Text
  import opened Decimal
  import opened RespFormat

  // The bridge ends lines by CR LF; for the server the CR may be missing.
  datatype Side = Bridge | Server

  predicate NoLf(line: bytes)
  {
    forall i :: 0 <= i < |line| ==> line[i] != '\n'
  }

  predicate SpellsLine(side: Side, line: bytes, t: bytes)
  {
    NoLf(line)
    && (t == line + "\r\n" || (side == Server && t == line + "\n" && !(|line| > 0 && line[|line| - 1] == '\r')))
  }

  // A prefix byte and a line that is a number.
  ghost predicate SpellsNumber(side: Side, prefix: char, n: int, t: bytes)
  {
    exists line: bytes :: Atoi(line) == Some(n) && |t| > 0 && t[0] == prefix && SpellsLine(side, line, t[1..])
  }

  // A length and that many bytes and CR LF, or a negative length.
  ghost predicate SpellsBulk(side: Side, v: Option<bytes>, t: bytes)
  {
    || (v.None? && exists n :: n < 0 && SpellsNumber(side, '$', n, t))
    || (v.Some? && exists m: nat :: m <= |t| && SpellsNumber(side, '$', |v.value|, t[..m])
                       && t[m..] == v.value + "\r\n")
  }

  // ---- Lines ----------------------------------------------------------------------------

  // Ends with its only line feed.
  predicate OneLf(text: bytes)
  {
    |text| > 0 && text[|text| - 1] == '\n' && NoLf(text[..|text| - 1])
  }

  lemma StringAtIs(s: bytes, i: nat, k: nat, text: bytes, j: nat)
    requires i <= k <= |s|
    ensures StringAt(s, i, k) == Done(text, j) <==> i <= j <= k && text == s[i..j] && OneLf(text)
  {
    if i <= j <= k && text == s[i..j] && OneLf(text) {
      assert s[j - 1] == text[|text| - 1];
      forall m | i <= m < j - 1 ensures s[m] != '\n' { assert text[..|text| - 1][m - i] == s[m]; }
      LineEndIs(s, i, k, j - 1);
    }
  }

  // Reading up to the line feed, wherever it stands.
  lemma LineEndIs(s: bytes, i: nat, k: nat, n: nat)
    requires i <= n < k <= |s| && s[n] == '\n' && forall m :: i <= m < n ==> s[m] != '\n'
    ensures LineEnd(s, i, k) == n
  {
  }

  lemma BridgeText(text: bytes, line: bytes)
    requires OneLf(text)
    ensures HasSuffix(text, "\r\n") && TrimSuffix(text, "\r\n") == line <==> SpellsLine(Bridge, line, text)
  {
    if HasSuffix(text, "\r\n") {
      var cut := text[..|text| - 2];
      assert text == cut + "\r\n";
      forall m | 0 <= m < |cut| ensures cut[m] != '\n' { assert text[..|text| - 1][m] == cut[m]; }
      if text == line + "\r\n" { assert line == cut; }
    }
    EndsInCrLf(line);
  }

  lemma EndsInCrLf(line: bytes)
    ensures HasSuffix(line + "\r\n", "\r\n")
  {
    assert (line + "\r\n")[|line|..] == "\r\n";
  }

  lemma SuffixByte(text: bytes)
    ensures HasSuffix(text, "\r") <==> |text| > 0 && text[|text| - 1] == '\r'
  {
    if |text| > 0 { assert text[|text| - 1..] == [text[|text| - 1]]; }
  }

  lemma ServerText(text: bytes, line: bytes)
    requires OneLf(text)
    ensures TrimSuffix(TrimSuffix(text, "\n"), "\r") == line <==> SpellsLine(Server, line, text)
  {
    var cut := text[..|text| - 1];
    assert text == cut + "\n" && text[|cut|..] == "\n";
    assert TrimSuffix(text, "\n") == cut;
    if |cut| > 0 && cut[|cut| - 1] == '\r' {
      var rest := cut[..|cut| - 1];
      assert cut == rest + "\r" && cut[|rest|..] == "\r" && text == rest + "\r\n";
      assert TrimSuffix(cut, "\r") == rest;
      ServerEnds(text, cut, line);
      if text == line + "\r\n" { assert line == text[..|text| - 2] == rest; }
    } else {
      SuffixByte(cut);
      ServerEnds(text, cut, line);
    }
  }

  lemma ServerEnds(text: bytes, cut: bytes, line: bytes)
    requires text == cut + "\n"
    ensures text == line + "\n" ==> line == cut
    ensures text == line + "\r\n" ==> |cut| > 0 && cut[|cut| - 1] == '\r'
  {
    if text == line + "\n" { assert line == text[..|text| - 1] == cut; }
    if text == line + "\r\n" { assert text[|text| - 2] == '\r' && cut[|cut| - 1] == text[|cut| - 1]; }
  }

  lemma SpelledLf(side: Side, line: bytes, text: bytes)
    requires SpellsLine(side, line, text)
    ensures OneLf(text)
  {
    var cut := text[..|text| - 1];
    assert text == line + "\r\n" ==> cut == line + "\r";
    assert text == line + "\n" ==> cut == line;
  }

  lemma BridgeLine(s: bytes, i: nat, k: nat, line: bytes, j: nat)
    requires i <= k <= |s|
    ensures StrictLine(s, i, k) == Done(line, j) <==> i <= j <= k && SpellsLine(Bridge, line, s[i..j])
  {
    hide OneLf, SpellsLine, HasSuffix, TrimSuffix, StringAt;
    if i <= j <= k {
      StringAtIs(s, i, k, s[i..j], j);
      if OneLf(s[i..j]) { BridgeText(s[i..j], line); }
      if SpellsLine(Bridge, line, s[i..j]) { SpelledLf(Bridge, line, s[i..j]); }
    }
    if StrictLine(s, i, k) == Done(line, j) { StringAtIs(s, i, k, StringAt(s, i, k).value, j); }
  }

  lemma ServerLine(s: bytes, i: nat, k: nat, line: bytes, j: nat)
    requires i <= k <= |s|
    ensures LenientLine(s, i, k) == Done(line, j) <==> i <= j <= k && SpellsLine(Server, line, s[i..j])
  {
    hide OneLf, SpellsLine, HasSuffix, TrimSuffix, StringAt;
    if i <= j <= k {
      StringAtIs(s, i, k, s[i..j], j);
      if OneLf(s[i..j]) { ServerText(s[i..j], line); }
      if SpellsLine(Server, line, s[i..j]) { SpelledLf(Server, line, s[i..j]); }
    }
    if LenientLine(s, i, k) == Done(line, j) { StringAtIs(s, i, k, StringAt(s, i, k).value, j); }
  }

  // ---- Numbers, bulk strings and arrays, as the bridge reads them ------------------------

  lemma {:induction false} BridgeNumber(prefix: char, s: bytes, i: nat, k: nat, n: int, j: nat)
    requires i <= k <= |s|
    ensures StrictNumber(prefix, s, i, k) == Done(n, j) <==> i <= j <= k && SpellsNumber(Bridge, prefix, n, s[i..j])
  {
    hide Atoi, StrictLine, SpellsLine;
    if StrictNumber(prefix, s, i, k) == Done(n, j) {
      var line := StrictLine(s, i + 1, k).value;
      BridgeLine(s, i + 1, k, line, j);
      assert s[i..j][1..] == s[i + 1..j] && s[i..j][0] == prefix;
    }
    if i <= j <= k && SpellsNumber(Bridge, prefix, n, s[i..j]) {
      var line: bytes :| Atoi(line) == Some(n) && |s[i..j]| > 0 && s[i..j][0] == prefix
        && SpellsLine(Bridge, line, s[i..j][1..]);
      assert s[i..j][1..] == s[i + 1..j];
      BridgeLine(s, i + 1, k, line, j);
    }
  }

  // n bytes and CR LF.
  lemma PayloadIs(s: bytes, i: nat, k: nat, v: bytes, j: nat)
    requires i <= k <= |s|
    ensures var p := FullAt(s, i, k, |v| + 2);
            p.Done? && p.value[|v|..] == "\r\n" && p.value[..|v|] == v && p.at == j <==>
            i <= j <= k && s[i..j] == v + "\r\n"
  {
    if i <= j <= k && s[i..j] == v + "\r\n" {
      assert s[i..j][|v|..] == "\r\n" && s[i..j][..|v|] == v;
    }
    if i + |v| + 2 <= k {
      var buf := s[i..i + |v| + 2];
      assert buf == buf[..|v|] + buf[|v|..];
    }
  }

  lemma BulkTaken(s: bytes, i: nat, k: nat, v: Option<bytes>, j: nat)
    requires i <= k <= |s| && StrictBulk(s, i, k) == Done(v, j)
    ensures i <= j <= k && SpellsBulk(Bridge, v, s[i..j])
  {
    hide StrictNumber, SpellsNumber, FullAt;
    var (n, m) := (StrictNumber('$', s, i, k).value, StrictNumber('$', s, i, k).at);
    BridgeNumber('$', s, i, k, n, m);
    if n >= 0 {
      PayloadIs(s, m, k, v.value, j);
      assert s[i..j][..m - i] == s[i..m] && s[i..j][m - i..] == s[m..j];
    }
  }

  lemma SplitAt(s: bytes, i: nat, j: nat, m: nat)
    requires i <= j <= |s| && m <= j - i
    ensures s[i..j][..m] == s[i..i + m] && s[i..j][m..] == s[i + m..j]
  {
  }

  lemma BulkSpelled(s: bytes, i: nat, k: nat, v: Option<bytes>, j: nat)
    requires i <= j <= k <= |s| && SpellsBulk(Bridge, v, s[i..j])
    ensures StrictBulk(s, i, k) == Done(v, j)
  {
    hide StrictNumber, SpellsNumber, FullAt;
    if v.None? {
      var n :| n < 0 && SpellsNumber(Bridge, '$', n, s[i..j]);
      BridgeNumber('$', s, i, k, n, j);
    } else {
      var m: nat :| m <= |s[i..j]| && SpellsNumber(Bridge, '$', |v.value|, s[i..j][..m])
        && s[i..j][m..] == v.value + "\r\n";
      SplitAt(s, i, j, m);
      BridgeNumber('$', s, i, k, |v.value|, i + m);
      PayloadRead(s, i, k, v.value, i + m, j);
    }
  }

  lemma PayloadRead(s: bytes, i: nat, k: nat, v: bytes, l: nat, j: nat)
    requires i <= k <= |s| && StrictNumber('$', s, i, k) == Done(|v|, l)
    requires l <= j <= k && s[l..j] == v + "\r\n"
    ensures StrictBulk(s, i, k) == Done(Some(v), j)
  {
    hide StrictNumber, FullAt;
    PayloadIs(s, l, k, v, j);
  }

  lemma BridgeBulk(s: bytes, i: nat, k: nat, v: Option<bytes>, j: nat)
    requires i <= k <= |s|
    ensures StrictBulk(s, i, k) == Done(v, j) <==> i <= j <= k && SpellsBulk(Bridge, v, s[i..j])
  {
    hide StrictBulk, SpellsBulk;
    if StrictBulk(s, i, k) == Done(v, j) { BulkTaken(s, i, k, v, j); }
    if i <= j <= k && SpellsBulk(Bridge, v, s[i..j]) { BulkSpelled(s, i, k, v, j); }
  }

  // One after the other.
  ghost predicate SpellsAll(items: seq<Option<bytes>>, t: bytes)
  {
    if |items| == 0 then t == ""
    else exists m: nat :: m <= |t| && SpellsBulk(Bridge, items[0], t[..m]) && SpellsAll(items[1..], t[m..])
  }

  ghost predicate SpellsArray(items: seq<Option<bytes>>, t: bytes)
  {
    exists m: nat :: m <= |t| && SpellsNumber(Bridge, '*', |items|, t[..m]) && SpellsAll(items, t[m..])
  }

  lemma {:induction false} BridgeItems(s: bytes, i: nat, k: nat, items: seq<Option<bytes>>, j: nat)
    requires i <= k <= |s|
    ensures StrictItems(s, i, k, |items|) == Done(items, j) <==> i <= j <= k && SpellsAll(items, s[i..j])
    decreases |items|
  {
    hide StrictBulk, SpellsBulk;
    if |items| > 0 {
      if StrictItems(s, i, k, |items|) == Done(items, j) {
        var m := StrictBulk(s, i, k).at;
        var more := StrictItems(s, m, k, |items| - 1).value;
        assert items == [StrictBulk(s, i, k).value] + more;
        BridgeBulk(s, i, k, items[0], m);
        BridgeItems(s, m, k, items[1..], j);
        assert s[i..j][..m - i] == s[i..m] && s[i..j][m - i..] == s[m..j];
      }
      if i <= j <= k && SpellsAll(items, s[i..j]) {
        var t := s[i..j];
        var m: nat :| m <= |t| && SpellsBulk(Bridge, items[0], t[..m]) && SpellsAll(items[1..], t[m..]);
        assert t[..m] == s[i..i + m] && t[m..] == s[i + m..j];
        BridgeBulk(s, i, k, items[0], i + m);
        BridgeItems(s, i + m, k, items[1..], j);
        assert [items[0]] + items[1..] == items;
      }
    }
  }

  // The strict reader takes exactly the spellings of an array.
  lemma BridgeArray(s: bytes, i: nat, k: nat, items: seq<Option<bytes>>, j: nat)
    requires i <= k <= |s|
    ensures StrictArray(s, i, k) == Done(items, j) <==> i <= j <= k && SpellsArray(items, s[i..j])
  {
    hide StrictNumber, SpellsNumber, StrictItems, SpellsAll;
    if StrictArray(s, i, k) == Done(items, j) {
      var m := StrictHeader(s, i, k).at;
      BridgeNumber('*', s, i, k, |items|, m);
      BridgeItems(s, m, k, items, j);
      assert s[i..j][..m - i] == s[i..m] && s[i..j][m - i..] == s[m..j];
    }
    if i <= j <= k && SpellsArray(items, s[i..j]) {
      var t := s[i..j];
      var m: nat :| m <= |t| && SpellsNumber(Bridge, '*', |items|, t[..m]) && SpellsAll(items, t[m..]);
      assert t[..m] == s[i..i + m] && t[m..] == s[i + m..j];
      BridgeNumber('*', s, i, k, |items|, i + m);
      BridgeItems(s, i + m, k, items, j);
    }
  }

  // A status line.
  lemma BridgeSimple(s: bytes, i: nat, k: nat, line: bytes, j: nat)
    requires i <= k <= |s|
    ensures StrictSimple(s, i, k) == Done(line, j) <==>
            i < j <= k && s[i] == '+' && SpellsLine(Bridge, line, s[i + 1..j])
  {
    hide StrictLine, SpellsLine;
    if i < k { BridgeLine(s, i + 1, k, line, j); }
  }

  // Three elements, the first of them the word message.
  lemma BridgeMessage(s: bytes, i: nat, k: nat, channel: bytes, payload: Option<bytes>, j: nat)
    requires i <= k <= |s|
    ensures StrictMessage(s, i, k) == Done((channel, payload), j) <==>
            i <= j <= k && exists name: Option<bytes> ::
              Flat(name) == channel && SpellsArray([Some("message"), name, payload], s[i..j])
  {
    hide StrictArray, SpellsArray;
    if StrictMessage(s, i, k) == Done((channel, payload), j) {
      var items := StrictArray(s, i, k).value;
      BridgeArray(s, i, k, items, j);
      assert items == [Some("message"), items[1], payload];
    }
    if i <= j <= k {
      if name: Option<bytes> :| Flat(name) == channel && SpellsArray([Some("message"), name, payload], s[i..j]) {
        BridgeArray(s, i, k, [Some("message"), name, payload], j);
      }
    }
  }

  // A header of three, the word subscribe, a channel and a count, up to a, b, c and j.
  ghost predicate SpellsAck(channel: bytes, count: int, s: bytes, i: nat, a: nat, b: nat, c: nat, j: nat)
  {
    && i <= a <= b <= c <= j <= |s|
    && SpellsNumber(Bridge, '*', 3, s[i..a]) && SpellsBulk(Bridge, Some("subscribe"), s[a..b])
    && (exists name: Option<bytes> :: Flat(name) == channel && SpellsBulk(Bridge, name, s[b..c]))
    && SpellsNumber(Bridge, ':', count, s[c..j])
  }

  lemma AckTaken(s: bytes, i: nat, k: nat, channel: bytes, count: int, j: nat) returns (a: nat, b: nat, c: nat)
    requires i <= k <= |s| && StrictAck(s, i, k) == Done((channel, count), j)
    ensures j <= k && SpellsAck(channel, count, s, i, a, b, c, j)
  {
    hide StrictNumber, StrictBulk, SpellsNumber, SpellsBulk;
    a := StrictHeader(s, i, k).at;
    BridgeNumber('*', s, i, k, 3, a);
    b := StrictBulk(s, a, k).at;
    BridgeBulk(s, a, k, StrictBulk(s, a, k).value, b);
    c := StrictBulk(s, b, k).at;
    BridgeBulk(s, b, k, StrictBulk(s, b, k).value, c);
    BridgeNumber(':', s, c, k, count, j);
  }

  lemma AckSpelled(s: bytes, i: nat, k: nat, channel: bytes, count: int, a: nat, b: nat, c: nat, j: nat)
    requires j <= k <= |s| && SpellsAck(channel, count, s, i, a, b, c, j)
    ensures StrictAck(s, i, k) == Done((channel, count), j)
  {
    hide StrictNumber, StrictBulk, SpellsNumber, SpellsBulk;
    var name: Option<bytes> :| Flat(name) == channel && SpellsBulk(Bridge, name, s[b..c]);
    BridgeNumber('*', s, i, k, 3, a);
    BridgeBulk(s, a, k, Some("subscribe"), b);
    BridgeBulk(s, b, k, name, c);
    BridgeNumber(':', s, c, k, count, j);
  }

  lemma BridgeAck(s: bytes, i: nat, k: nat, channel: bytes, count: int, j: nat)
    requires i <= k <= |s|
    ensures StrictAck(s, i, k) == Done((channel, count), j) <==>
            j <= k && exists a: nat, b: nat, c: nat :: SpellsAck(channel, count, s, i, a, b, c, j)
  {
    hide StrictAck, SpellsAck;
    if StrictAck(s, i, k) == Done((channel, count), j) {
      var a, b, c := AckTaken(s, i, k, channel, count, j);
    }
    if j <= k {
      if a: nat, b: nat, c: nat :| SpellsAck(channel, count, s, i, a, b, c, j) {
        AckSpelled(s, i, k, channel, count, a, b, c, j);
      }
    }
  }

  // ---- The same as the server reads them ---------------------------------------------------

  // A simple string, an integer or a bulk string, where a negative length reads as empty.
  ghost predicate SpellsWord(word: bytes, t: bytes)
  {
    || (|t| > 0 && (t[0] == '+' || t[0] == ':') && SpellsLine(Server, word, t[1..]))
    || (word == "" && exists n :: n < 0 && SpellsNumber(Server, '$', n, t))
    || exists m: nat :: m <= |t| && SpellsNumber(Server, '$', |word|, t[..m]) && t[m..] == word + "\r\n"
  }

  ghost predicate SpellsWords(args: seq<bytes>, t: bytes)
  {
    if |args| == 0 then t == ""
    else exists m: nat :: m <= |t| && SpellsWord(args[0], t[..m]) && SpellsWords(args[1..], t[m..])
  }

  ghost predicate SpellsCommand(args: seq<bytes>, t: bytes)
  {
    exists m: nat :: m <= |t| && SpellsNumber(Server, '*', |args|, t[..m]) && SpellsWords(args, t[m..])
  }

  // The line of a number, after its prefix byte.
  predicate NumberAt(s: bytes, i: nat, k: nat, prefix: char, n: int, j: nat)
    requires i <= k <= |s|
  {
    && i < k && s[i] == prefix && LenientLine(s, i + 1, k).Done? && LenientLine(s, i + 1, k).at == j
    && Atoi(LenientLine(s, i + 1, k).value) == Some(n)
  }

  lemma ServerNumber(s: bytes, i: nat, k: nat, prefix: char, n: int, j: nat)
    requires i <= k <= |s|
    ensures NumberAt(s, i, k, prefix, n, j) <==> i <= j <= k && SpellsNumber(Server, prefix, n, s[i..j])
  {
    hide Atoi, LenientLine, SpellsLine;
    if NumberAt(s, i, k, prefix, n, j) {
      var line := LenientLine(s, i + 1, k).value;
      ServerLine(s, i + 1, k, line, j);
      assert s[i..j][1..] == s[i + 1..j] && s[i..j][0] == prefix;
    }
    if i <= j <= k && SpellsNumber(Server, prefix, n, s[i..j]) {
      var line: bytes :| Atoi(line) == Some(n) && |s[i..j]| > 0 && s[i..j][0] == prefix
        && SpellsLine(Server, line, s[i..j][1..]);
      assert s[i..j][1..] == s[i + 1..j];
      ServerLine(s, i + 1, k, line, j);
    }
  }

  lemma WordTaken(s: bytes, i: nat, k: nat, word: bytes, j: nat)
    requires i <= k <= |s| && LenientString(s, i, k) == Done(word, j)
    ensures i <= j <= k && SpellsWord(word, s[i..j])
  {
    hide Atoi, SpellsNumber, SpellsLine, FullAt, LenientLine;
    if s[i] == '$' {
      var m := LenientLine(s, i + 1, k).at;
      var n := Atoi(LenientLine(s, i + 1, k).value).value;
      ServerNumber(s, i, k, '$', n, m);
      if n >= 0 {
        PayloadIs(s, m, k, word, j);
        SplitAt(s, i, j, m - i);
      }
    } else {
      ServerLine(s, i + 1, k, word, j);
      assert s[i..j][1..] == s[i + 1..j] && s[i..j][0] == s[i];
    }
  }

  lemma WordSpelled(s: bytes, i: nat, k: nat, word: bytes, j: nat)
    requires i <= j <= k <= |s| && SpellsWord(word, s[i..j])
    ensures LenientString(s, i, k) == Done(word, j)
  {
    hide Atoi, SpellsNumber, SpellsLine, FullAt, LenientLine;
    if |s[i..j]| > 0 && (s[i..j][0] == '+' || s[i..j][0] == ':') && SpellsLine(Server, word, s[i..j][1..]) {
      assert s[i..j][1..] == s[i + 1..j] && s[i..j][0] == s[i];
      ServerLine(s, i + 1, k, word, j);
    } else if n :| word == "" && n < 0 && SpellsNumber(Server, '$', n, s[i..j]) {
      ServerNumber(s, i, k, '$', n, j);
    } else {
      var m: nat :| m <= |s[i..j]| && SpellsNumber(Server, '$', |word|, s[i..j][..m]) && s[i..j][m..] == word + "\r\n";
      SplitAt(s, i, j, m);
      ServerNumber(s, i, k, '$', |word|, i + m);
      PayloadIs(s, i + m, k, word, j);
    }
  }

  lemma {:induction false} ServerWords(s: bytes, i: nat, k: nat, args: seq<bytes>, j: nat)
    requires i <= k <= |s|
    ensures LenientItems(s, i, k, |args|) == Done(args, j) <==> i <= j <= k && SpellsWords(args, s[i..j])
    decreases |args|
  {
    hide LenientString, SpellsWord;
    if |args| > 0 {
      if LenientItems(s, i, k, |args|) == Done(args, j) {
        var m := LenientString(s, i, k).at;
        var more := LenientItems(s, m, k, |args| - 1).value;
        assert args == [LenientString(s, i, k).value] + more;
        WordTaken(s, i, k, args[0], m);
        ServerWords(s, m, k, args[1..], j);
        SplitAt(s, i, j, m - i);
      }
      if i <= j <= k && SpellsWords(args, s[i..j]) {
        var m: nat :| m <= |s[i..j]| && SpellsWord(args[0], s[i..j][..m]) && SpellsWords(args[1..], s[i..j][m..]);
        SplitAt(s, i, j, m);
        WordSpelled(s, i, k, args[0], i + m);
        ServerWords(s, i + m, k, args[1..], j);
        assert [args[0]] + args[1..] == args;
      }
    }
  }

  // The lenient reader takes exactly the spellings of a command.
  lemma ServerCommand(s: bytes, i: nat, k: nat, args: seq<bytes>, j: nat)
    requires i <= k <= |s|
    ensures LenientArray(s, i, k) == Done(args, j) <==> i <= j <= k && SpellsCommand(args, s[i..j])
  {
    hide Atoi, LenientLine, SpellsNumber, LenientItems, SpellsWords;
    if LenientArray(s, i, k) == Done(args, j) {
      var m := LenientHeader(s, i, k).at;
      ServerNumber(s, i, k, '*', |args|, m);
      ServerWords(s, m, k, args, j);
      SplitAt(s, i, j, m - i);
    }
    if i <= j <= k && SpellsCommand(args, s[i..j]) {
      var m: nat :| m <= |s[i..j]| && SpellsNumber(Server, '*', |args|, s[i..j][..m])
        && SpellsWords(args, s[i..j][m..]);
      SplitAt(s, i, j, m);
      ServerNumber(s, i, k, '*', |args|, i + m);
      ServerWords(s, i + m, k, args, j);
    }
  }
}
