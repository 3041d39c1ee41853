// What the string functions of Text compute, said of the strings alone.
module TextLaws {
  import opened Text

  // The UTF-8 bytes of a white-space rune of Unicode.
  predicate WhiteRune(w: string)
  {
    || (|w| == 1 && w[0] in {'\t', '\n', '\U{000B}', '\U{000C}', '\r', ' '})
    || (|w| == 2 && w[0] == '\U{00C2}' && w[1] in {'\U{0085}', '\U{00A0}'})
    || (|w| == 3 && w[0] == '\U{00E1}' && w[1] == '\U{009A}' && w[2] == '\U{0080}')
    || (|w| == 3 && w[0] == '\U{00E2}' && w[1] == '\U{0080}' && w[2] in {
         '\U{0080}', '\U{0081}', '\U{0082}', '\U{0083}', '\U{0084}', '\U{0085}', '\U{0086}', '\U{0087}', '\U{0088}',
         '\U{0089}', '\U{008A}', '\U{00A8}', '\U{00A9}', '\U{00AF}'})
    || (|w| == 3 && w[0] == '\U{00E2}' && w[1] == '\U{0081}' && w[2] == '\U{009F}')
    || (|w| == 3 && w[0] == '\U{00E3}' && w[1] == '\U{0080}' && w[2] == '\U{0080}')
  }

  predicate AllWhite(runes: seq<string>)
  {
    forall i :: 0 <= i < |runes| ==> WhiteRune(runes[i])
  }

  function Glued(runes: seq<string>): string
  {
    if |runes| == 0 then "" else runes[0] + Glued(runes[1..])
  }

  predicate NoWhiteEdge(s: string)
  {
    forall n :: 0 <= n <= |s| ==> !WhiteRune(s[..n]) && !WhiteRune(s[n..])
  }

  lemma SpaceAtIs(s: string)
    ensures SpaceAt(s) > 0 ==> WhiteRune(s[..SpaceAt(s)])
    ensures SpaceAt(s) == 0 ==> forall n :: 0 <= n <= |s| ==> !WhiteRune(s[..n])
  {
  }

  lemma SpaceEndIs(s: string)
    ensures SpaceEnd(s) > 0 ==> WhiteRune(s[|s| - SpaceEnd(s)..])
    ensures SpaceEnd(s) == 0 ==> forall n :: 0 <= n <= |s| ==> !WhiteRune(s[n..])
  {
  }

  lemma GluedFirst(w: string, more: seq<string>, rest: string)
    ensures Glued([w] + more) + rest == w + (Glued(more) + rest)
  {
    assert ([w] + more)[1..] == more;
    GluedLast(w, Glued(more), rest);
  }

  lemma GluedLast(a: string, b: string, c: string)
    ensures (a + b) + c == a + (b + c)
  {
  }

  lemma {:induction false} TrimLeftIs(s: string) returns (runes: seq<string>)
    ensures AllWhite(runes) && s == Glued(runes) + TrimLeft(s) && SpaceAt(TrimLeft(s)) == 0
    decreases |s|
  {
    hide WhiteRune, SpaceAt;
    runes := [];
    var n := SpaceAt(s);
    if n > 0 {
      SpaceAtIs(s);
      var more := TrimLeftIs(s[n..]);
      GluedFirst(s[..n], more, TrimLeft(s[n..]));
      assert s == s[..n] + s[n..];
      runes := [s[..n]] + more;
    }
  }

  lemma GluedMore(runes: seq<string>, w: string)
    ensures Glued(runes + [w]) == Glued(runes) + w
  {
    if |runes| == 0 {
      assert runes + [w] == [w] && [w][1..] == [];
    } else {
      assert (runes + [w])[1..] == runes[1..] + [w];
      GluedMore(runes[1..], w);
    }
  }

  lemma {:induction false} TrimRightIs(s: string) returns (runes: seq<string>)
    ensures AllWhite(runes) && s == TrimRight(s) + Glued(runes) && SpaceEnd(TrimRight(s)) == 0
    decreases |s|
  {
    hide WhiteRune, SpaceEnd;
    runes := [];
    var n := SpaceEnd(s);
    if n > 0 {
      SpaceEndIs(s);
      var rest, w := s[..|s| - n], s[|s| - n..];
      var more := TrimRightIs(rest);
      GluedMore(more, w);
      GluedLast(TrimRight(rest), Glued(more), w);
      assert s == rest + w;
      runes := more + [w];
    }
  }

  // What is left starts with white space only if it did before.
  lemma FrontKept(s: string, t: string)
    requires SpaceAt(s) == 0 && t <= s
    ensures SpaceAt(t) == 0
  {
    assert forall k :: 0 <= k < |t| ==> t[k] == s[k];
  }

  // White-space runes, what is left, white-space runes; and what is left neither starts
  // nor ends with one.
  lemma {:induction false} TrimSpaceIs(s: string) returns (before: seq<string>, after: seq<string>)
    ensures AllWhite(before) && AllWhite(after) && s == Glued(before) + TrimSpace(s) + Glued(after)
    ensures NoWhiteEdge(TrimSpace(s))
  {
    hide WhiteRune, SpaceAt, SpaceEnd;
    before := TrimLeftIs(s);
    after := TrimRightIs(TrimLeft(s));
    FrontKept(TrimLeft(s), TrimSpace(s));
    SpaceAtIs(TrimSpace(s));
    SpaceEndIs(TrimSpace(s));
  }

  // Only the 26 capitals change, each to the letter of its own place.
  lemma ToLowerIs(s: string, i: nat, k: nat)
    requires i < |s| && k < 26
    ensures |ToLower(s)| == |s|
    ensures s[i] == "ABCDEFGHIJKLMNOPQRSTUVWXYZ"[k] ==> ToLower(s)[i] == "abcdefghijklmnopqrstuvwxyz"[k]
    ensures s[i] !in "ABCDEFGHIJKLMNOPQRSTUVWXYZ" ==> ToLower(s)[i] == s[i]
  {
  }

  // One part is itself; two lists of parts are joined by one separator.
  lemma {:induction false} JoinIs(a: seq<string>, b: seq<string>, sep: string, x: string)
    requires |a| > 0 && |b| > 0
    ensures Join([], sep) == "" && Join([x], sep) == x
    ensures Join(a + b, sep) == Join(a, sep) + sep + Join(b, sep)
  {
    if |a| == 1 {
      assert (a + b)[1..] == b;
    } else {
      assert (a + b)[1..] == a[1..] + b;
      JoinIs(a[1..], b, sep, x);
    }
  }
}
