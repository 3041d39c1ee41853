// Go strings as the rest of the model uses them: one Dafny char per byte, so that
// literals stay readable and nothing depends on decoding. TrimSpace is exact, with
// every white-space rune spelled as its UTF-8 bytes.
module Text {
  type bytes = string

  datatype Option<+T> = None | Some(value: T)

  // Tab, line feed, vertical tab, form feed, carriage return and space.
  predicate IsAsciiSpace(c: char)
  {
    '\t' <= c <= '\r' || c == ' '
  }

  // U+0085 and U+00A0.
  predicate IsTwoByteSpace(a: char, b: char)
  {
    a == '\U{00C2}' && (b == '\U{0085}' || b == '\U{00A0}')
  }

  // U+1680, U+2000 to U+200A, U+2028, U+2029, U+202F, U+205F and U+3000.
  predicate IsThreeByteSpace(a: char, b: char, c: char)
  {
    || (a == '\U{00E1}' && b == '\U{009A}' && c == '\U{0080}')
    || (a == '\U{00E2}' && b == '\U{0080}' &&
        ('\U{0080}' <= c <= '\U{008A}' || c == '\U{00A8}' || c == '\U{00A9}' || c == '\U{00AF}'))
    || (a == '\U{00E2}' && b == '\U{0081}' && c == '\U{009F}')
    || (a == '\U{00E3}' && b == '\U{0080}' && c == '\U{0080}')
  }

  // Length in bytes of the white-space rune at the front of s, 0 when there is none.
  function SpaceAt(s: string): (n: nat)
    ensures n <= |s|
  {
    if |s| >= 1 && IsAsciiSpace(s[0]) then 1
    else if |s| >= 2 && IsTwoByteSpace(s[0], s[1]) then 2
    else if |s| >= 3 && IsThreeByteSpace(s[0], s[1], s[2]) then 3
    else 0
  }

  // Length in bytes of the white-space rune at the end of s, 0 when there is none.
  function SpaceEnd(s: string): (n: nat)
    ensures n <= |s|
  {
    var l := |s|;
    if l >= 1 && IsAsciiSpace(s[l - 1]) then 1
    else if l >= 2 && IsTwoByteSpace(s[l - 2], s[l - 1]) then 2
    else if l >= 3 && IsThreeByteSpace(s[l - 3], s[l - 2], s[l - 1]) then 3
    else 0
  }

  function TrimLeft(s: string): string
  {
    if SpaceAt(s) > 0 then TrimLeft(s[SpaceAt(s)..]) else s
  }

  function TrimRight(s: string): string
  {
    if SpaceEnd(s) > 0 then TrimRight(s[..|s| - SpaceEnd(s)]) else s
  }

  function TrimSpace(s: string): string
  {
    TrimRight(TrimLeft(s))
  }

  // ASCII lower-casing; bytes above 0x7F stand for themselves.
  function ToLower(s: string): (r: string)
    ensures |r| == |s|
  {
    seq(|s|, i requires 0 <= i < |s| => if 'A' <= s[i] <= 'Z' then s[i] + ('a' - 'A') else s[i])
  }

  function ToUpper(s: string): (r: string)
    ensures |r| == |s|
  {
    seq(|s|, i requires 0 <= i < |s| => if 'a' <= s[i] <= 'z' then s[i] - ('a' - 'A') else s[i])
  }

  function Join(parts: seq<string>, sep: string): string
  {
    if |parts| == 0 then "" else if |parts| == 1 then parts[0] else parts[0] + sep + Join(parts[1..], sep)
  }
}
