// The text of a request log: what each section consists of, and how sections are spaced.
module LogText {
  import opened Text

  const NEWLINE := '\n'

  // countTrailingNewlinesBytes
  function Trailing(s: bytes): (n: nat)
    ensures n <= |s|
  {
    if |s| == 0 || s[|s| - 1] != NEWLINE then 0 else 1 + Trailing(s[..|s| - 1])
  }

  function Newlines(n: nat): (s: bytes)
    ensures |s| == n && forall i :: 0 <= i < n ==> s[i] == NEWLINE
  {
    seq(n, _ => NEWLINE)
  }

  // What writeSectionSpacing adds after that many trailing newlines.
  function Spacing(trailing: int): (s: bytes)
  {
    if 3 - trailing <= 0 then "" else Newlines(3 - trailing)
  }

  // The count a tracker keeps: what one more chunk makes of it.
  function Tracked(count: nat, chunk: bytes): nat
  {
    if |chunk| == 0 then count
    else if Trailing(chunk) == |chunk| then count + |chunk|
    else Trailing(chunk)
  }

  lemma {:induction false} TrailingAppend(s: bytes, t: bytes)
    ensures Trailing(s + t) == if Trailing(t) == |t| then Trailing(s) + |t| else Trailing(t)
    decreases |t|
  {
    if |t| == 0 {
      assert s + t == s;
    } else if t[|t| - 1] == NEWLINE {
      assert (s + t)[..|s + t| - 1] == s + t[..|t| - 1];
      TrailingAppend(s, t[..|t| - 1]);
    }
  }

  // Whatever the chunks, the count is that of the whole stream.
  lemma TrackedIsTrailing(passed: bytes, chunk: bytes)
    ensures Tracked(Trailing(passed), chunk) == Trailing(passed + chunk)
  {
    TrailingAppend(passed, chunk);
    if |chunk| == 0 {
      assert passed + chunk == passed;
    }
  }

  lemma {:induction false} TrailingNewlines(n: nat)
    ensures Trailing(Newlines(n)) == n
    decreases n
  {
    if n > 0 {
      assert Newlines(n)[..n - 1] == Newlines(n - 1);
      TrailingNewlines(n - 1);
    }
  }

  // After its spacing a section ends with at least three newlines.
  lemma SpacedEnd(s: bytes, counted: int)
    requires counted <= Trailing(s)
    ensures Trailing(s + Spacing(counted)) >= 3
    ensures counted == Trailing(s) && counted < 3 ==> Trailing(s + Spacing(counted)) == 3
  {
    if 3 - counted > 0 {
      TrailingNewlines(3 - counted);
      TrailingAppend(s, Spacing(counted));
    } else {
      assert s + "" == s;
    }
  }

  // ---- The request ------------------------------------------------------------------------

  // The values of one header, as they appear in the log.
  datatype Header = Header(key: string, shown: seq<string>)

  datatype Info = Info(
    version: string,
    url: string,
    verb: string,
    downstream: string,
    upstream: string,
    timestamp: string,
    headers: seq<Header>)

  function Line(name: string, value: string): bytes
  {
    name + value + "\n"
  }

  function Optional(name: string, value: string): bytes
  {
    if TrimSpace(value) == "" then "" else Line(name, value)
  }

  function ValueLines(key: string, shown: seq<string>): bytes
  {
    if |shown| == 0 then "" else ValueLines(key, shown[..|shown| - 1]) + (key + ": " + shown[|shown| - 1] + "\n")
  }

  function HeaderLines(headers: seq<Header>): bytes
  {
    if |headers| == 0 then ""
    else HeaderLines(headers[..|headers| - 1]) + ValueLines(headers[|headers| - 1].key, headers[|headers| - 1].shown)
  }

  function InfoText(info: Info): bytes
  {
    "=== REQUEST INFO ===\n"
    + Line("Version: ", info.version) + Line("URL: ", info.url) + Line("Method: ", info.verb)
    + Optional("Downstream Transport: ", info.downstream) + Optional("Upstream Transport: ", info.upstream)
    + Line("Timestamp: ", info.timestamp) + Spacing(1)
    + "=== HEADERS ===\n" + HeaderLines(info.headers) + Spacing(1)
  }

  const BODY_HEADER := "=== REQUEST BODY ===\n"

  // The header line counts when there is no body.
  function BodyText(body: bytes): bytes
  {
    BODY_HEADER + body + Spacing(if |body| > 0 then Trailing(body) else 1)
  }

  lemma BodyHeaderEnds()
    ensures Trailing(BODY_HEADER) == 1
  {
    assert BODY_HEADER == "=== REQUEST BODY ===" + "\n";
    assert Trailing("=== REQUEST BODY ===") == 0;
    TrailingAppend("=== REQUEST BODY ===", "\n");
    assert "\n"[..0] == "";
  }

  // The body section ends with at least three newlines, whatever the body.
  lemma BodyEnds(before: bytes, body: bytes)
    ensures Trailing(before + BodyText(body)) >= 3
  {
    var s := before + (BODY_HEADER + body);
    BodyHeaderEnds();
    TrailingAppend(before, BODY_HEADER);
    TrailingAppend(before + BODY_HEADER, body);
    assert s == before + BODY_HEADER + body;
    var counted := if |body| > 0 then Trailing(body) else 1;
    SpacedEnd(s, counted);
    assert before + BodyText(body) == s + Spacing(counted);
  }

  // ---- Sections ---------------------------------------------------------------------------

  // The timestamp is empty when there is none.
  datatype Section = Section(header: bytes, prefix: bytes, timestamp: Option<string>)

  function Opening(section: Section): bytes
  {
    section.header + if section.timestamp.None? then "" else Line("Timestamp: ", section.timestamp.value)
  }

  // writeAPISection
  function SectionText(section: Section, payload: bytes): bytes
  {
    if |payload| == 0 then ""
    else (if section.prefix <= payload then "" else Opening(section)) + payload + Spacing(Trailing(payload))
  }

  // The part that writeAPISectionWithSource writes for a source, from its merged bytes.
  function SourceText(section: Section, merged: bytes): bytes
  {
    Opening(section) + merged + Spacing(Trailing(merged))
  }

  // writePreformattedAPISectionWithSource: the source brings its own header.
  function PreformattedText(merged: bytes): bytes
  {
    merged + Spacing(Trailing(merged))
  }

  // A section written from a source is the section of its merged bytes exactly when those
  // are not empty and do not begin with the section's own prefix.
  lemma SourceIsSection(section: Section, merged: bytes)
    requires |section.header| > 0
    ensures SourceText(section, merged) == SectionText(section, merged) <==> |merged| > 0 && !(section.prefix <= merged)
  {
    if |merged| == 0 {
      assert |SourceText(section, merged)| > 0;
    } else if section.prefix <= merged {
      assert |SourceText(section, merged)| > |SectionText(section, merged)|;
    }
  }

  // Every section that is written at all ends with at least three newlines.
  lemma SectionsEnd(section: Section, payload: bytes, before: bytes)
    ensures |payload| > 0 ==> Trailing(before + SectionText(section, payload)) >= 3
    ensures Trailing(before + SourceText(section, payload)) >= 3
    ensures Trailing(before + PreformattedText(payload)) >= 3
  {
    var opening := if section.prefix <= payload then "" else Opening(section);
    SectionEnds(before, opening, payload);
    SectionEnds(before, Opening(section), payload);
    SectionEnds(before, "", payload);
    assert "" + payload == payload;
  }

  lemma SectionEnds(before: bytes, opening: bytes, payload: bytes)
    ensures Trailing(before + (opening + payload + Spacing(Trailing(payload)))) >= 3
  {
    var s := before + opening + payload;
    TrailingAppend(before + opening, payload);
    SpacedEnd(s, Trailing(payload));
    assert before + (opening + payload + Spacing(Trailing(payload))) == s + Spacing(Trailing(payload));
  }

  // ---- Parts ------------------------------------------------------------------------------

  // FileBodySource.WriteTo: the parts that still exist, in order, with a newline between.
  function Merged(paths: seq<string>, files: map<string, bytes>, wrote: bool): bytes
  {
    if |paths| == 0 then ""
    else if paths[0] !in files then Merged(paths[1..], files, wrote)
    else (if wrote then "\n" else "") + files[paths[0]] + Merged(paths[1..], files, true)
  }

  // A part as writeLogPart leaves it.
  function PartText(payload: bytes): bytes
  {
    payload + if |payload| > 0 && payload[|payload| - 1] == NEWLINE then "" else "\n"
  }

  function Parts(paths: seq<string>, files: map<string, bytes>): seq<bytes>
  {
    if |paths| == 0 then []
    else (if paths[0] in files then [files[paths[0]]] else []) + Parts(paths[1..], files)
  }

  // The merged bytes are the existing parts joined by newlines.
  lemma {:induction false} MergedIsJoin(paths: seq<string>, files: map<string, bytes>)
    ensures Merged(paths, files, false) == Join(Parts(paths, files), "\n")
    ensures Merged(paths, files, true) == if |Parts(paths, files)| == 0 then ""
        else "\n" + Join(Parts(paths, files), "\n")
  {
    if |paths| > 0 {
      MergedIsJoin(paths[1..], files);
      var more := Parts(paths[1..], files);
      if paths[0] !in files {
        assert [] + more == more;
      } else {
        assert Parts(paths, files) == [files[paths[0]]] + more;
        assert ([files[paths[0]]] + more)[1..] == more;
        if |more| == 0 {
          assert files[paths[0]] + "" == files[paths[0]] && "" + files[paths[0]] == files[paths[0]];
        } else {
          assert "" + files[paths[0]] + ("\n" + Join(more, "\n")) == files[paths[0]] + "\n" + Join(more, "\n");
        }
        assert "\n" + files[paths[0]] + Merged(paths[1..], files, true)
            == "\n" + ("" + files[paths[0]] + Merged(paths[1..], files, true));
      }
    }
  }
}
