// The texts of a request log, said of their bytes.
module LogLaws {
  import opened Text
  import opened TextLaws
  import opened Ordering
  import opened LogText

  // s ends with exactly n line feeds.
  predicate Ends(s: bytes, n: nat)
  {
    && n <= |s| && (forall i :: |s| - n <= i < |s| ==> s[i] == '\n')
    && (n < |s| ==> s[|s| - n - 1] != '\n')
  }

  lemma {:induction false} TrailingIs(s: bytes)
    ensures Ends(s, Trailing(s))
    decreases |s|
  {
    if |s| > 0 && s[|s| - 1] == NEWLINE {
      TrailingIs(s[..|s| - 1]);
    }
  }

  predicate LineFeeds(s: bytes, n: int)
  {
    |s| == (if n > 0 then n else 0) && forall i :: 0 <= i < |s| ==> s[i] == '\n'
  }

  // What fills a text up to three line feeds, where it has n already.
  lemma SpacingIs(n: int)
    ensures LineFeeds(Spacing(n), 3 - n)
  {
  }

  predicate StartsWith(s: bytes, prefix: bytes)
  {
    |prefix| <= |s| && forall i :: 0 <= i < |prefix| ==> s[i] == prefix[i]
  }

  function Head(section: Section): bytes
  {
    match section.timestamp
    case None => section.header
    case Some(time) => section.header + ("Timestamp: " + time + "\n")
  }

  // This opening, the payload, and line feeds up to three.
  ghost predicate Spaced(text: bytes, opening: bytes, payload: bytes)
  {
    exists feeds: bytes, n: nat :: Ends(payload, n) && LineFeeds(feeds, 3 - n) && text == opening + payload + feeds
  }

  // A section has its opening, unless the payload starts with the section's prefix; an empty
  // payload makes no section. The part of a source always has its opening, and a
  // preformatted part never.
  lemma SectionIs(section: Section, payload: bytes)
    ensures |payload| == 0 ==> SectionText(section, payload) == ""
    ensures |payload| > 0 ==>
              var opening := if StartsWith(payload, section.prefix) then "" else Head(section);
              Spaced(SectionText(section, payload), opening, payload)
    ensures Spaced(SourceText(section, payload), Head(section), payload)
    ensures Spaced(PreformattedText(payload), "", payload)
  {
    hide Trailing, Spacing;
    assert section.prefix <= payload <==> StartsWith(payload, section.prefix);
    assert section.header + "" == section.header;
    Fills(if StartsWith(payload, section.prefix) then "" else Head(section), payload);
    Fills(Head(section), payload);
    Fills("", payload);
    assert "" + payload == payload;
  }

  lemma Fills(opening: bytes, payload: bytes)
    ensures Spaced(opening + payload + Spacing(Trailing(payload)), opening, payload)
  {
    TrailingIs(payload);
    SpacingIs(Trailing(payload));
  }

  // The body's text, and two line feeds when there is no body.
  lemma BodyIs(body: bytes)
    ensures |body| == 0 ==> BodyText(body) == "=== REQUEST BODY ===\n\n\n"
    ensures |body| > 0 ==> Spaced(BodyText(body), "=== REQUEST BODY ===\n", body)
  {
    hide Trailing, Spacing;
    if |body| == 0 {
      TwoFeeds();
      assert BODY_HEADER + body == BODY_HEADER && BODY_HEADER + "\n\n" == "=== REQUEST BODY ===\n\n\n";
    } else {
      Fills(BODY_HEADER, body);
    }
  }

  lemma TwoFeeds()
    ensures Spacing(1) == "\n\n"
  {
    SpacingIs(1);
  }

  function Shown(name: string, value: string): bytes
  {
    if TrimSpace(value) == "" then "" else name + value + "\n"
  }

  // The lines of a request, up to its headers, and what follows them.
  lemma InfoIs(info: Info)
    ensures InfoText(info) ==
            "=== REQUEST INFO ===\n" + ("Version: " + info.version + "\n") + ("URL: " + info.url + "\n")
            + ("Method: " + info.verb + "\n") + Shown("Downstream Transport: ", info.downstream)
            + Shown("Upstream Transport: ", info.upstream) + ("Timestamp: " + info.timestamp + "\n") + "\n\n"
            + "=== HEADERS ===\n" + HeaderLines(info.headers) + "\n\n"
  {
    hide Spacing, HeaderLines, TrimSpace;
    TwoFeeds();
  }

  // One line for each value of each header, in their order.
  lemma {:induction false} HeadersJoin(a: seq<Header>, b: seq<Header>)
    ensures HeaderLines([]) == "" && HeaderLines(a + b) == HeaderLines(a) + HeaderLines(b)
    decreases |b|
  {
    hide ValueLines;
    if |b| == 0 {
      assert a + b == a && HeaderLines(a) + "" == HeaderLines(a);
    } else {
      var l := |b| - 1;
      assert (a + b)[..|a + b| - 1] == a + b[..l];
      HeadersJoin(a, b[..l]);
      Joined(HeaderLines(a), HeaderLines(b[..l]), ValueLines(b[l].key, b[l].shown));
    }
  }

  lemma {:induction false} ValuesJoin(key: string, a: seq<string>, b: seq<string>)
    ensures ValueLines(key, []) == "" && ValueLines(key, a + b) == ValueLines(key, a) + ValueLines(key, b)
    decreases |b|
  {
    if |b| == 0 {
      assert a + b == a && ValueLines(key, a) + "" == ValueLines(key, a);
    } else {
      var l := |b| - 1;
      assert (a + b)[..|a + b| - 1] == a + b[..l];
      ValuesJoin(key, a, b[..l]);
      Joined(ValueLines(key, a), ValueLines(key, b[..l]), key + ": " + b[l] + "\n");
    }
  }

  lemma Joined(a: bytes, b: bytes, c: bytes)
    ensures a + b + c == a + (b + c)
  {
  }

  lemma HeaderIs(key: string, value: string)
    ensures HeaderLines([Header(key, [value])]) == key + ": " + value + "\n"
  {
    var line, headers := key + ": " + value + "\n", [Header(key, [value])];
    assert [value][..0] == [] && headers[..0] == [] && "" + line == line;
    assert ValueLines(key, [value]) == ValueLines(key, []) + line;
    assert HeaderLines(headers) == HeaderLines([]) + ValueLines(key, [value]);
  }

  // ---- Parts ------------------------------------------------------------------------------

  // A part is its trimmed data and a line feed.
  lemma PartIs(data: bytes)
    ensures PartText(TrimSpace(data)) == TrimSpace(data) + "\n"
  {
    hide TrimSpace;
    var before, after := TrimSpaceIs(data);
    var trimmed := TrimSpace(data);
    if |trimmed| > 0 {
      assert !WhiteRune(trimmed[|trimmed| - 1..]);
    }
  }

  // The parts are the contents of exactly the files that still exist, in order.
  lemma {:induction false} PartsAre(paths: seq<string>, files: map<string, bytes>) returns (there: seq<string>)
    ensures Picked(paths, p => p in files, there)
    ensures |Parts(paths, files)| == |there|
    ensures forall i :: 0 <= i < |there| ==> there[i] in files && Parts(paths, files)[i] == files[there[i]]
    decreases |paths|
  {
    hide Picked;
    var present := p => p in files;
    there := [];
    if |paths| == 0 {
      PickedNone(present);
    } else {
      var l := |paths| - 1;
      there := PartsAre(paths[..l], files);
      PartsLast(paths[..l], paths[l], files);
      assert paths == paths[..l] + [paths[l]];
      PickedMore(paths[..l], present, there, paths[l]);
      if paths[l] in files { there := there + [paths[l]]; }
    }
  }

  lemma {:induction false} PartsLast(paths: seq<string>, p: string, files: map<string, bytes>)
    ensures Parts(paths + [p], files) == Parts(paths, files) + if p in files then [files[p]] else []
    decreases |paths|
  {
    if |paths| == 0 {
      assert paths + [p] == [p] && [p][1..] == [];
    } else {
      assert (paths + [p])[1..] == paths[1..] + [p];
      PartsLast(paths[1..], p, files);
    }
  }
}
