// The request log as the code writes it: one write after another to a writer that may
// break, bodies and parts copied from files in chunks of any size, a tracker that counts
// trailing newlines on the way. Every method is shown to send the text of LogText.
module LogWriter {
  import opened Text
  import opened Output
  import opened LogText

  // The underlying io.Writer. It accepts any part of what it is given and fails unless that
  // is all of it.
  class Sink {
    var sent: bytes
    // How many writes have failed.
    var faults: nat

    constructor ()
      ensures sent == "" && faults == 0
    {
      sent, faults := "", 0;
    }

    method Write(p: bytes) returns (n: nat, ok: bool)
      modifies this
      ensures n <= |p| && (ok ==> n == |p|) && sent == old(sent) + p[..n]
      ensures faults == old(faults) + if ok then 0 else 1
    {
      n :| 0 <= n <= |p|;
      ok := *;
      ok := ok && n == |p|;
      sent := sent + p[..n];
      faults := faults + if ok then 0 else 1;
    }

    // io.WriteString
    method WriteString(p: bytes) returns (ok: bool)
      modifies this
      ensures Wrote(old(sent), p, sent, ok)
      ensures faults == old(faults) + if ok then 0 else 1
    {
      var n;
      n, ok := Write(p);
    }
  }

  method CountTrailingNewlinesBytes(payload: bytes) returns (count: nat)
    ensures count == Trailing(payload)
  {
    count := 0;
    var i := |payload|;
    assert payload[..i] == payload;
    while i > 0
      invariant 0 <= i <= |payload| && count == |payload| - i
      invariant Trailing(payload) == count + Trailing(payload[..i])
    {
      if payload[i - 1] != NEWLINE {
        break;
      }
      assert payload[..i][..i - 1] == payload[..i - 1];
      count := count + 1;
      i := i - 1;
    }
  }

  method WriteSectionSpacing(w: Sink, trailingNewlines: int) returns (ok: bool)
    modifies w
    ensures w.faults == old(w.faults) + if ok then 0 else 1
    ensures Wrote(old(w.sent), Spacing(trailingNewlines), w.sent, ok)
  {
    var missingNewlines := 3 - trailingNewlines;
    if missingNewlines <= 0 {
      assert w.sent + "" == w.sent;
      return true;
    }
    ok := w.WriteString(Newlines(missingNewlines));
  }

  // trailingNewlineTrackingWriter. `passed` is what has gone through it.
  class Tracker {
    const writer: Sink
    var trailingNewlines: nat
    ghost var passed: bytes

    constructor (writer: Sink)
      ensures this.writer == writer && trailingNewlines == 0 && passed == ""
    {
      this.writer, trailingNewlines, passed := writer, 0, "";
    }

    method Write(payload: bytes) returns (n: nat, ok: bool)
      requires trailingNewlines == Trailing(passed)
      modifies this, writer
      ensures n <= |payload| && (ok ==> n == |payload|)
      ensures writer.sent == old(writer.sent) + payload[..n] && passed == old(passed) + payload[..n]
      ensures writer.faults == old(writer.faults) + if ok then 0 else 1
      ensures trailingNewlines == Trailing(passed)
    {
      n, ok := writer.Write(payload);
      TrackedIsTrailing(passed, payload[..n]);
      if n > 0 {
        var count := CountTrailingNewlinesBytes(payload[..n]);
        if count == |payload[..n]| {
          trailingNewlines := trailingNewlines + count;
        } else {
          trailingNewlines := count;
        }
      }
      passed := passed + payload[..n];
    }

    method WriteString(p: bytes) returns (ok: bool)
      requires trailingNewlines == Trailing(passed)
      modifies this, writer
      ensures Tracks(old(writer.sent), old(passed), p, writer.sent, passed, ok)
      ensures writer.faults == old(writer.faults) + if ok then 0 else 1
      ensures trailingNewlines == Trailing(passed)
    {
      var n;
      n, ok := Write(p);
      assert ok ==> p[..n] == p;
    }

    // io.Copy from a file with this content, in chunks of any size.
    method CopyFrom(content: bytes) returns (written: nat, ok: bool)
      requires trailingNewlines == Trailing(passed)
      modifies this, writer
      ensures Tracks(old(writer.sent), old(passed), content, writer.sent, passed, ok)
      ensures writer.faults == old(writer.faults) + if ok then 0 else 1
      ensures trailingNewlines == Trailing(passed) && (ok ==> written == |content|)
    {
      hide Trailing;
      written, ok := 0, true;
      while written < |content|
        invariant 0 <= written <= |content|
        invariant writer.sent == old(writer.sent) + content[..written] && passed == old(passed) + content[..written]
        invariant trailingNewlines == Trailing(passed) && writer.faults == old(writer.faults)
      {
        var size: nat :| 0 < size <= |content| - written;
        var chunk := content[written..written + size];
        var n;
        n, ok := Write(chunk);
        assert content[..written] + chunk[..n] == content[..written + n];
        written := written + n;
        if !ok {
          assert content[..written] <= content;
          return;
        }
      }
      assert content[..written] == content;
      ok := true;
    }
  }

  // Both the writer and the record of the tracker have moved on by the same prefix of e.
  predicate Tracks(sent: bytes, passed: bytes, e: bytes, nowSent: bytes, nowPassed: bytes, ok: bool)
  {
    Wrote(sent, e, nowSent, ok) && Wrote(passed, e, nowPassed, ok)
  }

  lemma TracksMore(sent: bytes, passed: bytes, a: bytes, b: bytes, nowSent: bytes, nowPassed: bytes, ok: bool)
    requires || Tracks(sent + a, passed + a, b, nowSent, nowPassed, ok)
             || (!ok && Tracks(sent, passed, a, nowSent, nowPassed, false))
    ensures Tracks(sent, passed, a + b, nowSent, nowPassed, ok)
  {
    WroteMore(sent, a, b, nowSent, ok);
    WroteMore(passed, a, b, nowPassed, ok);
  }

  // ---- Part files ---------------------------------------------------------------------------

  // Its contents, and what the environment allows at the moment.
  class FileSystem {
    var files: map<string, bytes>
    var unreadable: set<string>
    var canCreate: bool
    var canWrite: bool
  }

  // FileBodySource
  class FileBodySource {
    const fs: FileSystem
    var paths: seq<string>
    var cleaned: bool

    constructor (fs: FileSystem)
      ensures this.fs == fs && paths == [] && !cleaned
    {
      this.fs, paths, cleaned := fs, [], false;
    }

    // What the source stands for, as Bytes returns it.
    ghost function Text(): bytes
      reads this, fs
    {
      Merged(paths, fs.files, false)
    }

    // `name` is the path that os.CreateTemp would make up.
    method CreatePart(name: string) returns (ok: bool)
      requires name !in fs.files
      modifies this`paths, fs`files
      ensures ok == (!cleaned && fs.canCreate)
      ensures if ok then paths == old(paths) + [name] && fs.files == old(fs.files)[name := ""]
              else paths == old(paths) && fs.files == old(fs.files)
    {
      if cleaned {
        return false;
      }
      ok := fs.canCreate;
      if ok {
        fs.files := fs.files[name := ""];
        paths := paths + [name];
      }
    }

    // A part that holds only white space is not recorded.
    method AppendPart(name: string, data: bytes) returns (ok: bool)
      requires name !in fs.files
      modifies this`paths, fs`files
      ensures TrimSpace(data) != "" ==> ok == (!cleaned && fs.canCreate && fs.canWrite)
      ensures TrimSpace(data) == "" ==> ok && paths == old(paths) && fs.files == old(fs.files)
      ensures TrimSpace(data) != "" && ok ==>
                paths == old(paths) + [name] && fs.files == old(fs.files)[name := PartText(TrimSpace(data))]
    {
      var trimmed := TrimSpace(data);
      if |trimmed| == 0 {
        return true;
      }
      ok := CreatePart(name);
      if !ok {
        return;
      }
      ok := fs.canWrite;
      if ok {
        fs.files := fs.files[name := PartText(trimmed)];
      }
    }

    // Appends to the last part, or to a first one made for it.
    method AppendBytes(name: string, data: bytes) returns (ok: bool)
      requires name !in fs.files
      modifies this`paths, fs`files
      ensures |data| == 0 ==> ok && paths == old(paths) && fs.files == old(fs.files)
      ensures |data| > 0 && cleaned ==> !ok && paths == old(paths) && fs.files == old(fs.files)
      ensures |data| > 0 && !cleaned ==>
                var there := |old(paths)| > 0 && old(paths)[|old(paths)| - 1] in old(fs.files);
                ok == (fs.canWrite && (there || fs.canCreate))
      ensures |data| > 0 && ok && |old(paths)| == 0 ==> paths == [name] && fs.files == old(fs.files)[name := data]
      ensures |data| > 0 && ok && |old(paths)| > 0 ==>
                var last := old(paths)[|old(paths)| - 1];
                var before := if last in old(fs.files) then old(fs.files)[last] else "";
                paths == old(paths) && fs.files == old(fs.files)[last := before + data]
    {
      if |data| == 0 {
        return true;
      }
      if cleaned {
        return false;
      }
      var path := if |paths| == 0 then name else paths[|paths| - 1];
      ok := path in fs.files || fs.canCreate;
      if !ok {
        return;
      }
      if |paths| == 0 {
        paths := paths + [name];
      }
      if path !in fs.files {
        fs.files := fs.files[path := ""];
      }
      ok := fs.canWrite;
      if !ok {
        return;
      }
      assert "" + data == data;
      fs.files := fs.files[path := fs.files[path] + data];
    }

    method HasPayload() returns (has: bool)
      ensures has == (|paths| > 0 && !cleaned)
    {
      return |paths| > 0 && !cleaned;
    }

    // Missing parts are skipped; opening any other part may fail.
    method WriteTo(w: Tracker) returns (ok: bool)
      requires w.trailingNewlines == Trailing(w.passed)
      modifies w, w.writer
      ensures Tracks(old(w.writer.sent), old(w.passed), old(Text()), w.writer.sent, w.passed, ok)
      ensures w.trailingNewlines == Trailing(w.passed)
      ensures ok ==> !Blocked() && w.writer.faults == old(w.writer.faults)
      ensures !ok ==>
                || w.writer.faults == old(w.writer.faults) + 1
                || (Blocked() && w.writer.faults == old(w.writer.faults))
    {
      hide Trailing, Merged;
      ghost var sent, passed, all := w.writer.sent, w.passed, Text();
      var wrote := false;
      ghost var done: bytes := "";
      assert paths[0..] == paths && done + all == all && sent + done == sent && passed + done == passed;
      for i := 0 to |paths|
        invariant w.writer.sent == sent + done && w.passed == passed + done
        invariant done + Merged(paths[i..], fs.files, wrote) == all
        invariant w.trailingNewlines == Trailing(w.passed) && unchanged(this) && unchanged(fs)
        invariant w.writer.faults == old(w.writer.faults)
        invariant forall k :: 0 <= k < i ==> !(paths[k] in fs.files && paths[k] in fs.unreadable)
      {
        MergedStep(paths, i, fs.files, wrote, done);
        if paths[i] !in fs.files {
          continue;
        }
        if paths[i] in fs.unreadable {
          TracksPart(sent, passed, done, all);
          return false;
        }
        var copied := CopyPart(w, fs.files[paths[i]], wrote);
        ghost var piece := Piece(fs.files[paths[i]], wrote);
        TracksMore(sent, passed, done, piece, w.writer.sent, w.passed, copied);
        if !copied {
          TracksLess(sent, passed, done + piece, all, w.writer.sent, w.passed);
          return false;
        }
        wrote, done := true, done + piece;
      }
      MergedNone(paths, fs.files, wrote, done);
      return true;
    }

    // Some part is there and cannot be opened.
    ghost predicate Blocked()
      reads this, fs
    {
      exists i :: 0 <= i < |paths| && paths[i] in fs.files && paths[i] in fs.unreadable
    }

    static method CopyPart(w: Tracker, content: bytes, wrote: bool) returns (ok: bool)
      requires w.trailingNewlines == Trailing(w.passed)
      modifies w, w.writer
      ensures w.writer.faults == old(w.writer.faults) + if ok then 0 else 1
      ensures Tracks(old(w.writer.sent), old(w.passed), Piece(content, wrote), w.writer.sent, w.passed, ok)
      ensures w.trailingNewlines == Trailing(w.passed)
    {
      ghost var sent, passed := w.writer.sent, w.passed;
      ok := true;
      if wrote {
        ok := w.WriteString("\n");
      }
      assert sent + "" == sent && passed + "" == passed;
      if ok {
        var n;
        n, ok := w.CopyFrom(content);
      }
      TracksMore(sent, passed, if wrote then "\n" else "", content, w.writer.sent, w.passed, ok);
    }

    method Cleanup()
      modifies this, fs
      ensures cleaned && (old(cleaned) ==> unchanged(this) && unchanged(fs))
      ensures !old(cleaned) ==> paths == [] && fs.files == old(fs.files) - (set p | p in old(paths))
    {
      if cleaned {
        return;
      }
      fs.files := fs.files - (set p | p in paths);
      paths, cleaned := [], true;
    }
  }

  // What one part adds to the merged bytes.
  function Piece(content: bytes, wrote: bool): bytes
  {
    (if wrote then "\n" else "") + content
  }

  lemma MergedStep(paths: seq<string>, i: nat, files: map<string, bytes>, wrote: bool, done: bytes)
    requires i < |paths|
    ensures done + Merged(paths[i..], files, wrote) ==
            if paths[i] !in files then done + Merged(paths[i + 1..], files, wrote)
            else done + Piece(files[paths[i]], wrote) + Merged(paths[i + 1..], files, true)
  {
    assert paths[i..][1..] == paths[i + 1..];
    if paths[i] in files {
      Joined(done, Piece(files[paths[i]], wrote), Merged(paths[i + 1..], files, true));
    }
  }

  lemma Joined(a: bytes, b: bytes, c: bytes)
    ensures a + b + c == a + (b + c)
  {
  }

  lemma MergedNone(paths: seq<string>, files: map<string, bytes>, wrote: bool, done: bytes)
    ensures done + Merged(paths[|paths|..], files, wrote) == done
  {
  }

  // Stopping short of the whole text.
  lemma TracksPart(sent: bytes, passed: bytes, done: bytes, all: bytes)
    requires done <= all
    ensures Tracks(sent, passed, all, sent + done, passed + done, false)
  {
    assert sent + done <= sent + all && passed + done <= passed + all;
  }

  lemma TracksLess(sent: bytes, passed: bytes, e: bytes, all: bytes, nowSent: bytes, nowPassed: bytes)
    requires e <= all && Tracks(sent, passed, e, nowSent, nowPassed, false)
    ensures Tracks(sent, passed, all, nowSent, nowPassed, false)
  {
    assert sent + e <= sent + all && passed + e <= passed + all;
  }

  // ---- Sections -----------------------------------------------------------------------------

  method WriteOpening(w: Sink, section: Section) returns (ok: bool)
    modifies w
    ensures w.faults == old(w.faults) + if ok then 0 else 1
    ensures Wrote(old(w.sent), Opening(section), w.sent, ok)
  {
    ghost var was := w.sent;
    ok := w.WriteString(section.header);
    if section.timestamp.Some? {
      if ok {
        ok := w.WriteString("Timestamp: " + section.timestamp.value + "\n");
      }
      WroteMore(was, section.header, Line("Timestamp: ", section.timestamp.value), w.sent, ok);
    } else {
      assert section.header + "" == section.header;
    }
  }

  method WriteAPISection(w: Sink, section: Section, payload: bytes) returns (ok: bool)
    modifies w
    ensures w.faults == old(w.faults) + if ok then 0 else 1
    ensures Wrote(old(w.sent), SectionText(section, payload), w.sent, ok)
  {
    ghost var was := w.sent;
    if |payload| == 0 {
      assert was + "" == was;
      return true;
    }
    ghost var opening := if section.prefix <= payload then "" else Opening(section);
    ok := true;
    assert was + "" == was;
    if !(section.prefix <= payload) {
      ok := WriteOpening(w, section);
    }
    if ok {
      ok := w.WriteString(payload);
    }
    WroteMore(was, opening, payload, w.sent, ok);
    if ok {
      var count := CountTrailingNewlinesBytes(payload);
      ok := WriteSectionSpacing(w, count);
    }
    WroteMore(was, opening + payload, Spacing(Trailing(payload)), w.sent, ok);
  }

  // The source's own part of a section, from its merged bytes and their tracked newlines.
  method WriteMerged(w: Sink, source: FileBodySource) returns (ok: bool)
    modifies w
    ensures ok ==> !source.Blocked() && w.faults == old(w.faults)
    ensures !ok ==> w.faults == old(w.faults) + 1 || (source.Blocked() && w.faults == old(w.faults))
    ensures Wrote(old(w.sent), PreformattedText(old(source.Text())), w.sent, ok)
  {
    ghost var was, text := w.sent, source.Text();
    var tracker := new Tracker(w);
    ok := source.WriteTo(tracker);
    if ok {
      assert "" + text == text;
      ok := WriteSectionSpacing(w, tracker.trailingNewlines);
    }
    WroteMore(was, text, Spacing(Trailing(text)), w.sent, ok);
  }

  lemma SourceParts(section: Section, merged: bytes)
    ensures SourceText(section, merged) == Opening(section) + PreformattedText(merged)
  {
    hide Opening;
    assert Opening(section) + merged + Spacing(Trailing(merged))
        == Opening(section) + (merged + Spacing(Trailing(merged)));
  }

  lemma NoSection(section: Section)
    ensures SectionText(section, "") == ""
  {
  }

  // What a payload and a source write together.
  ghost function WithSource(section: Section, payload: bytes, has: bool, merged: bytes): bytes
  {
    if has then SectionText(section, payload) + SourceText(section, merged) else SectionText(section, payload)
  }

  method WriteAPISectionWithSource(w: Sink, section: Section, payload: bytes, source: FileBodySource?)
    returns (ok: bool)
    modifies w
    ensures ok ==> w.faults == old(w.faults)
    ensures !ok ==> w.faults == old(w.faults) + 1 || (source != null && source.Blocked() && w.faults == old(w.faults))
    ensures source == null ==> Wrote(old(w.sent), SectionText(section, payload), w.sent, ok)
    ensures source != null ==>
              var shown := |source.paths| > 0 && !source.cleaned;
              Wrote(old(w.sent), WithSource(section, payload, shown, old(source.Text())), w.sent, ok)
  {
    hide SectionText, PreformattedText, Trailing, Opening;
    ghost var was := w.sent;
    var has := false;
    if source != null {
      has := source.HasPayload();
    }
    if !has {
      ok := WriteAPISection(w, section, payload);
      return;
    }
    ghost var merged := source.Text();
    ok := true;
    assert was + "" == was;
    if |payload| > 0 {
      ok := WriteAPISection(w, section, payload);
    }
    ghost var first := SectionText(section, payload);
    NoSection(section);
    if ok {
      ok := WriteOpening(w, section);
    }
    WroteMore(was, first, Opening(section), w.sent, ok);
    if ok {
      ok := WriteMerged(w, source);
    }
    WroteMore(was, first + Opening(section), PreformattedText(merged), w.sent, ok);
    SourceParts(section, merged);
    assert first + Opening(section) + PreformattedText(merged) == first + (Opening(section) + PreformattedText(merged));
  }

  method WritePreformattedAPISectionWithSource(w: Sink, section: Section, payload: bytes,
          source: FileBodySource?) returns (ok: bool)
    modifies w
    ensures ok ==> w.faults == old(w.faults)
    ensures !ok ==> w.faults == old(w.faults) + 1 || (source != null && source.Blocked() && w.faults == old(w.faults))
    ensures source == null || |source.paths| == 0 || source.cleaned ==>
        Wrote(old(w.sent), SectionText(section, payload), w.sent, ok)
    ensures source != null && |source.paths| > 0 && !source.cleaned ==>
              Wrote(old(w.sent), SectionText(section, payload) + PreformattedText(old(source.Text())), w.sent, ok)
  {
    hide SectionText, PreformattedText;
    ghost var was := w.sent;
    var has := false;
    if source != null {
      has := source.HasPayload();
    }
    if !has {
      ok := WriteAPISection(w, section, payload);
      return;
    }
    ghost var merged := source.Text();
    ok := true;
    assert was + "" == was;
    NoSection(section);
    if |payload| > 0 {
      ok := WriteAPISection(w, section, payload);
    }
    if ok {
      ok := WriteMerged(w, source);
    }
    WroteMore(was, SectionText(section, payload), PreformattedText(merged), w.sent, ok);
  }

  // With no payload of its own, a section from a source is byte for byte the section that
  // writeAPISection writes for the merged bytes, under the condition of SourceIsSection.
  lemma StreamedEqualsInMemory(section: Section, merged: bytes)
    requires |section.header| > 0
    ensures WithSource(section, "", true, merged) == SectionText(section, merged) <==>
        |merged| > 0 && !(section.prefix <= merged)
  {
    SourceIsSection(section, merged);
    assert SectionText(section, "") + SourceText(section, merged) == SourceText(section, merged);
  }

  // ---- The request ----------------------------------------------------------------------------

  // The next write, unless one before it failed.
  method WriteNext(w: Sink, before: bool, piece: bytes, ghost was: bytes, ghost done: bytes) returns (ok: bool)
    requires Wrote(was, done, w.sent, before)
    modifies w
    ensures w.faults == old(w.faults) + if ok || !before then 0 else 1
    ensures !before ==> !ok
    ensures Wrote(was, done + piece, w.sent, ok)
  {
    ok := before;
    if ok {
      ok := w.WriteString(piece);
    }
    WroteMore(was, done, piece, w.sent, ok);
  }

  method WriteOptional(w: Sink, before: bool, name: string, value: string, ghost was: bytes,
          ghost done: bytes) returns (ok: bool)
    requires Wrote(was, done, w.sent, before)
    modifies w
    ensures w.faults == old(w.faults) + if ok || !before then 0 else 1
    ensures !before ==> !ok
    ensures Wrote(was, done + Optional(name, value), w.sent, ok)
  {
    ok := before;
    if TrimSpace(value) != "" {
      ok := WriteNext(w, before, Line(name, value), was, done);
    } else {
      assert done + "" == done;
    }
  }

  lemma {:induction false} ValueLinesPrefix(key: string, shown: seq<string>, n: nat)
    requires n <= |shown|
    ensures ValueLines(key, shown[..n]) <= ValueLines(key, shown)
    decreases |shown| - n
  {
    if n < |shown| {
      assert shown[..n + 1][..n] == shown[..n];
      ValueLinesPrefix(key, shown, n + 1);
    } else {
      assert shown[..n] == shown;
    }
  }

  lemma {:induction false} HeaderLinesPrefix(headers: seq<Header>, n: nat)
    requires n <= |headers|
    ensures HeaderLines(headers[..n]) <= HeaderLines(headers)
    decreases |headers| - n
  {
    if n < |headers| {
      assert headers[..n + 1][..n] == headers[..n];
      HeaderLinesPrefix(headers, n + 1);
    } else {
      assert headers[..n] == headers;
    }
  }

  method WriteValues(w: Sink, key: string, shown: seq<string>) returns (ok: bool)
    modifies w
    ensures w.faults == old(w.faults) + if ok then 0 else 1
    ensures Wrote(old(w.sent), ValueLines(key, shown), w.sent, ok)
  {
    ghost var was := w.sent;
    assert was + "" == was;
    for i := 0 to |shown|
      invariant w.sent == was + ValueLines(key, shown[..i]) && w.faults == old(w.faults)
    {
      ok := w.WriteString(key + ": " + shown[i] + "\n");
      assert shown[..i + 1][..i] == shown[..i];
      WroteMore(was, ValueLines(key, shown[..i]), key + ": " + shown[i] + "\n", w.sent, ok);
      if !ok {
        ValueLinesPrefix(key, shown, i + 1);
        return;
      }
    }
    assert shown[..|shown|] == shown;
    ok := true;
  }

  // The headers, in whatever order the map is ranged over.
  method WriteHeaders(w: Sink, headers: seq<Header>) returns (ok: bool)
    modifies w
    ensures w.faults == old(w.faults) + if ok then 0 else 1
    ensures Wrote(old(w.sent), HeaderLines(headers), w.sent, ok)
  {
    ghost var was := w.sent;
    assert was + "" == was;
    for i := 0 to |headers|
      invariant w.sent == was + HeaderLines(headers[..i]) && w.faults == old(w.faults)
    {
      ok := WriteValues(w, headers[i].key, headers[i].shown);
      assert headers[..i + 1][..i] == headers[..i];
      WroteMore(was, HeaderLines(headers[..i]), ValueLines(headers[i].key, headers[i].shown), w.sent, ok);
      if !ok {
        HeaderLinesPrefix(headers, i + 1);
        return;
      }
    }
    assert headers[..|headers|] == headers;
    ok := true;
  }

  // The first part of writeRequestInfoWithBody.
  method WriteRequestInfo(w: Sink, info: Info) returns (ok: bool)
    modifies w
    ensures w.faults == old(w.faults) + if ok then 0 else 1
    ensures Wrote(old(w.sent), InfoText(info), w.sent, ok)
  {
    ghost var was := w.sent;
    ghost var done := "=== REQUEST INFO ===\n";
    ok := w.WriteString("=== REQUEST INFO ===\n");
    ok := WriteNext(w, ok, Line("Version: ", info.version), was, done);
    done := done + Line("Version: ", info.version);
    ok := WriteNext(w, ok, Line("URL: ", info.url), was, done);
    done := done + Line("URL: ", info.url);
    ok := WriteNext(w, ok, Line("Method: ", info.verb), was, done);
    done := done + Line("Method: ", info.verb);
    ok := WriteOptional(w, ok, "Downstream Transport: ", info.downstream, was, done);
    done := done + Optional("Downstream Transport: ", info.downstream);
    ok := WriteOptional(w, ok, "Upstream Transport: ", info.upstream, was, done);
    done := done + Optional("Upstream Transport: ", info.upstream);
    ok := WriteNext(w, ok, Line("Timestamp: ", info.timestamp), was, done);
    done := done + Line("Timestamp: ", info.timestamp);
    ok := WriteNext(w, ok, Spacing(1), was, done);
    done := done + Spacing(1);
    ok := WriteNext(w, ok, "=== HEADERS ===\n", was, done);
    done := done + "=== HEADERS ===\n";
    if ok {
      ok := WriteHeaders(w, info.headers);
    }
    WroteMore(was, done, HeaderLines(info.headers), w.sent, ok);
    done := done + HeaderLines(info.headers);
    ok := WriteNext(w, ok, Spacing(1), was, done);
  }

  // The body, from memory or from a file.
  method WriteRequestBody(w: Sink, body: bytes, bodyPath: string, fs: FileSystem) returns (ok: bool)
    modifies w
    ensures ok ==> w.faults == old(w.faults) && (bodyPath == "" || bodyPath !in fs.unreadable)
    ensures !ok ==>
              || w.faults == old(w.faults) + 1
              || (bodyPath != "" && (bodyPath !in fs.files || bodyPath in fs.unreadable) && w.faults == old(w.faults))
    ensures bodyPath == "" ==> Wrote(old(w.sent), BodyText(body), w.sent, ok)
    ensures bodyPath != "" && bodyPath in fs.files ==> Wrote(old(w.sent), BodyText(fs.files[bodyPath]), w.sent, ok)
    ensures bodyPath != "" && bodyPath !in fs.files ==> !ok
  {
    ghost var was := w.sent;
    ghost var content := if bodyPath != "" && bodyPath in fs.files then fs.files[bodyPath] else body;
    var bodyTrailingNewlines := 1;
    ok := w.WriteString(BODY_HEADER);
    if ok {
      ok, bodyTrailingNewlines := WriteBodyBytes(w, body, bodyPath, fs);
    }
    WroteMore(was, BODY_HEADER, content, w.sent, ok);
    if ok {
      ok := WriteSectionSpacing(w, bodyTrailingNewlines);
    }
    if bodyPath == "" || bodyPath in fs.files {
      WroteMore(was, BODY_HEADER + content, Spacing(if |content| > 0 then Trailing(content) else 1), w.sent, ok);
    }
  }

  method WriteBodyBytes(w: Sink, body: bytes, bodyPath: string, fs: FileSystem) returns (ok: bool, count: int)
    modifies w
    ensures ok ==> w.faults == old(w.faults) && (bodyPath == "" || bodyPath !in fs.unreadable)
    ensures !ok ==>
              || w.faults == old(w.faults) + 1
              || (bodyPath != "" && (bodyPath !in fs.files || bodyPath in fs.unreadable) && w.faults == old(w.faults))
    ensures bodyPath != "" && bodyPath !in fs.files ==> !ok && w.sent == old(w.sent)
    ensures bodyPath == "" || bodyPath in fs.files ==>
              var content := if bodyPath == "" then body else fs.files[bodyPath];
              Wrote(old(w.sent), content, w.sent, ok)
                  && (ok ==> count == if |content| > 0 then Trailing(content) else 1)
  {
    count := 1;
    if bodyPath != "" {
      if bodyPath !in fs.files || bodyPath in fs.unreadable {
        return false, 1;
      }
      var tracker := new Tracker(w);
      var written;
      written, ok := tracker.CopyFrom(fs.files[bodyPath]);
      assert "" + fs.files[bodyPath] == fs.files[bodyPath];
      if ok && written > 0 {
        count := tracker.trailingNewlines;
      }
    } else {
      ok := w.WriteString(body);
      if ok && |body| > 0 {
        count := CountTrailingNewlinesBytes(body);
      }
    }
  }

  // writeRequestInfoWithBody: the same bytes whether the body comes from memory or a file.
  method WriteRequestInfoWithBody(w: Sink, info: Info, body: bytes, bodyPath: string, fs: FileSystem,
          includeBody: bool) returns (ok: bool)
    modifies w
    ensures ok ==> w.faults == old(w.faults) && (!includeBody || bodyPath == "" || bodyPath !in fs.unreadable)
    ensures !ok ==>
              || w.faults == old(w.faults) + 1
              || (includeBody && bodyPath != "" && (bodyPath !in fs.files || bodyPath in fs.unreadable)
                  && w.faults == old(w.faults))
    ensures !includeBody ==> Wrote(old(w.sent), InfoText(info), w.sent, ok)
    ensures includeBody && bodyPath != "" && bodyPath !in fs.files ==> !ok
    ensures includeBody && (bodyPath == "" || bodyPath in fs.files) ==>
              var content := if bodyPath == "" then body else fs.files[bodyPath];
              Wrote(old(w.sent), InfoText(info) + BodyText(content), w.sent, ok) && (ok ==> Trailing(w.sent) >= 3)
  {
    hide InfoText, BodyText, Trailing;
    ghost var was := w.sent;
    ghost var content := if bodyPath != "" && bodyPath in fs.files then fs.files[bodyPath] else body;
    ok := WriteRequestInfo(w, info);
    if !includeBody {
      return;
    }
    if ok {
      ok := WriteRequestBody(w, body, bodyPath, fs);
    }
    if bodyPath == "" || bodyPath in fs.files {
      WroteMore(was, InfoText(info), BodyText(content), w.sent, ok);
      BodyEnds(was + InfoText(info), content);
      assert was + InfoText(info) + BodyText(content) == was + (InfoText(info) + BodyText(content));
    }
  }
}
