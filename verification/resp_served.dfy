// What goes over the wire and onto the queue, in bytes: the exact texts of both sides, when
// a subscription ends, and which messages the bridge keeps.
module RespServed {
  import opened Text
  import opened TextLaws
  import opened Decimal
  import opened Ordering
  import opened RespFormat
  import opened RespLaws
  import opened RespRoundTrip
  import opened RespBridge
  import opened RespPubSub

  // ---- Exact texts ------------------------------------------------------------------------

  predicate Digitwise(s: string, n: nat)
    decreases |s|
  {
    |s| > 0 && s[|s| - 1] == "0123456789"[n % 10] && if n < 10 then |s| == 1 else Digitwise(s[..|s| - 1], n / 10)
  }

  // Decimal digits, without leading zeros.
  lemma {:induction false} ItoaDigits(n: nat)
    ensures Digitwise(Itoa(n), n)
    decreases n
  {
    if n >= 10 {
      ItoaDigits(n / 10);
      assert Itoa(n)[..|Itoa(n)| - 1] == Itoa(n / 10);
    }
  }

  lemma BulkIs(p: bytes)
    ensures Bulk(Some(p)) == "$" + Itoa(|p|) + "\r\n" + p + "\r\n" && Bulk(None) == "$-1\r\n"
  {
  }

  lemma Sizes()
    ensures Itoa(0) == "0" && Itoa(1) == "1" && Itoa(2) == "2" && Itoa(3) == "3" && Itoa(4) == "4" && Itoa(5) == "5"
    ensures Itoa(7) == "7" && Itoa(9) == "9" && Itoa(11) == "11"
  {
    assert Digits(1) == "1" && Digits(11) == Digits(1) + "1";
  }

  // The fixed parts.
  lemma Heads()
    ensures Header(2) == "*2\r\n" && Header(3) == "*3\r\n" && Integer(0) == ":0\r\n" && Integer(1) == ":1\r\n"
  {
    Sizes();
  }

  lemma Words()
    ensures Bulk(Some("message")) == "$7\r\nmessage\r\n" && Bulk(Some("subscribe")) == "$9\r\nsubscribe\r\n"
    ensures Bulk(Some("unsubscribe")) == "$11\r\nunsubscribe\r\n" && Bulk(Some("pong")) == "$4\r\npong\r\n"
  {
    hide Itoa;
    Sizes();
  }

  lemma CommandWords()
    ensures Bulk(Some("AUTH")) == "$4\r\nAUTH\r\n" && Bulk(Some("SUBSCRIBE")) == "$9\r\nSUBSCRIBE\r\n"
    ensures Bulk(Some("usage")) == "$5\r\nusage\r\n"
  {
    hide Itoa;
    Sizes();
  }

  lemma Joined(a: bytes, b: bytes, c: bytes)
    ensures a + b + c == a + (b + c)
  {
  }

  lemma MessageIs(channel: bytes, payload: Option<bytes>)
    ensures Message(channel, payload) == "*3\r\n$7\r\nmessage\r\n" + Bulk(Some(channel)) + Bulk(payload)
  {
    hide Bulk, Header, Bulks;
    Heads();
    Words();
    BulksOf(Some("message"), Some(channel), payload);
    var kind, name := Bulk(Some("message")), Bulk(Some(channel));
    assert Message(channel, payload) == Header(3) + (kind + name + Bulk(payload));
    Joined(Header(3), kind + name, Bulk(payload));
    Joined(Header(3), kind, name);
  }

  lemma AckIs(channel: bytes)
    ensures Ack("subscribe", channel, 1) == "*3\r\n$9\r\nsubscribe\r\n" + Bulk(Some(channel)) + ":1\r\n"
    ensures Ack("unsubscribe", channel, 0) == "*3\r\n$11\r\nunsubscribe\r\n" + Bulk(Some(channel)) + ":0\r\n"
  {
    hide Bulk, Header, Integer;
    Heads();
    Words();
  }

  lemma PongIs(payload: Option<bytes>)
    ensures Pong(payload) == "*2\r\n$4\r\npong\r\n" + Bulk(payload)
  {
    hide Bulk, Header, Bulks;
    Heads();
    Words();
    BulksOf(Some("pong"), payload, None);
    Joined(Header(2), Bulk(Some("pong")), Bulk(payload));
  }

  lemma AuthIs(password: bytes)
    ensures AuthCommand(password) == "*2\r\n$4\r\nAUTH\r\n" + Bulk(Some(password))
  {
    hide Bulk, Header, Bulks;
    Heads();
    CommandWords();
    BulksOf(Some("AUTH"), Some(password), None);
    assert Present(["AUTH", password]) == [Some("AUTH"), Some(password)];
    Joined(Header(2), Bulk(Some("AUTH")), Bulk(Some(password)));
  }

  lemma SubscribeIs()
    ensures SUBSCRIBE_COMMAND == "*2\r\n$9\r\nSUBSCRIBE\r\n$5\r\nusage\r\n"
  {
    hide Bulk, Header, Bulks;
    Heads();
    CommandWords();
    BulksOf(Some("SUBSCRIBE"), Some("usage"), None);
    assert Present(["SUBSCRIBE", "usage"]) == [Some("SUBSCRIBE"), Some("usage")];
    Joined(Header(2), Bulk(Some("SUBSCRIBE")), Bulk(Some("usage")));
  }

  // ---- The server's stream ---------------------------------------------------------------------

  predicate Says(args: seq<bytes>, word: bytes)
  {
    |args| > 0 && ToUpper(TrimSpace(args[0])) == word
  }

  // Publications, and commands other than UNSUBSCRIBE and QUIT.
  predicate GoesOn(event: Event)
  {
    event.Publish? || (event.Received? && !Says(event.args, "UNSUBSCRIBE") && !Says(event.args, "QUIT"))
  }

  // What one event is answered with.
  function Reply(channel: bytes, event: Event): bytes
  {
    match event
    case Publish(payload) => "*3\r\n$7\r\nmessage\r\n" + Bulk(Some(channel)) + Bulk(payload)
    case Received(args) =>
      if |args| == 0 then "-ERR empty command\r\n"
      else if Says(args, "PING") then "*2\r\n$4\r\npong\r\n" + Bulk(if |args| == 1 then None else Some(args[1]))
      else if Says(args, "UNSUBSCRIBE") then "*3\r\n$11\r\nunsubscribe\r\n" + Bulk(Some(channel)) + ":0\r\n"
      else if Says(args, "QUIT") then "+OK\r\n"
      else "-ERR unknown command '" + ToLower(ToUpper(TrimSpace(args[0]))) + "'\r\n"
    case Unreadable(error) => "-ERR " + error + "\r\n"
    case _ => ""
  }

  lemma ErrorsAre(name: bytes)
    ensures ErrorLine("ERR empty command") == "-ERR empty command\r\n"
    ensures ErrorLine("ERR unknown command '" + name + "'") == "-ERR unknown command '" + name + "'\r\n"
  {
    assert "-" + ("ERR unknown command '" + name + "'") == "-ERR unknown command '" + name + "'";
    assert "'\r\n" == "'" + "\r\n";
  }

  lemma HandledIs(channel: bytes, args: seq<bytes>)
    ensures Handled(channel, args) == Answer(Reply(channel, Received(args)), GoesOn(Received(args)))
  {
    hide Pong, Ack, Bulk, TrimSpace, ToUpper, ToLower, ErrorLine;
    ErrorsAre("");
    if |args| > 0 {
      ErrorsAre(ToLower(ToUpper(TrimSpace(args[0]))));
      var cmd := ToUpper(TrimSpace(args[0]));
      if cmd == "PING" {
        PongIs(if |args| > 1 then Some(args[1]) else None);
      } else if cmd == "UNSUBSCRIBE" {
        AckIs(channel);
      }
    }
  }

  lemma PickedIs(channel: bytes, event: Event)
    ensures RespPubSub.Picked(channel, event) == Answer(Reply(channel, event), GoesOn(event))
  {
    hide Message, Pong, Ack, Bulk, Handled, Says;
    match event
    case Publish(payload) => MessageIs(channel, payload);
    case Received(args) => HandledIs(channel, args);
    case _ =>
  }

  function Replies(channel: bytes, events: seq<Event>): bytes
  {
    if |events| == 0 then "" else Replies(channel, events[..|events| - 1]) + Reply(channel, events[|events| - 1])
  }

  // The stream answers every event up to the first that ends it, that one included, and
  // nothing after it.
  lemma {:induction false} StreamedIs(channel: bytes, events: seq<Event>, n: nat)
    requires n <= |events| && forall i :: 0 <= i < n ==> GoesOn(events[i])
    requires n < |events| ==> !GoesOn(events[n])
    ensures Streamed(channel, events) == Replies(channel, if n < |events| then events[..n + 1] else events)
    decreases n
  {
    hide GoesOn, Reply, RespPubSub.Picked;
    if |events| > 0 {
      PickedIs(channel, events[0]);
      if n > 0 {
        StreamedIs(channel, events[1..], n - 1);
        RepliesFirst(channel, if n < |events| then events[..n + 1] else events);
        if n < |events| { assert events[..n + 1][1..] == events[1..][..n]; }
      } else {
        assert events[..1] == [events[0]] && Replies(channel, []) == "" && [events[0]][..0] == [];
      }
    }
  }

  lemma {:induction false} RepliesFirst(channel: bytes, events: seq<Event>)
    requires |events| > 0
    ensures Replies(channel, events) == Reply(channel, events[0]) + Replies(channel, events[1..])
    decreases |events|
  {
    hide Reply;
    var l := |events| - 1;
    if l == 0 {
      assert events[..0] == [] && events[1..] == [];
    } else {
      RepliesFirst(channel, events[..l]);
      assert events[..l][1..] == events[1..][..l - 1];
      Joined(Reply(channel, events[0]), Replies(channel, events[1..][..l - 1]), Reply(channel, events[l]));
    }
  }

  // ---- What the bridge keeps ---------------------------------------------------------------------

  // One of the two control texts, with white space around it or not.
  ghost predicate Control(payload: Option<bytes>)
  {
    exists before: seq<string>, text: bytes, after: seq<string> :: Spaced(payload, before, text, after)
  }

  predicate Spaced(payload: Option<bytes>, before: seq<string>, text: bytes, after: seq<string>)
  {
    && AllWhite(before) && AllWhite(after)
    && (text == "{\"support_refresh\":true}" || text == "{\"refresh\":true}")
    && payload == Some(Glued(before) + text + Glued(after))
  }

  lemma {:induction false} TrimLeftOf(before: seq<string>, rest: string)
    requires AllWhite(before) && SpaceAt(rest) == 0
    ensures TrimLeft(Glued(before) + rest) == rest
  {
    hide SpaceAt;
    if |before| == 0 {
      assert Glued(before) + rest == rest;
    } else {
      var s := Glued(before) + rest;
      assert s == before[0] + (Glued(before[1..]) + rest);
      RuneInFront(before[0], Glued(before[1..]) + rest);
      TrimLeftOf(before[1..], rest);
    }
  }

  lemma RuneInFront(w: string, rest: string)
    requires WhiteRune(w)
    ensures SpaceAt(w + rest) == |w| > 0 && (w + rest)[|w|..] == rest
  {
    var s := w + rest;
    assert forall i :: 0 <= i < |w| ==> s[i] == w[i];
  }

  lemma RuneAtEnd(rest: string, w: string)
    requires WhiteRune(w)
    ensures SpaceEnd(rest + w) == |w| > 0 && (rest + w)[..|rest|] == rest
  {
    var s := rest + w;
    assert forall i :: 0 <= i < |w| ==> s[|rest| + i] == w[i];
  }

  lemma {:induction false} TrimRightOf(rest: string, after: seq<string>)
    requires AllWhite(after) && SpaceEnd(rest) == 0
    ensures TrimRight(rest + Glued(after)) == rest
    decreases |after|
  {
    hide SpaceEnd;
    if |after| == 0 {
      assert rest + Glued(after) == rest;
    } else {
      var l := |after| - 1;
      assert after == after[..l] + [after[l]];
      GluedMore(after[..l], after[l]);
      Joined(rest, Glued(after[..l]), after[l]);
      RuneAtEnd(rest + Glued(after[..l]), after[l]);
      TrimRightOf(rest, after[..l]);
    }
  }

  lemma Braced(text: bytes, more: bytes)
    requires |text| > 0 && text[0] == '{' && text[|text| - 1] == '}'
    ensures SpaceAt(text + more) == 0 && SpaceEnd(text) == 0
  {
  }

  lemma Texts()
    ensures var a, b := "{\"support_refresh\":true}", "{\"refresh\":true}";
            a[0] == b[0] == '{' && a[|a| - 1] == b[|b| - 1] == '}'
  {
  }

  lemma ControlIs(payload: Option<bytes>)
    ensures IsControl(payload) <==> Control(payload)
  {
    hide TrimSpace, WhiteRune, SpaceAt, SpaceEnd;
    if IsControl(payload) {
      NoneIsNot();
      var before, after := TrimSpaceIs(payload.value);
      assert Spaced(payload, before, TrimSpace(payload.value), after);
    }
    if before: seq<string>, text: bytes, after: seq<string> :| Spaced(payload, before, text, after) {
      Texts();
      TrimmedText(before, text, after);
    }
  }

  lemma NoneIsNot()
    ensures !IsControl(None)
  {
  }

  lemma TrimmedText(before: seq<string>, text: bytes, after: seq<string>)
    requires AllWhite(before) && AllWhite(after)
    requires |text| > 0 && text[0] == '{' && text[|text| - 1] == '}'
    ensures TrimSpace(Glued(before) + text + Glued(after)) == text
  {
    Braced(text, Glued(after));
    Joined(Glued(before), text, Glued(after));
    TrimLeftOf(before, text + Glued(after));
    TrimRightOf(text, after);
  }

  lemma Lowered(s: string, w: string)
    ensures ToLower(s) == w <==> |s| == |w| && forall i :: 0 <= i < |w| ==> ToLower(s)[i] == w[i]
  {
  }

  lemma LongS(a: char, b: char)
    ensures [a, b] == "\U{00C5}\U{00BF}" <==> a == '\U{00C5}' && b == '\U{00BF}'
  {
    assert [a, b][0] == a && [a, b][1] == b;
  }

  // "usage" in any mixture of cases, where a long s counts as an s.
  predicate Usage(channel: bytes)
  {
    || (|channel| == 5 && channel[0] in {'u', 'U'} && channel[1] in {'s', 'S'} && channel[2] in {'a', 'A'}
        && channel[3] in {'g', 'G'} && channel[4] in {'e', 'E'})
    || (|channel| == 6 && channel[0] in {'u', 'U'} && channel[1] == '\U{00C5}' && channel[2] == '\U{00BF}'
        && channel[3] in {'a', 'A'} && channel[4] in {'g', 'G'} && channel[5] in {'e', 'E'})
  }

  lemma UsageIs(channel: bytes)
    ensures IsUsage(channel) <==> Usage(channel)
  {
    Lowered(channel, "usage");
    if |channel| == 5 {
      ShortUsage(channel);
    } else if |channel| == 6 {
      LongUsage(channel);
    }
  }

  lemma ShortUsage(channel: bytes)
    requires |channel| == 5
    ensures ToLower(channel) == "usage" <==>
            channel[0] in {'u', 'U'} && channel[1] in {'s', 'S'} && channel[2] in {'a', 'A'}
            && channel[3] in {'g', 'G'} && channel[4] in {'e', 'E'}
  {
    Lowered(channel, "usage");
    assert ToLower(channel)[0] == 'u' <==> channel[0] in {'u', 'U'};
    assert ToLower(channel)[1] == 's' <==> channel[1] in {'s', 'S'};
    assert ToLower(channel)[2] == 'a' <==> channel[2] in {'a', 'A'};
    assert ToLower(channel)[3] == 'g' <==> channel[3] in {'g', 'G'};
    assert ToLower(channel)[4] == 'e' <==> channel[4] in {'e', 'E'};
  }

  lemma LongUsage(channel: bytes)
    requires |channel| == 6
    ensures ToLower(channel[..1]) == "u" && channel[1..3] == "\U{00C5}\U{00BF}" && ToLower(channel[3..]) == "age" <==>
            channel[0] in {'u', 'U'} && channel[1] == '\U{00C5}' && channel[2] == '\U{00BF}'
            && channel[3] in {'a', 'A'} && channel[4] in {'g', 'G'} && channel[5] in {'e', 'E'}
  {
    var first, last := channel[..1], channel[3..];
    assert first == [channel[0]] && last == [channel[3], channel[4], channel[5]];
    Lowered(first, "u");
    Lowered(last, "age");
    LongS(channel[1], channel[2]);
    assert channel[1..3] == [channel[1], channel[2]];
    assert ToLower(first)[0] == 'u' <==> channel[0] in {'u', 'U'};
    assert ToLower(last)[0] == 'a' <==> channel[3] in {'a', 'A'};
    assert ToLower(last)[1] == 'g' <==> channel[4] in {'g', 'G'};
    assert ToLower(last)[2] == 'e' <==> channel[5] in {'e', 'E'};
  }

  // Everything but the control messages.
  ghost function Plain(): Option<bytes> -> bool
  {
    (m: Option<bytes>) => !Control(m)
  }

  lemma {:induction false} WantedIs(ms: seq<Option<bytes>>)
    ensures Ordering.Picked(ms, Plain(), Wanted(ms))
    decreases |ms|
  {
    hide Control, IsControl, Ordering.Picked, Wanted;
    if |ms| == 0 {
      PickedNone(Plain());
      NoneWanted();
    } else {
      var l := |ms| - 1;
      WantedIs(ms[..l]);
      PickedMore(ms[..l], Plain(), Wanted(ms[..l]), ms[l]);
      WantedLast(ms[..l], ms[l]);
      ControlIs(ms[l]);
      assert ms == ms[..l] + [ms[l]];
    }
  }

  lemma {:induction false} WantedLast(ms: seq<Option<bytes>>, m: Option<bytes>)
    ensures Wanted(ms + [m]) == if IsControl(m) then Wanted(ms) else Wanted(ms) + [m]
    decreases |ms|
  {
    hide IsControl;
    if |ms| == 0 {
      assert ([m])[1..] == [] && ms + [m] == [m];
    } else {
      assert (ms + [m])[1..] == ms[1..] + [m];
      WantedLast(ms[1..], m);
    }
  }

  // As many messages as fit into the room, and not one more.
  lemma {:induction false} WholeFits(channel: bytes, ms: seq<Option<bytes>>, room: nat)
    ensures var c := Whole(channel, ms, room);
            && |Publications(channel, ms[..c])| <= room
            && (c < |ms| ==> room < |Publications(channel, ms[..c + 1])|)
    decreases |ms|
  {
    hide Message;
    if |ms| > 0 {
      var size := |Message(channel, ms[0])|;
      assert ms[..1][1..] == [] && ms[..0] == [];
      if size <= room {
        WholeFits(channel, ms[1..], room - size);
        var c := Whole(channel, ms[1..], room - size);
        assert ms[..c + 1][1..] == ms[1..][..c];
        if c < |ms[1..]| { assert ms[..c + 2][1..] == ms[1..][..c + 1]; }
      }
    }
  }

  // End to end, in bytes: cut off anywhere after the ack, the bridge has enqueued exactly the
  // payloads that are no control text, unchanged and in order, of as many messages as came
  // through whole, or as it had passes for.
  lemma BridgeKeeps(channel: bytes, ms: seq<Option<bytes>>, k: nat, passes: nat) returns (whole: nat, n: nat)
    requires IsUsage(channel) && Sendable(channel, ms)
    requires OK_SIZE + AckSize(channel) <= k <= |Stream(channel, ms)|
    ensures whole <= |ms| && n == (if passes <= whole then passes else whole)
    ensures var room := k - OK_SIZE - AckSize(channel);
            && |Publications(channel, ms[..whole])| <= room
            && (whole < |ms| ==> room < |Publications(channel, ms[..whole + 1])|)
    ensures var run := Session(Stream(channel, ms), 0, k, passes);
            && Ordering.Picked(ms[..n], Plain(), run.queued)
            && (if n == passes then run.error == Canceled else run.error == Eof || run.error == UnexpectedEof)
  {
    hide Session, Stream, Publications, Ordering.Picked, IsUsage, Sendable, Whole, Wanted;
    whole := Whole(channel, ms, k - OK_SIZE - AckSize(channel));
    n := if passes <= whole then passes else whole;
    EndToEnd(channel, ms, k, passes);
    WholeFits(channel, ms, k - OK_SIZE - AckSize(channel));
    WantedIs(ms[..n]);
  }

  // ---- Messages of any channel ----------------------------------------------------------------------

  type Sent = (bytes, Option<bytes>)

  function Mixed(ms: seq<Sent>): bytes
  {
    if |ms| == 0 then "" else Message(ms[0].0, ms[0].1) + Mixed(ms[1..])
  }

  // Of the usage channel, and no control text.
  ghost function Keeps(): Sent -> bool
  {
    (m: Sent) => Usage(m.0) && !Control(m.1)
  }

  ghost function Kept(ms: seq<Sent>): seq<Sent>
  {
    if |ms| == 0 then [] else (if Keeps()(ms[0]) then [ms[0]] else []) + Kept(ms[1..])
  }

  function Payloads(ms: seq<Sent>): (r: seq<Option<bytes>>)
    ensures |r| == |ms|
  {
    seq(|ms|, i requires 0 <= i < |ms| => ms[i].1)
  }

  lemma {:induction false} KeptLast(ms: seq<Sent>, m: Sent)
    ensures Kept(ms + [m]) == if Keeps()(m) then Kept(ms) + [m] else Kept(ms)
    decreases |ms|
  {
    hide Keeps;
    if |ms| == 0 {
      assert [m][1..] == [] && ms + [m] == [m];
    } else {
      assert (ms + [m])[1..] == ms[1..] + [m];
      KeptLast(ms[1..], m);
      JoinedSent(if Keeps()(ms[0]) then [ms[0]] else [], Kept(ms[1..]), [m]);
    }
  }

  lemma JoinedSent(a: seq<Sent>, b: seq<Sent>, c: seq<Sent>)
    ensures a + b + c == a + (b + c)
  {
  }

  lemma {:induction false} KeptIs(ms: seq<Sent>)
    ensures Ordering.Picked(ms, Keeps(), Kept(ms))
    decreases |ms|
  {
    hide Keeps, Ordering.Picked, Kept;
    if |ms| == 0 {
      PickedNone(Keeps());
      KeptNone();
    } else {
      var l := |ms| - 1;
      KeptIs(ms[..l]);
      PickedMore(ms[..l], Keeps(), Kept(ms[..l]), ms[l]);
      KeptLast(ms[..l], ms[l]);
      assert ms == ms[..l] + [ms[l]];
    }
  }

  lemma KeptNone()
    ensures Kept([]) == []
  {
  }

  predicate AllSendable(ms: seq<Sent>)
  {
    forall i :: 0 <= i < |ms| ==> |ms[i].0| <= MAX_INT && |Flat(ms[i].1)| <= MAX_INT
  }

  lemma KeptFirst(ms: seq<Sent>, n: nat)
    requires 0 < n <= |ms|
    ensures Payloads(Kept(ms[..n])) ==
            (if Keeps()(ms[0]) then [ms[0].1] else []) + Payloads(Kept(ms[1..][..n - 1]))
  {
    hide Keeps;
    assert ms[..n][1..] == ms[1..][..n - 1];
  }

  // The loop on messages of any channels, cut off anywhere: it enqueues the payloads of
  // exactly those of the usage channel that are no control texts, in order.
  lemma {:induction false} MixedDelivered(s: bytes, i: nat, k: nat, passes: nat, ms: seq<Sent>) returns (whole: nat)
    requires Holds(s, i, Mixed(ms)) && i <= k <= i + |Mixed(ms)| && AllSendable(ms)
    ensures whole <= |ms| && |Mixed(ms[..whole])| <= k - i
    ensures whole < |ms| ==> k - i < |Mixed(ms[..whole + 1])|
    ensures var n := if passes <= whole then passes else whole;
            Messages(s, i, k, passes).queued == Payloads(Kept(ms[..n]))
    decreases |ms|
  {
    hide StrictMessage, Message, IsControl, IsUsage, Keeps, Usage, Control, Kept, Payloads;
    NothingKept(ms);
    whole := 0;
    if |ms| == 0 {
      if passes > 0 { NothingLeft(s, i); }
    } else {
      var (channel, payload) := ms[0];
      var size := |Message(channel, payload)|;
      HoldsParts(s, i, Message(channel, payload), Mixed(ms[1..]));
      MessageHeld(s, i, k, channel, payload);
      MixedMore(ms, 0);
      if i + size <= k {
        var more := MixedDelivered(s, i + size, k, if passes == 0 then 0 else passes - 1, ms[1..]);
        whole := more + 1;
        MixedMore(ms, more);
        if whole < |ms| { MixedMore(ms, whole); }
        if passes > 0 {
          KeepsIs(ms[0]);
          KeptFirst(ms, if passes <= whole then passes else whole);
        }
      }
    }
  }

  lemma MixedMore(ms: seq<Sent>, n: nat)
    requires n < |ms|
    ensures Mixed(ms[..n + 1]) == Message(ms[0].0, ms[0].1) + Mixed(ms[1..][..n]) && Mixed(ms[..0]) == ""
  {
    hide Message;
    assert ms[..n + 1][1..] == ms[1..][..n];
  }

  lemma NothingKept(ms: seq<Sent>)
    ensures ms[..0] == [] && Payloads(Kept(ms[..0])) == [] && Mixed(ms[..0]) == ""
  {
  }

  lemma KeepsIs(m: Sent)
    ensures Keeps()(m) <==> IsUsage(m.0) && !IsControl(m.1)
  {
    hide IsUsage, IsControl, Usage, Control;
    UsageIs(m.0);
    ControlIs(m.1);
  }

  // ---- Refused -------------------------------------------------------------------------------------

  // An error reply to AUTH, or the ack of another channel: nothing is enqueued.
  lemma ErrorReplyEnds(text: bytes, rest: bytes, passes: nat)
    requires forall i :: 0 <= i < |text| ==> text[i] != '\n'
    ensures var s := "-" + text + "\r\n" + rest;
            Session(s, 0, |s|, passes) == Run([], ErrorReply(TrimSpace(text)))
  {
    hide TrimSpace, StrictAck, Messages, StrictLine;
    var s := "-" + text + "\r\n" + rest;
    assert s == "-" + (text + "\r\n") + rest;
    assert s[1..1 + |text + "\r\n"|] == text + "\r\n";
    LineHeld(s, 1, |s|, text);
  }

  lemma OtherChannelEnds(channel: bytes, rest: bytes, passes: nat)
    requires !IsUsage(channel) && |channel| <= MAX_INT
    ensures var s := Simple("OK") + (Ack("subscribe", channel, 1) + rest);
            Session(s, 0, |s|, passes) == Run([], WrongChannel(channel))
  {
    hide Simple, Ack, StrictSimple, StrictAck, Messages, IsUsage;
    var s := Simple("OK") + (Ack("subscribe", channel, 1) + rest);
    assert s[0..|s|] == s;
    HoldsParts(s, 0, Simple("OK"), Ack("subscribe", channel, 1) + rest);
    HoldsParts(s, OK_SIZE, Ack("subscribe", channel, 1), rest);
    OkHeld(s, |s|);
    AckHeld(s, OK_SIZE, |s|, channel);
  }
}
