// The usage bridge as a whole: what subscribeDataPlaneUsageQueue puts on the queue when it
// is fed the bytes that the server's writers emit, on streams that end anywhere.
module RespBridge {
  import opened Text
  import opened Decimal
  import opened RespFormat
  import opened RespLaws
  import opened RespRoundTrip

  // strings.EqualFold(channel, "usage"). Apart from letter case, the only byte string that
  // folds to it spells its s as the long s, U+017F.
  predicate IsUsage(channel: bytes)
  {
    || ToLower(channel) == "usage"
    || (|channel| == 6 && ToLower(channel[..1]) == "u" && channel[1..3] == "\U{00C5}\U{00BF}"
        && ToLower(channel[3..]) == "age")
  }

  // isUsageControlPayload
  predicate IsControl(payload: Option<bytes>)
  {
    var trimmed := TrimSpace(Flat(payload));
    trimmed == "{\"support_refresh\":true}" || trimmed == "{\"refresh\":true}"
  }

  // What a run enqueued and the error it returned.
  datatype Run = Run(queued: seq<Option<bytes>>, error: ReadError)

  // The loop of subscribeDataPlaneUsageQueue, whose context is done after `passes` checks.
  function Messages(s: bytes, i: nat, k: nat, passes: nat): Run
    requires i <= k <= |s|
    decreases passes
  {
    if passes == 0 then Run([], Canceled)
    else match StrictMessage(s, i, k)
      case Fail(e, _) => Run([], e)
      case Done((channel, payload), j) =>
        var more := Messages(s, j, k, passes - 1);
        if IsUsage(channel) && !IsControl(payload) then more.(queued := [payload] + more.queued) else more
  }

  // The whole of it after the connection is made: the reply to AUTH, the ack, the messages.
  function Session(s: bytes, i: nat, k: nat, passes: nat): Run
    requires i <= k <= |s|
  {
    match StrictSimple(s, i, k)
    case Fail(e, _) => Run([], e)
    case Done(_, j) =>
      match StrictAck(s, j, k)
      case Fail(e, _) => Run([], e)
      case Done((channel, _), l) => if IsUsage(channel) then Messages(s, l, k, passes)
          else Run([], WrongChannel(channel))
  }

  // ---- What the server sends -----------------------------------------------------------

  function Publications(channel: bytes, ms: seq<Option<bytes>>): bytes
  {
    if |ms| == 0 then "" else Message(channel, ms[0]) + Publications(channel, ms[1..])
  }

  function Wanted(ms: seq<Option<bytes>>): seq<Option<bytes>>
  {
    if |ms| == 0 then [] else (if IsControl(ms[0]) then [] else [ms[0]]) + Wanted(ms[1..])
  }

  // How many whole messages the first n bytes of the publications hold.
  function Whole(channel: bytes, ms: seq<Option<bytes>>, n: nat): (c: nat)
    ensures c <= |ms|
  {
    if |ms| == 0 || n < |Message(channel, ms[0])| then 0
    else 1 + Whole(channel, ms[1..], n - |Message(channel, ms[0])|)
  }

  predicate Sendable(channel: bytes, ms: seq<Option<bytes>>)
  {
    |channel| <= MAX_INT && forall i :: 0 <= i < |ms| ==> |Flat(ms[i])| <= MAX_INT
  }

  lemma MessageHeld(s: bytes, i: nat, k: nat, channel: bytes, payload: Option<bytes>)
    requires Holds(s, i, Message(channel, payload)) && Sendable(channel, [payload]) && i <= k <= |s|
    ensures if i + |Message(channel, payload)| <= k
            then StrictMessage(s, i, k) == Done((channel, payload), i + |Message(channel, payload)|)
            else StrictMessage(s, i, k).Fail? && Ended(StrictMessage(s, i, k))
  {
    hide StrictArray, ArrayOf;
    var items := [Some("message"), Some(channel), payload];
    assert Sized(items) by { assert [payload][0] == payload; }
    ArrayHeld(s, i, |s|, items);
    StrictArrayFramed(s, i, k, |s|);
  }

  // The loop on a stream that holds publications and ends at k: it enqueues the wanted ones
  // of the whole messages it gets to, in order, and stops at the end of file or when the
  // context is done, whichever comes first.
  lemma {:induction false} MessagesDelivered(s: bytes, i: nat, k: nat, passes: nat, channel: bytes,
          ms: seq<Option<bytes>>)
    requires Holds(s, i, Publications(channel, ms)) && i <= k <= i + |Publications(channel, ms)|
    requires IsUsage(channel) && Sendable(channel, ms)
    ensures var run, c := Messages(s, i, k, passes), Whole(channel, ms, k - i);
            && run.queued == Wanted(ms[..if passes <= c then passes else c])
            && (if passes <= c then run.error == Canceled else run.error == Eof || run.error == UnexpectedEof)
            && (passes > |ms| && k == i + |Publications(channel, ms)| ==> run.error == Eof)
    decreases passes
  {
    hide StrictMessage, Message, IsControl, IsUsage, Wanted;
    NoneWanted();
    assert ms[..0] == [];
    if passes > 0 {
      if |ms| == 0 {
        NothingLeft(s, i);
      } else {
        var size := |Message(channel, ms[0])|;
        HoldsParts(s, i, Message(channel, ms[0]), Publications(channel, ms[1..]));
        MessageHeld(s, i, k, channel, ms[0]);
        if i + size <= k {
          MessagesDelivered(s, i + size, k, passes - 1, channel, ms[1..]);
          var c := Whole(channel, ms, k - i);
          WantedMore(ms, if passes <= c then passes else c);
        }
      }
    }
  }

  lemma WantedMore(ms: seq<Option<bytes>>, n: nat)
    requires 0 < n <= |ms|
    ensures Wanted(ms[..n]) == (if IsControl(ms[0]) then [] else [ms[0]]) + Wanted(ms[1..][..n - 1])
  {
    hide IsControl;
    assert ms[..n][1..] == ms[1..][..n - 1];
  }

  lemma NoneWanted()
    ensures Wanted([]) == []
  {
  }

  lemma NothingLeft(s: bytes, i: nat)
    requires i <= |s|
    ensures StrictMessage(s, i, i) == Fail(Eof, i)
  {
  }

  function Stream(channel: bytes, ms: seq<Option<bytes>>): bytes
  {
    Simple("OK") + (Ack("subscribe", channel, 1) + Publications(channel, ms))
  }

  const OK_SIZE := |Simple("OK")|

  function AckSize(channel: bytes): nat
  {
    |Ack("subscribe", channel, 1)|
  }

  lemma AckHeld(s: bytes, i: nat, k: nat, channel: bytes)
    requires Holds(s, i, Ack("subscribe", channel, 1)) && |channel| <= MAX_INT && i + AckSize(channel) <= k <= |s|
    ensures StrictAck(s, i, k) == Done((channel, 1), i + AckSize(channel))
  {
    hide StrictNumber, StrictBulk, Bulk, Itoa;
    var head, kind, name, count := Header(3), Bulk(Some("subscribe")), Bulk(Some(channel)), Integer(1);
    assert Ack("subscribe", channel, 1) == head + (kind + (name + count));
    HoldsParts(s, i, head, kind + (name + count));
    HoldsParts(s, i + |head|, kind, name + count);
    HoldsParts(s, i + |head| + |kind|, name, count);
    NumberHeld('*', s, i, k, 3);
    BulkHeld(s, i + |head|, k, Some("subscribe"));
    BulkHeld(s, i + |head| + |kind|, k, Some(channel));
    NumberHeld(':', s, i + |head| + |kind| + |name|, k, 1);
  }

  lemma OkHeld(s: bytes, k: nat)
    requires Holds(s, 0, Simple("OK")) && OK_SIZE <= k <= |s|
    ensures StrictSimple(s, 0, k) == Done("OK", OK_SIZE)
  {
    hide StrictLine;
    assert Simple("OK") == "+" + ("OK" + "\r\n");
    HoldsParts(s, 0, "+", "OK" + "\r\n");
    HoldsByte(s, 0, "+", 0);
    LineHeld(s, 1, k, "OK");
  }

  lemma StreamParts(channel: bytes, ms: seq<Option<bytes>>)
    ensures var s := Stream(channel, ms);
            && |s| == OK_SIZE + AckSize(channel) + |Publications(channel, ms)|
            && Holds(s, 0, Simple("OK"))
            && Holds(s, OK_SIZE, Ack("subscribe", channel, 1))
            && Holds(s, OK_SIZE + AckSize(channel), Publications(channel, ms))
  {
    hide Simple, Ack, Publications;
    var s := Stream(channel, ms);
    assert s[0..|s|] == s;
    HoldsParts(s, 0, Simple("OK"), Ack("subscribe", channel, 1) + Publications(channel, ms));
    HoldsParts(s, OK_SIZE, Ack("subscribe", channel, 1), Publications(channel, ms));
  }

  // End to end. Fed the OK reply, the subscribe ack and any list of messages as the server
  // writes them, on a connection that breaks anywhere after the ack and a context that is
  // done after any number of passes, the bridge enqueues exactly the payloads that are not
  // control messages among the whole messages received before that, unchanged and in order.
  lemma EndToEnd(channel: bytes, ms: seq<Option<bytes>>, k: nat, passes: nat)
    requires IsUsage(channel) && Sendable(channel, ms)
    requires OK_SIZE + AckSize(channel) <= k <= |Stream(channel, ms)|
    ensures var run, c := Session(Stream(channel, ms), 0, k, passes),
        Whole(channel, ms, k - OK_SIZE - AckSize(channel));
            && run.queued == Wanted(ms[..if passes <= c then passes else c])
            && (if passes <= c then run.error == Canceled else run.error == Eof || run.error == UnexpectedEof)
            && (passes > |ms| && k == |Stream(channel, ms)| ==> run.error == Eof)
  {
    hide StrictSimple, StrictAck, Messages, Simple, Ack, Publications, IsUsage, Holds, Stream;
    var s := Stream(channel, ms);
    StreamParts(channel, ms);
    OkHeld(s, k);
    AckHeld(s, OK_SIZE, k, channel);
    MessagesDelivered(s, OK_SIZE + AckSize(channel), k, passes, channel, ms);
  }

  // On the whole stream every message arrives.
  lemma {:induction false} WholeAll(channel: bytes, ms: seq<Option<bytes>>)
    ensures Whole(channel, ms, |Publications(channel, ms)|) == |ms|
  {
    hide Message;
    if |ms| > 0 {
      WholeAll(channel, ms[1..]);
    }
  }

  lemma Delivered(channel: bytes, ms: seq<Option<bytes>>, passes: nat)
    requires IsUsage(channel) && Sendable(channel, ms) && passes > |ms|
    ensures var s := Stream(channel, ms);
            var run := Session(s, 0, |s|, passes);
            run.queued == Wanted(ms) && run.error == Eof
  {
    hide Session, Simple, Ack, Publications;
    WholeAll(channel, ms);
    EndToEnd(channel, ms, |Stream(channel, ms)|, passes);
    assert ms[..|ms|] == ms;
  }

  // ---- What the bridge sends -------------------------------------------------------------

  // parseAuthPassword
  function AuthPassword(args: seq<bytes>): Option<bytes>
  {
    if |args| == 2 then Some(args[1]) else if |args| == 3 then Some(args[2]) else None
  }

  // parseSubscribeChannel
  function SubscribeChannel(args: seq<bytes>): Option<bytes>
  {
    if |args| == 2 then Some(TrimSpace(args[1])) else None
  }

  function AuthCommand(password: bytes): bytes
  {
    Command(["AUTH", password])
  }

  const SUBSCRIBE_COMMAND := Command(["SUBSCRIBE", "usage"])

  // The server understands the bridge: it reads the password and the channel that were sent.
  lemma HandshakeUnderstood(password: bytes)
    requires |password| <= MAX_INT
    ensures var s, j := AuthCommand(password) + SUBSCRIBE_COMMAND, |AuthCommand(password)|;
            var auth, sub := LenientArray(s, 0, |s|), LenientArray(s, j, |s|);
            && auth == Done(["AUTH", password], j) && AuthPassword(auth.value) == Some(password)
            && sub == Done(["SUBSCRIBE", "usage"], |s|) && SubscribeChannel(sub.value) == Some("usage")
                && IsUsage("usage")
  {
    hide LenientArray, ArrayOf, Command, TrimSpace;
    CommandRoundTrip("", ["AUTH", password], SUBSCRIBE_COMMAND);
    CommandRoundTrip(AuthCommand(password), ["SUBSCRIBE", "usage"], "");
    assert "" + AuthCommand(password) + SUBSCRIBE_COMMAND == AuthCommand(password) + SUBSCRIBE_COMMAND + ""
        == AuthCommand(password) + SUBSCRIBE_COMMAND;
    UsageTrimmed();
  }

  lemma UsageTrimmed()
    ensures TrimSpace("usage") == "usage"
  {
  }
}
