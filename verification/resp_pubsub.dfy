// The two ends of a usage subscription as they run: the server's stream of messages and
// answers, and the bridge's loop.
module RespPubSub {
  import opened Text
  import opened Decimal
  import opened Output
  import opened RespFormat
  import opened RespBridge
  import opened RespIo

  // ---- The server's side -----------------------------------------------------------------

  // writeRedisPubSubSubscribe and writeRedisPubSubUnsubscribe
  method WriteRedisPubSubAck(writer: Writer, kind: bytes, channel: bytes, count: int) returns (ok: bool)
    modifies writer
    ensures !old(writer.broken) ==> ok == !writer.broken
    ensures Wrote(old(writer.sent), Ack(kind, channel, count), writer.sent, ok)
  {
    hide Bulk, Header, Integer;
    ghost var was := writer.sent;
    ok := WriteRedisArrayHeader(writer, 3);
    if ok {
      ok := WriteRedisBulkString(writer, Some(kind));
    }
    WroteMore(was, Header(3), Bulk(Some(kind)), writer.sent, ok);
    if ok {
      ok := WriteRedisBulkString(writer, Some(channel));
    }
    WroteMore(was, Header(3) + Bulk(Some(kind)), Bulk(Some(channel)), writer.sent, ok);
    if ok {
      ok := WriteRedisInteger(writer, count);
    }
    WroteMore(was, Header(3) + Bulk(Some(kind)) + Bulk(Some(channel)), Integer(count), writer.sent, ok);
  }

  lemma BulksOf(a: Option<bytes>, b: Option<bytes>, c: Option<bytes>)
    ensures Bulks([a, b]) == Bulk(a) + Bulk(b)
    ensures Bulks([a, b, c]) == Bulk(a) + Bulk(b) + Bulk(c)
  {
    hide Bulk;
    BulksAppend([], a);
    BulksAppend([a], b);
    BulksAppend([a, b], c);
    assert [] + [a] == [a] && [a] + [b] == [a, b] && [a, b] + [c] == [a, b, c];
  }

  method WriteRedisPubSubMessage(writer: Writer, channel: bytes, payload: Option<bytes>) returns (ok: bool)
    modifies writer
    ensures !old(writer.broken) ==> ok == !writer.broken
    ensures Wrote(old(writer.sent), Message(channel, payload), writer.sent, ok)
  {
    hide Bulk, Header, Bulks;
    ghost var was, kind, name := writer.sent, Bulk(Some("message")), Bulk(Some(channel));
    BulksOf(Some("message"), Some(channel), payload);
    ok := WriteRedisArrayHeader(writer, 3);
    if ok {
      ok := WriteRedisBulkString(writer, Some("message"));
    }
    WroteMore(was, Header(3), kind, writer.sent, ok);
    if ok {
      ok := WriteRedisBulkString(writer, Some(channel));
    }
    WroteMore(was, Header(3) + kind, name, writer.sent, ok);
    if ok {
      ok := WriteRedisBulkString(writer, payload);
    }
    WroteMore(was, Header(3) + kind + name, Bulk(payload), writer.sent, ok);
    assert Header(3) + kind + name + Bulk(payload) == Header(3) + (kind + name + Bulk(payload));
  }

  method WriteRedisPubSubPong(writer: Writer, payload: Option<bytes>) returns (ok: bool)
    modifies writer
    ensures !old(writer.broken) ==> ok == !writer.broken
    ensures Wrote(old(writer.sent), Pong(payload), writer.sent, ok)
  {
    hide Bulk, Header, Bulks;
    ghost var was, kind := writer.sent, Bulk(Some("pong"));
    BulksOf(Some("pong"), payload, None);
    ok := WriteRedisArrayHeader(writer, 2);
    if ok {
      ok := WriteRedisBulkString(writer, Some("pong"));
    }
    WroteMore(was, Header(2), kind, writer.sent, ok);
    if ok {
      ok := WriteRedisBulkString(writer, payload);
    }
    WroteMore(was, Header(2) + kind, Bulk(payload), writer.sent, ok);
    assert Header(2) + kind + Bulk(payload) == Header(2) + (kind + Bulk(payload));
  }

  // What the loop of streamRedisSubscription picks up next.
  datatype Event =
    | Publish(payload: Option<bytes>)
    | MessagesClosed
    | Received(args: seq<bytes>)
    | Unreadable(error: bytes)
    | CommandsClosed

  // What it writes for that, and whether it goes on.
  datatype Answer = Answer(text: bytes, open: bool)

  // handleRedisSubscriptionCommand
  function Handled(channel: bytes, args: seq<bytes>): Answer
  {
    if |args| == 0 then Answer(ErrorLine("ERR empty command"), true)
    else
      var cmd := ToUpper(TrimSpace(args[0]));
      match cmd
      case "PING" => Answer(Pong(if |args| > 1 then Some(args[1]) else None), true)
      case "UNSUBSCRIBE" => Answer(Ack("unsubscribe", channel, 0), false)
      case "QUIT" => Answer(Simple("OK"), false)
      case _ => Answer(ErrorLine("ERR unknown command '" + ToLower(cmd) + "'"), true)
  }

  function Picked(channel: bytes, event: Event): Answer
  {
    match event
    case Publish(payload) => Answer(Message(channel, payload), true)
    case MessagesClosed => Answer("", false)
    case Received(args) => Handled(channel, args)
    case Unreadable(error) => Answer(ErrorLine("ERR " + error), false)
    case CommandsClosed => Answer("", false)
  }

  function Streamed(channel: bytes, events: seq<Event>): bytes
  {
    if |events| == 0 then ""
    else
      var answer := Picked(channel, events[0]);
      if answer.open then answer.text + Streamed(channel, events[1..]) else answer.text
  }

  // A subscriber that sends nothing gets the publications.
  lemma {:induction false} StreamedPublications(channel: bytes, ms: seq<Option<bytes>>)
    ensures Streamed(channel, seq(|ms|, i requires 0 <= i < |ms| => Publish(ms[i]))) == Publications(channel, ms)
    decreases |ms|
  {
    hide Message, Handled;
    if |ms| > 0 {
      StreamedPublications(channel, ms[1..]);
      var events := seq(|ms|, i requires 0 <= i < |ms| => Publish(ms[i]));
      assert events[1..] == seq(|ms[1..]|, i requires 0 <= i < |ms[1..]| => Publish(ms[1..][i]));
    }
  }

  method HandleRedisSubscriptionCommand(writer: Writer, channel: bytes, args: seq<bytes>) returns (ok: bool, open: bool)
    modifies writer
    ensures !old(writer.broken) ==> ok == !writer.broken
    ensures Wrote(old(writer.sent), Handled(channel, args).text, writer.sent, ok) && open == Handled(channel, args).open
  {
    hide Simple, ErrorLine, Pong, Ack;
    if |args| == 0 {
      ok := WriteRedisError(writer, "ERR empty command");
      return ok, true;
    }
    var cmd := ToUpper(TrimSpace(args[0]));
    match cmd
    case "PING" =>
      ok := WriteRedisPubSubPong(writer, if |args| > 1 then Some(args[1]) else None);
      open := true;
    case "UNSUBSCRIBE" =>
      ok := WriteRedisPubSubAck(writer, "unsubscribe", channel, 0);
      open := false;
    case "QUIT" =>
      ok := WriteRedisSimpleString(writer, "OK");
      open := false;
    case _ =>
      ok := WriteRedisError(writer, "ERR unknown command '" + ToLower(cmd) + "'");
      open := true;
  }

  method HandleEvent(writer: Writer, channel: bytes, event: Event) returns (ok: bool, open: bool)
    modifies writer
    ensures !old(writer.broken) ==> ok == !writer.broken
    ensures Wrote(old(writer.sent), Picked(channel, event).text, writer.sent, ok) && open == Picked(channel, event).open
  {
    hide Handled, ErrorLine, Message;
    match event
    case Publish(payload) =>
      ok := WriteRedisPubSubMessage(writer, channel, payload);
      open := true;
    case Received(args) =>
      ok, open := HandleRedisSubscriptionCommand(writer, channel, args);
    case Unreadable(error) =>
      ok := WriteRedisError(writer, "ERR " + error);
      open := false;
    case MessagesClosed =>
      ok, open := true, false;
    case CommandsClosed =>
      ok, open := true, false;
  }

  // streamRedisSubscription: `events` is what its select delivers, in that order.
  method StreamRedisSubscription(writer: Writer, channel: bytes, events: seq<Event>) returns (ok: bool)
    modifies writer
    ensures !old(writer.broken) ==> ok == !writer.broken
    ensures Wrote(old(writer.sent), Streamed(channel, events), writer.sent, ok)
  {
    hide Picked;
    ghost var was := writer.sent;
    for i := 0 to |events|
      invariant writer.sent + Streamed(channel, events[i..]) == was + Streamed(channel, events)
      invariant was <= writer.sent && (!old(writer.broken) ==> !writer.broken)
    {
      ghost var before, answer := writer.sent, Picked(channel, events[i]);
      var open;
      ok, open := HandleEvent(writer, channel, events[i]);
      assert events[i..][1..] == events[i + 1..];
      if !ok || !open {
        return;
      }
      assert before + (answer.text + Streamed(channel, events[i + 1..]))
          == writer.sent + Streamed(channel, events[i + 1..]);
    }
    assert writer.sent + "" == writer.sent;
    return true;
  }

  // ---- The bridge's side -------------------------------------------------------------------

  // The local usage queue.
  class Queue {
    var items: seq<Option<bytes>>

    method Enqueue(item: Option<bytes>)
      modifies this
      ensures items == old(items) + [item]
    {
      items := items + [item];
    }
  }

  method WriteBridgeRESPCommand(conn: Writer, args: seq<bytes>) returns (ok: bool)
    modifies conn
    ensures !old(conn.broken) ==> ok == !conn.broken
    ensures Wrote(old(conn.sent), Command(args), conn.sent, ok)
  {
    hide Bulk, Itoa;
    if |args| == 0 {
      assert conn.sent + "" == conn.sent;
      return true;
    }
    var text := "*" + Itoa(|args|) + "\r\n";
    assert Present(args)[..0] == [];
    for i := 0 to |args|
      invariant unchanged(conn) && text == Header(|args|) + Bulks(Present(args)[..i])
    {
      assert Present(args)[..i + 1] == Present(args)[..i] + [Some(args[i])];
      BulksAppend(Present(args)[..i], Some(args[i]));
      text := text + BulkText(args[i]);
    }
    assert Present(args)[..|args|] == Present(args);
    ok := conn.WriteString(text);
  }

  function BulkText(arg: bytes): (r: bytes)
    ensures r == Bulk(Some(arg))
  {
    "$" + Itoa(|arg|) + "\r\n" + arg + "\r\n"
  }

  // The loop of subscribeDataPlaneUsageQueue; the context is done after `passes` checks.
  method ReceiveMessages(reader: Reader, queue: Queue, passes: nat) returns (error: ReadError)
    requires reader.Valid()
    modifies reader, queue
    ensures reader.Valid()
    ensures var run := Messages(reader.data, old(reader.pos), |reader.data|, passes);
            queue.items == old(queue.items) + run.queued && error == run.error
  {
    hide StrictMessage, IsUsage, IsControl;
    ghost var was, all := queue.items, Messages(reader.data, reader.pos, |reader.data|, passes);
    var left := passes;
    while left > 0
      invariant reader.Valid()
      invariant var more := Messages(reader.data, reader.pos, |reader.data|, left);
                was + all.queued == queue.items + more.queued && all.error == more.error
    {
      var message := ReadBridgeRESPPubSubMessage(reader);
      if message.Err? {
        assert queue.items + [] == queue.items;
        return message.error;
      }
      var (channel, payload) := message.value;
      left := left - 1;
      ghost var more := Messages(reader.data, reader.pos, |reader.data|, left).queued;
      if !IsUsage(channel) {
        continue;
      }
      if IsControl(payload) {
        continue;
      }
      assert queue.items + ([payload] + more) == queue.items + [payload] + more;
      queue.Enqueue(payload);
    }
    assert queue.items + [] == queue.items;
    return Canceled;
  }

  // subscribeDataPlaneUsageQueue after the connection is made.
  method SubscribeDataPlaneUsageQueue(reader: Reader, conn: Writer, queue: Queue, password: bytes, passes: nat)
    returns (error: ReadError, ghost written: bool)
    requires reader.Valid()
    modifies reader, conn, queue
    ensures !written ==> error == WriteFailed && queue.items == old(queue.items)
    ensures !old(conn.broken) ==> written == !conn.broken
    ensures written ==>
              var run := Session(reader.data, old(reader.pos), |reader.data|, passes);
              queue.items == old(queue.items) + run.queued && error == run.error
    ensures old(conn.sent) <= conn.sent <= old(conn.sent) + (AuthCommand(password) + SUBSCRIBE_COMMAND)
    ensures written ==>
              var welcome := StrictSimple(reader.data, old(reader.pos), |reader.data|).Done?;
              conn.sent == old(conn.sent) + AuthCommand(password) + if welcome then SUBSCRIBE_COMMAND else ""
  {
    hide StrictSimple, StrictAck, Messages, IsUsage, Command;
    assert old(conn.sent) + AuthCommand(password) + SUBSCRIBE_COMMAND
        == old(conn.sent) + (AuthCommand(password) + SUBSCRIBE_COMMAND);
    assert old(queue.items) + [] == old(queue.items);
    var wrote := WriteBridgeRESPCommand(conn, ["AUTH", password]);
    if !wrote {
      return WriteFailed, false;
    }
    var reply := ReadBridgeRESPSimpleString(reader);
    if reply.Err? {
      return reply.error, true;
    }
    wrote := WriteBridgeRESPCommand(conn, ["SUBSCRIBE", "usage"]);
    if !wrote {
      return WriteFailed, false;
    }
    var ack := ReadBridgeRESPPubSubSubscribe(reader);
    if ack.Err? {
      return ack.error, true;
    }
    if !IsUsage(ack.value.0) {
      return WrongChannel(ack.value.0), true;
    }
    error := ReceiveMessages(reader, queue, passes);
    written := true;
  }
}
