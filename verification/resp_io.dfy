// The readers and writers as the code runs them: a buffered reader that is consumed step
// by step, a buffered writer that may break, loops that fill lists. Each is shown to
// compute what the functions of RespFormat and RespBridge say.
module RespIo {
  import opened Text
  import opened Decimal
  import opened Output
  import opened RespFormat

  datatype Result<+T> = Ok(value: T) | Err(error: ReadError)

  function Parsed<T>(r: Result<T>, at: nat): Parse<T>
  {
    if r.Ok? then Done(r.value, at) else Fail(r.error, at)
  }

  // ---- Reading -------------------------------------------------------------------------

  // bufio.Reader over a connection that delivers `data` and then ends.
  class Reader {
    const data: bytes
    var pos: nat

    ghost predicate Valid()
      reads this
    {
      pos <= |data|
    }

    constructor (data: bytes)
      ensures Valid() && this.data == data && pos == 0
    {
      this.data, pos := data, 0;
    }

    method ReadByte() returns (r: Result<char>)
      requires Valid()
      modifies this
      ensures Valid() && Parsed(r, pos) == ByteAt(data, old(pos), |data|)
    {
      if pos == |data| {
        return Err(Eof);
      }
      r := Ok(data[pos]);
      pos := pos + 1;
    }

    // ReadString('\n')
    method ReadString() returns (r: Result<bytes>)
      requires Valid()
      modifies this
      ensures Valid() && Parsed(r, pos) == StringAt(data, old(pos), |data|)
    {
      var start := pos;
      while pos < |data|
        invariant start <= pos <= |data| && start == old(pos)
        invariant LineEnd(data, start, |data|) == LineEnd(data, pos, |data|)
      {
        if data[pos] == '\n' {
          pos := pos + 1;
          return Ok(data[start..pos]);
        }
        pos := pos + 1;
      }
      r := Err(Eof);
    }

    method ReadFull(n: nat) returns (r: Result<bytes>)
      requires Valid()
      modifies this
      ensures Valid() && Parsed(r, pos) == FullAt(data, old(pos), |data|, n)
      ensures r.Ok? ==> |r.value| == n
    {
      if pos + n <= |data| {
        r := Ok(data[pos..pos + n]);
        pos := pos + n;
      } else {
        r := Err(if pos == |data| then Eof else UnexpectedEof);
        pos := |data|;
      }
    }
  }

  method ReadBridgeRESPLine(reader: Reader) returns (r: Result<bytes>)
    requires reader.Valid()
    modifies reader
    ensures reader.Valid() && Parsed(r, reader.pos) == StrictLine(reader.data, old(reader.pos), |reader.data|)
  {
    var line := reader.ReadString();
    if line.Err? {
      return Err(line.error);
    }
    if !HasSuffix(line.value, "\r\n") {
      return Err(BadLine(line.value));
    }
    return Ok(TrimSuffix(line.value, "\r\n"));
  }

  method ReadBridgeRESPSimpleString(reader: Reader) returns (r: Result<bytes>)
    requires reader.Valid()
    modifies reader
    ensures reader.Valid() && Parsed(r, reader.pos) == StrictSimple(reader.data, old(reader.pos), |reader.data|)
  {
    var prefix := reader.ReadByte();
    if prefix.Err? {
      return Err(prefix.error);
    }
    if prefix.value == '-' {
      var line := ReadBridgeRESPLine(reader);
      if line.Err? {
        return Err(line.error);
      }
      return Err(ErrorReply(TrimSpace(line.value)));
    }
    if prefix.value != '+' {
      return Err(WrongPrefix('+', prefix.value));
    }
    r := ReadBridgeRESPLine(reader);
  }

  // readBridgeRESPInteger with ':'; the same steps open bulk strings and arrays.
  method ReadBridgeNumber(reader: Reader, want: char) returns (r: Result<int>)
    requires reader.Valid()
    modifies reader
    ensures reader.Valid() && Parsed(r, reader.pos) == StrictNumber(want, reader.data, old(reader.pos), |reader.data|)
  {
    var prefix := reader.ReadByte();
    if prefix.Err? {
      return Err(prefix.error);
    }
    if prefix.value != want {
      return Err(WrongPrefix(want, prefix.value));
    }
    var line := ReadBridgeRESPLine(reader);
    if line.Err? {
      return Err(line.error);
    }
    var n := Atoi(line.value);
    return if n.None? then Err(BadNumber(line.value)) else Ok(n.value);
  }

  method ReadBridgeRESPBulkString(reader: Reader) returns (r: Result<Option<bytes>>)
    requires reader.Valid()
    modifies reader
    ensures reader.Valid() && Parsed(r, reader.pos) == StrictBulk(reader.data, old(reader.pos), |reader.data|)
  {
    var length := ReadBridgeNumber(reader, '$');
    if length.Err? {
      return Err(length.error);
    }
    if length.value < 0 {
      return Ok(None);
    }
    var payload := reader.ReadFull(length.value + 2);
    if payload.Err? {
      return Err(payload.error);
    }
    if payload.value[length.value] != '\r' || payload.value[length.value + 1] != '\n' {
      return Err(BadTerminator);
    }
    return Ok(Some(payload.value[..length.value]));
  }

  method ReadBridgeRESPArrayHeader(reader: Reader) returns (r: Result<nat>)
    requires reader.Valid()
    modifies reader
    ensures reader.Valid() && Parsed(r, reader.pos) == StrictHeader(reader.data, old(reader.pos), |reader.data|)
  {
    var count := ReadBridgeNumber(reader, '*');
    if count.Err? {
      return Err(count.error);
    }
    if count.value < 0 {
      return Err(NegativeCount(count.value));
    }
    return Ok(count.value);
  }

  lemma PrefixedNone<T>(p: Parse<seq<T>>)
    ensures Prefixed([], p) == p
  {
    if p.Done? {
      assert [] + p.value == p.value;
    }
  }

  lemma PrefixedMore<T>(front: seq<T>, v: T, p: Parse<seq<T>>)
    ensures Prefixed(front, Prefixed([v], p)) == Prefixed(front + [v], p)
  {
    if p.Done? {
      assert front + ([v] + p.value) == front + [v] + p.value;
    }
  }

  method ReadBridgeRESPArrayOfBulkStrings(reader: Reader) returns (r: Result<seq<Option<bytes>>>)
    requires reader.Valid()
    modifies reader
    ensures reader.Valid() && Parsed(r, reader.pos) == StrictArray(reader.data, old(reader.pos), |reader.data|)
  {
    hide StrictBulk, StrictHeader;
    var count := ReadBridgeRESPArrayHeader(reader);
    if count.Err? {
      return Err(count.error);
    }
    ghost var start := reader.pos;
    var items: seq<Option<bytes>> := [];
    PrefixedNone(StrictItems(reader.data, start, |reader.data|, count.value));
    for i := 0 to count.value
      invariant reader.Valid()
      invariant StrictItems(reader.data, start, |reader.data|, count.value)
             == Prefixed(items, StrictItems(reader.data, reader.pos, |reader.data|, count.value - i))
    {
      var item := ReadBridgeRESPBulkString(reader);
      if item.Err? {
        return Err(item.error);
      }
      PrefixedMore(items, item.value, StrictItems(reader.data, reader.pos, |reader.data|, count.value - i - 1));
      items := items + [item.value];
    }
    assert items + [] == items;
    return Ok(items);
  }

  method ReadBridgeRESPPubSubSubscribe(reader: Reader) returns (r: Result<(bytes, int)>)
    requires reader.Valid()
    modifies reader
    ensures reader.Valid() && Parsed(r, reader.pos) == StrictAck(reader.data, old(reader.pos), |reader.data|)
  {
    hide StrictBulk, StrictHeader, StrictNumber;
    var count := ReadBridgeRESPArrayHeader(reader);
    if count.Err? {
      return Err(count.error);
    }
    if count.value != 3 {
      return Err(AckLength(count.value));
    }
    var kind := ReadBridgeRESPBulkString(reader);
    if kind.Err? {
      return Err(kind.error);
    }
    if Flat(kind.value) != "subscribe" {
      return Err(AckKind(Flat(kind.value)));
    }
    var channel := ReadBridgeRESPBulkString(reader);
    if channel.Err? {
      return Err(channel.error);
    }
    var subscriptions := ReadBridgeNumber(reader, ':');
    if subscriptions.Err? {
      return Err(subscriptions.error);
    }
    return Ok((Flat(channel.value), subscriptions.value));
  }

  method ReadBridgeRESPPubSubMessage(reader: Reader) returns (r: Result<(bytes, Option<bytes>)>)
    requires reader.Valid()
    modifies reader
    ensures reader.Valid() && Parsed(r, reader.pos) == StrictMessage(reader.data, old(reader.pos), |reader.data|)
  {
    hide StrictArray;
    var items := ReadBridgeRESPArrayOfBulkStrings(reader);
    if items.Err? {
      return Err(items.error);
    }
    if |items.value| != 3 || Flat(items.value[0]) != "message" {
      return Err(NotAMessage);
    }
    return Ok((Flat(items.value[1]), items.value[2]));
  }

  // ---- The server's reader ---------------------------------------------------------------

  method ReadRESPLine(reader: Reader) returns (r: Result<bytes>)
    requires reader.Valid()
    modifies reader
    ensures reader.Valid() && Parsed(r, reader.pos) == LenientLine(reader.data, old(reader.pos), |reader.data|)
  {
    var line := reader.ReadString();
    if line.Err? {
      return Err(line.error);
    }
    return Ok(TrimSuffix(TrimSuffix(line.value, "\n"), "\r"));
  }

  method ReadRESPBulkString(reader: Reader) returns (r: Result<bytes>)
    requires reader.Valid()
    modifies reader
    ensures reader.Valid() && Parsed(r, reader.pos) == LenientBulk(reader.data, old(reader.pos), |reader.data|)
  {
    hide Atoi, LenientLine;
    var line := ReadRESPLine(reader);
    if line.Err? {
      return Err(line.error);
    }
    var length := Atoi(line.value);
    if length.None? {
      return Err(ProtocolError);
    }
    if length.value < 0 {
      return Ok("");
    }
    var buf := reader.ReadFull(length.value + 2);
    if buf.Err? {
      return Err(buf.error);
    }
    if buf.value[length.value] != '\r' || buf.value[length.value + 1] != '\n' {
      return Err(ProtocolError);
    }
    return Ok(buf.value[..length.value]);
  }

  method ReadRESPString(reader: Reader) returns (r: Result<bytes>)
    requires reader.Valid()
    modifies reader
    ensures reader.Valid() && Parsed(r, reader.pos) == LenientString(reader.data, old(reader.pos), |reader.data|)
  {
    hide LenientBulk, LenientLine;
    var prefix := reader.ReadByte();
    if prefix.Err? {
      return Err(prefix.error);
    }
    match prefix.value
    case '$' => r := ReadRESPBulkString(reader);
    case '+' => r := ReadRESPLine(reader);
    case ':' => r := ReadRESPLine(reader);
    case _ => return Err(ProtocolError);
  }

  method ReadRESPArray(reader: Reader) returns (r: Result<seq<bytes>>)
    requires reader.Valid()
    modifies reader
    ensures reader.Valid() && Parsed(r, reader.pos) == LenientArray(reader.data, old(reader.pos), |reader.data|)
  {
    hide LenientString, LenientLine, Atoi;
    var prefix := reader.ReadByte();
    if prefix.Err? {
      return Err(prefix.error);
    }
    if prefix.value != '*' {
      return Err(ProtocolError);
    }
    var line := ReadRESPLine(reader);
    if line.Err? {
      return Err(line.error);
    }
    var count := Atoi(line.value);
    if count.None? || count.value < 0 {
      return Err(ProtocolError);
    }
    ghost var start := reader.pos;
    var args: seq<bytes> := [];
    PrefixedNone(LenientItems(reader.data, start, |reader.data|, count.value));
    for i := 0 to count.value
      invariant reader.Valid()
      invariant LenientItems(reader.data, start, |reader.data|, count.value)
             == Prefixed(args, LenientItems(reader.data, reader.pos, |reader.data|, count.value - i))
    {
      var value := ReadRESPString(reader);
      if value.Err? {
        return Err(value.error);
      }
      PrefixedMore(args, value.value, LenientItems(reader.data, reader.pos, |reader.data|, count.value - i - 1));
      args := args + [value.value];
    }
    assert args + [] == args;
    return Ok(args);
  }

  // ---- Writing -------------------------------------------------------------------------

  // A buffered writer whose connection takes `room` more bytes and then breaks for good.
  class Writer {
    var sent: bytes
    var room: nat
    var broken: bool

    constructor (room: nat)
      ensures sent == "" && !broken
    {
      sent, this.room, broken := "", room, false;
    }

    method WriteString(chunk: bytes) returns (ok: bool)
      modifies this
      ensures Wrote(old(sent), chunk, sent, ok) && ok == !broken
      ensures ok == (!old(broken) && |chunk| <= old(room))
      ensures ok ==> room == old(room) - |chunk|
      ensures !ok ==> sent == old(sent) + if old(broken) then "" else chunk[..old(room)]
    {
      if broken {
        assert sent + "" == sent;
        return false;
      }
      if |chunk| <= room {
        sent, room := sent + chunk, room - |chunk|;
        return true;
      }
      sent, room, broken := sent + chunk[..room], 0, true;
      return false;
    }
  }

  method WriteRedisSimpleString(writer: Writer, value: bytes) returns (ok: bool)
    modifies writer
    ensures !old(writer.broken) ==> ok == !writer.broken
    ensures Wrote(old(writer.sent), Simple(value), writer.sent, ok)
  {
    ok := writer.WriteString("+" + value + "\r\n");
  }

  method WriteRedisError(writer: Writer, message: bytes) returns (ok: bool)
    modifies writer
    ensures !old(writer.broken) ==> ok == !writer.broken
    ensures Wrote(old(writer.sent), ErrorLine(message), writer.sent, ok)
  {
    ok := writer.WriteString("-" + message + "\r\n");
  }

  method WriteRedisInteger(writer: Writer, value: int) returns (ok: bool)
    modifies writer
    ensures !old(writer.broken) ==> ok == !writer.broken
    ensures Wrote(old(writer.sent), Integer(value), writer.sent, ok)
  {
    ok := writer.WriteString(":" + Itoa(value) + "\r\n");
  }

  method WriteRedisArrayHeader(writer: Writer, count: nat) returns (ok: bool)
    modifies writer
    ensures !old(writer.broken) ==> ok == !writer.broken
    ensures Wrote(old(writer.sent), Header(count), writer.sent, ok)
  {
    ok := writer.WriteString("*" + Itoa(count) + "\r\n");
  }

  method WriteRedisBulkString(writer: Writer, payload: Option<bytes>) returns (ok: bool)
    modifies writer
    ensures !old(writer.broken) ==> ok == !writer.broken
    ensures Wrote(old(writer.sent), Bulk(payload), writer.sent, ok)
  {
    if payload.None? {
      ok := writer.WriteString("$-1\r\n");
      return;
    }
    ghost var was, head := writer.sent, "$" + Itoa(|payload.value|) + "\r\n";
    ok := writer.WriteString("$" + Itoa(|payload.value|) + "\r\n");
    if ok {
      ok := writer.WriteString(payload.value);
      WroteMore(was, head, payload.value, writer.sent, ok);
      if ok {
        ok := writer.WriteString("\r\n");
      }
    } else {
      WroteMore(was, head, payload.value, writer.sent, ok);
    }
    WroteMore(was, head + payload.value, "\r\n", writer.sent, ok);
  }

  lemma {:induction false} BulksAppend(items: seq<Option<bytes>>, v: Option<bytes>)
    ensures Bulks(items + [v]) == Bulks(items) + Bulk(v)
    decreases |items|
  {
    hide Bulk;
    if |items| == 0 {
      assert items + [v] == [v] && [v][1..] == [];
    } else {
      assert (items + [v])[1..] == items[1..] + [v];
      BulksAppend(items[1..], v);
      assert Bulk(items[0]) + (Bulks(items[1..]) + Bulk(v)) == Bulk(items[0]) + Bulks(items[1..]) + Bulk(v);
    }
  }

  lemma {:induction false} BulksPrefix(items: seq<Option<bytes>>, n: nat)
    requires n <= |items|
    ensures Bulks(items[..n]) <= Bulks(items)
    decreases |items| - n
  {
    if n < |items| {
      assert items[..n + 1] == items[..n] + [items[n]];
      BulksAppend(items[..n], items[n]);
      BulksPrefix(items, n + 1);
    } else {
      assert items[..n] == items;
    }
  }

  method WriteRedisArrayOfBulkStrings(writer: Writer, items: seq<Option<bytes>>) returns (ok: bool)
    modifies writer
    ensures !old(writer.broken) ==> ok == !writer.broken
    ensures Wrote(old(writer.sent), ArrayOf(items), writer.sent, ok)
  {
    hide Bulk, Header;
    ghost var was := writer.sent;
    ok := WriteRedisArrayHeader(writer, |items|);
    if !ok {
      WroteMore(was, Header(|items|), Bulks(items), writer.sent, false);
      return;
    }
    for i := 0 to |items|
      invariant writer.sent == was + Header(|items|) + Bulks(items[..i])
      invariant !old(writer.broken) ==> !writer.broken
    {
      assert items[..i + 1] == items[..i] + [items[i]];
      BulksAppend(items[..i], items[i]);
      BulksPrefix(items, i + 1);
      ok := WriteRedisBulkString(writer, items[i]);
      WroteMore(was + Header(|items|), Bulks(items[..i]), Bulk(items[i]), writer.sent, ok);
      if !ok {
        WroteMore(was, Header(|items|), Bulks(items), writer.sent, false);
        return;
      }
    }
    assert items[..|items|] == items;
    WroteMore(was, Header(|items|), Bulks(items), writer.sent, true);
    return true;
  }
}
