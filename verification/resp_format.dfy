// The Redis serialization protocol as the server writes it and as the two readers,
// one strict (the bridge) and one lenient (the server), read it. A reader is a function
// of the bytes s of a stream, the position i it starts from and the position k where the
// stream ends. A nil payload, as opposed to an empty one, is None.
module RespFormat {
  import opened Text
  import opened Decimal

  datatype ReadError =
    | Eof
    | UnexpectedEof
    | ProtocolError
    | WrongPrefix(want: char, got: char)
    | BadLine(line: bytes)
    | BadNumber(line: bytes)
    | NegativeCount(count: int)
    | BadTerminator
    | ErrorReply(message: bytes)
    | AckLength(count: int)
    | AckKind(kind: bytes)
    | WrongChannel(channel: bytes)
    | NotAMessage
    | Canceled
    | WriteFailed

  // A read that succeeded or failed, and the position it got to.
  datatype Parse<+T> = Done(value: T, at: nat) | Fail(error: ReadError, at: nat)

  predicate Within<T>(p: Parse<T>, i: nat, k: nat)
  {
    i <= p.at <= k
  }

  // ---- The buffered stream ---------------------------------------------------------

  // Position of the first line feed, or k.
  function LineEnd(s: bytes, i: nat, k: nat): (n: nat)
    requires i <= k <= |s|
    ensures i <= n <= k && (n < k ==> s[n] == '\n') && forall j :: i <= j < n ==> s[j] != '\n'
    decreases k - i
  {
    if i == k || s[i] == '\n' then i else LineEnd(s, i + 1, k)
  }

  // reader.ReadByte
  function ByteAt(s: bytes, i: nat, k: nat): (p: Parse<char>)
    requires i <= k <= |s|
    ensures Within(p, i, k)
  {
    if i == k then Fail(Eof, i) else Done(s[i], i + 1)
  }

  // reader.ReadString('\n')
  function StringAt(s: bytes, i: nat, k: nat): (p: Parse<bytes>)
    requires i <= k <= |s|
    ensures Within(p, i, k)
  {
    var n := LineEnd(s, i, k);
    if n == k then Fail(Eof, k) else Done(s[i..n + 1], n + 1)
  }

  // io.ReadFull into a buffer of n bytes
  function FullAt(s: bytes, i: nat, k: nat, n: nat): (p: Parse<bytes>)
    requires i <= k <= |s|
    ensures Within(p, i, k) && (p.Done? ==> |p.value| == n)
  {
    if i + n <= k then Done(s[i..i + n], i + n)
    else Fail(if i == k then Eof else UnexpectedEof, k)
  }

  // ---- Writers ---------------------------------------------------------------------

  // writeRedisBulkString, writeRedisNilBulkString
  function Bulk(payload: Option<bytes>): bytes
  {
    if payload.None? then "$-1\r\n" else "$" + Itoa(|payload.value|) + "\r\n" + payload.value + "\r\n"
  }

  function Bulks(items: seq<Option<bytes>>): bytes
  {
    if |items| == 0 then "" else Bulk(items[0]) + Bulks(items[1..])
  }

  // writeRedisArrayHeader
  function Header(count: nat): bytes
  {
    "*" + Itoa(count) + "\r\n"
  }

  // writeRedisArrayOfBulkStrings
  function ArrayOf(items: seq<Option<bytes>>): bytes
  {
    Header(|items|) + Bulks(items)
  }

  function Present(args: seq<bytes>): (r: seq<Option<bytes>>)
    ensures |r| == |args| && forall i :: 0 <= i < |args| ==> r[i] == Some(args[i])
  {
    seq(|args|, i requires 0 <= i < |args| => Some(args[i]))
  }

  // writeBridgeRESPCommand: an empty command writes nothing at all
  function Command(args: seq<bytes>): bytes
  {
    if |args| == 0 then "" else ArrayOf(Present(args))
  }

  // writeRedisInteger
  function Integer(n: int): bytes
  {
    ":" + Itoa(n) + "\r\n"
  }

  // writeRedisSimpleString, writeRedisError
  function Simple(value: bytes): bytes
  {
    "+" + value + "\r\n"
  }

  function ErrorLine(message: bytes): bytes
  {
    "-" + message + "\r\n"
  }

  // writeRedisPubSubSubscribe, writeRedisPubSubUnsubscribe
  function Ack(kind: bytes, channel: bytes, count: int): bytes
  {
    Header(3) + Bulk(Some(kind)) + Bulk(Some(channel)) + Integer(count)
  }

  // writeRedisPubSubMessage, writeRedisPubSubPong
  function Message(channel: bytes, payload: Option<bytes>): bytes
  {
    ArrayOf([Some("message"), Some(channel), payload])
  }

  function Pong(payload: Option<bytes>): bytes
  {
    ArrayOf([Some("pong"), payload])
  }

  // ---- The strict readers ----------------------------------------------------------

  predicate HasSuffix(s: bytes, suffix: bytes)
  {
    |suffix| <= |s| && s[|s| - |suffix|..] == suffix
  }

  function TrimSuffix(s: bytes, suffix: bytes): bytes
  {
    if HasSuffix(s, suffix) then s[..|s| - |suffix|] else s
  }

  // readBridgeRESPLine
  function StrictLine(s: bytes, i: nat, k: nat): (p: Parse<bytes>)
    requires i <= k <= |s|
    ensures Within(p, i, k)
  {
    match StringAt(s, i, k)
    case Fail(e, j) => Fail(e, j)
    case Done(line, j) => if HasSuffix(line, "\r\n") then Done(TrimSuffix(line, "\r\n"), j) else Fail(BadLine(line), j)
  }

  // A line after the one prefix byte that is allowed.
  function StrictAfter(prefix: char, s: bytes, i: nat, k: nat): (p: Parse<bytes>)
    requires i <= k <= |s|
    ensures Within(p, i, k)
  {
    match ByteAt(s, i, k)
    case Fail(e, j) => Fail(e, j)
    case Done(got, j) => if got == prefix then StrictLine(s, j, k) else Fail(WrongPrefix(prefix, got), j)
  }

  // readBridgeRESPInteger; also how lengths and counts are read
  function StrictNumber(prefix: char, s: bytes, i: nat, k: nat): (p: Parse<int>)
    requires i <= k <= |s|
    ensures Within(p, i, k)
  {
    match StrictAfter(prefix, s, i, k)
    case Fail(e, j) => Fail(e, j)
    case Done(line, j) => if Atoi(line).None? then Fail(BadNumber(line), j) else Done(Atoi(line).value, j)
  }

  // readBridgeRESPSimpleString
  function StrictSimple(s: bytes, i: nat, k: nat): (p: Parse<bytes>)
    requires i <= k <= |s|
    ensures Within(p, i, k)
  {
    match ByteAt(s, i, k)
    case Fail(e, j) => Fail(e, j)
    case Done(got, j) =>
      if got == '+' then StrictLine(s, j, k)
      else if got != '-' then Fail(WrongPrefix('+', got), j)
      else
        match StrictLine(s, j, k)
        case Fail(e, l) => Fail(e, l)
        case Done(line, l) => Fail(ErrorReply(TrimSpace(line)), l)
  }

  // readBridgeRESPBulkString
  function StrictBulk(s: bytes, i: nat, k: nat): (p: Parse<Option<bytes>>)
    requires i <= k <= |s|
    ensures Within(p, i, k) && (p.Done? ==> i < p.at)
  {
    match StrictNumber('$', s, i, k)
    case Fail(e, j) => Fail(e, j)
    case Done(n, j) =>
      if n < 0 then Done(None, j)
      else match FullAt(s, j, k, n + 2)
        case Fail(e, l) => Fail(e, l)
        case Done(buf, l) => if buf[n..] == "\r\n" then Done(Some(buf[..n]), l) else Fail(BadTerminator, l)
  }

  // readBridgeRESPArrayHeader
  function StrictHeader(s: bytes, i: nat, k: nat): (p: Parse<int>)
    requires i <= k <= |s|
    ensures Within(p, i, k) && (p.Done? ==> p.value >= 0)
  {
    match StrictNumber('*', s, i, k)
    case Fail(e, j) => Fail(e, j)
    case Done(n, j) => if n < 0 then Fail(NegativeCount(n), j) else Done(n, j)
  }

  function StrictItems(s: bytes, i: nat, k: nat, n: nat): (p: Parse<seq<Option<bytes>>>)
    requires i <= k <= |s|
    ensures Within(p, i, k) && (p.Done? ==> |p.value| == n)
    decreases n
  {
    if n == 0 then Done([], i)
    else match StrictBulk(s, i, k)
      case Fail(e, j) => Fail(e, j)
      case Done(v, j) => Prefixed([v], StrictItems(s, j, k, n - 1))
  }

  // readBridgeRESPArrayOfBulkStrings
  function StrictArray(s: bytes, i: nat, k: nat): (p: Parse<seq<Option<bytes>>>)
    requires i <= k <= |s|
    ensures Within(p, i, k)
  {
    match StrictHeader(s, i, k)
    case Fail(e, j) => Fail(e, j)
    case Done(n, j) => StrictItems(s, j, k, n)
  }

  function Prefixed<T>(front: seq<T>, p: Parse<seq<T>>): (r: Parse<seq<T>>)
    ensures r.at == p.at
  {
    match p
    case Fail(e, j) => Fail(e, j)
    case Done(vs, j) => Done(front + vs, j)
  }

  function Flat(p: Option<bytes>): bytes
  {
    if p.None? then "" else p.value
  }

  // readBridgeRESPPubSubSubscribe
  function StrictAck(s: bytes, i: nat, k: nat): (p: Parse<(bytes, int)>)
    requires i <= k <= |s|
    ensures Within(p, i, k)
  {
    match StrictHeader(s, i, k)
    case Fail(e, j) => Fail(e, j)
    case Done(n, j) =>
      if n != 3 then Fail(AckLength(n), j)
      else match StrictBulk(s, j, k)
        case Fail(e, l) => Fail(e, l)
        case Done(kind, l) => if Flat(kind) != "subscribe" then Fail(AckKind(Flat(kind)), l) else StrictChannel(s, l, k)
  }

  // Its last two elements.
  function StrictChannel(s: bytes, i: nat, k: nat): (p: Parse<(bytes, int)>)
    requires i <= k <= |s|
    ensures Within(p, i, k)
  {
    match StrictBulk(s, i, k)
    case Fail(e, j) => Fail(e, j)
    case Done(channel, j) =>
      match StrictNumber(':', s, j, k)
      case Fail(e, l) => Fail(e, l)
      case Done(count, l) => Done((Flat(channel), count), l)
  }

  // readBridgeRESPPubSubMessage
  function StrictMessage(s: bytes, i: nat, k: nat): (p: Parse<(bytes, Option<bytes>)>)
    requires i <= k <= |s|
    ensures Within(p, i, k)
  {
    match StrictArray(s, i, k)
    case Fail(e, j) => Fail(e, j)
    case Done(items, j) =>
      if |items| != 3 || Flat(items[0]) != "message" then Fail(NotAMessage, j)
      else Done((Flat(items[1]), items[2]), j)
  }

  // ---- The lenient readers ---------------------------------------------------------

  // readRESPLine
  function LenientLine(s: bytes, i: nat, k: nat): (p: Parse<bytes>)
    requires i <= k <= |s|
    ensures Within(p, i, k)
  {
    match StringAt(s, i, k)
    case Fail(e, j) => Fail(e, j)
    case Done(line, j) => Done(TrimSuffix(TrimSuffix(line, "\n"), "\r"), j)
  }

  // readRESPBulkString
  function LenientBulk(s: bytes, i: nat, k: nat): (p: Parse<bytes>)
    requires i <= k <= |s|
    ensures Within(p, i, k)
  {
    match LenientLine(s, i, k)
    case Fail(e, j) => Fail(e, j)
    case Done(line, j) =>
      if Atoi(line).None? then Fail(ProtocolError, j)
      else if Atoi(line).value < 0 then Done("", j)
      else
        var n := Atoi(line).value;
        match FullAt(s, j, k, n + 2)
        case Fail(e, l) => Fail(e, l)
        case Done(buf, l) => if buf[n..] == "\r\n" then Done(buf[..n], l) else Fail(ProtocolError, l)
  }

  // readRESPString
  function LenientString(s: bytes, i: nat, k: nat): (p: Parse<bytes>)
    requires i <= k <= |s|
    ensures Within(p, i, k)
  {
    match ByteAt(s, i, k)
    case Fail(e, j) => Fail(e, j)
    case Done(got, j) =>
      if got == '$' then LenientBulk(s, j, k)
      else if got == '+' || got == ':' then LenientLine(s, j, k)
      else Fail(ProtocolError, j)
  }

  function LenientItems(s: bytes, i: nat, k: nat, n: nat): (p: Parse<seq<bytes>>)
    requires i <= k <= |s|
    ensures Within(p, i, k) && (p.Done? ==> |p.value| == n)
    decreases n
  {
    if n == 0 then Done([], i)
    else match LenientString(s, i, k)
      case Fail(e, j) => Fail(e, j)
      case Done(v, j) => Prefixed([v], LenientItems(s, j, k, n - 1))
  }

  // The first line of readRESPArray.
  function LenientHeader(s: bytes, i: nat, k: nat): (p: Parse<int>)
    requires i <= k <= |s|
    ensures Within(p, i, k) && (p.Done? ==> p.value >= 0)
  {
    match ByteAt(s, i, k)
    case Fail(e, j) => Fail(e, j)
    case Done(got, j) =>
      if got != '*' then Fail(ProtocolError, j)
      else match LenientLine(s, j, k)
        case Fail(e, l) => Fail(e, l)
        case Done(line, l) =>
          if Atoi(line).None? || Atoi(line).value < 0 then Fail(ProtocolError, l) else Done(Atoi(line).value, l)
  }

  // readRESPArray
  function LenientArray(s: bytes, i: nat, k: nat): (p: Parse<seq<bytes>>)
    requires i <= k <= |s|
    ensures Within(p, i, k)
  {
    match LenientHeader(s, i, k)
    case Fail(e, j) => Fail(e, j)
    case Done(n, j) => LenientItems(s, j, k, n)
  }
}
