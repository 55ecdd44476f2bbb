/** The capture file format: how a record is written and how it is read. Strings are their UTF-8 bytes. */
module Capture {
  import opened Text
  import opened Bytes
  import opened Crc32c

  const MAX_FIELD := 0x1000_0000

  datatype Header = Header(name: seq<Byte>, value: seq<Byte>)

  datatype Record =
    | RequestRecord(id: seq<Byte>, verb: seq<Byte>, url: seq<Byte>, version: Byte, headers: seq<Header>, skipped: bool, body: Option<seq<Byte>>)
    | ResponseRecord(id: seq<Byte>, version: Byte, status: int, message: seq<Byte>, headers: seq<Header>, skipped: bool, body: Option<seq<Byte>>)

  /** What the record's Go types admit: a 16-byte id and an int16 status. */
  predicate Typed(r: Record) {
    |r.id| == 16 && (r.ResponseRecord? ==> -0x8000 <= r.status < 0x8000)
  }

  // ---- writing -----------------------------------------------------------------

  function PutUint32(n: nat): seq<Byte> {
    LittleEndian(n % W32, 4)
  }

  function PutInt16(n: int): seq<Byte> {
    LittleEndian(n % W16, 2)
  }

  function PutInt32(n: int): seq<Byte> {
    LittleEndian(n % W32, 4)
  }

  function PutInt64(n: int): seq<Byte> {
    LittleEndian(n % W64, 8)
  }

  function PutBool(b: bool): seq<Byte> {
    if b then [1] else [0]
  }

  /** Length first, cut to 32 bits. */
  function PutString(s: seq<Byte>): seq<Byte> {
    PutUint32(|s|) + s
  }

  function PutPairs(hs: seq<Header>): seq<Byte> {
    if hs == [] then [] else PutString(hs[0].name) + (PutString(hs[0].value) + PutPairs(hs[1..]))
  }

  function PutHeaders(hs: seq<Header>): seq<Byte> {
    PutInt32(|hs|) + PutPairs(hs)
  }

  /** -1 for a body that is absent. */
  function PutBlob(b: Option<seq<Byte>>): seq<Byte> {
    match b
    case None => PutInt64(-1)
    case Some(bytes) => PutInt64(|bytes|) + bytes
  }

  function PutTail(r: Record): seq<Byte> {
    PutHeaders(r.headers) + (PutBool(r.skipped) + PutBlob(r.body))
  }

  /** A record before its checksum. */
  function Payload(r: Record): seq<Byte> {
    match r
    case RequestRecord(_, _, _, _, _, _, _) => [1] + (r.id + (PutString(r.verb) + (PutString(r.url) + ([r.version] + PutTail(r)))))
    case ResponseRecord(_, _, _, _, _, _, _) => [2] + (r.id + ([r.version] + (PutInt16(r.status) + (PutString(r.message) + PutTail(r)))))
  }

  function Frame(r: Record): seq<Byte> {
    Payload(r) + Trailer(Checksum(Payload(r)))
  }

  function Frames(rs: seq<Record>): seq<Byte> {
    if rs == [] then [] else Frame(rs[0]) + Frames(rs[1..])
  }

  // ---- reading -----------------------------------------------------------------

  datatype Error = TooLong | NegativeCount | UnknownType

  datatype Span<+T> = Span(value: T, next: nat)

  /** A read: what it got and where it stopped, the stream's end met first, or a field the reader refuses. */
  datatype Read<+T> = Got(span: Span<T>) | Short | Bad(error: Error, next: nat) {
    predicate IsFailure() {
      !Got?
    }

    function PropagateFailure<U>(): Read<U>
      requires IsFailure()
    {
      if Short? then Short else Bad(error, next)
    }

    function Extract(): Span<T>
      requires Got?
    {
      span
    }
  }

  function ReadBytes(s: seq<Byte>, off: nat, n: nat): (r: Read<seq<Byte>>)
    ensures r.Got? ==> off <= r.span.next <= |s|
  {
    if off + n <= |s| then Got(Span(s[off..off + n], off + n)) else Short
  }

  function ReadUint(s: seq<Byte>, off: nat, k: nat): (r: Read<nat>)
    ensures r.Got? ==> off <= r.span.next <= |s|
  {
    if off + k <= |s| then Got(Span(UintAt(s, off, k), off + k)) else Short
  }

  function ReadString(s: seq<Byte>, off: nat): (r: Read<seq<Byte>>)
    ensures r.Got? ==> off <= r.span.next <= |s|
  {
    var n :- ReadUint(s, off, 4);
    if n.value > MAX_FIELD then Bad(TooLong, n.next) else ReadBytes(s, n.next, n.value)
  }

  function ReadPairs(s: seq<Byte>, off: nat, n: nat): (r: Read<seq<Header>>)
    ensures r.Got? && off <= |s| ==> off <= r.span.next <= |s|
    decreases n
  {
    if n == 0 then Got(Span([], off))
    else
      var name :- ReadString(s, off);
      var value :- ReadString(s, name.next);
      var rest :- ReadPairs(s, value.next, n - 1);
      Got(Span([Header(name.value, value.value)] + rest.value, rest.next))
  }

  function ReadHeaders(s: seq<Byte>, off: nat): (r: Read<seq<Header>>)
    ensures r.Got? ==> off <= r.span.next <= |s|
  {
    var n :- ReadUint(s, off, 4);
    if Signed(n.value, W32) < 0 then Bad(NegativeCount, n.next) else ReadPairs(s, n.next, Signed(n.value, W32))
  }

  /** A blob of length zero comes back absent, as ReadBytes(0) does. */
  function ReadBlob(s: seq<Byte>, off: nat): (r: Read<Option<seq<Byte>>>)
    ensures r.Got? ==> off <= r.span.next <= |s|
  {
    var n :- ReadUint(s, off, 8);
    var length := Signed(n.value, W64);
    if length < 0 then Got(Span(None, n.next))
    else if length > MAX_FIELD then Bad(TooLong, n.next)
    else
      var bytes :- ReadBytes(s, n.next, length);
      Got(Span(if length == 0 then None else Some(bytes.value), bytes.next))
  }

  datatype Tail = Tail(headers: seq<Header>, skipped: bool, body: Option<seq<Byte>>)

  function ReadTail(s: seq<Byte>, off: nat): (r: Read<Tail>)
    ensures r.Got? ==> off <= r.span.next <= |s|
  {
    var headers :- ReadHeaders(s, off);
    var skipped :- ReadUint(s, headers.next, 1);
    var body :- ReadBlob(s, skipped.next);
    Got(Span(Tail(headers.value, skipped.value != 0, body.value), body.next))
  }

  function ReadRequest(s: seq<Byte>, off: nat): (r: Read<Record>)
    ensures r.Got? ==> off <= r.span.next <= |s|
  {
    var id :- ReadBytes(s, off, 16);
    var verb :- ReadString(s, id.next);
    var url :- ReadString(s, verb.next);
    var version :- ReadBytes(s, url.next, 1);
    var tail :- ReadTail(s, version.next);
    var t := tail.value;
    Got(Span(RequestRecord(id.value, verb.value, url.value, version.value[0], t.headers, t.skipped, t.body), tail.next))
  }

  function ReadResponse(s: seq<Byte>, off: nat): (r: Read<Record>)
    ensures r.Got? ==> off <= r.span.next <= |s|
  {
    var id :- ReadBytes(s, off, 16);
    var version :- ReadBytes(s, id.next, 1);
    var status :- ReadUint(s, version.next, 2);
    var message :- ReadString(s, status.next);
    var tail :- ReadTail(s, message.next);
    var t := tail.value;
    Got(Span(ResponseRecord(id.value, version.value[0], Signed(status.value, W16), message.value, t.headers, t.skipped, t.body), tail.next))
  }

  function ReadPayload(s: seq<Byte>, off: nat): (r: Read<Record>)
    ensures r.Got? ==> off < r.span.next <= |s|
  {
    var kind :- ReadBytes(s, off, 1);
    if kind.value[0] == 1 then ReadRequest(s, kind.next)
    else if kind.value[0] == 2 then ReadResponse(s, kind.next)
    else Bad(UnknownType, kind.next)
  }

  /** What Read returns: a record, a corrupt record, the clean end of the file, a truncated record or a refused field. */
  datatype Outcome =
    | Whole(record: Record, next: nat)
    | Corrupt(next: nat)
    | AtEnd
    | Truncated
    | Refused(error: Error, next: nat)

  function ReadRecord(s: seq<Byte>, off: nat): (r: Outcome)
    ensures r.Whole? || r.Corrupt? ==> off + 5 <= r.next <= |s|
  {
    if off >= |s| then AtEnd
    else match ReadPayload(s, off)
      case Short => Truncated
      case Bad(e, n) => Refused(e, n)
      case Got(p) =>
        if p.next + 4 > |s| then Truncated
        else if Checksum(s[off..p.next]) != RegisterAt(s, p.next) then Corrupt(p.next + 4)
        else Whole(p.value, p.next + 4)
  }

  /** Successive reads: on past a corrupt record, up to the first outcome that leaves nothing to go on with. */
  function ReadAll(s: seq<Byte>, off: nat): seq<Outcome>
    decreases if off < |s| then |s| - off else 0
  {
    var r := ReadRecord(s, off);
    if r.Whole? || r.Corrupt? then [r] + ReadAll(s, r.next) else [r]
  }

  // ---- the file header ------------------------------------------------------------

  const MAGIC: seq<Byte> := [72, 83, 76, 67]
  const FORMAT_VERSION := 2

  datatype FileHeader = FileHeader(decrypted: bool, count: int)

  datatype Opened = Opened(header: FileHeader, next: nat) | BadMagic | UnsupportedVersion(version: int) | HeaderShort

  function PutFileHeader(h: FileHeader): seq<Byte> {
    MAGIC + (PutInt16(FORMAT_VERSION) + (PutBool(h.decrypted) + PutInt32(h.count)))
  }

  function ReadFileHeader(s: seq<Byte>): Opened {
    if |s| < 4 then HeaderShort
    else if s[..4] != MAGIC then BadMagic
    else if |s| < 6 then HeaderShort
    else
      var version := Signed(UintAt(s, 4, 2), W16);
      if version != FORMAT_VERSION then UnsupportedVersion(version)
      else if |s| < 11 then HeaderShort
      else Opened(FileHeader(s[6] != 0, Signed(UintAt(s, 7, 4), W32)), 11)
  }
}
