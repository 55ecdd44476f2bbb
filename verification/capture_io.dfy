/** The reader and the encoders as the code runs them: a stream that advances, a buffer that fills. */
module CaptureIo {
  import opened Text
  import opened Bytes
  import opened Crc32c
  import opened Capture

  /** A capture file opened for reading, and the payload its record is teed into. */
  class CaptureReader {
    const data: seq<Byte>
    var pos: nat
    var payload: seq<Byte>

    constructor (file: seq<Byte>)
      ensures data == file && pos == 0 && payload == []
    {
      data := file;
      pos := 0;
      payload := [];
    }

    ghost predicate Valid()
      reads this
    {
      pos <= |data|
    }

    /** Everything consumed since `start` is in the payload. */
    ghost predicate Teed(start: nat)
      reads this
    {
      start <= pos <= |data| && payload == data[start..pos]
    }

    /** Where a read leaves the stream: after what it got, at the end when it ran out. */
    ghost predicate Left<T>(r: Read<T>, start: nat)
      reads this
    {
      && Valid()
      && (r.Got? ==> pos == r.span.next && Teed(start))
      && (r.Short? ==> pos == |data|)
      && (r.Bad? ==> pos == r.next)
    }

    /** io.ReadFull over the tee: a short read still consumes what there was. */
    method TakeBytes(n: nat, ghost start: nat) returns (r: Read<seq<Byte>>)
      requires Teed(start)
      modifies this
      ensures r == ReadBytes(data, old(pos), n) && Left(r, start)
    {
      if pos + n <= |data| {
        r := Got(Span(data[pos..pos + n], pos + n));
        payload := payload + data[pos..pos + n];
        pos := pos + n;
      } else {
        payload := payload + data[pos..];
        pos := |data|;
        r := Short;
      }
    }

    method TakeUint(k: nat, ghost start: nat) returns (r: Read<nat>)
      requires Teed(start)
      modifies this
      ensures r == ReadUint(data, old(pos), k) && Left(r, start)
    {
      ghost var from := pos;
      var bytes := TakeBytes(k, start);
      if bytes.Short? {
        return Short;
      }
      SliceValue(data, from, bytes.span.value);
      r := Got(Span(UintAt(bytes.span.value, 0, k), pos));
    }

    method TakeString(ghost start: nat) returns (r: Read<seq<Byte>>)
      requires Teed(start)
      modifies this
      ensures r == ReadString(data, old(pos)) && Left(r, start)
    {
      hide UintAt;
      var n := TakeUint(4, start);
      if n.Short? {
        return Short;
      }
      if n.span.value > MAX_FIELD {
        return Bad(TooLong, pos);
      }
      r := TakeBytes(n.span.value, start);
    }

    /** `n` name and value pairs, appended one by one. */
    method TakePairs(n: nat, ghost start: nat) returns (r: Read<seq<Header>>)
      requires Teed(start)
      modifies this
      ensures r == ReadPairs(data, old(pos), n) && Left(r, start)
    {
      ghost var from := pos;
      var headers: seq<Header> := [];
      var i := 0;
      NothingBefore(ReadPairs(data, pos, n));
      hide ReadPairs, ReadString, Before;
      while i < n
        invariant 0 <= i <= n && Teed(start)
        invariant ReadPairs(data, from, n) == Before(headers, ReadPairs(data, pos, n - i))
      {
        PairsStep(data, pos, n - i, headers);
        var name := TakeString(start);
        if !name.Got? {
          return name.PropagateFailure();
        }
        var value := TakeString(start);
        if !value.Got? {
          return value.PropagateFailure();
        }
        headers := headers + [Header(name.span.value, value.span.value)];
        i := i + 1;
      }
      PairsEnd(data, pos, headers);
      r := Got(Span(headers, pos));
    }

    method TakeHeaders(ghost start: nat) returns (r: Read<seq<Header>>)
      requires Teed(start)
      modifies this
      ensures r == ReadHeaders(data, old(pos)) && Left(r, start)
    {
      hide UintAt, ReadPairs;
      var n := TakeUint(4, start);
      if n.Short? {
        return Short;
      }
      var count := Signed(n.span.value, W32);
      if count < 0 {
        return Bad(NegativeCount, pos);
      }
      r := TakePairs(count, start);
    }

    method TakeBlob(ghost start: nat) returns (r: Read<Option<seq<Byte>>>)
      requires Teed(start)
      modifies this
      ensures r == ReadBlob(data, old(pos)) && Left(r, start)
    {
      hide UintAt;
      var n := TakeUint(8, start);
      if n.Short? {
        return Short;
      }
      var length := Signed(n.span.value, W64);
      if length < 0 {
        return Got(Span(None, pos));
      }
      if length > MAX_FIELD {
        return Bad(TooLong, pos);
      }
      var bytes := TakeBytes(length, start);
      if bytes.Short? {
        return Short;
      }
      r := Got(Span(if length == 0 then None else Some(bytes.span.value), pos));
    }

    method TakeTail(ghost start: nat) returns (r: Read<Tail>)
      requires Teed(start)
      modifies this
      ensures r == ReadTail(data, old(pos)) && Left(r, start)
    {
      hide ReadHeaders, ReadUint, ReadBlob;
      var headers := TakeHeaders(start);
      if !headers.Got? {
        return headers.PropagateFailure();
      }
      var skipped := TakeUint(1, start);
      if !skipped.Got? {
        return skipped.PropagateFailure();
      }
      var body := TakeBlob(start);
      if !body.Got? {
        return body.PropagateFailure();
      }
      r := Got(Span(Tail(headers.span.value, skipped.span.value != 0, body.span.value), pos));
    }

    method TakeRequest(ghost start: nat) returns (r: Read<Record>)
      requires Teed(start)
      modifies this
      ensures r == ReadRequest(data, old(pos)) && Left(r, start)
    {
      hide ReadString, ReadTail;
      var id := TakeBytes(16, start);
      if !id.Got? {
        return id.PropagateFailure();
      }
      var verb := TakeString(start);
      if !verb.Got? {
        return verb.PropagateFailure();
      }
      var url := TakeString(start);
      if !url.Got? {
        return url.PropagateFailure();
      }
      var version := TakeBytes(1, start);
      if !version.Got? {
        return version.PropagateFailure();
      }
      var tail := TakeTail(start);
      if !tail.Got? {
        return tail.PropagateFailure();
      }
      var t := tail.span.value;
      r := Got(Span(RequestRecord(id.span.value, verb.span.value, url.span.value, version.span.value[0], t.headers, t.skipped, t.body), pos));
    }

    method TakeResponse(ghost start: nat) returns (r: Read<Record>)
      requires Teed(start)
      modifies this
      ensures r == ReadResponse(data, old(pos)) && Left(r, start)
    {
      hide ReadString, ReadUint, ReadTail;
      var id := TakeBytes(16, start);
      if !id.Got? {
        return id.PropagateFailure();
      }
      var version := TakeBytes(1, start);
      if !version.Got? {
        return version.PropagateFailure();
      }
      var status := TakeUint(2, start);
      if !status.Got? {
        return status.PropagateFailure();
      }
      var message := TakeString(start);
      if !message.Got? {
        return message.PropagateFailure();
      }
      var tail := TakeTail(start);
      if !tail.Got? {
        return tail.PropagateFailure();
      }
      var t := tail.span.value;
      r := Got(Span(ResponseRecord(id.span.value, version.span.value[0], Signed(status.span.value, W16), message.span.value, t.headers, t.skipped, t.body), pos));
    }

    method TakePayload(ghost start: nat) returns (r: Read<Record>)
      requires Teed(start)
      modifies this
      ensures r == ReadPayload(data, old(pos)) && Left(r, start)
    {
      hide ReadRequest, ReadResponse;
      var kind := TakeBytes(1, start);
      if kind.Short? {
        return Short;
      }
      if kind.span.value[0] == 1 {
        r := TakeRequest(start);
      } else if kind.span.value[0] == 2 {
        r := TakeResponse(start);
      } else {
        r := Bad(UnknownType, pos);
      }
    }

    /** The next record, its payload teed as it is parsed and checked against the trailer that follows. */
    method Read() returns (r: Outcome)
      requires Valid()
      modifies this
      ensures r == ReadRecord(data, old(pos)) && Valid()
      ensures r.Whole? || r.Corrupt? || r.Refused? ==> pos == r.next
      ensures r.Truncated? || r.AtEnd? ==> pos == |data|
    {
      hide ReadPayload, Checksum, RegisterAt;
      ghost var start := pos;
      payload := [];
      if pos == |data| {
        return AtEnd;
      }
      var record := TakePayload(start);
      if record.Short? {
        return Truncated;
      }
      if record.Bad? {
        return Refused(record.error, pos);
      }
      if pos + 4 > |data| {
        pos := |data|;
        return Truncated;
      }
      var stored := RegisterAt(data, pos);
      pos := pos + 4;
      if Checksum(payload) != stored {
        return Corrupt(pos);
      }
      r := Whole(record.span.value, pos);
    }
  }

  lemma SliceValue(s: seq<Byte>, off: nat, bs: seq<Byte>)
    requires off + |bs| <= |s| && bs == s[off..off + |bs|]
    ensures UintAt(bs, 0, |bs|) == UintAt(s, off, |bs|)
  {
    SliceValueFrom(s, off, bs, 0);
  }

  lemma {:induction false} SliceValueFrom(s: seq<Byte>, off: nat, bs: seq<Byte>, i: nat)
    requires off + |bs| <= |s| && bs == s[off..off + |bs|] && i <= |bs|
    ensures UintAt(bs, i, |bs| - i) == UintAt(s, off + i, |bs| - i)
    decreases |bs| - i
  {
    if i < |bs| { SliceValueFrom(s, off, bs, i + 1); }
  }

  /** What a read gives once `headers` are put before what it gets. */
  function Before(headers: seq<Header>, rest: Read<seq<Header>>): Read<seq<Header>> {
    if rest.Got? then Got(Span(headers + rest.span.value, rest.span.next)) else rest
  }

  lemma NothingBefore(rest: Read<seq<Header>>)
    ensures Before([], rest) == rest
  {
    if rest.Got? { assert [] + rest.span.value == rest.span.value; }
  }

  lemma PairsStep(s: seq<Byte>, off: nat, n: nat, headers: seq<Header>)
    requires n > 0
    ensures var name, pairs := ReadString(s, off), Before(headers, ReadPairs(s, off, n));
      if !name.Got? then pairs == name.PropagateFailure()
      else
        var value := ReadString(s, name.span.next);
        if !value.Got? then pairs == value.PropagateFailure()
        else pairs == Before(headers + [Header(name.span.value, value.span.value)], ReadPairs(s, value.span.next, n - 1))
  {
    hide ReadString;
    if ReadString(s, off).Got? && ReadString(s, ReadString(s, off).span.next).Got? {
      var name := ReadString(s, off).span;
      var value := ReadString(s, name.next).span;
      var rest := ReadPairs(s, value.next, n - 1);
      if rest.Got? { Assoc(headers, [Header(name.value, value.value)], rest.span.value); }
    }
  }

  lemma PairsEnd(s: seq<Byte>, off: nat, headers: seq<Header>)
    ensures Before(headers, ReadPairs(s, off, 0)) == Got(Span(headers, off))
  {
    assert headers + [] == headers;
  }

  // ---- encoders --------------------------------------------------------------------

  lemma PutPairsStep(hs: seq<Header>, i: nat)
    requires i < |hs|
    ensures PutPairs(hs[i..]) == PutString(hs[i].name) + (PutString(hs[i].value) + PutPairs(hs[i + 1..]))
  {
    assert hs[i..][1..] == hs[i + 1..];
    hide PutString;
  }

  method WriteHeaders(buf: seq<Byte>, headers: seq<Header>) returns (out: seq<Byte>)
    ensures out == buf + PutHeaders(headers)
  {
    out := buf + PutInt32(|headers|);
    ghost var before := out;
    var i := 0;
    assert headers[0..] == headers && PutPairs(headers[|headers|..]) == [];
    Assoc(buf, PutInt32(|headers|), PutPairs(headers));
    assert PutHeaders(headers) == PutInt32(|headers|) + PutPairs(headers);
    hide *;
    while i < |headers|
      invariant 0 <= i <= |headers|
      invariant out + PutPairs(headers[i..]) == before + PutPairs(headers)
    {
      PutPairsStep(headers, i);
      ghost var name, value, rest := PutString(headers[i].name), PutString(headers[i].value), PutPairs(headers[i + 1..]);
      Assoc(out, name, value + rest);
      Assoc(out + name, value, rest);
      out := out + PutString(headers[i].name);
      out := out + PutString(headers[i].value);
      i := i + 1;
    }
    assert out + [] == out;
  }

  method WriteTail(buf: seq<Byte>, r: Record) returns (out: seq<Byte>)
    ensures out == buf + PutTail(r)
  {
    hide PutHeaders, PutBool, PutBlob;
    out := WriteHeaders(buf, r.headers);
    out := out + PutBool(r.skipped);
    out := out + PutBlob(r.body);
    Assoc(buf + PutHeaders(r.headers), PutBool(r.skipped), PutBlob(r.body));
    Assoc(buf, PutHeaders(r.headers), PutBool(r.skipped) + PutBlob(r.body));
  }

  lemma Assoc5(a: seq<Byte>, b: seq<Byte>, c: seq<Byte>, d: seq<Byte>, e: seq<Byte>, f: seq<Byte>)
    ensures a + b + c + d + e + f == a + (b + (c + (d + (e + f))))
  {
    Assoc(a, b, c + (d + (e + f)));
    Assoc(a + b, c, d + (e + f));
    Assoc(a + b + c, d, e + f);
    Assoc(a + b + c + d, e, f);
  }

  /** A record's fields, appended to its buffer one after the other. */
  method EncodePayload(r: Record) returns (buf: seq<Byte>)
    ensures buf == Payload(r)
  {
    hide PutString, PutInt16, PutTail;
    match r {
      case RequestRecord(id, verb, url, version, _, _, _) =>
        buf := [1];
        buf := buf + id;
        buf := buf + PutString(verb);
        buf := buf + PutString(url);
        buf := buf + [version];
        buf := WriteTail(buf, r);
        Assoc5([1], id, PutString(verb), PutString(url), [version], PutTail(r));
      case ResponseRecord(id, version, status, message, _, _, _) =>
        buf := [2];
        buf := buf + id;
        buf := buf + [version];
        buf := buf + PutInt16(status);
        buf := buf + PutString(message);
        buf := WriteTail(buf, r);
        Assoc5([2], id, [version], PutInt16(status), PutString(message), PutTail(r));
    }
  }
}
