/** What is written is what is read: fields, records, whole sessions. */
module CaptureRoundTrip {
  import opened Text
  import opened Bytes
  import opened Crc32c
  import opened Capture

  predicate FitsField(s: seq<Byte>) {
    |s| <= MAX_FIELD
  }

  predicate FitHeaders(hs: seq<Header>) {
    |hs| < 0x8000_0000 && forall i :: 0 <= i < |hs| ==> FitsField(hs[i].name) && FitsField(hs[i].value)
  }

  predicate FitsBody(b: Option<seq<Byte>>) {
    b.Some? ==> FitsField(b.value)
  }

  /** Every field is one the reader accepts back. */
  predicate WellSized(r: Record) {
    && (match r
        case RequestRecord(_, verb, url, _, _, _, _) => FitsField(verb) && FitsField(url)
        case ResponseRecord(_, _, _, message, _, _, _) => FitsField(message))
    && FitHeaders(r.headers) && FitsBody(r.body)
  }

  function CollapseBody(b: Option<seq<Byte>>): Option<seq<Byte>> {
    if b == Some([]) then None else b
  }

  function WithBody(r: Record, body: Option<seq<Byte>>): Record {
    match r
    case RequestRecord(id, verb, url, version, headers, skipped, _) => RequestRecord(id, verb, url, version, headers, skipped, body)
    case ResponseRecord(id, version, status, message, headers, skipped, _) => ResponseRecord(id, version, status, message, headers, skipped, body)
  }

  /** A body that is present but empty comes back absent. */
  function Collapse(r: Record): Record {
    WithBody(r, CollapseBody(r.body))
  }

  function CollapseAll(rs: seq<Record>): seq<Record> {
    if rs == [] then [] else [Collapse(rs[0])] + CollapseAll(rs[1..])
  }

  // ---- fields ----------------------------------------------------------------------

  lemma GetUint(s: seq<Byte>, off: nat, n: nat, k: nat)
    requires n < Width(k) && Holds(s, off, LittleEndian(n, k))
    ensures ReadUint(s, off, k) == Got(Span(n, off + k))
  {
    UintOfLittleEndian(s, off, n, k);
  }

  lemma GetBytes(s: seq<Byte>, off: nat, bs: seq<Byte>)
    requires Holds(s, off, bs)
    ensures ReadBytes(s, off, |bs|) == Got(Span(bs, off + |bs|))
  {
    HeldSlice(s, off, bs);
  }

  lemma GetString(s: seq<Byte>, off: nat, v: seq<Byte>)
    requires Holds(s, off, PutString(v)) && FitsField(v)
    ensures ReadString(s, off) == Got(Span(v, off + |PutString(v)|))
  {
    HoldsConcat(s, off, PutUint32(|v|), v);
    Widths();
    hide Width, UintAt, LittleEndian;
    GetUint(s, off, |v|, 4);
    GetBytes(s, off + 4, v);
  }

  lemma PairsParts(s: seq<Byte>, off: nat, hs: seq<Header>)
    requires hs != [] && Holds(s, off, PutPairs(hs))
    ensures var name, value, rest := PutString(hs[0].name), PutString(hs[0].value), PutPairs(hs[1..]);
      && Holds(s, off, name) && Holds(s, off + |name|, value) && Holds(s, off + |name| + |value|, rest)
      && |PutPairs(hs)| == |name| + |value| + |rest|
  {
    var name, value, rest := PutString(hs[0].name), PutString(hs[0].value), PutPairs(hs[1..]);
    assert PutPairs(hs) == name + (value + rest);
    hide Holds, PutString, PutPairs;
    HoldsConcat(s, off, name, value + rest);
    HoldsConcat(s, off + |name|, value, rest);
  }

  lemma PairsAre(s: seq<Byte>, p0: nat, p1: nat, p2: nat, p3: nat, hs: seq<Header>)
    requires hs != []
    requires ReadString(s, p0) == Got(Span(hs[0].name, p1)) && ReadString(s, p1) == Got(Span(hs[0].value, p2))
    requires ReadPairs(s, p2, |hs| - 1) == Got(Span(hs[1..], p3))
    ensures ReadPairs(s, p0, |hs|) == Got(Span(hs, p3))
  {
    assert [Header(hs[0].name, hs[0].value)] + hs[1..] == hs;
    hide ReadString;
  }

  lemma NoPairs(s: seq<Byte>, off: nat)
    ensures ReadPairs(s, off, 0) == Got(Span([], off)) && PutPairs([]) == []
  {
  }

  lemma {:induction false} GetPairs(s: seq<Byte>, off: nat, hs: seq<Header>)
    requires Holds(s, off, PutPairs(hs)) && forall i :: 0 <= i < |hs| ==> FitsField(hs[i].name) && FitsField(hs[i].value)
    ensures ReadPairs(s, off, |hs|) == Got(Span(hs, off + |PutPairs(hs)|))
    decreases |hs|
  {
    hide *;
    if hs == [] {
      NoPairs(s, off);
    } else {
      PairsParts(s, off, hs);
      var p1 := off + |PutString(hs[0].name)|;
      var p2 := p1 + |PutString(hs[0].value)|;
      GetString(s, off, hs[0].name);
      GetString(s, p1, hs[0].value);
      GetPairs(s, p2, hs[1..]);
      PairsAre(s, off, p1, p2, p2 + |PutPairs(hs[1..])|, hs);
    }
  }

  lemma GetHeaders(s: seq<Byte>, off: nat, hs: seq<Header>)
    requires Holds(s, off, PutHeaders(hs)) && FitHeaders(hs)
    ensures ReadHeaders(s, off) == Got(Span(hs, off + |PutHeaders(hs)|))
  {
    HoldsConcat(s, off, PutInt32(|hs|), PutPairs(hs));
    Widths();
    hide Width, UintAt, LittleEndian, ReadPairs, PutPairs, Holds;
    GetUint(s, off, |hs|, 4);
    GetPairs(s, off + 4, hs);
  }

  lemma GetNothing(s: seq<Byte>, off: nat)
    requires Holds(s, off, PutInt64(-1))
    ensures ReadBlob(s, off) == Got(Span(None, off + 8))
  {
    Widths();
    hide Width, UintAt, LittleEndian;
    GetUint(s, off, W64 - 1, 8);
  }

  lemma GetSomeBlob(s: seq<Byte>, off: nat, bytes: seq<Byte>)
    requires Holds(s, off, PutInt64(|bytes|) + bytes) && FitsField(bytes)
    ensures ReadBlob(s, off) == Got(Span(CollapseBody(Some(bytes)), off + 8 + |bytes|))
  {
    Widths();
    HoldsConcat(s, off, PutInt64(|bytes|), bytes);
    hide Width, UintAt, LittleEndian, Holds;
    GetUint(s, off, |bytes|, 8);
    GetBytes(s, off + 8, bytes);
  }

  lemma GetBlob(s: seq<Byte>, off: nat, b: Option<seq<Byte>>)
    requires Holds(s, off, PutBlob(b)) && FitsBody(b)
    ensures ReadBlob(s, off) == Got(Span(CollapseBody(b), off + |PutBlob(b)|))
  {
    if b.None? { GetNothing(s, off); } else { GetSomeBlob(s, off, b.value); }
    hide ReadBlob, Holds;
  }

  lemma GetFlag(s: seq<Byte>, off: nat, b: bool)
    requires Holds(s, off, PutBool(b))
    ensures ReadUint(s, off, 1).Got? && ReadUint(s, off, 1).span.next == off + 1 && (ReadUint(s, off, 1).span.value != 0 <==> b)
  {
    assert s[off + 0] == PutBool(b)[0];
    assert UintAt(s, off + 1, 0) == 0;
  }

  lemma GetTail(s: seq<Byte>, off: nat, r: Record)
    requires Holds(s, off, PutTail(r)) && FitHeaders(r.headers) && FitsBody(r.body)
    ensures ReadTail(s, off) == Got(Span(Tail(r.headers, r.skipped, CollapseBody(r.body)), off + |PutTail(r)|))
  {
    var headers, flag, blob := PutHeaders(r.headers), PutBool(r.skipped), PutBlob(r.body);
    hide Holds, ReadHeaders, ReadUint, ReadBlob, PutHeaders, PutBlob, FitHeaders, FitsBody, CollapseBody;
    HoldsConcat(s, off, headers, flag + blob);
    HoldsConcat(s, off + |headers|, flag, blob);
    GetHeaders(s, off, r.headers);
    GetFlag(s, off + |headers|, r.skipped);
    GetBlob(s, off + |headers| + 1, r.body);
  }

  lemma GetByte(s: seq<Byte>, off: nat, b: Byte)
    requires Holds(s, off, [b])
    ensures ReadBytes(s, off, 1) == Got(Span([b], off + 1))
  {
    GetBytes(s, off, [b]);
  }

  lemma GetStatus(s: seq<Byte>, off: nat, n: int)
    requires Holds(s, off, PutInt16(n)) && -0x8000 <= n < 0x8000
    ensures ReadUint(s, off, 2).Got? && ReadUint(s, off, 2).span.next == off + 2 && Signed(ReadUint(s, off, 2).span.value, W16) == n
  {
    Widths();
    hide Width, UintAt, LittleEndian;
    GetUint(s, off, n % W16, 2);
  }

  lemma RequestParts(s: seq<Byte>, off: nat, r: Record)
    requires r.RequestRecord? && Typed(r)
    requires Holds(s, off, r.id + (PutString(r.verb) + (PutString(r.url) + ([r.version] + PutTail(r)))))
    ensures var verb, url := |PutString(r.verb)|, |PutString(r.url)|;
      && Holds(s, off, r.id) && Holds(s, off + 16, PutString(r.verb)) && Holds(s, off + 16 + verb, PutString(r.url))
      && Holds(s, off + 16 + verb + url, [r.version]) && Holds(s, off + 17 + verb + url, PutTail(r))
      && |Payload(r)| == 18 + verb + url + |PutTail(r)|
  {
    hide Holds, PutString, PutTail;
    var verb, url, tail := PutString(r.verb), PutString(r.url), PutTail(r);
    HoldsConcat(s, off, r.id, verb + (url + ([r.version] + tail)));
    HoldsConcat(s, off + 16, verb, url + ([r.version] + tail));
    HoldsConcat(s, off + 16 + |verb|, url, [r.version] + tail);
    HoldsConcat(s, off + 16 + |verb| + |url|, [r.version], tail);
  }

  lemma RequestIs(s: seq<Byte>, p0: nat, p1: nat, p2: nat, p3: nat, p4: nat, p5: nat, r: Record, body: Option<seq<Byte>>)
    requires r.RequestRecord?
    requires ReadBytes(s, p0, 16) == Got(Span(r.id, p1)) && ReadString(s, p1) == Got(Span(r.verb, p2))
    requires ReadString(s, p2) == Got(Span(r.url, p3)) && ReadBytes(s, p3, 1) == Got(Span([r.version], p4))
    requires ReadTail(s, p4) == Got(Span(Tail(r.headers, r.skipped, body), p5))
    ensures ReadRequest(s, p0) == Got(Span(WithBody(r, body), p5))
  {
    hide ReadBytes, ReadString, ReadTail;
  }

  lemma RequestSized(r: Record)
    requires r.RequestRecord? && Typed(r) && WellSized(r)
    ensures |r.id| == 16 && FitsField(r.verb) && FitsField(r.url) && FitHeaders(r.headers) && FitsBody(r.body)
  {
  }

  lemma CollapseIs(r: Record)
    ensures Collapse(r) == WithBody(r, CollapseBody(r.body))
  {
  }

  lemma GetRequest(s: seq<Byte>, off: nat, r: Record)
    requires r.RequestRecord? && Typed(r) && WellSized(r)
    requires Holds(s, off, r.id + (PutString(r.verb) + (PutString(r.url) + ([r.version] + PutTail(r)))))
    ensures ReadRequest(s, off) == Got(Span(Collapse(r), off + |Payload(r)| - 1))
  {
    hide *;
    RequestSized(r);
    CollapseIs(r);
    RequestParts(s, off, r);
    var p2 := off + 16 + |PutString(r.verb)|;
    var p3 := p2 + |PutString(r.url)|;
    GetBytes(s, off, r.id);
    GetString(s, off + 16, r.verb);
    GetString(s, p2, r.url);
    GetByte(s, p3, r.version);
    GetTail(s, p3 + 1, r);
    RequestIs(s, off, off + 16, p2, p3, p3 + 1, p3 + 1 + |PutTail(r)|, r, CollapseBody(r.body));
  }

  lemma ResponseParts(s: seq<Byte>, off: nat, r: Record)
    requires r.ResponseRecord? && Typed(r)
    requires Holds(s, off, r.id + ([r.version] + (PutInt16(r.status) + (PutString(r.message) + PutTail(r)))))
    ensures var message := |PutString(r.message)|;
      && Holds(s, off, r.id) && Holds(s, off + 16, [r.version]) && Holds(s, off + 17, PutInt16(r.status))
      && Holds(s, off + 19, PutString(r.message)) && Holds(s, off + 19 + message, PutTail(r))
      && |Payload(r)| == 20 + message + |PutTail(r)|
  {
    StatusIsTwo(r.status);
    hide Holds, PutString, PutTail, PutInt16;
    var status, message, tail := PutInt16(r.status), PutString(r.message), PutTail(r);
    HoldsConcat(s, off, r.id, [r.version] + (status + (message + tail)));
    HoldsConcat(s, off + 16, [r.version], status + (message + tail));
    HoldsConcat(s, off + 17, status, message + tail);
    HoldsConcat(s, off + 19, message, tail);
  }

  lemma ResponseIs(s: seq<Byte>, p0: nat, p1: nat, p2: nat, p3: nat, p4: nat, p5: nat, r: Record, status: nat, body: Option<seq<Byte>>)
    requires r.ResponseRecord? && Signed(status, W16) == r.status
    requires ReadBytes(s, p0, 16) == Got(Span(r.id, p1)) && ReadBytes(s, p1, 1) == Got(Span([r.version], p2))
    requires ReadUint(s, p2, 2) == Got(Span(status, p3)) && ReadString(s, p3) == Got(Span(r.message, p4))
    requires ReadTail(s, p4) == Got(Span(Tail(r.headers, r.skipped, body), p5))
    ensures ReadResponse(s, p0) == Got(Span(WithBody(r, body), p5))
  {
    hide ReadBytes, ReadString, ReadUint, ReadTail, Signed;
  }

  lemma ResponseSized(r: Record)
    requires r.ResponseRecord? && Typed(r) && WellSized(r)
    ensures |r.id| == 16 && FitsField(r.message) && FitHeaders(r.headers) && FitsBody(r.body) && -0x8000 <= r.status < 0x8000
  {
  }

  lemma GetResponse(s: seq<Byte>, off: nat, r: Record)
    requires r.ResponseRecord? && Typed(r) && WellSized(r)
    requires Holds(s, off, r.id + ([r.version] + (PutInt16(r.status) + (PutString(r.message) + PutTail(r)))))
    ensures ReadResponse(s, off) == Got(Span(Collapse(r), off + |Payload(r)| - 1))
  {
    hide *;
    ResponseSized(r);
    CollapseIs(r);
    ResponseParts(s, off, r);
    var p4 := off + 19 + |PutString(r.message)|;
    GetBytes(s, off, r.id);
    GetByte(s, off + 16, r.version);
    GetStatus(s, off + 17, r.status);
    GetString(s, off + 19, r.message);
    GetTail(s, p4, r);
    ResponseIs(s, off, off + 16, off + 17, off + 19, p4, p4 + |PutTail(r)|, r, ReadUint(s, off + 17, 2).span.value, CollapseBody(r.body));
  }

  lemma StatusIsTwo(n: int)
    ensures |PutInt16(n)| == 2
  {
  }

  lemma GetPayload(s: seq<Byte>, off: nat, r: Record)
    requires Typed(r) && WellSized(r) && Holds(s, off, Payload(r))
    ensures ReadPayload(s, off) == Got(Span(Collapse(r), off + |Payload(r)|))
  {
    hide Holds, ReadRequest, ReadResponse, ReadBytes, PutString, PutTail, PutInt16, WellSized, Collapse;
    match r
    case RequestRecord(_, _, _, _, _, _, _) =>
      var rest := r.id + (PutString(r.verb) + (PutString(r.url) + ([r.version] + PutTail(r))));
      HoldsConcat(s, off, [1], rest);
      GetByte(s, off, 1);
      GetRequest(s, off + 1, r);
    case ResponseRecord(_, _, _, _, _, _, _) =>
      var rest := r.id + ([r.version] + (PutInt16(r.status) + (PutString(r.message) + PutTail(r))));
      HoldsConcat(s, off, [2], rest);
      GetByte(s, off, 2);
      GetResponse(s, off + 1, r);
  }

  // ---- records ---------------------------------------------------------------------

  /** A record within the field limits reads back, wherever its bytes stand. */
  lemma RecordReadsBack(s: seq<Byte>, off: nat, r: Record)
    requires Typed(r) && WellSized(r) && Holds(s, off, Frame(r))
    ensures ReadRecord(s, off) == Whole(Collapse(r), off + |Frame(r)|)
  {
    hide Holds, ReadPayload, Payload, WellSized, Collapse, Checksum, Trailer, RegisterAt;
    var payload := Payload(r);
    HoldsConcat(s, off, payload, Trailer(Checksum(payload)));
    HeldSlice(s, off, payload);
    GetPayload(s, off, r);
    HeldInside(s, off, Frame(r));
    PayloadNotEmpty(r);
    RegisterOfTrailer(s, off + |payload|, Checksum(payload));
  }

  lemma HeldInside(s: seq<Byte>, off: nat, bs: seq<Byte>)
    requires Holds(s, off, bs)
    ensures off + |bs| <= |s|
  {
  }

  lemma PayloadNotEmpty(r: Record)
    ensures |Payload(r)| > 0
  {
  }

  /** Whatever the reader returns fits the limits: it never hands out a field longer than it admits. */
  lemma ReadFits(s: seq<Byte>, off: nat)
    ensures ReadRecord(s, off).Whole? ==> WellSized(ReadRecord(s, off).record)
  {
    if off < |s| {
      PayloadFits(s, off);
      hide ReadPayload, Checksum, RegisterAt, WellSized;
    }
  }

  lemma StringFits(s: seq<Byte>, off: nat)
    ensures ReadString(s, off).Got? ==> FitsField(ReadString(s, off).span.value)
  {
  }

  lemma {:induction false} PairsFit(s: seq<Byte>, off: nat, n: nat)
    ensures var r := ReadPairs(s, off, n);
      r.Got? ==> |r.span.value| == n && forall i :: 0 <= i < n ==> FitsField(r.span.value[i].name) && FitsField(r.span.value[i].value)
    decreases n
  {
    hide ReadString, FitsField;
    if n > 0 && ReadString(s, off).Got? {
      var name := ReadString(s, off).span;
      StringFits(s, off);
      if ReadString(s, name.next).Got? {
        var value := ReadString(s, name.next).span;
        StringFits(s, name.next);
        PairsFit(s, value.next, n - 1);
      }
    }
  }

  lemma TailFits(s: seq<Byte>, off: nat)
    ensures var r := ReadTail(s, off); r.Got? ==> FitHeaders(r.span.value.headers) && FitsBody(r.span.value.body)
  {
    if ReadUint(s, off, 4).Got? && Signed(ReadUint(s, off, 4).span.value, W32) >= 0 {
      PairsFit(s, ReadUint(s, off, 4).span.next, Signed(ReadUint(s, off, 4).span.value, W32));
      UintFits(s, off, 4);
      Widths();
    }
    hide ReadPairs, UintAt, Width;
  }

  lemma RequestFits(s: seq<Byte>, off: nat)
    ensures ReadRequest(s, off).Got? ==> WellSized(ReadRequest(s, off).span.value)
  {
    hide ReadString, ReadTail, ReadBytes, FitHeaders, FitsBody, FitsField;
    forall o: nat { StringFits(s, o); }
    forall o: nat { TailFits(s, o); }
  }

  lemma ResponseFits(s: seq<Byte>, off: nat)
    ensures ReadResponse(s, off).Got? ==> WellSized(ReadResponse(s, off).span.value)
  {
    hide ReadString, ReadTail, ReadBytes, ReadUint, Signed, FitHeaders, FitsBody, FitsField;
    forall o: nat { StringFits(s, o); }
    forall o: nat { TailFits(s, o); }
  }

  lemma PayloadFits(s: seq<Byte>, off: nat)
    ensures ReadPayload(s, off).Got? ==> WellSized(ReadPayload(s, off).span.value)
  {
    hide ReadRequest, ReadResponse, ReadBytes, WellSized;
    forall o: nat { RequestFits(s, o); }
    forall o: nat { ResponseFits(s, o); }
  }

  /** A record reads back exactly when its fields are within the limits. */
  lemma ReadsBackExactlyWhenSized(s: seq<Byte>, off: nat, r: Record)
    requires Typed(r) && Holds(s, off, Frame(r))
    ensures ReadRecord(s, off) == Whole(Collapse(r), off + |Frame(r)|) <==> WellSized(r)
  {
    hide *;
    if WellSized(r) { RecordReadsBack(s, off, r); }
    ReadFits(s, off);
    CollapseFits(r);
  }

  /** The very record comes back exactly when its fields are within the limits and its body is not present but empty. */
  lemma ReadsBackUnchanged(s: seq<Byte>, off: nat, r: Record)
    requires Typed(r) && Holds(s, off, Frame(r))
    ensures ReadRecord(s, off) == Whole(r, off + |Frame(r)|) <==> WellSized(r) && r.body != Some([])
  {
    CollapseSame(r);
    hide *;
    if WellSized(r) { RecordReadsBack(s, off, r); } else { ReadFits(s, off); }
  }

  lemma CollapseSame(r: Record)
    ensures Collapse(r) == r <==> r.body != Some([])
  {
  }

  /** A body that is present but empty comes back absent, whatever the rest of the record. */
  lemma EmptyBodyIsLost(s: seq<Byte>, off: nat, r: Record)
    requires Typed(r) && WellSized(r) && r.body == Some([]) && Holds(s, off, Frame(r))
    ensures ReadRecord(s, off) == Whole(WithBody(r, None), off + |Frame(r)|) && WithBody(r, None) != r
  {
    CollapseEmpty(r);
    hide *;
    RecordReadsBack(s, off, r);
  }

  lemma CollapseEmpty(r: Record)
    requires r.body == Some([])
    ensures Collapse(r) == WithBody(r, None) != r
  {
  }

  /** There are such records: a request with nothing but its id and an empty body. */
  lemma BareRequest(id: seq<Byte>)
    requires |id| == 16
    ensures var r := RequestRecord(id, [], [], 17, [], false, Some([])); Typed(r) && WellSized(r) && r.body == Some([])
  {
  }

  lemma CollapseFits(r: Record)
    ensures WellSized(Collapse(r)) <==> WellSized(r)
  {
    hide FitHeaders, FitsField;
    EmptyFits();
  }

  lemma EmptyFits()
    ensures FitsField([])
  {
  }

  // ---- sessions ----------------------------------------------------------------------

  predicate AllSized(rs: seq<Record>) {
    forall i :: 0 <= i < |rs| ==> Typed(rs[i]) && WellSized(rs[i])
  }

  /** The outcomes of reading `rs` one after the other from `off`. */
  function Wholes(rs: seq<Record>, off: nat): seq<Outcome> {
    if rs == [] then []
    else [Whole(Collapse(rs[0]), off + |Frame(rs[0])|)] + Wholes(rs[1..], off + |Frame(rs[0])|)
  }

  lemma ReadAllStep(s: seq<Byte>, off: nat)
    ensures var r := ReadRecord(s, off);
      ReadAll(s, off) == if r.Whole? || r.Corrupt? then [r] + ReadAll(s, r.next) else [r]
  {
    hide ReadRecord;
  }

  lemma FramesStep(rs: seq<Record>, off: nat)
    requires rs != []
    ensures Frames(rs) == Frame(rs[0]) + Frames(rs[1..])
    ensures Wholes(rs, off) == [Whole(Collapse(rs[0]), off + |Frame(rs[0])|)] + Wholes(rs[1..], off + |Frame(rs[0])|)
    ensures AllSized(rs) ==> Typed(rs[0]) && WellSized(rs[0]) && AllSized(rs[1..])
  {
    hide Frame, Collapse, Typed, WellSized;
  }

  lemma NoFrames(s: seq<Byte>, off: nat)
    ensures Frames([]) == [] && Wholes([], off) + ReadAll(s, off) == ReadAll(s, off)
  {
    hide ReadAll;
  }

  lemma FirstReadsBack(s: seq<Byte>, off: nat, rs: seq<Record>)
    requires rs != [] && AllSized(rs) && Holds(s, off, Frames(rs))
    ensures var next := off + |Frame(rs[0])|;
      && ReadAll(s, off) == [Whole(Collapse(rs[0]), next)] + ReadAll(s, next)
      && AllSized(rs[1..]) && Holds(s, next, Frames(rs[1..])) && |Frames(rs)| == |Frame(rs[0])| + |Frames(rs[1..])|
  {
    hide *;
    FramesStep(rs, off);
    HoldsConcat(s, off, Frame(rs[0]), Frames(rs[1..]));
    RecordReadsBack(s, off, rs[0]);
    ReadAllStep(s, off);
  }

  /** Whatever follows, the records of a session are read first. */
  lemma {:induction false} FramesReadBack(s: seq<Byte>, off: nat, rs: seq<Record>)
    requires AllSized(rs) && Holds(s, off, Frames(rs))
    ensures ReadAll(s, off) == Wholes(rs, off) + ReadAll(s, off + |Frames(rs)|)
    decreases |rs|
  {
    hide *;
    if rs == [] {
      NoFrames(s, off);
    } else {
      var next := off + |Frame(rs[0])|;
      FramesStep(rs, off);
      FirstReadsBack(s, off, rs);
      FramesReadBack(s, next, rs[1..]);
      Assoc([Whole(Collapse(rs[0]), next)], Wholes(rs[1..], next), ReadAll(s, off + |Frames(rs)|));
    }
  }

  lemma HeaderReadsBack(s: seq<Byte>, h: FileHeader)
    requires Holds(s, 0, PutFileHeader(h)) && -0x8000_0000 <= h.count < 0x8000_0000
    ensures ReadFileHeader(s) == Opened(h, 11)
  {
    var version, flag, count := PutInt16(FORMAT_VERSION), PutBool(h.decrypted), PutInt32(h.count);
    HoldsConcat(s, 0, MAGIC, version + (flag + count));
    HoldsConcat(s, 4, version, flag + count);
    HoldsConcat(s, 6, flag, count);
    HeldSlice(s, 0, MAGIC);
    assert s[6 + 0] == flag[0];
    Widths();
    hide Width, UintAt, LittleEndian;
    GetUint(s, 4, FORMAT_VERSION, 2);
    GetUint(s, 7, h.count % W32, 4);
  }

  lemma HeaderIsEleven(h: FileHeader)
    ensures |PutFileHeader(h)| == 11
  {
  }

  /** A whole session: header, records, clean end. */
  lemma SessionReadsBack(h: FileHeader, rs: seq<Record>)
    requires AllSized(rs) && -0x8000_0000 <= h.count < 0x8000_0000
    ensures var s := PutFileHeader(h) + Frames(rs);
      ReadFileHeader(s) == Opened(h, 11) && ReadAll(s, 11) == Wholes(rs, 11) + [AtEnd]
  {
    hide *;
    var head := PutFileHeader(h);
    var s := head + Frames(rs);
    HeaderIsEleven(h);
    HoldsItself(s);
    HoldsConcat(s, 0, head, Frames(rs));
    HeaderReadsBack(s, h);
    FramesReadBack(s, 11, rs);
    NothingMore(s);
  }

  lemma HoldsItself(s: seq<Byte>)
    ensures Holds(s, 0, s)
  {
  }

  lemma NothingMore(s: seq<Byte>)
    ensures ReadAll(s, |s|) == [AtEnd]
  {
  }

  /** The eleven bytes a session file opens with: the letters HSLC, version 2, whether HTTPS was decrypted, and no count yet. */
  lemma HeaderBytes(decrypted: bool)
    ensures PutFileHeader(FileHeader(decrypted, -1)) == [0x48, 0x53, 0x4C, 0x43, 2, 0, if decrypted then 1 else 0, 255, 255, 255, 255]
  {
    TwoBytes(2);
    FourBytes(W32 - 1);
    assert -1 % W32 == W32 - 1 && 2 % W16 == 2;
    hide LittleEndian;
  }

  const OPENING: seq<Byte> := [0x48, 0x53, 0x4C, 0x43]
  const VERSION_TWO: seq<Byte> := [2, 0]

  lemma VersionOfTwoBytes(s: seq<Byte>)
    requires |s| >= 6
    ensures Signed(UintAt(s, 4, 2), W16) == FORMAT_VERSION <==> s[4..6] == VERSION_TWO
  {
    assert UintAt(s, 4, 2) == s[4] as int + 256 * UintAt(s, 5, 1) && UintAt(s, 5, 1) == s[5] as int;
    assert s[4..6] == [s[4], s[5]];
  }

  /** When a file is opened, and what it is refused for: its letters before its version, its version before its length. */
  lemma HeaderMeans(s: seq<Byte>)
    ensures var o := ReadFileHeader(s);
      && (o.BadMagic? <==> |s| >= 4 && s[..4] != OPENING)
      && (o.UnsupportedVersion? <==> |s| >= 6 && s[..4] == OPENING && s[4..6] != VERSION_TWO)
      && (o.Opened? <==> |s| >= 11 && s[..4] == OPENING && s[4..6] == VERSION_TWO)
      && (o.Opened? ==> o.next == 11 && (o.header.decrypted <==> s[6] != 0))
  {
    if |s| >= 6 { VersionOfTwoBytes(s); }
    hide UintAt, Signed;
  }

  lemma TwoBytes(n: nat)
    requires n < W16
    ensures LittleEndian(n, 2) == [(n % 256) as Byte, (n / 256) as Byte]
  {
    assert LittleEndian(n / 256 / 256, 0) == [];
    assert LittleEndian(n / 256, 1) == [(n / 256 % 256) as Byte];
  }

  lemma FourBytes(n: nat)
    requires n < W32
    ensures LittleEndian(n, 4) == [(n % 256) as Byte, (n / 256 % 256) as Byte, (n / 256 / 256 % 256) as Byte, (n / 256 / 256 / 256) as Byte]
  {
    assert LittleEndian(n / 256 / 256 / 256 / 256, 0) == [];
    assert LittleEndian(n / 256 / 256 / 256, 1) == [(n / 256 / 256 / 256 % 256) as Byte];
    assert LittleEndian(n / 256 / 256, 2) == [(n / 256 / 256 % 256) as Byte] + LittleEndian(n / 256 / 256 / 256, 1);
    assert LittleEndian(n / 256, 3) == [(n / 256 % 256) as Byte] + LittleEndian(n / 256 / 256, 2);
  }
}
