/** Damaged sessions: cut short anywhere, or changed in one byte. */
module CaptureDamage {
  import opened Text
  import opened Bytes
  import opened Crc32c
  import opened Capture
  import opened CaptureRoundTrip

  // ---- where records stand ---------------------------------------------------------

  lemma {:induction false} FramesSplit(rs: seq<Record>, k: nat)
    requires k <= |rs|
    ensures Frames(rs) == Frames(rs[..k]) + Frames(rs[k..])
    decreases k
  {
    hide Frame;
    if k == 0 {
      assert rs[..0] == [] && rs[0..] == rs;
    } else {
      FramesSplit(rs[1..], k - 1);
      assert rs[..k][1..] == rs[1..][..k - 1] && rs[1..][k - 1..] == rs[k..] && rs[..k][0] == rs[0];
      hide Frames;
      FramesCons(rs);
      FramesCons(rs[..k]);
      Assoc(Frame(rs[0]), Frames(rs[1..][..k - 1]), Frames(rs[k..]));
    }
  }

  lemma FramesCons(rs: seq<Record>)
    requires rs != []
    ensures Frames(rs) == Frame(rs[0]) + Frames(rs[1..])
  {
  }

  /** Where record `k` starts in a session that starts at `off`. */
  function Start(rs: seq<Record>, k: nat, off: nat): nat
    requires k <= |rs|
  {
    off + |Frames(rs[..k])|
  }

  /** The records before `k`, record `k` and the records after it, each in its place. */
  lemma RecordsStand(s: seq<Byte>, off: nat, rs: seq<Record>, k: nat)
    requires k < |rs| && Holds(s, off, Frames(rs))
    ensures Holds(s, off, Frames(rs[..k])) && Holds(s, Start(rs, k, off), Frame(rs[k]))
    ensures Start(rs, k + 1, off) == Start(rs, k, off) + |Frame(rs[k])| && Holds(s, Start(rs, k + 1, off), Frames(rs[k + 1..]))
    ensures off + |Frames(rs)| == Start(rs, k + 1, off) + |Frames(rs[k + 1..])| <= |s|
  {
    hide Frame, Frames, Holds;
    FramesSplit(rs, k);
    assert rs[k..][0] == rs[k] && rs[k..][1..] == rs[k + 1..];
    FramesCons(rs[k..]);
    FramesSplit(rs[..k + 1], k);
    assert rs[..k + 1][..k] == rs[..k] && rs[..k + 1][k..] == [rs[k]];
    OneFrame(rs[k]);
    HoldsConcat(s, off, Frames(rs[..k]), Frames(rs[k..]));
    HoldsConcat(s, off + |Frames(rs[..k])|, Frame(rs[k]), Frames(rs[k + 1..]));
    HeldInside(s, off, Frames(rs));
  }

  lemma OneFrame(r: Record)
    ensures Frames([r]) == Frame(r)
  {
    assert Frame(r) + [] == Frame(r);
    hide Frame;
  }

  // ---- cut short ----------------------------------------------------------------------

  /** Of a stream cut at `c`, a reader gets the same or runs out. */
  predicate Cut<T(==)>(whole: Read<T>, cut: Read<T>, c: nat) {
    whole.Got? ==> cut == if whole.span.next <= c then whole else Short
  }

  lemma CutBytes(s: seq<Byte>, c: nat, off: nat, n: nat)
    requires off <= c <= |s|
    ensures Cut(ReadBytes(s, off, n), ReadBytes(s[..c], off, n), c)
  {
    if off + n <= c { assert s[..c][off..off + n] == s[off..off + n]; }
  }

  lemma CutUint(s: seq<Byte>, c: nat, off: nat, k: nat)
    requires off <= c <= |s|
    ensures Cut(ReadUint(s, off, k), ReadUint(s[..c], off, k), c)
  {
    if off + k <= c { UintSame(s, s[..c], off, k); }
  }

  lemma CutString(s: seq<Byte>, c: nat, off: nat)
    requires off <= c <= |s|
    ensures Cut(ReadString(s, off), ReadString(s[..c], off), c)
  {
    CutUint(s, c, off, 4);
    if off + 4 <= c { CutBytes(s, c, off + 4, UintAt(s, off, 4)); }
    hide UintAt;
  }

  lemma {:induction false} CutPairs(s: seq<Byte>, c: nat, off: nat, n: nat)
    requires off <= c <= |s|
    ensures Cut(ReadPairs(s, off, n), ReadPairs(s[..c], off, n), c)
    decreases n
  {
    hide ReadString;
    if n > 0 {
      CutString(s, c, off);
      if ReadString(s, off).Got? && ReadString(s, off).span.next <= c {
        var name := ReadString(s, off).span;
        CutString(s, c, name.next);
        if ReadString(s, name.next).Got? && ReadString(s, name.next).span.next <= c {
          CutPairs(s, c, ReadString(s, name.next).span.next, n - 1);
        }
      }
    }
  }

  lemma CutHeaders(s: seq<Byte>, c: nat, off: nat)
    requires off <= c <= |s|
    ensures Cut(ReadHeaders(s, off), ReadHeaders(s[..c], off), c)
  {
    CutUint(s, c, off, 4);
    var n := ReadUint(s, off, 4);
    hide UintAt, ReadPairs;
    if n.Got? && n.span.next <= c && Signed(n.span.value, W32) >= 0 { CutPairs(s, c, n.span.next, Signed(n.span.value, W32)); }
  }

  lemma CutBlob(s: seq<Byte>, c: nat, off: nat)
    requires off <= c <= |s|
    ensures Cut(ReadBlob(s, off), ReadBlob(s[..c], off), c)
  {
    CutUint(s, c, off, 8);
    var n := ReadUint(s, off, 8);
    hide UintAt;
    if n.Got? && n.span.next <= c && Signed(n.span.value, W64) >= 0 { CutBytes(s, c, n.span.next, Signed(n.span.value, W64)); }
  }

  lemma CutTail(s: seq<Byte>, c: nat, off: nat)
    requires off <= c <= |s|
    ensures Cut(ReadTail(s, off), ReadTail(s[..c], off), c)
  {
    hide ReadHeaders, ReadUint, ReadBlob;
    CutHeaders(s, c, off);
    var headers := ReadHeaders(s, off);
    if headers.Got? && headers.span.next <= c {
      CutUint(s, c, headers.span.next, 1);
      var skipped := ReadUint(s, headers.span.next, 1);
      if skipped.Got? && skipped.span.next <= c { CutBlob(s, c, skipped.span.next); }
    }
  }

  lemma CutRequest(s: seq<Byte>, c: nat, off: nat)
    requires off <= c <= |s|
    ensures Cut(ReadRequest(s, off), ReadRequest(s[..c], off), c)
  {
    hide ReadBytes, ReadString, ReadTail;
    CutBytes(s, c, off, 16);
    var id := ReadBytes(s, off, 16);
    if id.Got? && id.span.next <= c {
      CutString(s, c, id.span.next);
      var verb := ReadString(s, id.span.next);
      if verb.Got? && verb.span.next <= c {
        CutString(s, c, verb.span.next);
        var url := ReadString(s, verb.span.next);
        if url.Got? && url.span.next <= c {
          CutBytes(s, c, url.span.next, 1);
          var version := ReadBytes(s, url.span.next, 1);
          if version.Got? && version.span.next <= c { CutTail(s, c, version.span.next); }
        }
      }
    }
  }

  lemma CutResponse(s: seq<Byte>, c: nat, off: nat)
    requires off <= c <= |s|
    ensures Cut(ReadResponse(s, off), ReadResponse(s[..c], off), c)
  {
    hide ReadBytes, ReadString, ReadUint, ReadTail;
    CutBytes(s, c, off, 16);
    var id := ReadBytes(s, off, 16);
    if id.Got? && id.span.next <= c {
      CutBytes(s, c, id.span.next, 1);
      var version := ReadBytes(s, id.span.next, 1);
      if version.Got? && version.span.next <= c {
        CutUint(s, c, version.span.next, 2);
        var status := ReadUint(s, version.span.next, 2);
        if status.Got? && status.span.next <= c {
          CutString(s, c, status.span.next);
          var message := ReadString(s, status.span.next);
          if message.Got? && message.span.next <= c { CutTail(s, c, message.span.next); }
        }
      }
    }
  }

  lemma CutPayload(s: seq<Byte>, c: nat, off: nat)
    requires off <= c <= |s|
    ensures Cut(ReadPayload(s, off), ReadPayload(s[..c], off), c)
  {
    hide ReadRequest, ReadResponse;
    CutBytes(s, c, off, 1);
    if off + 1 <= c {
      CutRequest(s, c, off + 1);
      CutResponse(s, c, off + 1);
    }
  }

  /** A record cut strictly inside is truncated: never a record, never a clean end. */
  lemma RecordCut(s: seq<Byte>, off: nat, r: Record, c: nat)
    requires Typed(r) && WellSized(r) && Holds(s, off, Frame(r)) && off < c < off + |Frame(r)|
    ensures c <= |s| && ReadRecord(s[..c], off) == Truncated
  {
    hide *;
    FrameParts(r);
    HeldInside(s, off, Frame(r));
    CutPayload(s, c, off);
    HoldsConcat(s, off, Payload(r), Trailer(Checksum(Payload(r))));
    GetPayload(s, off, r);
    ShortOf(s, off, c, Collapse(r), off + |Payload(r)|);
  }

  lemma FrameParts(r: Record)
    ensures Frame(r) == Payload(r) + Trailer(Checksum(Payload(r))) && |Frame(r)| == |Payload(r)| + 4
  {
    hide Payload, Checksum, Trailer;
  }

  lemma ShortOf(s: seq<Byte>, off: nat, c: nat, r: Record, next: nat)
    requires off < c <= |s| && c < next + 4 && ReadPayload(s, off) == Got(Span(r, next))
    requires Cut(ReadPayload(s, off), ReadPayload(s[..c], off), c)
    ensures ReadRecord(s[..c], off) == Truncated
  {
    hide ReadPayload, Checksum, RegisterAt;
  }

  lemma HoldsCut(s: seq<Byte>, off: nat, bs: seq<Byte>, c: nat)
    requires Holds(s, off, bs) && off + |bs| <= c <= |s|
    ensures Holds(s[..c], off, bs)
  {
  }

  /** A session cut strictly inside record `k`: the records before it, then a truncation. */
  lemma SessionCutInside(s: seq<Byte>, off: nat, rs: seq<Record>, k: nat, c: nat)
    requires AllSized(rs) && Holds(s, off, Frames(rs)) && k < |rs|
    requires Start(rs, k, off) < c < Start(rs, k + 1, off)
    ensures c <= |s| && ReadAll(s[..c], off) == Wholes(rs[..k], off) + [Truncated]
  {
    hide Frame, Frames, Holds, ReadAll, ReadRecord, Wholes, WellSized, Typed;
    RecordsStand(s, off, rs, k);
    HeldInside(s, Start(rs, k, off), Frame(rs[k]));
    HoldsCut(s, off, Frames(rs[..k]), c);
    FramesReadBack(s[..c], off, rs[..k]);
    RecordCut(s, Start(rs, k, off), rs[k], c);
    ReadAllStep(s[..c], Start(rs, k, off));
  }

  /** A session cut between two records: the records before the cut, then the clean end. */
  lemma SessionCutBetween(s: seq<Byte>, off: nat, rs: seq<Record>, k: nat)
    requires AllSized(rs) && Holds(s, off, Frames(rs)) && k <= |rs|
    ensures Start(rs, k, off) <= |s| && ReadAll(s[..Start(rs, k, off)], off) == Wholes(rs[..k], off) + [AtEnd]
  {
    hide *;
    SizedPart(rs, k);
    FramesSplit(rs, k);
    HoldsConcat(s, off, Frames(rs[..k]), Frames(rs[k..]));
    StartIs(rs, k, off);
    FirstFramesOnly(s, off, rs[..k]);
  }

  lemma StartIs(rs: seq<Record>, k: nat, off: nat)
    requires k <= |rs|
    ensures Start(rs, k, off) == off + |Frames(rs[..k])|
  {
  }

  lemma SizedPart(rs: seq<Record>, k: nat)
    requires k <= |rs| && AllSized(rs)
    ensures AllSized(rs[..k]) && AllSized(rs[k..])
  {
    hide Typed, WellSized;
  }

  lemma OneSized(rs: seq<Record>, k: nat)
    requires k < |rs| && AllSized(rs)
    ensures Typed(rs[k]) && WellSized(rs[k])
  {
    hide Typed, WellSized;
  }

  lemma FirstFramesOnly(s: seq<Byte>, off: nat, rs: seq<Record>)
    requires AllSized(rs) && Holds(s, off, Frames(rs))
    ensures var c := off + |Frames(rs)|; c <= |s| && ReadAll(s[..c], off) == Wholes(rs, off) + [AtEnd]
  {
    hide *;
    HeldInside(s, off, Frames(rs));
    var c := off + |Frames(rs)|;
    HoldsCut(s, off, Frames(rs), c);
    FramesReadBack(s[..c], off, rs);
    NothingMore(s[..c]);
  }

  /** A file shorter than its header is not opened. */
  lemma HeaderCut(s: seq<Byte>, h: FileHeader, c: nat)
    requires Holds(s, 0, PutFileHeader(h)) && -0x8000_0000 <= h.count < 0x8000_0000 && c < 11
    ensures c <= |s| && ReadFileHeader(s[..c]) == HeaderShort
  {
    HeaderReadsBack(s, h);
    var version := PutInt16(FORMAT_VERSION);
    if c >= 4 { assert s[..c][..4] == s[..4]; }
    if c >= 6 { UintSame(s, s[..c], 4, 2); }
    hide UintAt, Holds, PutFileHeader;
  }

  // ---- one byte changed ------------------------------------------------------------------

  predicate Among(j: int, from: int, n: nat) {
    from <= j < from + n
  }

  /** Byte `j` of the header pairs belongs to the length of a name or a value. */
  predicate PairsLength(hs: seq<Header>, j: int) {
    hs != [] &&
    (Among(j, 0, 4) || Among(j, 4 + |hs[0].name|, 4) || PairsLength(hs[1..], j - 8 - |hs[0].name| - |hs[0].value|))
  }

  predicate TailLength(r: Record, j: int) {
    Among(j, 0, 4) || PairsLength(r.headers, j - 4) || Among(j, |PutHeaders(r.headers)| + 1, 8)
  }

  /** Byte `j` of a record is its type byte, or belongs to a length or to the header count. */
  predicate Structural(r: Record, j: nat) {
    j == 0 ||
    match r
    case RequestRecord(_, verb, url, _, _, _, _) =>
      Among(j, 17, 4) || Among(j, 21 + |verb|, 4) || TailLength(r, j - 26 - |verb| - |url|)
    case ResponseRecord(_, _, _, message, _, _, _) =>
      Among(j, 20, 4) || TailLength(r, j - 24 - |message|)
  }

  /** A read that succeeds and stops at `next`, whatever it gets. */
  predicate Reaches<T>(r: Read<T>, next: nat) {
    r.Got? && r.span.next == next
  }

  lemma KeepBytes(s: seq<Byte>, off: nat, n: nat, i: nat, b: Byte)
    requires i < |s| && off + n <= |s|
    ensures Reaches(ReadBytes(s[i := b], off, n), off + n)
  {
  }

  lemma KeepUint(s: seq<Byte>, off: nat, k: nat, i: nat, b: Byte)
    requires i < |s| && off + k <= |s| && !Among(i, off, k)
    ensures ReadUint(s[i := b], off, k) == ReadUint(s, off, k)
  {
    UintSame(s, s[i := b], off, k);
  }

  lemma KeepString(s: seq<Byte>, off: nat, v: seq<Byte>, i: nat, b: Byte)
    requires i < |s| && Holds(s, off, PutString(v)) && FitsField(v) && !Among(i, off, 4)
    ensures Reaches(ReadString(s[i := b], off), off + 4 + |v|)
  {
    GetString(s, off, v);
    HeldInside(s, off, PutString(v));
    KeepUint(s, off, 4, i, b);
    hide UintAt;
  }

  lemma KeepPair(s: seq<Byte>, off: nat, hs: seq<Header>, i: nat, b: Byte)
    requires hs != [] && i < |s| && Holds(s, off, PutPairs(hs)) && !PairsLength(hs, i - off)
    requires FitsField(hs[0].name) && FitsField(hs[0].value)
    ensures var p1 := off + |PutString(hs[0].name)|; var p2 := p1 + |PutString(hs[0].value)|;
      && Reaches(ReadString(s[i := b], off), p1) && Reaches(ReadString(s[i := b], p1), p2)
      && Holds(s, p2, PutPairs(hs[1..])) && !PairsLength(hs[1..], i - p2) && |PutPairs(hs)| == p2 - off + |PutPairs(hs[1..])|
  {
    var h := hs[0];
    PairsParts(s, off, hs);
    assert |PutString(h.name)| == 4 + |h.name| && |PutString(h.value)| == 4 + |h.value|;
    hide ReadString, PutString, PutPairs, Holds, FitsField, Reaches;
    KeepString(s, off, h.name, i, b);
    KeepString(s, off + 4 + |h.name|, h.value, i, b);
  }

  lemma PairReaches(s: seq<Byte>, p0: nat, p1: nat, p2: nat, p3: nat, n: nat)
    requires n > 0 && Reaches(ReadString(s, p0), p1) && Reaches(ReadString(s, p1), p2) && Reaches(ReadPairs(s, p2, n - 1), p3)
    ensures Reaches(ReadPairs(s, p0, n), p3)
  {
    hide ReadString;
  }

  lemma NoPairs(s: seq<Byte>, off: nat)
    ensures Reaches(ReadPairs(s, off, 0), off) && PutPairs([]) == []
  {
  }

  lemma {:induction false} KeepPairs(s: seq<Byte>, off: nat, hs: seq<Header>, i: nat, b: Byte)
    requires i < |s| && Holds(s, off, PutPairs(hs)) && !PairsLength(hs, i - off)
    requires forall j :: 0 <= j < |hs| ==> FitsField(hs[j].name) && FitsField(hs[j].value)
    ensures Reaches(ReadPairs(s[i := b], off, |hs|), off + |PutPairs(hs)|)
    decreases |hs|
  {
    hide *;
    if hs == [] {
      NoPairs(s[i := b], off);
    } else {
      KeepPair(s, off, hs, i, b);
      var p1 := off + |PutString(hs[0].name)|;
      var p2 := p1 + |PutString(hs[0].value)|;
      KeepPairs(s, p2, hs[1..], i, b);
      PairReaches(s[i := b], off, p1, p2, p2 + |PutPairs(hs[1..])|, |hs|);
    }
  }

  lemma CountIs(s: seq<Byte>, off: nat, hs: seq<Header>)
    requires Holds(s, off, PutHeaders(hs)) && |hs| < 0x8000_0000
    ensures off + 4 <= |s| && ReadUint(s, off, 4) == Got(Span(|hs|, off + 4)) && Holds(s, off + 4, PutPairs(hs))
    ensures |PutHeaders(hs)| == 4 + |PutPairs(hs)|
  {
    HoldsConcat(s, off, PutInt32(|hs|), PutPairs(hs));
    Widths();
    hide Width, UintAt, LittleEndian, PutPairs, Holds;
    GetUint(s, off, |hs|, 4);
  }

  lemma KeepHeaders(s: seq<Byte>, off: nat, hs: seq<Header>, i: nat, b: Byte)
    requires i < |s| && Holds(s, off, PutHeaders(hs)) && FitHeaders(hs) && !Among(i, off, 4) && !PairsLength(hs, i - off - 4)
    ensures Reaches(ReadHeaders(s[i := b], off), off + |PutHeaders(hs)|)
  {
    hide ReadUint, ReadPairs, PutPairs, PutHeaders, Holds, PairsLength, FitsField, Among;
    CountIs(s, off, hs);
    KeepUint(s, off, 4, i, b);
    KeepPairs(s, off + 4, hs, i, b);
  }

  lemma KeepBlob(s: seq<Byte>, off: nat, body: Option<seq<Byte>>, i: nat, b: Byte)
    requires i < |s| && Holds(s, off, PutBlob(body)) && FitsBody(body) && !Among(i, off, 8)
    ensures Reaches(ReadBlob(s[i := b], off), off + |PutBlob(body)|)
  {
    GetBlob(s, off, body);
    HeldInside(s, off, PutBlob(body));
    KeepUint(s, off, 8, i, b);
    hide UintAt, PutBlob, Holds;
  }

  lemma TailParts(s: seq<Byte>, off: nat, r: Record)
    requires Holds(s, off, PutTail(r))
    ensures var headers := |PutHeaders(r.headers)|;
      && Holds(s, off, PutHeaders(r.headers)) && Holds(s, off + headers + 1, PutBlob(r.body))
      && |PutTail(r)| == headers + 1 + |PutBlob(r.body)| && off + |PutTail(r)| <= |s|
  {
    hide Holds, PutHeaders, PutBlob;
    HeldInside(s, off, PutTail(r));
    HoldsConcat(s, off, PutHeaders(r.headers), PutBool(r.skipped) + PutBlob(r.body));
    HoldsConcat(s, off + |PutHeaders(r.headers)|, PutBool(r.skipped), PutBlob(r.body));
  }

  lemma TailReaches(s: seq<Byte>, p0: nat, p1: nat, p2: nat, p3: nat)
    requires Reaches(ReadHeaders(s, p0), p1) && Reaches(ReadUint(s, p1, 1), p2) && Reaches(ReadBlob(s, p2), p3)
    ensures Reaches(ReadTail(s, p0), p3)
  {
    hide ReadHeaders, ReadUint, ReadBlob;
  }

  lemma TailIs(r: Record, j: int)
    requires !TailLength(r, j)
    ensures !Among(j, 0, 4) && !PairsLength(r.headers, j - 4) && !Among(j, |PutHeaders(r.headers)| + 1, 8)
  {
  }

  lemma Moved(i: int, off: int, from: int, n: nat)
    ensures Among(i - off, from, n) <==> Among(i, off + from, n)
  {
  }

  lemma KeepTail(s: seq<Byte>, off: nat, r: Record, i: nat, b: Byte)
    requires i < |s| && Holds(s, off, PutTail(r)) && FitHeaders(r.headers) && FitsBody(r.body) && !TailLength(r, i - off)
    ensures Reaches(ReadTail(s[i := b], off), off + |PutTail(r)|)
  {
    hide *;
    var headers := |PutHeaders(r.headers)|;
    TailParts(s, off, r);
    TailIs(r, i - off);
    Moved(i, off, 0, 4);
    Moved(i, off, headers + 1, 8);
    KeepHeaders(s, off, r.headers, i, b);
    AnyUint(s[i := b], off + headers, 1);
    KeepBlob(s, off + headers + 1, r.body, i, b);
    TailReaches(s[i := b], off, off + headers, off + headers + 1, off + |PutTail(r)|);
  }

  lemma RequestReaches(s: seq<Byte>, p0: nat, p1: nat, p2: nat, p3: nat, p4: nat, p5: nat)
    requires Reaches(ReadBytes(s, p0, 16), p1) && Reaches(ReadString(s, p1), p2) && Reaches(ReadString(s, p2), p3)
    requires Reaches(ReadBytes(s, p3, 1), p4) && Reaches(ReadTail(s, p4), p5)
    ensures Reaches(ReadRequest(s, p0), p5)
  {
    hide ReadString, ReadTail;
  }

  lemma RequestIsSound(r: Record, off: nat, i: nat)
    requires r.RequestRecord? && WellSized(r) && off < i && !Structural(r, i - off)
    ensures FitsField(r.verb) && FitsField(r.url) && FitHeaders(r.headers) && FitsBody(r.body)
    ensures |PutString(r.verb)| == 4 + |r.verb| && |PutString(r.url)| == 4 + |r.url|
    ensures !Among(i, off + 17, 4) && !Among(i, off + 21 + |r.verb|, 4) && !TailLength(r, i - (off + 26 + |r.verb| + |r.url|))
  {
    hide TailLength, FitHeaders, FitsBody;
  }

  lemma KeepRequest(s: seq<Byte>, off: nat, r: Record, i: nat, b: Byte)
    requires r.RequestRecord? && Typed(r) && WellSized(r) && off < i < |s| && !Structural(r, i - off)
    requires Holds(s, off + 1, r.id + (PutString(r.verb) + (PutString(r.url) + ([r.version] + PutTail(r)))))
    ensures Reaches(ReadRequest(s[i := b], off + 1), off + |Payload(r)|)
  {
    hide *;
    var m, p3 := s[i := b], off + 25 + |r.verb| + |r.url|;
    RequestIsSound(r, off, i);
    RequestParts(s, off + 1, r);
    HeldInside(s, p3, [r.version]);
    KeepBytes(s, off + 1, 16, i, b);
    KeepString(s, off + 17, r.verb, i, b);
    KeepString(s, off + 21 + |r.verb|, r.url, i, b);
    KeepBytes(s, p3, 1, i, b);
    KeepTail(s, p3 + 1, r, i, b);
    RequestReaches(m, off + 1, off + 17, off + 21 + |r.verb|, p3, p3 + 1, off + |Payload(r)|);
  }

  lemma ResponseReaches(s: seq<Byte>, p0: nat, p1: nat, p2: nat, p3: nat, p4: nat, p5: nat)
    requires Reaches(ReadBytes(s, p0, 16), p1) && Reaches(ReadBytes(s, p1, 1), p2) && Reaches(ReadUint(s, p2, 2), p3)
    requires Reaches(ReadString(s, p3), p4) && Reaches(ReadTail(s, p4), p5)
    ensures Reaches(ReadResponse(s, p0), p5)
  {
    hide ReadString, ReadTail, ReadUint;
  }

  lemma KeepResponse(s: seq<Byte>, off: nat, r: Record, i: nat, b: Byte)
    requires r.ResponseRecord? && Typed(r) && WellSized(r) && off < i < |s| && !Structural(r, i - off)
    requires Holds(s, off + 1, r.id + ([r.version] + (PutInt16(r.status) + (PutString(r.message) + PutTail(r)))))
    ensures Reaches(ReadResponse(s[i := b], off + 1), off + |Payload(r)|)
  {
    hide *;
    var m := s[i := b];
    ResponseIsSound(r, off, i);
    ResponseParts(s, off + 1, r);
    HeldInside(s, off + 20, PutString(r.message));
    KeepBytes(s, off + 1, 16, i, b);
    KeepBytes(s, off + 17, 1, i, b);
    AnyUint(m, off + 18, 2);
    KeepString(s, off + 20, r.message, i, b);
    KeepTail(s, off + 24 + |r.message|, r, i, b);
    ResponseReaches(m, off + 1, off + 17, off + 18, off + 20, off + 24 + |r.message|, off + |Payload(r)|);
  }

  lemma ResponseIsSound(r: Record, off: nat, i: nat)
    requires r.ResponseRecord? && WellSized(r) && off < i && !Structural(r, i - off)
    ensures FitsField(r.message) && FitHeaders(r.headers) && FitsBody(r.body) && |PutString(r.message)| == 4 + |r.message|
    ensures !Among(i, off + 20, 4) && !TailLength(r, i - (off + 24 + |r.message|))
  {
    hide TailLength, FitHeaders, FitsBody;
  }

  lemma AnyUint(s: seq<Byte>, off: nat, k: nat)
    requires off + k <= |s|
    ensures Reaches(ReadUint(s, off, k), off + k)
  {
  }

  lemma TypeByte(s: seq<Byte>, off: nat, kind: Byte, rest: seq<Byte>, i: nat, b: Byte)
    requires Holds(s, off, [kind] + rest) && off < i < |s|
    ensures ReadBytes(s[i := b], off, 1) == Got(Span([kind], off + 1)) && Holds(s, off + 1, rest)
  {
    HoldsConcat(s, off, [kind], rest);
    assert s[off + 0] == [kind][0];
    assert s[i := b][off..off + 1] == [kind];
  }

  lemma KeepPayload(s: seq<Byte>, off: nat, r: Record, i: nat, b: Byte)
    requires Typed(r) && WellSized(r) && Holds(s, off, Payload(r)) && off < i < |s| && !Structural(r, i - off)
    ensures Reaches(ReadPayload(s[i := b], off), off + |Payload(r)|)
  {
    hide ReadRequest, ReadResponse, ReadBytes, Holds, Structural, WellSized, Typed, PutString, PutTail, PutInt16;
    match r
    case RequestRecord(_, _, _, _, _, _, _) =>
      TypeByte(s, off, 1, r.id + (PutString(r.verb) + (PutString(r.url) + ([r.version] + PutTail(r)))), i, b);
      KeepRequest(s, off, r, i, b);
    case ResponseRecord(_, _, _, _, _, _, _) =>
      TypeByte(s, off, 2, r.id + ([r.version] + (PutInt16(r.status) + (PutString(r.message) + PutTail(r)))), i, b);
      KeepResponse(s, off, r, i, b);
  }

  /** The checksum of the changed bytes and the one stored no longer agree. */
  lemma ChangeIsTold(s: seq<Byte>, off: nat, payload: seq<Byte>, i: nat, b: Byte)
    requires Holds(s, off, payload + Trailer(Checksum(payload)))
    requires off <= i < off + |payload| + 4 <= |s| && b != s[i]
    ensures var m := s[i := b];
      Checksum(m[off..off + |payload|]) != RegisterAt(m, off + |payload|)
  {
    var m, end := s[i := b], off + |payload|;
    hide Checksum, RegisterAt, Trailer;
    HoldsConcat(s, off, payload, Trailer(Checksum(payload)));
    HeldSlice(s, off, payload);
    RegisterOfTrailer(s, end, Checksum(payload));
    hide Holds;
    if i < end {
      assert m[off..end] == payload[i - off := b];
      ChecksumTellsOneByte(payload, i - off, b);
      SameRegister(s, m, end);
    } else {
      assert m[off..end] == payload;
      if RegisterAt(m, end) == RegisterAt(s, end) {
        RegisterInjective(s, m, end);
      }
    }
  }

  lemma SameRegister(s: seq<Byte>, t: seq<Byte>, off: nat)
    requires off + 4 <= |s| && off + 4 <= |t| && forall i :: off <= i < off + 4 ==> s[i] == t[i]
    ensures RegisterAt(s, off) == RegisterAt(t, off)
  {
    hide Bits, Join;
  }

  /** One byte changed outside the type byte, the lengths and the header count: the record is reported corrupt, and passed. */
  lemma RecordChanged(s: seq<Byte>, off: nat, r: Record, i: nat, b: Byte)
    requires Typed(r) && WellSized(r) && Holds(s, off, Frame(r))
    requires off <= i < off + |Frame(r)| && !Structural(r, i - off)
    requires i < |s| && b != s[i]
    ensures ReadRecord(s[i := b], off) == Corrupt(off + |Frame(r)|)
  {
    hide *;
    FrameIs(r);
    TypeByteIsStructural(r, i - off);
    HeldInside(s, off, Frame(r));
    HoldsConcat(s, off, Payload(r), Trailer(Checksum(Payload(r))));
    KeepPayload(s, off, r, i, b);
    ChangeIsTold(s, off, Payload(r), i, b);
    CorruptIs(s[i := b], off, off + |Payload(r)|);
  }

  lemma FrameIs(r: Record)
    ensures Frame(r) == Payload(r) + Trailer(Checksum(Payload(r)))
  {
    hide Payload, Checksum, Trailer;
  }

  lemma TypeByteIsStructural(r: Record, j: nat)
    requires !Structural(r, j)
    ensures j > 0
  {
    hide TailLength;
  }

  lemma CorruptIs(s: seq<Byte>, off: nat, end: nat)
    requires Reaches(ReadPayload(s, off), end) && off <= end && end + 4 <= |s| && Checksum(s[off..end]) != RegisterAt(s, end)
    ensures ReadRecord(s, off) == Corrupt(end + 4)
  {
    hide ReadPayload, Checksum, RegisterAt;
  }

  lemma HoldsElsewhere(s: seq<Byte>, off: nat, bs: seq<Byte>, i: nat, b: Byte)
    requires Holds(s, off, bs) && i < |s| && !Among(i, off, |bs|)
    ensures Holds(s[i := b], off, bs)
  {
  }

  /** A session with one such byte changed in record `k`: every record but that one, in order, and that one reported. */
  lemma SessionChanged(s: seq<Byte>, off: nat, rs: seq<Record>, k: nat, i: nat, b: Byte)
    requires AllSized(rs) && Holds(s, off, Frames(rs)) && k < |rs|
    requires Start(rs, k, off) <= i < Start(rs, k + 1, off) && !Structural(rs[k], i - Start(rs, k, off))
    requires i < |s| && b != s[i]
    ensures var next := Start(rs, k + 1, off);
      ReadAll(s[i := b], off)
      == Wholes(rs[..k], off) + ([Corrupt(next)] + (Wholes(rs[k + 1..], next) + ReadAll(s[i := b], off + |Frames(rs)|)))
  {
    hide *;
    ChangedParts(s, off, rs, k, i, b);
    ChangedMiddle(s[i := b], off, rs[..k], rs[k + 1..], Start(rs, k, off), Start(rs, k + 1, off));
  }

  lemma ChangedMiddle(m: seq<Byte>, off: nat, before: seq<Record>, after: seq<Record>, at: nat, next: nat)
    requires AllSized(before) && AllSized(after) && Holds(m, off, Frames(before)) && Holds(m, next, Frames(after))
    requires at == off + |Frames(before)| && ReadRecord(m, at) == Corrupt(next)
    ensures ReadAll(m, off)
      == Wholes(before, off) + ([Corrupt(next)] + (Wholes(after, next) + ReadAll(m, next + |Frames(after)|)))
  {
    hide *;
    FramesReadBack(m, off, before);
    FramesReadBack(m, next, after);
    ReadAllStep(m, at);
  }

  lemma ChangedParts(s: seq<Byte>, off: nat, rs: seq<Record>, k: nat, i: nat, b: Byte)
    requires AllSized(rs) && Holds(s, off, Frames(rs)) && k < |rs|
    requires Start(rs, k, off) <= i < Start(rs, k + 1, off) && !Structural(rs[k], i - Start(rs, k, off))
    requires i < |s| && b != s[i]
    ensures var at, next, m := Start(rs, k, off), Start(rs, k + 1, off), s[i := b];
      && AllSized(rs[..k]) && AllSized(rs[k + 1..]) && Holds(m, off, Frames(rs[..k])) && Holds(m, next, Frames(rs[k + 1..]))
      && at == off + |Frames(rs[..k])| && ReadRecord(m, at) == Corrupt(next)
      && off + |Frames(rs)| == next + |Frames(rs[k + 1..])|
  {
    hide *;
    var at, next := Start(rs, k, off), Start(rs, k + 1, off);
    StartIs(rs, k, off);
    SizedPart(rs, k);
    SizedPart(rs, k + 1);
    OneSized(rs, k);
    RecordsStand(s, off, rs, k);
    NotAmong(i, off, at, next, |Frames(rs[k + 1..])|);
    HoldsElsewhere(s, off, Frames(rs[..k]), i, b);
    HoldsElsewhere(s, next, Frames(rs[k + 1..]), i, b);
    RecordChanged(s, at, rs[k], i, b);
  }

  lemma NotAmong(i: nat, off: nat, at: nat, next: nat, n: nat)
    requires off <= at <= i < next
    ensures !Among(i, off, at - off) && !Among(i, next, n)
  {
  }
}
