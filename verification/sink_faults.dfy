/** What failed writes do to a session, and that nothing else does it: with them and without them, what a reader gets. */
module SinkFaults {
  import opened Text
  import opened Bytes
  import opened Crc32c
  import opened Capture
  import opened CaptureRoundTrip
  import opened Sink
  import opened SinkLaws

  // ---- a record takes as many bytes as it is written in ---------------------------------------------

  lemma StringTakes(s: seq<Byte>, off: nat)
    ensures ReadString(s, off).Got? ==> ReadString(s, off).span.next == off + |PutString(ReadString(s, off).span.value)|
  {
    hide UintAt, LittleEndian;
  }

  lemma {:induction false} PairsTake(s: seq<Byte>, off: nat, n: nat)
    ensures ReadPairs(s, off, n).Got? ==> ReadPairs(s, off, n).span.next == off + |PutPairs(ReadPairs(s, off, n).span.value)|
    decreases n
  {
    hide ReadString, PutString;
    if n > 0 && ReadString(s, off).Got? {
      StringTakes(s, off);
      var name := ReadString(s, off).span;
      if ReadString(s, name.next).Got? {
        StringTakes(s, name.next);
        var value := ReadString(s, name.next).span;
        PairsTake(s, value.next, n - 1);
        if ReadPairs(s, value.next, n - 1).Got? {
          PairsCons(Header(name.value, value.value), ReadPairs(s, value.next, n - 1).span.value);
        }
      }
    }
  }

  lemma PairsCons(h: Header, hs: seq<Header>)
    ensures |PutPairs([h] + hs)| == |PutString(h.name)| + |PutString(h.value)| + |PutPairs(hs)|
  {
    hide PutString;
    assert ([h] + hs)[1..] == hs;
  }

  lemma HeadersTake(s: seq<Byte>, off: nat)
    ensures ReadHeaders(s, off).Got? ==> ReadHeaders(s, off).span.next == off + |PutHeaders(ReadHeaders(s, off).span.value)|
  {
    hide UintAt, LittleEndian, ReadPairs, PutPairs;
    forall o: nat, n: nat { PairsTake(s, o, n); }
  }

  lemma BlobTakes(s: seq<Byte>, off: nat)
    ensures ReadBlob(s, off).Got? ==> ReadBlob(s, off).span.next == off + |PutBlob(ReadBlob(s, off).span.value)|
  {
    hide UintAt, LittleEndian;
  }

  lemma TailTakes(s: seq<Byte>, off: nat, r: Record)
    requires ReadTail(s, off).Got? && ReadTail(s, off).span.value == Tail(r.headers, r.skipped, r.body)
    ensures ReadTail(s, off).span.next == off + |PutTail(r)|
  {
    hide UintAt, ReadHeaders, ReadBlob, PutHeaders, PutBlob;
    forall o: nat { HeadersTake(s, o); }
    forall o: nat { BlobTakes(s, o); }
  }

  lemma RequestTakes(s: seq<Byte>, off: nat)
    ensures ReadRequest(s, off).Got? ==>
      var r := ReadRequest(s, off).span.value; r.RequestRecord? && ReadRequest(s, off).span.next == off + |Payload(r)| - 1
  {
    hide ReadString, ReadTail, PutString, PutTail;
    forall o: nat { StringTakes(s, o); }
    forall o: nat, r: Record | ReadTail(s, o).Got? && ReadTail(s, o).span.value == Tail(r.headers, r.skipped, r.body) { TailTakes(s, o, r); }
  }

  lemma ResponseTakes(s: seq<Byte>, off: nat)
    ensures ReadResponse(s, off).Got? ==>
      var r := ReadResponse(s, off).span.value; r.ResponseRecord? && ReadResponse(s, off).span.next == off + |Payload(r)| - 1
  {
    hide ReadString, ReadTail, PutString, PutTail, UintAt, LittleEndian, Signed;
    forall o: nat { StringTakes(s, o); }
    forall o: nat, r: Record | ReadTail(s, o).Got? && ReadTail(s, o).span.value == Tail(r.headers, r.skipped, r.body) { TailTakes(s, o, r); }
  }

  lemma PayloadTakes(s: seq<Byte>, off: nat)
    ensures ReadPayload(s, off).Got? ==> ReadPayload(s, off).span.next == off + |Payload(ReadPayload(s, off).span.value)|
  {
    hide ReadRequest, ReadResponse, Payload;
    RequestTakes(s, off + 1);
    ResponseTakes(s, off + 1);
  }

  /** A record read, whatever the bytes, takes exactly as many bytes as it is written in. */
  lemma RecordTakes(s: seq<Byte>, off: nat)
    ensures ReadRecord(s, off).Whole? ==> ReadRecord(s, off).next == off + |Frame(ReadRecord(s, off).record)|
  {
    hide *;
    if ReadRecord(s, off).Whole? {
      WholeIs(s, off);
      PayloadTakes(s, off);
      FrameIsWhole(ReadRecord(s, off).record);
    }
  }

  lemma WholeIs(s: seq<Byte>, off: nat)
    requires ReadRecord(s, off).Whole?
    ensures ReadPayload(s, off).Got? && ReadRecord(s, off) == Whole(ReadPayload(s, off).span.value, ReadPayload(s, off).span.next + 4)
  {
    hide ReadPayload, Checksum, RegisterAt;
  }

  lemma CollapseLength(r: Record)
    ensures |Frame(Collapse(r))| == |Frame(r)|
  {
    FrameIsWhole(r);
    FrameIsWhole(Collapse(r));
    hide Frame, LittleEndian, PutString, PutHeaders, Checksum, Trailer;
  }

  // ---- a clean reading ------------------------------------------------------------------------------

  /** What is read is these records, their empty bodies absent, and then the end of the file. */
  predicate CleanReading(outs: seq<Outcome>, rs: seq<Record>) {
    && |outs| == |rs| + 1 && outs[|rs|] == AtEnd
    && forall i :: 0 <= i < |rs| ==> outs[i].Whole? && outs[i].record == Collapse(rs[i])
  }

  lemma {:induction false} WholesAreClean(rs: seq<Record>, off: nat)
    ensures CleanReading(Wholes(rs, off) + [AtEnd], rs)
    decreases |rs|
  {
    hide Frame, Collapse;
    if rs == [] {
    } else {
      var next := off + |Frame(rs[0])|;
      WholesAreClean(rs[1..], next);
      var rest := Wholes(rs[1..], next) + [AtEnd];
      Assoc([Whole(Collapse(rs[0]), next)], Wholes(rs[1..], next), [AtEnd]);
      CleanCons(Whole(Collapse(rs[0]), next), rest, rs);
    }
  }

  lemma CleanCons(out: Outcome, rest: seq<Outcome>, rs: seq<Record>)
    requires rs != [] && out.Whole?
    ensures CleanReading([out] + rest, rs) <==> out.record == Collapse(rs[0]) && CleanReading(rest, rs[1..])
  {
    hide Collapse;
    var all := [out] + rest;
    assert all[0] == out && forall i :: 0 <= i < |rest| ==> all[i + 1] == rest[i];
    if out.record == Collapse(rs[0]) && CleanReading(rest, rs[1..]) {
      forall i | 0 <= i < |rs| ensures all[i].Whole? && all[i].record == Collapse(rs[i]) {
        if i > 0 { assert rest[i - 1].Whole? && rs[1..][i - 1] == rs[i]; }
      }
    }
    if CleanReading(all, rs) {
      forall i | 0 <= i < |rs| - 1 ensures rest[i].Whole? && rest[i].record == Collapse(rs[1..][i]) { assert all[i + 1].Whole?; }
    }
  }

  /** Bytes that read cleanly as these records are as many as the records are written in. */
  lemma {:induction false} CleanTakesAll(s: seq<Byte>, off: nat, rs: seq<Record>)
    requires CleanReading(ReadAll(s, off), rs)
    ensures |s| <= off + |Frames(rs)|
    decreases |rs|
  {
    ReadAllStep(s, off);
    var r := ReadRecord(s, off);
    if rs == [] {
      EndIsEnd(s, off);
      hide ReadAll, ReadRecord;
    } else {
      hide ReadAll, ReadRecord, Frame, Collapse, CleanReading;
      FirstIsWhole(ReadAll(s, off), rs);
      CleanCons(r, ReadAll(s, r.next), rs);
      RecordTakes(s, off);
      CollapseLength(rs[0]);
      CleanTakesAll(s, r.next, rs[1..]);
    }
  }

  lemma EndIsEnd(s: seq<Byte>, off: nat)
    ensures ReadRecord(s, off).AtEnd? ==> |s| <= off
  {
    hide ReadPayload, Checksum, RegisterAt;
  }

  lemma FirstIsWhole(outs: seq<Outcome>, rs: seq<Record>)
    requires rs != [] && CleanReading(outs, rs)
    ensures outs != [] && outs[0].Whole?
  {
    hide Collapse;
  }

  // ---- how long a session is ------------------------------------------------------------------------

  /** A headed session is at least as long as what it holds, and longer once it is spoiled; one without its header is shorter than that. */
  predicate Measured(x: Session) {
    if x.headed then |x.bytes| >= 11 + |Frames(x.records)| + |x.part| + (if x.spoiled then 1 else 0) else |x.bytes| < 11 && !x.spoiled
  }

  predicate AllMeasured(s: State) {
    forall f :: 0 <= f < |s.files| ==> Measured(s.files[f])
  }

  lemma HeadedIsMeasured(x: Session)
    requires SessionOk(x) && x.headed && !x.spoiled
    ensures Measured(x)
  {
    HeaderIsEleven(x.header);
    hide PutFileHeader, Frames, Frame;
  }

  lemma BegunMeasured(x: Session, r: Record, bytes: seq<Byte>)
    requires SessionOk(x) && Measured(x) && x.headed
    ensures Measured(Begin(x, r, bytes))
  {
    hide Frames, Frame, SessionOk;
  }

  lemma CompletedMeasured(x: Session, r: Record)
    requires Measured(x) && x.headed && x.part == Payload(r)
    ensures Measured(Completed(x, r))
  {
    FramesSnoc(x.records, r);
    FrameIsWhole(r);
    hide Frames, Frame, Payload, Checksum, Trailer;
  }

  lemma UpToLength(h: FileHeader, k: nat)
    requires k <= 4
    ensures |HeaderUpTo(h, k)| == (if k == 0 then 0 else if k == 1 then 4 else if k == 2 then 6 else if k == 3 then 7 else 11)
    ensures k < 4 ==> |HeaderUpTo(h, k)| + |HeaderPiece(h, k)| == |HeaderUpTo(h, k + 1)|
  {
    hide LittleEndian;
    assert HeaderUpTo(h, 0) == [];
    assert |HeaderUpTo(h, 1)| == 4;
    assert |HeaderUpTo(h, 2)| == 6;
    assert |HeaderUpTo(h, 3)| == 7;
    assert |HeaderUpTo(h, 4)| == 11;
  }

  lemma TouchedMeasured(s: State, a: Action, f: nat)
    requires Sound(s) && Enabled(s, a) && f < |s.files| && Measured(s.files[f]) && Touched(s, a) == Some(f)
    ensures f < |After(s, a).files| && Measured(After(s, a).files[f])
  {
    SoundParts(s, a.t, f);
    var pc, x := s.pcs[a.t], s.files[f];
    hide Sound, LocksOk, FileOk, SessionOk, Measured, Payload, Frames, HeaderUpTo, HeaderPiece, Checksum, Trailer, Begin, Completed, CompletedShort;
    match a
    case LockFile(_) => SameMeasure(x, x.(mutex := Some(a.t), locked := x.locked + [pc.record]));
    case WritePayload(_) => FileIsOk(s, f); BegunMeasured(x, pc.record, Payload(pc.record));
    case FailPayload(_, n) =>
      FileIsOk(s, f);
      var y := Begin(x, pc.record, Payload(pc.record)[..n]);
      BegunMeasured(x, pc.record, Payload(pc.record)[..n]);
      SameMeasure(y, y.(mutex := None, failed := true));
    case WriteTrailer(_) => CompletedMeasured(x, pc.record);
    case FailTrailer(_, n) => ShortMeasured(x, pc.record, n);
    case WriteHeader(_) => FileIsOk(s, f); HeaderMeasured(x, pc.piece, |HeaderPiece(x.header, pc.piece)|);
    case FailHeader(_, n) => FileIsOk(s, f); HeaderMeasured(x, pc.piece, n);
    case Shut(_) => SameMeasure(x, x.(closed := true));
    case _ =>
  }

  lemma FileIsOk(s: State, f: nat)
    requires f < |s.files| && FileOk(s, f)
    ensures SessionOk(s.files[f])
  {
    hide SessionOk;
  }

  lemma SameMeasure(x: Session, y: Session)
    requires Measured(x) && y.bytes == x.bytes && y.records == x.records && y.part == x.part && y.headed == x.headed && y.spoiled == x.spoiled
    ensures Measured(y)
  {
    hide Frames;
  }

  lemma ShortMeasured(x: Session, r: Record, n: nat)
    requires Measured(x) && x.headed && n < 4
    ensures Measured(CompletedShort(x, r, n))
  {
    hide Frames, Payload, Checksum, Trailer;
  }

  /** A header written up to a place in one of its pieces, the last of them making it whole. */
  lemma HeaderMeasured(x: Session, k: nat, n: nat)
    requires SessionOk(x) && !x.headed && Measured(x) && k < 4 && x.bytes == HeaderUpTo(x.header, k) && n <= |HeaderPiece(x.header, k)|
    ensures n < |HeaderPiece(x.header, k)| ==> Measured(x.(bytes := x.bytes + HeaderPiece(x.header, k)[..n], closed := true))
    ensures n == |HeaderPiece(x.header, k)| ==> Measured(x.(bytes := x.bytes + HeaderPiece(x.header, k), headed := k == 3))
  {
    UpToLength(x.header, k);
    UpToLength(x.header, k + 1);
    hide HeaderUpTo, HeaderPiece, PutFileHeader, WellFormed;
  }

  lemma StepMeasured(s: State, a: Action)
    requires Sound(s) && Enabled(s, a) && AllMeasured(s)
    ensures AllMeasured(After(s, a))
  {
    var n := After(s, a);
    assert Inside(s, a.t);
    hide Sound, Enabled, After, Measured, Touched, Inside;
    forall f | 0 <= f < |n.files| ensures Measured(n.files[f]) {
      if f >= |s.files| {
        NewIsMeasured(s, a, f);
      } else if Touched(s, a) == Some(f) {
        TouchedMeasured(s, a, f);
      } else {
        OthersUntouched(s, a, f);
      }
    }
  }

  lemma NewIsMeasured(s: State, a: Action, f: nat)
    requires Enabled(s, a) && |s.files| <= f < |After(s, a).files|
    ensures After(s, a).files[f].bytes == [] && !After(s, a).files[f].headed && !After(s, a).files[f].failed
    ensures After(s, a).files[f].records == [] && After(s, a).files[f].last.None?
    ensures Measured(After(s, a).files[f])
  {
    hide Payload, HeaderPiece, Begin, Completed, CompletedShort, Frames;
  }

  // ---- runs without failed writes, and runs of records that fit ---------------------------------------

  /** A write of a file fails. A file that cannot be created is never there. */
  predicate Fails(a: Action) {
    a.FailPayload? || a.FailTrailer? || a.FailHeader?
  }

  predicate Unfailed(s: State) {
    forall f :: 0 <= f < |s.files| ==> !s.files[f].failed
  }

  lemma StepUnfailed(s: State, a: Action)
    requires Enabled(s, a) && !Fails(a) && Unfailed(s)
    ensures Unfailed(After(s, a))
  {
    hide Payload, HeaderPiece, Checksum, Trailer;
  }

  predicate Sized(r: Record) {
    Typed(r) && WellSized(r)
  }

  predicate SizedPc(pc: Pc) {
    pc.Entered? || pc.Waiting? || pc.Writing? || pc.Trailing? ==> Sized(pc.record)
  }

  predicate AllSizedState(s: State) {
    (forall t :: 0 <= t < |s.pcs| ==> SizedPc(s.pcs[t])) && (forall f :: 0 <= f < |s.files| ==> SizedSession(s.files[f]))
  }

  /** The records handed to the sink are within the field limits. */
  predicate SizedAction(a: Action) {
    a.LockShared? ==> Sized(a.record)
  }

  lemma SnocSized(x: Session, r: Record)
    requires SizedSession(x) && Sized(r)
    ensures AllSized(x.records + [r])
  {
    hide Typed, WellSized;
  }

  lemma StepSized(s: State, a: Action)
    requires Enabled(s, a) && SizedAction(a) && AllSizedState(s)
    ensures AllSizedState(After(s, a))
  {
    var n := After(s, a);
    assert Inside(s, a.t);
    hide Enabled, After, Touched, SizedPc, SizedSession, SizedAction, Inside;
    forall t | 0 <= t < |n.pcs| ensures SizedPc(n.pcs[t]) { PcSized(s, a, t); }
    forall f | 0 <= f < |n.files| ensures SizedSession(n.files[f]) {
      if f >= |s.files| {
        NewIsMeasured(s, a, f);
        NoneSized(n.files[f]);
      } else if Touched(s, a) == Some(f) {
        TouchedSized(s, a, f);
      } else {
        OthersUntouched(s, a, f);
      }
    }
  }

  lemma PcSized(s: State, a: Action, t: nat)
    requires Enabled(s, a) && SizedAction(a) && SizedPc(s.pcs[a.t])
    requires t < |After(s, a).pcs| && (t < |s.pcs| ==> SizedPc(s.pcs[t]))
    ensures SizedPc(After(s, a).pcs[t])
  {
    hide Sized, Payload, HeaderPiece, Begin, Completed, CompletedShort;
  }

  lemma TouchedSized(s: State, a: Action, f: nat)
    requires Enabled(s, a) && f < |s.files| && SizedSession(s.files[f]) && SizedPc(s.pcs[a.t]) && Touched(s, a) == Some(f)
    ensures f < |After(s, a).files| && SizedSession(After(s, a).files[f])
  {
    var pc := s.pcs[a.t];
    if a.WriteTrailer? { SnocSized(s.files[f], pc.record); }
    hide Payload, HeaderPiece, Checksum, Trailer, WellSized, Typed, AllSized;
  }

  lemma NoneSized(x: Session)
    requires x.records == [] && x.last.None?
    ensures SizedSession(x)
  {
  }

  lemma {:induction false} RunMeasured(s: State, steps: seq<Action>)
    requires Sound(s) && AllMeasured(s) && Runs(s, steps)
    ensures AllMeasured(Ran(s, steps))
    decreases |steps|
  {
    hide Sound, AllMeasured, Enabled, After;
    if steps != [] {
      StepKeepsSound(s, steps[0]);
      StepMeasured(s, steps[0]);
      RunMeasured(After(s, steps[0]), steps[1..]);
    }
  }

  lemma {:induction false} RunUnfailed(s: State, steps: seq<Action>)
    requires Unfailed(s) && Runs(s, steps) && forall i :: 0 <= i < |steps| ==> !Fails(steps[i])
    ensures Unfailed(Ran(s, steps))
    decreases |steps|
  {
    hide Unfailed, Enabled, After, Fails;
    if steps != [] {
      StepUnfailed(s, steps[0]);
      RunUnfailed(After(s, steps[0]), steps[1..]);
    }
  }

  lemma {:induction false} RunSized(s: State, steps: seq<Action>)
    requires AllSizedState(s) && Runs(s, steps) && forall i :: 0 <= i < |steps| ==> SizedAction(steps[i])
    ensures AllSizedState(Ran(s, steps))
    decreases |steps|
  {
    hide AllSizedState, Enabled, After, SizedAction;
    if steps != [] {
      StepSized(s, steps[0]);
      RunSized(After(s, steps[0]), steps[1..]);
    }
  }

  lemma FreshIsAll(n: nat)
    ensures AllMeasured(Fresh(n)) && Unfailed(Fresh(n)) && AllSizedState(Fresh(n))
  {
  }

  /** The file of a run whose records fit: sound, sized and measured. */
  lemma FileOfRun(n: nat, steps: seq<Action>, f: nat)
    requires Runs(Fresh(n), steps) && f < |Ran(Fresh(n), steps).files|
    requires forall i :: 0 <= i < |steps| ==> SizedAction(steps[i])
    ensures var x := Ran(Fresh(n), steps).files[f]; SessionOk(x) && SizedSession(x) && Measured(x)
  {
    hide *;
    FreshIsSound(n);
    FreshIsAll(n);
    RunKeepsSound(Fresh(n), steps);
    RunSized(Fresh(n), steps);
    RunMeasured(Fresh(n), steps);
    SoundFile(Ran(Fresh(n), steps), f);
    FileOfState(Ran(Fresh(n), steps), f);
  }

  lemma FileOfState(s: State, f: nat)
    requires AllSizedState(s) && AllMeasured(s) && f < |s.files|
    ensures SizedSession(s.files[f]) && Measured(s.files[f])
  {
    hide SizedSession, Measured;
  }

  // ---- crashes without failed writes ------------------------------------------------------------------

  lemma UnfailedOk(s: State, f: nat)
    requires Unfailed(s) && f < |s.files| && SessionOk(s.files[f])
    ensures !s.files[f].failed && !s.files[f].spoiled
  {
    hide WellFormed, PutFileHeader;
  }

  /** At most the writer that holds the file's mutex is not done. */
  lemma LockOrder(s: State, f: nat)
    requires Sound(s) && f < |s.files| && !s.files[f].failed
    ensures var x := s.files[f];
      (x.part == [] && x.locked == x.records) || (x.mutex.Some? && exists r :: x.locked == x.records + [r])
  {
    var x := s.files[f];
    assert FileOk(s, f);
    if x.mutex.Some? {
      assert PcOk(s, x.mutex.value);
      var r := s.pcs[x.mutex.value].record;
      assert x.locked == x.records + [r];
    }
    hide WellFormed, PutFileHeader, Payload, HeaderUpTo;
  }

  /**
   A crash anywhere in any run without failed writes, of any number of goroutines and records within the limits:
   a file shorter than its header is not opened and holds no record; any other reads back to exactly the records
   it completed, which are those that took its mutex but for the one being written, and then to a clean end or
   to one truncated record.
   */
  lemma CrashWithoutFailures(n: nat, steps: seq<Action>, f: nat)
    requires Runs(Fresh(n), steps) && f < |Ran(Fresh(n), steps).files|
    requires forall i :: 0 <= i < |steps| ==> !Fails(steps[i]) && SizedAction(steps[i])
    ensures var x := Ran(Fresh(n), steps).files[f];
      && (|x.bytes| < 11 ==> x.bytes <= PutFileHeader(x.header) && x.records == [] && ReadFileHeader(x.bytes) == HeaderShort)
      && (|x.bytes| >= 11 ==>
            ReadFileHeader(x.bytes) == Opened(x.header, 11)
            && ReadAll(x.bytes, 11) == Wholes(x.records, 11) + [if x.part == [] then AtEnd else Truncated])
      && ((x.part == [] && x.locked == x.records) || (x.mutex.Some? && exists r :: x.locked == x.records + [r]))
  {
    hide *;
    FreshIsSound(n);
    FreshIsAll(n);
    RunKeepsSound(Fresh(n), steps);
    RunUnfailed(Fresh(n), steps);
    FileOfRun(n, steps, f);
    var s := Ran(Fresh(n), steps);
    var x := s.files[f];
    UnfailedOk(s, f);
    LockOrder(s, f);
    HeadedIsLong(x);
    if x.headed {
      if x.part == [] { WholeReadsBack(x); } else { PartReadsBack(x); }
    } else {
      ShortHeader(x);
    }
  }

  lemma HeadedIsLong(x: Session)
    requires Measured(x) && SessionOk(x)
    ensures (x.headed <==> |x.bytes| >= 11) && (!x.headed ==> x.records == [])
  {
    hide Frames, WellFormed, PutFileHeader;
  }

  // ---- what a failed write costs ----------------------------------------------------------------------

  /**
   In any run of records within the limits, a headed file with nothing begun and left on it reads back cleanly to the records
   it completed exactly when no record was ever begun on it after a failed write.
   */
  lemma CleanExactlyWhenUnspoiled(n: nat, steps: seq<Action>, f: nat)
    requires Runs(Fresh(n), steps) && f < |Ran(Fresh(n), steps).files|
    requires forall i :: 0 <= i < |steps| ==> SizedAction(steps[i])
    requires var x := Ran(Fresh(n), steps).files[f]; x.headed && x.part == []
    ensures var x := Ran(Fresh(n), steps).files[f]; CleanReading(ReadAll(x.bytes, 11), x.records) <==> !x.spoiled
  {
    hide *;
    FileOfRun(n, steps, f);
    var x := Ran(Fresh(n), steps).files[f];
    if x.spoiled {
      SpoiledIsLonger(x);
      if CleanReading(ReadAll(x.bytes, 11), x.records) { CleanTakesAll(x.bytes, 11, x.records); }
    } else {
      WholeReadsBack(x);
      WholesAreClean(x.records, 11);
    }
  }

  lemma SpoiledIsLonger(x: Session)
    requires Measured(x) && x.headed && x.spoiled
    ensures |x.bytes| > 11 + |Frames(x.records)|
  {
    hide Frames;
  }

  /**
   The next record after a torn one, whatever the records before, the tear and the record: it is completed, and no
   reading of the file is clean any more.
   */
  lemma TornNeverClean(x: Session, r: Record)
    requires SessionOk(x) && x.headed && !x.spoiled && x.part != []
    ensures var y := Completed(Begun(x, r), r);
      y.records == x.records + [r] && y.part == [] && y.spoiled && !CleanReading(ReadAll(y.bytes, 11), y.records)
  {
    HeadedIsMeasured(x);
    BegunMeasured(x, r, Payload(r));
    CompletedMeasured(Begun(x, r), r);
    hide SessionOk, Measured, ReadAll, CleanReading, Frames, Payload, Checksum, Trailer;
    var y := Completed(Begun(x, r), r);
    SpoiledIsLonger(y);
    if CleanReading(ReadAll(y.bytes, 11), y.records) { CleanTakesAll(y.bytes, 11, y.records); }
  }

  // ---- such a run -------------------------------------------------------------------------------------

  /** One goroutine opens a session, has its first record torn after `n` bytes, and writes another one whole. */
  function TornRun(torn: Record, n: nat, whole: Record): seq<Action> {
    Opening() + (Tearing(torn, n) + Writing(whole))
  }

  function Opening(): seq<Action> {
    [LockEnable(0, false)] + ([Create(0)] + ([WriteHeader(0)] + ([WriteHeader(0)] + ([WriteHeader(0)] + ([WriteHeader(0)] + [])))))
  }

  function Tearing(r: Record, n: nat): seq<Action> {
    [LockShared(0, r)] + ([Look(0)] + ([LockFile(0)] + ([FailPayload(0, n)] + ([UnlockShared(0)] + []))))
  }

  function Writing(r: Record): seq<Action> {
    [LockShared(0, r)] + ([Look(0)] + ([LockFile(0)] + ([WritePayload(0)] + ([WriteTrailer(0)] + ([UnlockShared(0)] + [])))))
  }

  lemma {:induction false} RunsConcat(s: State, a: seq<Action>, b: seq<Action>)
    requires Runs(s, a) && Runs(Ran(s, a), b)
    ensures Runs(s, a + b) && Ran(s, a + b) == Ran(Ran(s, a), b)
    decreases |a|
  {
    hide Enabled, After;
    if a == [] {
      NoMore(b);
    } else {
      assert (a + b)[0] == a[0] && (a + b)[1..] == a[1..] + b;
      RunsConcat(After(s, a[0]), a[1..], b);
    }
  }

  lemma RunsOne(s: State, a: Action, rest: seq<Action>)
    requires Enabled(s, a) && Runs(After(s, a), rest)
    ensures Runs(s, [a] + rest) && Ran(s, [a] + rest) == Ran(After(s, a), rest)
  {
    hide Enabled, After;
    assert ([a] + rest)[1..] == rest;
  }

  /** What is left to run, and where it leads. */
  predicate Leads(s: State, steps: seq<Action>, to: State) {
    Runs(s, steps) && Ran(s, steps) == to
  }

  lemma LeadsNow(s: State)
    ensures Leads(s, [], s)
  {
  }

  lemma LeadsFirst(s: State, a: Action, n: State, rest: seq<Action>, to: State)
    requires Enabled(s, a) && After(s, a) == n && Leads(n, rest, to)
    ensures Leads(s, [a] + rest, to)
  {
    hide Enabled, After;
    RunsOne(s, a, rest);
  }

  function One(files: seq<Session>, current: Option<nat>, exclusive: Option<nat>, shared: set<nat>, pc: Pc): State {
    State(files, current, exclusive, shared, [pc])
  }

  function Heads(x: Session, k: nat): Session
    requires k <= 4
  {
    x.(bytes := HeaderUpTo(x.header, k), headed := k == 4)
  }

  lemma HeadStep(x: Session, k: nat)
    requires k < 4 && !x.headed
    ensures var s := One([Heads(x, k)], None, Some(0), {}, Heading(0, k));
      && Enabled(s, WriteHeader(0))
      && After(s, WriteHeader(0)) ==
           if k < 3 then One([Heads(x, k + 1)], None, Some(0), {}, Heading(0, k + 1)) else One([Heads(x, 4)], Some(0), None, {}, Idle)
  {
    hide HeaderPiece;
    assert HeaderUpTo(x.header, k + 1) == HeaderUpTo(x.header, k) + HeaderPiece(x.header, k);
    hide HeaderUpTo;
  }

  /** One goroutine, idle, and one open session. */
  function Resting(x: Session): State {
    One([x], Some(0), None, {}, Idle)
  }

  lemma CreateSteps()
    ensures Enabled(Fresh(1), LockEnable(0, false))
    ensures After(Fresh(1), LockEnable(0, false)) == One([], None, Some(0), {}, Enabling(false))
    ensures Enabled(One([], None, Some(0), {}, Enabling(false)), Create(0))
    ensures After(One([], None, Some(0), {}, Enabling(false)), Create(0)) == One([Heads(NewSession(false), 0)], None, Some(0), {}, Heading(0, 0))
  {
    var x := NewSession(false);
    assert Fresh(1).pcs == [Idle] && [Idle][0 := Enabling(false)] == [Enabling(false)];
    assert [Enabling(false)][0 := Heading(0, 0)] == [Heading(0, 0)] && [] + [x] == [x] && Heads(x, 0) == x;
  }

  lemma OpeningLeads()
    ensures Leads(Fresh(1), Opening(), Resting(Heads(NewSession(false), 4)))
  {
    var x := NewSession(false);
    assert !x.headed;
    CreateSteps();
    hide Enabled, After, Fresh, Heads, NewSession, Leads;
    HeadStep(x, 0);
    HeadStep(x, 1);
    HeadStep(x, 2);
    HeadStep(x, 3);
    var end := Resting(Heads(x, 4));
    LeadsNow(end);
    LeadsFirst(One([Heads(x, 3)], None, Some(0), {}, Heading(0, 3)), WriteHeader(0), end, [], end);
    var w := [WriteHeader(0)] + [];
    LeadsFirst(One([Heads(x, 2)], None, Some(0), {}, Heading(0, 2)), WriteHeader(0), One([Heads(x, 3)], None, Some(0), {}, Heading(0, 3)), w, end);
    LeadsFirst(One([Heads(x, 1)], None, Some(0), {}, Heading(0, 1)), WriteHeader(0), One([Heads(x, 2)], None, Some(0), {}, Heading(0, 2)),
               [WriteHeader(0)] + w, end);
    var ws := [WriteHeader(0)] + ([WriteHeader(0)] + w);
    LeadsFirst(One([Heads(x, 0)], None, Some(0), {}, Heading(0, 0)), WriteHeader(0), One([Heads(x, 1)], None, Some(0), {}, Heading(0, 1)), ws, end);
    LeadsFirst(One([], None, Some(0), {}, Enabling(false)), Create(0), One([Heads(x, 0)], None, Some(0), {}, Heading(0, 0)), [WriteHeader(0)] + ws, end);
    LeadsFirst(Fresh(1), LockEnable(0, false), One([], None, Some(0), {}, Enabling(false)), [Create(0)] + ([WriteHeader(0)] + ws), end);
  }

  /** A session whose mutex the goroutine took for a record. */
  function Taken(x: Session, r: Record): Session {
    x.(mutex := Some(0), locked := x.locked + [r])
  }

  lemma TakeSteps(x: Session, r: Record)
    requires x.mutex.None?
    ensures var entered := One([x], Some(0), None, {0}, Entered(r)); var waiting := One([x], Some(0), None, {0}, Waiting(0, r));
      && Enabled(Resting(x), LockShared(0, r)) && After(Resting(x), LockShared(0, r)) == entered
      && Enabled(entered, Look(0)) && After(entered, Look(0)) == waiting
      && Enabled(waiting, LockFile(0)) && After(waiting, LockFile(0)) == One([Taken(x, r)], Some(0), None, {0}, Pc.Writing(0, r))
  {
    hide Payload, HeaderPiece;
    assert {} + {0} == {0};
  }

  lemma LeaveStep(x: Session)
    ensures Enabled(One([x], Some(0), None, {0}, Leaving), UnlockShared(0))
    ensures After(One([x], Some(0), None, {0}, Leaving), UnlockShared(0)) == Resting(x)
  {
    hide Payload, HeaderPiece;
    assert {0} - {0} == {};
  }

  /** A record torn after `n` bytes of its payload. */
  lemma TearingLeads(x: Session, r: Record, n: nat)
    requires x.mutex.None? && n <= |Payload(r)|
    ensures Leads(Resting(x), Tearing(r, n), Resting(BegunShort(Taken(x, r), r, n)))
  {
    TakeSteps(x, r);
    TearStep(Taken(x, r), r, n);
    hide Payload, Enabled, After, Taken, BegunShort, Leads;
    var y := BegunShort(Taken(x, r), r, n);
    var end := Resting(y);
    LeaveStep(y);
    LeadsNow(end);
    LeadsFirst(One([y], Some(0), None, {0}, Leaving), UnlockShared(0), end, [], end);
    var last := [UnlockShared(0)] + [];
    LeadsFirst(One([Taken(x, r)], Some(0), None, {0}, Pc.Writing(0, r)), FailPayload(0, n), One([y], Some(0), None, {0}, Leaving), last, end);
    TakenLeads(x, r, [FailPayload(0, n)] + last, end);
  }

  lemma TakenLeads(x: Session, r: Record, rest: seq<Action>, end: State)
    requires x.mutex.None? && Leads(One([Taken(x, r)], Some(0), None, {0}, Pc.Writing(0, r)), rest, end)
    ensures Leads(Resting(x), [LockShared(0, r)] + ([Look(0)] + ([LockFile(0)] + rest)), end)
  {
    TakeSteps(x, r);
    hide Enabled, After, Taken, Leads;
    LeadsFirst(One([x], Some(0), None, {0}, Waiting(0, r)), LockFile(0), One([Taken(x, r)], Some(0), None, {0}, Pc.Writing(0, r)), rest, end);
    LeadsFirst(One([x], Some(0), None, {0}, Entered(r)), Look(0), One([x], Some(0), None, {0}, Waiting(0, r)), [LockFile(0)] + rest, end);
    LeadsFirst(Resting(x), LockShared(0, r), One([x], Some(0), None, {0}, Entered(r)), [Look(0)] + ([LockFile(0)] + rest), end);
  }

  lemma TearStep(x: Session, r: Record, n: nat)
    requires n <= |Payload(r)|
    ensures var s := One([x], Some(0), None, {0}, Pc.Writing(0, r));
      Enabled(s, FailPayload(0, n)) && After(s, FailPayload(0, n)) == One([BegunShort(x, r, n)], Some(0), None, {0}, Leaving)
  {
    hide Payload, HeaderPiece, BegunShort;
  }

  lemma WriteSteps(x: Session, r: Record)
    ensures var s, mid := One([x], Some(0), None, {0}, Pc.Writing(0, r)), One([Begun(x, r)], Some(0), None, {0}, Trailing(0, r));
      && Enabled(s, WritePayload(0)) && After(s, WritePayload(0)) == mid
      && Enabled(mid, WriteTrailer(0)) && After(mid, WriteTrailer(0)) == One([Completed(Begun(x, r), r)], Some(0), None, {0}, Leaving)
  {
    hide Payload, HeaderPiece, Begun, Completed;
  }

  lemma WritingLeads(x: Session, r: Record)
    requires x.mutex.None?
    ensures Leads(Resting(x), Writing(r), Resting(Completed(Begun(Taken(x, r), r), r)))
  {
    WriteSteps(Taken(x, r), r);
    hide Enabled, After, Taken, Begun, Completed, Leads;
    var y := Completed(Begun(Taken(x, r), r), r);
    var end := Resting(y);
    LeaveStep(y);
    LeadsNow(end);
    LeadsFirst(One([y], Some(0), None, {0}, Leaving), UnlockShared(0), end, [], end);
    var last := [UnlockShared(0)] + [];
    LeadsFirst(One([Begun(Taken(x, r), r)], Some(0), None, {0}, Trailing(0, r)), WriteTrailer(0), One([y], Some(0), None, {0}, Leaving), last, end);
    LeadsFirst(One([Taken(x, r)], Some(0), None, {0}, Pc.Writing(0, r)), WritePayload(0),
               One([Begun(Taken(x, r), r)], Some(0), None, {0}, Trailing(0, r)), [WriteTrailer(0)] + last, end);
    TakenLeads(x, r, [WritePayload(0)] + ([WriteTrailer(0)] + last), end);
  }

  lemma LeadsOn(s: State, a: seq<Action>, mid: State, b: seq<Action>, to: State)
    requires Leads(s, a, mid) && Leads(mid, b, to)
    ensures Leads(s, a + b, to)
  {
    hide Enabled, After;
    RunsConcat(s, a, b);
  }

  /** The session of the run: opened, torn, then written. */
  function TornSession(torn: Record, n: nat): Session
    requires n <= |Payload(torn)|
  {
    BegunShort(Taken(Heads(NewSession(false), 4), torn), torn, n)
  }

  /** The session just opened: its header, and nothing else. */
  lemma OpenedIs()
    ensures var x := Heads(NewSession(false), 4);
      SessionOk(x) && x.headed && !x.spoiled && !x.failed && x.mutex.None? && x.records == [] && x.part == []
  {
    var x := Heads(NewSession(false), 4);
    HeaderIsPieces(x.header);
    hide HeaderUpTo, PutFileHeader;
    NoMore<Byte>([]);
    NoMore(PutFileHeader(x.header));
  }

  /** The session torn, and taken for the next record. */
  lemma TornIs(torn: Record, n: nat, whole: Record)
    requires 0 < n <= |Payload(torn)|
    ensures var y := TornSession(torn, n); y.mutex.None?
    ensures var z := Taken(TornSession(torn, n), whole); SessionOk(z) && z.headed && !z.spoiled && z.part != [] && z.records == []
  {
    var x := Heads(NewSession(false), 4);
    OpenedIs();
    hide SessionOk, Heads, NewSession, Payload;
    LockedOk(x, 0, torn);
    BegunShortOk(Taken(x, torn), torn, n);
    LockedOk(TornSession(torn, n), 0, whole);
  }

  lemma TornRunLeads(torn: Record, n: nat, whole: Record, z: Session)
    requires Leads(Fresh(1), Opening() + (Tearing(torn, n) + Writing(whole)), Resting(z))
    ensures Runs(Fresh(1), TornRun(torn, n, whole)) && Ran(Fresh(1), TornRun(torn, n, whole)).files == [z]
  {
    hide Runs, Ran, Opening, Tearing, Writing, Fresh;
  }

  lemma HeadKept(x: Session, r: Record)
    ensures Completed(Begun(x, r), r).headed == x.headed
  {
    hide Payload, Checksum, Trailer;
  }

  /**
   Such a run, of any two records and any tear that left bytes: the second record is completed, and the file no longer
   reads back cleanly to what it completed.
   */
  lemma FailedWriteSpoils(torn: Record, n: nat, whole: Record)
    requires 0 < n <= |Payload(torn)|
    ensures Runs(Fresh(1), TornRun(torn, n, whole)) && |Ran(Fresh(1), TornRun(torn, n, whole)).files| == 1
    ensures var x := Ran(Fresh(1), TornRun(torn, n, whole)).files[0];
      x.headed && x.records == [whole] && x.part == [] && x.spoiled && !CleanReading(ReadAll(x.bytes, 11), x.records)
  {
    var x, y := Heads(NewSession(false), 4), TornSession(torn, n);
    TornIs(torn, n, whole);
    hide *;
    OpenedIs();
    OpeningLeads();
    TearingLeads(x, torn, n);
    WritingLeads(y, whole);
    LeadsOn(Resting(x), Tearing(torn, n), Resting(y), Writing(whole), Resting(Completed(Begun(Taken(y, whole), whole), whole)));
    LeadsOn(Fresh(1), Opening(), Resting(x), Tearing(torn, n) + Writing(whole), Resting(Completed(Begun(Taken(y, whole), whole), whole)));
    var z := Completed(Begun(Taken(y, whole), whole), whole);
    TornRunLeads(torn, n, whole, z);
    TornNeverClean(Taken(y, whole), whole);
    NoMore([whole]);
    HeadKept(Taken(y, whole), whole);
  }
}
