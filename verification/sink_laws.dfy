/** Every run of the sink keeps its sessions sound, and every session reads back to the records it completed. */
module SinkLaws {
  import opened Text
  import opened Bytes
  import opened Crc32c
  import opened Capture
  import opened CaptureRoundTrip
  import opened CaptureDamage
  import opened Sink

  // ---- one session -------------------------------------------------------------------

  lemma FrameIsWhole(r: Record)
    ensures Frame(r) == Payload(r) + Trailer(Checksum(Payload(r))) && |Frame(r)| == |Payload(r)| + 4
  {
    hide Payload, Checksum, Trailer;
  }

  lemma HeaderIsPieces(h: FileHeader)
    ensures HeaderUpTo(h, 4) == PutFileHeader(h)
  {
    var a, b, c, d := HeaderPiece(h, 0), HeaderPiece(h, 1), HeaderPiece(h, 2), HeaderPiece(h, 3);
    assert HeaderUpTo(h, 1) == a by { assert HeaderUpTo(h, 0) + a == a; }
    assert HeaderUpTo(h, 2) == HeaderUpTo(h, 1) + b;
    assert HeaderUpTo(h, 3) == HeaderUpTo(h, 2) + c;
    assert HeaderUpTo(h, 4) == HeaderUpTo(h, 3) + d;
    hide HeaderUpTo;
    Assoc(a + b, c, d);
    Assoc(a, b, c + d);
    hide HeaderPiece, PutInt16, PutBool, PutInt32;
    assert PutFileHeader(h) == a + (b + (c + d)) by { Pieces(h); }
  }

  lemma Pieces(h: FileHeader)
    ensures PutFileHeader(h) == HeaderPiece(h, 0) + (HeaderPiece(h, 1) + (HeaderPiece(h, 2) + HeaderPiece(h, 3)))
  {
    hide PutInt16, PutBool, PutInt32;
  }

  lemma {:induction false} UpToIsPrefix(h: FileHeader, k: nat, j: nat)
    requires k <= j <= 4
    ensures HeaderUpTo(h, k) <= HeaderUpTo(h, j)
    decreases j
  {
    if k < j { UpToIsPrefix(h, k, j - 1); }
    hide HeaderPiece;
  }

  /** Cut anywhere in its four writes, the header is a prefix of itself. */
  lemma HeaderPart(h: FileHeader, k: nat, n: nat)
    requires k < 4 && n <= |HeaderPiece(h, k)|
    ensures HeaderUpTo(h, k) + HeaderPiece(h, k)[..n] <= PutFileHeader(h)
    ensures n == |HeaderPiece(h, k)| ==> HeaderUpTo(h, k) + HeaderPiece(h, k)[..n] == HeaderUpTo(h, k + 1)
  {
    HeaderIsPieces(h);
    UpToIsPrefix(h, k + 1, 4);
    assert HeaderUpTo(h, k + 1) == HeaderUpTo(h, k) + HeaderPiece(h, k);
    hide HeaderUpTo, HeaderPiece, PutFileHeader;
  }

  lemma BeginOk(x: Session, r: Record, bytes: seq<Byte>)
    requires SessionOk(x) && x.headed && bytes <= Frame(r) && |bytes| < |Frame(r)|
    ensures Begin(x, r, bytes).headed && !Begin(x, r, bytes).spoiled ==> WellFormed(Begin(x, r, bytes))
  {
    hide Frame, Frames, PutFileHeader;
    if x.part == [] && !x.spoiled {
      NoMore(Frames(x.records));
      Assoc(PutFileHeader(x.header), Frames(x.records), bytes);
    }
  }

  lemma BegunOk(x: Session, r: Record)
    requires SessionOk(x) && x.headed && x.mutex.Some? && (!x.failed ==> x.part == [])
    ensures SessionOk(Begun(x, r))
  {
    FrameIsWhole(r);
    hide Frame, Payload, Checksum, Trailer, WellFormed;
    BeginOk(x, r, Payload(r));
  }

  lemma BegunShortOk(x: Session, r: Record, n: nat)
    requires SessionOk(x) && x.headed && n <= |Payload(r)|
    ensures SessionOk(BegunShort(x, r, n))
  {
    FrameIsWhole(r);
    hide Frame, Payload, Checksum, Trailer;
    BeginOk(x, r, Payload(r)[..n]);
    hide Frames, PutFileHeader;
  }

  lemma {:induction false} FramesSnoc(rs: seq<Record>, r: Record)
    ensures Frames(rs + [r]) == Frames(rs) + Frame(r)
  {
    hide Frame;
    FramesSplit(rs + [r], |rs|);
    assert (rs + [r])[..|rs|] == rs && (rs + [r])[|rs|..] == [r];
    OneFrame(r);
  }

  lemma CompletedOk(x: Session, r: Record)
    requires SessionOk(x) && x.headed && x.part == Payload(r) && (!x.failed ==> x.locked == x.records + [r])
    ensures SessionOk(Completed(x, r))
  {
    FrameIsWhole(r);
    FramesSnoc(x.records, r);
    hide Frame, Frames, Payload, Checksum, Trailer, PutFileHeader;
    var head, all, trailer := PutFileHeader(x.header), Frames(x.records), Trailer(Checksum(Payload(r)));
    if !x.spoiled {
      Assoc(head, all + x.part, trailer);
      Assoc(all, x.part, trailer);
      NoMore(all + Frame(r));
    }
  }

  lemma CompletedShortOk(x: Session, r: Record, n: nat)
    requires SessionOk(x) && x.headed && x.part == Payload(r) && x.last == Some(r) && n < 4
    ensures SessionOk(CompletedShort(x, r, n))
  {
    FrameIsWhole(r);
    hide Frame, Frames, Payload, Checksum, Trailer, PutFileHeader;
    var head, all, torn := PutFileHeader(x.header), Frames(x.records), Trailer(Checksum(Payload(r)))[..n];
    if !x.spoiled {
      Assoc(head, all + x.part, torn);
      Assoc(all, x.part, torn);
      assert Frame(r)[..|x.part + torn|] == x.part + torn;
    }
  }

  // ---- one step -------------------------------------------------------------------------

  predicate FileStepOk(s: State, t: nat, pc: Pc, f: nat, x: Session) {
    && Inside(s, t) && f < |s.files| && HoldsShared(s.pcs[t]) && HoldsShared(pc) && s.current == Some(f)
    && (s.files[f].mutex == Some(t) || (s.files[f].mutex.None? && !InFile(s.pcs[t])))
    && x.closed == s.files[f].closed && x.headed == s.files[f].headed
    && (if InFile(pc) then pc.file == f && x.mutex == Some(t) else x.mutex.None?)
  }

  lemma FileStepLocks(s: State, t: nat, pc: Pc, f: nat, x: Session)
    requires FileStepOk(s, t, pc, f, x) && LocksOk(s) && CurrentOk(s)
    ensures LocksOk(To(Put(s, f, x), t, pc)) && CurrentOk(To(Put(s, f, x), t, pc))
  {
  }

  lemma FileStepPc(s: State, t: nat, pc: Pc, f: nat, x: Session, u: nat)
    requires FileStepOk(s, t, pc, f, x) && LocksOk(s) && Inside(s, u) && u != t && PcOk(s, u)
    ensures PcOk(To(Put(s, f, x), t, pc), u)
  {
    hide Payload, HeaderUpTo;
  }

  lemma FileStepFile(s: State, t: nat, pc: Pc, f: nat, x: Session, g: nat)
    requires FileStepOk(s, t, pc, f, x) && LocksOk(s) && SessionOk(x) && PcOk(s, t) && g < |s.files| && FileOk(s, g)
    ensures FileOk(To(Put(s, f, x), t, pc), g)
  {
    hide SessionOk, Payload, HeaderUpTo;
  }

  /** A step inside the file's mutex: only the goroutine's place and its file change. */
  lemma FileStep(s: State, t: nat, pc: Pc, f: nat, x: Session)
    requires Sound(s) && FileStepOk(s, t, pc, f, x) && SessionOk(x) && PcOk(To(Put(s, f, x), t, pc), t)
    ensures Sound(To(Put(s, f, x), t, pc))
  {
    var n := To(Put(s, f, x), t, pc);
    hide SessionOk, FileStepOk, LocksOk, CurrentOk, PcOk, FileOk;
    FileStepLocks(s, t, pc, f, x);
    forall u | 0 <= u < |n.pcs| ensures PcOk(n, u) {
      if u != t { FileStepPc(s, t, pc, f, x, u); }
    }
    forall g | 0 <= g < |n.files| ensures FileOk(n, g) {
      FileStepFile(s, t, pc, f, x, g);
    }
  }

  /** A step on the sink's lock alone. */
  lemma LockStep(s: State, t: nat, pc: Pc, exclusive: Option<nat>, shared: set<nat>)
    requires Sound(s) && Inside(s, t) && !InFile(s.pcs[t]) && !s.pcs[t].Heading?
    requires !InFile(pc) && !pc.Heading? && (pc.Waiting? ==> s.current == Some(pc.file))
    requires exclusive == s.exclusive || s.exclusive.None? || s.exclusive == Some(t)
    requires LocksOk(To(s.(exclusive := exclusive, shared := shared), t, pc))
    ensures Sound(To(s.(exclusive := exclusive, shared := shared), t, pc))
  {
    var n := To(s.(exclusive := exclusive, shared := shared), t, pc);
    hide SessionOk, Frame, Payload, HeaderUpTo, WellFormed;
    forall u | 0 <= u < |n.pcs| ensures PcOk(n, u) {
      if u != t { assert PcOk(s, u); }
    }
    forall g | 0 <= g < |n.files| ensures FileOk(n, g) {
      assert FileOk(s, g);
    }
  }

  lemma SoundParts(s: State, t: nat, f: nat)
    requires Sound(s) && Inside(s, t) && f < |s.files|
    ensures PcOk(s, t) && FileOk(s, f) && LocksOk(s) && CurrentOk(s)
  {
    hide PcOk, FileOk, LocksOk, CurrentOk;
  }

  lemma LockedOk(x: Session, t: nat, r: Record)
    requires SessionOk(x) && x.headed && x.mutex.None?
    ensures SessionOk(x.(mutex := Some(t), locked := x.locked + [r]))
  {
    hide Frame, Frames, PutFileHeader;
  }

  lemma LockFileAction(s: State, a: Action)
    requires Sound(s) && Enabled(s, a) && a.LockFile?
    ensures Sound(After(s, a))
  {
    hide Frame, Payload, HeaderUpTo, WellFormed, LocksOk, SessionOk, Sound;
    var t, pc := a.t, s.pcs[a.t];
    var x := s.files[pc.file];
    SoundParts(s, t, pc.file);
    LockedOk(x, t, pc.record);
    if !x.failed { NotFailed(x); }
    FileStep(s, t, Writing(pc.file, pc.record), pc.file, x.(mutex := Some(t), locked := x.locked + [pc.record]));
  }

  lemma NotFailed(x: Session)
    requires SessionOk(x) && !x.failed && x.mutex.None?
    ensures x.part == [] && x.locked == x.records
  {
    hide Frame, Frames, PutFileHeader;
  }

  lemma WritePayloadAction(s: State, a: Action)
    requires Sound(s) && Enabled(s, a) && a.WritePayload?
    ensures Sound(After(s, a))
  {
    hide Frame, Payload, HeaderUpTo, WellFormed, LocksOk, SessionOk, Sound;
    var t, pc := a.t, s.pcs[a.t];
    var x := s.files[pc.file];
    SoundParts(s, t, pc.file);
    BegunOk(x, pc.record);
    FileStep(s, t, Trailing(pc.file, pc.record), pc.file, Begun(x, pc.record));
  }

  lemma FailPayloadAction(s: State, a: Action)
    requires Sound(s) && Enabled(s, a) && a.FailPayload?
    ensures Sound(After(s, a))
  {
    hide Frame, Payload, HeaderUpTo, WellFormed, LocksOk, SessionOk, Sound;
    var t, pc := a.t, s.pcs[a.t];
    var x := s.files[pc.file];
    SoundParts(s, t, pc.file);
    BegunShortOk(x, pc.record, a.n);
    FileStep(s, t, Leaving, pc.file, BegunShort(x, pc.record, a.n));
  }

  lemma WriteTrailerAction(s: State, a: Action)
    requires Sound(s) && Enabled(s, a) && a.WriteTrailer?
    ensures Sound(After(s, a))
  {
    hide Frame, Payload, HeaderUpTo, WellFormed, LocksOk, SessionOk, Sound;
    var t, pc := a.t, s.pcs[a.t];
    var x := s.files[pc.file];
    SoundParts(s, t, pc.file);
    CompletedOk(x, pc.record);
    FileStep(s, t, Leaving, pc.file, Completed(x, pc.record));
  }

  lemma FailTrailerAction(s: State, a: Action)
    requires Sound(s) && Enabled(s, a) && a.FailTrailer?
    ensures Sound(After(s, a))
  {
    hide Frame, Payload, HeaderUpTo, WellFormed, LocksOk, SessionOk, Sound;
    var t, pc := a.t, s.pcs[a.t];
    var x := s.files[pc.file];
    SoundParts(s, t, pc.file);
    CompletedShortOk(x, pc.record, a.n);
    FileStep(s, t, Leaving, pc.file, CompletedShort(x, pc.record, a.n));
  }

  /** One goroutine takes or gives back a lock, and nothing else about the locks changes. */
  lemma Relock(s: State, n: State, t: nat, pc: Pc)
    requires LocksOk(s) && Inside(s, t) && n.pcs == s.pcs[t := pc]
    requires (HoldsShared(pc) <==> t in n.shared) && n.shared - {t} == s.shared - {t}
    requires HoldsExclusive(pc) <==> n.exclusive == Some(t)
    requires n.exclusive == s.exclusive || (s.exclusive.None? && n.exclusive == Some(t)) || (s.exclusive == Some(t) && n.exclusive.None?)
    requires n.exclusive.Some? ==> n.shared == {}
    ensures LocksOk(n)
  {
    hide HoldsShared, HoldsExclusive;
    forall u | 0 <= u < |n.pcs| ensures HoldsShared(n.pcs[u]) <==> u in n.shared {
      assert u != t ==> (u in n.shared <==> u in n.shared - {t}) && (u in s.shared <==> u in s.shared - {t});
    }
    forall u | u in n.shared ensures u < |n.pcs| {
      assert u != t ==> u in s.shared - {t};
    }
  }

  lemma LocksOf(s: State, t: nat)
    requires Sound(s) && Inside(s, t)
    ensures LocksOk(s)
    ensures (HoldsShared(s.pcs[t]) <==> t in s.shared) && (HoldsExclusive(s.pcs[t]) <==> s.exclusive == Some(t))
    ensures s.exclusive.Some? ==> s.shared == {}
  {
    hide PcOk, FileOk, CurrentOk;
  }

  lemma LockTo(s: State, t: nat, pc: Pc, exclusive: Option<nat>, shared: set<nat>)
    requires Sound(s) && Inside(s, t) && !InFile(s.pcs[t]) && !s.pcs[t].Heading?
    requires !InFile(pc) && !pc.Heading? && (pc.Waiting? ==> s.current == Some(pc.file))
    requires (HoldsShared(pc) <==> t in shared) && shared - {t} == s.shared - {t}
    requires HoldsExclusive(pc) <==> exclusive == Some(t)
    requires exclusive == s.exclusive || (s.exclusive.None? && exclusive == Some(t)) || (s.exclusive == Some(t) && exclusive.None?)
    requires exclusive.Some? ==> shared == {}
    ensures Sound(To(s.(exclusive := exclusive, shared := shared), t, pc))
  {
    LocksOf(s, t);
    hide Sound, LocksOk, HoldsShared, HoldsExclusive;
    Relock(s, To(s.(exclusive := exclusive, shared := shared), t, pc), t, pc);
    LockStep(s, t, pc, exclusive, shared);
  }

  lemma LockActions(s: State, a: Action)
    requires Sound(s) && Enabled(s, a)
    requires a.LockShared? || a.Look? || a.UnlockShared? || a.LockEnable? || a.FailCreate? || a.LockDisable? || (a.Create? && s.current.Some?)
    ensures Sound(After(s, a))
  {
    var t, pc := a.t, s.pcs[a.t];
    LocksOf(s, t);
    hide Sound, LocksOk, Payload, HeaderPiece;
    match a
    case LockShared(_, r) => LockTo(s, t, Entered(r), s.exclusive, s.shared + {t});
    case Look(_) => LockTo(s, t, if s.current.None? then Leaving else Waiting(s.current.value, pc.record), s.exclusive, s.shared);
    case UnlockShared(_) => LockTo(s, t, Idle, s.exclusive, s.shared - {t});
    case LockEnable(_, decrypted) => LockTo(s, t, Enabling(decrypted), Some(t), s.shared);
    case Create(_) => LockTo(s, t, Idle, None, s.shared);
    case FailCreate(_) => LockTo(s, t, Idle, None, s.shared);
    case LockDisable(_) => LockTo(s, t, Disabling, Some(t), s.shared);
  }

  /** While one goroutine holds the lock for writing, no other is anywhere but idle. */
  lemma OnlyOne(s: State, t: nat, u: nat)
    requires LocksOk(s) && s.exclusive == Some(t) && Inside(s, u) && u != t
    ensures s.pcs[u].Idle?
  {
  }

  lemma CreateSession(s: State, a: Action)
    requires Sound(s) && Enabled(s, a) && a.Create? && s.current.None?
    ensures Sound(After(s, a))
  {
    var n := After(s, a);
    assert LocksOk(s);
    assert HeaderUpTo(FileHeader(s.pcs[a.t].decrypted, -1), 0) == [];
    hide Frame, Payload, WellFormed, HeaderUpTo, PutFileHeader;
    forall u | 0 <= u < |n.pcs| ensures PcOk(n, u) {
      if u != a.t { OnlyOne(s, a.t, u); }
    }
    forall g | 0 <= g < |n.files| ensures FileOk(n, g) {
      if g < |s.files| { assert FileOk(s, g); hide SessionOk; }
    }
  }

  lemma HeaderSession(x: Session, k: nat, n: nat)
    requires SessionOk(x) && !x.headed && k < 4 && x.bytes == HeaderUpTo(x.header, k) && n <= |HeaderPiece(x.header, k)|
    ensures SessionOk(x.(bytes := x.bytes + HeaderPiece(x.header, k)[..n], closed := true))
    ensures n == |HeaderPiece(x.header, k)| ==> SessionOk(x.(bytes := x.bytes + HeaderPiece(x.header, k), headed := k == 3))
    ensures n == |HeaderPiece(x.header, k)| ==> x.bytes + HeaderPiece(x.header, k) == HeaderUpTo(x.header, k + 1)
  {
    HeaderPart(x.header, k, n);
    HeaderIsPieces(x.header);
    hide HeaderUpTo, HeaderPiece, PutFileHeader, Frame;
    if n == |HeaderPiece(x.header, k)| {
      assert HeaderPiece(x.header, k)[..n] == HeaderPiece(x.header, k);
      NoMore(PutFileHeader(x.header));
      NoMore<Byte>([]);
    }
  }

  lemma HeaderActions(s: State, a: Action)
    requires Sound(s) && Enabled(s, a) && (a.WriteHeader? || a.FailHeader?)
    ensures Sound(After(s, a))
  {
    var n, t := After(s, a), a.t;
    hide SessionOk, HeaderUpTo, HeaderPiece, PutFileHeader, Payload, PcOk, FileOk;
    HeaderKeepsLocks(s, a);
    HeaderKeepsCurrent(s, a);
    assert LocksOk(s);
    forall u | 0 <= u < |n.pcs| ensures PcOk(n, u) {
      if u == t { HeaderKeepsPc(s, a); } else { OnlyOne(s, t, u); IdleIsOk(n, u); }
    }
    forall g | 0 <= g < |n.files| ensures FileOk(n, g) {
      HeaderKeepsFile(s, a, g);
    }
  }

  lemma IdleIsOk(s: State, u: nat)
    requires Inside(s, u) && s.pcs[u].Idle?
    ensures PcOk(s, u)
  {
  }

  lemma HeaderKeepsLocks(s: State, a: Action)
    requires Sound(s) && Enabled(s, a) && (a.WriteHeader? || a.FailHeader?)
    ensures LocksOk(After(s, a))
  {
    LocksOf(s, a.t);
    hide Sound, LocksOk, HeaderPiece;
    Relock(s, After(s, a), a.t, After(s, a).pcs[a.t]);
  }

  lemma HeaderKeepsCurrent(s: State, a: Action)
    requires Sound(s) && Enabled(s, a) && (a.WriteHeader? || a.FailHeader?)
    ensures CurrentOk(After(s, a))
  {
    SoundParts(s, a.t, s.pcs[a.t].file);
    hide Sound, LocksOk, SessionOk, HeaderUpTo, HeaderPiece, FileOk;
  }

  lemma HeaderKeepsPc(s: State, a: Action)
    requires Sound(s) && Enabled(s, a) && (a.WriteHeader? || a.FailHeader?)
    ensures PcOk(After(s, a), a.t)
  {
    var pc := s.pcs[a.t];
    SoundParts(s, a.t, pc.file);
    var x := s.files[pc.file];
    HeaderSession(x, pc.piece, |HeaderPiece(x.header, pc.piece)|);
    hide Sound, LocksOk, SessionOk, HeaderUpTo, HeaderPiece;
  }

  lemma HeaderKeepsFile(s: State, a: Action, g: nat)
    requires Sound(s) && Enabled(s, a) && (a.WriteHeader? || a.FailHeader?) && g < |s.files|
    ensures FileOk(After(s, a), g)
  {
    var pc := s.pcs[a.t];
    SoundParts(s, a.t, pc.file);
    SoundParts(s, a.t, g);
    var x := s.files[pc.file];
    HeaderSession(x, pc.piece, if a.FailHeader? then a.n else |HeaderPiece(x.header, pc.piece)|);
    hide Sound, SessionOk, HeaderUpTo, HeaderPiece, PutFileHeader;
  }

  lemma ShutSession(s: State, a: Action)
    requires Sound(s) && Enabled(s, a) && a.Shut?
    ensures Sound(After(s, a))
  {
    var n := After(s, a);
    assert LocksOk(s);
    hide Frame, Payload, WellFormed, HeaderUpTo, PutFileHeader;
    forall u | 0 <= u < |n.pcs| ensures PcOk(n, u) {
      if u != a.t { OnlyOne(s, a.t, u); }
    }
    forall g | 0 <= g < |n.files| ensures FileOk(n, g) {
      assert FileOk(s, g);
    }
  }

  lemma StepKeepsSound(s: State, a: Action)
    requires Sound(s) && Enabled(s, a)
    ensures Sound(After(s, a))
  {
    hide *;
    match a
    case LockShared(_, _) => LockActions(s, a);
    case Look(_) => LockActions(s, a);
    case LockFile(_) => LockFileAction(s, a);
    case WritePayload(_) => WritePayloadAction(s, a);
    case FailPayload(_, _) => FailPayloadAction(s, a);
    case WriteTrailer(_) => WriteTrailerAction(s, a);
    case FailTrailer(_, _) => FailTrailerAction(s, a);
    case UnlockShared(_) => LockActions(s, a);
    case LockEnable(_, _) => LockActions(s, a);
    case Create(_) => if s.current.Some? { LockActions(s, a); } else { CreateSession(s, a); }
    case FailCreate(_) => LockActions(s, a);
    case WriteHeader(_) => HeaderActions(s, a);
    case FailHeader(_, _) => HeaderActions(s, a);
    case LockDisable(_) => LockActions(s, a);
    case Shut(_) => ShutSession(s, a);
  }

  // ---- every run ----------------------------------------------------------------------------

  lemma FreshIsSound(n: nat)
    ensures Sound(Fresh(n))
  {
  }

  lemma {:induction false} RunKeepsSound(s: State, steps: seq<Action>)
    requires Sound(s) && Runs(s, steps)
    ensures Sound(Ran(s, steps))
    decreases |steps|
  {
    hide Sound, Enabled, After;
    if steps != [] {
      StepKeepsSound(s, steps[0]);
      RunKeepsSound(After(s, steps[0]), steps[1..]);
    }
  }

  /** The one file a step may write, close or lock. */
  function Touched(s: State, a: Action): Option<nat>
    requires Inside(s, a.t)
  {
    match s.pcs[a.t]
    case Waiting(f, _) => Some(f)
    case Writing(f, _) => Some(f)
    case Trailing(f, _) => Some(f)
    case Heading(f, _) => Some(f)
    case Disabling => s.current
    case _ => None
  }

  lemma OthersUntouched(s: State, a: Action, f: nat)
    requires Enabled(s, a) && f < |s.files| && Touched(s, a) != Some(f)
    ensures f < |After(s, a).files| && After(s, a).files[f] == s.files[f]
  {
    hide Payload, HeaderPiece, Begun, BegunShort, Completed, CompletedShort, NewSession;
  }

  lemma TouchedIsOpen(s: State, a: Action, f: nat)
    requires Sound(s) && Enabled(s, a) && f < |s.files| && Touched(s, a) == Some(f)
    ensures !s.files[f].closed
  {
    SoundParts(s, a.t, f);
    hide Sound, LocksOk, FileOk, Payload, HeaderUpTo, HeaderPiece;
  }

  /** A step leaves a closed session as it is, and never opens it again. */
  lemma ClosedStaysClosed(s: State, a: Action, f: nat)
    requires Sound(s) && Enabled(s, a) && f < |s.files| && s.files[f].closed
    ensures f < |After(s, a).files| && After(s, a).files[f] == s.files[f]
  {
    assert Inside(s, a.t);
    hide *;
    if Touched(s, a) == Some(f) {
      TouchedIsOpen(s, a, f);
    } else {
      OthersUntouched(s, a, f);
    }
  }

  lemma {:induction false} ClosedForGood(s: State, steps: seq<Action>, f: nat)
    requires Sound(s) && Runs(s, steps) && f < |s.files| && s.files[f].closed
    ensures f < |Ran(s, steps).files| && Ran(s, steps).files[f] == s.files[f]
    decreases |steps|
  {
    hide Sound, Enabled, After;
    if steps != [] {
      StepKeepsSound(s, steps[0]);
      ClosedStaysClosed(s, steps[0], f);
      ClosedForGood(After(s, steps[0]), steps[1..], f);
    }
  }

  lemma OneOpen(s: State, f: nat, g: nat)
    requires Sound(s) && f < |s.files| && g < |s.files| && !s.files[f].closed && !s.files[g].closed
    ensures f == g
  {
    assert FileOk(s, f) && FileOk(s, g);
    if s.exclusive.Some? { assert PcOk(s, s.exclusive.value); }
    hide SessionOk, HeaderUpTo, Payload, LocksOk;
  }

  /** Runs from a sink just made: no session is written once it is closed, and at most one is open. */
  lemma SessionsOpenOneAtATime(n: nat, before: seq<Action>, after: seq<Action>, f: nat, g: nat)
    requires Runs(Fresh(n), before) && Runs(Ran(Fresh(n), before), after)
    requires var s := Ran(Fresh(n), before); f < |s.files| && g < |s.files|
    ensures var s := Ran(Fresh(n), before);
      !s.files[f].closed && !s.files[g].closed ==> f == g
    ensures var s, e := Ran(Fresh(n), before), Ran(Ran(Fresh(n), before), after);
      s.files[f].closed ==> f < |e.files| && e.files[f] == s.files[f]
  {
    hide *;
    FreshIsSound(n);
    RunKeepsSound(Fresh(n), before);
    var s := Ran(Fresh(n), before);
    if !s.files[f].closed && !s.files[g].closed { OneOpen(s, f, g); }
    if s.files[f].closed { ClosedForGood(s, after, f); }
  }

  // ---- what a session reads back to -----------------------------------------------------------

  predicate SizedSession(x: Session) {
    AllSized(x.records) && (x.last.Some? ==> Typed(x.last.value) && WellSized(x.last.value))
  }

  lemma PartCut(head: seq<Byte>, all: seq<Byte>, frame: seq<Byte>, n: nat)
    requires n <= |frame|
    ensures head + (all + frame[..n]) == (head + (all + frame))[..|head| + |all| + n]
  {
  }

  /** A session with no part left: its records, then the clean end. */
  lemma WholeReadsBack(x: Session)
    requires SessionOk(x) && x.headed && !x.spoiled && SizedSession(x) && x.part == []
    ensures ReadFileHeader(x.bytes) == Opened(x.header, 11) && ReadAll(x.bytes, 11) == Wholes(x.records, 11) + [AtEnd]
  {
    hide ReadAll, ReadFileHeader, Wholes, Frames, PutFileHeader, AllSized, Typed, WellSized, Frame;
    NoMore(Frames(x.records));
    SessionReadsBack(x.header, x.records);
  }

  lemma StandsAfterHeader(h: FileHeader, rs: seq<Record>)
    ensures |PutFileHeader(h)| == 11 && Holds(PutFileHeader(h) + Frames(rs), 0, PutFileHeader(h)) && Holds(PutFileHeader(h) + Frames(rs), 11, Frames(rs))
  {
    var s := PutFileHeader(h) + Frames(rs);
    HeaderIsEleven(h);
    hide PutFileHeader, Frames;
    HoldsItself(s);
    HoldsConcat(s, 0, PutFileHeader(h), Frames(rs));
  }

  lemma PartBounds(rs: seq<Record>, r: Record, n: nat)
    requires 0 < n < |Frame(r)|
    ensures var all := rs + [r];
      && all[..|rs|] == rs && Start(all, |rs|, 11) == 11 + |Frames(rs)|
      && Start(all, |rs|, 11) < 11 + |Frames(rs)| + n < Start(all, |rs| + 1, 11)
  {
    hide Frame, Frames;
    var all := rs + [r];
    assert all[..|rs|] == rs && all[..|rs| + 1] == all;
    FramesSnoc(rs, r);
  }

  /** The bytes of such a session are those of a longer one, cut. */
  lemma PartIsCut(x: Session)
    requires SessionOk(x) && x.headed && !x.spoiled && x.part != []
    ensures x.last.Some? && 0 < |x.part| < |Frame(x.last.value)|
    ensures 11 + |Frames(x.records)| + |x.part| <= |PutFileHeader(x.header) + Frames(x.records + [x.last.value])|
    ensures x.bytes == (PutFileHeader(x.header) + Frames(x.records + [x.last.value]))[..11 + |Frames(x.records)| + |x.part|]
  {
    hide *;
    PartIs(x);
    var r, n := x.last.value, |x.part|;
    FramesSnoc(x.records, r);
    PartCut(PutFileHeader(x.header), Frames(x.records), Frame(r), n);
  }

  lemma PartIs(x: Session)
    requires SessionOk(x) && x.headed && !x.spoiled && x.part != []
    ensures x.last.Some? && |x.part| < |Frame(x.last.value)| && |PutFileHeader(x.header)| == 11
    ensures x.bytes == PutFileHeader(x.header) + (Frames(x.records) + Frame(x.last.value)[..|x.part|])
  {
    hide Frame, Frames;
    HeaderIsEleven(x.header);
    hide PutFileHeader;
  }

  lemma OneMore(x: Session)
    requires SizedSession(x) && x.last.Some?
    ensures AllSized(x.records + [x.last.value])
  {
    hide Typed, WellSized;
  }

  /** A session left with a part: its records, then a truncation. */
  lemma PartReadsBack(x: Session)
    requires SessionOk(x) && x.headed && !x.spoiled && SizedSession(x) && x.part != []
    ensures ReadFileHeader(x.bytes) == Opened(x.header, 11) && ReadAll(x.bytes, 11) == Wholes(x.records, 11) + [Truncated]
  {
    hide *;
    PartIsCut(x);
    OneMore(x);
    HeaderOfSession(x);
    var rs := x.records + [x.last.value];
    var s, c := PutFileHeader(x.header) + Frames(rs), 11 + |Frames(x.records)| + |x.part|;
    StandsAfterHeader(x.header, rs);
    PartBounds(x.records, x.last.value, |x.part|);
    SessionCutInside(s, 11, rs, |x.records|, c);
    HoldsCut(s, 0, PutFileHeader(x.header), c);
    HeaderReadsBack(x.bytes, x.header);
  }

  lemma HeaderOfSession(x: Session)
    requires SessionOk(x)
    ensures x.header.count == -1
  {
    hide WellFormed, PutFileHeader;
  }

  /**
   A crash anywhere in any run: every session file that is headed and never had a record begun after a failed
   write reads back to exactly the records it completed, in lock order, then a clean end or one truncated record.
   */
  lemma CrashReadsBack(n: nat, steps: seq<Action>, f: nat)
    requires Runs(Fresh(n), steps) && f < |Ran(Fresh(n), steps).files|
    requires var x := Ran(Fresh(n), steps).files[f]; x.headed && !x.spoiled && SizedSession(x)
    ensures var x := Ran(Fresh(n), steps).files[f];
      && ReadFileHeader(x.bytes) == Opened(x.header, 11)
      && ReadAll(x.bytes, 11) == Wholes(x.records, 11) + [if x.part == [] then AtEnd else Truncated]
      && (!x.failed && x.mutex.None? ==> x.locked == x.records && x.part == [])
  {
    hide *;
    FreshIsSound(n);
    RunKeepsSound(Fresh(n), steps);
    SoundFile(Ran(Fresh(n), steps), f);
    var x := Ran(Fresh(n), steps).files[f];
    if x.part == [] { WholeReadsBack(x); } else { PartReadsBack(x); }
    if !x.failed && x.mutex.None? { NotFailed(x); }
  }

  lemma SoundFile(s: State, f: nat)
    requires Sound(s) && f < |s.files|
    ensures SessionOk(s.files[f]) && (s.files[f].spoiled ==> s.files[f].failed)
  {
    assert FileOk(s, f);
    hide Sound, WellFormed;
  }

  /** A file whose header was cut short is not opened. */
  lemma CrashInHeader(n: nat, steps: seq<Action>, f: nat)
    requires Runs(Fresh(n), steps) && f < |Ran(Fresh(n), steps).files|
    ensures var x := Ran(Fresh(n), steps).files[f];
      !x.headed ==> x.bytes <= PutFileHeader(x.header) && (|x.bytes| < 11 ==> ReadFileHeader(x.bytes) == HeaderShort)
  {
    hide *;
    FreshIsSound(n);
    RunKeepsSound(Fresh(n), steps);
    SoundFile(Ran(Fresh(n), steps), f);
    var x := Ran(Fresh(n), steps).files[f];
    if !x.headed { ShortHeader(x); }
  }

  lemma ShortHeader(x: Session)
    requires SessionOk(x) && !x.headed
    ensures x.bytes <= PutFileHeader(x.header) && (|x.bytes| < 11 ==> ReadFileHeader(x.bytes) == HeaderShort)
  {
    var head := PutFileHeader(x.header);
    HoldsItself(head);
    assert x.bytes == head[..|x.bytes|];
    hide WellFormed, ReadFileHeader, PutFileHeader, Holds;
    if |x.bytes| < 11 { HeaderCut(head, x.header, |x.bytes|); }
  }
}
