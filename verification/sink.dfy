/**
 The storage sink and its session writers, run by any number of goroutines: every lock acquisition, file
 write, close and failure is one step, so a crash may fall between any two of them.
 */
module Sink {
  import opened Text
  import opened Bytes
  import opened Crc32c
  import opened Capture
  import opened CaptureRoundTrip
  import opened CaptureDamage

  /**
   One capture file. `records` were written whole, in the order their writers took the file's mutex, and
   `locked` lists every record that took it; `part` is what a record begun and not finished left behind.
   A session is spoiled once a record is begun after such a part.
   */
  datatype Session = Session(
    header: FileHeader, bytes: seq<Byte>, headed: bool, closed: bool, mutex: Option<nat>,
    records: seq<Record>, locked: seq<Record>, last: Option<Record>, part: seq<Byte>, failed: bool, spoiled: bool)

  /** Where a goroutine is. */
  datatype Pc =
    | Idle
    | Entered(record: Record)
    | Waiting(file: nat, record: Record)
    | Writing(file: nat, record: Record)
    | Trailing(file: nat, record: Record)
    | Leaving
    | Enabling(decrypted: bool)
    | Heading(file: nat, piece: nat)
    | Disabling

  /** `exclusive` holds the sink's lock for writing, `shared` hold it for reading. */
  datatype State = State(files: seq<Session>, current: Option<nat>, exclusive: Option<nat>, shared: set<nat>, pcs: seq<Pc>)

  datatype Action =
    | LockShared(t: nat, record: Record)
    | Look(t: nat)
    | LockFile(t: nat)
    | WritePayload(t: nat)
    | FailPayload(t: nat, n: nat)
    | WriteTrailer(t: nat)
    | FailTrailer(t: nat, n: nat)
    | UnlockShared(t: nat)
    | LockEnable(t: nat, decrypted: bool)
    | Create(t: nat)
    | FailCreate(t: nat)
    | WriteHeader(t: nat)
    | FailHeader(t: nat, n: nat)
    | LockDisable(t: nat)
    | Shut(t: nat)

  /** The four writes of the file header. */
  function HeaderPiece(h: FileHeader, k: nat): seq<Byte>
    requires k < 4
  {
    if k == 0 then MAGIC else if k == 1 then PutInt16(FORMAT_VERSION) else if k == 2 then PutBool(h.decrypted) else PutInt32(h.count)
  }

  /** What the first `k` of them leave. */
  function HeaderUpTo(h: FileHeader, k: nat): seq<Byte>
    requires k <= 4
  {
    if k == 0 then [] else HeaderUpTo(h, k - 1) + HeaderPiece(h, k - 1)
  }

  predicate Inside(s: State, t: nat) {
    t < |s.pcs|
  }

  /** The locks, the goroutine's place and the size of a short write allow the step. */
  predicate Enabled(s: State, a: Action) {
    Inside(s, a.t) &&
    var pc := s.pcs[a.t];
    match a
    case LockShared(_, _) => pc.Idle? && s.exclusive.None?
    case Look(_) => pc.Entered?
    case LockFile(_) => pc.Waiting? && pc.file < |s.files| && s.files[pc.file].mutex.None?
    case WritePayload(_) => pc.Writing? && pc.file < |s.files|
    case FailPayload(_, n) => pc.Writing? && pc.file < |s.files| && n <= |Payload(pc.record)|
    case WriteTrailer(_) => pc.Trailing? && pc.file < |s.files|
    case FailTrailer(_, n) => pc.Trailing? && pc.file < |s.files| && n < 4
    case UnlockShared(_) => pc.Leaving?
    case LockEnable(_, _) => pc.Idle? && s.exclusive.None? && s.shared == {}
    case Create(_) => pc.Enabling?
    case FailCreate(_) => pc.Enabling? && s.current.None?
    case WriteHeader(_) => pc.Heading? && pc.file < |s.files| && pc.piece < 4
    case FailHeader(_, n) => pc.Heading? && pc.file < |s.files| && pc.piece < 4 && n < |HeaderPiece(s.files[pc.file].header, pc.piece)|
    case LockDisable(_) => pc.Idle? && s.exclusive.None? && s.shared == {}
    case Shut(_) => pc.Disabling?
  }

  function Begin(x: Session, r: Record, bytes: seq<Byte>): Session {
    x.(bytes := x.bytes + bytes, part := bytes, last := Some(r), spoiled := x.spoiled || x.part != [])
  }

  /** WritePayload: the first of a record's two writes. */
  function Begun(x: Session, r: Record): Session {
    Begin(x, r, Payload(r))
  }

  function BegunShort(x: Session, r: Record, n: nat): Session
    requires n <= |Payload(r)|
  {
    Begin(x, r, Payload(r)[..n]).(mutex := None, failed := true)
  }

  /** WriteTrailer: the second write completes the record. */
  function Completed(x: Session, r: Record): Session {
    x.(bytes := x.bytes + Trailer(Checksum(Payload(r))), part := [], records := x.records + [r], mutex := None)
  }

  function CompletedShort(x: Session, r: Record, n: nat): Session
    requires n < 4
  {
    var torn := Trailer(Checksum(Payload(r)))[..n];
    x.(bytes := x.bytes + torn, part := x.part + torn, mutex := None, failed := true)
  }

  function NewSession(decrypted: bool): Session {
    Session(FileHeader(decrypted, -1), [], false, false, None, [], [], None, [], false, false)
  }

  function To(s: State, t: nat, pc: Pc): State
    requires Inside(s, t)
  {
    s.(pcs := s.pcs[t := pc])
  }

  function Put(s: State, f: nat, x: Session): State
    requires f < |s.files|
  {
    s.(files := s.files[f := x])
  }

  function After(s: State, a: Action): State
    requires Enabled(s, a)
  {
    var t, pc := a.t, s.pcs[a.t];
    match a
    case LockShared(_, r) => To(s.(shared := s.shared + {t}), t, Entered(r))
    case Look(_) => To(s, t, if s.current.None? then Leaving else Waiting(s.current.value, pc.record))
    case LockFile(_) =>
      var x := s.files[pc.file];
      To(Put(s, pc.file, x.(mutex := Some(t), locked := x.locked + [pc.record])), t, Writing(pc.file, pc.record))
    case WritePayload(_) => To(Put(s, pc.file, Begun(s.files[pc.file], pc.record)), t, Trailing(pc.file, pc.record))
    case FailPayload(_, n) => To(Put(s, pc.file, BegunShort(s.files[pc.file], pc.record, n)), t, Leaving)
    case WriteTrailer(_) => To(Put(s, pc.file, Completed(s.files[pc.file], pc.record)), t, Leaving)
    case FailTrailer(_, n) => To(Put(s, pc.file, CompletedShort(s.files[pc.file], pc.record, n)), t, Leaving)
    case UnlockShared(_) => To(s.(shared := s.shared - {t}), t, Idle)
    case LockEnable(_, decrypted) => To(s.(exclusive := Some(t)), t, Enabling(decrypted))
    case Create(_) =>
      if s.current.Some? then To(s.(exclusive := None), t, Idle)
      else To(s.(files := s.files + [NewSession(pc.decrypted)]), t, Heading(|s.files|, 0))
    case FailCreate(_) => To(s.(exclusive := None), t, Idle)
    case WriteHeader(_) =>
      var x := s.files[pc.file];
      var y := x.(bytes := x.bytes + HeaderPiece(x.header, pc.piece), headed := pc.piece == 3);
      if pc.piece < 3 then To(Put(s, pc.file, y), t, Heading(pc.file, pc.piece + 1))
      else To(Put(s, pc.file, y).(current := Some(pc.file), exclusive := None), t, Idle)
    case FailHeader(_, n) =>
      var x := s.files[pc.file];
      To(Put(s, pc.file, x.(bytes := x.bytes + HeaderPiece(x.header, pc.piece)[..n], closed := true)).(exclusive := None), t, Idle)
    case LockDisable(_) => To(s.(exclusive := Some(t)), t, Disabling)
    case Shut(_) =>
      if s.current.Some? && s.current.value < |s.files| then
        To(Put(s, s.current.value, s.files[s.current.value].(closed := true)).(current := None, exclusive := None), t, Idle)
      else To(s.(current := None, exclusive := None), t, Idle)
  }

  /** A sink that was just made, and `n` goroutines about to use it. */
  function Fresh(n: nat): State {
    State([], None, None, {}, seq(n, _ => Idle))
  }

  /** The steps of a run, each allowed where it is taken. */
  predicate Runs(s: State, steps: seq<Action>)
    decreases |steps|
  {
    steps == [] || (Enabled(s, steps[0]) && Runs(After(s, steps[0]), steps[1..]))
  }

  function Ran(s: State, steps: seq<Action>): State
    requires Runs(s, steps)
    decreases |steps|
  {
    if steps == [] then s else Ran(After(s, steps[0]), steps[1..])
  }

  // ---- what holds in every state ----------------------------------------------------

  predicate HoldsShared(pc: Pc) {
    pc.Entered? || pc.Waiting? || pc.Writing? || pc.Trailing? || pc.Leaving?
  }

  predicate HoldsExclusive(pc: Pc) {
    pc.Enabling? || pc.Heading? || pc.Disabling?
  }

  predicate LocksOk(s: State) {
    && (forall t :: 0 <= t < |s.pcs| ==> (HoldsShared(s.pcs[t]) <==> t in s.shared))
    && (forall t :: 0 <= t < |s.pcs| ==> (HoldsExclusive(s.pcs[t]) <==> s.exclusive == Some(t)))
    && (s.exclusive.Some? ==> s.shared == {} && s.exclusive.value < |s.pcs|)
    && (forall t :: t in s.shared ==> t < |s.pcs|)
  }

  predicate InFile(pc: Pc) {
    pc.Writing? || pc.Trailing?
  }

  /** The goroutine's file is the sink's current one, and its mutex is held while it writes. */
  predicate PcOk(s: State, t: nat)
    requires Inside(s, t)
  {
    match s.pcs[t]
    case Waiting(f, _) => s.current == Some(f)
    case Writing(f, r) =>
      && s.current == Some(f) && f < |s.files| && s.files[f].mutex == Some(t)
      && (!s.files[f].failed ==> s.files[f].part == [] && s.files[f].locked == s.files[f].records + [r])
    case Trailing(f, r) =>
      && s.current == Some(f) && f < |s.files| && s.files[f].mutex == Some(t)
      && s.files[f].part == Payload(r) && s.files[f].last == Some(r)
      && (!s.files[f].failed ==> s.files[f].locked == s.files[f].records + [r])
    case Heading(f, k) =>
      && s.current.None? && f < |s.files| && k < 4 && !s.files[f].closed && !s.files[f].headed
      && s.files[f].bytes == HeaderUpTo(s.files[f].header, k) && s.files[f].mutex.None?
    case _ => true
  }

  /** The header, whole records in lock order, and at most one record's beginning. */
  predicate WellFormed(x: Session) {
    && x.bytes == PutFileHeader(x.header) + (Frames(x.records) + x.part)
    && (x.part != [] ==> x.last.Some? && |x.part| < |Frame(x.last.value)| && x.part == Frame(x.last.value)[..|x.part|])
  }

  predicate SessionOk(x: Session) {
    && x.header.count == -1
    && (!x.headed ==> x.bytes <= PutFileHeader(x.header) && x.records == [] && x.part == [] && x.locked == [] && x.mutex.None?)
    && (x.headed && !x.spoiled ==> WellFormed(x))
    && (!x.failed && x.mutex.None? ==> x.part == [] && x.locked == x.records)
    && (x.spoiled ==> x.failed)
  }

  predicate FileOk(s: State, f: nat)
    requires f < |s.files|
  {
    var x := s.files[f];
    && SessionOk(x)
    && (x.mutex.Some? ==> Inside(s, x.mutex.value) && InFile(s.pcs[x.mutex.value]) && s.pcs[x.mutex.value].file == f)
    && (!x.closed ==> s.current == Some(f) || (s.exclusive.Some? && Inside(s, s.exclusive.value) && IsHeading(s.pcs[s.exclusive.value], f)))
  }

  predicate IsHeading(pc: Pc, f: nat) {
    pc.Heading? && pc.file == f
  }

  predicate CurrentOk(s: State) {
    s.current.Some? ==> s.current.value < |s.files| && !s.files[s.current.value].closed && s.files[s.current.value].headed
  }

  predicate Sound(s: State) {
    && LocksOk(s) && CurrentOk(s)
    && (forall t :: 0 <= t < |s.pcs| ==> PcOk(s, t))
    && (forall f :: 0 <= f < |s.files| ==> FileOk(s, f))
  }
}
