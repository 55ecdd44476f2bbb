/** What switching the sink on and off does: where a record written meanwhile goes, and that none goes anywhere else. */
module SinkSwitch {
  import opened Text
  import opened Bytes
  import opened Capture
  import opened Sink
  import opened SinkLaws

  // ---- off -------------------------------------------------------------------------------

  lemma SoundFiles(s: State)
    requires Sound(s)
    ensures LocksOk(s) && CurrentOk(s) && forall f :: 0 <= f < |s.files| ==> FileOk(s, f)
  {
    hide LocksOk, CurrentOk, FileOk, PcOk;
  }

  lemma ShutState(s: State, t: nat)
    requires Enabled(s, Shut(t)) && CurrentOk(s)
    ensures var e := After(s, Shut(t));
      && e.current.None? && e.exclusive.None? && e.pcs == s.pcs[t := Idle] && |e.files| == |s.files|
      && forall f :: 0 <= f < |s.files| ==> e.files[f] == if s.current == Some(f) then s.files[f].(closed := true) else s.files[f]
  {
    hide Payload, HeaderPiece;
  }

  lemma ClosedOrCurrent(s: State, t: nat, f: nat)
    requires f < |s.files| && FileOk(s, f) && Inside(s, t) && s.pcs[t].Disabling? && LocksOk(s)
    ensures s.files[f].closed || s.current == Some(f)
  {
    hide SessionOk;
  }

  /** Disable: no session is current any more, every file is closed, and nothing in any of them has changed. */
  lemma ShutCloses(n: nat, before: seq<Action>, t: nat)
    requires Runs(Fresh(n), before) && Enabled(Ran(Fresh(n), before), Shut(t))
    ensures var s, e := Ran(Fresh(n), before), After(Ran(Fresh(n), before), Shut(t));
      && e.current.None? && e.exclusive.None? && e.pcs[t].Idle? && |e.files| == |s.files|
      && forall f :: 0 <= f < |s.files| ==> e.files[f] == s.files[f].(closed := true)
  {
    var s := Ran(Fresh(n), before);
    assert Inside(s, t) && s.pcs[t].Disabling?;
    hide Sound, LocksOk, CurrentOk, FileOk, Enabled, After, Runs, Ran, Fresh;
    FreshIsSound(n);
    RunKeepsSound(Fresh(n), before);
    SoundFiles(s);
    ShutState(s, t);
    forall f | 0 <= f < |s.files| ensures After(s, Shut(t)).files[f] == s.files[f].(closed := true) {
      ClosedOrCurrent(s, t, f);
    }
  }

  /** Nothing is open, and no goroutine is at a file. */
  predicate Off(s: State) {
    s.current.None? && forall u :: 0 <= u < |s.pcs| ==> AwayFromFiles(s.pcs[u])
  }

  predicate AwayFromFiles(pc: Pc) {
    !pc.Waiting? && !pc.Writing? && !pc.Trailing? && !pc.Heading?
  }

  lemma NoCurrentNoWriter(s: State, u: nat)
    requires Inside(s, u) && PcOk(s, u) && s.current.None?
    ensures !s.pcs[u].Waiting? && !s.pcs[u].Writing? && !s.pcs[u].Trailing?
  {
    hide Payload, HeaderUpTo;
  }

  /** With no current session only a goroutine that makes one is at a file. */
  lemma OffIs(s: State)
    requires Sound(s) && s.current.None? && forall u :: 0 <= u < |s.pcs| ==> !s.pcs[u].Heading?
    ensures Off(s)
  {
    hide PcOk, LocksOk, CurrentOk, FileOk;
    forall u | 0 <= u < |s.pcs| ensures AwayFromFiles(s.pcs[u]) { NoCurrentNoWriter(s, u); }
  }

  lemma OffStep(s: State, a: Action)
    requires Off(s) && Enabled(s, a) && !a.Create?
    ensures Off(After(s, a)) && After(s, a).files == s.files
  {
    hide Payload, HeaderPiece;
  }

  lemma {:induction false} OffRun(s: State, steps: seq<Action>)
    requires Off(s) && Runs(s, steps) && forall i :: 0 <= i < |steps| ==> !steps[i].Create?
    ensures Off(Ran(s, steps)) && Ran(s, steps).files == s.files
    decreases |steps|
  {
    hide Off, Enabled, After;
    if steps != [] {
      OffStep(s, steps[0]);
      OffRun(After(s, steps[0]), steps[1..]);
    }
  }

  lemma ShutIsOff(n: nat, before: seq<Action>, t: nat)
    requires Runs(Fresh(n), before) && Enabled(Ran(Fresh(n), before), Shut(t))
    ensures Off(After(Ran(Fresh(n), before), Shut(t)))
  {
    var s := Ran(Fresh(n), before);
    assert Inside(s, t) && s.pcs[t].Disabling?;
    hide Sound, CurrentOk, FileOk, Enabled, After, Runs, Ran, Fresh, Off;
    FreshIsSound(n);
    RunKeepsSound(Fresh(n), before);
    SoundFiles(s);
    ShutState(s, t);
    StepKeepsSound(s, Shut(t));
    forall u | 0 <= u < |s.pcs| && u != t ensures s.pcs[u].Idle? { OnlyOne(s, t, u); }
    OffIs(After(s, Shut(t)));
  }

  /** From then on, until a session is made, no file changes in any way, and no goroutine waits for one. */
  lemma OffUntilCreated(n: nat, before: seq<Action>, t: nat, steps: seq<Action>)
    requires Runs(Fresh(n), before) && Enabled(Ran(Fresh(n), before), Shut(t))
    requires Runs(After(Ran(Fresh(n), before), Shut(t)), steps) && forall i :: 0 <= i < |steps| ==> !steps[i].Create?
    ensures var s, e := After(Ran(Fresh(n), before), Shut(t)), Ran(After(Ran(Fresh(n), before), Shut(t)), steps);
      e.files == s.files && Off(e)
  {
    hide *;
    ShutIsOff(n, before, t);
    OffRun(After(Ran(Fresh(n), before), Shut(t)), steps);
  }

  /** A writer of a sink that is off: it takes the lock, sees no session, and gives the lock back. */
  lemma WriterPasses(s: State, t: nat, r: Record)
    requires Off(s) && Enabled(s, LockShared(t, r))
    ensures var a := After(s, LockShared(t, r));
      && a.files == s.files && Enabled(a, Look(t))
      && var b := After(a, Look(t));
      && b.files == s.files && b.pcs[t] == Leaving && Enabled(b, UnlockShared(t))
      && After(b, UnlockShared(t)).files == s.files && After(b, UnlockShared(t)).pcs[t] == Idle
  {
    hide Payload, HeaderPiece;
  }

  // ---- on --------------------------------------------------------------------------------------

  /** While one goroutine holds the sink's lock for writing, every step is its own. */
  lemma OnlyHolderSteps(s: State, a: Action, t: nat)
    requires LocksOk(s) && s.exclusive == Some(t) && Enabled(s, a)
    ensures a.t == t
  {
    if a.t != t { OnlyOne(s, t, a.t); }
    hide Payload, HeaderPiece, LocksOk;
  }

  /** A session file as it is once its header is written. */
  function Opened(x: Session): Session {
    x.(bytes := HeaderUpTo(x.header, 4), headed := true)
  }

  lemma HeadOnce(s: State, t: nat, f: nat, k: nat, a: Action)
    requires Inside(s, t) && s.pcs[t] == Heading(f, k) && PcOk(s, t) && Enabled(s, a) && a.t == t && !a.FailHeader?
    ensures k < 4 && f < |s.files|
    ensures var x := s.files[f]; var y := x.(bytes := HeaderUpTo(x.header, k + 1), headed := k == 3); var n := After(s, a);
      && n.files == s.files[f := y]
      && if k < 3 then n.pcs == s.pcs[t := Heading(f, k + 1)] && n.exclusive == s.exclusive
         else n.pcs == s.pcs[t := Idle] && n.current == Some(f) && n.exclusive.None?
  {
    hide HeaderPiece, Payload;
    assert HeaderUpTo(s.files[f].header, k + 1) == HeaderUpTo(s.files[f].header, k) + HeaderPiece(s.files[f].header, k);
    hide HeaderUpTo;
  }

  lemma PcOf(s: State, t: nat)
    requires Sound(s) && Inside(s, t)
    ensures PcOk(s, t) && LocksOk(s)
  {
    hide PcOk, LocksOk, FileOk, CurrentOk;
  }

  /** The rest of a header, once it is begun. */
  lemma {:induction false} HeadRuns(s: State, t: nat, f: nat, k: nat, steps: seq<Action>)
    requires Sound(s) && Inside(s, t) && s.exclusive == Some(t) && s.pcs[t] == Heading(f, k) && f < |s.files|
    requires Runs(s, steps) && k + |steps| == 4 && steps != [] && forall i :: 0 <= i < |steps| ==> !steps[i].FailHeader?
    ensures var e := Ran(s, steps);
      e.files == s.files[f := Opened(s.files[f])] && e.current == Some(f) && e.exclusive.None? && e.pcs == s.pcs[t := Idle]
    decreases |steps|
  {
    var a, rest := steps[0], steps[1..];
    PcOf(s, t);
    assert Enabled(s, a);
    hide Sound, Enabled, After, PcOk, HeaderUpTo, LocksOk;
    OnlyHolderSteps(s, a, t);
    HeadOnce(s, t, f, k, a);
    StepKeepsSound(s, a);
    if k < 3 {
      HeadRuns(After(s, a), t, f, k + 1, rest);
    } else {
      assert rest == [];
    }
  }

  lemma EnableStep(s: State, t: nat, decrypted: bool)
    requires Enabled(s, LockEnable(t, decrypted))
    ensures var n := After(s, LockEnable(t, decrypted));
      n.files == s.files && n.current == s.current && n.exclusive == Some(t) && n.pcs == s.pcs[t := Enabling(decrypted)] && Inside(s, t) && s.pcs[t].Idle?
  {
    hide Payload, HeaderPiece;
  }

  lemma CreateStep(s: State, t: nat, a: Action, decrypted: bool)
    requires Inside(s, t) && s.pcs[t] == Enabling(decrypted) && Enabled(s, a) && a.t == t && !a.FailCreate?
    ensures var n := After(s, a);
      if s.current.Some? then n.files == s.files && n.current == s.current && n.exclusive.None? && n.pcs == s.pcs[t := Idle]
      else n.files == s.files + [NewSession(decrypted)] && n.current.None? && n.exclusive == s.exclusive && n.pcs == s.pcs[t := Heading(|s.files|, 0)]
  {
    hide Payload, HeaderPiece;
  }

  /** The file a new session leaves: its header alone, open. */
  predicate NewFile(x: Session, decrypted: bool) {
    && x.header == FileHeader(decrypted, -1) && x.bytes == PutFileHeader(x.header) && x.headed && !x.closed
    && x.records == [] && x.part == [] && !x.failed && x.mutex.None?
  }

  lemma OpenedIsNew(decrypted: bool)
    ensures NewFile(Opened(NewSession(decrypted)), decrypted)
  {
    HeaderIsPieces(FileHeader(decrypted, -1));
    hide HeaderUpTo, PutFileHeader;
  }

  lemma FirstTwo(s: State, steps: seq<Action>)
    requires Runs(s, steps) && |steps| >= 2
    ensures Enabled(s, steps[0]) && Enabled(After(s, steps[0]), steps[1]) && Runs(After(After(s, steps[0]), steps[1]), steps[2..])
    ensures Ran(s, steps) == Ran(After(After(s, steps[0]), steps[1]), steps[2..])
  {
    hide Enabled, After;
    assert steps[1..][1..] == steps[2..] && steps[1..][0] == steps[1];
  }

  /**
   Enable on a sink that is off, from taking the lock to the last header write: one file more, with the header asked for and
   nothing else, which is the current session; every other file is as it was.
   */
  lemma EnableOpens(n: nat, before: seq<Action>, t: nat, decrypted: bool, steps: seq<Action>)
    requires Runs(Fresh(n), before) && Runs(Ran(Fresh(n), before), steps) && Ran(Fresh(n), before).current.None?
    requires |steps| == 6 && steps[0] == LockEnable(t, decrypted) && forall i :: 0 <= i < |steps| ==> !steps[i].FailCreate? && !steps[i].FailHeader?
    ensures var s, e := Ran(Fresh(n), before), Ran(Ran(Fresh(n), before), steps);
      && |e.files| == |s.files| + 1 && e.files[..|s.files|] == s.files && NewFile(e.files[|s.files|], decrypted)
      && e.current == Some(|s.files|) && e.exclusive.None? && e.pcs == s.pcs
  {
    hide *;
    FreshIsSound(n);
    RunKeepsSound(Fresh(n), before);
    var s := Ran(Fresh(n), before);
    FirstTwo(s, steps);
    var a := After(s, steps[0]);
    var b := After(a, steps[1]);
    StepKeepsSound(s, steps[0]);
    StepKeepsSound(a, steps[1]);
    EnableStep(s, t, decrypted);
    InsideIs(s, t);
    InsideIs(a, t);
    PcOf(a, t);
    OnlyHolderSteps(a, steps[1], t);
    CreateStep(a, t, steps[1], decrypted);
    InsideIs(b, t);
    HeadRuns(b, t, |s.files|, 0, steps[2..]);
    OpenedIsNew(decrypted);
    PcsBack(s.pcs, t, Enabling(decrypted), Heading(|s.files|, 0));
    OneFileMore(s.files, NewSession(decrypted), Opened(NewSession(decrypted)));
  }

  lemma InsideIs(s: State, t: nat)
    ensures Inside(s, t) <==> t < |s.pcs|
  {
  }

  lemma PcsBack(pcs: seq<Pc>, t: nat, a: Pc, b: Pc)
    requires t < |pcs|
    ensures pcs[t].Idle? ==> pcs[t := a][t := b][t := Idle] == pcs
  {
  }

  lemma OneFileMore(files: seq<Session>, x: Session, y: Session)
    ensures var all := (files + [x])[|files| := y]; |all| == |files| + 1 && all[..|files|] == files && all[|files|] == y && (files + [x])[|files|] == x
  {
  }

  /** Enable on a sink that is on makes no file and leaves the session alone. */
  lemma EnableTwice(n: nat, before: seq<Action>, t: nat, decrypted: bool, steps: seq<Action>)
    requires Runs(Fresh(n), before) && Runs(Ran(Fresh(n), before), steps) && Ran(Fresh(n), before).current.Some?
    requires |steps| == 2 && steps[0] == LockEnable(t, decrypted)
    ensures var s, e := Ran(Fresh(n), before), Ran(Ran(Fresh(n), before), steps);
      e.files == s.files && e.current == s.current && e.exclusive.None? && e.pcs == s.pcs
  {
    hide *;
    FreshIsSound(n);
    RunKeepsSound(Fresh(n), before);
    var s := Ran(Fresh(n), before);
    FirstTwo(s, steps);
    var a := After(s, steps[0]);
    StepKeepsSound(s, steps[0]);
    EnableStep(s, t, decrypted);
    InsideIs(s, t);
    InsideIs(a, t);
    PcOf(a, t);
    OnlyHolderSteps(a, steps[1], t);
    EnablingOnly(a, t, steps[1], decrypted);
    CreateStep(a, t, steps[1], decrypted);
    RanNothing(After(a, steps[1]), steps[2..]);
    PcsBack(s.pcs, t, Enabling(decrypted), Idle);
    assert s.pcs[t := Enabling(decrypted)][t := Idle] == s.pcs;
  }

  lemma EnablingOnly(s: State, t: nat, a: Action, decrypted: bool)
    requires Inside(s, t) && s.pcs[t] == Enabling(decrypted) && s.current.Some? && Enabled(s, a) && a.t == t
    ensures !a.FailCreate?
  {
  }

  lemma RanNothing(s: State, steps: seq<Action>)
    requires steps == []
    ensures Runs(s, steps) && Ran(s, steps) == s
  {
  }

  // ---- where a record goes ----------------------------------------------------------------------------

  /** A goroutine on its way to write this record to this file, which is the current session. */
  predicate OnItsWay(s: State, t: nat, f: nat, r: Record) {
    && Inside(s, t) && s.current == Some(f) && f < |s.files|
    && (s.pcs[t] == Entered(r) || s.pcs[t] == Waiting(f, r) || s.pcs[t] == Writing(f, r) || s.pcs[t] == Trailing(f, r))
  }

  predicate Gives(a: Action, t: nat) {
    a.t == t && (a.WriteTrailer? || a.FailPayload? || a.FailTrailer?)
  }

  lemma NobodySwitches(s: State, a: Action, t: nat)
    requires LocksOk(s) && Inside(s, t) && HoldsShared(s.pcs[t]) && Enabled(s, a)
    ensures !HoldsExclusive(s.pcs[a.t])
  {
    hide Payload, HeaderPiece;
  }

  lemma OwnStep(s: State, a: Action, t: nat, f: nat, r: Record)
    requires OnItsWay(s, t, f, r) && Enabled(s, a) && a.t == t && !Gives(a, t)
    ensures OnItsWay(After(s, a), t, f, r) && After(s, a).files[f].records == s.files[f].records
  {
    hide Payload, HeaderPiece;
  }

  lemma OtherStep(s: State, a: Action, t: nat, f: nat, r: Record)
    requires OnItsWay(s, t, f, r) && Enabled(s, a) && a.t != t && !HoldsExclusive(s.pcs[a.t])
    ensures OnItsWay(After(s, a), t, f, r) && s.files[f].records <= After(s, a).files[f].records
  {
    hide Payload, HeaderPiece;
  }

  lemma WayHoldsShared(s: State, t: nat, f: nat, r: Record)
    requires OnItsWay(s, t, f, r)
    ensures HoldsShared(s.pcs[t]) && Inside(s, t)
  {
  }

  lemma LastStep(s: State, t: nat, f: nat, r: Record)
    requires OnItsWay(s, t, f, r) && Enabled(s, WriteTrailer(t))
    ensures var e := After(s, WriteTrailer(t)); e.current == Some(f) && f < |e.files| && e.files[f].records == s.files[f].records + [r]
  {
    hide Payload, HeaderPiece;
  }

  /** The run of others and of this goroutine, up to its second write. */
  lemma {:induction false} WayEnds(s: State, steps: seq<Action>, t: nat, f: nat, r: Record)
    requires Sound(s) && OnItsWay(s, t, f, r) && Runs(s, steps) && steps != [] && steps[|steps| - 1] == WriteTrailer(t)
    requires forall i :: 0 <= i < |steps| - 1 ==> !Gives(steps[i], t)
    ensures var e := Ran(s, steps); e.current == Some(f) && f < |e.files| && e.files[f].records != []
    ensures var rs := Ran(s, steps).files[f].records; rs[|rs| - 1] == r && s.files[f].records <= rs[..|rs| - 1]
    decreases |steps|
  {
    hide *;
    var a, rest := steps[0], steps[1..];
    RunsFirst(s, steps);
    OnItsWayIs(s, t, f, r);
    if rest == [] {
      RanNothing(After(s, a), rest);
      LastStep(s, t, f, r);
      JustAppended(s.files[f].records, r);
    } else {
      LaterSteps(steps, t);
      WayStep(s, a, t, f, r);
      WayEnds(After(s, a), rest, t, f, r);
      FurtherPrefix(s.files[f].records, After(s, a).files[f].records, Ran(s, steps).files[f].records);
    }
  }

  lemma RunsFirst(s: State, steps: seq<Action>)
    requires Runs(s, steps) && steps != []
    ensures Enabled(s, steps[0]) && Runs(After(s, steps[0]), steps[1..]) && Ran(s, steps) == Ran(After(s, steps[0]), steps[1..])
  {
    hide Enabled, After;
  }

  lemma LaterSteps(steps: seq<Action>, t: nat)
    requires |steps| > 1 && forall i :: 0 <= i < |steps| - 1 ==> !Gives(steps[i], t)
    ensures var rest := steps[1..]; rest[|rest| - 1] == steps[|steps| - 1] && !Gives(steps[0], t) && forall i :: 0 <= i < |rest| - 1 ==> !Gives(rest[i], t)
  {
    hide Gives;
    assert forall i :: 0 <= i < |steps| - 1 ==> steps[1..][i] == steps[i + 1];
  }

  lemma JustAppended(rs: seq<Record>, r: Record)
    ensures var all := rs + [r]; all != [] && all[|all| - 1] == r && rs <= all[..|all| - 1]
  {
  }

  lemma FurtherPrefix(a: seq<Record>, b: seq<Record>, c: seq<Record>)
    requires a <= b && c != [] && b <= c[..|c| - 1]
    ensures a <= c[..|c| - 1]
  {
  }

  /** One step on the way: of this goroutine, or of another that switches nothing. */
  lemma WayStep(s: State, a: Action, t: nat, f: nat, r: Record)
    requires Sound(s) && OnItsWay(s, t, f, r) && Enabled(s, a) && !Gives(a, t)
    ensures f < |s.files| && Sound(After(s, a)) && OnItsWay(After(s, a), t, f, r) && f < |After(s, a).files|
    ensures s.files[f].records <= After(s, a).files[f].records
  {
    hide *;
    OnItsWayIs(s, t, f, r);
    StepKeepsSound(s, a);
    WayHoldsShared(s, t, f, r);
    PcOf(s, t);
    NobodySwitches(s, a, t);
    if a.t == t { OwnStep(s, a, t, f, r); } else { OtherStep(s, a, t, f, r); }
    OnItsWayIs(After(s, a), t, f, r);
  }

  lemma OnItsWayIs(s: State, t: nat, f: nat, r: Record)
    requires OnItsWay(s, t, f, r)
    ensures f < |s.files| && s.current == Some(f)
  {
  }

  lemma EnterStep(s: State, t: nat, f: nat, r: Record)
    requires Enabled(s, LockShared(t, r)) && s.current == Some(f) && f < |s.files|
    ensures OnItsWay(After(s, LockShared(t, r)), t, f, r) && After(s, LockShared(t, r)).files == s.files
  {
    hide Payload, HeaderPiece;
  }

  /**
   A record whose writer finds a session and is not failed: when its second write is done, whatever others did meanwhile, it
   is the last record of that very session, behind all it held when the writer came, and the session is still the current one.
   */
  lemma RecordIsLast(n: nat, before: seq<Action>, t: nat, r: Record, steps: seq<Action>)
    requires Runs(Fresh(n), before) && Ran(Fresh(n), before).current.Some? && Enabled(Ran(Fresh(n), before), LockShared(t, r))
    requires Runs(After(Ran(Fresh(n), before), LockShared(t, r)), steps) && steps != [] && steps[|steps| - 1] == WriteTrailer(t)
    requires forall i :: 0 <= i < |steps| - 1 ==> !Gives(steps[i], t)
    ensures var s, e := Ran(Fresh(n), before), Ran(After(Ran(Fresh(n), before), LockShared(t, r)), steps); var f := s.current.value;
      && e.current == Some(f) && f < |s.files| && f < |e.files| && e.files[f].records != []
      && var rs := e.files[f].records;
      rs[|rs| - 1] == r && s.files[f].records <= rs[..|rs| - 1]
  {
    hide *;
    FreshIsSound(n);
    RunKeepsSound(Fresh(n), before);
    var s := Ran(Fresh(n), before);
    CurrentIsThere(s);
    EnterStep(s, t, s.current.value, r);
    StepKeepsSound(s, LockShared(t, r));
    WayEnds(After(s, LockShared(t, r)), steps, t, s.current.value, r);
  }

  lemma CurrentIsThere(s: State)
    requires Sound(s) && s.current.Some?
    ensures s.current.value < |s.files|
  {
    hide LocksOk, PcOk, FileOk;
  }

  /** A goroutine inside a sink that is off. */
  predicate PassingThrough(s: State, t: nat) {
    Inside(s, t) && s.current.None? && (s.pcs[t].Entered? || s.pcs[t].Leaving?)
  }

  lemma PassingStep(s: State, a: Action, t: nat)
    requires PassingThrough(s, t) && Enabled(s, a) && a != UnlockShared(t) && !HoldsExclusive(s.pcs[a.t]) && AwayFromFiles(s.pcs[a.t])
    ensures PassingThrough(After(s, a), t) && After(s, a).files == s.files
  {
    hide Payload, HeaderPiece;
  }

  lemma {:induction false} PassingRuns(s: State, steps: seq<Action>, t: nat)
    requires Sound(s) && PassingThrough(s, t) && Runs(s, steps) && forall i :: 0 <= i < |steps| ==> steps[i] != UnlockShared(t)
    ensures Ran(s, steps).files == s.files && PassingThrough(Ran(s, steps), t)
    decreases |steps|
  {
    if steps != [] {
      var a := steps[0];
      assert Enabled(s, a) && HoldsShared(s.pcs[t]) && Inside(s, t) && Inside(s, a.t);
      hide Sound, PassingThrough, Enabled, After, HoldsShared, HoldsExclusive, AwayFromFiles;
      PcOf(s, t);
      PcOf(s, a.t);
      NobodySwitches(s, a, t);
      NoCurrentOf(s, t);
      NoCurrentNoWriter(s, a.t);
      NotHeadingIsAway(s.pcs[a.t]);
      StepKeepsSound(s, a);
      PassingStep(s, a, t);
      PassingRuns(After(s, a), steps[1..], t);
    }
  }

  lemma NoCurrentOf(s: State, t: nat)
    requires PassingThrough(s, t)
    ensures s.current.None?
  {
  }

  lemma NotHeadingIsAway(pc: Pc)
    requires !pc.Waiting? && !pc.Writing? && !pc.Trailing? && !HoldsExclusive(pc)
    ensures AwayFromFiles(pc)
  {
  }

  lemma PassStep(s: State, t: nat, r: Record)
    requires Enabled(s, LockShared(t, r)) && s.current.None?
    ensures PassingThrough(After(s, LockShared(t, r)), t) && After(s, LockShared(t, r)).files == s.files
  {
    hide Payload, HeaderPiece;
  }

  /** A record whose writer finds none is dropped: no file changes as long as the writer is inside, and it never comes to one. */
  lemma RecordIsDropped(n: nat, before: seq<Action>, t: nat, r: Record, steps: seq<Action>)
    requires Runs(Fresh(n), before) && Ran(Fresh(n), before).current.None? && Enabled(Ran(Fresh(n), before), LockShared(t, r))
    requires Runs(After(Ran(Fresh(n), before), LockShared(t, r)), steps) && forall i :: 0 <= i < |steps| ==> steps[i] != UnlockShared(t)
    ensures var s, e := Ran(Fresh(n), before), Ran(After(Ran(Fresh(n), before), LockShared(t, r)), steps);
      e.files == s.files && PassingThrough(e, t)
  {
    hide *;
    FreshIsSound(n);
    RunKeepsSound(Fresh(n), before);
    PassStep(Ran(Fresh(n), before), t, r);
    StepKeepsSound(Ran(Fresh(n), before), LockShared(t, r));
    PassingRuns(After(Ran(Fresh(n), before), LockShared(t, r)), steps, t);
  }
}
