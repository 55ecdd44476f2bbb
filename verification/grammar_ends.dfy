/**
 When the file loop returns. It always does on a text that ends in a line break; without one, it does
 not exactly when the text closed with a line break would have given its last line to a request as a note.
 */
module HttpEnds {
  import opened Text
  import opened HttpGrammar
  import opened HttpBlocks

  // ---- a closed text always ends ---------------------------------------------------

  predicate Closed(s: string) {
    s != "" && s[|s| - 1] == '\n'
  }

  lemma {:induction false} BreakFound(s: string)
    ensures IndexOf(s, "\n").Some? <==> '\n' in s
    ensures IndexOf(s, "\n").Some? ==> s[IndexOf(s, "\n").value] == '\n'
  {
    if s != "" {
      assert s == [s[0]] + s[1..];
      BreakFound(s[1..]);
    }
  }

  lemma ClosedNote(ctx: Context)
    requires Closed(ctx.src) && "#" <= ctx.Rem()
    ensures NoteParser(ctx).Ok?
  {
    var marker := ctx.Forward(1);
    assert ctx.src[|ctx.src| - 1] == ctx.Rem()[|ctx.Rem()| - 1];
    assert marker.Rem()[|marker.Rem()| - 1] == '\n';
    BreakFound(marker.Rem());
    assert CommentParser("#", ctx).Ok?;
    hide CommentParser;
  }

  lemma {:induction false} ClosedHeaders(ctx: Context)
    requires Closed(ctx.src)
    ensures HeaderLoop(ctx).Headed?
    decreases ctx.Left()
  {
    HeaderLoopStep(ctx);
    hide HeaderLoop, HeadersEnd, CommentLines, HeaderParser, ConsumeEndOfLine;
    if !HeadersEnd(ctx) {
      if "#" <= ctx.Rem() {
        ClosedNote(ctx);
        CommentLinesStep(ctx);
        ClosedHeaders(CommentLines(ctx).1);
      } else if HeaderParser(ctx).Ok? {
        ClosedHeaders(ConsumeEndOfLine(HeaderParser(ctx).next));
      }
    }
  }

  lemma ClosedTurn(env: Env, ctx: Context)
    requires Closed(ctx.src)
    ensures NextStretch(env, ctx).Turn?
  {
    hide VariableParser, RequestLineParser, HeaderLoop, CommentLines, BodyParser, SkipBlankLines, SkipUnreadable, ConsumeEndOfLine;
    var n := CommentLines(SkipBlankLines(ctx)).1;
    RequestLineAhead(env, n);
    if RequestLineParser(env, n).Ok? { ClosedHeaders(ConsumeEndOfLine(RequestLineParser(env, n).next)); }
  }

  /** A text that ends in a line break is read to its end. */
  lemma {:induction false} ClosedTextEnds(env: Env, ctx: Context)
    requires Closed(ctx.src)
    ensures Stretches(env, ctx).Some?
    decreases ctx.Left()
  {
    StretchesStep(env, ctx);
    hide Stretches, SkipBlankLines, NextStretch;
    var start := SkipBlankLines(ctx);
    if !start.AtEnd() {
      ClosedTurn(env, start);
      NextStretchAhead(env, start);
      ClosedTextEnds(env, NextStretch(env, start).stretch.to);
    }
  }

  // ---- a text beside the same text closed ---------------------------------------------

  function Closing(s: string): string {
    s + "\n"
  }

  lemma RemBoth(s: string, off: nat)
    requires off <= |s|
    ensures At(Closing(s), off).Rem() == At(s, off).Rem() + "\n"
  {
  }

  lemma RunBoth(s: string, off: nat, p: char -> bool)
    requires off <= |s|
    ensures var a, b := Run(At(s, off).Rem(), p), Run(At(Closing(s), off).Rem(), p);
      a == b || (p('\n') && off + a == |s| && b == a + 1)
    ensures !p('\n') ==> Run(At(s, off).Rem(), p) == Run(At(Closing(s), off).Rem(), p)
  {
    RemBoth(s, off);
    var r := At(s, off).Rem();
    var a := Run(r, p);
    assert forall i :: 0 <= i < |r| ==> (r + "\n")[i] == r[i];
    assert (r + "\n")[|r|] == '\n';
    if a == |r| && p('\n') {
      RunIs(r + "\n", p, a + 1);
    } else {
      RunIs(r + "\n", p, a);
    }
  }

  lemma PrefixBoth(s: string, off: nat, text: string)
    requires off <= |s| && '\n' !in text
    ensures text <= At(s, off).Rem() <==> text <= At(Closing(s), off).Rem()
  {
    RemBoth(s, off);
    var r := At(s, off).Rem();
    assert (r + "\n")[|r|] == '\n';
    assert text <= r + "\n" ==> forall i :: 0 <= i < |text| ==> text[i] == (r + "\n")[i];
    assert forall i :: 0 <= i < |r| ==> r[i] == (r + "\n")[i];
  }

  predicate Begins(ctx: Context, text: string) {
    text <= ctx.Rem()
  }

  lemma BeginsBoth(s: string, off: nat, text: string)
    requires off <= |s| && '\n' !in text
    ensures Begins(At(s, off), text) <==> Begins(At(Closing(s), off), text)
    ensures Begins(At(s, off), text) ==> off + |text| <= |s|
  {
    PrefixBoth(s, off, text);
  }

  lemma {:induction false} ColonBoth(s: string)
    ensures IndexOf(s + "\n", ":") == IndexOf(s, ":")
  {
    if s == "" {
      assert "" + "\n" == "\n" && "\n"[1..] == "";
      assert "\n"[0] == '\n' && ":"[0] == ':';
    } else {
      assert (s + "\n")[0] == s[0] && (s + "\n")[1..] == s[1..] + "\n";
      ColonBoth(s[1..]);
    }
  }

  lemma {:induction false} BreakBoth(s: string)
    ensures IndexOf(s, "\n").Some? ==> IndexOf(s + "\n", "\n") == IndexOf(s, "\n")
    ensures IndexOf(s, "\n").None? ==> IndexOf(s + "\n", "\n") == Some(|s|)
  {
    if s == "" {
      assert "" + "\n" == "\n";
    } else {
      assert (s + "\n")[0] == s[0] && (s + "\n")[1..] == s[1..] + "\n";
      BreakBoth(s[1..]);
    }
  }

  // ---- notes ------------------------------------------------------------------------------

  predicate NoBreakFrom(s: string, off: nat) {
    forall i :: off <= i < |s| ==> s[i] != '\n'
  }

  /** A note, not a separator, on a last line nothing closes. */
  predicate Open(s: string, off: nat) {
    off < |s| && s[off] == '#' && !(SEPARATOR <= s[off..]) && NoBreakFrom(s, off)
  }

  lemma NoBreakIs(s: string, off: nat)
    requires off <= |s|
    ensures IndexOf(s[off..], "\n").None? <==> NoBreakFrom(s, off)
  {
    BreakFound(s[off..]);
    if NoBreakFrom(s, off) {
      assert forall i :: 0 <= i < |s[off..]| ==> s[off..][i] == s[off + i];
    } else {
      var i :| off <= i < |s| && s[i] == '\n';
      assert s[off..][i - off] == '\n';
    }
  }

  /** The first line break at or after a place. */
  function BreakAt(src: string, from: nat): Option<nat>
    requires from <= |src|
  {
    match IndexOf(src[from..], "\n")
    case None => None
    case Some(i) => Some(from + i)
  }

  /** Where a comment ends, if it does. */
  function NoteEnd(prefix: string, ctx: Context): Option<nat> {
    if Begins(ctx, prefix) then BreakAt(ctx.src, ctx.off + |prefix|) else None
  }

  lemma NoteEndIs(prefix: string, ctx: Context)
    ensures var r := CommentParser(prefix, ctx);
      r.Ok? == NoteEnd(prefix, ctx).Some? && (r.Ok? ==> r.next.off == NoteEnd(prefix, ctx).value)
    ensures CommentParser(prefix, ctx).Ok? ==> prefix <= ctx.Rem()
  {
    hide IndexOf, SpanOf;
  }

  lemma BreakAtBoth(s: string, m: nat)
    requires m <= |s|
    ensures var i, j := BreakAt(s, m), BreakAt(Closing(s), m);
      && j.Some? && (i.Some? <==> !NoBreakFrom(s, m))
      && (i.Some? ==> j == i && i.value < |s| && s[i.value] == '\n')
      && (i.None? ==> j.value == |s|)
  {
    BreakBoth(s[m..]);
    BreakFound(s[m..]);
    NoBreakIs(s, m);
    assert Closing(s)[m..] == s[m..] + "\n";
  }

  lemma NoteEndBoth(prefix: string, s: string, off: nat)
    requires off <= |s| && '\n' !in prefix
    ensures var c, d := NoteEnd(prefix, At(s, off)), NoteEnd(prefix, At(Closing(s), off));
      && d.Some? == Begins(At(s, off), prefix)
      && c.Some? == (Begins(At(s, off), prefix) && !NoBreakFrom(s, off + |prefix|))
      && (c.Some? ==> d == c && c.value < |s| && s[c.value] == '\n')
      && (d.Some? && c.None? ==> d.value == |s|)
  {
    BeginsBoth(s, off, prefix);
    hide BreakAt, NoBreakFrom, Begins;
    if Begins(At(s, off), prefix) {
      BreakAtBoth(s, off + |prefix|);
    }
  }

  /** One comment parser on a text and on the text closed. */
  lemma CommentBoth(prefix: string, s: string, off: nat)
    requires off <= |s| && '\n' !in prefix
    ensures var c, d := CommentParser(prefix, At(s, off)), CommentParser(prefix, At(Closing(s), off));
      && d.Ok? == Begins(At(s, off), prefix)
      && c.Ok? == (Begins(At(s, off), prefix) && !NoBreakFrom(s, off + |prefix|))
      && (c.Ok? ==> d.next.off == c.next.off < |s| && s[c.next.off] == '\n')
      && (d.Ok? && c.Fail? ==> d.next.off == |s|)
  {
    NoteEndBoth(prefix, s, off);
    NoteEndIs(prefix, At(s, off));
    NoteEndIs(prefix, At(Closing(s), off));
    hide NoteEnd, NoBreakFrom, CommentParser, Begins;
  }

  lemma SpanStart(prefix: string, ctx: Context)
    requires !ctx.AtEnd() && ctx.src[ctx.off] == '#' && prefix != ""
    ensures CommentParser(prefix, ctx).Ok? ==> CommentParser(prefix, ctx).value.start == ctx.off
  {
    if CommentParser(prefix, ctx).Ok? {
      var consumed := Consumed(ctx, CommentParser(prefix, ctx).next);
      assert consumed[0] == '#';
      RunIs(consumed, IsBlank, 0);
    }
    hide IndexOf, Run;
  }

  lemma NoteStart(ctx: Context)
    requires NoteParser(ctx).Ok?
    ensures NoteParser(ctx).value.start == ctx.off && "#" <= ctx.Rem()
  {
    NoteEndIs(SEPARATOR, ctx);
    NoteEndIs("#", ctx);
    assert ctx.src[ctx.off] == ctx.Rem()[0] == '#';
    SpanStart(SEPARATOR, ctx);
    SpanStart("#", ctx);
    hide CommentParser, NoteEnd;
  }

  lemma SharpStart(s: string, off: nat)
    requires off <= |s| && "#" <= At(s, off).Rem()
    ensures off < |s| && s[off] == '#' && (NoBreakFrom(s, off) <==> NoBreakFrom(s, off + 1))
    ensures SEPARATOR <= At(s, off).Rem() ==> off + 3 <= |s| && (NoBreakFrom(s, off) <==> NoBreakFrom(s, off + 3))
  {
    var r := At(s, off).Rem();
    assert r[0] == s[off];
    if SEPARATOR <= r {
      assert r[..3] == SEPARATOR;
      assert forall i :: 0 <= i < 3 ==> s[off + i] == r[i] == '#';
    }
  }

  lemma NoteBoth(s: string, off: nat)
    requires off <= |s|
    ensures var c, d, sharp := NoteParser(At(s, off)), NoteParser(At(Closing(s), off)), "#" <= At(s, off).Rem();
      && d.Ok? == sharp
      && c.Ok? == (sharp && !NoBreakFrom(s, off))
      && (c.Ok? ==> d.next.off == c.next.off < |s| && s[c.next.off] == '\n')
      && (d.Ok? && c.Fail? ==> d.next.off == |s|)
  {
    var r := At(s, off).Rem();
    assert SEPARATOR <= r ==> "#" <= r by { if SEPARATOR <= r { assert r[0] == SEPARATOR[0]; } }
    if "#" <= r { SharpStart(s, off); }
    CommentBoth(SEPARATOR, s, off);
    CommentBoth("#", s, off);
    assert Begins(At(s, off), "#") == ("#" <= r) && Begins(At(s, off), SEPARATOR) == (SEPARATOR <= r);
    hide CommentParser, NoBreakFrom, Begins;
  }

  predicate HasOpen(s: string, notes: seq<Positioned>) {
    exists i :: 0 <= i < |notes| && Open(s, notes[i].start)
  }

  /** How far the notes of a text and of the text closed get. */
  predicate NotesAgree(s: string, cs: seq<Positioned>, n: nat, ds: seq<Positioned>, m: nat) {
    && n <= |s|
    && (m == n || m == |s| + 1)
    && (m == n ==> !HasOpen(s, ds) && !("#" <= s[n..]) && (cs == [] <==> ds == []))
    && (m == |s| + 1 ==> "#" <= s[n..] && NoBreakFrom(s, n) && ds != [] && (HasOpen(s, ds) <==> !(SEPARATOR <= s[n..])))
  }

  lemma OpenCons(s: string, c: Positioned, notes: seq<Positioned>)
    ensures HasOpen(s, [c] + notes) <==> Open(s, c.start) || HasOpen(s, notes)
  {
    var all := [c] + notes;
    assert all[0] == c && forall i :: 0 <= i < |notes| ==> all[i + 1] == notes[i];
  }

  lemma AgreeCons(s: string, c: Positioned, d: Positioned, cs: seq<Positioned>, n: nat, ds: seq<Positioned>, m: nat)
    requires NotesAgree(s, cs, n, ds, m) && !Open(s, d.start)
    ensures NotesAgree(s, [c] + cs, n, [d] + ds, m)
  {
    OpenCons(s, d, ds);
    hide HasOpen, Open;
  }

  lemma EndOfLineBoth(s: string, n: nat)
    requires n < |s| && s[n] == '\n'
    ensures ConsumeEndOfLine(At(s, n)).off == n + 1 && ConsumeEndOfLine(At(Closing(s), n)).off == n + 1
  {
    assert At(s, n).Rem()[0] == '\n' && At(Closing(s), n).Rem()[0] == '\n';
  }

  lemma NothingLeft(ctx: Context)
    requires ctx.AtEnd()
    ensures CommentLines(ctx) == ([], ctx)
  {
    CommentLinesStep(ctx);
    hide CommentLines;
  }

  lemma {:induction false} CommentLinesBoth(s: string, off: nat)
    requires off <= |s|
    ensures var c, d := CommentLines(At(s, off)), CommentLines(At(Closing(s), off));
      NotesAgree(s, c.0, c.1.off, d.0, d.1.off)
    decreases |s| - off
  {
    hide CommentLines, NoteParser, ConsumeEndOfLine, NotesAgree, NoBreakFrom, Open, HasOpen;
    var x, y := At(s, off), At(Closing(s), off);
    NoteBoth(s, off);
    CommentLinesStep(x);
    CommentLinesStep(y);
    if NoteParser(x).Ok? {
      NextNote(s, off);
      var n := NoteParser(x).next.off + 1;
      CommentLinesBoth(s, n);
      var c, d := CommentLines(At(s, n)), CommentLines(At(Closing(s), n));
      AgreeCons(s, NoteParser(x).value, NoteParser(y).value, c.0, c.1.off, d.0, d.1.off);
    } else if NoteParser(y).Ok? {
      LastNote(s, off);
    } else {
      NoNotes(s, off);
    }
  }

  /** A note that is closed: both texts go on from the line under it. */
  lemma NextNote(s: string, off: nat)
    requires off <= |s| && NoteParser(At(s, off)).Ok?
    ensures var x, y := NoteParser(At(s, off)), NoteParser(At(Closing(s), off));
      && off <= x.next.off < |s| && y.Ok? && !Open(s, y.value.start)
      && ConsumeEndOfLine(x.next) == At(s, x.next.off + 1)
      && ConsumeEndOfLine(y.next) == At(Closing(s), x.next.off + 1)
  {
    NoteBoth(s, off);
    NoteStart(At(Closing(s), off));
    var x, y := NoteParser(At(s, off)), NoteParser(At(Closing(s), off));
    hide NoteParser, NoBreakFrom;
    assert x.next == At(s, x.next.off) && y.next == At(Closing(s), x.next.off);
    EndOfLineBoth(s, x.next.off);
  }

  lemma NoNotes(s: string, off: nat)
    requires off <= |s| && !("#" <= s[off..])
    ensures NotesAgree(s, [], off, [], off)
  {
  }

  /** Closed, the last line is a note like any other. */
  lemma LastNote(s: string, off: nat)
    requires off <= |s| && "#" <= At(s, off).Rem() && NoBreakFrom(s, off)
    ensures var d := CommentLines(At(Closing(s), off));
      NotesAgree(s, [], off, d.0, d.1.off) && d.1.off == |s| + 1
  {
    var y := At(Closing(s), off);
    NoteBoth(s, off);
    NoteStart(y);
    CommentLinesStep(y);
    var next := ConsumeEndOfLine(NoteParser(y).next);
    assert At(Closing(s), |s|).Rem() == "\n";
    assert next == At(Closing(s), |s| + 1);
    NothingLeft(next);
    SharpStart(s, off);
    hide NoteParser, CommentLines, ConsumeEndOfLine;
    OpenCons(s, NoteParser(y).value, []);
    assert [NoteParser(y).value] + [] == [NoteParser(y).value];
  }

  // ---- header lines ---------------------------------------------------------------------

  /** The rest of the last line is blank, or is a separator: nothing there can hold the file loop. */
  predicate Quiet(s: string, off: nat)
    requires off <= |s|
  {
    NoBreakFrom(s, off) && (All(s[off..], IsCutSpace) || SEPARATOR <= s[off..])
  }

  /** The same place, or the end of the closed text against a quiet last line. */
  predicate Agree(s: string, off: nat, closed: nat) {
    off <= |s| && (closed == off || (closed == |s| + 1 && Quiet(s, off)))
  }

  lemma BlankIsQuiet(s: string, off: nat)
    requires off <= |s| && All(s[off..], IsCutSpace)
    ensures Quiet(s, off)
  {
    assert forall i :: off <= i < |s| ==> s[i] == s[off..][i - off];
  }

  lemma EndOfLineAgrees(s: string, n: nat)
    requires n <= |s|
    ensures Agree(s, ConsumeEndOfLine(At(s, n)).off, ConsumeEndOfLine(At(Closing(s), n)).off)
    ensures ConsumeEndOfLine(At(s, n)).off != ConsumeEndOfLine(At(Closing(s), n)).off ==>
      ConsumeEndOfLine(At(s, n)).off == n && All(s[n..], IsCutSpace)
  {
    RemBoth(s, n);
    var r := At(s, n).Rem();
    assert "\n" <= r + "\n" ==> (r + "\n")[0] == '\n';
    if |r| >= 2 {
      assert (r + "\n")[..2] == r[..2];
    } else {
      assert "\r\n" <= r + "\n" ==> (r + "\n")[0] == '\r';
      assert |r| == 1 ==> r == [r[0]];
    }
    if ConsumeEndOfLine(At(s, n)).off != ConsumeEndOfLine(At(Closing(s), n)).off {
      BlankIsQuiet(s, n);
    }
  }

  lemma BlankLineBoth(s: string, off: nat)
    requires off <= |s|
    ensures IsBlankLine(At(s, off)) <==> IsBlankLine(At(Closing(s), off))
    ensures off == |s| ==> IsBlankLine(At(s, off))
  {
    RunBoth(s, off, IsCutSpace);
    RemBoth(s, off);
    var r := At(s, off).Rem();
    var n := Run(r, IsCutSpace);
    assert (r + "\n")[n] == if n < |r| then r[n] else '\n';
  }

  lemma HeadersEndBoth(s: string, off: nat)
    requires off <= |s|
    ensures HeadersEnd(At(s, off)) <==> HeadersEnd(At(Closing(s), off))
  {
    BlankLineBoth(s, off);
    PrefixBoth(s, off, SEPARATOR);
    hide IsBlankLine;
  }

  lemma HeaderBoth(s: string, off: nat)
    requires off <= |s|
    ensures var h, g := HeaderParser(At(s, off)), HeaderParser(At(Closing(s), off));
      && h.Ok? == g.Ok?
      && (h.Ok? ==> h.next.off == g.next.off)
  {
    var x, y := At(s, off), At(Closing(s), off);
    NameBoth(s, off);
    var a, b := UntilText(IsNameChar, ":", true, x), UntilText(IsNameChar, ":", true, y);
    hide UntilText, SpanOf;
    if a.Ok? { RunBoth(s, a.next.off, IsNoBreakOrReturn); }
    hide Run;
  }

  lemma NameBoth(s: string, off: nat)
    requires off <= |s|
    ensures var a, b := UntilText(IsNameChar, ":", true, At(s, off)), UntilText(IsNameChar, ":", true, At(Closing(s), off));
      a.Ok? == b.Ok? && (a.Ok? ==> a.next.off == b.next.off)
  {
    RemBoth(s, off);
    var r := At(s, off).Rem();
    ColonBoth(r);
    hide IndexOf;
    if IndexOf(r, ":").Some? {
      var i := IndexOf(r, ":").value;
      assert (r + "\n")[..i] == r[..i];
    }
  }

  lemma OpenAppend(s: string, a: seq<Positioned>, b: seq<Positioned>)
    ensures HasOpen(s, a + b) <==> HasOpen(s, a) || HasOpen(s, b)
  {
    var all := a + b;
    assert forall i :: 0 <= i < |a| ==> all[i] == a[i];
    assert forall i :: 0 <= i < |b| ==> all[|a| + i] == b[i];
    hide Open;
    if HasOpen(s, all) {
      var i :| 0 <= i < |all| && Open(s, all[i].start);
      if i < |a| { assert Open(s, a[i].start); } else { assert Open(s, b[i - |a|].start); }
    }
  }

  predicate HeadersAgree(s: string, h: Headed, g: Headed) {
    && g.Headed?
    && (h.Stuck? <==> HasOpen(s, g.comments))
    && (h.Headed? ==> Agree(s, h.next.off, g.next.off))
  }

  lemma HeadersStop(ctx: Context)
    requires HeadersEnd(ctx)
    ensures HeaderLoop(ctx) == Headed([], [], ctx)
  {
    HeaderLoopStep(ctx);
    hide HeaderLoop, HeadersEnd;
  }

  lemma AddCommentsAgree(s: string, x: Context, cs: seq<Positioned>, n: Context, h: Headed, y: Context, ds: seq<Positioned>, m: Context, g: Headed)
    requires Ahead(x, n) && (h.Headed? ==> Ahead(n, h.next)) && Ahead(y, m) && (g.Headed? ==> Ahead(m, g.next))
    requires HeadersAgree(s, h, g) && !HasOpen(s, ds)
    ensures HeadersAgree(s, AddComments(x, cs, n, h), AddComments(y, ds, m, g))
  {
    OpenAppend(s, ds, g.comments);
    hide HasOpen, Agree;
  }

  lemma {:induction false} HeaderLoopBoth(s: string, off: nat)
    requires off <= |s|
    ensures HeadersAgree(s, HeaderLoop(At(s, off)), HeaderLoop(At(Closing(s), off)))
    decreases |s| - off, 1
  {
    var x, y := At(s, off), At(Closing(s), off);
    HeadersEndBoth(s, off);
    PrefixBoth(s, off, "#");
    hide HeadersEnd;
    if HeadersEnd(x) {
      HeadersStop(x);
      HeadersStop(y);
    } else if "#" <= x.Rem() {
      NotesBoth(s, off);
    } else {
      HeaderLoopStep(x);
      HeaderLoopStep(y);
      HeaderBoth(s, off);
      hide HeaderLoop, HeaderParser, ConsumeEndOfLine, HasOpen, Agree;
      if HeaderParser(x).Ok? {
        HeaderStepBoth(s, off);
      } else {
        assert Agree(s, off, off) by { SamePlace(s, off); }
        assert !HasOpen(s, []) by { NothingOpen(s); }
      }
    }
  }

  lemma SamePlace(s: string, off: nat)
    requires off <= |s|
    ensures Agree(s, off, off)
  {
  }

  lemma NothingOpen(s: string)
    ensures !HasOpen(s, [])
  {
  }

  lemma {:induction false} HeaderStepBoth(s: string, off: nat)
    requires off <= |s| && HeaderParser(At(s, off)).Ok?
    requires !HeadersEnd(At(s, off)) && !("#" <= At(s, off).Rem())
    ensures HeadersAgree(s, HeaderLoop(At(s, off)), HeaderLoop(At(Closing(s), off)))
    decreases |s| - off, 0
  {
    var x, y := At(s, off), At(Closing(s), off);
    HeadersEndBoth(s, off);
    PrefixBoth(s, off, "#");
    HeaderBoth(s, off);
    HeaderLoopStep(x);
    HeaderLoopStep(y);
    var n := HeaderParser(x).next.off;
    EndOfLineAgrees(s, n);
    hide HeaderParser, HeadersEnd, ConsumeEndOfLine, HeaderLoop, HasOpen, Quiet, All;
    var a, b := ConsumeEndOfLine(At(s, n)), ConsumeEndOfLine(At(Closing(s), n));
    if a.off == b.off {
      HeaderLoopBoth(s, a.off);
    } else {
      BlankEndsHeaders(s, a.off);
      HeadersStop(b) by { assert HeadersEnd(b) by { EndEndsHeaders(b); } }
      NothingOpen(s);
    }
  }

  lemma EndEndsHeaders(ctx: Context)
    requires ctx.AtEnd()
    ensures HeadersEnd(ctx)
  {
  }

  lemma BlankEndsHeaders(s: string, off: nat)
    requires off <= |s| && All(s[off..], IsCutSpace)
    ensures HeaderLoop(At(s, off)) == Headed([], [], At(s, off))
  {
    RunIs(s[off..], IsCutSpace, |s| - off);
    HeadersStop(At(s, off));
  }

  lemma {:induction false} NotesBoth(s: string, off: nat)
    requires off <= |s| && !HeadersEnd(At(s, off)) && "#" <= At(s, off).Rem()
    ensures HeadersAgree(s, HeaderLoop(At(s, off)), HeaderLoop(At(Closing(s), off)))
    decreases |s| - off, 0
  {
    var x, y := At(s, off), At(Closing(s), off);
    HeadersEndBoth(s, off);
    PrefixBoth(s, off, "#");
    CommentLinesBoth(s, off);
    HeaderLoopStep(x);
    HeaderLoopStep(y);
    var cs, n, ds, m := CommentLines(x).0, CommentLines(x).1, CommentLines(y).0, CommentLines(y).1;
    assert HeadersEnd(x) || !(SEPARATOR <= x.Rem());
    hide CommentLines, HeadersEnd, HeaderLoop, HasOpen, NoBreakFrom, Quiet;
    if m.off == n.off {
      HeaderLoopBoth(s, n.off);
      AddCommentsAgree(s, x, cs, n, HeaderLoop(n), y, ds, m, HeaderLoop(m));
    } else {
      HeadersStop(m) by { EndEndsHeaders(m); }
      assert ds + [] == ds;
      if cs != [] { LastLineEnds(s, n.off); }
    }
  }

  /** On an unclosed last line that starts with `#`, the header loop stops at a separator and hangs on a note. */
  lemma LastLineEnds(s: string, n: nat)
    requires n <= |s| && "#" <= At(s, n).Rem() && NoBreakFrom(s, n)
    ensures SEPARATOR <= s[n..] ==> HeaderLoop(At(s, n)) == Headed([], [], At(s, n)) && Quiet(s, n)
    ensures !(SEPARATOR <= s[n..]) ==> HeaderLoop(At(s, n)) == Stuck
  {
    var x := At(s, n);
    NoteBoth(s, n);
    CommentLinesStep(x);
    HeaderLoopStep(x);
    SharpStart(s, n);
    assert !IsBlankLine(x) by { RunIs(x.Rem(), IsCutSpace, 0); }
    hide CommentLines, HeaderLoop, NoteParser, IsBlankLine, NoBreakFrom;
  }

  // ---- request lines and variables ---------------------------------------------------------

  /** Two places reached by skipping blanks: the same, or the two ends. */
  predicate Meet(s: string, a: nat, b: nat) {
    a <= |s| && (a == b || (a == |s| && b == |s| + 1))
  }

  lemma SpacesBoth(env: Env, s: string, off: nat)
    requires off <= |s|
    ensures Meet(s, Spaces(env, At(s, off)).off, Spaces(env, At(Closing(s), off)).off)
  {
    RunBoth(s, off, SpaceRune(env));
    hide Run;
  }

  lemma ManyBoth(s: string, off: nat, p: char -> bool)
    requires off <= |s| && !p('\n')
    ensures Many(p, At(s, off)).0 == Many(p, At(Closing(s), off)).0
    ensures Many(p, At(s, off)).1.off == Many(p, At(Closing(s), off)).1.off <= |s|
  {
    RunBoth(s, off, p);
    var n := Run(At(s, off).Rem(), p);
    hide Run;
    assert s[off..][..n] == Closing(s)[off..][..n];
  }

  lemma VerbBoth(env: Env, s: string, off: nat)
    requires off <= |s|
    ensures var a, b := VerbParser(env, At(s, off)), VerbParser(env, At(Closing(s), off));
      a.Ok? == b.Ok? && (a.Ok? ==> Meet(s, a.next.off, b.next.off))
  {
    var isWord := WordRune(env);
    ManyBoth(s, off, isWord);
    SpacesBoth(env, s, Many(isWord, At(s, off)).1.off);
    hide Many, Spaces, ParseVerb, Meet;
  }

  lemma LineBoth(s: string, off: nat)
    requires off <= |s|
    ensures LineContext(At(s, off)) == LineContext(At(Closing(s), off))
  {
    RunBoth(s, off, IsNoBreak);
    var n := off + Run(At(s, off).Rem(), IsNoBreak);
    hide Run;
    assert s[..n] == Closing(s)[..n];
  }

  lemma NoTargetAtEnd(env: Env, ctx: Context)
    requires ctx.AtEnd()
    ensures TargetParser(env, ctx).Fail?
  {
    assert LineContext(ctx).Rem() == "";
    assert !("{{" <= "") && !("://" <= "");
  }

  lemma TargetBoth(env: Env, s: string, a: nat, b: nat)
    requires Meet(s, a, b)
    ensures var x, y := TargetParser(env, At(s, a)), TargetParser(env, At(Closing(s), b));
      x.Ok? == y.Ok? && (x.Ok? ==> x.next.off == y.next.off <= |s|)
  {
    if a == b {
      LineBoth(s, a);
      hide LineContext, TargetLength, TrimRight, Contains;
    } else {
      NoTargetAtEnd(env, At(s, a));
      NoTargetAtEnd(env, At(Closing(s), b));
    }
  }

  /** Where a dotted minor number ends. */
  function MinorEnd(dot: Context): Option<nat> {
    if !Begins(dot, ".") then None
    else if Many(IsAsciiDigit, dot.Forward(1)).0 == "" then None
    else Some(Many(IsAsciiDigit, dot.Forward(1)).1.off)
  }

  /** Where a version number ends. */
  function NumberEnd(major: Context): Option<nat> {
    if Many(IsAsciiDigit, major).0 == "" then None else MinorEnd(Many(IsAsciiDigit, major).1)
  }

  /** Where a version that starts here ends. */
  function VersionEnd(start: Context): Option<nat> {
    if !Begins(start, "HTTP/") then None else NumberEnd(start.Forward(5))
  }

  lemma VersionIs(env: Env, ctx: Context)
    ensures OptionalVersion(env, ctx).off ==
      match VersionEnd(Spaces(env, ctx)) case Some(n) => n case None => ctx.off
  {
    hide Spaces, Many;
  }

  lemma MinorEndBoth(s: string, a: nat)
    requires a <= |s|
    ensures MinorEnd(At(s, a)) == MinorEnd(At(Closing(s), a))
  {
    BeginsBoth(s, a, ".");
    hide Begins, Many;
    if Begins(At(s, a), ".") { ManyBoth(s, a + 1, IsAsciiDigit); }
  }

  lemma VersionEndBoth(s: string, a: nat)
    requires a <= |s|
    ensures VersionEnd(At(s, a)) == VersionEnd(At(Closing(s), a))
  {
    BeginsBoth(s, a, "HTTP/");
    hide Begins, Many, MinorEnd;
    if Begins(At(s, a), "HTTP/") {
      ManyBoth(s, a + 5, IsAsciiDigit);
      var x, y := Many(IsAsciiDigit, At(s, a + 5)).1, Many(IsAsciiDigit, At(Closing(s), a + 5)).1;
      assert x == At(s, x.off) && y == At(Closing(s), x.off);
      MinorEndBoth(s, x.off);
    }
  }

  lemma NothingBegins(ctx: Context, text: string)
    requires ctx.AtEnd() && text != ""
    ensures !Begins(ctx, text)
  {
  }

  lemma VersionBoth(env: Env, s: string, off: nat)
    requires off <= |s|
    ensures OptionalVersion(env, At(s, off)).off == OptionalVersion(env, At(Closing(s), off)).off
  {
    SpacesBoth(env, s, off);
    var a, b := Spaces(env, At(s, off)), Spaces(env, At(Closing(s), off));
    VersionIs(env, At(s, off));
    VersionIs(env, At(Closing(s), off));
    hide OptionalVersion, Spaces;
    if a.off == b.off {
      hide VersionEnd;
      VersionEndBoth(s, a.off);
    } else {
      NothingBegins(a, "HTTP/");
      NothingBegins(b, "HTTP/");
      hide Begins, Many;
    }
  }

  lemma RequestLineBoth(env: Env, s: string, off: nat)
    requires off <= |s|
    ensures var x, y := RequestLineParser(env, At(s, off)), RequestLineParser(env, At(Closing(s), off));
      x.Ok? == y.Ok? && (x.Ok? ==> x.next.off == y.next.off <= |s|)
  {
    VerbBoth(env, s, off);
    var a, b := VerbParser(env, At(s, off)), VerbParser(env, At(Closing(s), off));
    hide VerbParser, TargetParser, OptionalVersion, SpanOf, RequestHeadOf;
    if a.Ok? {
      TargetBoth(env, s, a.next.off, b.next.off);
      var x := TargetParser(env, a.next);
      if x.Ok? { VersionBoth(env, s, x.next.off); }
    }
  }

  /** Where a value that an `=` opens ends. */
  function ValueEnd(assign: Context): Option<nat> {
    if !Begins(assign, "=") then None else Some(Many(IsNoBreakOrReturn, assign.Forward(1)).1.off)
  }

  /** Where a variable that starts here ends. */
  function VariableEnd(env: Env, ctx: Context): Option<nat> {
    if !Begins(ctx, "@") then None
    else
      var name := Many(NameRune(env), ctx.Forward(1));
      if name.0 == "" then None else ValueEnd(Spaces(env, name.1))
  }

  lemma VariableIs(env: Env, ctx: Context)
    ensures var r := VariableParser(env, ctx);
      r.Ok? == VariableEnd(env, ctx).Some? && (r.Ok? ==> r.next.off == VariableEnd(env, ctx).value)
  {
    hide Many, Spaces, SpanOf;
  }

  lemma ValueBoth(s: string, a: nat, b: nat)
    requires Meet(s, a, b)
    ensures ValueEnd(At(s, a)) == ValueEnd(At(Closing(s), b))
    ensures ValueEnd(At(s, a)).Some? ==> ValueEnd(At(s, a)).value <= |s|
  {
    if a == b {
      BeginsBoth(s, a, "=");
      hide Begins, Many;
      if Begins(At(s, a), "=") { ManyBoth(s, a + 1, IsNoBreakOrReturn); }
    } else {
      NothingBegins(At(s, a), "=");
      NothingBegins(At(Closing(s), b), "=");
      hide Begins, Many;
    }
  }

  lemma VariableEndBoth(env: Env, s: string, off: nat)
    requires off <= |s|
    ensures VariableEnd(env, At(s, off)) == VariableEnd(env, At(Closing(s), off))
    ensures VariableEnd(env, At(s, off)).Some? ==> VariableEnd(env, At(s, off)).value <= |s|
  {
    BeginsBoth(s, off, "@");
    hide Begins, Many, Spaces, Meet, ValueEnd;
    if Begins(At(s, off), "@") {
      var isName := NameRune(env);
      ManyBoth(s, off + 1, isName);
      var x, y := Many(isName, At(s, off + 1)).1, Many(isName, At(Closing(s), off + 1)).1;
      assert x == At(s, x.off) && y == At(Closing(s), x.off);
      SpacesBoth(env, s, x.off);
      var a, b := Spaces(env, x), Spaces(env, y);
      assert a == At(s, a.off) && b == At(Closing(s), b.off);
      ValueBoth(s, a.off, b.off);
    }
  }

  lemma VariableBoth(env: Env, s: string, off: nat)
    requires off <= |s|
    ensures var x, y := VariableParser(env, At(s, off)), VariableParser(env, At(Closing(s), off));
      x.Ok? == y.Ok? && (x.Ok? ==> x.next.off == y.next.off <= |s|)
  {
    VariableIs(env, At(s, off));
    VariableIs(env, At(Closing(s), off));
    VariableEndBoth(env, s, off);
    hide VariableParser, VariableEnd;
  }

  // ---- blocks -------------------------------------------------------------------------------

  lemma LineEndBoth(s: string, off: nat)
    requires off <= |s|
    ensures Meet(s, ReadLine(At(s, off)).1.off, ReadLine(At(Closing(s), off)).1.off)
    ensures off == |s| ==> ReadLine(At(s, off)).1.off == |s|
  {
    RunBoth(s, off, IsNoBreak);
    hide Run;
  }

  lemma {:induction false} SeparatorBoth(s: string, a: nat, b: nat)
    requires Meet(s, a, b)
    ensures Meet(s, UntilSeparator(At(s, a)).off, UntilSeparator(At(Closing(s), b)).off)
    decreases |s| - a
  {
    if a == b && a < |s| {
      PrefixBoth(s, a, SEPARATOR);
      LineEndBoth(s, a);
      var n, m := ReadLine(At(s, a)).1.off, ReadLine(At(Closing(s), a)).1.off;
      hide ReadLine, UntilSeparator;
      UntilSeparatorStep(At(s, a), At(s, a));
      UntilSeparatorStep(At(Closing(s), a), At(Closing(s), a));
      if !(SEPARATOR <= At(s, a).Rem()) { SeparatorBoth(s, n, m); }
    } else if a == b {
      assert At(Closing(s), a).Rem() == "\n";
      assert !(SEPARATOR <= "\n");
    }
  }

  lemma BodyBoth(s: string, off: nat)
    requires off <= |s|
    ensures Meet(s, BodyParser(At(s, off)).1.off, BodyParser(At(Closing(s), off)).1.off)
  {
    BlankLineBoth(s, off);
    LineEndBoth(s, off);
    var a, b := BodyStart(At(s, off)).off, BodyStart(At(Closing(s), off)).off;
    assert Meet(s, a, b) by { hide ReadLine, IsBlankLine; }
    hide BodyStart, UntilSeparator, TrimRight, Consumed;
    SeparatorBoth(s, a, b);
  }

  /** A body that starts on a quiet last line ends on it. */
  lemma QuietBody(s: string, off: nat)
    requires off <= |s| && Quiet(s, off)
    ensures Agree(s, BodyParser(At(s, off)).1.off, |s| + 1)
  {
    var x := At(s, off);
    if All(s[off..], IsCutSpace) {
      RunIs(s[off..], IsCutSpace, |s| - off);
      RunIs(s[off..], IsNoBreak, |s| - off) by { assert forall i :: 0 <= i < |s| - off ==> IsCutSpace(s[off..][i]); }
      assert BodyStart(x).off == |s|;
      assert UntilSeparator(BodyStart(x)).off == |s|;
      BlankIsQuiet(s, |s|);
    } else {
      RunIs(s[off..], IsCutSpace, 0) by { assert s[off..][0] == SEPARATOR[0]; }
      assert BodyStart(x) == x;
      assert UntilSeparator(x) == x;
    }
  }

  lemma EndBody(ctx: Context)
    requires ctx.AtEnd()
    ensures BodyParser(ctx).1 == ctx
  {
  }

  lemma BodyAgrees(s: string, a: nat, b: nat)
    requires Agree(s, a, b)
    ensures Agree(s, BodyParser(At(s, a)).1.off, BodyParser(At(Closing(s), b)).1.off)
  {
    if a == b {
      BodyBoth(s, a);
      BlankIsQuiet(s, |s|);
      hide BodyParser, Quiet;
    } else {
      QuietBody(s, a);
      EndBody(At(Closing(s), b));
      hide BodyParser, Quiet;
    }
  }

  predicate ItemsAgree(s: string, x: ItemResult, y: ItemResult) {
    && !y.ItemStuck?
    && (x.ItemFail? <==> y.ItemFail?)
    && (x.ItemStuck? ==> y.ItemOk? && HasOpen(s, y.item.comments))
    && (x.ItemOk? ==> y.ItemOk? && !HasOpen(s, y.item.comments) && Agree(s, x.next.off, y.next.off))
  }

  lemma NotBlankStays(ctx: Context)
    requires !ctx.AtEnd() && !IsBlankLine(ctx)
    ensures SkipBlankLines(ctx) == ctx
  {
  }

  lemma NoRequestOnSharp(env: Env, ctx: Context)
    requires ctx.AtEnd() || "#" <= ctx.Rem()
    ensures RequestLineParser(env, ctx).Fail?
  {
    assert ctx.AtEnd() || ctx.Rem()[0] == '#';
    RunIs(ctx.Rem(), WordRune(env), 0);
    EmptyIsNoVerb(VERBS);
  }

  /** The header lines and the body under one request line. */
  lemma HeadAgrees(s: string, n: nat, x: ItemResult, y: ItemResult, above: seq<Positioned>, over: seq<Positioned>, line: RequestHead, head: RequestHead)
    requires n <= |s| && !HasOpen(s, over)
    requires x == UnderLine(ConsumeEndOfLine(At(s, n)), above, line)
    requires y == UnderLine(ConsumeEndOfLine(At(Closing(s), n)), over, head)
    ensures ItemsAgree(s, x, y)
  {
    var a, b := ConsumeEndOfLine(At(s, n)), ConsumeEndOfLine(At(Closing(s), n));
    assert a.src == s && b.src == Closing(s);
    HeadersUnderLine(s, n);
    hide ConsumeEndOfLine, HeaderLoop, BodyParser, HasOpen, Agree;
    var h, g := HeaderLoop(a), HeaderLoop(b);
    OpenAppend(s, over, g.comments);
    if h.Headed? {
      assert h.next == At(s, h.next.off) && g.next == At(Closing(s), g.next.off);
      BodyAgrees(s, h.next.off, g.next.off);
    }
  }

  lemma HeadersUnderLine(s: string, n: nat)
    requires n <= |s|
    ensures HeadersAgree(s, HeaderLoop(ConsumeEndOfLine(At(s, n))), HeaderLoop(ConsumeEndOfLine(At(Closing(s), n))))
  {
    EndOfLineAgrees(s, n);
    var a, b := ConsumeEndOfLine(At(s, n)), ConsumeEndOfLine(At(Closing(s), n));
    assert a == At(s, a.off) && b == At(Closing(s), b.off);
    hide ConsumeEndOfLine, HeaderLoop, HasOpen, All, Quiet;
    if a.off == b.off {
      HeaderLoopBoth(s, a.off);
    } else {
      BlankEndsHeaders(s, n);
      HeadersStop(b) by { EndEndsHeaders(b); }
      NothingOpen(s);
    }
  }

  /** What the block parser makes of the text under a request line. */
  function UnderLine(ctx: Context, above: seq<Positioned>, line: RequestHead): ItemResult {
    match HeaderLoop(ctx)
    case Stuck => ItemStuck
    case Headed(headers, between, afterHeaders) =>
      ItemOk(Item(above + between, line, headers, BodyParser(afterHeaders).0), BodyParser(afterHeaders).1)
  }

  lemma ItemIsUnderLine(env: Env, ctx: Context)
    ensures var c := CommentLines(SkipBlankLines(ctx)); var line := RequestLineParser(env, c.1);
      ItemParser(env, ctx) == if line.Fail? then ItemFail else UnderLine(ConsumeEndOfLine(line.next), c.0, line.value)
  {
    hide SkipBlankLines, CommentLines, RequestLineParser, ConsumeEndOfLine, HeaderLoop, BodyParser;
  }

  lemma ItemBoth(env: Env, s: string, off: nat)
    requires off < |s| && !IsBlankLine(At(s, off))
    ensures ItemsAgree(s, ItemParser(env, At(s, off)), ItemParser(env, At(Closing(s), off)))
  {
    var x, y := At(s, off), At(Closing(s), off);
    BlankLineBoth(s, off);
    NotBlankStays(x);
    NotBlankStays(y);
    CommentLinesBoth(s, off);
    ItemIsUnderLine(env, x);
    ItemIsUnderLine(env, y);
    var c, d := CommentLines(x), CommentLines(y);
    hide CommentLines, SkipBlankLines, ItemParser, RequestLineParser, UnderLine, HasOpen;
    if d.1.off == c.1.off {
      RequestLineBoth(env, s, c.1.off);
      RequestLineAhead(env, c.1);
      RequestLineAhead(env, d.1);
      var p, q := RequestLineParser(env, c.1), RequestLineParser(env, d.1);
      if p.Ok? {
        HeadAgrees(s, p.next.off, ItemParser(env, x), ItemParser(env, y), c.0, d.0, p.value, q.value);
      }
    } else {
      NoRequestOnSharp(env, c.1);
      NoRequestOnSharp(env, d.1);
    }
  }

  // ---- the file loop ---------------------------------------------------------------------------

  predicate OpenIn(s: string, stretch: Stretch) {
    stretch.RequestStretch? && HasOpen(s, stretch.item.comments)
  }

  predicate TurnsAgree(s: string, x: Turn, y: Turn) {
    && y.Turn?
    && (x.Endless? <==> OpenIn(s, y.stretch))
    && (x.Turn? ==> Agree(s, x.stretch.to.off, y.stretch.to.off))
  }

  lemma UnreadableBoth(s: string, off: nat)
    requires off < |s|
    ensures Agree(s, SkipUnreadable(At(s, off)).1.off, SkipUnreadable(At(Closing(s), off)).1.off)
  {
    LineEndBoth(s, off);
    SeparatorBoth(s, ReadLine(At(s, off)).1.off, ReadLine(At(Closing(s), off)).1.off);
    BlankIsQuiet(s, |s|);
    hide ReadLine, UntilSeparator, SpanOf, Quiet;
  }

  lemma VariableEndOfLineBoth(env: Env, s: string, off: nat)
    requires off <= |s|
    ensures var x, y := VariableParser(env, At(s, off)), VariableParser(env, At(Closing(s), off));
      x.Ok? == y.Ok? && (x.Ok? ==> Agree(s, ConsumeEndOfLine(x.next).off, ConsumeEndOfLine(y.next).off))
  {
    var x, y := VariableParser(env, At(s, off)), VariableParser(env, At(Closing(s), off));
    VariableBoth(env, s, off);
    hide VariableParser, ConsumeEndOfLine, Agree;
    if x.Ok? {
      assert x.next == At(s, x.next.off) && y.next == At(Closing(s), x.next.off);
      EndOfLineAgrees(s, x.next.off);
    }
  }

  lemma TurnBoth(env: Env, s: string, off: nat)
    requires off < |s| && !IsBlankLine(At(s, off))
    ensures TurnsAgree(s, NextStretch(env, At(s, off)), NextStretch(env, At(Closing(s), off)))
  {
    hide VariableParser, ItemParser, SkipUnreadable, ConsumeEndOfLine, Agree, HasOpen, NextStretch;
    VariableEndOfLineBoth(env, s, off);
    ItemBoth(env, s, off);
    UnreadableBoth(s, off);
    TurnIs(env, At(s, off));
    TurnIs(env, At(Closing(s), off));
    hide At, Closing, IsBlankLine;
  }

  lemma EndsAtEnd(env: Env, ctx: Context)
    requires ctx.AtEnd()
    ensures SkipBlankLines(ctx) == ctx && Stretches(env, ctx) == Some([])
  {
    StretchesStep(env, ctx);
  }

  lemma {:induction false} SkipBoth(s: string, off: nat)
    requires off <= |s|
    ensures var a, b := SkipBlankLines(At(s, off)), SkipBlankLines(At(Closing(s), off));
      (a.AtEnd() && b.AtEnd()) || (a.off == b.off < |s| && !IsBlankLine(a))
    decreases |s| - off
  {
    BlankLineBoth(s, off);
    LineEndBoth(s, off);
    var n, m := ReadLine(At(s, off)).1, ReadLine(At(Closing(s), off)).1;
    assert n == At(s, n.off) && m == At(Closing(s), m.off);
    assert SkipBlankLines(At(Closing(s), off)) == if IsBlankLine(At(Closing(s), off)) then SkipBlankLines(m) else At(Closing(s), off);
    assert off < |s| ==> SkipBlankLines(At(s, off)) == if IsBlankLine(At(s, off)) then SkipBlankLines(n) else At(s, off);
    assert off == |s| ==> SkipBlankLines(At(s, off)) == At(s, off);
    assert m.AtEnd() ==> SkipBlankLines(m) == m;
    assert n.AtEnd() ==> SkipBlankLines(n) == n;
    hide ReadLine, IsBlankLine, SkipBlankLines;
    if off < |s| && IsBlankLine(At(s, off)) && n.off == m.off {
      SkipBoth(s, n.off);
    }
  }

  lemma QuietEnds(env: Env, s: string, off: nat)
    requires off <= |s| && Quiet(s, off)
    ensures Stretches(env, At(s, off)).Some?
  {
    var x := At(s, off);
    if All(s[off..], IsCutSpace) {
      QuietSkips(s, off);
      StretchesStep(env, x);
    } else {
      SeparatorEnds(env, s, off);
    }
  }

  lemma QuietSkips(s: string, off: nat)
    requires off <= |s| && All(s[off..], IsCutSpace)
    ensures SkipBlankLines(At(s, off)).AtEnd()
  {
    RunIs(s[off..], IsCutSpace, |s| - off);
    RunIs(s[off..], IsNoBreak, |s| - off) by { assert forall i :: 0 <= i < |s| - off ==> IsCutSpace(s[off..][i]); }
    assert ReadLine(At(s, off)).1.AtEnd();
    assert SkipBlankLines(ReadLine(At(s, off)).1) == ReadLine(At(s, off)).1;
  }

  lemma SeparatorEnds(env: Env, s: string, off: nat)
    requires off <= |s| && SEPARATOR <= s[off..] && NoBreakFrom(s, off)
    ensures Stretches(env, At(s, off)).Some?
  {
    var x := At(s, off);
    assert x.Rem()[0] == '#';
    assert !IsBlankLine(x) by { RunIs(x.Rem(), IsCutSpace, 0); }
    NotBlankStays(x);
    NoteBoth(s, off);
    CommentLinesStep(x);
    NoRequestOnSharp(env, x);
    assert ItemParser(env, x).ItemFail? by { hide RequestLineParser, HeaderLoop, CommentLines, NoteParser; }
    assert !("@" <= x.Rem());
    assert SkipUnreadable(x).1 == At(s, |s|) by {
      RunIs(x.Rem(), IsNoBreak, |s| - off) by { assert forall i :: 0 <= i < |s| - off ==> x.Rem()[i] == s[off + i]; }
    }
    StretchesStep(env, x);
    EndsAtEnd(env, At(s, |s|));
    hide ItemParser, SkipUnreadable, SkipBlankLines, Stretches, IsBlankLine, NoBreakFrom;
  }

  predicate AnyOpen(s: string, ss: seq<Stretch>) {
    ss != [] && (OpenIn(s, ss[0]) || AnyOpen(s, ss[1..]))
  }

  lemma {:induction false} StretchesBoth(env: Env, s: string, off: nat)
    requires off <= |s|
    ensures var x, y := Stretches(env, At(s, off)), Stretches(env, At(Closing(s), off));
      y.Some? && (x.None? <==> AnyOpen(s, y.value))
    decreases |s| - off
  {
    var x, y := At(s, off), At(Closing(s), off);
    StretchesStep(env, x);
    StretchesStep(env, y);
    SkipBoth(s, off);
    var a, b := SkipBlankLines(x), SkipBlankLines(y);
    assert a.off >= off && a.src == s && b.src == Closing(s);
    hide SkipBlankLines, NextStretch, Stretches, IsBlankLine;
    if !a.AtEnd() {
      assert a == At(s, a.off) && b == At(Closing(s), a.off);
      TurnBoth(env, s, a.off);
      NextStretchAhead(env, a);
      NextStretchAhead(env, b);
      RestBoth(env, s, a, b);
    }
  }

  lemma AnyOpenCons(s: string, stretch: Stretch, ss: seq<Stretch>)
    ensures AnyOpen(s, [stretch] + ss) <==> OpenIn(s, stretch) || AnyOpen(s, ss)
  {
    assert ([stretch] + ss)[1..] == ss;
  }

  /** What two turns that agree say of the places they lead to. */
  lemma TurnFacts(s: string, a: Context, b: Context, p: Turn, q: Turn)
    requires a.src == s && b.src == Closing(s) && TurnsAgree(s, p, q)
    requires (p.Turn? ==> Ahead(a, p.stretch.to)) && (q.Turn? ==> Ahead(b, q.stretch.to))
    ensures q.Turn? && (p.Endless? <==> OpenIn(s, q.stretch))
    ensures var to := q.stretch.to;
      && Closed(to.src) && to.off <= |Closing(s)| && to == At(Closing(s), to.off)
      && (p.Turn? ==> p.stretch.to.off <= |s| && p.stretch.to == At(s, p.stretch.to.off))
      && (p.Turn? && p.stretch.to.off != to.off ==> to.AtEnd() && Quiet(s, p.stretch.to.off))
  {
    hide Quiet, OpenIn;
  }

  lemma {:induction false} RestBoth(env: Env, s: string, a: Context, b: Context)
    requires a.src == s && b.src == Closing(s) && a.off == b.off < |s|
    requires TurnsAgree(s, NextStretch(env, a), NextStretch(env, b))
    requires var t := NextStretch(env, a); t.Turn? ==> Ahead(a, t.stretch.to) && t.stretch.to.off > a.off
    requires var t := NextStretch(env, b); t.Turn? ==> Ahead(b, t.stretch.to)
    ensures var p, q := NextStretch(env, a), NextStretch(env, b);
      && q.Turn? && Stretches(env, q.stretch.to).Some?
      && ((p.Endless? || Stretches(env, p.stretch.to).None?) <==> AnyOpen(s, [q.stretch] + Stretches(env, q.stretch.to).value))
    decreases |s| - a.off, 0
  {
    var p, q := NextStretch(env, a), NextStretch(env, b);
    var to := q.stretch.to;
    TurnFacts(s, a, b, p, q);
    hide *;
    ClosedTextEnds(env, to);
    AnyOpenCons(s, q.stretch, Stretches(env, to).value);
    if p.Turn? {
      var from := p.stretch.to;
      if from.off == to.off {
        StretchesBoth(env, s, to.off);
      } else {
        QuietEnds(env, s, from.off);
        EndsAtEnd(env, to);
        NoneOpen(s);
      }
    }
  }

  lemma NoneOpen(s: string)
    ensures !AnyOpen(s, [])
  {
  }

  // ---- exactly when ParseHttpFile returns ---------------------------------------------------------

  /** Some request of the file holds, among its notes, the last line of a text that nothing closes. */
  predicate LastLineIsNote(source: string, file: HttpFile) {
    exists i :: 0 <= i < |file.requests| && HasOpen(source, file.requests[i].comments)
  }

  lemma {:induction false} GatheredOpen(s: string, file: HttpFile, ss: seq<Stretch>)
    ensures LastLineIsNote(s, Gather(file, ss)) <==> LastLineIsNote(s, file) || AnyOpen(s, ss)
    decreases |ss|
  {
    if ss != [] {
      var more := Add(file, ss[0]);
      GatheredOpen(s, more, ss[1..]);
      hide HasOpen;
      assert LastLineIsNote(s, more) <==> LastLineIsNote(s, file) || OpenIn(s, ss[0]) by {
        if ss[0].RequestStretch? {
          var rs, item := file.requests, ss[0].item;
          assert more.requests == rs + [item];
          assert forall i :: 0 <= i < |rs| ==> more.requests[i] == rs[i];
          assert more.requests[|rs|] == item;
        }
      }
    }
  }

  /** ParseHttpFile never returns exactly when its source, closed by a line break, ends in a note of a request. */
  lemma EndlessExactlyWhen(env: Env, source: string)
    ensures FileOf(env, source + "\n").Some?
    ensures FileOf(env, source).None? <==> LastLineIsNote(source, FileOf(env, source + "\n").value)
  {
    StretchesBoth(env, source, 0);
    hide Stretches, HasOpen;
    GatheredOpen(source, NOTHING, Stretches(env, At(Closing(source), 0)).value);
  }

  /** Every source that is empty or ends in a line break is read to its end. */
  lemma ClosedFileEnds(env: Env, source: string)
    requires source == "" || Closed(source)
    ensures FileOf(env, source).Some?
  {
    if source == "" { EndsAtEnd(env, Context("", 0)); } else { ClosedTextEnds(env, Context(source, 0)); }
  }

  const HANGS: string := "GET {{u}}\n# n"

  lemma HangsWord(isWord: char -> bool)
    requires isWord('G') && isWord('E') && isWord('T') && !isWord(' ')
    ensures Many(isWord, Context(HANGS, 0)) == ("GET", Context(HANGS, 3))
  {
    var s := HANGS[0..];
    assert s[0] == 'G' && s[1] == 'E' && s[2] == 'T' && s[3] == ' ';
    RunIs(s, isWord, 3);
    hide Run;
    assert s[..3] == "GET";
  }

  lemma HangsSpace(env: Env)
    ensures Spaces(env, Context(HANGS, 3)) == Context(HANGS, 4)
  {
    var s := HANGS[3..];
    assert s[0] == ' ' && s[1] == '{';
    RunIs(s, SpaceRune(env), 1);
    hide Run;
  }

  lemma HangsOnVerb(env: Env)
    ensures VerbParser(env, Context(HANGS, 0)) == Ok("GET", Context(HANGS, 4))
  {
    HangsWord(WordRune(env));
    HangsSpace(env);
    assert ParseVerb("GET", VERBS) == Some("GET");
    hide Many, Spaces, ParseVerb;
  }

  lemma StartsIndex(s: string, needle: string)
    requires needle <= s
    ensures IndexOf(s, needle) == Some(0)
  {
  }

  lemma HangsTargetText()
    ensures LineContext(Context(HANGS, 4)).Rem() == "{{u}}"
    ensures IndexOf("{{u}}", " HTTP/").None? && TrimRight("{{u}}", IsCutSpace) == "{{u}}"
  {
    RunIs(HANGS[4..], IsNoBreak, 5);
    assert HANGS[..9][4..] == "{{u}}";
    NoVersionIn("{{u}}");
    KeptIs("{{u}}", IsCutSpace, 5);
  }

  lemma HangsOnTarget(env: Env)
    ensures TargetParser(env, Context(HANGS, 4)).Ok? && TargetParser(env, Context(HANGS, 4)).next == Context(HANGS, 9)
  {
    HangsTargetText();
    HangsTemplate();
    hide LineContext, Contains, TargetLength, TrimRight;
    assert "{{u}}"[..5] == "{{u}}";
  }

  lemma HangsTemplate()
    ensures Contains("{{u}}", "{{") && TargetLength("{{u}}") == 5
  {
    NoVersionIn("{{u}}");
    assert "{{" <= "{{u}}";
    StartsIndex("{{u}}", "{{");
    hide IndexOf;
  }

  lemma HangsWithoutVersion(env: Env)
    ensures OptionalVersion(env, Context(HANGS, 9)).off == 9
  {
    VersionIs(env, Context(HANGS, 9));
    var start := Spaces(env, Context(HANGS, 9));
    assert start.off < |HANGS| ==> HANGS[start.off] == start.Rem()[0] != 'H';
    hide Spaces, OptionalVersion;
    assert "HTTP/"[0] == 'H';
  }

  lemma HangsOnLine(env: Env)
    ensures RequestLineParser(env, Context(HANGS, 0)).Ok? && RequestLineParser(env, Context(HANGS, 0)).next == Context(HANGS, 9)
  {
    HangsOnVerb(env);
    HangsOnTarget(env);
    HangsWithoutVersion(env);
    hide VerbParser, TargetParser, OptionalVersion, RequestHeadOf;
  }

  lemma HangsBelow(ctx: Context)
    requires ctx == Context(HANGS, 9)
    ensures HeaderLoop(ConsumeEndOfLine(ctx)).Stuck?
  {
    EndOfLineBoth(HANGS, 9);
    assert HANGS[10..][0] == '#' && HANGS[10..][1] == ' ' && SEPARATOR[1] == '#';
    LastLineEnds(HANGS, 10);
    hide HeaderLoop;
  }

  lemma HangsAbove(ctx: Context)
    requires ctx == Context(HANGS, 0)
    ensures SkipBlankLines(ctx) == ctx && CommentLines(ctx) == ([], ctx)
  {
    assert ctx.Rem()[0] == 'G';
    assert !IsBlankLine(ctx) by { RunIs(ctx.Rem(), IsCutSpace, 0); }
    NotBlankStays(ctx);
    NoteBoth(HANGS, 0);
    CommentLinesStep(ctx);
    hide CommentLines, NoteParser;
  }

  lemma HangsOnItem(env: Env, ctx: Context)
    requires ctx == Context(HANGS, 0)
    ensures ItemParser(env, ctx).ItemStuck?
  {
    HangsAbove(ctx);
    HangsOnLine(env);
    HangsBelow(Context(HANGS, 9));
    ItemIsUnderLine(env, ctx);
    hide RequestLineParser, CommentLines, SkipBlankLines, HeaderLoop, ConsumeEndOfLine, ItemParser;
  }

  lemma NoVariable(env: Env, ctx: Context)
    requires !ctx.AtEnd() && ctx.Rem()[0] != '@'
    ensures VariableParser(env, ctx).Fail?
  {
  }

  /** A note typed on the last line of a request block, its line not closed yet. */
  lemma UnclosedNoteHangs(env: Env)
    ensures FileOf(env, "GET {{u}}\n# n").None?
  {
    var ctx: Context := Context(HANGS, 0);
    assert ctx.Rem()[0] == 'G' && !ctx.AtEnd();
    HangsAbove(ctx);
    NoVariable(env, ctx);
    hide *;
    HangsOnItem(env, ctx);
    TurnIs(env, ctx);
    StretchesStep(env, ctx);
    FileIs(env, HANGS);
  }

  lemma FileIs(env: Env, source: string)
    ensures FileOf(env, source).None? <==> Stretches(env, Context(source, 0)).None?
  {
    hide Stretches, Gather;
  }
}
