/** What the file loop reads: consecutive stretches that tile the source, blank text apart. */
module HttpScan {
  import opened Text
  import opened HttpGrammar
  import opened HttpBlocks

  // ---- every span stays inside what was consumed -----------------------------------

  predicate AllWithin(ps: seq<Positioned>, from: nat, to: nat) {
    forall i :: 0 <= i < |ps| ==> Within(ps[i], from, to)
  }

  predicate PairsWithin(ps: seq<Pair>, from: nat, to: nat) {
    forall i :: 0 <= i < |ps| ==> PairWithin(ps[i], from, to)
  }

  predicate ItemWithin(item: Item, from: nat, to: nat) {
    && AllWithin(item.comments, from, to)
    && LineWithin(item.line, from, to)
    && PairsWithin(item.headers, from, to)
    && Within(item.body, from, to)
  }

  lemma FirstWithin(p: Positioned, ps: seq<Positioned>, from: nat, mid: nat, next: nat, to: nat)
    requires Within(p, from, mid) && AllWithin(ps, next, to) && from <= mid <= next <= to
    ensures AllWithin([p] + ps, from, to)
  {
  }

  lemma {:induction false} CommentsWithin(ctx: Context)
    ensures AllWithin(CommentLines(ctx).0, ctx.off, CommentLines(ctx).1.off)
    decreases ctx.Left()
  {
    CommentLinesStep(ctx);
    hide CommentLines, NoteParser, ConsumeEndOfLine, Within, AllWithin;
    var note := NoteParser(ctx);
    if note.Ok? {
      var next := ConsumeEndOfLine(note.next);
      CommentsWithin(next);
      FirstWithin(note.value, CommentLines(next).0, ctx.off, note.next.off, next.off, CommentLines(next).1.off);
    } else {
      NoneWithin(ctx.off);
    }
  }

  lemma NoneWithin(off: nat)
    ensures AllWithin([], off, off)
  {
  }

  lemma {:induction false} HeadersWithin(ctx: Context)
    ensures var r := HeaderLoop(ctx);
      r.Headed? ==> PairsWithin(r.headers, ctx.off, r.next.off) && AllWithin(r.comments, ctx.off, r.next.off)
    decreases ctx.Left()
  {
    HeaderLoopStep(ctx);
    HeaderAhead(ctx);
    CommentsWithin(ctx);
    hide HeaderLoop, CommentLines, HeaderParser, IsBlankLine;
    if !HeadersEnd(ctx) {
      if "#" <= ctx.Rem() {
        if CommentLines(ctx).0 != [] { HeadersWithin(CommentLines(ctx).1); }
      } else if HeaderParser(ctx).Ok? {
        HeadersWithin(ConsumeEndOfLine(HeaderParser(ctx).next));
      }
    }
  }

  // ---- no body line opens a block ------------------------------------------------------

  predicate StartsAt(src: string, p: nat)
    requires p <= |src|
  {
    SEPARATOR <= src[p..]
  }

  predicate LineStart(src: string, from: nat, p: nat)
    requires from <= p <= |src|
  {
    p == from || src[p - 1] == '\n'
  }

  predicate NoSeparatorLine(src: string, from: nat, to: nat)
    requires from <= to <= |src|
  {
    forall p :: from <= p < to && LineStart(src, from, p) ==> !StartsAt(src, p)
  }

  lemma LineHasOneBreak(ctx: Context)
    requires !ctx.AtEnd()
    ensures forall p :: ctx.off <= p < ReadLine(ctx).1.off - 1 ==> ctx.src[p] != '\n'
  {
    forall p | ctx.off <= p < ReadLine(ctx).1.off - 1 ensures ctx.src[p] != '\n' {
      assert ctx.src[p] == ctx.Rem()[p - ctx.off];
    }
  }

  lemma {:induction false} UntilSeparatorLines(ctx: Context)
    ensures NoSeparatorLine(ctx.src, ctx.off, UntilSeparator(ctx).off)
    decreases ctx.Left()
  {
    if !(ctx.AtEnd() || SEPARATOR <= ctx.Rem()) {
      var rest := ReadLine(ctx).1;
      LineHasOneBreak(ctx);
      UntilSeparatorLines(rest);
      hide ReadLine;
      forall p | ctx.off <= p < UntilSeparator(ctx).off && LineStart(ctx.src, ctx.off, p) ensures !StartsAt(ctx.src, p) {
        if p >= rest.off {
          assert LineStart(ctx.src, rest.off, p);
        }
      }
    }
  }

  // ---- the stretches ---------------------------------------------------------------------

  predicate WellRead(s: Stretch) {
    && Ahead(s.from, s.to) && s.from.off < s.to.off
    && match s
       case VariableStretch(v, from, to) => PairWithin(v, from.off, to.off)
       case RequestStretch(item, from, to) =>
         && ItemWithin(item, from.off, to.off)
         && NoSeparatorLine(from.src, item.body.start, to.off)
         && (to.AtEnd() || SEPARATOR <= to.Rem())
       case IssueStretch(issue, from, to) =>
         && from.off <= issue.start <= issue.end <= to.off
         && (to.AtEnd() || SEPARATOR <= to.Rem())
  }

  predicate BlankBetween(a: Context, b: Context) {
    Ahead(a, b) && All(Consumed(a, b), IsCutBreak)
  }

  /** Consecutive stretches from `ctx` to the end, nothing but blanks between them. */
  predicate Tiled(ctx: Context, ss: seq<Stretch>)
    decreases |ss|
  {
    if ss == [] then All(ctx.Rem(), IsCutBreak)
    else BlankBetween(ctx, ss[0].from) && WellRead(ss[0]) && Tiled(ss[0].to, ss[1..])
  }

  lemma BlankLineIsBlank(ctx: Context)
    requires !ctx.AtEnd() && IsBlankLine(ctx)
    ensures BlankBetween(ctx, ReadLine(ctx).1)
  {
    var rem, next := ctx.Rem(), ReadLine(ctx).1;
    var n := Run(rem, IsCutSpace);
    assert forall i :: 0 <= i < n ==> IsCutSpace(rem[i]);
    RunIs(rem, IsNoBreak, n);
    assert Consumed(ctx, next) == rem[..next.off - ctx.off];
  }

  lemma {:induction false} SkippedIsBlank(ctx: Context)
    ensures BlankBetween(ctx, SkipBlankLines(ctx))
    decreases ctx.Left()
  {
    if ctx.AtEnd() || !IsBlankLine(ctx) {
    } else {
      var rest := ReadLine(ctx).1;
      BlankLineIsBlank(ctx);
      SkippedIsBlank(rest);
      ConsumedMore(ctx, rest, SkipBlankLines(rest));
    }
  }

  lemma BodyIsWithin(ctx: Context)
    ensures var (body, next) := BodyParser(ctx);
      Within(body, ctx.off, next.off) && Ahead(ctx, next) && NoSeparatorLine(ctx.src, body.start, next.off)
  {
    UntilSeparatorLines(BodyStart(ctx));
    hide UntilSeparator, NoSeparatorLine;
  }

  lemma Widen(ps: seq<Positioned>, qs: seq<Pair>, line: RequestHead, from: nat, lo: nat, hi: nat, to: nat)
    requires from <= lo <= hi <= to
    ensures AllWithin(ps, lo, hi) ==> AllWithin(ps, from, to)
    ensures PairsWithin(qs, lo, hi) ==> PairsWithin(qs, from, to)
    ensures LineWithin(line, lo, hi) ==> LineWithin(line, from, to)
  {
  }

  lemma BothWithin(a: seq<Positioned>, b: seq<Positioned>, from: nat, to: nat)
    requires AllWithin(a, from, to) && AllWithin(b, from, to)
    ensures AllWithin(a + b, from, to)
  {
  }

  lemma ItemIsWithin(env: Env, ctx: Context)
    ensures var r := ItemParser(env, ctx);
      r.ItemOk? ==> Ahead(ctx, r.next) && ItemWithin(r.item, ctx.off, r.next.off) && NoSeparatorLine(ctx.src, r.item.body.start, r.next.off)
  {
    hide CommentLines, SkipBlankLines, RequestLineParser, HeaderLoop, ConsumeEndOfLine, BodyParser, NoSeparatorLine, AllWithin, PairsWithin, LineWithin;
    var start := SkipBlankLines(ctx);
    var (above, n) := CommentLines(start);
    var line := RequestLineParser(env, n);
    CommentsWithin(start);
    RequestLineAhead(env, n);
    if line.Ok? {
      var headers := ConsumeEndOfLine(line.next);
      var headed := HeaderLoop(headers);
      if headed.Headed? {
        HeadersWithin(headers);
        BodyIsWithin(headed.next);
        var to := BodyParser(headed.next).1.off;
        Widen(above, [], line.value, ctx.off, start.off, n.off, to);
        Widen([], [], line.value, ctx.off, n.off, line.next.off, to);
        Widen(headed.comments, headed.headers, line.value, ctx.off, headers.off, headed.next.off, to);
        BothWithin(above, headed.comments, ctx.off, to);
      }
    }
  }

  lemma NextIsWellRead(env: Env, ctx: Context)
    requires !ctx.AtEnd()
    ensures NextStretch(env, ctx).Turn? ==> WellRead(NextStretch(env, ctx).stretch)
  {
    ItemIsWithin(env, ctx);
    ItemAhead(env, ctx);
    hide VariableParser, ItemParser, ItemWithin, NoSeparatorLine;
    SkipUnreadableEnds(ctx);
    hide SkipUnreadable;
  }

  lemma SkipUnreadableEnds(ctx: Context)
    ensures var (issue, next) := SkipUnreadable(ctx); next.AtEnd() || SEPARATOR <= next.Rem()
  {
  }

  lemma ConsumedToEnd(ctx: Context, end: Context)
    requires Ahead(ctx, end) && end.AtEnd()
    ensures Consumed(ctx, end) == ctx.Rem()
  {
    assert ctx.src[ctx.off..|ctx.src|] == ctx.src[ctx.off..];
  }

  /**
   The variables, requests and issues of a file come from consecutive disjoint stretches of it,
   blank text apart; no body line opens a block; a request or an issue ends at a separator or at the end.
   */
  lemma {:induction false} StretchesTile(env: Env, ctx: Context)
    ensures Stretches(env, ctx).Some? ==> Tiled(ctx, Stretches(env, ctx).value)
    decreases ctx.Left()
  {
    var start := SkipBlankLines(ctx);
    SkippedIsBlank(ctx);
    StretchesStep(env, ctx);
    hide SkipBlankLines, Stretches, NextStretch, WellRead;
    if start.AtEnd() {
      ConsumedToEnd(ctx, start);
    } else if NextStretch(env, start).Turn? {
      NextStretchAhead(env, start);
      NextIsWellRead(env, start);
      StretchesTile(env, NextStretch(env, start).stretch.to);
    }
  }

  // ---- the file's spans -----------------------------------------------------------------

  predicate FileWithin(file: HttpFile, from: nat, to: nat) {
    && PairsWithin(file.variables, from, to)
    && (forall i :: 0 <= i < |file.requests| ==> ItemWithin(file.requests[i], from, to))
    && (forall i :: 0 <= i < |file.issues| ==> from <= file.issues[i].start <= file.issues[i].end <= to)
  }

  lemma AddWithin(file: HttpFile, s: Stretch, to: nat)
    requires FileWithin(file, 0, to) && WellRead(s) && s.to.off <= to
    ensures FileWithin(Add(file, s), 0, to)
  {
    hide NoSeparatorLine;
  }

  lemma {:induction false} GatherWithin(file: HttpFile, ctx: Context, ss: seq<Stretch>)
    requires FileWithin(file, 0, |ctx.src|) && Tiled(ctx, ss)
    ensures FileWithin(Gather(file, ss), 0, |ctx.src|)
    decreases |ss|
  {
    if ss != [] {
      AddWithin(file, ss[0], |ctx.src|);
      GatherWithin(Add(file, ss[0]), ss[0].to, ss[1..]);
    }
  }

  /** Every span of a parsed file lies inside its source. */
  lemma SpansInSource(env: Env, source: string)
    ensures FileOf(env, source).Some? ==> FileWithin(FileOf(env, source).value, 0, |source|)
  {
    StretchesTile(env, Context(source, 0));
    if Stretches(env, Context(source, 0)).Some? {
      GatherWithin(NOTHING, Context(source, 0), Stretches(env, Context(source, 0)).value);
    }
  }
}
