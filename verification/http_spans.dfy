/** Every field of a parsed file is the source where it stands: what is painted, run and shown are the same runes. */
module HttpSpans {
  import opened Text
  import opened HttpGrammar
  import opened HttpBlocks
  import opened HttpGrammarLines
  import opened HttpVersions

  /** The text is the source between its bounds. */
  predicate TextAt(src: string, p: Positioned) {
    p.start <= p.end <= |src| && p.text == src[p.start..p.end]
  }

  /** The letters of a verb, in any case, then nothing but blanks. */
  predicate VerbAt(env: Env, src: string, p: Positioned) {
    && p.start + |p.text| <= p.end <= |src| && p.text in VERBS
    && EqualFold(p.text, src[p.start..p.start + |p.text|]) && All(src[p.start + |p.text|..p.end], SpaceRune(env))
  }

  /** A marker, the note's text, and the line break that ends it; the span leaves out the returns before the break. */
  predicate NoteAt(src: string, p: Positioned) {
    && p.start <= p.end <= |src|
    && var marker := if SEPARATOR <= src[p.start..] then SEPARATOR else "#";
    && marker <= src[p.start..] && p.start + |marker| + |p.text| < |src|
    && var end := p.start + |marker| + |p.text|;
    && p.text == src[p.start + |marker|..end] && src[end] == '\n' && OneLine(p.text) && p.end <= end
    && All(src[p.end..end], IsReturn) && (p.start < p.end ==> src[p.end - 1] != '\r')
  }

  predicate PairAt(src: string, p: Pair) {
    TextAt(src, p.name) && TextAt(src, p.value)
  }

  /** `@` and the name, then the value. */
  predicate VariableAt(src: string, p: Pair) {
    && p.name.start < p.name.end <= |src| && src[p.name.start] == '@' && p.name.text == src[p.name.start + 1..p.name.end]
    && TextAt(src, p.value)
  }

  ghost predicate LineAt(env: Env, src: string, line: RequestHead) {
    VerbAt(env, src, line.verb) && LineIsSource(src, line)
  }

  predicate NotesAt(src: string, ns: seq<Positioned>) {
    forall i :: 0 <= i < |ns| ==> NoteAt(src, ns[i])
  }

  predicate PairsAt(src: string, ps: seq<Pair>) {
    forall i :: 0 <= i < |ps| ==> PairAt(src, ps[i])
  }

  ghost predicate ItemAt(env: Env, src: string, item: Item) {
    NotesAt(src, item.comments) && LineAt(env, src, item.line) && PairsAt(src, item.headers) && TextAt(src, item.body)
  }

  ghost predicate StretchAt(env: Env, src: string, s: Stretch) {
    match s
    case VariableStretch(v, _, _) => VariableAt(src, v)
    case RequestStretch(item, _, _) => ItemAt(env, src, item)
    case IssueStretch(_, _, _) => true
  }

  ghost predicate FileAt(env: Env, src: string, file: HttpFile) {
    && (forall i :: 0 <= i < |file.variables| ==> VariableAt(src, file.variables[i]))
    && (forall i :: 0 <= i < |file.requests| ==> ItemAt(env, src, file.requests[i]))
  }

  // ---- one field ---------------------------------------------------------------------------

  lemma ConsumedIsSource(a: Context, b: Context)
    requires Ahead(a, b)
    ensures Consumed(a, b) == a.src[a.off..b.off] && |Consumed(a, b)| == b.off - a.off
    ensures forall i :: 0 <= i < b.off - a.off ==> Consumed(a, b)[i] == a.src[a.off + i]
  {
  }

  lemma SpanIsText(before: Context, after: Context, cut: char -> bool)
    requires Ahead(before, after)
    ensures TextAt(before.src, SpanOf(before, after, cut))
  {
    hide SpanOf;
    SpanIsSource(before, after, cut);
  }

  /** A span that opens with no blank starts where it was measured from. */
  lemma SpanStarts(before: Context, after: Context, cut: char -> bool)
    requires Ahead(before, after) && Consumed(before, after) != "" && !IsBlank(Consumed(before, after)[0])
    ensures var p := SpanOf(before, after, cut); var n := Kept(Consumed(before, after), cut);
      p.start == before.off && p.end == before.off + n && n <= after.off - before.off
  {
    RunIs(Consumed(before, after), IsBlank, 0);
    hide Kept, Run;
  }

  lemma {:induction false} FoundVerb(input: string, verbs: seq<string>)
    ensures var v := ParseVerb(input, verbs); v.Some? ==> v.value in verbs && EqualFold(v.value, input) && |v.value| == |input|
  {
    if verbs != [] { FoundVerb(input, verbs[1..]); }
  }

  lemma WordIsNoBlank(env: Env)
    ensures forall c :: WordRune(env)(c) ==> !IsCutSpace(c)
  {
  }

  lemma VerbParts(env: Env, ctx: Context)
    requires VerbParser(env, ctx).Ok?
    ensures var (word, after) := Many(WordRune(env), ctx); var next := VerbParser(env, ctx).next;
      && ParseVerb(word, VERBS) == Some(VerbParser(env, ctx).value) && next == Spaces(env, after)
  {
    hide Many, ParseVerb, Spaces;
  }

  lemma ManyIs(p: char -> bool, ctx: Context)
    ensures var (text, next) := Many(p, ctx); Ahead(ctx, next) && text == ctx.src[ctx.off..next.off] && All(text, p)
  {
    var n := Run(ctx.Rem(), p);
    assert ctx.Rem()[..n] == ctx.src[ctx.off..ctx.off + n];
  }

  lemma KeptBehind(s: string, p: char -> bool, n: nat)
    requires 0 < n <= |s| && !p(s[n - 1])
    ensures Kept(s, p) >= n
  {
    KeptPast(s, p, n - 1);
  }

  lemma SplitConsumed(a: Context, b: Context, c: Context)
    requires Ahead(a, b) && Ahead(b, c)
    ensures Ahead(a, c) && Consumed(a, c) == Consumed(a, b) + Consumed(b, c)
  {
    ConsumedMore(a, b, c);
  }

  lemma VerbIsSource(env: Env, ctx: Context)
    requires VerbParser(env, ctx).Ok?
    ensures VerbAt(env, ctx.src, SpanOf(ctx, VerbParser(env, ctx).next, IsCutSpace).(text := VerbParser(env, ctx).value))
  {
    hide *;
    var verb, next, word := VerbParser(env, ctx).value, VerbParser(env, ctx).next, Many(WordRune(env), ctx).0;
    var after := Many(WordRune(env), ctx).1;
    VerbParts(env, ctx);
    ManyIs(WordRune(env), ctx);
    ManyIs(SpaceRune(env), after);
    SpacesIs(env, after);
    FoundVerb(word, VERBS);
    NoVerbIsEmpty();
    WordEnds(env, ctx, after, next);
    SpanStarts(ctx, next, IsCutSpace);
    KeptBehind(Consumed(ctx, next), IsCutSpace, |word|);
    var p := SpanOf(ctx, next, IsCutSpace);
    BlanksStay(env, ctx.src, after.off, p.end, next.off);
    VerbIs(env, ctx.src, p.(text := verb), word);
  }

  lemma NoVerbIsEmpty()
    ensures ParseVerb("", VERBS) == None
  {
    EmptyIsNoVerb(VERBS);
  }

  /** The word's letters and digits are no noise of a span. */
  lemma WordEnds(env: Env, ctx: Context, after: Context, next: Context)
    requires Ahead(ctx, after) && Ahead(after, next) && ctx.src[ctx.off..after.off] != "" && All(ctx.src[ctx.off..after.off], WordRune(env))
    ensures Ahead(ctx, next) && next.src == ctx.src && |ctx.src[ctx.off..after.off]| == after.off - ctx.off && next.off <= |ctx.src|
    ensures Consumed(ctx, next) != "" && !IsBlank(Consumed(ctx, next)[0])
    ensures var n := after.off - ctx.off; n <= |Consumed(ctx, next)| && !IsCutSpace(Consumed(ctx, next)[n - 1])
  {
    WordIsNoBlank(env);
    var word, n := ctx.src[ctx.off..after.off], after.off - ctx.off;
    assert WordRune(env)(word[0]) && WordRune(env)(word[n - 1]);
    ConsumedIsSource(ctx, next);
    hide WordRune, Consumed;
    assert word[0] == ctx.src[ctx.off] && word[n - 1] == ctx.src[after.off - 1];
  }

  lemma VerbIs(env: Env, src: string, p: Positioned, word: string)
    requires p.start + |word| <= p.end <= |src| && p.text in VERBS && EqualFold(p.text, word) && |p.text| == |word|
    requires word == src[p.start..p.start + |word|] && All(src[p.start + |word|..p.end], SpaceRune(env))
    ensures VerbAt(env, src, p)
  {
    hide EqualFold, SpaceRune, All;
  }

  lemma SpacesIs(env: Env, ctx: Context)
    ensures Spaces(env, ctx) == Many(SpaceRune(env), ctx).1
  {
    hide Many;
  }

  lemma BlanksStay(env: Env, src: string, from: nat, mid: nat, to: nat)
    requires from <= mid <= to <= |src| && All(src[from..to], SpaceRune(env))
    ensures All(src[from..mid], SpaceRune(env))
  {
    hide SpaceRune;
    forall i | 0 <= i < mid - from ensures SpaceRune(env)(src[from..mid][i]) { assert src[from..mid][i] == src[from..to][i]; }
  }

  lemma RequestLineIsSource(env: Env, ctx: Context)
    ensures RequestLineParser(env, ctx).Ok? ==> LineAt(env, ctx.src, RequestLineParser(env, ctx).value)
  {
    LineReadIsSource(env, ctx);
    hide VerbParser, TargetParser, OptionalVersion, SpanOf, VerbAt, LineIsSource;
    if RequestLineParser(env, ctx).Ok? { VerbIsSource(env, ctx); }
  }

  lemma HeaderIsSource(ctx: Context)
    ensures HeaderParser(ctx).Ok? ==> PairAt(ctx.src, HeaderParser(ctx).value)
  {
    hide UntilText, Many, SpanOf, TextAt;
    if HeaderParser(ctx).Ok? {
      var afterName := UntilText(IsNameChar, ":", true, ctx).next;
      SpanIsText(ctx, afterName, IsCutColon);
      SpanIsText(afterName, Many(IsNoBreakOrReturn, afterName).1, IsCutSpace);
    }
  }

  lemma VariableIsSource(env: Env, ctx: Context)
    ensures VariableParser(env, ctx).Ok? ==> VariableAt(ctx.src, VariableParser(env, ctx).value)
  {
    if VariableParser(env, ctx).Ok? {
      AtOpens(ctx);
      var marker := ctx.Forward(1);
      ManyIs(NameRune(env), marker);
      var (name, afterName) := Many(NameRune(env), marker);
      var assign := Spaces(env, afterName).Forward(1);
      hide Many, SpanOf, Spaces, NameRune, TextAt;
      SpanIsText(assign, Many(IsNoBreakOrReturn, assign).1, IsCutSpace);
    }
  }

  lemma AtOpens(ctx: Context)
    ensures StringMatch("@", ctx).Ok? ==> ctx.off < |ctx.src| && ctx.src[ctx.off] == '@' && StringMatch("@", ctx) == Ok("@", ctx.Forward(1))
  {
    if "@" <= ctx.Rem() { assert ctx.Rem()[0] == '@'; }
  }

  lemma {:induction false} BreakFound(s: string)
    ensures var i := IndexOf(s, "\n"); i.Some? ==> i.value < |s| && s[i.value] == '\n' && forall j :: 0 <= j < i.value ==> s[j] != '\n'
  {
    if s != "" { BreakFound(s[1..]); }
  }

  lemma CommentParts(prefix: string, ctx: Context)
    requires CommentParser(prefix, ctx).Ok?
    ensures prefix <= ctx.Rem() && |prefix| <= ctx.Left()
    ensures var marker := ctx.Forward(|prefix|); var i := IndexOf(marker.Rem(), "\n"); var r := CommentParser(prefix, ctx);
      && i.Some? && i.value <= marker.Left() && r.next == marker.Forward(i.value)
      && r.value == SpanOf(ctx, r.next, IsReturn).(text := marker.Rem()[..i.value])
  {
    hide SpanOf, IndexOf;
  }

  /** The text of a note and the break behind it, in the source. */
  lemma CommentText(prefix: string, ctx: Context, i: nat)
    requires prefix <= ctx.Rem() && |prefix| <= ctx.Left() && IndexOf(ctx.Forward(|prefix|).Rem(), "\n") == Some(i) && i <= ctx.Forward(|prefix|).Left()
    ensures var m := ctx.off + |prefix|; var text := ctx.Forward(|prefix|).Rem()[..i];
      && m + i < |ctx.src| && ctx.src[m + i] == '\n' && |text| == i && text == ctx.src[m..m + i] && OneLine(text)
      && ctx.Forward(|prefix|).Forward(i).off == m + i && ctx.Forward(|prefix|).Forward(i).src == ctx.src
  {
    var rem := ctx.Forward(|prefix|).Rem();
    BreakFound(rem);
    hide IndexOf;
    assert rem[i] == ctx.src[ctx.off + |prefix| + i];
  }

  lemma MarkerOpens(prefix: string, ctx: Context, next: Context)
    requires prefix <= ctx.Rem() && (prefix == SEPARATOR || prefix == "#") && Ahead(ctx, next) && next.off >= ctx.off + |prefix|
    ensures Consumed(ctx, next) != "" && !IsBlank(Consumed(ctx, next)[0]) && ctx.Rem() == ctx.src[ctx.off..]
  {
    assert ctx.Rem()[0] == '#' && prefix[0] == '#';
    ConsumedIsSource(ctx, next);
  }

  lemma NoteIs(src: string, p: Positioned, marker: string, end: nat)
    requires p.start <= p.end <= end < |src| && marker == (if SEPARATOR <= src[p.start..] then SEPARATOR else "#") && marker <= src[p.start..]
    requires end == p.start + |marker| + |p.text| && p.text == src[p.start + |marker|..end] && src[end] == '\n' && OneLine(p.text)
    requires All(src[p.end..end], IsReturn) && (p.start < p.end ==> src[p.end - 1] != '\r')
    ensures NoteAt(src, p)
  {
  }

  lemma CommentIsSource(prefix: string, ctx: Context)
    requires CommentParser(prefix, ctx).Ok? && (prefix == SEPARATOR || (prefix == "#" && !(SEPARATOR <= ctx.Rem())))
    ensures NoteAt(ctx.src, CommentParser(prefix, ctx).value)
  {
    hide *;
    CommentParts(prefix, ctx);
    var r, i := CommentParser(prefix, ctx), IndexOf(ctx.Forward(|prefix|).Rem(), "\n").value;
    CommentText(prefix, ctx, i);
    CommentAhead(prefix, ctx);
    MarkerOpens(prefix, ctx, r.next);
    SpanStarts(ctx, r.next, IsReturn);
    NoteEnds(ctx, r.next, r.value.end);
    NoteIs(ctx.src, r.value, prefix, r.next.off);
  }

  lemma CommentAhead(prefix: string, ctx: Context)
    requires CommentParser(prefix, ctx).Ok?
    ensures Ahead(ctx, CommentParser(prefix, ctx).next) && ctx.off <= CommentParser(prefix, ctx).next.off && ctx.off <= |ctx.src|
    ensures CommentParser(prefix, ctx).value.start <= CommentParser(prefix, ctx).value.end
  {
    hide SpanOf, IndexOf;
  }

  lemma NoteEnds(ctx: Context, next: Context, end: nat)
    requires Ahead(ctx, next) && end == ctx.off + Kept(Consumed(ctx, next), IsReturn)
    ensures end <= next.off && All(ctx.src[end..next.off], IsReturn) && (ctx.off < end ==> ctx.src[end - 1] != '\r')
  {
    var s := Consumed(ctx, next);
    var n := Kept(s, IsReturn);
    ConsumedIsSource(ctx, next);
    forall k | 0 <= k < next.off - end ensures IsReturn(ctx.src[end..next.off][k]) { assert s[n + k] == ctx.src[end + k]; }
  }

  lemma NoteIsSource(ctx: Context)
    ensures NoteParser(ctx).Ok? ==> NoteAt(ctx.src, NoteParser(ctx).value)
  {
    hide CommentParser, NoteAt;
    if CommentParser(SEPARATOR, ctx).Ok? {
      CommentIsSource(SEPARATOR, ctx);
    } else if CommentParser("#", ctx).Ok? {
      OneMarkOnly(ctx);
      CommentIsSource("#", ctx);
    }
  }

  /** A line that opens with three marks and ends is a separator before it is a note. */
  lemma OneMarkOnly(ctx: Context)
    requires CommentParser(SEPARATOR, ctx).Fail? && CommentParser("#", ctx).Ok?
    ensures !(SEPARATOR <= ctx.Rem())
  {
    if SEPARATOR <= ctx.Rem() {
      CommentParts("#", ctx);
      BreakFound(ctx.Forward(1).Rem());
      var i := IndexOf(ctx.Forward(1).Rem(), "\n").value;
      assert ctx.Rem()[0] == '#' && ctx.Rem()[1] == '#' && ctx.Rem()[2] == '#';
      assert ctx.Forward(1).Rem()[0] == ctx.Rem()[1] && ctx.Forward(1).Rem()[1] == ctx.Rem()[2];
      assert ctx.Forward(3).Rem()[i - 2] == '\n';
      BreakThere(ctx.Forward(3).Rem(), i - 2);
    }
  }

  lemma {:induction false} BreakThere(s: string, i: nat)
    requires i < |s| && s[i] == '\n'
    ensures IndexOf(s, "\n").Some?
  {
    if i > 0 { BreakThere(s[1..], i - 1); }
  }

  lemma BodyIsSource(ctx: Context)
    ensures TextAt(ctx.src, BodyParser(ctx).0)
  {
    var start := BodyStart(ctx);
    var next := UntilSeparator(start);
    var text := TrimRight(Consumed(start, next), IsBreak);
    ConsumedIsSource(start, next);
    assert text == Consumed(start, next)[..|text|];
    assert text == ctx.src[start.off..start.off + |text|];
    hide UntilSeparator, BodyStart, TrimRight;
  }

  // ---- a block --------------------------------------------------------------------------------

  lemma {:induction false} NotesAreSource(ctx: Context)
    ensures NotesAt(ctx.src, CommentLines(ctx).0)
    decreases ctx.Left()
  {
    CommentLinesStep(ctx);
    hide CommentLines, NoteParser, ConsumeEndOfLine, NoteAt;
    var note := NoteParser(ctx);
    if note.Ok? {
      NoteIsSource(ctx);
      NoteAheadSame(ctx);
      NotesAreSource(ConsumeEndOfLine(note.next));
    }
  }

  lemma NoteAheadSame(ctx: Context)
    requires NoteParser(ctx).Ok?
    ensures ConsumeEndOfLine(NoteParser(ctx).next).src == ctx.src
  {
    hide NoteParser;
  }

  predicate HeadedAt(src: string, r: Headed) {
    r.Headed? ==> PairsAt(src, r.headers) && NotesAt(src, r.comments)
  }

  lemma MoreNotes(src: string, notes: seq<Positioned>, r: Headed)
    requires r.Headed? && HeadedAt(src, r) && NotesAt(src, notes)
    ensures HeadedAt(src, Headed(r.headers, notes + r.comments, r.next))
  {
    hide NoteAt;
  }

  lemma MoreHeaders(src: string, h: Pair, r: Headed)
    requires r.Headed? && HeadedAt(src, r) && PairAt(src, h)
    ensures HeadedAt(src, Headed([h] + r.headers, r.comments, r.next))
  {
    hide PairAt;
  }

  lemma {:induction false} HeadersAreSource(ctx: Context)
    ensures HeadedAt(ctx.src, HeaderLoop(ctx))
    decreases ctx.Left()
  {
    HeaderLoopStep(ctx);
    hide HeaderLoop, CommentLines, HeaderParser, IsBlankLine, ConsumeEndOfLine, PairAt, NotesAt;
    if HeadersEnd(ctx) || (!("#" <= ctx.Rem()) && HeaderParser(ctx).Fail?) {
      NothingAt(ctx.src);
    } else if "#" <= ctx.Rem() {
      var (notes, n) := CommentLines(ctx);
      if notes != [] {
        NotesAreSource(ctx);
        HeadersAreSource(n);
        if HeaderLoop(n).Headed? { MoreNotes(ctx.src, notes, HeaderLoop(n)); }
      }
    } else {
      var next := ConsumeEndOfLine(HeaderParser(ctx).next);
      HeaderIsSource(ctx);
      HeaderAheadSame(ctx);
      HeadersAreSource(next);
      if HeaderLoop(next).Headed? { MoreHeaders(ctx.src, HeaderParser(ctx).value, HeaderLoop(next)); }
    }
  }

  lemma NothingAt(src: string)
    ensures NotesAt(src, []) && PairsAt(src, [])
  {
  }

  lemma HeaderAheadSame(ctx: Context)
    requires HeaderParser(ctx).Ok?
    ensures ConsumeEndOfLine(HeaderParser(ctx).next).src == ctx.src
  {
    HeaderAhead(ctx);
    hide HeaderParser;
  }

  lemma BothNotes(src: string, a: seq<Positioned>, b: seq<Positioned>)
    requires NotesAt(src, a) && NotesAt(src, b)
    ensures NotesAt(src, a + b)
  {
    hide NoteAt;
  }

  lemma ItemIsSource(env: Env, ctx: Context)
    ensures var r := ItemParser(env, ctx); r.ItemOk? ==> ItemAt(env, ctx.src, r.item)
  {
    hide CommentLines, SkipBlankLines, RequestLineParser, HeaderLoop, ConsumeEndOfLine, BodyParser, NotesAt, PairsAt, LineAt, TextAt;
    var start := SkipBlankLines(ctx);
    var (above, n) := CommentLines(start);
    var line := RequestLineParser(env, n);
    NotesAreSource(start);
    RequestLineIsSource(env, n);
    RequestLineAhead(env, n);
    if line.Ok? {
      var headers := ConsumeEndOfLine(line.next);
      var headed := HeaderLoop(headers);
      HeadersAreSource(headers);
      if headed.Headed? {
        BodyIsSource(headed.next);
        BothNotes(ctx.src, above, headed.comments);
      }
    }
  }

  // ---- a file -----------------------------------------------------------------------------------

  lemma TurnIsSource(env: Env, ctx: Context)
    ensures var t := NextStretch(env, ctx); t.Turn? ==> StretchAt(env, ctx.src, t.stretch)
  {
    TurnIs(env, ctx);
    VariableIsSource(env, ctx);
    ItemIsSource(env, ctx);
    hide NextStretch, VariableParser, ItemParser, SkipUnreadable, ItemAt, VariableAt;
  }

  ghost predicate StretchesAt(env: Env, src: string, ss: seq<Stretch>) {
    forall i :: 0 <= i < |ss| ==> StretchAt(env, src, ss[i])
  }

  lemma {:induction false} StretchesAreSource(env: Env, ctx: Context)
    ensures Stretches(env, ctx).Some? ==> StretchesAt(env, ctx.src, Stretches(env, ctx).value)
    decreases ctx.Left()
  {
    StretchesStep(env, ctx);
    var start := SkipBlankLines(ctx);
    hide SkipBlankLines, Stretches, NextStretch, StretchAt;
    if !start.AtEnd() && NextStretch(env, start).Turn? {
      NextStretchAhead(env, start);
      TurnIsSource(env, start);
      StretchesAreSource(env, NextStretch(env, start).stretch.to);
    }
  }

  lemma {:induction false} GatheredAt(env: Env, src: string, file: HttpFile, ss: seq<Stretch>)
    requires FileAt(env, src, file) && StretchesAt(env, src, ss)
    ensures FileAt(env, src, Gather(file, ss))
    decreases |ss|
  {
    hide ItemAt, VariableAt;
    if ss != [] {
      assert StretchAt(env, src, ss[0]);
      assert StretchesAt(env, src, ss[1..]) by { assert forall i :: 0 <= i < |ss| - 1 ==> ss[1..][i] == ss[i + 1]; }
      GatheredAt(env, src, Add(file, ss[0]), ss[1..]);
    }
  }

  /** Every name, value, target, version, body and note of a parsed file is the source where it stands, and no target holds a version. */
  lemma FieldsAreSource(env: Env, source: string)
    ensures FileOf(env, source).Some? ==> FileAt(env, source, FileOf(env, source).value)
  {
    StretchesAreSource(env, At(source, 0));
    hide Stretches, ItemAt, VariableAt;
    if FileOf(env, source).Some? {
      GatheredAt(env, source, NOTHING, Stretches(env, At(source, 0)).value);
    }
  }
}
