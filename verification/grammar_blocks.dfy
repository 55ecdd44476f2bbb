/** Request blocks and whole files: the loops above the line parsers. */
module HttpBlocks {
  import opened Text
  import opened HttpGrammar

  // ---- comment lines -----------------------------------------------------------

  /** Every comment line found from here on, in order. */
  function CommentLines(ctx: Context): (r: (seq<Positioned>, Context))
    ensures Ahead(ctx, r.1)
    ensures r.0 == [] ==> r.1 == ctx
    ensures r.0 != [] ==> r.1.Left() < ctx.Left()
    decreases ctx.Left()
  {
    match NoteParser(ctx)
    case Fail => ([], ctx)
    case Ok(c, n) =>
      var next := ConsumeEndOfLine(n);
      var (rest, end) := CommentLines(next);
      ([c] + rest, end)
  }

  lemma CommentLinesStep(ctx: Context)
    ensures NoteParser(ctx).Fail? ==> CommentLines(ctx) == ([], ctx)
    ensures NoteParser(ctx).Ok? ==>
      var next := ConsumeEndOfLine(NoteParser(ctx).next);
      next.Left() < ctx.Left()
      && CommentLines(ctx) == ([NoteParser(ctx).value] + CommentLines(next).0, CommentLines(next).1)
  {
    if NoteParser(ctx).Ok? {
    }
  }

  method ParseCommentLines(ctx: Context, comments: seq<Positioned>) returns (all: seq<Positioned>, next: Context)
    ensures all == comments + CommentLines(ctx).0
    ensures next == CommentLines(ctx).1
  {
    hide *;
    all, next := comments, ctx;
    while true
      invariant all + CommentLines(next).0 == comments + CommentLines(ctx).0
      invariant CommentLines(next).1 == CommentLines(ctx).1
      decreases next.Left()
    {
      CommentLinesStep(next);
      var result := NoteParser(next);
      if result.Fail? {
        return;
      }
      all := all + [result.value];
      next := ConsumeEndOfLine(result.next);
    }
  }

  // ---- headers -------------------------------------------------------------------

  /**
   What the header loop leaves. `Stuck` stands for a loop that reads the same comment for ever:
   a note on the last line with no line break after it is no comment, and nothing else moves on.
   */
  datatype Headed = Headed(headers: seq<Pair>, comments: seq<Positioned>, next: Context) | Stuck

  predicate HeadersEnd(ctx: Context) {
    ctx.AtEnd() || IsBlankLine(ctx) || SEPARATOR <= ctx.Rem()
  }

  function HeaderLoop(ctx: Context): (r: Headed)
    ensures r.Headed? ==> Ahead(ctx, r.next)
    decreases ctx.Left()
  {
    if HeadersEnd(ctx) then Headed([], [], ctx)
    else if "#" <= ctx.Rem() then
      var (comments, n) := CommentLines(ctx);
      if comments == [] then Stuck
      else AddComments(ctx, comments, n, HeaderLoop(n))
    else match HeaderParser(ctx)
      case Fail => Headed([], [], ctx)
      case Ok(header, n) =>
        HeaderAhead(ctx);
        AddHeader(ctx, header, n, HeaderLoop(ConsumeEndOfLine(n)))
  }

  function AddComments(ctx: Context, comments: seq<Positioned>, n: Context, rest: Headed): (r: Headed)
    requires Ahead(ctx, n) && (rest.Headed? ==> Ahead(n, rest.next))
    ensures r.Headed? ==> Ahead(ctx, r.next)
  {
    if rest.Stuck? then Stuck
    else
      rest.(comments := comments + rest.comments)
  }

  function AddHeader(ctx: Context, header: Pair, n: Context, rest: Headed): (r: Headed)
    requires Ahead(ctx, n) && (rest.Headed? ==> Ahead(ConsumeEndOfLine(n), rest.next))
    ensures r.Headed? ==> Ahead(ctx, r.next)
  {
    if rest.Stuck? then Stuck
    else
      rest.(headers := [header] + rest.headers)
  }

  // ---- the body ---------------------------------------------------------------------

  /** Everything up to the separator that opens the next block, line by line. */
  function UntilSeparator(ctx: Context): (next: Context)
    ensures Ahead(ctx, next)
    ensures next.AtEnd() || SEPARATOR <= next.Rem()
    decreases ctx.Left()
  {
    if ctx.AtEnd() || SEPARATOR <= ctx.Rem() then ctx
    else
      var rest := ReadLine(ctx).1;
      UntilSeparator(rest)
  }

  predicate IsBreak(c: char) {
    c == '\r' || c == '\n'
  }

  /** The empty line before a body is not part of it. */
  function BodyStart(ctx: Context): (start: Context)
    ensures Ahead(ctx, start)
  {
    if !ctx.AtEnd() && IsBlankLine(ctx) then ReadLine(ctx).1 else ctx
  }

  function BodyParser(ctx: Context): (r: (Positioned, Context))
    ensures Ahead(ctx, r.1) && Within(r.0, ctx.off, r.1.off)
    ensures r.1.AtEnd() || SEPARATOR <= r.1.Rem()
  {
    var start := BodyStart(ctx);
    var next := UntilSeparator(start);
    var text := TrimRight(Consumed(start, next), IsBreak);
    (Positioned(text, start.off, start.off + |text|), next)
  }

  lemma UntilSeparatorStep(start: Context, ctx: Context)
    requires Ahead(start, ctx)
    ensures ctx.AtEnd() || SEPARATOR <= ctx.Rem() ==> UntilSeparator(ctx) == ctx
    ensures !(ctx.AtEnd() || SEPARATOR <= ctx.Rem()) ==>
      var (line, rest) := ReadLine(ctx);
      UntilSeparator(ctx) == UntilSeparator(rest) && Ahead(start, rest) && Consumed(start, rest) == Consumed(start, ctx) + line
  {
    if !(ctx.AtEnd() || SEPARATOR <= ctx.Rem()) {
      var (line, rest) := ReadLine(ctx);
      ConsumedMore(start, ctx, rest);
      assert line == Consumed(ctx, rest);
    }
  }

  /** The text gathered line by line up to the next separator. */
  method ReadBlock(start: Context) returns (text: string, next: Context)
    ensures next == UntilSeparator(start) && text == Consumed(start, next)
  {
    text, next := "", start;
    assert Ahead(start, start) && Consumed(start, start) == "";
    hide UntilSeparator, ReadLine, Consumed, Ahead;
    while !next.AtEnd() && !(SEPARATOR <= next.Rem())
      invariant Ahead(start, next) && UntilSeparator(next) == UntilSeparator(start)
      invariant text == Consumed(start, next)
      decreases next.Left()
    {
      UntilSeparatorStep(start, next);
      var (line, rest) := ReadLine(next);
      text := text + line;
      next := rest;
    }
    UntilSeparatorStep(start, next);
  }

  method ParseBody(ctx: Context) returns (body: Positioned, next: Context)
    ensures (body, next) == BodyParser(ctx)
  {
    hide UntilSeparator, TrimRight, ReadLine, Consumed, IsBlankLine, Ahead;
    next := ctx;
    if !next.AtEnd() && IsBlankLine(next) {
      next := ReadLine(next).1;
    }
    var start := next;
    var text;
    text, next := ReadBlock(start);
    text := TrimRight(text, IsBreak);
    body := Positioned(text, start.off, start.off + |text|);
  }

  lemma ConsumedMore(a: Context, b: Context, c: Context)
    requires Ahead(a, b) && Ahead(b, c)
    ensures Ahead(a, c) && Consumed(a, c) == Consumed(a, b) + Consumed(b, c)
  {
  }

  // ---- one block ------------------------------------------------------------------------

  datatype Item = Item(comments: seq<Positioned>, line: RequestHead, headers: seq<Pair>, body: Positioned)

  datatype ItemResult = ItemOk(item: Item, next: Context) | ItemFail | ItemStuck

  function ItemParser(env: Env, ctx: Context): ItemResult {
    var (above, n) := CommentLines(SkipBlankLines(ctx));
    match RequestLineParser(env, n)
    case Fail => ItemFail
    case Ok(line, afterLine) =>
      match HeaderLoop(ConsumeEndOfLine(afterLine))
      case Stuck => ItemStuck
      case Headed(headers, between, afterHeaders) =>
        var (body, next) := BodyParser(afterHeaders);
        ItemOk(Item(above + between, line, headers, body), next)
  }

  lemma HeaderLoopStep(ctx: Context)
    ensures HeadersEnd(ctx) ==> HeaderLoop(ctx) == Headed([], [], ctx)
    ensures !HeadersEnd(ctx) && "#" <= ctx.Rem() ==>
      var (comments, n) := CommentLines(ctx);
      if comments == [] then n == ctx && HeaderLoop(ctx) == Stuck
      else n.Left() < ctx.Left() && HeaderLoop(ctx) == AddComments(ctx, comments, n, HeaderLoop(n))
    ensures !HeadersEnd(ctx) && !("#" <= ctx.Rem()) && HeaderParser(ctx).Fail? ==> HeaderLoop(ctx) == Headed([], [], ctx)
    ensures !HeadersEnd(ctx) && !("#" <= ctx.Rem()) && HeaderParser(ctx).Ok? ==>
      var n := HeaderParser(ctx).next;
      && Ahead(ctx, n) && ConsumeEndOfLine(n).Left() < ctx.Left()
      && HeaderLoop(ctx) == AddHeader(ctx, HeaderParser(ctx).value, n, HeaderLoop(ConsumeEndOfLine(n)))
  {
    HeaderAhead(ctx);
    hide CommentLines, HeaderParser, ConsumeEndOfLine;
  }

  /** The header lines and the notes between them, `comments` already gathered above. */
  method ParseHeaders(start: Context, above: seq<Positioned>) returns (r: Headed)
    ensures r == match HeaderLoop(start) case Stuck => Stuck case Headed(hs, cs, n) => Headed(hs, above + cs, n)
  {
    var headers: seq<Pair>, comments, next := [], above, start;
    hide HeaderLoop, CommentLines, HeaderParser, ConsumeEndOfLine, IsBlankLine, Ahead;
    while !next.AtEnd() && !IsBlankLine(next) && !(SEPARATOR <= next.Rem())
      invariant HeaderLoop(next).Stuck? == HeaderLoop(start).Stuck?
      invariant HeaderLoop(next).Headed? ==> HeaderLoop(start).next == HeaderLoop(next).next
      invariant HeaderLoop(next).Headed? ==> HeaderLoop(start).headers == headers + HeaderLoop(next).headers
      invariant HeaderLoop(next).Headed? ==> above + HeaderLoop(start).comments == comments + HeaderLoop(next).comments
      decreases next.Left()
    {
      HeaderLoopStep(next);
      if "#" <= next.Rem() {
        var more, after := ParseCommentLines(next, comments);
        if |more| == |comments| {
          return Stuck;
        }
        comments, next := more, after;
        continue;
      }
      var header := HeaderParser(next);
      if header.Fail? {
        break;
      }
      headers := headers + [header.value];
      next := ConsumeEndOfLine(header.next);
    }
    HeaderLoopStep(next);
    r := Headed(headers, comments, next);
  }

  method ParseItem(env: Env, ctx: Context) returns (r: ItemResult)
    ensures r == ItemParser(env, ctx)
  {
    hide HeaderLoop, CommentLines, RequestLineParser, BodyParser, SkipBlankLines, ConsumeEndOfLine;
    var next := SkipBlankLines(ctx);
    var comments: seq<Positioned> := [];
    comments, next := ParseCommentLines(next, comments);
    var line := RequestLineParser(env, next);
    if line.Fail? {
      return ItemFail;
    }
    var headed := ParseHeaders(ConsumeEndOfLine(line.next), comments);
    if headed.Stuck? {
      return ItemStuck;
    }
    var body;
    body, next := ParseBody(headed.next);
    r := ItemOk(Item(headed.comments, line.value, headed.headers, body), next);
  }

  // ---- the file ---------------------------------------------------------------------------

  datatype Issue = Issue(start: nat, end: nat)

  /** One turn of the file loop: what it read and the text it read it from. */
  datatype Stretch =
    | VariableStretch(variable: Pair, from: Context, to: Context)
    | RequestStretch(item: Item, from: Context, to: Context)
    | IssueStretch(issue: Issue, from: Context, to: Context)

  datatype HttpFile = HttpFile(variables: seq<Pair>, requests: seq<Item>, issues: seq<Issue>)

  /** A block the grammar cannot read, up to the separator that opens the next one. */
  function SkipUnreadable(ctx: Context): (r: (Issue, Context))
    ensures Ahead(ctx, r.1)
    ensures !ctx.AtEnd() ==> r.1.Left() < ctx.Left()
    ensures ctx.off <= r.0.start <= r.0.end <= r.1.off
  {
    var first := ReadLine(ctx).1;
    var next := UntilSeparator(first);
    var span := SpanOf(ctx, next, IsCutBreak);
    (Issue(span.start, span.end), next)
  }

  datatype Turn = Turn(stretch: Stretch) | Endless

  /** One turn of the file loop from a context that is neither blank nor at the end. */
  function NextStretch(env: Env, ctx: Context): Turn {
    match VariableParser(env, ctx)
    case Ok(variable, n) => Turn(VariableStretch(variable, ctx, ConsumeEndOfLine(n)))
    case Fail =>
      match ItemParser(env, ctx)
      case ItemStuck => Endless
      case ItemOk(item, n) =>
        if n.off > ctx.off then Turn(RequestStretch(item, ctx, n))
        else var (issue, m) := SkipUnreadable(ctx); Turn(IssueStretch(issue, ctx, m))
      case ItemFail =>
        var (issue, m) := SkipUnreadable(ctx); Turn(IssueStretch(issue, ctx, m))
  }

  lemma ItemAhead(env: Env, ctx: Context)
    ensures var r := ItemParser(env, ctx); r.ItemOk? ==> Ahead(ctx, r.next) && r.next.off > ctx.off
    ensures var r := ItemParser(env, ctx); r.ItemOk? ==> r.next.AtEnd() || SEPARATOR <= r.next.Rem()
  {
    hide CommentLines, SkipBlankLines, RequestLineParser, HeaderLoop, BodyParser, ConsumeEndOfLine;
    var start := SkipBlankLines(ctx);
    var n := CommentLines(start).1;
    RequestLineAhead(env, n);
    if RequestLineParser(env, n).Ok? {
      var afterLine := RequestLineParser(env, n).next;
      var headers := ConsumeEndOfLine(afterLine);
      if HeaderLoop(headers).Headed? {
        var afterHeaders := HeaderLoop(headers).next;
      }
    }
  }

  lemma TurnIs(env: Env, ctx: Context)
    ensures var v, i, t := VariableParser(env, ctx), ItemParser(env, ctx), NextStretch(env, ctx);
      && (v.Ok? ==> t == Turn(VariableStretch(v.value, ctx, ConsumeEndOfLine(v.next))))
      && (v.Fail? && i.ItemStuck? ==> t == Endless)
      && (v.Fail? && i.ItemOk? ==> t == Turn(RequestStretch(i.item, ctx, i.next)))
      && (v.Fail? && i.ItemFail? ==> t == Turn(IssueStretch(SkipUnreadable(ctx).0, ctx, SkipUnreadable(ctx).1)))
  {
    ItemAhead(env, ctx);
    hide VariableParser, ItemParser, SkipUnreadable, ConsumeEndOfLine;
  }

  lemma NextStretchAhead(env: Env, ctx: Context)
    requires !ctx.AtEnd()
    ensures var t := NextStretch(env, ctx);
      t.Turn? ==> t.stretch.from == ctx && Ahead(ctx, t.stretch.to) && t.stretch.to.Left() < ctx.Left()
  {
    ItemAhead(env, ctx);
    hide VariableParser, ItemParser, SkipUnreadable;
    if VariableParser(env, ctx).Ok? {
    }
  }

  /** The turns of the file loop from a context on; none at all when one of them never ends. */
  function Stretches(env: Env, ctx: Context): Option<seq<Stretch>>
    decreases ctx.Left()
  {
    var start := SkipBlankLines(ctx);
    if start.AtEnd() then Some([])
    else
      NextStretchAhead(env, start);
      match NextStretch(env, start)
      case Endless => None
      case Turn(stretch) =>
        match Stretches(env, stretch.to)
        case None => None
        case Some(rest) => Some([stretch] + rest)
  }

  const NOTHING := HttpFile([], [], [])

  function Add(file: HttpFile, s: Stretch): HttpFile {
    match s
    case VariableStretch(v, _, _) => file.(variables := file.variables + [v])
    case RequestStretch(item, _, _) => file.(requests := file.requests + [item])
    case IssueStretch(issue, _, _) => file.(issues := file.issues + [issue])
  }

  function Gather(file: HttpFile, ss: seq<Stretch>): HttpFile
    decreases |ss|
  {
    if ss == [] then file else Gather(Add(file, ss[0]), ss[1..])
  }

  /** What ParseHttpFile returns, when it returns. */
  function FileOf(env: Env, source: string): Option<HttpFile> {
    match Stretches(env, Context(source, 0))
    case None => None
    case Some(ss) => Some(Gather(NOTHING, ss))
  }

  method SkipUnreadableBlock(ctx: Context) returns (issue: Issue, next: Context)
    ensures (issue, next) == SkipUnreadable(ctx)
  {
    next := ReadLine(ctx).1;
    ghost var first := next;
    assert Ahead(first, first);
    while !next.AtEnd() && !(SEPARATOR <= next.Rem())
      invariant Ahead(first, next) && UntilSeparator(next) == UntilSeparator(first)
      decreases next.Left()
    {
      next := ReadLine(next).1;
    }
    var span := MeasureSpan(ctx, next, IsCutBreak);
    issue := Issue(span.start, span.end);
  }

  lemma StretchesStep(env: Env, ctx: Context)
    ensures var start := SkipBlankLines(ctx);
      if start.AtEnd() then Stretches(env, ctx) == Some([])
      else match NextStretch(env, start)
        case Endless => Stretches(env, ctx) == None
        case Turn(stretch) =>
          && stretch.to.Left() < ctx.Left()
          && Stretches(env, ctx) == (match Stretches(env, stretch.to) case None => None case Some(rest) => Some([stretch] + rest))
  {
    if !SkipBlankLines(ctx).AtEnd() {
      NextStretchAhead(env, SkipBlankLines(ctx));
    }
    hide NextStretch, SkipBlankLines;
  }

  lemma GatherStep(file: HttpFile, s: Stretch, rest: seq<Stretch>)
    ensures Gather(file, [s] + rest) == Gather(Add(file, s), rest)
  {
    assert ([s] + rest)[1..] == rest;
  }

  method ParseHttpFile(env: Env, source: string) returns (r: Option<HttpFile>)
    ensures r == FileOf(env, source)
  {
    var file := NOTHING;
    var context: Context := Context(source, 0);
    hide Stretches, Gather, VariableParser, ItemParser, SkipUnreadable, SkipBlankLines, ConsumeEndOfLine;
    while true
      invariant Stretches(env, context).None? == FileOf(env, source).None?
      invariant Stretches(env, context).Some? ==> FileOf(env, source).value == Gather(file, Stretches(env, context).value)
      decreases context.Left()
    {
      StretchesStep(env, context);
      ghost var rest := Stretches(env, context);
      context := SkipBlankLines(context);
      if context.AtEnd() {
        GatherNothing(file);
        return Some(file);
      }
      ghost var turn := NextStretch(env, context);
      if turn.Turn? && rest.Some? { GatherStep(file, turn.stretch, rest.value[1..]); }
      var variable := VariableParser(env, context);
      if variable.Ok? {
        file := file.(variables := file.variables + [variable.value]);
        context := ConsumeEndOfLine(variable.next);
        continue;
      }
      var item := ParseItem(env, context);
      if item.ItemStuck? {
        return None;
      }
      if item.ItemOk? && item.next.off > context.off {
        file := file.(requests := file.requests + [item.item]);
        context := item.next;
        continue;
      }
      var issue;
      issue, context := SkipUnreadableBlock(context);
      file := file.(issues := file.issues + [issue]);
    }
  }

  lemma GatherNothing(file: HttpFile)
    ensures Gather(file, []) == file
  {
  }
}
