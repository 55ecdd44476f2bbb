/** Whole files: what the grammar sends for a printed file is what the form shows. */
module HttpSendFile {
  import opened Text
  import opened HttpForm
  import opened HttpFormLines
  import opened HttpFormReparse
  import opened HttpFormSwitch
  import HttpFormShape
  import opened HttpGrammar
  import opened HttpBlocks
  import opened HttpGrammarLines
  import opened HttpSend

  /** The item holds the verb, the target, the ticked headers and the body of the request. */
  predicate SameItem(item: Item, r: Request) {
    && item.line.verb.text == r.verb
    && item.line.target.text == r.url
    && Texts(item.headers) == Ticked(r.headers)
    && item.body.text == r.body
  }

  // ---- one block -----------------------------------------------------------------

  function BelowRequest(r: Request, end: string): string {
    Unlines(HeaderLines(r.headers)) + (Unlines(BodyLines(r.body)) + end)
  }

  lemma Split5(a: string, n: string, q: string, h: string, d: string, e: string)
    ensures a + (n + (q + "\n" + (h + d))) + e == a + n + (q + ("\n" + (h + (d + e))))
  {
    assert h + d + e == h + (d + e);
    var x := h + (d + e);
    assert q + "\n" + (h + d) + e == q + ("\n" + x);
    var y := q + ("\n" + x);
    assert a + (n + (q + "\n" + (h + d))) + e == a + (n + (q + "\n" + (h + d) + e));
    assert a + (n + y) == a + n + y;
  }

  lemma BlockSplit(r: Request, end: string)
    requires !r.Empty()
    ensures Unlines(BlockLines(r)) + end ==
      Unlines([TitleLine(r.name)] + r.notes) + (RequestLine(r) + ("\n" + BelowRequest(r, end)))
  {
    var title, h, d := TitleLine(r.name), HeaderLines(r.headers), BodyLines(r.body);
    assert BlockLines(r) == [title] + (r.notes + ([RequestLine(r)] + (h + d)));
    var line := RequestLine(r);
    hide *;
    UnlinesConcat(h, d);
    UnlinesConcat([line], h + d);
    UnlinesOne(line);
    UnlinesConcat(r.notes, [line] + (h + d));
    UnlinesConcat([title], r.notes + ([line] + (h + d)));
    UnlinesConcat([title], r.notes);
    Split5(Unlines([title]), Unlines(r.notes), line, Unlines(h), Unlines(d), end);
    BelowRequestIs(r, end);
  }

  lemma BelowRequestIs(r: Request, end: string)
    ensures BelowRequest(r, end) == Unlines(HeaderLines(r.headers)) + (Unlines(BodyLines(r.body)) + end)
  {
  }

  lemma BodyOpens(body: string, end: string)
    requires EndOfBlock(end) && PlainBody(body)
    ensures RestOfBlock(Unlines(BodyLines(body)) + end)
  {
    if body == "" {
      assert TrimSpace("") == "";
      assert Unlines(BodyLines(body)) + end == end;
    } else {
      BodyLinesFacts(body);
    }
  }

  /** From the request line on, the text reads as the request. */
  predicate RequestRead(env: Env, ctx: Context, r: Request, end: string)
    requires EndOfBlock(end)
  {
    var line := RequestLineParser(env, ctx);
    && line.Ok? && line.value.verb.text == r.verb && line.value.target.text == r.url
    && var headed := HeaderLoop(ConsumeEndOfLine(line.next));
    && headed.Headed? && Texts(headed.headers) == Ticked(r.headers)
    && var (body, next) := BodyParser(headed.next);
    && body.text == r.body && next.src == ctx.src && next.Rem() == NextBlock(end)
  }

  lemma RequestReads(env: Env, ctx: Context, r: Request, end: string)
    requires BlanksStayOnLine(env) && SendableRequest(env, r) && EndOfBlock(end)
    requires ctx.Rem() == RequestLine(r) + ("\n" + BelowRequest(r, end))
    ensures RequestRead(env, ctx, r, end)
  {
    var below := BelowRequest(r, end);
    SendableFacts(env, r);
    RequestLineText(r, below);
    BodyOpens(r.body, end);
    BelowRequestIs(r, end);
    hide SendableRequest, PlainBody, RequestLineParser, HeaderLoop, BodyParser, ConsumeEndOfLine, RequestLine, UsableTarget,
      BodyLines, HeaderLines, EndOfBlock, NextBlock, BlanksStayOnLine, BelowRequest, Unlines;
    RequestLineReads(env, ctx, r.verb, r.url, below);
    var line := RequestLineParser(env, ctx);
    BreakConsumed(line.next, below);
    var headers := ConsumeEndOfLine(line.next);
    HeadersRead(headers, r.headers, Unlines(BodyLines(r.body)) + end);
    BodyReads(HeaderLoop(headers).next, r.body, end);
  }

  lemma SendableFacts(env: Env, r: Request)
    requires SendableRequest(env, r)
    ensures r.verb in FORM_VERBS && UsableTarget(env, r.url) && !r.Empty()
    ensures PlainBody(r.body)
    ensures forall i :: 0 <= i < |r.headers| && r.headers[i].key != "" ==> ShapeRow(r.headers[i]) && PlainValue(r.headers[i].value)
    ensures Trimmed(r.name) && OneLine(r.name)
    ensures forall i :: 0 <= i < |r.notes| ==> OneLine(r.notes[i]) && "#" <= r.notes[i]
    ensures IsMethod(r.verb) && ShapeUrl(r.url)
  {
    hide Space, IsSpace, PlainValue, ShapeRow, ShapeBody, Trimmed;
    assert forall i :: 0 <= i < |r.notes| ==> ShapeNote(r.notes[i]);
  }

  lemma RequestLineText(r: Request, below: string)
    requires IsMethod(r.verb) && ShapeUrl(r.url) && r.url != ""
    ensures RequestLine(r) + ("\n" + below) == r.verb + (" " + (r.url + ("\n" + below)))
  {
    RequestLineOf(r.verb, r.url);
    var end := "\n" + below;
    Assoc(" ", r.url, end);
    Assoc(r.verb, " " + r.url, end);
    hide IsMethod, ShapeUrl, TrimRight;
  }

  lemma TitleFacts(name: string)
    requires Trimmed(name) && OneLine(name)
    ensures OneLine(TitleLine(name)) && SEPARATOR <= TitleLine(name) && "#" <= TitleLine(name)
  {
    HttpFormShape.TitleLineIsOneLine(name);
    TitleLineOpens(name);
  }

  lemma RequestLineOpensWithLetter(r: Request, below: string)
    requires IsMethod(r.verb) && ShapeUrl(r.url)
    ensures RequestLine(r) + below != "" && (RequestLine(r) + below)[0] != '#'
  {
    RequestLineOpens(r);
    hide RequestLine, VarLine, TrimSpace;
  }

  lemma NotBlankAtHash(ctx: Context)
    requires "#" <= ctx.Rem()
    ensures SkipBlankLines(ctx) == ctx && !ctx.AtEnd()
    ensures forall env :: VariableParser(env, ctx).Fail?
  {
    HashIsNotBlank(ctx);
    assert ctx.Rem()[0] == '#';
  }

  lemma BlockOpens(ctx: Context, r: Request, end: string)
    requires Trimmed(r.name) && OneLine(r.name)
    requires ctx.Rem() == Unlines(BlockLines(r)) + end
    ensures SEPARATOR <= ctx.Rem() && "#" <= ctx.Rem()
  {
    TitleFacts(r.name);
    UnlinesHead(BlockLines(r), end);
    hide TitleLine, Unlines;
    assert BlockLines(r)[0] == TitleLine(r.name);
    assert ctx.Rem()[..3] == TitleLine(r.name)[..3];
    assert ctx.Rem()[0] == '#';
  }

  lemma TitleAndNotes(r: Request)
    requires OneLine(TitleLine(r.name)) && "#" <= TitleLine(r.name)
    requires forall i :: 0 <= i < |r.notes| ==> OneLine(r.notes[i]) && "#" <= r.notes[i]
    ensures var notes := [TitleLine(r.name)] + r.notes; forall i :: 0 <= i < |notes| ==> OneLine(notes[i]) && "#" <= notes[i]
  {
    hide TitleLine, OneLine;
  }

  /** A block read as the request, up to the next block. */
  predicate ReadAs(i: ItemResult, ctx: Context, r: Request, end: string)
    requires EndOfBlock(end)
  {
    i.ItemOk? && SameItem(i.item, r) && i.next.src == ctx.src && i.next.Rem() == NextBlock(end)
  }

  lemma ItemIs(env: Env, ctx: Context, r: Request, end: string)
    requires EndOfBlock(end)
    requires SkipBlankLines(ctx) == ctx && CommentLines(ctx).1.src == ctx.src && RequestRead(env, CommentLines(ctx).1, r, end)
    ensures ReadAs(ItemParser(env, ctx), ctx, r, end)
  {
    hide SkipBlankLines, CommentLines, RequestLineParser, HeaderLoop, ConsumeEndOfLine, BodyParser, Texts, Ticked, NextBlock;
  }

  lemma ItemReads(env: Env, ctx: Context, r: Request, end: string)
    requires BlanksStayOnLine(env) && SendableRequest(env, r) && EndOfBlock(end)
    requires ctx.Rem() == Unlines(BlockLines(r)) + end
    ensures ReadAs(ItemParser(env, ctx), ctx, r, end)
    ensures SkipBlankLines(ctx) == ctx && !ctx.AtEnd() && VariableParser(env, ctx).Fail?
  {
    var notes, rest := [TitleLine(r.name)] + r.notes, RequestLine(r) + ("\n" + BelowRequest(r, end));
    hide *;
    SendableFacts(env, r);
    TitleFacts(r.name);
    TitleAndNotes(r);
    RequestLineOpensWithLetter(r, "\n" + BelowRequest(r, end));
    BlockSplit(r, end);
    BlockOpens(ctx, r, end);
    NotBlankAtHash(ctx);
    NotesRead(ctx, notes, rest);
    RequestReads(env, CommentLines(ctx).1, r, end);
    ItemIs(env, ctx, r, end);
  }

  // ---- the blocks of a file ----------------------------------------------------------

  predicate SameStretches(ss: seq<Stretch>, rs: seq<Request>) {
    |ss| == |rs| && forall i :: 0 <= i < |rs| ==> ss[i].RequestStretch? && SameItem(ss[i].item, rs[i])
  }

  function EndAfterFirst(rs: seq<Request>): string {
    if |rs| <= 1 then "" else "\n" + Unlines(BlocksLines(rs[1..]))
  }

  lemma BlocksSplit(rs: seq<Request>)
    requires rs != []
    ensures Unlines(BlocksLines(rs)) == Unlines(BlockLines(rs[0])) + EndAfterFirst(rs)
  {
    var first, rest := BlockLines(rs[0]), BlocksLines(rs[1..]);
    hide BlockLines;
    if |rs| == 1 {
      assert BlocksLines(rs) == first;
      assert Unlines(first) + "" == Unlines(first);
    } else {
      assert BlocksLines(rs) == first + ([""] + rest);
      UnlinesConcat(first, [""] + rest);
      UnlinesCons([""] + rest);
      assert ([""] + rest)[1..] == rest;
      assert "" + "\n" == "\n";
    }
  }

  lemma BlocksOpen(env: Env, rs: seq<Request>)
    requires rs != [] && SendableRequest(env, rs[0])
    ensures SEPARATOR <= Unlines(BlocksLines(rs))
  {
    var text := Unlines(BlocksLines(rs));
    BlocksSplit(rs);
    SendableFacts(env, rs[0]);
    hide SendableRequest, BlocksLines, BlockLines, Unlines;
    BlockOpens(Context(text, 0), rs[0], EndAfterFirst(rs));
    assert text[0..] == text;
  }

  /** One turn of the file loop over a printed block. */
  lemma BlockTurn(env: Env, ctx: Context, r: Request, end: string)
    requires BlanksStayOnLine(env) && SendableRequest(env, r) && EndOfBlock(end)
    requires ctx.Rem() == Unlines(BlockLines(r)) + end
    ensures var t := NextStretch(env, ctx);
      && t.Turn? && t.stretch.RequestStretch? && SameItem(t.stretch.item, r)
      && t.stretch.to.src == ctx.src && t.stretch.to.Rem() == NextBlock(end)
      && SkipBlankLines(ctx) == ctx && !ctx.AtEnd()
  {
    hide SendableRequest, BlockLines, Unlines, ItemParser, VariableParser, SkipBlankLines, BlanksStayOnLine, SameItem, EndOfBlock, NextBlock;
    ItemReads(env, ctx, r, end);
    ItemAhead(env, ctx);
  }

  lemma NextOf(rs: seq<Request>)
    requires |rs| > 1 ==> SEPARATOR <= Unlines(BlocksLines(rs[1..]))
    ensures EndOfBlock(EndAfterFirst(rs))
    ensures NextBlock(EndAfterFirst(rs)) == if |rs| <= 1 then "" else Unlines(BlocksLines(rs[1..]))
  {
    if |rs| > 1 {
      assert EndAfterFirst(rs)[1..] == Unlines(BlocksLines(rs[1..]));
    }
  }

  lemma FirstBlockTurn(env: Env, ctx: Context, rs: seq<Request>)
    requires BlanksStayOnLine(env)
    requires rs != [] && SendableRequest(env, rs[0]) && (|rs| > 1 ==> SendableRequest(env, rs[1]))
    requires ctx.Rem() == Unlines(BlocksLines(rs))
    ensures var t := NextStretch(env, ctx);
      && t.Turn? && t.stretch.RequestStretch? && SameItem(t.stretch.item, rs[0])
      && t.stretch.to.src == ctx.src
      && t.stretch.to.Rem() == (if |rs| <= 1 then "" else Unlines(BlocksLines(rs[1..])))
      && SkipBlankLines(ctx) == ctx && !ctx.AtEnd()
  {
    hide *;
    if |rs| > 1 { BlocksOpen(env, rs[1..]); }
    NextOf(rs);
    BlocksSplit(rs);
    BlockTurn(env, ctx, rs[0], EndAfterFirst(rs));
  }

  lemma StretchesCons(env: Env, ctx: Context, s: Stretch)
    requires SkipBlankLines(ctx) == ctx && !ctx.AtEnd() && NextStretch(env, ctx) == Turn(s)
    ensures s.to.Left() < ctx.Left()
    ensures Stretches(env, s.to).Some? ==> Stretches(env, ctx) == Some([s] + Stretches(env, s.to).value)
  {
    hide NextStretch, SkipBlankLines, Stretches;
    StretchesStep(env, ctx);
  }

  lemma {:induction false} BlocksRead(env: Env, ctx: Context, rs: seq<Request>)
    requires BlanksStayOnLine(env)
    requires forall i :: 0 <= i < |rs| ==> SendableRequest(env, rs[i])
    requires ctx.Rem() == Unlines(BlocksLines(rs))
    ensures Stretches(env, ctx).Some? && SameStretches(Stretches(env, ctx).value, rs)
    decreases |rs|
  {
    if rs == [] {
      EndReads(env, ctx);
    } else {
      hide *;
      FirstBlockTurn(env, ctx, rs);
      var s := NextStretch(env, ctx).stretch;
      SendableTail(env, rs);
      if |rs| > 1 { BlocksRead(env, s.to, rs[1..]); } else { EndReads(env, s.to); NoStretches(rs[1..]); }
      StretchesCons(env, ctx, s);
      ConsStretches(s, Stretches(env, s.to).value, rs);
    }
  }

  lemma NoStretches(rs: seq<Request>)
    requires rs == []
    ensures SameStretches([], rs)
  {
  }

  lemma ConsStretches(s: Stretch, later: seq<Stretch>, rs: seq<Request>)
    requires rs != [] && s.RequestStretch? && SameItem(s.item, rs[0])
    requires SameStretches(later, rs[1..])
    ensures SameStretches([s] + later, rs)
  {
    hide SameItem;
  }

  lemma SendableTail(env: Env, rs: seq<Request>)
    requires rs != [] && forall i :: 0 <= i < |rs| ==> SendableRequest(env, rs[i])
    ensures forall i :: 0 <= i < |rs[1..]| ==> SendableRequest(env, rs[1..][i])
  {
    hide SendableRequest;
  }

  lemma EndReads(env: Env, ctx: Context)
    requires ctx.Rem() == ""
    ensures Stretches(env, ctx) == Some([])
  {
    assert ctx.AtEnd();
  }

  // ---- variables ----------------------------------------------------------------------

  predicate SameVariables(ss: seq<Stretch>, vars: seq<KV>) {
    |ss| == |vars| && forall i :: 0 <= i < |vars| ==>
      ss[i].VariableStretch? && ss[i].variable.name.text == vars[i].key && ss[i].variable.value.text == vars[i].value
  }

  lemma VarLineText(v: KV, rest: string)
    ensures VarText(v) + ("\n" + rest) == "@" + (v.key + (" " + ("=" + (" " + v.value + ("\n" + rest)))))
  {
    var end := "\n" + rest;
    assert "@" + v.key + " = " + v.value + end == "@" + (v.key + (" = " + v.value + end));
    assert " = " + v.value + end == " " + ("=" + (" " + v.value + end));
  }

  lemma VariableTurn(env: Env, ctx: Context, v: KV, rest: string)
    requires WritesVar(v) && ShapeRow(v) && PlainValue(v.value)
    requires ctx.Rem() == VarText(v) + ("\n" + rest)
    ensures var t := NextStretch(env, ctx);
      && t.Turn? && t.stretch.VariableStretch?
      && t.stretch.variable.name.text == v.key && t.stretch.variable.value.text == v.value
      && t.stretch.to.src == ctx.src && t.stretch.to.Rem() == rest
      && SkipBlankLines(ctx) == ctx && !ctx.AtEnd()
  {
    VarLineText(v, rest);
    assert ctx.Rem()[0] == '@';
    NotBlankLine(ctx);
    assert v.key != "" && All(v.key, IsWord);
    hide VarText, ShapeRow, PlainValue, VariableParser, ItemParser, ConsumeEndOfLine;
    VariableReads(env, ctx, v.key, v.value, rest);
    BreakConsumed(VariableParser(env, ctx).next, rest);
  }

  /** The file loop from the variables on: one stretch for each printed variable, then those of the blocks. */
  lemma {:induction false} VariablesRead(env: Env, ctx: Context, vars: seq<KV>, rest: string, ss: seq<Stretch>)
    requires forall i :: 0 <= i < |vars| && WritesVar(vars[i]) ==> ShapeRow(vars[i]) && PlainValue(vars[i].value)
    requires ctx.Rem() == Unlines(VarLines(vars)) + rest
    requires forall c: Context :: c.src == ctx.src && c.Rem() == rest ==> Stretches(env, c) == Some(ss)
    ensures Stretches(env, ctx).Some?
    ensures var all := Stretches(env, ctx).value; var n := |Written(vars)|;
      |all| == n + |ss| && SameVariables(all[..n], Written(vars)) && all[n..] == ss
    decreases |vars|
  {
    hide *;
    VariableLines(vars, rest);
    if vars == [] {
      NoVariables(ss);
    } else if !WritesVar(vars[0]) {
      VariablesRead(env, ctx, vars[1..], rest, ss);
    } else {
      var below := Unlines(VarLines(vars[1..])) + rest;
      VariableTurn(env, ctx, vars[0], below);
      StretchesStep(env, ctx);
      VariablesRead(env, NextStretch(env, ctx).stretch.to, vars[1..], rest, ss);
      ConsVariables(NextStretch(env, ctx).stretch, Stretches(env, NextStretch(env, ctx).stretch.to).value, vars, ss);
    }
  }

  /** The text of the variables, the first one apart. */
  lemma VariableLines(vars: seq<KV>, rest: string)
    ensures vars == [] ==> Unlines(VarLines(vars)) + rest == rest && Written(vars) == []
    ensures vars != [] && !WritesVar(vars[0]) ==> VarLines(vars) == VarLines(vars[1..]) && Written(vars) == Written(vars[1..])
    ensures vars != [] && WritesVar(vars[0]) ==>
      Unlines(VarLines(vars)) + rest == VarText(vars[0]) + ("\n" + (Unlines(VarLines(vars[1..])) + rest))
  {
    if vars == [] {
      NoMore(rest);
    } else if WritesVar(vars[0]) {
      hide VarText, Unlines;
      UnlinesHead(VarLines(vars), rest);
      assert VarLines(vars)[1..] == VarLines(vars[1..]);
    } else {
      NoMore(VarLines(vars[1..]));
      NoMore(Written(vars[1..]));
    }
  }

  lemma NoVariables(ss: seq<Stretch>)
    ensures ss[..0] == [] && ss[0..] == ss && SameVariables([], [])
  {
  }

  lemma ConsVariables(s: Stretch, later: seq<Stretch>, vars: seq<KV>, ss: seq<Stretch>)
    requires vars != [] && WritesVar(vars[0])
    requires s.VariableStretch? && s.variable.name.text == vars[0].key && s.variable.value.text == vars[0].value
    requires var n := |Written(vars[1..])|;
      |later| == n + |ss| && SameVariables(later[..n], Written(vars[1..])) && later[n..] == ss
    ensures var all := [s] + later; var n := |Written(vars)|;
      |all| == n + |ss| && SameVariables(all[..n], Written(vars)) && all[n..] == ss
  {
    var n := |Written(vars[1..])|;
    assert Written(vars) == [vars[0]] + Written(vars[1..]);
    assert ([s] + later)[..n + 1] == [s] + later[..n];
    assert ([s] + later)[n + 1..] == later[n..];
  }

  // ---- the gathered file ----------------------------------------------------------------

  function Variables(ss: seq<Stretch>): seq<Pair> {
    if ss == [] then [] else (if ss[0].VariableStretch? then [ss[0].variable] else []) + Variables(ss[1..])
  }

  function Requests(ss: seq<Stretch>): seq<Item> {
    if ss == [] then [] else (if ss[0].RequestStretch? then [ss[0].item] else []) + Requests(ss[1..])
  }

  function Issues(ss: seq<Stretch>): seq<Issue> {
    if ss == [] then [] else (if ss[0].IssueStretch? then [ss[0].issue] else []) + Issues(ss[1..])
  }

  lemma {:induction false} GatherParts(file: HttpFile, ss: seq<Stretch>)
    ensures Gather(file, ss) ==
      HttpFile(file.variables + Variables(ss), file.requests + Requests(ss), file.issues + Issues(ss))
    decreases |ss|
  {
    if ss == [] {
      NoMore(file.variables);
      NoMore(file.requests);
      NoMore(file.issues);
    } else {
      GatherParts(Add(file, ss[0]), ss[1..]);
      AddParts(file, ss[0], ss);
    }
  }

  lemma AddParts(file: HttpFile, s: Stretch, ss: seq<Stretch>)
    requires ss != [] && ss[0] == s
    ensures Add(file, s).variables + Variables(ss[1..]) == file.variables + Variables(ss)
    ensures Add(file, s).requests + Requests(ss[1..]) == file.requests + Requests(ss)
    ensures Add(file, s).issues + Issues(ss[1..]) == file.issues + Issues(ss)
  {
    Assoc(file.variables, if s.VariableStretch? then [s.variable] else [], Variables(ss[1..]));
    Assoc(file.requests, if s.RequestStretch? then [s.item] else [], Requests(ss[1..]));
    Assoc(file.issues, if s.IssueStretch? then [s.issue] else [], Issues(ss[1..]));
    NoMore(file.variables);
    NoMore(file.requests);
    NoMore(file.issues);
  }

  lemma {:induction false} PartsOfVariables(ss: seq<Stretch>, vars: seq<KV>, more: seq<Stretch>)
    requires SameVariables(ss, vars) && forall i :: 0 <= i < |vars| ==> vars[i].on
    ensures |Variables(ss)| == |vars| && FileVars(Variables(ss)) == vars
    ensures Variables(ss + more) == Variables(ss) + Variables(more)
    ensures Requests(ss + more) == Requests(more) && Issues(ss + more) == Issues(more)
  {
    if ss == [] {
      assert ss + more == more;
    } else {
      assert (ss + more)[1..] == ss[1..] + more;
      PartsOfVariables(ss[1..], vars[1..], more);
      assert Variables(ss) == [ss[0].variable] + Variables(ss[1..]);
      assert FileVars(Variables(ss)) == [vars[0]] + FileVars(Variables(ss[1..]));
    }
  }

  lemma {:induction false} PartsOfRequests(ss: seq<Stretch>, rs: seq<Request>)
    requires SameStretches(ss, rs)
    ensures Variables(ss) == [] && Issues(ss) == []
    ensures |Requests(ss)| == |rs| && forall i :: 0 <= i < |rs| ==> SameItem(Requests(ss)[i], rs[i])
  {
    hide SameItem;
    if ss != [] {
      PartsOfRequests(ss[1..], rs[1..]);
      assert Requests(ss) == [ss[0].item] + Requests(ss[1..]);
      forall i | 0 <= i < |rs| ensures SameItem(Requests(ss)[i], rs[i]) {
        if i > 0 { assert rs[1..][i - 1] == rs[i]; }
      }
    }
  }

  // ---- the two readings of one block --------------------------------------------------------

  lemma {:induction false} HeadersAgree(m: map<string, string>, headers: seq<Pair>, rows: seq<KV>, vars: seq<KV>)
    requires Texts(headers) == Ticked(rows)
    ensures BlockHeaders(m, headers, Written(vars)) == FormHeaders(m, rows, vars)
    decreases |rows|
  {
    if rows == [] {
    } else if rows[0].on && rows[0].key != "" {
      var h := rows[0];
      assert Ticked(rows)[0] == (h.key, h.value) && Ticked(rows)[1..] == Ticked(rows[1..]);
      assert Texts(headers)[1..] == Texts(headers[1..]);
      InterpolateWritten(h.value, vars);
      hide Interpolate;
      HeadersAgree(m[h.key := Interpolate(h.value, vars)], headers[1..], rows[1..], vars);
    } else {
      assert Ticked(rows) == Ticked(rows[1..]);
      HeadersAgree(m, headers, rows[1..], vars);
    }
  }

  lemma BlockAgrees(file: HttpFile, item: Item, r: Request, vars: seq<KV>)
    requires FileVars(file.variables) == Written(vars) && SameItem(item, r)
    ensures FromBlock(file, item) == FromForm(r, vars)
  {
    InterpolateWritten(r.url, vars);
    InterpolateWritten(r.body, vars);
    hide Interpolate, FileVars;
    HeadersAgree(map[], item.headers, r.headers, vars);
  }

  // ---- the whole file ------------------------------------------------------------------------

  lemma {:induction false} WrittenAreOn(vars: seq<KV>)
    ensures forall i :: 0 <= i < |Written(vars)| ==> Written(vars)[i].on
  {
    if vars != [] { WrittenAreOn(vars[1..]); }
  }

  function AfterVars(f: File): string {
    (if VarLines(f.vars) == [] then "" else "\n") + Unlines(BlocksLines(f.reqs))
  }

  lemma PrintedSplit(f: File)
    ensures Printed(f) == Unlines(VarLines(f.vars)) + AfterVars(f)
  {
    var v, b := VarLines(f.vars), BlocksLines(f.reqs);
    VarsText(f.vars);
    UnlinesConcat(VarsLines(f.vars), b);
    hide VarLines, VarsLines, BlocksLines, Unlines;
    Assoc(Unlines(v), if v == [] then "" else "\n", Unlines(b));
  }

  /** The empty line after the variables is skipped like any other. */
  lemma BlocksAfterBlank(env: Env, ctx: Context, f: File)
    requires Sendable(env, f)
    requires ctx.Rem() == AfterVars(f)
    ensures Stretches(env, ctx).Some? && SameStretches(Stretches(env, ctx).value, f.reqs)
  {
    var blocks := Unlines(BlocksLines(f.reqs));
    if VarLines(f.vars) == [] {
      assert "" + blocks == blocks;
      BlocksRead(env, ctx, f.reqs);
    } else {
      BlankLineReads(ctx, blocks);
      var next := ReadLine(ctx).1;
      BlocksRead(env, next, f.reqs);
      hide BlocksLines, Unlines, SameStretches, IsBlankLine, ReadLine, SendableRequest;
      assert SkipBlankLines(ctx) == SkipBlankLines(next);
      SameSkipSameStretches(env, ctx, next);
    }
  }

  lemma SameSkipSameStretches(env: Env, a: Context, b: Context)
    requires SkipBlankLines(a) == SkipBlankLines(b)
    ensures Stretches(env, a) == Stretches(env, b)
  {
    StretchesStep(env, a);
    StretchesStep(env, b);
    hide Stretches, NextStretch, SkipBlankLines;
  }

  lemma SamePlace(a: Context, b: Context)
    requires a.src == b.src && a.Rem() == b.Rem()
    ensures a == b
  {
    assert |a.Rem()| == |a.src| - a.off && |b.Rem()| == |b.src| - b.off;
  }

  lemma RestIs(src: string, before: string, rest: string)
    requires src == before + rest
    ensures |rest| <= |src| && src[|src| - |rest|..] == rest && src[0..] == src
  {
  }

  lemma VariablesArePlain(env: Env, f: File)
    requires Sendable(env, f)
    ensures forall i :: 0 <= i < |f.vars| && WritesVar(f.vars[i]) ==> ShapeRow(f.vars[i]) && PlainValue(f.vars[i].value)
  {
    hide ShapeRow, PlainValue, WritesVar;
  }

  lemma SameCount(ss: seq<Stretch>, rs: seq<Request>)
    requires SameStretches(ss, rs)
    ensures |ss| == |rs|
  {
    hide SameItem;
  }

  lemma FileStretches(env: Env, f: File)
    requires Sendable(env, f)
    ensures var all := Stretches(env, Context(Printed(f), 0)); var n := |Written(f.vars)|;
      && all.Some? && |all.value| == n + |f.reqs|
      && SameVariables(all.value[..n], Written(f.vars)) && SameStretches(all.value[n..], f.reqs)
  {
    var src, rest := Printed(f), AfterVars(f);
    PrintedSplit(f);
    RestIs(src, Unlines(VarLines(f.vars)), rest);
    hide Printed, AfterVars, Sendable, Unlines, VarLines, Stretches, SameStretches, SameVariables, Written;
    var start: Context, after: Context := Context(src, 0), Context(src, |src| - |rest|);
    assert start.Rem() == src && after.Rem() == rest;
    hide *;
    BlocksAfterBlank(env, after, f);
    var ss := Stretches(env, after).value;
    VariablesArePlain(env, f);
    SameCount(ss, f.reqs);
    forall c: Context | c.src == src && c.Rem() == rest ensures Stretches(env, c) == Some(ss) {
      SamePlace(c, after);
    }
    VariablesRead(env, start, f.vars, rest, ss);
  }

  lemma FileGathers(env: Env, source: string)
    requires Stretches(env, Context(source, 0)).Some?
    ensures FileOf(env, source) == Some(Gather(NOTHING, Stretches(env, Context(source, 0)).value))
  {
    hide Stretches, Gather;
  }

  lemma FileReads(env: Env, f: File)
    requires Sendable(env, f)
    ensures FileOf(env, Printed(f)).Some?
    ensures var file := FileOf(env, Printed(f)).value;
      && file.issues == []
      && FileVars(file.variables) == Written(f.vars)
      && |file.requests| == |f.reqs|
      && forall i :: 0 <= i < |f.reqs| ==> SameItem(file.requests[i], f.reqs[i])
  {
    FileStretches(env, f);
    var all, n := Stretches(env, Context(Printed(f), 0)).value, |Written(f.vars)|;
    hide *;
    FileGathers(env, Printed(f));
    WrittenAreOn(f.vars);
    FileParts(all, n, Written(f.vars), f.reqs);
  }

  lemma FileParts(all: seq<Stretch>, n: nat, vars: seq<KV>, rs: seq<Request>)
    requires n <= |all| && SameVariables(all[..n], vars) && SameStretches(all[n..], rs)
    requires forall i :: 0 <= i < |vars| ==> vars[i].on
    ensures var file := Gather(NOTHING, all);
      && file.issues == [] && FileVars(file.variables) == vars
      && |file.requests| == |rs| && forall i :: 0 <= i < |rs| ==> SameItem(file.requests[i], rs[i])
  {
    var vs, ss := all[..n], all[n..];
    hide SameItem, SameStretches, SameVariables, FileVars, Gather, Variables, Requests, Issues;
    assert all == vs + ss;
    GatherParts(NOTHING, all);
    PartsOfVariables(vs, vars, ss);
    PartsOfRequests(ss, rs);
    assert [] + (Variables(vs) + []) == Variables(vs);
    assert [] + Requests(ss) == Requests(ss);
  }

  /**
   What runs is what the form shows: the printed file has no unreadable block, one request per
   block in order, and each is sent with the method, URL, headers and body of its form.
   */
  lemma RunsWhatTheFormShows(env: Env, f: File)
    requires Sendable(env, f)
    ensures FileOf(env, Printed(f)).Some?
    ensures var file := FileOf(env, Printed(f)).value;
      && file.issues == [] && |file.requests| == |f.reqs|
      && forall i :: 0 <= i < |f.reqs| ==> FromBlock(file, file.requests[i]) == FromForm(f.reqs[i], f.vars)
  {
    FileReads(env, f);
    var file := FileOf(env, Printed(f)).value;
    forall i | 0 <= i < |f.reqs| ensures FromBlock(file, file.requests[i]) == FromForm(f.reqs[i], f.vars) {
      BlockAgrees(file, file.requests[i], f.reqs[i], f.vars);
    }
  }
}
