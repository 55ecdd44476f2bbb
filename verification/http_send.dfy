/**
 What the play button sends: the form's reading of a request, and the grammar's reading of its
 block in the printed text. The two agree on every file the grammar can send.
 */
module HttpSend {
  import opened Text
  import opened HttpForm
  import opened HttpFormLines
  import opened HttpFormReparse
  import opened HttpFormSwitch
  import HttpFormShape
  import opened HttpGrammar
  import opened HttpBlocks
  import opened HttpGrammarLines

  // ---- substitution ---------------------------------------------------------------

  /** The length of a `{{ name }}` placeholder at the start of `s`, and the name. */
  function PlaceholderAt(s: string): Option<(nat, string)> {
    if !("{{" <= s) then None
    else
      var before := 2 + Run(s[2..], IsRegexSpace);
      var n := Run(s[before..], IsWord);
      var after := before + n + Run(s[before + n..], IsRegexSpace);
      if n == 0 || !("}}" <= s[after..]) then None else Some((after + 2, s[before..before + n]))
  }

  function Lookup(name: string, vars: seq<KV>): Option<string> {
    if vars == [] then None
    else if vars[0].on && vars[0].key == name then Some(vars[0].value)
    else Lookup(name, vars[1..])
  }

  /** Every placeholder of a known variable replaced, the others left as they are. */
  function Interpolate(s: string, vars: seq<KV>): string
    decreases |s|
  {
    if s == "" then ""
    else match PlaceholderAt(s)
      case Some((n, name)) =>
        (match Lookup(name, vars) case Some(value) => value case None => s[..n]) + Interpolate(s[n..], vars)
      case None => [s[0]] + Interpolate(s[1..], vars)
  }

  /** Unticked and unnamed rows never answer a placeholder. */
  lemma {:induction false} LookupWritten(name: string, vars: seq<KV>)
    requires name != ""
    ensures Lookup(name, Written(vars)) == Lookup(name, vars)
  {
    if vars != [] {
      LookupWritten(name, vars[1..]);
      if WritesVar(vars[0]) {
        assert ([vars[0]] + Written(vars[1..]))[1..] == Written(vars[1..]);
      } else {
        assert Written(vars) == Written(vars[1..]);
      }
    }
  }

  lemma PlaceholderHasName(s: string)
    ensures PlaceholderAt(s).Some? ==> PlaceholderAt(s).value.1 != "" && 0 < PlaceholderAt(s).value.0 <= |s|
  {
  }

  lemma {:induction false} InterpolateWritten(s: string, vars: seq<KV>)
    ensures Interpolate(s, Written(vars)) == Interpolate(s, vars)
    decreases |s|
  {
    if s != "" {
      PlaceholderHasName(s);
      hide PlaceholderAt;
      match PlaceholderAt(s)
      case Some((n, name)) =>
        LookupWritten(name, vars);
        InterpolateWritten(s[n..], vars);
      case None =>
        InterpolateWritten(s[1..], vars);
    }
  }

  // ---- the two readings ---------------------------------------------------------------

  datatype Outgoing = Outgoing(verb: string, url: string, headers: map<string, string>, body: string)

  /** The ticked and named rows, later rows over earlier ones. */
  function FormHeaders(m: map<string, string>, rows: seq<KV>, vars: seq<KV>): map<string, string>
    decreases |rows|
  {
    if rows == [] then m
    else
      var h := rows[0];
      FormHeaders(if h.on && h.key != "" then m[h.key := Interpolate(h.value, vars)] else m, rows[1..], vars)
  }

  predicate NoBody(verb: string) {
    verb == "GET" || verb == "HEAD"
  }

  function FromForm(r: Request, vars: seq<KV>): Outgoing {
    Outgoing(r.verb, Interpolate(r.url, vars), FormHeaders(map[], r.headers, vars),
             if NoBody(r.verb) then "" else Interpolate(r.body, vars))
  }

  function BlockHeaders(m: map<string, string>, headers: seq<Pair>, vars: seq<KV>): map<string, string>
    decreases |headers|
  {
    if headers == [] then m
    else
      var h := headers[0];
      BlockHeaders(if h.name.text != "" then m[h.name.text := Interpolate(h.value.text, vars)] else m, headers[1..], vars)
  }

  function FileVars(variables: seq<Pair>): (vars: seq<KV>)
    ensures |vars| == |variables|
  {
    seq(|variables|, i requires 0 <= i < |variables| => KV(variables[i].name.text, variables[i].value.text, true))
  }

  function FromBlock(file: HttpFile, item: Item): Outgoing {
    var vars := FileVars(file.variables);
    var verb := item.line.verb.text;
    Outgoing(verb, Interpolate(item.line.target.text, vars), BlockHeaders(map[], item.headers, vars),
             if NoBody(verb) then "" else Interpolate(item.body.text, vars))
  }

  method ResolveForm(r: Request, vars: seq<KV>) returns (out: Outgoing)
    ensures out == FromForm(r, vars)
  {
    var headers: map<string, string> := map[];
    for i := 0 to |r.headers|
      invariant FormHeaders(headers, r.headers[i..], vars) == FormHeaders(map[], r.headers, vars)
    {
      var h := r.headers[i];
      assert r.headers[i..][1..] == r.headers[i + 1..];
      if h.on && h.key != "" {
        headers := headers[h.key := Interpolate(h.value, vars)];
      }
    }
    var body := "";
    if r.verb != "GET" && r.verb != "HEAD" {
      body := Interpolate(r.body, vars);
    }
    out := Outgoing(r.verb, Interpolate(r.url, vars), headers, body);
  }

  method ResolveBlock(file: HttpFile, item: Item) returns (out: Outgoing)
    ensures out == FromBlock(file, item)
  {
    var vars: seq<KV> := [];
    for i := 0 to |file.variables|
      invariant vars == FileVars(file.variables[..i])
    {
      vars := vars + [KV(file.variables[i].name.text, file.variables[i].value.text, true)];
    }
    assert file.variables[..|file.variables|] == file.variables;
    var verb := item.line.verb.text;
    var headers: map<string, string> := map[];
    for i := 0 to |item.headers|
      invariant BlockHeaders(headers, item.headers[i..], vars) == BlockHeaders(map[], item.headers, vars)
    {
      var h := item.headers[i];
      assert item.headers[i..][1..] == item.headers[i + 1..];
      if h.name.text != "" {
        headers := headers[h.name.text := Interpolate(h.value.text, vars)];
      }
    }
    var body := "";
    if verb != "GET" && verb != "HEAD" {
      body := Interpolate(item.body.text, vars);
    }
    out := Outgoing(verb, Interpolate(item.line.target.text, vars), headers, body);
  }

  // ---- what the grammar can send ----------------------------------------------------------

  /**
   The block has a target the grammar accepts, only `#` notes, values it reads whole, and no
   body of blanks alone (the printer drops one).
   */
  predicate SendableRequest(env: Env, r: Request) {
    && ShapeRequest(r) && NoRegexSpace(r.url) && NoReturns(r)
    && UsableTarget(env, r.url)
    && (forall i :: 0 <= i < |r.notes| ==> "#" <= r.notes[i])
    && (forall i :: 0 <= i < |r.headers| && r.headers[i].key != "" ==> PlainValue(r.headers[i].value))
    && (TrimSpace(r.body) == "" ==> r.body == "")
  }

  predicate Sendable(env: Env, f: File) {
    && BlanksStayOnLine(env)
    && (forall i :: 0 <= i < |f.vars| && WritesVar(f.vars[i]) ==> ShapeRow(f.vars[i]) && PlainValue(f.vars[i].value))
    && (forall i :: 0 <= i < |f.reqs| ==> SendableRequest(env, f.reqs[i]))
  }

  // ---- header lines ---------------------------------------------------------------------

  function Texts(headers: seq<Pair>): seq<(string, string)> {
    if headers == [] then [] else [(headers[0].name.text, headers[0].value.text)] + Texts(headers[1..])
  }

  function Ticked(rows: seq<KV>): seq<(string, string)> {
    if rows == [] then []
    else (if rows[0].on && rows[0].key != "" then [(rows[0].key, rows[0].value)] else []) + Ticked(rows[1..])
  }

  /** A note read among the headers leaves the headers alone, as long as no separator follows it. */
  lemma NoteAmongHeaders(ctx: Context)
    requires !HeadersEnd(ctx) && "#" <= ctx.Rem() && NoteParser(ctx).Ok?
    requires !(SEPARATOR <= ConsumeEndOfLine(NoteParser(ctx).next).Rem())
    ensures var rest := HeaderLoop(ConsumeEndOfLine(NoteParser(ctx).next));
      && HeaderLoop(ctx).Stuck? == rest.Stuck?
      && (rest.Headed? ==> HeaderLoop(ctx).headers == rest.headers && HeaderLoop(ctx).next == rest.next)
  {
    var next := ConsumeEndOfLine(NoteParser(ctx).next);
    hide HeaderLoop, CommentLines, HeaderParser, ConsumeEndOfLine, NoteParser;
    HeaderLoopStep(ctx);
    HeaderLoopStep(next);
    CommentLinesStep(ctx);
    CommentLinesStep(next);
    if "#" <= next.Rem() {
      HashIsNotBlank(next);
    } else {
      NotANote(next);
    }
  }

  lemma HashIsNotBlank(ctx: Context)
    requires "#" <= ctx.Rem()
    ensures !ctx.AtEnd() && !IsBlankLine(ctx)
  {
    assert ctx.Rem()[0] == '#';
    NotBlankLine(ctx);
  }

  lemma NotANote(ctx: Context)
    requires !("#" <= ctx.Rem())
    ensures NoteParser(ctx).Fail?
  {
    if ctx.Rem() != "" {
      assert ctx.Rem()[0] != '#';
    }
  }

  predicate RestOfBlock(rest: string) {
    rest == "" || rest[0] == '\n'
  }

  lemma LineSplit(l: string, below: string, rest: string)
    ensures l + "\n" + below + rest == l + ("\n" + (below + rest))
  {
  }

  lemma UnlinesHead(ls: seq<string>, rest: string)
    requires ls != []
    ensures Unlines(ls) + rest == ls[0] + ("\n" + (Unlines(ls[1..]) + rest))
  {
    UnlinesCons(ls);
    LineSplit(ls[0], Unlines(ls[1..]), rest);
  }

  lemma HeadersEndAt(ctx: Context, rest: string)
    requires ctx.Rem() == rest && RestOfBlock(rest)
    ensures HeadersEnd(ctx)
  {
    if rest != "" {
      RunIs(ctx.Rem(), IsCutSpace, 0);
    }
  }

  lemma TickedLineReads(ctx: Context, h: KV, rest: string)
    requires ShapeRow(h) && h.key != "" && h.on && PlainValue(h.value)
    requires ctx.Rem() == HeaderText(h) + ("\n" + rest)
    ensures !HeadersEnd(ctx) && !("#" <= ctx.Rem())
    ensures var r := HeaderParser(ctx);
      && r.Ok? && r.value.name.text == h.key && r.value.value.text == h.value
      && r.next.src == ctx.src && r.next.Rem() == "\n" + rest
  {
    var tail := " " + h.value + ("\n" + rest);
    assert HeaderText(h) + ("\n" + rest) == h.key + (":" + tail) by { TickedLineText(h, rest); }
    assert IsWord(h.key[0]) && ctx.Rem()[0] == h.key[0];
    hide HeaderText, PlainValue, HeaderParser, IsBlankLine;
    NotBlankLine(ctx);
    HeaderReads(ctx, h.key, h.value, rest);
  }

  lemma TickedLineText(h: KV, rest: string)
    requires h.on
    ensures HeaderText(h) + ("\n" + rest) == h.key + (":" + (" " + h.value + ("\n" + rest)))
  {
    var end := "\n" + rest;
    assert h.key + ": " + h.value == h.key + (": " + h.value);
    assert h.key + (": " + h.value) + end == h.key + (": " + h.value + end);
    assert ": " + h.value + end == ":" + (" " + h.value + end);
  }

  lemma UntickedLineReads(ctx: Context, h: KV, rest: string)
    requires ShapeRow(h) && h.key != "" && !h.on
    requires ctx.Rem() == HeaderText(h) + ("\n" + rest)
    ensures !HeadersEnd(ctx) && "#" <= ctx.Rem()
    ensures NoteParser(ctx).Ok? && NoteParser(ctx).next.src == ctx.src && NoteParser(ctx).next.Rem() == "\n" + rest
  {
    hide HeaderText, NoteParser, IsBlankLine, ShapeRow, Uncomment, HeaderLine, Run;
    var line := HeaderText(h);
    UntickedHeaderReads(h);
    HttpFormShape.HeaderTextIsOneLine(h);
    assert "#" <= line;
    HashIsNotSeparator(ctx, line, "\n" + rest);
    HashIsNotBlank(ctx);
    NoteReads(ctx, line, rest);
  }

  lemma HashIsNotSeparator(ctx: Context, line: string, rest: string)
    requires ctx.Rem() == line + rest
    requires |line| > 1 && line[0] == '#' && line[1] != '#'
    ensures "#" <= ctx.Rem() && !(SEPARATOR <= ctx.Rem())
  {
    assert ctx.Rem()[0] == line[0] && ctx.Rem()[1] == line[1];
  }

  lemma HeaderTextOpens(h: KV, rest: string)
    requires ShapeRow(h) && h.key != ""
    ensures !(SEPARATOR <= HeaderText(h) + rest)
  {
    if h.on { TickedHeaderReads(h); } else { UntickedHeaderReads(h); }
    hide HeaderText, ShapeRow, Uncomment, HeaderLine;
    NoSeparatorAt(HeaderText(h), rest, if h.on then 0 else 1);
  }

  lemma NoSeparatorAt(text: string, rest: string, i: nat)
    requires i < 3 && i < |text| && text[i] != '#'
    ensures !(SEPARATOR <= text + rest)
  {
    assert (text + rest)[i] == text[i];
  }

  lemma {:induction false} HeaderLinesOpen(rows: seq<KV>, rest: string)
    requires RestOfBlock(rest)
    requires forall i :: 0 <= i < |rows| && rows[i].key != "" ==> ShapeRow(rows[i])
    ensures !(SEPARATOR <= Unlines(HeaderLines(rows)) + rest)
  {
    if rows == [] {
      assert Unlines(HeaderLines(rows)) + rest == rest;
    } else if rows[0].key == "" {
      assert HeaderLines(rows) == HeaderLines(rows[1..]);
      HeaderLinesOpen(rows[1..], rest);
    } else {
      UnlinesHead(HeaderLines(rows), rest);
      HeaderTextOpens(rows[0], "\n" + (Unlines(HeaderLines(rows)[1..]) + rest));
    }
  }

  /** The printed rows read back as the ticked ones; the unticked ones stay behind their marker. */
  lemma {:induction false} HeadersRead(ctx: Context, rows: seq<KV>, rest: string)
    requires RestOfBlock(rest)
    requires forall i :: 0 <= i < |rows| && rows[i].key != "" ==> ShapeRow(rows[i]) && PlainValue(rows[i].value)
    requires ctx.Rem() == Unlines(HeaderLines(rows)) + rest
    ensures var r := HeaderLoop(ctx);
      r.Headed? && Texts(r.headers) == Ticked(rows) && r.next.src == ctx.src && r.next.Rem() == rest
    decreases |rows|
  {
    if rows == [] {
      assert ctx.Rem() == rest;
      HeadersEndAt(ctx, rest);
    } else if rows[0].key == "" {
      assert HeaderLines(rows) == HeaderLines(rows[1..]);
      assert Ticked(rows) == Ticked(rows[1..]);
      HeadersRead(ctx, rows[1..], rest);
    } else {
      var h, more := rows[0], rows[1..];
      var below := Unlines(HeaderLines(more)) + rest;
      UnlinesHead(HeaderLines(rows), rest);
      assert HeaderLines(rows)[1..] == HeaderLines(more);
      HeaderLinesOpen(more, rest);
      hide HeaderLoop, HeaderParser, NoteParser, HeaderText, HeaderLines, PlainValue, ShapeRow, ConsumeEndOfLine, HeadersEnd, Unlines;
      HeaderLoopStep(ctx);
      if h.on {
        TickedLineReads(ctx, h, below);
        var n := HeaderParser(ctx).next;
        BreakConsumed(n, below);
        HeadersRead(ConsumeEndOfLine(n), more, rest);
        assert Texts([HeaderParser(ctx).value] + HeaderLoop(ConsumeEndOfLine(n)).headers)
            == [(h.key, h.value)] + Texts(HeaderLoop(ConsumeEndOfLine(n)).headers) by {
          TextsCons(HeaderParser(ctx).value, HeaderLoop(ConsumeEndOfLine(n)).headers);
        }
      } else {
        UntickedLineReads(ctx, h, below);
        var n := NoteParser(ctx).next;
        BreakConsumed(n, below);
        HeadersRead(ConsumeEndOfLine(n), more, rest);
        NoteAmongHeaders(ctx);
        assert Ticked(rows) == Ticked(more);
      }
    }
  }

  lemma TextsCons(h: Pair, rest: seq<Pair>)
    ensures Texts([h] + rest) == [(h.name.text, h.value.text)] + Texts(rest)
  {
    assert ([h] + rest)[1..] == rest;
  }

  // ---- bodies -----------------------------------------------------------------------------

  /** What stands between a block and the next one: nothing at the end, an empty line and a title otherwise. */
  predicate EndOfBlock(end: string) {
    end == "" || (end[0] == '\n' && SEPARATOR <= end[1..])
  }

  function NextBlock(end: string): string
    requires EndOfBlock(end)
  {
    if end == "" then "" else end[1..]
  }

  lemma TrimBreaks(body: string, breaks: string)
    requires TrimRight(body, IsBodyTail) == body && !EndsWithCr(body)
    requires All(breaks, IsBreak)
    ensures TrimRight(body + breaks, IsBreak) == body
  {
    var s := body + breaks;
    assert Kept(body, IsBodyTail) == |body| by { assert body[..Kept(body, IsBodyTail)] == body; }
    assert body != "" ==> s[|body| - 1] == body[|body| - 1];
    KeptIs(s, IsBreak, |body|);
    assert s[..|body|] == body;
  }

  lemma LastLineEnds(body: string)
    requires NoLineEndsWithCr(Lines(body)) && body != ""
    ensures !EndsWithCr(body)
  {
    LastLine(body);
  }

  lemma {:induction false} LastLine(body: string)
    requires body != ""
    ensures EndsWithCr(body) ==> EndsWithCr(Lines(body)[|Lines(body)| - 1])
  {
    LinesCons(body);
    if |body| > 1 {
      LastLine(body[1..]);
      var rest := Lines(body[1..]);
      if body[0] == '\n' {
        assert Lines(body) == [""] + rest;
      } else if |rest| == 1 {
        assert Lines(body)[0] == [body[0]] + rest[0];
      } else {
        assert Lines(body) == [[body[0]] + rest[0]] + rest[1..];
      }
    } else {
      assert body[1..] == "";
    }
  }

  lemma ConsumedIs(start: Context, next: Context, text: string, rest: string)
    requires Ahead(start, next) && start.Rem() == text + rest && next.Rem() == rest
    ensures Consumed(start, next) == text
  {
    assert |start.Rem()| == |text| + |rest| && |next.Rem()| == |rest|;
    assert Consumed(start, next) == start.Rem()[..|text|];
  }

  lemma BodyText(ctx: Context, start: Context, next: Context, body: string, breaks: string, rest: string)
    requires BodyStart(ctx) == start && Ahead(start, next) && UntilSeparator(start) == next
    requires start.Rem() == body + breaks + rest && next.Rem() == rest
    requires TrimRight(body + breaks, IsBreak) == body
    ensures BodyParser(ctx).0.text == body && BodyParser(ctx).1 == next
  {
    ConsumedIs(start, next, body + breaks, rest);
    hide Consumed, BodyStart, UntilSeparator, TrimRight;
  }

  predicate PlainBody(body: string) {
    && ShapeBody(body)
    && NoLineEndsWithCr(BodyLines(body))
    && (TrimSpace(body) == "" ==> body == "")
  }

  lemma NoBodyReads(ctx: Context, end: string)
    requires EndOfBlock(end) && ctx.Rem() == end
    ensures var (body, next) := BodyParser(ctx);
      body.text == "" && next.src == ctx.src && next.Rem() == NextBlock(end)
  {
    assert "" + "" == "" && TrimRight("", IsBreak) == "";
    if end == "" {
      BodyText(ctx, ctx, ctx, "", "", "");
    } else {
      var rest := end[1..];
      assert end == "\n" + rest;
      BlankLineReads(ctx, rest);
      var start := ReadLine(ctx).1;
      assert "" + rest == rest && "" + "" + rest == rest;
      BodyText(ctx, start, start, "", "", rest);
    }
  }

  lemma BodyLinesFacts(body: string)
    requires PlainBody(body) && body != ""
    ensures TrimSpace(body) != ""
    ensures BodyLines(body) == [""] + Lines(body) && Unlines(BodyLines(body)) == "\n" + (body + "\n")
    ensures forall i :: 0 <= i < |Lines(body)| ==> OneLine(Lines(body)[i]) && !(SEPARATOR <= Lines(body)[i])
    ensures TrimRight(body, IsBodyTail) == body && !EndsWithCr(body)
  {
    UnlinesOfLines(body);
    UnlinesEmptyFirst(Lines(body));
    hide Lines, Unlines, TrimSpace, TrimRight, EndsWithCr, OneLine;
    forall i | 0 <= i < |Lines(body)| ensures !EndsWithCr(Lines(body)[i]) {
      assert BodyLines(body)[i + 1] == Lines(body)[i];
    }
    LastLineEnds(body);
  }

  lemma SomeBodyReads(ctx: Context, body: string, end: string)
    requires EndOfBlock(end) && PlainBody(body) && body != ""
    requires ctx.Rem() == "\n" + (body + "\n" + end)
    ensures var (text, next) := BodyParser(ctx);
      text.text == body && next.src == ctx.src && next.Rem() == NextBlock(end)
  {
    var breaks, rest := if end == "" then "\n" else "\n\n", NextBlock(end);
    var gap: seq<string> := if end == "" then [] else [""];
    BodyLinesFacts(body);
    BlankLineReads(ctx, body + "\n" + end);
    var start := ReadLine(ctx).1;
    EndText(body, end);
    UnlinesOfLines(body);
    UnlinesConcat(Lines(body), gap);
    GapLines(body, end);
    hide Lines, Unlines, PlainBody, UntilSeparator, BodyParser, BodyLines, NextBlock, EndOfBlock;
    LinesRead(start, Lines(body) + gap, rest);
    TrimBreaks(body, breaks);
    BodyText(ctx, start, UntilSeparator(start), body, breaks, rest);
  }

  lemma GapLines(body: string, end: string)
    ensures body + "\n" + Unlines(if end == "" then [] else [""]) == body + if end == "" then "\n" else "\n\n"
  {
    if end == "" {
      NoMore(body + "\n");
    } else {
      UnlinesOne("");
      hide Unlines;
      Assoc(body, "\n", "\n");
    }
  }

  lemma EndText(body: string, end: string)
    requires EndOfBlock(end)
    ensures body + "\n" + end == body + (if end == "" then "\n" else "\n\n") + NextBlock(end)
  {
    if end != "" {
      assert end == "\n" + end[1..];
    }
  }

  lemma NoBodyText(end: string)
    ensures Unlines(BodyLines("")) + end == end
  {
    assert TrimSpace("") == "";
    NoMore(end);
  }

  lemma BodyReads(ctx: Context, body: string, end: string)
    requires EndOfBlock(end) && PlainBody(body)
    requires ctx.Rem() == Unlines(BodyLines(body)) + end
    ensures var (text, next) := BodyParser(ctx);
      text.text == body && next.src == ctx.src && next.Rem() == NextBlock(end)
  {
    hide *;
    if body == "" {
      NoBodyText(end);
      NoBodyReads(ctx, end);
    } else {
      BodyLinesFacts(body);
      Assoc("\n", body + "\n", end);
      SomeBodyReads(ctx, body, end);
    }
  }
}
