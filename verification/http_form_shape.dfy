/** Every parsed file has the shape the round trip asks for; every printed line is one line. */
module HttpFormShape {
  import opened Text
  import opened HttpForm
  import opened HttpFormLines
  import opened HttpFormReparse

  // ---- printed lines hold no line break ---------------------------------------

  lemma OneLineConcat(a: string, b: string)
    requires OneLine(a) && OneLine(b)
    ensures OneLine(a + b)
  {
  }

  lemma WordsAreOneLine(s: string)
    requires All(s, IsWord)
    ensures OneLine(s)
  {
  }

  lemma VarTextIsOneLine(v: KV)
    requires ShapeRow(v)
    ensures OneLine(VarText(v))
  {
    WordsAreOneLine(v.key);
    hide ShapeRow;
    OneLineConcat("@", v.key);
    OneLineConcat("@" + v.key, " = ");
    OneLineConcat("@" + v.key + " = ", v.value);
  }

  lemma HeaderTextIsOneLine(h: KV)
    requires ShapeRow(h)
    ensures OneLine(HeaderText(h))
  {
    WordsAreOneLine(h.key);
    OneLineConcat("# ", h.key);
    OneLineConcat(h.key, ": ");
    OneLineConcat("# " + h.key, ": ");
    OneLineConcat(h.key + ": ", h.value);
    OneLineConcat("# " + h.key + ": ", h.value);
  }

  lemma TitleLineIsOneLine(name: string)
    requires OneLine(name) && Trimmed(name)
    ensures OneLine(TitleLine(name))
  {
    TitleLineOf(name);
    OneLineConcat("### ", name);
  }

  lemma RequestLineIsOneLine(r: Request)
    requires IsMethod(r.verb) && ShapeUrl(r.url)
    ensures OneLine(RequestLine(r))
  {
    RequestLineOf(r.verb, r.url);
    VerbFacts(r.verb);
    assert OneLine(r.verb);
    OneLineConcat(" ", r.url);
    OneLineConcat(r.verb, " " + r.url);
  }

  lemma OneLineEachConcat(a: seq<string>, b: seq<string>)
    requires OneLineEach(a) && OneLineEach(b)
    ensures OneLineEach(a + b)
  {
  }

  lemma {:induction false} VarLinesAreOneLine(vars: seq<KV>)
    requires forall i :: 0 <= i < |vars| && WritesVar(vars[i]) ==> ShapeRow(vars[i])
    ensures OneLineEach(VarLines(vars))
  {
    if vars != [] {
      if WritesVar(vars[0]) { VarTextIsOneLine(vars[0]); }
      VarLinesAreOneLine(vars[1..]);
    }
  }

  lemma {:induction false} HeaderLinesAreOneLine(hs: seq<KV>)
    requires forall i :: 0 <= i < |hs| && hs[i].key != "" ==> ShapeRow(hs[i])
    ensures OneLineEach(HeaderLines(hs))
  {
    if hs != [] {
      if hs[0].key != "" { HeaderTextIsOneLine(hs[0]); }
      HeaderLinesAreOneLine(hs[1..]);
    }
  }

  lemma NotesAreOneLine(r: Request)
    requires ShapeRequest(r)
    ensures OneLineEach(r.notes)
  {
    hide ShapeRow, ShapeUrl, ShapeBody, Trimmed, OneLine;
    forall i | 0 <= i < |r.notes| ensures OneLine(r.notes[i]) { assert ShapeNote(r.notes[i]); }
  }

  lemma BlockLinesAreOneLine(r: Request)
    requires ShapeRequest(r)
    ensures OneLineEach(BlockLines(r))
  {
    TitleLineIsOneLine(r.name);
    RequestLineIsOneLine(r);
    HeaderLinesAreOneLine(r.headers);
    NotesAreOneLine(r);
    hide TitleLine, RequestLine, HeaderLines, ShapeRequest, Lines, TrimSpace;
    assert OneLineEach(BodyLines(r.body)) && OneLineEach(RequestLines(r));
    hide OneLineEach, BodyLines, RequestLines;
    OneLineEachConcat(HeaderLines(r.headers), BodyLines(r.body));
    OneLineEachConcat(RequestLines(r), HeaderLines(r.headers) + BodyLines(r.body));
    OneLineEachConcat(r.notes, RequestLines(r) + (HeaderLines(r.headers) + BodyLines(r.body)));
    OneLineEachConcat([TitleLine(r.name)], TailLines(r));
  }

  lemma {:induction false} BlocksLinesAreOneLine(rs: seq<Request>)
    requires forall i :: 0 <= i < |rs| ==> ShapeRequest(rs[i])
    ensures OneLineEach(BlocksLines(rs))
  {
    hide BlockLines, ShapeRequest, OneLine;
    if rs != [] {
      BlockLinesAreOneLine(rs[0]);
      BlocksLinesAreOneLine(rs[1..]);
      GapIsOneLine();
      OneLineEachConcat([""], BlocksLines(rs[1..]));
      OneLineEachConcat(BlockLines(rs[0]), if |rs| == 1 then [] else [""] + BlocksLines(rs[1..]));
    }
  }

  lemma GapIsOneLine()
    ensures OneLineEach([""]) && OneLineEach([])
  {
  }

  lemma FileLinesAreOneLine(f: File)
    requires Shape(f)
    ensures OneLineEach(FileLines(f))
  {
    VarLinesAreOneLine(f.vars);
    BlocksLinesAreOneLine(f.reqs);
  }

  // ---- reading the printed file --------------------------------------------------

  lemma StepVar(st: ParseState, v: KV)
    requires st.section == NoSection
    requires ShapeRow(v) && WritesVar(v)
    ensures Step(st, VarText(v)) == st.(vars := st.vars + [v])
  {
    VarTextReads(v);
    hide VarText, VarLine;
  }

  lemma {:induction false} FoldVarLines(st: ParseState, vars: seq<KV>)
    requires st.section == NoSection
    requires forall i :: 0 <= i < |vars| && WritesVar(vars[i]) ==> ShapeRow(vars[i])
    ensures Fold(st, VarLines(vars)) == st.(vars := st.vars + Written(vars))
    decreases |vars|
  {
    hide VarText, ShapeRow, Step;
    if vars == [] {
      assert st.vars + [] == st.vars;
    } else if WritesVar(vars[0]) {
      StepVar(st, vars[0]);
      FoldVarLines(st.(vars := st.vars + [vars[0]]), vars[1..]);
      FoldCons(st, VarText(vars[0]), VarLines(vars[1..]));
      assert st.vars + [vars[0]] + Written(vars[1..]) == st.vars + ([vars[0]] + Written(vars[1..]));
    } else {
      assert VarLines(vars) == VarLines(vars[1..]) && Written(vars) == Written(vars[1..]);
      FoldVarLines(st, vars[1..]);
    }
  }

  lemma FoldVarsLines(vars: seq<KV>)
    requires forall i :: 0 <= i < |vars| && WritesVar(vars[i]) ==> ShapeRow(vars[i])
    ensures Fold(START, VarsLines(vars)) == ParseState(Written(vars), [], NoSection)
  {
    EmptyIsNoVariable();
    NoMore(Written(vars));
    NoMore(VarLines(vars));
    hide VarLine, VarLines, Written, Fold;
    FoldVarLines(START, vars);
    FoldConcat(START, VarLines(vars), if VarLines(vars) == [] then [] else [""]);
    FoldOne(ParseState(Written(vars), [], NoSection), "");
  }

  lemma FoldBlocks(vars: seq<KV>, rs: seq<Request>)
    requires forall i :: 0 <= i < |rs| ==> ShapeRequest(rs[i])
    ensures var st := Fold(ParseState(vars, [], NoSection), BlocksLines(rs) + [""]);
      st.vars == vars && st.reqs == RereadAll(rs)
  {
    hide *;
    var st := ParseState(vars, [], NoSection);
    if rs == [] {
      FoldNoBlocks(st);
    } else {
      var title := TitleLine(rs[0].name);
      OpenLinesAreBlocks(rs);
      FoldCons(st, title, OpenLines(rs));
      FirstIsShaped(rs);
      TitleLineOpens(rs[0].name);
      TitleStep(vars, title);
      FoldOpen(Step(st, title), [], FreshBlock(title), rs);
      NoMore(Reread(FreshBlock(title), rs));
      RereadIs(rs);
    }
  }

  lemma EmptyIsNoVariable()
    ensures VarLine("").None?
  {
  }

  lemma FoldNoBlocks(st: ParseState)
    requires st.reqs == []
    ensures Fold(st, BlocksLines([]) + [""]) == st && RereadAll([]) == []
  {
    NoMore([""]);
    EmptyIsNoVariable();
    hide VarLine;
    FoldOne(st, "");
  }

  lemma FirstIsShaped(rs: seq<Request>)
    requires rs != [] && forall i :: 0 <= i < |rs| ==> ShapeRequest(rs[i])
    ensures Trimmed(rs[0].name)
  {
    assert ShapeRequest(rs[0]);
    hide Trimmed;
  }

  lemma TitleStep(vars: seq<KV>, title: string)
    requires "###" <= title
    ensures var st := Step(ParseState(vars, [], NoSection), title);
      st == ParseState(vars, [FreshBlock(title)], ReqLineSection) && At(st, [], FreshBlock(title), ReqLineSection)
    ensures Fresh(FreshBlock(title))
  {
    assert Fresh(FreshBlock(title));
    hide FreshBlock, Fresh;
    NoMore([FreshBlock(title)]);
  }

  lemma RereadIs(rs: seq<Request>)
    requires rs != []
    ensures RereadAll(rs) == Reread(FreshBlock(TitleLine(rs[0].name)), rs)
  {
    hide Reread;
  }

  lemma PrintedLines(f: File)
    requires Shape(f) && NoLineEndsWithCr(FileLines(f))
    ensures Lines(DropCrlf(Printed(f))) == VarsLines(f.vars) + (BlocksLines(f.reqs) + [""])
  {
    var lines := FileLines(f);
    Assoc(VarsLines(f.vars), BlocksLines(f.reqs), [""]);
    hide VarsLines, BlocksLines;
    assert lines + [""] == VarsLines(f.vars) + (BlocksLines(f.reqs) + [""]);
    hide FileLines, Printed, Shape, VarsLines, BlocksLines, Unlines, DropCrlf, Lines, NoCrlf, OneLineEach, NoLineEndsWithCr;
    FileLinesAreOneLine(f);
    NoCrlfOfLines(lines);
    DropCrlfIdentity(Printed(f));
    LinesOfUnlines(lines);
  }

  /** What printing a file and parsing the text back gives, for every file of the parser's shape. */
  lemma PrintedReadsBack(f: File)
    requires Shape(f) && NoLineEndsWithCr(FileLines(f))
    ensures Parsed(Printed(f)) == Reparsed(f)
  {
    PrintedLines(f);
    hide VarsLines, BlocksLines, ShapeRequest, Fold, RereadAll;
    FoldVarsLines(f.vars);
    FoldBlocks(Written(f.vars), f.reqs);
    FoldConcat(START, VarsLines(f.vars), BlocksLines(f.reqs) + [""]);
  }
}
