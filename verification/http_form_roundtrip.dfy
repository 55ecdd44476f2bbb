/** What printing a file and parsing it back gives, block by block. */
module HttpFormReparse {
  import opened Text
  import opened HttpForm
  import opened HttpFormLines

  // ---- the files the parser produces ----------------------------------------

  predicate ShapeNote(note: string) {
    OneLine(note) && ("#" <= note || "//" <= note)
  }

  predicate ShapeBody(body: string) {
    TrimSpace(body) != "" ==>
      && body != "" && body[0] != '\n'
      && TrimRight(body, IsBodyTail) == body
      && forall i :: 0 <= i < |Lines(body)| ==> !("###" <= Lines(body)[i])
  }

  predicate ShapeRequest(r: Request) {
    && OneLine(r.name) && Trimmed(r.name)
    && (forall i :: 0 <= i < |r.notes| ==> ShapeNote(r.notes[i]))
    && IsMethod(r.verb)
    && ShapeUrl(r.url)
    && (forall i :: 0 <= i < |r.headers| && r.headers[i].key != "" ==> ShapeRow(r.headers[i]))
    && ShapeBody(r.body)
  }

  /** Unticked variables and unnamed rows are free: neither is printed. */
  predicate Shape(f: File) {
    && (forall i :: 0 <= i < |f.vars| && WritesVar(f.vars[i]) ==> ShapeRow(f.vars[i]))
    && (forall i :: 0 <= i < |f.reqs| ==> ShapeRequest(f.reqs[i]))
  }

  // ---- what a printed file reads back as --------------------------------------

  function Named(hs: seq<KV>): seq<KV> {
    if hs == [] then [] else (if hs[0].key == "" then [] else [hs[0]]) + Named(hs[1..])
  }

  function Written(vars: seq<KV>): seq<KV> {
    if vars == [] then [] else (if WritesVar(vars[0]) then [vars[0]] else []) + Written(vars[1..])
  }

  /** The block the lines below a title turn `cur` into, the line break after the body still on it. */
  function Below(cur: Request, r: Request): Request {
    ReadRequestLine(cur.(notes := cur.notes + r.notes), RequestLine(r))
      .(headers := cur.headers + Named(r.headers),
        body := if TrimSpace(r.body) == "" then "" else r.body + "\n")
  }

  /**
   The blocks the lines of `rs` turn into when the title of `rs[0]` has opened `cur`.
   A block without a request line takes the next title for one of its notes.
   */
  function Reread(cur: Request, rs: seq<Request>): (out: seq<Request>)
    requires rs != []
    ensures out != []
    decreases |rs|
  {
    var r := rs[0];
    if !r.Empty() then
      [Below(cur, r)] + if |rs| == 1 then [] else Reread(FreshBlock(TitleLine(rs[1].name)), rs[1..])
    else
      var noted := cur.(notes := cur.notes + r.notes);
      if |rs| == 1 then [noted]
      else Reread(noted.(notes := noted.notes + [TitleLine(rs[1].name)]), rs[1..])
  }

  function RereadAll(rs: seq<Request>): seq<Request> {
    if rs == [] then [] else Reread(FreshBlock(TitleLine(rs[0].name)), rs)
  }

  function Reparsed(f: File): File {
    File(Written(f.vars), FinishAll(RereadAll(f.reqs)))
  }

  // ---- folding over the printed lines ------------------------------------------

  /** A state whose last block is `cur`. */
  predicate At(st: ParseState, before: seq<Request>, cur: Request, section: Section) {
    st.reqs == before + [cur] && st.section == section
  }

  lemma FoldOne(st: ParseState, l: string)
    ensures Fold(st, [l]) == Step(st, l)
  {
  }

  lemma FoldCons(st: ParseState, l: string, ls: seq<string>)
    ensures Fold(st, [l] + ls) == Fold(Step(st, l), ls)
  {
    assert ([l] + ls)[1..] == ls;
  }

  lemma LastOf(before: seq<Request>, cur: Request, next: Request)
    ensures var all := before + [cur];
      all != [] && all[|all| - 1] == cur && all[..|all| - 1] + [next] == before + [next]
  {
    var all := before + [cur];
    assert all[..|all| - 1] == before;
  }

  lemma NoteIsNoVariable(note: string)
    requires "#" <= note || "//" <= note
    ensures VarLine(note).None? && TrimSpace(note) != ""
  {
    assert note[0] == '#' || note[0] == '/';
    NotBlank(note);
  }

  lemma StepNote(st: ParseState, before: seq<Request>, cur: Request, note: string)
    requires At(st, before, cur, ReqLineSection)
    requires "#" <= note || "//" <= note
    ensures Step(st, note) == ParseState(st.vars, before + [cur.(notes := cur.notes + [note])], ReqLineSection)
  {
    NoteIsNoVariable(note);
    LastOf(before, cur, cur.(notes := cur.notes + [note]));
  }

  lemma {:induction false} FoldNotes(st: ParseState, before: seq<Request>, cur: Request, notes: seq<string>)
    requires At(st, before, cur, ReqLineSection)
    requires forall i :: 0 <= i < |notes| ==> ShapeNote(notes[i])
    ensures Fold(st, notes) == ParseState(st.vars, before + [cur.(notes := cur.notes + notes)], ReqLineSection)
    decreases |notes|
  {
    hide Step;
    if notes == [] {
      NoMore(cur.notes);
    } else {
      var next := cur.(notes := cur.notes + [notes[0]]);
      StepNote(st, before, cur, notes[0]);
      FoldNotes(Step(st, notes[0]), before, next, notes[1..]);
      HeadTail(notes);
      Assoc(cur.notes, [notes[0]], notes[1..]);
    }
  }

  lemma StepBlankInReqLine(st: ParseState, before: seq<Request>, cur: Request)
    requires At(st, before, cur, ReqLineSection)
    ensures Step(st, "") == st
  {
    LastOf(before, cur, cur);
  }

  lemma RequestLineOpens(r: Request)
    requires IsMethod(r.verb) && ShapeUrl(r.url)
    ensures var line := RequestLine(r);
      line != "" && IsAsciiLetter(line[0]) && VarLine(line).None? && TrimSpace(line) != ""
  {
    VerbFacts(r.verb);
    RequestLineOf(r.verb, r.url);
    assert IsAsciiLetter(r.verb[0]);
    assert RequestLine(r)[0] == r.verb[0];
    NotBlank(RequestLine(r));
  }

  lemma StepRequestLine(st: ParseState, before: seq<Request>, cur: Request, r: Request)
    requires At(st, before, cur, ReqLineSection)
    requires IsMethod(r.verb) && ShapeUrl(r.url)
    ensures Step(st, RequestLine(r)) == ParseState(st.vars, before + [ReadRequestLine(cur, RequestLine(r))], HeaderSection)
  {
    RequestLineOpens(r);
    hide RequestLine, VarLine, TrimSpace, ReadRequestLine, IsMethod, ShapeUrl;
    LetterOpens(RequestLine(r));
    hide IsAsciiLetter;
    LastOf(before, cur, ReadRequestLine(cur, RequestLine(r)));
  }

  lemma LetterOpens(line: string)
    requires line != "" && IsAsciiLetter(line[0])
    ensures !("###" <= line) && !("#" <= line) && !("//" <= line)
  {
  }

  lemma NotSeparator(line: string)
    requires line == "" || line[0] != '#' || (|line| > 1 && line[1] != '#')
    ensures !("###" <= line)
  {
  }

  lemma OpeningOf(c: char)
    requires c == '#' || IsWord(c)
    ensures !IsSpace(c) && (c != '#' ==> IsWord(c))
    ensures !IsWord('#')
  {
  }

  lemma HeaderLineIsNotBlank(h: KV)
    requires ShapeRow(h) && h.key != ""
    ensures TrimSpace(HeaderText(h)) != "" && !("###" <= HeaderText(h))
  {
    hide *;
    if h.on { TickedHeaderReads(h); } else { UntickedHeaderReads(h); }
    var line := HeaderText(h);
    OpeningOf(line[0]);
    NotSeparator(line);
    NotBlank(line);
  }

  lemma HeaderStepOf(cur: Request, h: KV)
    requires ShapeRow(h) && h.key != ""
    ensures HeaderStep(cur, HeaderText(h)) == (cur.(headers := cur.headers + [h]), HeaderSection)
    ensures !("###" <= HeaderText(h))
  {
    HeaderLineIsNotBlank(h);
    hide HeaderText, TrimSpace, Uncomment, HeaderLine, ShapeRow;
    if h.on { TickedHeaderReads(h); } else { UntickedHeaderReads(h); }
  }

  lemma StepHeader(st: ParseState, before: seq<Request>, cur: Request, h: KV)
    requires At(st, before, cur, HeaderSection)
    requires ShapeRow(h) && h.key != ""
    ensures Step(st, HeaderText(h)) == ParseState(st.vars, before + [cur.(headers := cur.headers + [h])], HeaderSection)
  {
    hide HeaderText, HeaderStep, ShapeRow, VarLine;
    HeaderStepOf(cur, h);
    LastOf(before, cur, cur.(headers := cur.headers + [h]));
  }

  lemma {:induction false} FoldHeaders(st: ParseState, before: seq<Request>, cur: Request, hs: seq<KV>)
    requires At(st, before, cur, HeaderSection)
    requires forall i :: 0 <= i < |hs| && hs[i].key != "" ==> ShapeRow(hs[i])
    ensures Fold(st, HeaderLines(hs)) == ParseState(st.vars, before + [cur.(headers := cur.headers + Named(hs))], HeaderSection)
    decreases |hs|
  {
    hide HeaderText, Step, ShapeRow;
    if hs == [] {
      assert cur.headers + [] == cur.headers;
    } else if hs[0].key == "" {
      assert HeaderLines(hs) == HeaderLines(hs[1..]) && Named(hs) == Named(hs[1..]);
      FoldHeaders(st, before, cur, hs[1..]);
    } else {
      var next := cur.(headers := cur.headers + [hs[0]]);
      StepHeader(st, before, cur, hs[0]);
      FoldHeaders(Step(st, HeaderText(hs[0])), before, next, hs[1..]);
      FoldCons(st, HeaderText(hs[0]), HeaderLines(hs[1..]));
      assert cur.headers + [hs[0]] + Named(hs[1..]) == cur.headers + ([hs[0]] + Named(hs[1..]));
    }
  }

  lemma StepBlankInHeaders(st: ParseState, before: seq<Request>, cur: Request)
    requires At(st, before, cur, HeaderSection)
    ensures Step(st, "") == ParseState(st.vars, before + [cur], BodySection)
  {
    LastOf(before, cur, cur);
  }

  lemma StepBody(st: ParseState, before: seq<Request>, cur: Request, line: string)
    requires At(st, before, cur, BodySection)
    requires !("###" <= line)
    ensures Step(st, line) ==
      ParseState(st.vars, before + [cur.(body := (if cur.body == "" then "" else cur.body + "\n") + line)], BodySection)
  {
    LastOf(before, cur, cur.(body := (if cur.body == "" then "" else cur.body + "\n") + line));
    hide VarLine;
  }

  /** The text body lines add to a body that already has some. */
  function Appended(lines: seq<string>): string {
    if lines == [] then "" else "\n" + lines[0] + Appended(lines[1..])
  }

  lemma {:induction false} FoldBody(st: ParseState, before: seq<Request>, cur: Request, lines: seq<string>)
    requires At(st, before, cur, BodySection) && cur.body != ""
    requires forall i :: 0 <= i < |lines| ==> !("###" <= lines[i])
    ensures Fold(st, lines) == ParseState(st.vars, before + [cur.(body := cur.body + Appended(lines))], BodySection)
    decreases |lines|
  {
    if lines == [] {
      assert cur.body + "" == cur.body;
    } else {
      var next := cur.(body := cur.body + "\n" + lines[0]);
      StepBody(st, before, cur, lines[0]);
      FoldBody(Step(st, lines[0]), before, next, lines[1..]);
      assert cur.body + "\n" + lines[0] + Appended(lines[1..]) == cur.body + ("\n" + lines[0] + Appended(lines[1..]));
    }
  }

  lemma {:induction false} AppendedLines(s: string)
    ensures Lines(s)[0] + Appended(Lines(s)[1..]) == s
  {
    if s == "" {
    } else {
      hide Lines;
      var head, rest := [s[0]], Lines(s[1..]);
      AppendedLines(s[1..]);
      LinesCons(s);
      HeadTail(s);
      if s[0] == '\n' {
        Assoc(head, rest[0], Appended(rest[1..]));
        assert "" + Appended(rest) == Appended(rest);
      } else {
        hide Appended;
        Assoc(head, rest[0], Appended(rest[1..]));
      }
    }
  }

  lemma FirstLineNotEmpty(body: string)
    requires body != "" && body[0] != '\n'
    ensures Lines(body)[0] != ""
  {
  }

  lemma FoldWholeBody(st: ParseState, before: seq<Request>, cur: Request, body: string)
    requires At(st, before, cur, BodySection) && cur.body == ""
    requires body != "" && body[0] != '\n'
    requires forall i :: 0 <= i < |Lines(body)| ==> !("###" <= Lines(body)[i])
    ensures Fold(st, Lines(body) + [""]) == ParseState(st.vars, before + [cur.(body := body + "\n")], BodySection)
  {
    var lines := Lines(body);
    var first, rest := lines[0], lines[1..];
    FirstLineNotEmpty(body);
    AppendedLines(body);
    AppendedSnoc(rest);
    hide Lines, Step, Fold, Appended;
    StepBody(st, before, cur, first);
    assert "" + first == first;
    FoldBody(Step(st, first), before, cur.(body := first), rest + [""]);
    assert lines + [""] == [first] + (rest + [""]);
    FoldCons(st, first, rest + [""]);
    assert first + (Appended(rest) + "\n") == body + "\n";
  }

  /** The lines of a printed body, and the empty line after it, rebuild it. */
  lemma FoldPrintedBody(st: ParseState, before: seq<Request>, cur: Request, body: string)
    requires At(st, before, cur, HeaderSection) && cur.body == ""
    requires ShapeBody(body)
    ensures Fold(st, BodyLines(body) + [""]) ==
      ParseState(st.vars, before + [cur.(body := if TrimSpace(body) == "" then "" else body + "\n")], BodySection)
  {
    hide Lines, Step, Fold, TrimSpace;
    StepBlankInHeaders(st, before, cur);
    if TrimSpace(body) == "" {
      assert BodyLines(body) + [""] == [""];
      FoldOne(st, "");
    } else {
      FoldWholeBody(Step(st, ""), before, cur, body);
      assert BodyLines(body) + [""] == [""] + (Lines(body) + [""]);
      FoldCons(st, "", Lines(body) + [""]);
    }
  }

  lemma {:induction false} AppendedSnoc(lines: seq<string>)
    ensures Appended(lines + [""]) == Appended(lines) + "\n"
  {
    if lines == [] {
    } else {
      assert (lines + [""])[1..] == lines[1..] + [""];
      AppendedSnoc(lines[1..]);
    }
  }

  // ---- blocks --------------------------------------------------------------

  /** The lines of `rs` below the title of its first block, each block closed by an empty line. */
  function OpenLines(rs: seq<Request>): seq<string>
    requires rs != []
    decreases |rs|
  {
    TailLines(rs[0]) + ([""] + if |rs| == 1 then [] else [TitleLine(rs[1].name)] + OpenLines(rs[1..]))
  }

  lemma RegroupBlocks(title: seq<string>, tail: seq<string>, gap: seq<string>, rest: seq<string>)
    ensures title + tail + (gap + rest) + gap == title + (tail + (gap + (rest + gap)))
    ensures title + tail + gap == title + (tail + gap)
  {
  }

  lemma {:induction false} OpenLinesAreBlocks(rs: seq<Request>)
    requires rs != []
    ensures BlocksLines(rs) + [""] == [TitleLine(rs[0].name)] + OpenLines(rs)
    decreases |rs|
  {
    var title, tail, rest := [TitleLine(rs[0].name)], TailLines(rs[0]), BlocksLines(rs[1..]);
    assert BlockLines(rs[0]) == title + tail;
    RegroupBlocks(title, tail, [""], rest);
    hide TailLines, TitleLine, BlockLines;
    if |rs| == 1 {
      assert BlocksLines(rs) == title + tail;
      assert [""] + [] == [""];
    } else {
      OpenLinesAreBlocks(rs[1..]);
      assert BlocksLines(rs) == title + tail + ([""] + rest);
    }
  }

  predicate Fresh(cur: Request) {
    cur.verb == "GET" && cur.url == "" && cur.headers == [] && cur.body == ""
  }

  /** A block that has a request line, from below its title to the empty line that closes it. */
  lemma FoldFullBlock(st: ParseState, before: seq<Request>, cur: Request, r: Request)
    requires At(st, before, cur, ReqLineSection) && Fresh(cur)
    requires ShapeRequest(r) && !r.Empty()
    ensures Fold(st, TailLines(r) + [""]) == ParseState(st.vars, before + [Below(cur, r)], BodySection)
  {
    var noted := cur.(notes := cur.notes + r.notes);
    var asked := ReadRequestLine(noted, RequestLine(r));
    var headed := asked.(headers := asked.headers + Named(r.headers));
    var line := RequestLine(r);
    assert asked.body == "" && asked.headers == cur.headers;
    assert RequestLines(r) == [line];
    assert TailLines(r) == r.notes + ([line] + (HeaderLines(r.headers) + BodyLines(r.body)));
    var st1 := Fold(st, r.notes);
    var st2 := Step(st1, line);
    var st3 := Fold(st2, HeaderLines(r.headers));
    assert Below(cur, r) == headed.(body := if TrimSpace(r.body) == "" then "" else r.body + "\n");
    hide RequestLine, ReadRequestLine, HeaderLines, BodyLines, Fold, Step, TailLines, Below, ShapeUrl, Named, TrimSpace;
    FoldNotes(st, before, cur, r.notes);
    StepRequestLine(st1, before, noted, r);
    FoldHeaders(st2, before, asked, r.headers);
    FoldPrintedBody(st3, before, headed, r.body);
    FoldPieces(st, r.notes, line, HeaderLines(r.headers), BodyLines(r.body));
  }

  lemma FoldPieces(st: ParseState, n: seq<string>, line: string, h: seq<string>, b: seq<string>)
    ensures Fold(st, n + ([line] + (h + b)) + [""]) == Fold(Fold(Step(Fold(st, n), line), h), b + [""])
  {
    hide *;
    assert n + ([line] + (h + b)) + [""] == n + ([line] + (h + (b + [""])));
    FoldConcat(st, n, [line] + (h + (b + [""])));
    FoldCons(Fold(st, n), line, h + (b + [""]));
    FoldConcat(Step(Fold(st, n), line), h, b + [""]);
  }

  lemma FoldEmptyBlock(st: ParseState, before: seq<Request>, cur: Request, r: Request)
    requires At(st, before, cur, ReqLineSection)
    requires ShapeRequest(r) && r.Empty()
    ensures Fold(st, TailLines(r) + [""]) == ParseState(st.vars, before + [cur.(notes := cur.notes + r.notes)], ReqLineSection)
  {
    assert RequestLines(r) + (HeaderLines(r.headers) + BodyLines(r.body)) == [];
    assert TailLines(r) == r.notes;
    hide TailLines, Fold, Step;
    FoldNotes(st, before, cur, r.notes);
    StepBlankInReqLine(Fold(st, r.notes), before, cur.(notes := cur.notes + r.notes));
    FoldConcat(st, r.notes, [""]);
    FoldOne(Fold(st, r.notes), "");
  }

  lemma TitleLineOpens(name: string)
    requires Trimmed(name)
    ensures "###" <= TitleLine(name)
  {
    TitleLineOf(name);
  }

  lemma FoldBlock(st: ParseState, before: seq<Request>, cur: Request, r: Request)
    requires At(st, before, cur, ReqLineSection) && Fresh(cur) && ShapeRequest(r)
    ensures var st1 := Fold(st, TailLines(r) + [""]);
      && st1.vars == st.vars
      && (r.Empty() ==> At(st1, before, cur.(notes := cur.notes + r.notes), ReqLineSection))
      && (!r.Empty() ==> At(st1, before, Below(cur, r), BodySection))
  {
    if r.Empty() { FoldEmptyBlock(st, before, cur, r); } else { FoldFullBlock(st, before, cur, r); }
  }

  lemma FoldSplit(st: ParseState, tail: seq<string>, title: string, rest: seq<string>)
    ensures Fold(st, tail + ([""] + ([title] + rest))) == Fold(Step(Fold(st, tail + [""]), title), rest)
    ensures tail + ([""] + []) == tail + [""]
  {
    hide *;
    assert tail + ([""] + ([title] + rest)) == (tail + [""]) + ([title] + rest);
    FoldConcat(st, tail + [""], [title] + rest);
    FoldCons(Fold(st, tail + [""]), title, rest);
  }

  lemma OpenLinesSplit(rs: seq<Request>)
    requires rs != []
    ensures OpenLines(rs) ==
      if |rs| == 1 then TailLines(rs[0]) + ([""] + []) else TailLines(rs[0]) + ([""] + ([TitleLine(rs[1].name)] + OpenLines(rs[1..])))
  {
    hide TailLines, TitleLine;
  }

  lemma RereadOne(cur: Request, r: Request)
    ensures Reread(cur, [r]) == if r.Empty() then [cur.(notes := cur.notes + r.notes)] else [Below(cur, r)]
  {
    assert [Below(cur, r)] + [] == [Below(cur, r)];
    hide Below;
  }

  lemma RereadCons(before: seq<Request>, cur: Request, rs: seq<Request>)
    requires |rs| > 1
    ensures rs[0].Empty() ==>
      before + Reread(cur, rs) == before + Reread(cur.(notes := cur.notes + rs[0].notes + [TitleLine(rs[1].name)]), rs[1..])
    ensures !rs[0].Empty() ==>
      before + Reread(cur, rs) == before + [Below(cur, rs[0])] + Reread(FreshBlock(TitleLine(rs[1].name)), rs[1..])
  {
    hide Below, FreshBlock, TitleLine;
  }

  lemma {:induction false} FoldOpen(st: ParseState, before: seq<Request>, cur: Request, rs: seq<Request>)
    requires rs != [] && At(st, before, cur, ReqLineSection) && Fresh(cur)
    requires forall i :: 0 <= i < |rs| ==> ShapeRequest(rs[i])
    ensures Fold(st, OpenLines(rs)).vars == st.vars
    ensures Fold(st, OpenLines(rs)).reqs == before + Reread(cur, rs)
    decreases |rs|
  {
    hide TailLines, Step, Below, ShapeRequest, FreshBlock, TitleLine, Fold, OpenLines, Reread;
    var r := rs[0];
    FoldBlock(st, before, cur, r);
    OpenLinesSplit(rs);
    if |rs| == 1 {
      FoldSplit(st, TailLines(r), "", []);
      RereadOne(cur, r);
      assert rs == [r];
    } else {
      var title := TitleLine(rs[1].name);
      var st1 := Fold(st, TailLines(r) + [""]);
      var st2 := Step(st1, title);
      RereadCons(before, cur, rs);
      FoldSplit(st, TailLines(r), title, OpenLines(rs[1..]));
      FoldNextTitle(st1, before, cur, rs);
      if r.Empty() {
        FoldOpen(st2, before, cur.(notes := cur.notes + r.notes + [title]), rs[1..]);
      } else {
        FoldOpen(st2, before + [Below(cur, r)], FreshBlock(title), rs[1..]);
      }
    }
  }

  /** The next title: a note while the block still waits for its request line, a new block otherwise. */
  lemma FoldNextTitle(st1: ParseState, before: seq<Request>, cur: Request, rs: seq<Request>)
    requires |rs| > 1 && Fresh(cur) && ShapeRequest(rs[1])
    requires rs[0].Empty() ==> At(st1, before, cur.(notes := cur.notes + rs[0].notes), ReqLineSection)
    requires !rs[0].Empty() ==> At(st1, before, Below(cur, rs[0]), BodySection)
    ensures var title := TitleLine(rs[1].name);
      && Step(st1, title).vars == st1.vars
      && Fresh(FreshBlock(title))
      && (rs[0].Empty() ==> At(Step(st1, title), before, cur.(notes := cur.notes + rs[0].notes + [title]), ReqLineSection))
      && (!rs[0].Empty() ==> At(Step(st1, title), before + [Below(cur, rs[0])], FreshBlock(title), ReqLineSection))
  {
    TitleLineOpens(rs[1].name);
    hide TitleLine, Below, TitleOf;
    if rs[0].Empty() {
      var noted := cur.(notes := cur.notes + rs[0].notes);
      LastOf(before, noted, noted.(notes := noted.notes + [TitleLine(rs[1].name)]));
    }
  }
}
