/** The invariant of the line loop: whatever the text, the parsed file has the shape of a file that can be printed. */
module HttpFormImage {
  import opened Text
  import opened HttpForm
  import opened HttpFormLines
  import opened HttpFormReparse

  predicate NoSeparatorLine(body: string) {
    forall i :: 0 <= i < |Lines(body)| ==> !("###" <= Lines(body)[i])
  }

  predicate RawBody(body: string) {
    body == "" || (body[0] != '\n' && NoSeparatorLine(body))
  }

  predicate RawRequest(r: Request) {
    && OneLine(r.name) && Trimmed(r.name)
    && (forall i :: 0 <= i < |r.notes| ==> ShapeNote(r.notes[i]))
    && IsMethod(r.verb)
    && ShapeUrl(r.url)
    && (forall i :: 0 <= i < |r.headers| ==> r.headers[i].key != "" && ShapeRow(r.headers[i]))
    && RawBody(r.body)
  }

  predicate RawState(st: ParseState) {
    && (forall i :: 0 <= i < |st.vars| ==> WritesVar(st.vars[i]) && ShapeRow(st.vars[i]))
    && (forall i :: 0 <= i < |st.reqs| ==> RawRequest(st.reqs[i]))
  }

  lemma OneLineSlice(s: string, i: nat, j: nat)
    requires i <= j <= |s| && OneLine(s)
    ensures OneLine(s[i..j])
  {
  }

  lemma TrimmedLine(s: string)
    requires OneLine(s)
    ensures OneLine(TrimSpace(s)) && Trimmed(TrimSpace(s))
  {
    TrimSpaceIsTrimmed(s);
    var n := Run(s, IsSpace);
    OneLineSlice(s, n, |s|);
    OneLineSlice(s[n..], 0, Kept(s[n..], IsSpace));
  }

  lemma AfterSeparatorShape(rest: string, separator: char)
    requires OneLine(rest)
    ensures AfterSeparator(rest, separator).Some? ==>
      OneLine(AfterSeparator(rest, separator).value) && Trimmed(AfterSeparator(rest, separator).value)
  {
    var t := TrimLeft(rest, IsRegexSpace);
    OneLineSlice(rest, Run(rest, IsRegexSpace), |rest|);
    if t != "" {
      OneLineSlice(t, 1, |t|);
      OneLineSlice(t[1..], Run(t[1..], IsRegexSpace), |t[1..]|);
      TrimmedLine(TrimLeft(t[1..], IsRegexSpace));
    }
  }

  lemma NameValueShape(line: string, separator: char, on: bool)
    requires OneLine(line)
    ensures var row := NameValue(line, separator, on);
      row.Some? ==> row.value.key != "" && row.value.on == on && ShapeRow(row.value)
  {
    var n := Run(line, IsWord);
    OneLineSlice(line, n, |line|);
    AfterSeparatorShape(line[n..], separator);
    hide AfterSeparator, Trimmed;
  }

  lemma VarLineShape(line: string)
    requires OneLine(line)
    ensures VarLine(line).Some? ==> WritesVar(VarLine(line).value) && ShapeRow(VarLine(line).value)
  {
    if line != "" {
      OneLineSlice(line, 1, |line|);
      NameValueShape(line[1..], '=', true);
    }
  }

  lemma TitleShape(line: string)
    requires OneLine(line)
    ensures OneLine(TitleOf(line)) && Trimmed(TitleOf(line))
  {
    OneLineSlice(line, Run(line, IsHashOrSpace), |line|);
    TrimmedLine(TrimLeft(line, IsHashOrSpace));
  }

  lemma ReqLineShape(line: string)
    requires OneLine(line)
    ensures ReqLine(line).Some? ==> OneLine(ReqLine(line).value.1) && NoRegexSpace(ReqLine(line).value.1)
  {
    var n := Run(line, IsAsciiLetter);
    var afterVerb := TrimLeft(line[n..], IsRegexSpace);
    OneLineSlice(line, n, |line|);
    OneLineSlice(line[n..], Run(line[n..], IsRegexSpace), |line[n..]|);
    var k := Run(afterVerb, IsNotRegexSpace);
    OneLineSlice(afterVerb, 0, k);
  }

  lemma ReadRequestLineShape(r: Request, line: string)
    requires RawRequest(r) && OneLine(line)
    ensures RawRequest(ReadRequestLine(r, line))
  {
    ReqLineShape(line);
    TrimmedLine(line);
    hide ReqLine, TrimSpace, Upper, Trimmed, NoSeparatorLine, IsMethod;
  }

  lemma HeaderRowShape(line: string)
    requires OneLine(line)
    ensures HeaderRow(line).Some? ==> HeaderRow(line).value.key != "" && ShapeRow(HeaderRow(line).value)
  {
    var trimmed := TrimLeft(line, IsBlank);
    OneLineSlice(line, Run(line, IsBlank), |line|);
    if trimmed != "" {
      OneLineSlice(trimmed, 1, |trimmed|);
      OneLineSlice(trimmed[1..], Run(trimmed[1..], IsBlank), |trimmed[1..]|);
      NameValueShape(TrimLeft(trimmed[1..], IsBlank), ':', false);
    }
    NameValueShape(line, ':', true);
    hide NameValue, TrimSpace, TrimLeft, ShapeRow;
  }

  lemma HeaderStepShape(r: Request, line: string)
    requires RawRequest(r) && OneLine(line)
    ensures RawRequest(HeaderStep(r, line).0)
  {
    HeaderRowShape(line);
    hide HeaderRow, TrimSpace, Trimmed, RawBody, IsMethod, ShapeRow, ShapeUrl, ShapeNote;
  }

  lemma {:induction false} LinesAppend(body: string, line: string)
    requires OneLine(line)
    ensures Lines(body + "\n" + line) == Lines(body) + [line]
  {
    var s := body + "\n" + line;
    LinesCons(s);
    if body == "" {
      assert s[1..] == line && s[0] == '\n';
      LinesOfOneLine(line);
    } else {
      LinesAppend(body[1..], line);
      assert s[1..] == body[1..] + "\n" + line && s[0] == body[0];
      LinesCons(body);
      hide Lines, OneLine;
      var rest := Lines(body[1..]);
      assert (rest + [line])[0] == rest[0] && (rest + [line])[1..] == rest[1..] + [line];
      assert Lines(body) + [line] == [Lines(body)[0]] + (Lines(body)[1..] + [line]) by { HeadTail(Lines(body)); Assoc([Lines(body)[0]], Lines(body)[1..], [line]); }
      HeadTail(Lines(s));
    }
  }

  lemma {:induction false} LinesOfOneLine(line: string)
    requires OneLine(line)
    ensures Lines(line) == [line]
  {
    if line != "" {
      LinesOfOneLine(line[1..]);
      assert [line[0]] + line[1..] == line;
    }
  }

  lemma BodyStepShape(r: Request, line: string)
    requires RawRequest(r) && OneLine(line) && !("###" <= line)
    ensures RawRequest(BodyStep(r, line).0)
  {
    if r.body == "" {
      LinesOfOneLine(line);
      assert "" + line == line;
    } else {
      LinesAppend(r.body, line);
      assert (r.body + "\n" + line)[0] == r.body[0];
    }
  }

  lemma NoteShape(r: Request, line: string)
    requires RawRequest(r) && ShapeNote(line)
    ensures RawRequest(r.(notes := r.notes + [line]))
  {
    hide Trimmed, RawBody, IsMethod, ShapeRow, ShapeUrl, ShapeNote;
  }

  lemma BlockStepShape(r: Request, section: Section, line: string)
    requires RawRequest(r) && OneLine(line) && !("###" <= line)
    ensures RawRequest(BlockStep(r, section, line).0)
  {
    match section
    case ReqLineSection =>
      ReadRequestLineShape(r, line);
      if "#" <= line || "//" <= line { NoteShape(r, line); }
      hide ReadRequestLine, TrimSpace, RawRequest;
    case HeaderSection => HeaderStepShape(r, line);
    case _ => BodyStepShape(r, line);
  }

  lemma FreshShape(line: string)
    requires OneLine(line)
    ensures RawRequest(FreshBlock(line))
  {
    TitleShape(line);
  }

  lemma WithLastShape(st: ParseState, r: Request, section: Section)
    requires RawState(st) && st.reqs != [] && RawRequest(r)
    ensures RawState(WithLast(st, r).(section := section))
  {
    hide RawRequest, ShapeRow;
  }

  lemma AppendShape(st: ParseState, r: Request, section: Section)
    requires RawState(st) && RawRequest(r)
    ensures RawState(ParseState(st.vars, st.reqs + [r], section))
  {
    hide RawRequest, ShapeRow;
  }

  lemma VarShape(st: ParseState, v: KV)
    requires RawState(st) && WritesVar(v) && ShapeRow(v)
    ensures RawState(st.(vars := st.vars + [v]))
  {
    hide RawRequest, ShapeRow, WritesVar;
  }

  lemma LastShape(st: ParseState)
    requires RawState(st) && st.reqs != []
    ensures RawRequest(st.reqs[|st.reqs| - 1])
  {
  }

  lemma StepShape(st: ParseState, line: string)
    requires RawState(st) && OneLine(line)
    ensures RawState(Step(st, line))
  {
    hide RawState, RawRequest, VarLine, FreshBlock, BlockStep, ShapeRow, WritesVar, OneLine;
    VarLineShape(line);
    if st.reqs != [] { LastShape(st); }
    if "###" <= line {
      FreshShape(line);
      AppendShape(st, FreshBlock(line), ReqLineSection);
      if st.reqs != [] {
        var cur := st.reqs[|st.reqs| - 1];
        assert "#" <= line;
        NoteShape(cur, line);
        WithLastShape(st, cur.(notes := cur.notes + [line]), st.section);
      }
    } else {
      if VarLine(line).Some? { VarShape(st, VarLine(line).value); }
      if st.reqs != [] {
        var (next, section) := BlockStep(st.reqs[|st.reqs| - 1], st.section, line);
        BlockStepShape(st.reqs[|st.reqs| - 1], st.section, line);
        WithLastShape(st, next, section);
      }
    }
  }

  lemma {:induction false} FoldShape(st: ParseState, lines: seq<string>)
    requires RawState(st) && OneLineEach(lines)
    ensures RawState(Fold(st, lines))
    decreases |lines|
  {
    if lines != [] {
      StepShape(st, lines[0]);
      FoldShape(Step(st, lines[0]), lines[1..]);
    }
  }

  lemma {:induction false} LinesOfPrefix(s: string, n: nat)
    requires n <= |s|
    ensures |Lines(s[..n])| <= |Lines(s)|
    ensures forall i :: 0 <= i < |Lines(s[..n])| ==> Lines(s[..n])[i] <= Lines(s)[i]
  {
    if n > 0 {
      var t := s[..n];
      assert t[1..] == s[1..][..n - 1];
      LinesOfPrefix(s[1..], n - 1);
      var a, b := Lines(t[1..]), Lines(s[1..]);
      if s[0] == '\n' {
        assert Lines(t) == [""] + a && Lines(s) == [""] + b;
      } else {
        assert Lines(t) == [[s[0]] + a[0]] + a[1..] && Lines(s) == [[s[0]] + b[0]] + b[1..];
        assert [s[0]] + a[0] <= [s[0]] + b[0];
      }
    }
  }

  lemma FinishShape(r: Request)
    requires RawRequest(r)
    ensures ShapeRequest(Finish(r))
  {
    var n := Kept(r.body, IsBodyTail);
    var body := r.body[..n];
    LinesOfPrefix(r.body, n);
    KeptIs(body, IsBodyTail, n);
    assert body[..n] == body;
    if TrimSpace(body) != "" {
      assert body != "" && body[0] == r.body[0];
      forall i | 0 <= i < |Lines(body)| ensures !("###" <= Lines(body)[i]) {
        assert Lines(body)[i] <= Lines(r.body)[i];
      }
    }
    hide ShapeUrl, Trimmed, ShapeRow, IsMethod;
  }

  /** Every parsed file has the printable shape, and its rows are all ticked or named. */
  lemma ParsedHasShape(text: string)
    ensures Shape(Parsed(text))
    ensures forall i :: 0 <= i < |Parsed(text).vars| ==> WritesVar(Parsed(text).vars[i])
    ensures forall i, j :: 0 <= i < |Parsed(text).reqs| && 0 <= j < |Parsed(text).reqs[i].headers| ==>
      Parsed(text).reqs[i].headers[j].key != ""
  {
    var lines := Lines(DropCrlf(text));
    FoldShape(START, lines);
    var st := Fold(START, lines);
    forall i | 0 <= i < |st.reqs| ensures ShapeRequest(FinishAll(st.reqs)[i]) {
      FinishShape(st.reqs[i]);
    }
  }
}
