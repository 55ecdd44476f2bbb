/** A switch between the editors never adds a carriage return. */
module HttpFormReturns {
  import opened Text
  import opened HttpForm
  import opened HttpFormLines

  function Crs(s: string): nat {
    if s == "" then 0 else (if s[0] == '\r' then 1 else 0) + Crs(s[1..])
  }

  function CrsEach(ls: seq<string>): nat {
    if ls == [] then 0 else Crs(ls[0]) + CrsEach(ls[1..])
  }

  lemma {:induction false} CrsConcat(a: string, b: string)
    ensures Crs(a + b) == Crs(a) + Crs(b)
  {
    if a == "" {
      assert a + b == b;
    } else {
      assert (a + b)[1..] == a[1..] + b;
      CrsConcat(a[1..], b);
    }
  }

  lemma CrsSplit(s: string, i: nat)
    requires i <= |s|
    ensures Crs(s) == Crs(s[..i]) + Crs(s[i..])
  {
    assert s == s[..i] + s[i..];
    CrsConcat(s[..i], s[i..]);
  }

  lemma CrsSlice(s: string, i: nat, j: nat)
    requires i <= j <= |s|
    ensures Crs(s[i..j]) <= Crs(s)
  {
    CrsSplit(s, j);
    CrsSplit(s[..j], i);
    assert s[..j][i..] == s[i..j];
  }

  lemma CrsTrimLeft(s: string, p: char -> bool)
    ensures Crs(TrimLeft(s, p)) <= Crs(s)
  {
    CrsSplit(s, Run(s, p));
  }

  lemma CrsTrimRight(s: string, p: char -> bool)
    ensures Crs(TrimRight(s, p)) <= Crs(s)
  {
    CrsSlice(s, 0, Kept(s, p));
  }

  lemma CrsTrimSpace(s: string)
    ensures Crs(TrimSpace(s)) <= Crs(s)
  {
    CrsTrimLeft(s, IsSpace);
    CrsTrimRight(TrimLeft(s, IsSpace), IsSpace);
  }

  lemma {:induction false} CrsEachConcat(a: seq<string>, b: seq<string>)
    ensures CrsEach(a + b) == CrsEach(a) + CrsEach(b)
  {
    if a == [] {
      assert a + b == b;
    } else {
      assert (a + b)[1..] == a[1..] + b;
      CrsEachConcat(a[1..], b);
    }
  }

  lemma {:induction false} CrsOfUnlines(ls: seq<string>)
    ensures Crs(Unlines(ls)) == CrsEach(ls)
  {
    if ls != [] {
      CrsOfUnlines(ls[1..]);
      CrsConcat(ls[0] + "\n", Unlines(ls[1..]));
      CrsConcat(ls[0], "\n");
    }
  }

  lemma CrsOfLines(s: string)
    ensures CrsEach(Lines(s)) == Crs(s)
  {
    CrsOfUnlines(Lines(s));
    UnlinesOfLines(s);
    CrsConcat(s, "\n");
  }

  lemma {:induction false} CrsOfDropCrlf(s: string)
    ensures Crs(DropCrlf(s)) <= Crs(s)
    ensures !NoCrlf(s) ==> Crs(DropCrlf(s)) < Crs(s)
  {
    if s == "" {
    } else if s[0] == '\r' && |s| > 1 && s[1] == '\n' {
      CrsOfDropCrlf(s[2..]);
      assert s[1..][1..] == s[2..];
      CrsConcat("\n", DropCrlf(s[2..]));
    } else {
      CrsOfDropCrlf(s[1..]);
      CrsConcat([s[0]], DropCrlf(s[1..]));
      assert [s[0]][1..] == "";
      if NoCrlf(s[1..]) {
        forall i | 0 <= i < |s| - 1 ensures !(s[i] == '\r' && s[i + 1] == '\n') {
          if i > 0 {
            assert s[1..][i - 1] == s[i] && s[1..][i - 1 + 1] == s[i + 1];
          }
        }
      }
    }
  }

  // ---- what one block holds ---------------------------------------------------

  function CrsRow(row: KV): nat {
    Crs(row.key) + Crs(row.value)
  }

  function CrsRows(rows: seq<KV>): nat {
    if rows == [] then 0 else CrsRow(rows[0]) + CrsRows(rows[1..])
  }

  function CrsRequest(r: Request): nat {
    Crs(r.name) + CrsEach(r.notes) + Crs(r.verb) + Crs(r.url) + CrsRows(r.headers) + Crs(r.body)
  }

  function CrsRequests(rs: seq<Request>): nat {
    if rs == [] then 0 else CrsRequest(rs[0]) + CrsRequests(rs[1..])
  }

  lemma {:induction false} CrsRowsSnoc(rows: seq<KV>, row: KV)
    ensures CrsRows(rows + [row]) == CrsRows(rows) + CrsRow(row)
  {
    if rows != [] {
      assert (rows + [row])[1..] == rows[1..] + [row];
      CrsRowsSnoc(rows[1..], row);
    }
  }

  lemma {:induction false} CrsRequestsSnoc(rs: seq<Request>, r: Request)
    ensures CrsRequests(rs + [r]) == CrsRequests(rs) + CrsRequest(r)
  {
    if rs != [] {
      assert (rs + [r])[1..] == rs[1..] + [r];
      CrsRequestsSnoc(rs[1..], r);
    }
  }

  lemma CrsEachSnoc(ls: seq<string>, l: string)
    ensures CrsEach(ls + [l]) == CrsEach(ls) + Crs(l)
  {
    CrsEachConcat(ls, [l]);
  }

  // ---- one line adds no more than it holds ---------------------------------------

  lemma CrsOfNameValue(line: string, separator: char, on: bool)
    ensures var row := NameValue(line, separator, on);
      row.Some? ==> CrsRow(row.value) <= Crs(line)
  {
    var n := Run(line, IsWord);
    var rest := line[n..];
    var t := TrimLeft(rest, IsRegexSpace);
    CrsSplit(line, n);
    CrsTrimLeft(rest, IsRegexSpace);
    if t != "" {
      CrsSplit(t, 1);
      CrsTrimLeft(t[1..], IsRegexSpace);
      CrsTrimSpace(TrimLeft(t[1..], IsRegexSpace));
    }
    hide TrimSpace, TrimLeft, Crs;
  }

  lemma CrsOfVarLine(line: string)
    ensures VarLine(line).Some? ==> CrsRow(VarLine(line).value) <= Crs(line)
  {
    if line != "" {
      CrsOfNameValue(line[1..], '=', true);
      CrsSplit(line, 1);
    }
    hide NameValue;
  }

  lemma CrsOfHeaderRow(line: string)
    ensures HeaderRow(line).Some? ==> CrsRow(HeaderRow(line).value) <= Crs(line)
  {
    var trimmed := TrimLeft(line, IsBlank);
    CrsTrimLeft(line, IsBlank);
    if trimmed != "" {
      CrsSplit(trimmed, 1);
      CrsTrimLeft(trimmed[1..], IsBlank);
      CrsOfNameValue(TrimLeft(trimmed[1..], IsBlank), ':', false);
    }
    CrsOfNameValue(line, ':', true);
    hide NameValue, TrimLeft, Crs;
  }

  lemma {:induction false} CrsNone(s: string)
    requires forall i :: 0 <= i < |s| ==> s[i] != '\r'
    ensures Crs(s) == 0
  {
    if s != "" { CrsNone(s[1..]); }
  }

  lemma CrsOfVerb(verb: string)
    requires IsMethod(verb)
    ensures Crs(verb) == 0
  {
    VerbFacts(verb);
    CrsNone(verb);
  }

  lemma CrsOfReqLine(line: string)
    ensures ReqLine(line).Some? ==> Crs(ReqLine(line).value.1) <= Crs(line)
  {
    var n := Run(line, IsAsciiLetter);
    var afterVerb := TrimLeft(line[n..], IsRegexSpace);
    CrsSplit(line, n);
    CrsTrimLeft(line[n..], IsRegexSpace);
    CrsSplit(afterVerb, Run(afterVerb, IsNotRegexSpace));
    hide Run, ReqLineTail, Crs, TrimLeft;
  }

  lemma CrsOfReadRequestLine(r: Request, line: string)
    ensures CrsRequest(ReadRequestLine(r, line)) <= CrsRequest(r) + Crs(line)
  {
    var trimmed, m := TrimSpace(line), ReqLine(line);
    CrsOfReqLine(line);
    CrsTrimSpace(line);
    if m.Some? && IsMethod(Upper(m.value.0)) {
      CrsOfVerb(Upper(m.value.0));
    } else if IsMethod(Upper(trimmed)) {
      CrsOfVerb(Upper(trimmed));
    }
    hide ReqLine, TrimSpace, Upper, IsMethod, Crs, CrsEach, CrsRows;
  }

  lemma CrsOfBodyStep(r: Request, line: string)
    ensures CrsRequest(BodyStep(r, line).0) <= CrsRequest(r) + Crs(line)
  {
    CrsConcat(r.body, "\n");
    CrsConcat((if r.body == "" then "" else r.body + "\n"), line);
  }

  lemma CrsOfReqLineStep(r: Request, line: string)
    ensures CrsRequest(ReqLineStep(r, line).0) <= CrsRequest(r) + Crs(line)
  {
    hide ReadRequestLine, TrimSpace, CrsEach, CrsRows, Crs;
    CrsEachSnoc(r.notes, line);
    CrsOfReadRequestLine(r, line);
  }

  lemma CrsOfHeaderStep(r: Request, line: string)
    ensures CrsRequest(HeaderStep(r, line).0) <= CrsRequest(r) + Crs(line)
  {
    hide HeaderRow, TrimSpace, CrsEach, CrsRows, Crs;
    CrsOfHeaderRow(line);
    if HeaderRow(line).Some? { CrsRowsSnoc(r.headers, HeaderRow(line).value); }
  }

  lemma CrsOfBlockStep(r: Request, section: Section, line: string)
    ensures CrsRequest(BlockStep(r, section, line).0) <= CrsRequest(r) + Crs(line)
  {
    hide ReqLineStep, HeaderStep, BodyStep, CrsRequest, Crs;
    match section
    case ReqLineSection => CrsOfReqLineStep(r, line);
    case HeaderSection => CrsOfHeaderStep(r, line);
    case _ => CrsOfBodyStep(r, line);
  }

  lemma CrsWithLast(reqs: seq<Request>, next: Request, line: string)
    requires reqs != [] && CrsRequest(next) <= CrsRequest(reqs[|reqs| - 1]) + Crs(line)
    ensures CrsRequests(reqs[..|reqs| - 1] + [next]) <= CrsRequests(reqs) + Crs(line)
  {
    hide *;
    var before, cur := reqs[..|reqs| - 1], reqs[|reqs| - 1];
    assert reqs == before + [cur];
    CrsRequestsSnoc(before, cur);
    CrsRequestsSnoc(before, next);
  }

  function CrsState(st: ParseState): nat {
    CrsRows(st.vars) + CrsRequests(st.reqs)
  }

  lemma CrsOfFresh(line: string)
    ensures CrsRequest(FreshBlock(line)) <= Crs(line)
  {
    CrsTrimLeft(line, IsHashOrSpace);
    CrsTrimSpace(TrimLeft(line, IsHashOrSpace));
    CrsOfVerb("GET");
    hide TrimSpace, TrimLeft;
  }

  lemma CrsOfStep(st: ParseState, line: string)
    ensures CrsState(Step(st, line)) <= CrsState(st) + Crs(line)
  {
    hide VarLine, FreshBlock, BlockStep, CrsRequest, CrsRequests, CrsRows, Crs;
    CrsOfVarLine(line);
    CrsOfFresh(line);
    CrsRequestsSnoc(st.reqs, FreshBlock(line));
    if VarLine(line).Some? { CrsRowsSnoc(st.vars, VarLine(line).value); }
    if st.reqs != [] {
      var cur := st.reqs[|st.reqs| - 1];
      CrsOfNote(cur, line);
      CrsWithLast(st.reqs, cur.(notes := cur.notes + [line]), line);
      CrsOfBlockStep(cur, st.section, line);
      CrsWithLast(st.reqs, BlockStep(cur, st.section, line).0, line);
    }
  }

  lemma CrsOfNote(r: Request, line: string)
    ensures CrsRequest(r.(notes := r.notes + [line])) <= CrsRequest(r) + Crs(line)
  {
    CrsEachSnoc(r.notes, line);
  }

  lemma {:induction false} CrsOfFold(st: ParseState, lines: seq<string>)
    ensures CrsState(Fold(st, lines)) <= CrsState(st) + CrsEach(lines)
    decreases |lines|
  {
    if lines != [] {
      CrsOfStep(st, lines[0]);
      CrsOfFold(Step(st, lines[0]), lines[1..]);
    }
  }

  // ---- and so does the printed file ----------------------------------------------

  lemma CrsOfHeaderText(h: KV)
    ensures Crs(HeaderText(h)) == CrsRow(h)
  {
    CrsConcat("# ", h.key);
    CrsConcat(h.key, ": ");
    CrsConcat("# " + h.key, ": ");
    CrsConcat(h.key + ": ", h.value);
    CrsConcat("# " + h.key + ": ", h.value);
    CrsNone("# ");
    CrsNone(": ");
  }

  lemma CrsOfVarText(v: KV)
    ensures Crs(VarText(v)) == CrsRow(v)
  {
    CrsConcat("@", v.key);
    CrsConcat("@" + v.key, " = ");
    CrsConcat("@" + v.key + " = ", v.value);
    CrsNone("@");
    CrsNone(" = ");
  }

  lemma {:induction false} CrsOfHeaderLines(hs: seq<KV>)
    ensures CrsEach(HeaderLines(hs)) <= CrsRows(hs)
  {
    if hs != [] {
      CrsOfHeaderText(hs[0]);
      CrsOfHeaderLines(hs[1..]);
      hide HeaderText, CrsRow;
      CrsEachConcat(if hs[0].key == "" then [] else [HeaderText(hs[0])], HeaderLines(hs[1..]));
    }
  }

  lemma {:induction false} CrsOfVarLines(vars: seq<KV>)
    ensures CrsEach(VarLines(vars)) <= CrsRows(vars)
  {
    if vars != [] {
      CrsOfVarText(vars[0]);
      CrsOfVarLines(vars[1..]);
      hide VarText, CrsRow;
      CrsEachConcat(if WritesVar(vars[0]) then [VarText(vars[0])] else [], VarLines(vars[1..]));
    }
  }

  lemma CrsOfTitleAndRequest(r: Request)
    ensures Crs(TitleLine(r.name)) <= Crs(r.name)
    ensures Crs(RequestLine(r)) <= Crs(r.verb) + Crs(r.url)
  {
    CrsTrimRight("### " + r.name, IsOnlySpace);
    CrsConcat("### ", r.name);
    CrsNone("### ");
    CrsTrimRight(r.verb + (" " + r.url), IsOnlySpace);
    CrsConcat(r.verb, " " + r.url);
    CrsConcat(" ", r.url);
    CrsNone(" ");
  }

  lemma CrsOfBodyLines(body: string)
    ensures CrsEach(BodyLines(body)) <= Crs(body)
  {
    CrsOfLines(body);
    CrsEachConcat([""], Lines(body));
  }

  lemma CrsOfBlockLines(r: Request)
    ensures CrsEach(BlockLines(r)) <= CrsRequest(r)
  {
    CrsOfTitleAndRequest(r);
    CrsOfHeaderLines(r.headers);
    CrsOfBodyLines(r.body);
    assert CrsEach(RequestLines(r)) <= Crs(RequestLine(r));
    hide TitleLine, RequestLine, RequestLines, HeaderLines, BodyLines, Crs, CrsRows;
    CrsEachConcat(HeaderLines(r.headers), BodyLines(r.body));
    CrsEachConcat(RequestLines(r), HeaderLines(r.headers) + BodyLines(r.body));
    CrsEachConcat(r.notes, RequestLines(r) + (HeaderLines(r.headers) + BodyLines(r.body)));
    assert BlockLines(r)[1..] == TailLines(r);
  }

  lemma {:induction false} CrsOfBlocksLines(rs: seq<Request>)
    ensures CrsEach(BlocksLines(rs)) <= CrsRequests(rs)
  {
    if rs != [] {
      CrsOfBlockLines(rs[0]);
      CrsOfBlocksLines(rs[1..]);
      hide BlockLines, CrsRequest;
      CrsEachConcat(BlockLines(rs[0]), if |rs| == 1 then [] else [""] + BlocksLines(rs[1..]));
      CrsEachConcat([""], BlocksLines(rs[1..]));
    }
  }

  lemma CrsOfFinish(r: Request)
    ensures CrsRequest(Finish(r)) <= CrsRequest(r)
  {
    CrsTrimRight(r.body, IsBodyTail);
  }

  lemma {:induction false} CrsOfFinishAll(rs: seq<Request>)
    ensures CrsRequests(FinishAll(rs)) <= CrsRequests(rs)
  {
    if rs != [] {
      CrsOfFinish(rs[0]);
      CrsOfFinishAll(rs[1..]);
      assert FinishAll(rs)[1..] == FinishAll(rs[1..]);
      hide CrsRequest, Finish;
    }
  }

  /** Parsing a text and printing the result gives back no more carriage returns than its lines hold. */
  lemma SwitchAddsNoReturn(text: string)
    ensures Crs(Printed(Parsed(text))) <= Crs(DropCrlf(text))
  {
    var lines := Lines(DropCrlf(text));
    var st := Fold(START, lines);
    var f := Parsed(text);
    CrsOfLines(DropCrlf(text));
    CrsOfFold(START, lines);
    CrsOfFinishAll(st.reqs);
    CrsOfVarLines(f.vars);
    CrsOfBlocksLines(f.reqs);
    CrsEachConcat(VarLines(f.vars), if VarLines(f.vars) == [] then [] else [""]);
    CrsEachConcat(VarsLines(f.vars), BlocksLines(f.reqs));
    CrsOfUnlines(FileLines(f));
  }

  /** A text that comes back unchanged has no CRLF in it. */
  lemma StableHasNoCrlf(text: string)
    requires Printed(Parsed(text)) == text
    ensures NoCrlf(text)
  {
    SwitchAddsNoReturn(text);
    CrsOfDropCrlf(text);
  }
}
