/** How the form reads a line that was typed, not printed: versions, blanks and cases the printer never writes. */
module HttpFormReads {
  import opened Text
  import opened HttpForm

  // ---- verbs ----------------------------------------------------------------------------

  /** A letter that upper-cases into `u`: the two beyond ASCII are the dotless i and the long s. */
  predicate UppersTo(c: char, u: char) {
    c == u || c as int == u as int + 32 || (u == 'I' && c == '\U{131}') || (u == 'S' && c == '\U{17F}')
  }

  predicate SpellsVerb(typed: string, verb: string) {
    |typed| == |verb| && forall i :: 0 <= i < |verb| ==> UppersTo(typed[i], verb[i])
  }

  predicate IsUpperCase(s: string) {
    forall i :: 0 <= i < |s| ==> 'A' <= s[i] <= 'Z'
  }

  lemma MethodsAreUpper(verb: string)
    requires IsMethod(verb)
    ensures IsUpperCase(verb)
  {
  }

  lemma UpperSpells(typed: string, verb: string)
    requires IsMethod(verb)
    ensures Upper(typed) == verb <==> SpellsVerb(typed, verb)
  {
    MethodsAreUpper(verb);
    hide IsMethod;
    forall c: char, u: char | 'A' <= u <= 'Z' ensures UpperChar(c) == u <==> UppersTo(c, u) {}
    if SpellsVerb(typed, verb) {
      assert forall i :: 0 <= i < |verb| ==> Upper(typed)[i] == verb[i];
    }
    if Upper(typed) == verb {
      forall i | 0 <= i < |verb| ensures UppersTo(typed[i], verb[i]) { assert Upper(typed)[i] == UpperChar(typed[i]); }
    }
  }

  // ---- the request line ---------------------------------------------------------------------

  /** `VERB target HTTP/version`, the version optional, blanks as the expression allows them. */
  datatype LineParts = LineParts(typed: string, gap: string, target: string, blanks: string, version: Option<string>, end: string) {
    predicate Valid() {
      && typed != "" && All(typed, IsAsciiLetter) && gap != "" && All(gap, IsRegexSpace)
      && target != "" && All(target, IsNotRegexSpace) && All(blanks, IsRegexSpace) && All(end, IsRegexSpace)
      && (version.Some? ==> blanks != "" && version.value != "" && forall i :: 0 <= i < |version.value| ==> '0' <= version.value[i] <= '9' || version.value[i] == '.')
    }

    function Versioned(): string {
      if version.Some? then "HTTP/" + (version.value + end) else ""
    }

    function Tail(): string {
      blanks + Versioned()
    }

    function Line(): string {
      typed + (gap + (target + Tail()))
    }
  }

  lemma TailReads(p: LineParts)
    requires p.Valid()
    ensures ReqLineTail(p.Tail()) && (p.Tail() == "" || !IsNotRegexSpace(p.Tail()[0]))
  {
    match p.version
    case None =>
      assert p.Tail() == p.blanks;
      RunIs(p.blanks, IsRegexSpace, |p.blanks|);
    case Some(v) =>
      var behind := "HTTP/" + (v + p.end);
      RunOfConcat(p.blanks, behind, IsRegexSpace);
      assert behind[5..] == v + p.end;
      assert p.end == "" || !IsVersionChar(p.end[0]);
      RunOfConcat(v, p.end, IsVersionChar);
      RunIs(p.end, IsRegexSpace, |p.end|);
      assert p.Tail()[0] == p.blanks[0];
  }

  lemma PartsRead(p: LineParts)
    requires p.Valid()
    ensures ReqLine(p.Line()) == Some((p.typed, p.target))
  {
    TailReads(p);
    var tail := p.Tail();
    hide LineParts.Tail, ReqLineTail, LineParts.Versioned;
    var behind := p.gap + (p.target + tail);
    assert behind[0] == p.gap[0] && !IsAsciiLetter(behind[0]);
    RunOfConcat(p.typed, behind, IsAsciiLetter);
    assert (p.target + tail)[0] == p.target[0];
    RunOfConcat(p.gap, p.target + tail, IsRegexSpace);
    RunOfConcat(p.target, tail, IsNotRegexSpace);
    assert p.target + tail != behind;
  }

  lemma Cut(s: string, n: nat)
    requires n <= |s|
    ensures s == s[..n] + s[n..]
  {
  }

  lemma RunCut(s: string, p: char -> bool)
    ensures Run(s, p) <= |s| && All(s[..Run(s, p)], p) && s == s[..Run(s, p)] + s[Run(s, p)..] && TrimLeft(s, p) == s[Run(s, p)..]
  {
  }

  /** What follows `HTTP/`: digits and dots, then blanks. */
  lemma VersionParts(t: string) returns (version: string, end: string)
    requires "HTTP/" <= t && Run(t[5..], IsVersionChar) > 0 && TrimLeft(t[5..][Run(t[5..], IsVersionChar)..], IsRegexSpace) == ""
    ensures t == "HTTP/" + (version + end) && version != "" && All(version, IsVersionChar) && All(end, IsRegexSpace)
  {
    hide *;
    var rest := t[5..];
    RunCut(rest, IsVersionChar);
    version, end := rest[..Run(rest, IsVersionChar)], rest[Run(rest, IsVersionChar)..];
    RunCut(end, IsRegexSpace);
    NothingLeft(end, Run(end, IsRegexSpace));
    assert t == "HTTP/" + rest;
  }

  lemma NothingLeft(s: string, n: nat)
    requires n <= |s| && s[n..] == ""
    ensures s[..n] == s
  {
  }

  lemma TailParts(tail: string) returns (p: LineParts)
    requires ReqLineTail(tail)
    ensures p.Tail() == tail && All(p.blanks, IsRegexSpace) && All(p.end, IsRegexSpace)
    ensures p.version.Some? ==> p.blanks != "" && p.version.value != "" && All(p.version.value, IsVersionChar)
  {
    hide Run, IsRegexSpace, IsVersionChar, TrimLeft;
    RunCut(tail, IsRegexSpace);
    var blanks, t := tail[..Run(tail, IsRegexSpace)], tail[Run(tail, IsRegexSpace)..];
    if t == "" {
      p := LineParts("", "", "", blanks, None, "");
    } else {
      var version, end := VersionParts(t);
      p := LineParts("", "", "", blanks, Some(version), end);
    }
  }

  lemma TailKept(p: LineParts, typed: string, gap: string, target: string)
    ensures var q := p.(typed := typed, gap := gap, target := target); q.Tail() == p.Tail() && q.Line() == typed + (gap + (target + p.Tail()))
  {
  }

  lemma TailValid(p: LineParts)
    requires All(p.blanks, IsRegexSpace) && All(p.end, IsRegexSpace)
    requires p.version.Some? ==> p.blanks != "" && p.version.value != "" && All(p.version.value, IsVersionChar)
    requires p.typed != "" && All(p.typed, IsAsciiLetter) && p.gap != "" && All(p.gap, IsRegexSpace)
    requires p.target != "" && All(p.target, IsNotRegexSpace)
    ensures p.Valid()
  {
  }

  /** A line is taken apart into verb and target only where it has this form. */
  lemma RequestLineIsThere(line: string) returns (p: LineParts)
    requires ReqLine(line).Some?
    ensures p.Valid() && p.Line() == line && ReqLine(line) == Some((p.typed, p.target))
  {
    hide Run, TrimLeft, ReqLineTail, IsAsciiLetter, IsRegexSpace, IsNotRegexSpace, IsVersionChar, All, LineParts.Valid, LineParts.Line, LineParts.Tail;
    RunCut(line, IsAsciiLetter);
    var n := Run(line, IsAsciiLetter);
    RunCut(line[n..], IsRegexSpace);
    var g := Run(line[n..], IsRegexSpace);
    var afterVerb := line[n..][g..];
    RunCut(afterVerb, IsNotRegexSpace);
    var k := Run(afterVerb, IsNotRegexSpace);
    var tail := TailParts(afterVerb[k..]);
    p := tail.(typed := line[..n], gap := line[n..][..g], target := afterVerb[..k]);
    TailKept(tail, line[..n], line[n..][..g], afterVerb[..k]);
    NothingCut(line[n..], g);
    TailValid(p);
  }

  lemma NothingCut(s: string, n: nat)
    requires n <= |s|
    ensures s[..n] == "" ==> s[n..] == s
  {
  }

  predicate NamesRequest(line: string, p: LineParts, verb: string) {
    p.Valid() && p.Line() == line && IsMethod(verb) && SpellsVerb(p.typed, verb)
  }

  /** A request line gives its block the verb in upper case and the target, whatever blanks and version surround them. */
  lemma RequestLineReads(r: Request, line: string, p: LineParts, verb: string)
    requires NamesRequest(line, p, verb)
    ensures ReadRequestLine(r, line) == r.(verb := verb, url := p.target)
  {
    PartsRead(p);
    UpperSpells(p.typed, verb);
    hide IsMethod, LineParts.Line, LineParts.Valid, SpellsVerb, Upper, ReqLine, TrimSpace;
  }

  lemma RequestLineNames(line: string) returns (p: LineParts, verb: string)
    requires ReqLine(line).Some? && IsMethod(Upper(ReqLine(line).value.0))
    ensures NamesRequest(line, p, verb)
  {
    hide IsMethod, LineParts.Line, LineParts.Valid, SpellsVerb, Upper, ReqLine;
    p := RequestLineIsThere(line);
    verb := Upper(p.typed);
    UpperSpells(p.typed, verb);
  }

  /** Any other line gives it a verb when it is nothing else, and is the target otherwise. */
  lemma OtherLineReads(r: Request, line: string)
    requires forall p: LineParts, verb: string :: !NamesRequest(line, p, verb)
    ensures forall verb: string :: IsMethod(verb) && SpellsVerb(TrimSpace(line), verb) ==> ReadRequestLine(r, line) == r.(verb := verb)
    ensures (forall verb: string :: IsMethod(verb) ==> !SpellsVerb(TrimSpace(line), verb)) ==> ReadRequestLine(r, line) == r.(url := TrimSpace(line))
  {
    hide IsMethod, LineParts.Line, LineParts.Valid, SpellsVerb, Upper, ReqLine, TrimSpace;
    if ReqLine(line).Some? && IsMethod(Upper(ReqLine(line).value.0)) {
      var p, verb := RequestLineNames(line);
    } else {
      var trimmed := TrimSpace(line);
      forall verb: string | IsMethod(verb) ensures Upper(trimmed) == verb <==> SpellsVerb(trimmed, verb) { UpperSpells(trimmed, verb); }
    }
  }

  // ---- rows ----------------------------------------------------------------------------------

  /** A name, blanks, a separator, and the rest of the line. */
  datatype RowParts = RowParts(name: string, gap: string, rest: string) {
    predicate Valid() {
      name != "" && All(name, IsWord) && All(gap, IsRegexSpace)
    }

    function Line(separator: string): string {
      name + (gap + (separator + rest))
    }
  }

  lemma {:induction false} TrimSpacePast(s: string)
    ensures TrimSpace(TrimLeft(s, IsRegexSpace)) == TrimSpace(s)
  {
    if s != "" && IsRegexSpace(s[0]) {
      assert IsSpace(s[0]);
      assert TrimLeft(s, IsRegexSpace) == TrimLeft(s[1..], IsRegexSpace) && TrimLeft(s, IsSpace) == TrimLeft(s[1..], IsSpace);
      hide TrimLeft;
      TrimSpacePast(s[1..]);
    }
  }

  predicate IsSign(separator: string) {
    separator == ":" || separator == "="
  }

  lemma SignFacts(separator: string, rest: string)
    requires IsSign(separator)
    ensures |separator| == 1 && (separator + rest)[0] == separator[0] && (separator + rest)[1..] == rest && separator + rest != ""
    ensures !IsRegexSpace(separator[0]) && !IsWord(separator[0])
  {
  }

  lemma AfterSign(gap: string, separator: string, rest: string)
    requires All(gap, IsRegexSpace) && IsSign(separator)
    ensures |separator| == 1 && AfterSeparator(gap + (separator + rest), separator[0]) == Some(TrimSpace(rest))
  {
    SignFacts(separator, rest);
    hide *;
    RunOfConcat(gap, separator + rest, IsRegexSpace);
    TrimSpacePast(rest);
    AfterSignStep(gap + (separator + rest), separator + rest, separator[0], rest);
  }

  lemma AfterSignStep(s: string, t: string, separator: char, rest: string)
    requires TrimLeft(s, IsRegexSpace) == t && t != "" && t[0] == separator && t[1..] == rest
    ensures AfterSeparator(s, separator) == Some(TrimSpace(TrimLeft(rest, IsRegexSpace)))
  {
    hide TrimLeft, TrimSpace;
  }

  lemma NoWordOpens(gap: string, separator: string, rest: string)
    requires All(gap, IsRegexSpace) && IsSign(separator)
    ensures gap + (separator + rest) != "" && !IsWord((gap + (separator + rest))[0])
  {
    SignFacts(separator, rest);
  }

  lemma NameValueStep(line: string, n: nat, rest: string, value: string, separator: char, on: bool)
    requires 0 < n <= |line| && Run(line, IsWord) == n && line[n..] == rest && AfterSeparator(rest, separator) == Some(value)
    ensures NameValue(line, separator, on) == Some(KV(line[..n], value, on))
  {
    hide AfterSeparator, Run;
  }

  lemma NameValueReads(p: RowParts, separator: string, on: bool)
    requires p.Valid() && IsSign(separator)
    ensures |separator| == 1 && NameValue(p.Line(separator), separator[0], on) == Some(KV(p.name, TrimSpace(p.rest), on))
  {
    hide NameValue, AfterSeparator, Run, TrimSpace, IsWord, IsRegexSpace, IsSign, All;
    var rest := p.gap + (separator + p.rest);
    NoWordOpens(p.gap, separator, p.rest);
    AfterSign(p.gap, separator, p.rest);
    RunOfConcat(p.name, rest, IsWord);
    NameValueStep(p.name + rest, |p.name|, rest, TrimSpace(p.rest), separator[0], on);
  }

  lemma SignIsThere(rest: string, separator: string) returns (gap: string, value: string)
    requires IsSign(separator) && |separator| == 1 && AfterSeparator(rest, separator[0]).Some?
    ensures All(gap, IsRegexSpace) && rest == gap + (separator + value)
  {
    hide Run, IsRegexSpace, All, TrimSpace, TrimLeft;
    RunCut(rest, IsRegexSpace);
    var n := Run(rest, IsRegexSpace);
    gap, value := rest[..n], rest[n..][1..];
    FirstOf(rest[n..], separator);
  }

  lemma FirstOf(s: string, first: string)
    requires s != "" && |first| == 1 && s[0] == first[0]
    ensures s == first + s[1..]
  {
  }

  lemma NameValueIsThere(line: string, separator: string, on: bool) returns (p: RowParts)
    requires IsSign(separator) && |separator| == 1 && NameValue(line, separator[0], on).Some?
    ensures p.Valid() && p.Line(separator) == line
  {
    hide Run, IsWord, IsRegexSpace, All, AfterSeparator, IsSign;
    RunCut(line, IsWord);
    var n := Run(line, IsWord);
    var gap, value := SignIsThere(line[n..], separator);
    p := RowParts(line[..n], gap, value);
  }

  /** `@name = value`, any blanks around the sign and the value, is a variable; nothing else is. */
  lemma VariableLineReads(p: RowParts)
    requires p.Valid()
    ensures VarLine("@" + p.Line("=")) == Some(KV(p.name, TrimSpace(p.rest), true))
  {
    hide RowParts.Line, RowParts.Valid, NameValue;
    NameValueReads(p, "=", true);
    assert ("@" + p.Line("="))[1..] == p.Line("=");
  }

  lemma VariableLineIsThere(line: string) returns (p: RowParts)
    requires VarLine(line).Some?
    ensures p.Valid() && line == "@" + p.Line("=")
  {
    hide RowParts.Line, RowParts.Valid, NameValue;
    FirstOf(line, "@");
    p := NameValueIsThere(line[1..], "=", true);
  }

  lemma RowOpens(p: RowParts, separator: string)
    requires p.Valid()
    ensures p.Line(separator) != "" && IsWord(p.Line(separator)[0])
  {
    assert p.Line(separator)[0] == p.name[0];
  }

  lemma NoMark(line: string)
    requires line != "" && IsWord(line[0])
    ensures Uncomment(line).None? && !IsBlank(line[0])
  {
    TrimLeftNothing(line, IsBlank);
  }

  lemma MarkCut(left: string, right: string, line: string)
    requires All(left, IsBlank) && All(right, IsBlank) && line != "" && !IsBlank(line[0])
    ensures Uncomment(left + ("#" + (right + line))) == Some(line)
  {
    var marked := "#" + (right + line);
    assert marked[0] == '#' && marked[1..] == right + line;
    hide TrimLeft, Run, All;
    RunOfConcat(left, marked, IsBlank);
    RunOfConcat(right, line, IsBlank);
  }

  /** `name: value` is a ticked row, and an unticked one behind a `#`, whatever blanks stand around the mark. */
  lemma HeaderLineReads(p: RowParts, left: string, right: string)
    requires p.Valid() && All(left, IsBlank) && All(right, IsBlank)
    ensures HeaderRow(p.Line(":")) == Some(KV(p.name, TrimSpace(p.rest), true))
    ensures HeaderRow(left + ("#" + (right + p.Line(":")))) == Some(KV(p.name, TrimSpace(p.rest), false))
  {
    hide RowParts.Line, RowParts.Valid, NameValue, TrimSpace, Uncomment, All, IsWord, IsBlank;
    NameValueReads(p, ":", true);
    NameValueReads(p, ":", false);
    RowOpens(p, ":");
    NoMark(p.Line(":"));
    MarkCut(left, right, p.Line(":"));
  }

  lemma MarkIsThere(line: string) returns (left: string, right: string)
    requires Uncomment(line).Some?
    ensures All(left, IsBlank) && All(right, IsBlank) && line == left + ("#" + (right + Uncomment(line).value))
  {
    hide Run, IsBlank, All, TrimLeft;
    RunCut(line, IsBlank);
    var t := line[Run(line, IsBlank)..];
    RunCut(t[1..], IsBlank);
    left, right := line[..Run(line, IsBlank)], t[1..][..Run(t[1..], IsBlank)];
    FirstOf(t, "#");
  }

  /** No other line is a header row. */
  lemma HeaderLineIsThere(line: string) returns (p: RowParts, left: string, right: string)
    requires HeaderRow(line).Some?
    ensures p.Valid() && All(left, IsBlank) && All(right, IsBlank)
    ensures line == p.Line(":") || line == left + ("#" + (right + p.Line(":")))
  {
    hide NameValue, Uncomment, RowParts.Line, RowParts.Valid, IsBlank;
    left, right := "", "";
    if Uncomment(line).Some? {
      left, right := MarkIsThere(line);
      p := NameValueIsThere(Uncomment(line).value, ":", false);
    } else {
      p := NameValueIsThere(line, ":", true);
    }
  }

  // ---- a text --------------------------------------------------------------------------------

  predicate IsBreak(s: string) {
    s == "\n" || s == "\r\n"
  }

  predicate NoBreakIn(s: string) {
    '\n' !in s && '\r' !in s
  }

  lemma {:induction false} DropCrlfOfLine(line: string, end: string, rest: string)
    requires NoBreakIn(line) && IsBreak(end)
    ensures DropCrlf(line + (end + rest)) == line + ("\n" + DropCrlf(rest))
  {
    var s := line + (end + rest);
    if line == "" {
      assert s == end + rest;
      if end == "\n" { assert s[1..] == rest; } else { assert s[0] == '\r' && s[1] == '\n' && s[2..] == rest; }
    } else {
      assert s[0] == line[0] && line[0] in line;
      assert s[1..] == line[1..] + (end + rest);
      assert NoBreakIn(line[1..]);
      DropCrlfOfLine(line[1..], end, rest);
      assert [line[0]] + line[1..] == line;
    }
  }

  lemma LinesOfText(line: string, end: string, rest: string)
    requires NoBreakIn(line) && IsBreak(end)
    ensures Lines(DropCrlf(line + (end + rest))) == [line] + Lines(DropCrlf(rest))
  {
    DropCrlfOfLine(line, end, rest);
    LinesOfLine(line, DropCrlf(rest));
    Assoc(line, "\n", DropCrlf(rest));
  }

  /** The verb and the target of the first block are settled once its request line is read. */
  lemma {:induction false} FirstStays(st: ParseState, lines: seq<string>)
    requires st.reqs != [] && (|st.reqs| > 1 || st.section == HeaderSection || st.section == BodySection)
    ensures var f := Fold(st, lines).reqs; f != [] && f[0].verb == st.reqs[0].verb && f[0].url == st.reqs[0].url
    decreases |lines|
  {
    if lines != [] {
      StepStays(st, lines[0]);
      hide Step;
      FirstStays(Step(st, lines[0]), lines[1..]);
    }
  }

  lemma StepStays(st: ParseState, line: string)
    requires st.reqs != [] && (|st.reqs| > 1 || st.section == HeaderSection || st.section == BodySection)
    ensures var next := Step(st, line);
      && next.reqs != [] && (|next.reqs| > 1 || next.section == HeaderSection || next.section == BodySection)
      && next.reqs[0].verb == st.reqs[0].verb && next.reqs[0].url == st.reqs[0].url
  {
    hide VarLine, ReadRequestLine, HeaderRow, TrimSpace, TitleOf;
  }

  lemma RequestLineOpens(line: string, p: LineParts)
    requires p.Valid() && p.Line() == line
    ensures !("###" <= line) && !("#" <= line) && !("//" <= line) && VarLine(line).None? && TrimSpace(line) != ""
  {
    assert line[0] == p.typed[0] && IsAsciiLetter(line[0]);
    hide LineParts.Line, LineParts.Valid;
    RunIs(line, IsSpace, 0);
    KeptPast(line, IsSpace, 0);
  }

  lemma TwoLines(title: string, titleEnd: string, line: string, lineEnd: string, rest: string)
    requires NoBreakIn(title) && IsBreak(titleEnd) && NoBreakIn(line) && IsBreak(lineEnd)
    ensures Lines(DropCrlf(title + (titleEnd + (line + (lineEnd + rest))))) == [title] + ([line] + Lines(DropCrlf(rest)))
  {
    hide *;
    LinesOfText(title, titleEnd, line + (lineEnd + rest));
    LinesOfText(line, lineEnd, rest);
  }

  lemma TitleOpens(title: string)
    requires "###" <= title
    ensures Step(START, title) == ParseState([], [FreshBlock(title)], ReqLineSection)
  {
    hide FreshBlock, VarLine;
  }

  lemma RequestLineSteps(block: Request, line: string, p: LineParts, verb: string)
    requires NamesRequest(line, p, verb)
    ensures Step(ParseState([], [block], ReqLineSection), line) == ParseState([], [block.(verb := verb, url := p.target)], HeaderSection)
  {
    hide LineParts.Line, LineParts.Valid, VarLine, TrimSpace, ReadRequestLine;
    RequestLineReads(block, line, p, verb);
    RequestLineOpens(line, p);
  }

  lemma FirstOfFile(lines: seq<string>)
    requires Fold(START, lines).reqs != []
    ensures var rs, st := ParseLines(lines).reqs, Fold(START, lines); rs != [] && rs[0].verb == st.reqs[0].verb && rs[0].url == st.reqs[0].url
  {
    hide Fold, TrimRight;
  }

  /** A text that opens with a title and a request line: its first request has that verb and that target, whatever follows. */
  lemma TextReads(text: string, title: string, titleEnd: string, line: string, lineEnd: string, rest: string, p: LineParts, verb: string)
    requires NoBreakIn(title) && "###" <= title && IsBreak(titleEnd) && NoBreakIn(line) && IsBreak(lineEnd)
    requires text == title + (titleEnd + (line + (lineEnd + rest))) && NamesRequest(line, p, verb)
    ensures var rs := Parsed(text).reqs; rs != [] && rs[0].verb == verb && rs[0].url == p.target
  {
    hide Lines, DropCrlf, NamesRequest, Step, Fold, ParseLines, FreshBlock, NoBreakIn, IsBreak;
    var more, block := Lines(DropCrlf(rest)), FreshBlock(title);
    TwoLines(title, titleEnd, line, lineEnd, rest);
    TitleOpens(title);
    RequestLineSteps(block, line, p, verb);
    FirstStays(ParseState([], [block.(verb := verb, url := p.target)], HeaderSection), more);
    FoldTwo(title, line, more);
    FirstOfFile([title] + ([line] + more));
  }

  lemma FoldTwo(a: string, b: string, rest: seq<string>)
    ensures Fold(START, [a] + ([b] + rest)) == Fold(Step(Step(START, a), b), rest)
  {
    var lines := [a] + ([b] + rest);
    assert lines[1..] == [b] + rest && ([b] + rest)[1..] == rest;
    hide Step;
  }
}
