/**
 The form model of a `.http` file: the line parser that fills it and the printer
 that writes it back. Request ids, line numbers and the file's own name are not
 part of the text and are left out.
 */
module HttpForm {
  import opened Text

  /** One header or file variable; `on` is the row's tick box. */
  datatype KV = KV(key: string, value: string, on: bool)

  datatype Request = Request(
    name: string, notes: seq<string>, verb: string, url: string,
    headers: seq<KV>, body: string)
  {
    /** Nothing but a title: written back as just that title line. */
    predicate Empty() {
      url == "" && headers == [] && TrimSpace(body) == ""
    }
  }

  datatype File = File(vars: seq<KV>, reqs: seq<Request>)

  const METHODS: seq<string> := ["GET", "POST", "PUT", "PATCH", "DELETE", "HEAD", "OPTIONS", "QUERY"]

  predicate IsMethod(m: string) {
    m in METHODS
  }

  /** strings.ToUpper as far as a verb can tell: the letters that upper-case into ASCII. */
  function UpperChar(c: char): char {
    if 'a' <= c <= 'z' then c - 32 as char
    else if c == '\U{131}' then 'I'
    else if c == '\U{17F}' then 'S'
    else c
  }

  function Upper(s: string): (u: string)
    ensures |u| == |s|
    ensures forall i :: 0 <= i < |s| ==> u[i] == UpperChar(s[i])
  {
    seq(|s|, i requires 0 <= i < |s| => UpperChar(s[i]))
  }

  // ---- the line expressions ----------------------------------------------

  /** What follows a name: optional blanks, the separator, optional blanks, the rest of the line. */
  function AfterSeparator(rest: string, separator: char): Option<string> {
    var t := TrimLeft(rest, IsRegexSpace);
    if t == "" || t[0] != separator then None
    else Some(TrimSpace(TrimLeft(t[1..], IsRegexSpace)))
  }

  /** `^([\w.-]+)\s*SEP\s*(.*)$`, the value trimmed. */
  function NameValue(line: string, separator: char, on: bool): Option<KV> {
    var n := Run(line, IsWord);
    if n == 0 then None
    else match AfterSeparator(line[n..], separator)
      case None => None
      case Some(value) => Some(KV(line[..n], value, on))
  }

  /** `@name = value`. */
  function VarLine(line: string): Option<KV> {
    if line == "" || line[0] != '@' then None else NameValue(line[1..], '=', true)
  }

  /** `Name: value`. */
  function HeaderLine(line: string, on: bool): Option<KV> {
    NameValue(line, ':', on)
  }

  predicate IsVersionChar(c: char) {
    IsAsciiDigit(c) || c == '.'
  }

  /** `(?:\s+HTTP/[\d.]+)?\s*$`, asked of what follows the target. */
  predicate ReqLineTail(rest: string) {
    var t := TrimLeft(rest, IsRegexSpace);
    || t == ""
    || (rest != t && "HTTP/" <= t
        && Run(t[5..], IsVersionChar) > 0
        && TrimLeft(t[5..][Run(t[5..], IsVersionChar)..], IsRegexSpace) == "")
  }

  /** `VERB target [HTTP/version]`: the verb as written and the target. */
  function ReqLine(line: string): Option<(string, string)> {
    var n := Run(line, IsAsciiLetter);
    var afterVerb := TrimLeft(line[n..], IsRegexSpace);
    var k := Run(afterVerb, IsNotRegexSpace);
    if n == 0 || afterVerb == line[n..] || k == 0 || !ReqLineTail(afterVerb[k..]) then None
    else Some((line[..n], afterVerb[..k]))
  }

  /** What a request line does to its block; a bare verb and a bare target each leave the other half alone. */
  function ReadRequestLine(r: Request, line: string): Request {
    var trimmed := TrimSpace(line);
    var m := ReqLine(line);
    if m.Some? && IsMethod(Upper(m.value.0)) then r.(verb := Upper(m.value.0), url := m.value.1)
    else if IsMethod(Upper(trimmed)) then r.(verb := Upper(trimmed))
    else r.(url := trimmed)
  }

  /** A header line stripped of its comment marker, when it has one. */
  function Uncomment(line: string): Option<string> {
    var trimmed := TrimLeft(line, IsBlank);
    if trimmed != "" && trimmed[0] == '#' then Some(TrimLeft(trimmed[1..], IsBlank)) else None
  }

  // ---- ParseHTTP ----------------------------------------------------------

  datatype Section = NoSection | ReqLineSection | HeaderSection | BodySection

  /** What the line loop carries; the current block is the last of `reqs`. */
  datatype ParseState = ParseState(vars: seq<KV>, reqs: seq<Request>, section: Section)

  const START := ParseState([], [], NoSection)

  predicate IsHashOrSpace(c: char) {
    c == '#' || c == ' '
  }

  function TitleOf(line: string): string {
    TrimSpace(TrimLeft(line, IsHashOrSpace))
  }

  function FreshBlock(line: string): Request {
    Request(TitleOf(line), [], "GET", "", [], "")
  }

  function WithLast(st: ParseState, r: Request): ParseState
    requires st.reqs != []
  {
    st.(reqs := st.reqs[..|st.reqs| - 1] + [r])
  }

  function ReqLineStep(r: Request, line: string): (Request, Section) {
    if TrimSpace(line) == "" then (r, ReqLineSection)
    else if "#" <= line || "//" <= line then (r.(notes := r.notes + [line]), ReqLineSection)
    else (ReadRequestLine(r, line), HeaderSection)
  }

  /** The row a header line stands for, unticked when it is commented out. */
  function HeaderRow(line: string): Option<KV> {
    match Uncomment(line)
    case Some(rest) => HeaderLine(rest, false)
    case None => HeaderLine(line, true)
  }

  function HeaderStep(r: Request, line: string): (Request, Section) {
    if TrimSpace(line) == "" then (r, BodySection)
    else (match HeaderRow(line) case Some(row) => r.(headers := r.headers + [row]) case None => r, HeaderSection)
  }

  function BodyStep(r: Request, line: string): (Request, Section) {
    (r.(body := (if r.body == "" then "" else r.body + "\n") + line), BodySection)
  }

  /** What one line does to the block it falls in. */
  function BlockStep(cur: Request, section: Section, line: string): (Request, Section) {
    match section
    case ReqLineSection => ReqLineStep(cur, line)
    case HeaderSection => HeaderStep(cur, line)
    case _ => BodyStep(cur, line)
  }

  /** One turn of the line loop. */
  function Step(st: ParseState, line: string): ParseState {
    if "###" <= line then
      if st.reqs != [] && st.section == ReqLineSection then
        var cur := st.reqs[|st.reqs| - 1];
        WithLast(st, cur.(notes := cur.notes + [line]))
      else ParseState(st.vars, st.reqs + [FreshBlock(line)], ReqLineSection)
    else if VarLine(line).Some? && st.section in {NoSection, ReqLineSection} then
      st.(vars := st.vars + [VarLine(line).value])
    else if st.reqs == [] then st
    else
      var cur := st.reqs[|st.reqs| - 1];
      var (next, section) := BlockStep(cur, st.section, line);
      WithLast(st, next).(section := section)
  }

  function Fold(st: ParseState, lines: seq<string>): ParseState
    decreases |lines|
  {
    if lines == [] then st else Fold(Step(st, lines[0]), lines[1..])
  }

  predicate IsBodyTail(c: char) {
    c == ' ' || c == '\t' || c == '\n'
  }

  function Finish(r: Request): Request {
    r.(body := TrimRight(r.body, IsBodyTail))
  }

  function FinishAll(rs: seq<Request>): (fs: seq<Request>)
    ensures |fs| == |rs|
    ensures forall i :: 0 <= i < |rs| ==> fs[i] == Finish(rs[i])
  {
    seq(|rs|, i requires 0 <= i < |rs| => Finish(rs[i]))
  }

  function ParseLines(lines: seq<string>): File {
    var st := Fold(START, lines);
    File(st.vars, FinishAll(st.reqs))
  }

  function Parsed(text: string): File {
    ParseLines(Lines(DropCrlf(text)))
  }

  lemma {:induction false} FoldConcat(st: ParseState, a: seq<string>, b: seq<string>)
    ensures Fold(st, a + b) == Fold(Fold(st, a), b)
    decreases |a|
  {
    if a == [] {
      assert a + b == b;
    } else {
      assert (a + b)[1..] == a[1..] + b;
      FoldConcat(Step(st, a[0]), a[1..], b);
    }
  }

  lemma FoldSnoc(lines: seq<string>, n: nat)
    requires n < |lines|
    ensures Fold(START, lines[..n + 1]) == Step(Fold(START, lines[..n]), lines[n])
  {
    assert lines[..n + 1] == lines[..n] + [lines[n]];
    FoldConcat(START, lines[..n], [lines[n]]);
  }

  method ParseHTTP(text: string) returns (f: File)
    ensures f == Parsed(text)
  {
    var lines := Lines(DropCrlf(text));
    var vars, reqs, section: Section := [], [], NoSection;
    for n := 0 to |lines|
      invariant ParseState(vars, reqs, section) == Fold(START, lines[..n])
    {
      FoldSnoc(lines, n);
      var line := lines[n];
      var last := |reqs| - 1;
      if "###" <= line {
        if reqs != [] && section == ReqLineSection {
          reqs := reqs[..last] + [reqs[last].(notes := reqs[last].notes + [line])];
          continue;
        }
        reqs := reqs + [FreshBlock(line)];
        section := ReqLineSection;
        continue;
      }
      var variable := VarLine(line);
      if variable.Some? && (section == NoSection || section == ReqLineSection) {
        vars := vars + [variable.value];
        continue;
      }
      if reqs == [] {
        continue;
      }
      var cur := reqs[last];
      var blank := TrimSpace(line) == "";
      match section {
        case ReqLineSection =>
          if blank {
          } else if "#" <= line || "//" <= line {
            cur := cur.(notes := cur.notes + [line]);
          } else {
            cur := ReadRequestLine(cur, line);
            section := HeaderSection;
          }
        case HeaderSection =>
          if blank {
            section := BodySection;
          } else {
            var commented := Uncomment(line);
            var header := if commented.Some? then HeaderLine(commented.value, false) else HeaderLine(line, true);
            if header.Some? {
              cur := cur.(headers := cur.headers + [header.value]);
            }
          }
        case _ =>
          if cur.body != "" {
            cur := cur.(body := cur.body + "\n");
          }
          cur := cur.(body := cur.body + line);
          section := BodySection;
      }
      reqs := reqs[..last] + [cur];
    }
    assert lines[..|lines|] == lines;
    var i := 0;
    ghost var parsed := reqs;
    while i < |reqs|
      invariant 0 <= i <= |reqs| == |parsed|
      invariant forall j :: 0 <= j < i ==> reqs[j] == Finish(parsed[j])
      invariant forall j :: i <= j < |reqs| ==> reqs[j] == parsed[j]
    {
      reqs := reqs[i := Finish(reqs[i])];
      i := i + 1;
    }
    assert reqs == FinishAll(parsed);
    f := File(vars, reqs);
  }

  // ---- ToHTTP -------------------------------------------------------------

  function VarText(v: KV): string {
    "@" + v.key + " = " + v.value
  }

  predicate WritesVar(v: KV) {
    v.on && v.key != ""
  }

  function VarLines(vars: seq<KV>): seq<string> {
    if vars == [] then []
    else (if WritesVar(vars[0]) then [VarText(vars[0])] else []) + VarLines(vars[1..])
  }

  function TitleLine(name: string): string {
    TrimRight("### " + name, IsOnlySpace)
  }

  function RequestLine(r: Request): string {
    TrimRight(r.verb + (" " + r.url), IsOnlySpace)
  }

  function HeaderText(h: KV): string {
    if !h.on then "# " + h.key + ": " + h.value else h.key + ": " + h.value
  }

  function HeaderLines(hs: seq<KV>): seq<string> {
    if hs == [] then []
    else (if hs[0].key == "" then [] else [HeaderText(hs[0])]) + HeaderLines(hs[1..])
  }

  function BodyLines(body: string): seq<string> {
    if TrimSpace(body) == "" then [] else [""] + Lines(body)
  }

  function RequestLines(r: Request): seq<string> {
    if r.Empty() then [] else [RequestLine(r)]
  }

  /** The lines of one block below its title. */
  function TailLines(r: Request): seq<string> {
    r.notes + (RequestLines(r) + (HeaderLines(r.headers) + BodyLines(r.body)))
  }

  function BlockLines(r: Request): seq<string> {
    [TitleLine(r.name)] + TailLines(r)
  }

  /** The blocks, an empty line between two of them. */
  function BlocksLines(rs: seq<Request>): seq<string> {
    if rs == [] then []
    else BlockLines(rs[0]) + (if |rs| == 1 then [] else [""] + BlocksLines(rs[1..]))
  }

  function VarsLines(vars: seq<KV>): seq<string> {
    VarLines(vars) + if VarLines(vars) == [] then [] else [""]
  }

  function FileLines(f: File): seq<string> {
    VarsLines(f.vars) + BlocksLines(f.reqs)
  }

  function Printed(f: File): string {
    Unlines(FileLines(f))
  }

  lemma UnlinesOne(l: string)
    ensures Unlines([l]) == l + "\n"
  {
  }

  /** Writing one more line after the text `b` and the lines `ls`. */
  lemma UnlinesSnoc(b: string, ls: seq<string>, l: string)
    ensures b + Unlines(ls + [l]) == b + Unlines(ls) + l + "\n"
  {
    hide *;
    UnlinesConcat(ls, [l]);
    UnlinesOne(l);
    Associate(b, Unlines(ls), l, "\n");
  }

  lemma Associate(a: string, b: string, c: string, d: string)
    ensures a + (b + (c + d)) == a + b + c + d
  {
  }

  lemma {:induction false} VarLinesSnoc(vars: seq<KV>, v: KV)
    ensures VarLines(vars + [v]) == if WritesVar(v) then VarLines(vars) + [VarText(v)] else VarLines(vars)
  {
    if vars == [] {
    } else {
      assert (vars + [v])[1..] == vars[1..] + [v];
      VarLinesSnoc(vars[1..], v);
    }
  }

  lemma {:induction false} HeaderLinesSnoc(hs: seq<KV>, h: KV)
    ensures HeaderLines(hs + [h]) == if h.key == "" then HeaderLines(hs) else HeaderLines(hs) + [HeaderText(h)]
  {
    if hs == [] {
    } else {
      assert (hs + [h])[1..] == hs[1..] + [h];
      HeaderLinesSnoc(hs[1..], h);
    }
  }

  /** The separator an earlier block leaves before the next one. */
  function Gap(rs: seq<Request>): seq<string> {
    if rs == [] then [] else [""]
  }

  lemma Regroup(a: seq<string>, b: seq<string>, c: seq<string>, d: seq<string>)
    ensures a + (b + (c + d)) == a + (b + c) + d
    ensures a + (b + c + d) == a + (b + c) + d
  {
  }

  lemma {:induction false} BlocksLinesSnoc(rs: seq<Request>, r: Request)
    ensures BlocksLines(rs + [r]) == BlocksLines(rs) + Gap(rs) + BlockLines(r)
  {
    hide BlockLines;
    if rs == [] {
      assert [] + [r] == [r];
      assert BlockLines(r) + [] == BlockLines(r) == [] + [] + BlockLines(r);
    } else {
      var head, rest, last := BlockLines(rs[0]), BlocksLines(rs[1..]), BlockLines(r);
      assert (rs + [r])[1..] == rs[1..] + [r] && (rs + [r])[0] == rs[0];
      BlocksLinesSnoc(rs[1..], r);
      assert BlocksLines(rs + [r]) == head + ([""] + BlocksLines(rs[1..] + [r]));
      if |rs| > 1 {
        Regroup(head, [""], rest + [""], last);
        Regroup(head, [""], rest, [""]);
      }
    }
  }

  /** The notes of one block, each on its own line. */
  method WriteNotes(b: string, notes: seq<string>) returns (out: string)
    ensures out == b + Unlines(notes)
  {
    out := b;
    assert b + Unlines(notes[..0]) == b;
    hide *;
    for i := 0 to |notes|
      invariant out == b + Unlines(notes[..i])
    {
      assert notes[..i + 1] == notes[..i] + [notes[i]];
      UnlinesSnoc(b, notes[..i], notes[i]);
      out := out + notes[i] + "\n";
    }
    assert notes[..|notes|] == notes;
  }

  /** The named header rows, an unticked one behind its marker. */
  method WriteHeaders(b: string, headers: seq<KV>) returns (out: string)
    ensures out == b + Unlines(HeaderLines(headers))
  {
    out := b;
    assert b + Unlines(HeaderLines(headers[..0])) == b;
    hide *;
    for i := 0 to |headers|
      invariant out == b + Unlines(HeaderLines(headers[..i]))
    {
      var h := headers[i];
      assert headers[..i + 1] == headers[..i] + [h];
      HeaderLinesSnoc(headers[..i], h);
      if h.key == "" {
        continue;
      }
      UnlinesSnoc(b, HeaderLines(headers[..i]), HeaderText(h));
      out := out + HeaderText(h) + "\n";
    }
    assert headers[..|headers|] == headers;
  }

  lemma RequestText(r: Request)
    ensures Unlines(RequestLines(r)) == if r.Empty() then "" else RequestLine(r) + "\n"
  {
    if !r.Empty() {
      UnlinesOne(RequestLine(r));
    }
  }

  lemma BodyText(body: string)
    ensures Unlines(BodyLines(body)) == if TrimSpace(body) == "" then "" else "\n" + body + "\n"
  {
    if TrimSpace(body) != "" {
      hide TrimSpace, Unlines, Lines;
      UnlinesOfLines(body);
      UnlinesEmptyFirst(Lines(body));
      Assoc("\n", body, "\n");
    }
  }

  /** The pieces a block is written from, in order. */
  lemma BlockText(b: string, r: Request)
    ensures b + Unlines(BlockLines(r)) ==
      b + (TitleLine(r.name) + "\n") + Unlines(r.notes) + Unlines(RequestLines(r))
        + Unlines(HeaderLines(r.headers)) + Unlines(BodyLines(r.body))
  {
    var n, q, h, d := r.notes, RequestLines(r), HeaderLines(r.headers), BodyLines(r.body);
    UnlinesConcat(h, d);
    UnlinesConcat(q, h + d);
    UnlinesConcat(n, q + (h + d));
    assert BlockLines(r)[1..] == n + (q + (h + d));
    Reassociate(b, TitleLine(r.name) + "\n", Unlines(n), Unlines(q), Unlines(h), Unlines(d));
  }

  lemma Reassociate(a: string, t: string, n: string, q: string, h: string, d: string)
    ensures a + (t + (n + (q + (h + d)))) == a + t + n + q + h + d
  {
  }

  /** One block appended to the text. */
  method WriteBlock(b: string, r: Request) returns (out: string)
    ensures out == b + Unlines(BlockLines(r))
  {
    BlockText(b, r);
    RequestText(r);
    BodyText(r.body);
    out := b + (TitleLine(r.name) + "\n");
    out := WriteNotes(out, r.notes);
    if !r.Empty() {
      out := out + (RequestLine(r) + "\n");
    }
    out := WriteHeaders(out, r.headers);
    if TrimSpace(r.body) != "" {
      out := out + ("\n" + r.body + "\n");
    }
  }

  lemma VarsText(vars: seq<KV>)
    ensures Unlines(VarLines(vars)) == "" <==> VarLines(vars) == []
    ensures Unlines(VarsLines(vars)) == Unlines(VarLines(vars)) + if VarLines(vars) == [] then "" else "\n"
  {
    if VarLines(vars) != [] {
      UnlinesConcat(VarLines(vars), [""]);
      UnlinesOne("");
    }
  }

  lemma Join3(b: string, x: seq<string>, g: seq<string>, y: seq<string>)
    ensures b + Unlines(x + g + y) == b + Unlines(x) + Unlines(g) + Unlines(y)
  {
    hide *;
    UnlinesConcat(x + g, y);
    UnlinesConcat(x, g);
  }

  lemma GapText(b: string, rs: seq<Request>)
    ensures b + Unlines(Gap(rs)) == if rs == [] then b else b + "\n"
  {
    if rs != [] {
      UnlinesOne("");
      assert "" + "\n" == "\n";
    }
  }

  lemma BlocksText(b: string, rs: seq<Request>, r: Request)
    ensures b + Unlines(BlocksLines(rs + [r]))
      == (if rs == [] then b + Unlines(BlocksLines(rs)) else b + Unlines(BlocksLines(rs)) + "\n") + Unlines(BlockLines(r))
  {
    hide *;
    BlocksLinesSnoc(rs, r);
    Join3(b, BlocksLines(rs), Gap(rs), BlockLines(r));
    GapText(b + Unlines(BlocksLines(rs)), rs);
  }

  /** The ticked variables and the empty line that closes them. */
  method WriteVars(vars: seq<KV>) returns (text: string)
    ensures text == Unlines(VarsLines(vars))
  {
    text := "";
    VarsText(vars);
    assert text == "" + Unlines(VarLines(vars[..0]));
    hide VarLines, VarText, Unlines, VarsLines;
    for i := 0 to |vars|
      invariant text == "" + Unlines(VarLines(vars[..i]))
    {
      var v := vars[i];
      assert vars[..i + 1] == vars[..i] + [v];
      VarLinesSnoc(vars[..i], v);
      if v.on && v.key != "" {
        UnlinesSnoc("", VarLines(vars[..i]), VarText(v));
        text := text + VarText(v) + "\n";
      }
    }
    assert vars[..|vars|] == vars;
    assert text == Unlines(VarLines(vars));
    if |text| > 0 {
      text := text + "\n";
    }
  }

  lemma NoBlocks(top: string)
    ensures top + Unlines(BlocksLines([])) == top
  {
  }

  /** The blocks appended to the text `top`. */
  method WriteBlocks(top: string, reqs: seq<Request>) returns (text: string)
    ensures text == top + Unlines(BlocksLines(reqs))
  {
    text := top;
    NoBlocks(top);
    hide *;
    for i := 0 to |reqs|
      invariant text == top + Unlines(BlocksLines(reqs[..i]))
    {
      assert reqs[..i + 1] == reqs[..i] + [reqs[i]];
      BlocksText(top, reqs[..i], reqs[i]);
      if i > 0 {
        text := text + "\n";
      }
      text := WriteBlock(text, reqs[i]);
    }
    assert reqs[..|reqs|] == reqs;
  }

  method ToHTTP(f: File) returns (text: string)
    ensures text == Printed(f)
  {
    UnlinesConcat(VarsLines(f.vars), BlocksLines(f.reqs));
    hide VarsLines, BlocksLines, Unlines;
    text := WriteVars(f.vars);
    text := WriteBlocks(text, f.reqs);
  }
}
