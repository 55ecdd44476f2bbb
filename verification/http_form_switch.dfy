/** The editor switch: when parsing what was printed gives the file back, and when the text stays put. */
module HttpFormSwitch {
  import opened Text
  import opened HttpForm
  import opened HttpFormLines
  import opened HttpFormReparse
  import opened HttpFormShape
  import opened HttpFormImage
  import opened HttpFormReturns

  // ---- the condition ------------------------------------------------------------

  /** Neither the notes nor the printed body lines of the block end in a carriage return. */
  predicate NoReturns(r: Request) {
    NoLineEndsWithCr(r.notes) && NoLineEndsWithCr(BodyLines(r.body))
  }

  /** The title does not open with a marker, the target holds no blank, no line ends in a carriage return. */
  predicate Readable(r: Request) {
    !OpensWithHash(r.name) && NoRegexSpace(r.url) && NoReturns(r)
  }

  /** Every block reads back, and a block without a request line is the last one. */
  predicate ReadableFile(f: File) {
    && (forall i :: 0 <= i < |f.reqs| ==> Readable(f.reqs[i]))
    && (forall i :: 0 <= i < |f.reqs| - 1 ==> !f.reqs[i].Empty())
  }

  /** A printed verb that nothing else keeps: no target, no body and only unnamed rows. */
  predicate BareVerb(r: Request) {
    !r.Empty() && r.url == "" && Named(r.headers) == [] && TrimSpace(r.body) == ""
  }

  predicate Settled(f: File) {
    ReadableFile(f) && forall i :: 0 <= i < |f.reqs| ==> !BareVerb(f.reqs[i])
  }

  /** The block without its unnamed rows; a block written as its title alone forgets its verb. */
  function Norm(r: Request): Request {
    if r.Empty() then Request(r.name, r.notes, "GET", "", [], "")
    else r.(headers := Named(r.headers), body := if TrimSpace(r.body) == "" then "" else r.body)
  }

  function NormAll(rs: seq<Request>): seq<Request> {
    if rs == [] then [] else [Norm(rs[0])] + NormAll(rs[1..])
  }

  function NormFile(f: File): File {
    File(Written(f.vars), NormAll(f.reqs))
  }

  // ---- carriage returns ------------------------------------------------------------

  lemma EndOfConcat(a: string, b: string)
    requires b != ""
    ensures EndsWithCr(a + b) == EndsWithCr(b)
  {
  }

  lemma ValueEnd(a: string, value: string)
    requires Trimmed(value) && !EndsWithCr(a)
    ensures !EndsWithCr(a + value)
  {
    if value == "" {
      assert a + value == a;
    } else {
      EndOfConcat(a, value);
    }
  }

  lemma VarTextEnd(v: KV)
    requires ShapeRow(v)
    ensures !EndsWithCr(VarText(v))
  {
    EndOfConcat("@" + v.key, " = ");
    ValueEnd("@" + v.key + " = ", v.value);
  }

  lemma HeaderTextEnd(h: KV)
    requires ShapeRow(h)
    ensures !EndsWithCr(HeaderText(h))
  {
    EndOfConcat("# " + h.key, ": ");
    EndOfConcat(h.key, ": ");
    ValueEnd("# " + h.key + ": ", h.value);
    ValueEnd(h.key + ": ", h.value);
  }

  lemma TitleLineEnd(name: string)
    requires Trimmed(name)
    ensures !EndsWithCr(TitleLine(name))
  {
    TitleLineOf(name);
    ValueEnd("### ", name);
  }

  lemma RequestLineEnd(r: Request)
    requires IsMethod(r.verb) && ShapeUrl(r.url)
    ensures !EndsWithCr(RequestLine(r))
  {
    RequestLineOf(r.verb, r.url);
    VerbFacts(r.verb);
    if r.url == "" {
      assert IsAsciiLetter(r.verb[|r.verb| - 1]);
    } else {
      assert IsNotRegexSpace(r.url[|r.url| - 1]) || !IsSpace(r.url[|r.url| - 1]);
      EndOfConcat(" ", r.url);
      EndOfConcat(r.verb, " " + r.url);
    }
  }

  lemma NoReturnsConcat(a: seq<string>, b: seq<string>)
    ensures NoLineEndsWithCr(a + b) <==> NoLineEndsWithCr(a) && NoLineEndsWithCr(b)
  {
    var c := a + b;
    assert forall i :: 0 <= i < |a| ==> c[i] == a[i];
    assert forall i :: 0 <= i < |b| ==> c[|a| + i] == b[i];
  }

  lemma {:induction false} VarLinesEnd(vars: seq<KV>)
    requires forall i :: 0 <= i < |vars| && WritesVar(vars[i]) ==> ShapeRow(vars[i])
    ensures NoLineEndsWithCr(VarLines(vars))
  {
    if vars != [] {
      if WritesVar(vars[0]) { VarTextEnd(vars[0]); }
      VarLinesEnd(vars[1..]);
      hide VarText;
    }
  }

  lemma {:induction false} HeaderLinesEnd(hs: seq<KV>)
    requires forall i :: 0 <= i < |hs| && hs[i].key != "" ==> ShapeRow(hs[i])
    ensures NoLineEndsWithCr(HeaderLines(hs))
  {
    if hs != [] {
      if hs[0].key != "" { HeaderTextEnd(hs[0]); }
      HeaderLinesEnd(hs[1..]);
      hide HeaderText;
    }
  }

  lemma BlockLinesEnd(r: Request)
    requires ShapeRequest(r)
    ensures NoLineEndsWithCr(BlockLines(r)) <==> NoReturns(r)
  {
    TitleLineEnd(r.name);
    RequestLineEnd(r);
    HeaderLinesEnd(r.headers);
    assert NoLineEndsWithCr(RequestLines(r));
    assert NoLineEndsWithCr([TitleLine(r.name)]);
    hide TitleLine, RequestLines, HeaderLines, BodyLines, NoLineEndsWithCr, ShapeRequest;
    NoReturnsConcat(HeaderLines(r.headers), BodyLines(r.body));
    NoReturnsConcat(RequestLines(r), HeaderLines(r.headers) + BodyLines(r.body));
    NoReturnsConcat(r.notes, RequestLines(r) + (HeaderLines(r.headers) + BodyLines(r.body)));
    NoReturnsConcat([TitleLine(r.name)], TailLines(r));
  }

  lemma EmptyEndsWell()
    ensures NoLineEndsWithCr([""]) && NoLineEndsWithCr([])
  {
  }

  lemma {:induction false} BlocksLinesEnd(rs: seq<Request>)
    requires forall i :: 0 <= i < |rs| ==> ShapeRequest(rs[i])
    ensures NoLineEndsWithCr(BlocksLines(rs)) <==> forall i :: 0 <= i < |rs| ==> NoReturns(rs[i])
  {
    if rs != [] {
      BlockLinesEnd(rs[0]);
      BlocksLinesEnd(rs[1..]);
      hide BlockLines, NoReturns, ShapeRequest, NoLineEndsWithCr;
      EmptyEndsWell();
      NoReturnsConcat(BlockLines(rs[0]), if |rs| == 1 then [] else [""] + BlocksLines(rs[1..]));
      NoReturnsConcat([""], BlocksLines(rs[1..]));
      assert forall i :: 0 <= i < |rs| ==> rs[i] == if i == 0 then rs[0] else rs[1..][i - 1];
      assert forall i :: 0 <= i < |rs[1..]| ==> rs[1..][i] == rs[i + 1];
    }
  }

  lemma FileLinesEnd(f: File)
    requires Shape(f)
    ensures NoLineEndsWithCr(FileLines(f)) <==> forall i :: 0 <= i < |f.reqs| ==> NoReturns(f.reqs[i])
  {
    VarLinesEnd(f.vars);
    BlocksLinesEnd(f.reqs);
    hide NoReturns, ShapeRequest, BlocksLines, VarLines;
    NoReturnsConcat(VarLines(f.vars), if VarLines(f.vars) == [] then [] else [""]);
    NoReturnsConcat(VarsLines(f.vars), BlocksLines(f.reqs));
  }

  // ---- a readable file comes back ------------------------------------------------------

  lemma TrimOneBreak(body: string)
    requires TrimRight(body, IsBodyTail) == body
    ensures TrimRight(body + "\n", IsBodyTail) == body
  {
    var n := Kept(body, IsBodyTail);
    assert body[..n] == body;
    var s := body + "\n";
    assert |body| > 0 ==> s[|body| - 1] == body[|body| - 1];
    KeptIs(s, IsBodyTail, |body|);
  }

  lemma FinishOfBelow(r: Request)
    requires ShapeRequest(r) && Readable(r) && !r.Empty()
    ensures Finish(Below(FreshBlock(TitleLine(r.name)), r)) == Norm(r)
  {
    var cur := FreshBlock(TitleLine(r.name));
    var noted := cur.(notes := cur.notes + r.notes);
    TitleReads(r.name);
    assert [] + r.notes == r.notes && [] + Named(r.headers) == Named(r.headers);
    ReadableRequestLine(noted, r.verb, r.url);
    hide RequestLine, TitleLine, TitleOf, TrimSpace, Named, ReadRequestLine, NoReturns, ShapeUrl, IsMethod;
    if TrimSpace(r.body) != "" { TrimOneBreak(r.body); }
  }

  lemma FinishOfEmpty(r: Request)
    requires ShapeRequest(r) && Readable(r) && r.Empty()
    ensures var cur := FreshBlock(TitleLine(r.name)); Finish(cur.(notes := cur.notes + r.notes)) == Norm(r)
  {
    TitleReads(r.name);
    assert [] + r.notes == r.notes;
  }

  lemma FinishAllCons(r: Request, rs: seq<Request>)
    ensures FinishAll([r] + rs) == [Finish(r)] + FinishAll(rs)
  {
  }

  lemma {:induction false} RereadIsNorm(rs: seq<Request>)
    requires forall i :: 0 <= i < |rs| ==> ShapeRequest(rs[i]) && Readable(rs[i])
    requires forall i :: 0 <= i < |rs| - 1 ==> !rs[i].Empty()
    ensures FinishAll(RereadAll(rs)) == NormAll(rs)
    decreases |rs|
  {
    if rs != [] {
      var r, cur := rs[0], FreshBlock(TitleLine(rs[0].name));
      if r.Empty() { FinishOfEmpty(r); } else { FinishOfBelow(r); }
      if |rs| > 1 { assert !rs[0].Empty(); }
      RereadIsNorm(rs[1..]);
      hide Below, FreshBlock, TitleLine, ShapeRequest, Readable, Finish, Norm;
      var head := if r.Empty() then cur.(notes := cur.notes + r.notes) else Below(cur, r);
      assert RereadAll(rs) == [head] + RereadAll(rs[1..]);
      FinishAllCons(head, RereadAll(rs[1..]));
    }
  }

  /** A readable file of the parser's shape comes back from its own text, up to what is never written. */
  lemma ParseUndoesPrint(f: File)
    requires Shape(f) && ReadableFile(f)
    ensures Parsed(Printed(f)) == NormFile(f)
  {
    FileLinesEnd(f);
    PrintedReadsBack(f);
    RereadIsNorm(f.reqs);
  }

  // ---- and its text stays put -----------------------------------------------------------

  lemma {:induction false} WrittenPrintsTheSame(vars: seq<KV>)
    ensures VarLines(Written(vars)) == VarLines(vars)
  {
    if vars != [] {
      WrittenPrintsTheSame(vars[1..]);
      hide VarText;
      if WritesVar(vars[0]) {
        assert ([vars[0]] + Written(vars[1..]))[1..] == Written(vars[1..]);
      } else {
        assert Written(vars) == Written(vars[1..]) && VarLines(vars) == VarLines(vars[1..]);
      }
    }
  }

  lemma {:induction false} NamedPrintsTheSame(hs: seq<KV>)
    ensures HeaderLines(Named(hs)) == HeaderLines(hs)
  {
    if hs != [] {
      NamedPrintsTheSame(hs[1..]);
      hide HeaderText;
      if hs[0].key != "" {
        assert ([hs[0]] + Named(hs[1..]))[1..] == Named(hs[1..]);
      } else {
        assert Named(hs) == Named(hs[1..]) && HeaderLines(hs) == HeaderLines(hs[1..]);
      }
    }
  }

  lemma NormPrintsTheSame(r: Request)
    requires !BareVerb(r)
    ensures BlockLines(Norm(r)) == BlockLines(r) && Norm(r).Empty() == r.Empty()
  {
    NamedPrintsTheSame(r.headers);
    assert TrimSpace("") == "";
    hide TitleLine, Lines;
  }

  lemma {:induction false} NormAllPrintsTheSame(rs: seq<Request>)
    requires forall i :: 0 <= i < |rs| ==> !BareVerb(rs[i])
    ensures BlocksLines(NormAll(rs)) == BlocksLines(rs) && |NormAll(rs)| == |rs|
  {
    if rs != [] {
      NormPrintsTheSame(rs[0]);
      NormAllPrintsTheSame(rs[1..]);
      hide BareVerb, Norm, BlockLines;
      assert NormAll(rs)[1..] == NormAll(rs[1..]);
    }
  }

  lemma SettledStays(f: File)
    requires Shape(f) && Settled(f)
    ensures Printed(Parsed(Printed(f))) == Printed(f)
  {
    ParseUndoesPrint(f);
    WrittenPrintsTheSame(f.vars);
    NormAllPrintsTheSame(f.reqs);
  }
}
