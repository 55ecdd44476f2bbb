/** The other direction: a text that stays put comes from a settled file. */
module HttpFormStable {
  import opened Text
  import opened HttpForm
  import opened HttpFormLines
  import opened HttpFormReparse
  import opened HttpFormShape
  import opened HttpFormImage
  import opened HttpFormReturns
  import opened HttpFormSwitch

  // ---- one block ----------------------------------------------------------------

  /** What a block that has a request line reads back as. */
  function RereadBlock(cur: Request, r: Request): Request {
    Finish(Below(cur, r))
  }

  lemma RequestUrlKept(r: Request, verb: string, url: string)
    requires IsMethod(verb) && ShapeUrl(url) && r.verb == "GET" && r.url == ""
    ensures ReadRequestLine(r, TrimRight(verb + (" " + url), IsOnlySpace)).url == "" <==> url == ""
    ensures IsMethod(ReadRequestLine(r, TrimRight(verb + (" " + url), IsOnlySpace)).verb)
  {
    if NoRegexSpace(url) {
      ReadableRequestLine(r, verb, url);
    } else {
      UnreadableRequestLine(r, verb, url);
    }
  }

  lemma ReadRequestLineKeeps(r: Request, line: string)
    ensures var q := ReadRequestLine(r, line);
      q.name == r.name && q.notes == r.notes && q.headers == r.headers && q.body == r.body
  {
  }

  lemma BelowParts(cur: Request, r: Request)
    requires ShapeRequest(r) && !r.Empty() && Fresh(cur)
    ensures var b := RereadBlock(cur, r);
      && b.name == cur.name && b.notes == cur.notes + r.notes && b.headers == Named(r.headers)
      && b.body == (if TrimSpace(r.body) == "" then "" else r.body)
      && (b.url == "" <==> r.url == "")
      && IsMethod(b.verb)
      && b.Empty() == BareVerb(r)
  {
    var noted := cur.(notes := cur.notes + r.notes);
    RequestUrlKept(noted, r.verb, r.url);
    ReadRequestLineKeeps(noted, RequestLine(r));
    assert TrimSpace("") == "";
    assert cur.headers + Named(r.headers) == Named(r.headers);
    if TrimSpace(r.body) != "" { TrimOneBreak(r.body); } else { assert TrimRight("", IsBodyTail) == ""; }
    hide ReadRequestLine, TrimSpace, TrimRight, Named, IsMethod, ShapeUrl, Trimmed;
  }

  /** The reread block prints as many lines, one fewer when only a bare verb is lost. */
  lemma RereadBlockLines(cur: Request, r: Request)
    requires ShapeRequest(r) && !r.Empty() && Fresh(cur)
    ensures |BlockLines(RereadBlock(cur, r))| == 1 + |cur.notes| + |TailLines(r)| - if BareVerb(r) then 1 else 0
  {
    BelowParts(cur, r);
    NamedPrintsTheSame(r.headers);
    assert TrimSpace("") == "";
    hide RereadBlock, Lines, RequestLine, TitleLine, BareVerb, ShapeRequest, Named, HeaderLines, TrimSpace;
  }

  // ---- counting the lines a switch loses ----------------------------------------

  /** One line for each block swallowed by the block before it, one for each bare verb. */
  function Lost(rs: seq<Request>): nat {
    if rs == [] then 0
    else (if BareVerb(rs[0]) then 1 else 0) + (if rs[0].Empty() && |rs| > 1 then 1 else 0) + Lost(rs[1..])
  }

  lemma BlocksLinesCount(r: Request, rest: seq<Request>)
    ensures |BlocksLines([r] + rest)| == |BlockLines(r)| + if rest == [] then 0 else 1 + |BlocksLines(rest)|
  {
    var all := [r] + rest;
    assert all[0] == r && all[1..] == rest;
    hide BlockLines;
  }

  lemma EmptyBlockLines(r: Request)
    requires r.Empty()
    ensures BlockLines(r) == [TitleLine(r.name)] + r.notes
    ensures TailLines(r) == r.notes
  {
    assert RequestLines(r) + (HeaderLines(r.headers) + BodyLines(r.body)) == [];
  }

  lemma {:induction false} RereadLineCount(cur: Request, rs: seq<Request>)
    requires rs != [] && Fresh(cur)
    requires forall i :: 0 <= i < |rs| ==> ShapeRequest(rs[i])
    ensures |BlocksLines(FinishAll(Reread(cur, rs)))| + Lost(rs) == |cur.notes| + |OpenLines(rs)|
    decreases |rs|
  {
    var r, rest := rs[0], rs[1..];
    if r.Empty() {
      EmptyBlockLines(r);
      CountEmpty(cur, rs);
    } else {
      RereadBlockLines(cur, r);
      CountFull(cur, rs);
    }
    if |rs| > 1 {
      var title := TitleLine(rs[1].name);
      var next := if r.Empty() then cur.(notes := cur.notes + r.notes + [title]) else FreshBlock(title);
      assert Fresh(next);
      hide ShapeRequest, TitleLine, BlockLines, TailLines, FreshBlock, Reread, BareVerb, BlocksLines;
      RereadLineCount(next, rest);
    }
  }

  lemma CountEmpty(cur: Request, rs: seq<Request>)
    requires rs != [] && rs[0].Empty() && Fresh(cur)
    ensures var noted := cur.(notes := cur.notes + rs[0].notes);
      if |rs| == 1 then |BlocksLines(FinishAll(Reread(cur, rs)))| == 1 + |noted.notes|
      else Reread(cur, rs) == Reread(noted.(notes := noted.notes + [TitleLine(rs[1].name)]), rs[1..])
  {
    if |rs| == 1 {
      var noted := cur.(notes := cur.notes + rs[0].notes);
      assert TrimSpace("") == "";
      FinishAllCons(noted, []);
      assert [noted] + [] == [noted];
      EmptyBlockLines(Finish(noted));
      BlocksLinesCount(Finish(noted), []);
      assert [Finish(noted)] + [] == FinishAll([noted]);
    }
  }

  lemma CountFull(cur: Request, rs: seq<Request>)
    requires rs != [] && !rs[0].Empty()
    ensures var rest := if |rs| == 1 then [] else Reread(FreshBlock(TitleLine(rs[1].name)), rs[1..]);
      FinishAll(Reread(cur, rs)) == [RereadBlock(cur, rs[0])] + FinishAll(rest)
      && |BlocksLines(FinishAll(Reread(cur, rs)))|
        == |BlockLines(RereadBlock(cur, rs[0]))| + if |rs| == 1 then 0 else 1 + |BlocksLines(FinishAll(rest))|
  {
    var rest := if |rs| == 1 then [] else Reread(FreshBlock(TitleLine(rs[1].name)), rs[1..]);
    FinishAllCons(Below(cur, rs[0]), rest);
    BlocksLinesCount(RereadBlock(cur, rs[0]), FinishAll(rest));
    hide Below, FreshBlock, TitleLine, BlockLines, BlocksLines, Finish;
  }

  // ---- comparing block by block ------------------------------------------------------

  lemma SameTitle(name: string)
    requires Trimmed(name)
    requires TitleLine(TitleOf(TitleLine(name))) == TitleLine(name)
    ensures !OpensWithHash(name)
  {
    TitleReads(name);
    TitleLineOf(name);
    TrimSpaceIsTrimmed(TrimLeft(TitleLine(name), IsHashOrSpace));
    TitleLineOf(TitleOf(TitleLine(name)));
  }

  lemma KeptWholeIsTrimmed(verb: string, url: string)
    requires IsMethod(verb) && url != "" && Trimmed(url) && OneLine(url)
    ensures ShapeUrl(verb + (" " + url))
  {
    VerbFacts(verb);
    var line := verb + (" " + url);
    assert IsAsciiLetter(verb[0]);
    assert line[0] == verb[0] && line[|line| - 1] == url[|url| - 1];
    hide Upper, UpperChar;
  }

  lemma ReprintedTarget(verb: string, url: string, verb2: string, url2: string)
    requires IsMethod(verb) && ShapeUrl(url) && IsMethod(verb2) && ShapeUrl(url2) && url != "" && url2 != ""
    requires |verb| + |url| != |verb2| + |url2|
    ensures TrimRight(verb + (" " + url), IsOnlySpace) != TrimRight(verb2 + (" " + url2), IsOnlySpace)
  {
    hide IsMethod, ShapeUrl, TrimRight;
    RequestLineOf(verb, url);
    RequestLineOf(verb2, url2);
  }

  /** What a target with a blank in it comes back as: another verb and target, of another length. */
  lemma BlankTargetReads(q: Request, verb: string, url: string)
    requires IsMethod(verb) && ShapeUrl(url) && !NoRegexSpace(url) && q.verb == "GET" && q.url == ""
    ensures url != ""
    ensures var p := ReadRequestLine(q, TrimRight(verb + (" " + url), IsOnlySpace));
      && IsMethod(p.verb) && ShapeUrl(p.url) && p.url != ""
      && |p.verb| + |p.url| != |verb| + |url|
  {
    var line := verb + (" " + url);
    FirstWordShape(url);
    VerbGet();
    assert url != "" && Trimmed(url) && OneLine(url);
    hide *;
    KeptWholeIsTrimmed(verb, url);
    UnreadableRequestLine(q, verb, url);
  }

  lemma FirstWordShape(url: string)
    requires OneLine(url)
    ensures ShapeUrl(url[..Run(url, IsNotRegexSpace)])
  {
  }

  lemma VerbGet()
    ensures IsMethod("GET")
  {
  }

  /** A target with a blank in it is printed back longer or shorter, never the same. */
  lemma BlankTargetMoves(q: Request, r: Request)
    requires IsMethod(r.verb) && ShapeUrl(r.url) && q.verb == "GET" && q.url == ""
    ensures !NoRegexSpace(r.url) ==> RequestLine(ReadRequestLine(q, RequestLine(r))) != RequestLine(r)
  {
    hide IsMethod, ShapeUrl, NoRegexSpace, ReadRequestLine, TrimRight;
    if !NoRegexSpace(r.url) {
      BlankTargetReads(q, r.verb, r.url);
      var p := ReadRequestLine(q, RequestLine(r));
      ReprintedTarget(r.verb, r.url, p.verb, p.url);
    }
  }

  lemma BlockLinesAt(r: Request)
    ensures BlockLines(r)[0] == TitleLine(r.name)
    ensures !r.Empty() ==> |BlockLines(r)| > 1 + |r.notes| && BlockLines(r)[1 + |r.notes|] == RequestLine(r)
  {
    hide TitleLine, RequestLine, HeaderLines, BodyLines;
  }

  lemma SameBlock(r: Request)
    requires ShapeRequest(r) && !r.Empty() && !BareVerb(r) && NoReturns(r)
    requires BlockLines(RereadBlock(FreshBlock(TitleLine(r.name)), r)) == BlockLines(r)
    ensures Readable(r)
  {
    var cur := FreshBlock(TitleLine(r.name));
    var b := RereadBlock(cur, r);
    BelowParts(cur, r);
    BlockLinesAt(b);
    BlockLinesAt(r);
    SameTitle(r.name);
    assert RequestLine(b) == RequestLine(r);
    BlankTargetMoves(cur.(notes := cur.notes + r.notes), r);
  }

  lemma SameEmptyBlock(r: Request)
    requires ShapeRequest(r) && r.Empty() && NoReturns(r)
    requires var cur := FreshBlock(TitleLine(r.name));
      BlockLines(Finish(cur.(notes := cur.notes + r.notes))) == BlockLines(r)
    ensures Readable(r)
  {
    var cur := FreshBlock(TitleLine(r.name));
    BlockLinesAt(Finish(cur.(notes := cur.notes + r.notes)));
    BlockLinesAt(r);
    SameTitle(r.name);
  }

  lemma SplitLines(a: seq<string>, b: seq<string>, c: seq<string>, d: seq<string>)
    requires |a| == |c| && a + b == c + d
    ensures a == c && b == d
  {
    assert a == (a + b)[..|a|] && c == (c + d)[..|c|];
    assert b == (a + b)[|a|..] && d == (c + d)[|c|..];
  }

  lemma BlocksLinesCons(r: Request, rest: seq<Request>)
    ensures BlocksLines([r] + rest) == BlockLines(r) + if rest == [] then [] else [""] + BlocksLines(rest)
  {
    var all := [r] + rest;
    assert all[0] == r && all[1..] == rest;
    hide BlockLines;
  }

  /** The first block and the rest of the blocks read back separately. */
  lemma SameHead(rs: seq<Request>)
    requires rs != [] && !rs[0].Empty() && !BareVerb(rs[0])
    requires ShapeRequest(rs[0])
    requires BlocksLines(FinishAll(RereadAll(rs))) == BlocksLines(rs)
    ensures BlockLines(RereadBlock(FreshBlock(TitleLine(rs[0].name)), rs[0])) == BlockLines(rs[0])
    ensures BlocksLines(FinishAll(RereadAll(rs[1..]))) == BlocksLines(rs[1..])
  {
    hide *;
    var cur := FreshBlock(TitleLine(rs[0].name));
    HeadAndRest(rs);
    BlockLineCount(rs[0]);
    HeadTail(rs);
    RereadBlockLines(cur, rs[0]);
    CancelHead(RereadBlock(cur, rs[0]), FinishAll(RereadAll(rs[1..])), rs[0], rs[1..]);
  }

  lemma BlockLineCount(r: Request)
    ensures |BlockLines(r)| == 1 + |TailLines(r)|
  {
  }

  lemma HeadAndRest(rs: seq<Request>)
    requires rs != [] && !rs[0].Empty()
    ensures FinishAll(RereadAll(rs)) == [RereadBlock(FreshBlock(TitleLine(rs[0].name)), rs[0])] + FinishAll(RereadAll(rs[1..]))
    ensures Fresh(FreshBlock(TitleLine(rs[0].name))) && FreshBlock(TitleLine(rs[0].name)).notes == []
  {
    CountFull(FreshBlock(TitleLine(rs[0].name)), rs);
    hide Reread, TitleLine, TitleOf, Below, BlocksLines, BlockLines, RereadBlock;
  }

  lemma CancelHead(b: Request, again: seq<Request>, r: Request, rest: seq<Request>)
    requires |BlockLines(b)| == |BlockLines(r)|
    requires BlocksLines([b] + again) == BlocksLines([r] + rest)
    ensures BlockLines(b) == BlockLines(r)
    ensures BlocksLines(again) == BlocksLines(rest)
  {
    hide *;
    BlocksLinesCons(r, rest);
    BlocksLinesCons(b, again);
    SplitLines(BlockLines(b), if again == [] then [] else [""] + BlocksLines(again),
               BlockLines(r), if rest == [] then [] else [""] + BlocksLines(rest));
    SameRest(again, rest);
  }

  lemma SameRest(again: seq<Request>, rest: seq<Request>)
    requires (if again == [] then [] else [""] + BlocksLines(again)) == if rest == [] then [] else [""] + BlocksLines(rest)
    ensures BlocksLines(again) == BlocksLines(rest)
  {
    if again != [] && rest != [] {
      SplitLines([""], BlocksLines(again), [""], BlocksLines(rest));
    }
  }

  lemma {:induction false} SameBlocks(rs: seq<Request>)
    requires Lost(rs) == 0
    requires forall i :: 0 <= i < |rs| ==> ShapeRequest(rs[i]) && NoReturns(rs[i])
    requires BlocksLines(FinishAll(RereadAll(rs))) == BlocksLines(rs)
    ensures forall i :: 0 <= i < |rs| ==> Readable(rs[i])
    ensures forall i :: 0 <= i < |rs| - 1 ==> !rs[i].Empty()
    decreases |rs|
  {
    hide TitleLine, BlockLines, BlocksLines, ShapeRequest, NoReturns, BareVerb, Readable, RereadBlock, FreshBlock, RereadAll;
    if rs != [] {
      if rs[0].Empty() {
        SameLast(rs);
      } else {
        SameHead(rs);
        SameBlock(rs[0]);
        SameBlocks(rs[1..]);
      }
    }
  }

  lemma BlocksLinesOne(r: Request)
    ensures BlocksLines([r]) == BlockLines(r)
  {
    assert [r] + [] == [r];
    BlocksLinesCons(r, []);
  }

  lemma LastReread(rs: seq<Request>)
    requires |rs| == 1 && rs[0].Empty()
    ensures var cur := FreshBlock(TitleLine(rs[0].name));
      FinishAll(RereadAll(rs)) == [Finish(cur.(notes := cur.notes + rs[0].notes))]
  {
    hide TitleLine, FreshBlock, Finish;
  }

  lemma SameLast(rs: seq<Request>)
    requires |rs| == 1 && rs[0].Empty() && ShapeRequest(rs[0]) && NoReturns(rs[0])
    requires BlocksLines(FinishAll(RereadAll(rs))) == BlocksLines(rs)
    ensures Readable(rs[0])
  {
    hide *;
    LastReread(rs);
    JustOne(rs);
    var cur := FreshBlock(TitleLine(rs[0].name));
    BlocksLinesOne(Finish(cur.(notes := cur.notes + rs[0].notes)));
    BlocksLinesOne(rs[0]);
    SameEmptyBlock(rs[0]);
  }

  /** A text that stays put has no line ending in a carriage return, and its blocks print as they were. */
  lemma StableBlocks(f: File)
    requires Shape(f)
    requires Printed(Parsed(Printed(f))) == Printed(f)
    ensures forall i :: 0 <= i < |f.reqs| ==> NoReturns(f.reqs[i])
    ensures BlocksLines(FinishAll(RereadAll(f.reqs))) == BlocksLines(f.reqs)
  {
    var text := Printed(f);
    var g := Parsed(text);
    FileLinesAreOneLine(f);
    hide Parsed, NoReturns, BlocksLines, VarLines, ShapeRequest, RereadAll, NoCrlf, NoLineEndsWithCr, OneLineEach;
    StableHasNoCrlf(text);
    NoCrlfOfLines(FileLines(f));
    FileLinesEnd(f);
    PrintedReadsBack(f);
    ParsedHasShape(text);
    FileLinesAreOneLine(g);
    UnlinesInjective(FileLines(g), FileLines(f));
    WrittenPrintsTheSame(f.vars);
    SplitLines(VarsLines(f.vars), BlocksLines(FinishAll(RereadAll(f.reqs))), VarsLines(f.vars), BlocksLines(f.reqs));
  }

  lemma StableLosesNothing(rs: seq<Request>)
    requires forall i :: 0 <= i < |rs| ==> ShapeRequest(rs[i])
    requires BlocksLines(FinishAll(RereadAll(rs))) == BlocksLines(rs)
    ensures Lost(rs) == 0
  {
    hide ShapeRequest, BlocksLines, OpenLines, Reread, TitleLine, TitleOf;
    if rs != [] {
      var cur := FreshBlock(TitleLine(rs[0].name));
      assert RereadAll(rs) == Reread(cur, rs);
      OpenLinesAreBlocks(rs);
      RereadLineCount(cur, rs);
      assert |BlocksLines(rs) + [""]| == |[TitleLine(rs[0].name)] + OpenLines(rs)|;
    }
  }

  lemma StableRequests(rs: seq<Request>)
    requires forall i :: 0 <= i < |rs| ==> ShapeRequest(rs[i]) && NoReturns(rs[i])
    requires BlocksLines(FinishAll(RereadAll(rs))) == BlocksLines(rs)
    ensures forall i :: 0 <= i < |rs| ==> Readable(rs[i]) && !BareVerb(rs[i])
    ensures forall i :: 0 <= i < |rs| - 1 ==> !rs[i].Empty()
  {
    hide *;
    StableLosesNothing(rs);
    NothingLost(rs);
    SameBlocks(rs);
  }

  lemma StaysIsSettled(f: File)
    requires Shape(f)
    requires Printed(Parsed(Printed(f))) == Printed(f)
    ensures Settled(f)
  {
    hide BlocksLines, RereadAll, Reread, Readable, BareVerb, NoReturns, ShapeRequest, Printed, Parsed, Lost;
    StableBlocks(f);
    StableRequests(f.reqs);
  }

  lemma {:induction false} NothingLost(rs: seq<Request>)
    ensures Lost(rs) == 0 ==> forall i :: 0 <= i < |rs| ==> !BareVerb(rs[i])
  {
    if rs != [] {
      NothingLost(rs[1..]);
      assert forall i :: 0 <= i < |rs| ==> rs[i] == if i == 0 then rs[0] else rs[1..][i - 1];
      hide BareVerb;
    }
  }

  // ---- the editor switch ----------------------------------------------------------------

  /** For every file of the parser's shape the switch leaves the text alone exactly when the file is settled. */
  lemma StaysExactlyWhenSettled(f: File)
    requires Shape(f)
    ensures Printed(Parsed(Printed(f))) == Printed(f) <==> Settled(f)
  {
    if Settled(f) { SettledStays(f); }
    if Printed(Parsed(Printed(f))) == Printed(f) { StaysIsSettled(f); }
  }

  /** The raw editor's text, switched to the form and back: the second switch moves nothing exactly when the first gave a settled file. */
  lemma EditorSwitch(text: string)
    ensures var f := Parsed(text); Printed(Parsed(Printed(f))) == Printed(f) <==> Settled(f)
  {
    ParsedHasShape(text);
    StaysExactlyWhenSettled(Parsed(text));
  }

  /** A target with a blank in it is read back whole, verb and all: the switch does not leave this file's text alone. */
  lemma SpacedTargetChanges()
    ensures var f := File([], [Request("", [], "GET", "a b", [], "")]);
      Shape(f) && Printed(Parsed(Printed(f))) != Printed(f)
  {
    var r := Request("", [], "GET", "a b", [], "");
    var f := File([], [r]);
    assert ShapeRequest(r);
    assert !NoRegexSpace("a b") by { assert "a b"[1] == ' '; }
    assert f.reqs[0] == r && !Readable(r);
    hide Printed, Parsed, ShapeRequest, Readable;
    StaysExactlyWhenSettled(f);
  }
}
