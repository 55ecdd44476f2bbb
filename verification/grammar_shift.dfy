/** The file loop forgets what it has read: from any place on, it reads the rest of a text as a text of its own. */
module HttpShift {
  import opened Text
  import opened HttpGrammar
  import opened HttpBlocks

  /** The same place in the text and in its rest from `k` on. */
  predicate Same(x: Context, y: Context, k: nat) {
    k <= |x.src| && y.src == x.src[k..] && x.off == k + y.off
  }

  lemma SameRem(x: Context, y: Context, k: nat)
    requires Same(x, y, k)
    ensures x.Rem() == y.Rem() && x.Left() == y.Left() && (x.AtEnd() <==> y.AtEnd())
  {
  }

  lemma SameForward(x: Context, y: Context, k: nat, n: nat)
    requires Same(x, y, k) && n <= x.Left()
    ensures n <= y.Left() && Same(x.Forward(n), y.Forward(n), k)
  {
  }

  // ---- moved values -------------------------------------------------------------------

  function Moved(p: Positioned, k: nat): Positioned {
    Positioned(p.text, p.start + k, p.end + k)
  }

  function MovedAll(ps: seq<Positioned>, k: nat): seq<Positioned> {
    if ps == [] then [] else [Moved(ps[0], k)] + MovedAll(ps[1..], k)
  }

  function MovedPair(p: Pair, k: nat): Pair {
    Pair(Moved(p.name, k), Moved(p.value, k))
  }

  function MovedPairs(ps: seq<Pair>, k: nat): seq<Pair> {
    if ps == [] then [] else [MovedPair(ps[0], k)] + MovedPairs(ps[1..], k)
  }

  function MovedHead(h: RequestHead, k: nat): RequestHead {
    RequestHead(Moved(h.verb, k), Moved(h.target, k), h.resolved, Moved(h.version, k))
  }

  function MovedItem(i: Item, k: nat): Item {
    Item(MovedAll(i.comments, k), MovedHead(i.line, k), MovedPairs(i.headers, k), Moved(i.body, k))
  }

  function MovedItems(all: seq<Item>, k: nat): seq<Item> {
    if all == [] then [] else [MovedItem(all[0], k)] + MovedItems(all[1..], k)
  }

  function MovedIssue(i: Issue, k: nat): Issue {
    Issue(i.start + k, i.end + k)
  }

  function MovedIssues(all: seq<Issue>, k: nat): seq<Issue> {
    if all == [] then [] else [MovedIssue(all[0], k)] + MovedIssues(all[1..], k)
  }

  function MovedFile(f: HttpFile, k: nat): HttpFile {
    HttpFile(MovedPairs(f.variables, k), MovedItems(f.requests, k), MovedIssues(f.issues, k))
  }

  lemma {:induction false} MovedAllConcat(a: seq<Positioned>, b: seq<Positioned>, k: nat)
    ensures MovedAll(a + b, k) == MovedAll(a, k) + MovedAll(b, k)
  {
    if a == [] { assert a + b == b; } else { assert (a + b)[1..] == a[1..] + b; MovedAllConcat(a[1..], b, k); }
  }

  lemma {:induction false} MovedPairsConcat(a: seq<Pair>, b: seq<Pair>, k: nat)
    ensures MovedPairs(a + b, k) == MovedPairs(a, k) + MovedPairs(b, k)
  {
    if a == [] { assert a + b == b; } else { assert (a + b)[1..] == a[1..] + b; MovedPairsConcat(a[1..], b, k); }
  }

  lemma {:induction false} MovedItemsConcat(a: seq<Item>, b: seq<Item>, k: nat)
    ensures MovedItems(a + b, k) == MovedItems(a, k) + MovedItems(b, k)
  {
    hide MovedItem;
    if a == [] { assert a + b == b; } else { assert (a + b)[1..] == a[1..] + b; MovedItemsConcat(a[1..], b, k); }
  }

  lemma {:induction false} MovedIssuesConcat(a: seq<Issue>, b: seq<Issue>, k: nat)
    ensures MovedIssues(a + b, k) == MovedIssues(a, k) + MovedIssues(b, k)
  {
    if a == [] { assert a + b == b; } else { assert (a + b)[1..] == a[1..] + b; MovedIssuesConcat(a[1..], b, k); }
  }

  // ---- the line parsers --------------------------------------------------------------------

  lemma ManyMoves(p: char -> bool, x: Context, y: Context, k: nat)
    requires Same(x, y, k)
    ensures Many(p, x).0 == Many(p, y).0 && Same(Many(p, x).1, Many(p, y).1, k)
  {
    SameRem(x, y, k);
  }

  lemma SpanMoves(x: Context, y: Context, a: Context, b: Context, cut: char -> bool, k: nat)
    requires Same(x, y, k) && Same(a, b, k) && Ahead(x, a) && Ahead(y, b)
    ensures SpanOf(x, a, cut) == Moved(SpanOf(y, b, cut), k)
  {
    ConsumedMoves(x, y, a, b, k);
    hide Consumed, Same, Run, Kept;
  }

  lemma EndOfLineMoves(x: Context, y: Context, k: nat)
    requires Same(x, y, k)
    ensures Same(ConsumeEndOfLine(x), ConsumeEndOfLine(y), k)
  {
    SameRem(x, y, k);
  }

  lemma SpacesMove(env: Env, x: Context, y: Context, k: nat)
    requires Same(x, y, k)
    ensures Same(Spaces(env, x), Spaces(env, y), k)
  {
    ManyMoves(SpaceRune(env), x, y, k);
    hide Many;
  }

  lemma VerbMoves(env: Env, x: Context, y: Context, k: nat)
    requires Same(x, y, k)
    ensures var a, b := VerbParser(env, x), VerbParser(env, y);
      a.Ok? == b.Ok? && (a.Ok? ==> a.value == b.value && Same(a.next, b.next, k))
  {
    var isWord := WordRune(env);
    ManyMoves(isWord, x, y, k);
    SpacesMove(env, Many(isWord, x).1, Many(isWord, y).1, k);
    hide Many, Spaces, ParseVerb;
  }

  lemma LineMoves(x: Context, y: Context, k: nat)
    requires Same(x, y, k)
    ensures LineContext(x).Rem() == LineContext(y).Rem()
  {
    SameRem(x, y, k);
    var n := Run(x.Rem(), IsNoBreak);
    hide Run;
    assert x.src[..x.off + n][x.off..] == x.Rem()[..n];
    assert y.src[..y.off + n][y.off..] == y.Rem()[..n];
  }

  lemma TargetMoves(env: Env, x: Context, y: Context, k: nat)
    requires Same(x, y, k)
    ensures var a, b := TargetParser(env, x), TargetParser(env, y);
      a.Ok? == b.Ok? && (a.Ok? ==> a.value == b.value && Same(a.next, b.next, k))
  {
    LineMoves(x, y, k);
    hide LineContext, TargetLength, TrimRight, Contains;
  }

  lemma StringMoves(text: string, x: Context, y: Context, k: nat)
    requires Same(x, y, k)
    ensures var a, b := StringMatch(text, x), StringMatch(text, y);
      a.Ok? == b.Ok? && (a.Ok? ==> Same(a.next, b.next, k))
  {
    SameRem(x, y, k);
  }

  lemma MinorMoves(x: Context, y: Context, k: nat)
    requires Same(x, y, k) && "." <= x.Rem()
    ensures "." <= y.Rem()
    ensures Many(IsAsciiDigit, x.Forward(1)).0 == Many(IsAsciiDigit, y.Forward(1)).0
    ensures Same(Many(IsAsciiDigit, x.Forward(1)).1, Many(IsAsciiDigit, y.Forward(1)).1, k)
  {
    SameRem(x, y, k);
    SameForward(x, y, k, 1);
    ManyMoves(IsAsciiDigit, x.Forward(1), y.Forward(1), k);
  }

  lemma VersionMoves(env: Env, x: Context, y: Context, k: nat)
    requires Same(x, y, k)
    ensures Same(OptionalVersion(env, x), OptionalVersion(env, y), k)
  {
    SpacesMove(env, x, y, k);
    var a, b := Spaces(env, x), Spaces(env, y);
    StringMoves("HTTP/", a, b, k);
    var m, n := StringMatch("HTTP/", a), StringMatch("HTTP/", b);
    hide Spaces, StringMatch, Many;
    if m.Ok? {
      ManyMoves(IsAsciiDigit, m.next, n.next, k);
      var p, q := Many(IsAsciiDigit, m.next).1, Many(IsAsciiDigit, n.next).1;
      SameRem(p, q, k);
      if "." <= p.Rem() { MinorMoves(p, q, k); }
    }
  }

  lemma RequestHeadMoves(verb: string, resolved: bool, x: seq<Context>, y: seq<Context>, k: nat)
    requires |x| == |y| == 4 && Ahead(x[0], x[1]) && Ahead(x[1], x[2]) && Ahead(x[2], x[3])
    requires Ahead(y[0], y[1]) && Ahead(y[1], y[2]) && Ahead(y[2], y[3])
    requires Same(x[0], y[0], k) && Same(x[1], y[1], k) && Same(x[2], y[2], k) && Same(x[3], y[3], k)
    ensures RequestHeadOf(verb, resolved, x[0], x[1], x[2], x[3]) == MovedHead(RequestHeadOf(verb, resolved, y[0], y[1], y[2], y[3]), k)
  {
    hide SpanOf, Same, Ahead;
    SpanMoves(x[0], y[0], x[1], y[1], IsCutSpace, k);
    SpanMoves(x[1], y[1], x[2], y[2], IsCutSpace, k);
    SpanMoves(x[2], y[2], x[3], y[3], IsCutSpace, k);
  }

  lemma RequestLineMoves(env: Env, x: Context, y: Context, k: nat)
    requires Same(x, y, k)
    ensures var a, b := RequestLineParser(env, x), RequestLineParser(env, y);
      a.Ok? == b.Ok? && (a.Ok? ==> a.value == MovedHead(b.value, k) && Same(a.next, b.next, k))
  {
    hide VerbParser, TargetParser, OptionalVersion, RequestHeadOf, Same, MovedHead;
    VerbMoves(env, x, y, k);
    var a, b := VerbParser(env, x), VerbParser(env, y);
    if a.Ok? {
      TargetMoves(env, a.next, b.next, k);
      var c, d := TargetParser(env, a.next), TargetParser(env, b.next);
      if c.Ok? {
        VersionMoves(env, c.next, d.next, k);
        RequestHeadMoves(a.value, c.value, [x, a.next, c.next, OptionalVersion(env, c.next)], [y, b.next, d.next, OptionalVersion(env, d.next)], k);
      }
    }
  }

  lemma VariableMoves(env: Env, x: Context, y: Context, k: nat)
    requires Same(x, y, k)
    ensures var a, b := VariableParser(env, x), VariableParser(env, y);
      a.Ok? == b.Ok? && (a.Ok? ==> a.value == MovedPair(b.value, k) && Same(a.next, b.next, k))
  {
    hide StringMatch, Many, Spaces, SpanOf, Same, MovedPair;
    StringMoves("@", x, y, k);
    var m, n := StringMatch("@", x), StringMatch("@", y);
    if m.Ok? {
      var isName := NameRune(env);
      ManyMoves(isName, m.next, n.next, k);
      var p, q := Many(isName, m.next).1, Many(isName, n.next).1;
      SpacesMove(env, p, q, k);
      var c, d := Spaces(env, p), Spaces(env, q);
      SameRem(c, d, k);
      if Many(isName, m.next).0 != "" && "=" <= c.Rem() {
        ValueMoves(x, y, p, q, c, d, Many(isName, m.next).0, k);
      }
    }
  }

  /** The two halves of a variable, once its `=` is found. */
  lemma ValueMoves(x: Context, y: Context, p: Context, q: Context, c: Context, d: Context, name: string, k: nat)
    requires Same(x, y, k) && Same(p, q, k) && Same(c, d, k) && "=" <= c.Rem()
    ensures "=" <= d.Rem()
    ensures var a, b := Many(IsNoBreakOrReturn, c.Forward(1)).1, Many(IsNoBreakOrReturn, d.Forward(1)).1;
      && Same(a, b, k)
      && Pair(Positioned(name, x.off, p.off), SpanOf(c.Forward(1), a, IsCutSpace))
         == MovedPair(Pair(Positioned(name, y.off, q.off), SpanOf(d.Forward(1), b, IsCutSpace)), k)
  {
    hide Many, SpanOf;
    SameRem(c, d, k);
    SameForward(c, d, k, 1);
    ManyMoves(IsNoBreakOrReturn, c.Forward(1), d.Forward(1), k);
    SpanMoves(c.Forward(1), d.Forward(1), Many(IsNoBreakOrReturn, c.Forward(1)).1, Many(IsNoBreakOrReturn, d.Forward(1)).1, IsCutSpace, k);
  }

  lemma UntilMoves(p: char -> bool, delimiter: string, consume: bool, x: Context, y: Context, k: nat)
    requires Same(x, y, k)
    ensures var a, b := UntilText(p, delimiter, consume, x), UntilText(p, delimiter, consume, y);
      a.Ok? == b.Ok? && (a.Ok? ==> a.value == b.value && Same(a.next, b.next, k))
  {
    SameRem(x, y, k);
    hide IndexOf, All;
  }

  lemma CommentMoves(prefix: string, x: Context, y: Context, k: nat)
    requires Same(x, y, k)
    ensures var a, b := CommentParser(prefix, x), CommentParser(prefix, y);
      a.Ok? == b.Ok? && (a.Ok? ==> a.value == Moved(b.value, k) && Same(a.next, b.next, k))
  {
    StringMoves(prefix, x, y, k);
    var m, n := StringMatch(prefix, x), StringMatch(prefix, y);
    hide StringMatch, UntilText, SpanOf;
    if m.Ok? {
      UntilMoves(Anything, "\n", false, m.next, n.next, k);
      var a, b := UntilText(Anything, "\n", false, m.next), UntilText(Anything, "\n", false, n.next);
      if a.Ok? { SpanMoves(x, y, a.next, b.next, IsReturn, k); }
    }
  }

  lemma NoteMoves(x: Context, y: Context, k: nat)
    requires Same(x, y, k)
    ensures var a, b := NoteParser(x), NoteParser(y);
      a.Ok? == b.Ok? && (a.Ok? ==> a.value == Moved(b.value, k) && Same(a.next, b.next, k))
  {
    CommentMoves(SEPARATOR, x, y, k);
    CommentMoves("#", x, y, k);
    hide CommentParser, Same, Moved;
  }

  lemma HeaderMoves(x: Context, y: Context, k: nat)
    requires Same(x, y, k)
    ensures var a, b := HeaderParser(x), HeaderParser(y);
      a.Ok? == b.Ok? && (a.Ok? ==> a.value == MovedPair(b.value, k) && Same(a.next, b.next, k))
  {
    UntilMoves(IsNameChar, ":", true, x, y, k);
    var a, b := UntilText(IsNameChar, ":", true, x), UntilText(IsNameChar, ":", true, y);
    hide UntilText, Many, SpanOf, Same;
    if a.Ok? {
      ManyMoves(IsNoBreakOrReturn, a.next, b.next, k);
      SpanMoves(x, y, a.next, b.next, IsCutColon, k);
      SpanMoves(a.next, b.next, Many(IsNoBreakOrReturn, a.next).1, Many(IsNoBreakOrReturn, b.next).1, IsCutSpace, k);
    }
  }

  // ---- blocks --------------------------------------------------------------------------------

  lemma BlankLineMoves(x: Context, y: Context, k: nat)
    requires Same(x, y, k)
    ensures IsBlankLine(x) <==> IsBlankLine(y)
  {
    SameRem(x, y, k);
  }

  lemma ReadLineMoves(x: Context, y: Context, k: nat)
    requires Same(x, y, k)
    ensures Same(ReadLine(x).1, ReadLine(y).1, k)
  {
    SameRem(x, y, k);
  }

  lemma {:induction false} SkipMoves(x: Context, y: Context, k: nat)
    requires Same(x, y, k)
    ensures Same(SkipBlankLines(x), SkipBlankLines(y), k)
    decreases x.Left()
  {
    SameRem(x, y, k);
    BlankLineMoves(x, y, k);
    ReadLineMoves(x, y, k);
    hide IsBlankLine, ReadLine, Same;
    if !x.AtEnd() && IsBlankLine(x) { SkipMoves(ReadLine(x).1, ReadLine(y).1, k); }
  }

  lemma {:induction false} CommentLinesMove(x: Context, y: Context, k: nat)
    requires Same(x, y, k)
    ensures CommentLines(x).0 == MovedAll(CommentLines(y).0, k) && Same(CommentLines(x).1, CommentLines(y).1, k)
    decreases x.Left()
  {
    NoteMoves(x, y, k);
    CommentLinesStep(x);
    CommentLinesStep(y);
    hide NoteParser, CommentLines, ConsumeEndOfLine, Same, Moved;
    var a, b := NoteParser(x), NoteParser(y);
    if a.Ok? {
      EndOfLineMoves(a.next, b.next, k);
      CommentLinesMove(ConsumeEndOfLine(a.next), ConsumeEndOfLine(b.next), k);
      MovedAllConcat([b.value], CommentLines(ConsumeEndOfLine(b.next)).0, k);
      MovedOne(b.value, k);
    } else {
      MovedNone(k);
    }
  }

  lemma MovedOne(p: Positioned, k: nat)
    ensures MovedAll([p], k) == [Moved(p, k)]
  {
    assert [p][1..] == [];
  }

  lemma MovedNone(k: nat)
    ensures MovedAll([], k) == [] && MovedPairs([], k) == []
  {
  }

  predicate HeadersMoved(h: Headed, g: Headed, k: nat) {
    h.Stuck? == g.Stuck? &&
    (h.Headed? ==> h.headers == MovedPairs(g.headers, k) && h.comments == MovedAll(g.comments, k) && Same(h.next, g.next, k))
  }

  lemma HeadersEndMoves(x: Context, y: Context, k: nat)
    requires Same(x, y, k)
    ensures HeadersEnd(x) <==> HeadersEnd(y)
  {
    SameRem(x, y, k);
    BlankLineMoves(x, y, k);
    hide IsBlankLine;
  }

  lemma AddCommentsMove(x: Context, y: Context, cs: seq<Positioned>, ds: seq<Positioned>, n: Context, m: Context, h: Headed, g: Headed, k: nat)
    requires Ahead(x, n) && (h.Headed? ==> Ahead(n, h.next)) && Ahead(y, m) && (g.Headed? ==> Ahead(m, g.next))
    requires HeadersMoved(h, g, k) && cs == MovedAll(ds, k)
    ensures HeadersMoved(AddComments(x, cs, n, h), AddComments(y, ds, m, g), k)
  {
    hide Same;
    if g.Headed? { MovedAllConcat(ds, g.comments, k); }
  }

  lemma AddHeaderMoves(x: Context, y: Context, p: Pair, q: Pair, n: Context, m: Context, h: Headed, g: Headed, k: nat)
    requires Ahead(x, n) && (h.Headed? ==> Ahead(ConsumeEndOfLine(n), h.next)) && Ahead(y, m) && (g.Headed? ==> Ahead(ConsumeEndOfLine(m), g.next))
    requires HeadersMoved(h, g, k) && p == MovedPair(q, k)
    ensures HeadersMoved(AddHeader(x, p, n, h), AddHeader(y, q, m, g), k)
  {
    hide Same, MovedPair, ConsumeEndOfLine;
    if g.Headed? {
      MovedPairsConcat([q], g.headers, k);
      assert [q][1..] == [];
    }
  }

  lemma {:induction false} HeaderLoopMoves(x: Context, y: Context, k: nat)
    requires Same(x, y, k)
    ensures HeadersMoved(HeaderLoop(x), HeaderLoop(y), k)
    decreases x.Left()
  {
    hide HeaderLoop, HeadersEnd, CommentLines, HeaderParser, ConsumeEndOfLine, Same, MovedPair, MovedAll, MovedPairs;
    SameRem(x, y, k);
    HeadersEndMoves(x, y, k);
    CommentLinesMove(x, y, k);
    HeaderMoves(x, y, k);
    HeaderLoopStep(x);
    HeaderLoopStep(y);
    MovedNone(k);
    MovedNothing(CommentLines(y).0, k);
    if !HeadersEnd(x) {
      if "#" <= x.Rem() {
        var cs, ds, n, m := CommentLines(x).0, CommentLines(y).0, CommentLines(x).1, CommentLines(y).1;
        if cs != [] {
          HeaderLoopMoves(n, m, k);
          AddCommentsMove(x, y, cs, ds, n, m, HeaderLoop(n), HeaderLoop(m), k);
        }
      } else if HeaderParser(x).Ok? {
        var a, b := HeaderParser(x), HeaderParser(y);
        EndOfLineMoves(a.next, b.next, k);
        HeaderLoopMoves(ConsumeEndOfLine(a.next), ConsumeEndOfLine(b.next), k);
        AddHeaderMoves(x, y, a.value, b.value, a.next, b.next, HeaderLoop(ConsumeEndOfLine(a.next)), HeaderLoop(ConsumeEndOfLine(b.next)), k);
      }
    }
  }

  lemma MovedNothing(ps: seq<Positioned>, k: nat)
    ensures MovedAll(ps, k) == [] <==> ps == []
  {
  }

  lemma {:induction false} SeparatorMoves(x: Context, y: Context, k: nat)
    requires Same(x, y, k)
    ensures Same(UntilSeparator(x), UntilSeparator(y), k)
    decreases x.Left()
  {
    SameRem(x, y, k);
    ReadLineMoves(x, y, k);
    hide ReadLine, Same;
    if !x.AtEnd() && !(SEPARATOR <= x.Rem()) { SeparatorMoves(ReadLine(x).1, ReadLine(y).1, k); }
  }

  lemma BodyStartMoves(x: Context, y: Context, k: nat)
    requires Same(x, y, k)
    ensures Same(BodyStart(x), BodyStart(y), k)
  {
    SameRem(x, y, k);
    BlankLineMoves(x, y, k);
    ReadLineMoves(x, y, k);
    hide IsBlankLine, ReadLine, Same;
  }

  lemma SliceMoves(s: string, k: nat, from: nat, to: nat)
    requires from <= to && k + to <= |s|
    ensures s[k + from..k + to] == s[k..][from..to]
  {
  }

  lemma ConsumedMoves(x: Context, y: Context, a: Context, b: Context, k: nat)
    requires Same(x, y, k) && Same(a, b, k) && Ahead(x, a) && Ahead(y, b)
    ensures Consumed(x, a) == Consumed(y, b) && x.off == k + y.off
  {
    SliceMoves(x.src, k, y.off, b.off);
  }

  lemma BodyMoves(x: Context, y: Context, k: nat)
    requires Same(x, y, k)
    ensures BodyParser(x).0 == Moved(BodyParser(y).0, k) && Same(BodyParser(x).1, BodyParser(y).1, k)
  {
    hide BodyStart, UntilSeparator, TrimRight, Consumed, Same;
    var a, b := BodyStart(x), BodyStart(y);
    BodyStartMoves(x, y, k);
    SeparatorMoves(a, b, k);
    ConsumedMoves(a, b, UntilSeparator(a), UntilSeparator(b), k);
  }

  predicate ItemMoved(x: ItemResult, y: ItemResult, k: nat) {
    && x.ItemFail? == y.ItemFail? && x.ItemStuck? == y.ItemStuck?
    && (x.ItemOk? ==> y.ItemOk? && x.item == MovedItem(y.item, k) && Same(x.next, y.next, k))
  }

  lemma ItemMoves(env: Env, x: Context, y: Context, k: nat)
    requires Same(x, y, k)
    ensures ItemMoved(ItemParser(env, x), ItemParser(env, y), k)
  {
    hide SkipBlankLines, CommentLines, RequestLineParser, HeaderLoop, ConsumeEndOfLine, BodyParser, Same, Moved, MovedHead, MovedAll, MovedPairs;
    SkipMoves(x, y, k);
    var a, b := SkipBlankLines(x), SkipBlankLines(y);
    CommentLinesMove(a, b, k);
    var c, d := CommentLines(a), CommentLines(b);
    RequestLineMoves(env, c.1, d.1, k);
    var p, q := RequestLineParser(env, c.1), RequestLineParser(env, d.1);
    if p.Ok? {
      EndOfLineMoves(p.next, q.next, k);
      var m, n := ConsumeEndOfLine(p.next), ConsumeEndOfLine(q.next);
      HeaderLoopMoves(m, n, k);
      var h, g := HeaderLoop(m), HeaderLoop(n);
      if h.Headed? {
        BodyMoves(h.next, g.next, k);
        MovedAllConcat(d.0, g.comments, k);
      }
    }
  }

  lemma UnreadableMoves(x: Context, y: Context, k: nat)
    requires Same(x, y, k)
    ensures SkipUnreadable(x).0 == MovedIssue(SkipUnreadable(y).0, k) && Same(SkipUnreadable(x).1, SkipUnreadable(y).1, k)
  {
    ReadLineMoves(x, y, k);
    SeparatorMoves(ReadLine(x).1, ReadLine(y).1, k);
    var a, b := UntilSeparator(ReadLine(x).1), UntilSeparator(ReadLine(y).1);
    SpanMoves(x, y, a, b, IsCutBreak, k);
    hide ReadLine, UntilSeparator, SpanOf, Same;
  }

  // ---- the file loop ----------------------------------------------------------------------------

  predicate StretchMoved(s: Stretch, t: Stretch, k: nat) {
    && Same(s.to, t.to, k)
    && match t
       case VariableStretch(v, _, _) => s.VariableStretch? && s.variable == MovedPair(v, k)
       case RequestStretch(item, _, _) => s.RequestStretch? && s.item == MovedItem(item, k)
       case IssueStretch(issue, _, _) => s.IssueStretch? && s.issue == MovedIssue(issue, k)
  }

  lemma TurnMoves(env: Env, x: Context, y: Context, k: nat)
    requires Same(x, y, k)
    ensures var s, t := NextStretch(env, x), NextStretch(env, y);
      s.Turn? == t.Turn? && (s.Turn? ==> StretchMoved(s.stretch, t.stretch, k))
  {
    hide VariableParser, ItemParser, SkipUnreadable, ConsumeEndOfLine, Same, MovedPair, MovedItem, MovedIssue, NextStretch;
    VariableMoves(env, x, y, k);
    var v, w := VariableParser(env, x), VariableParser(env, y);
    if v.Ok? { EndOfLineMoves(v.next, w.next, k); }
    ItemMoves(env, x, y, k);
    UnreadableMoves(x, y, k);
    TurnIs(env, x);
    TurnIs(env, y);
  }

  predicate StretchesMoved(ss: seq<Stretch>, ts: seq<Stretch>, k: nat) {
    |ss| == |ts| && forall i :: 0 <= i < |ss| ==> StretchMoved(ss[i], ts[i], k)
  }

  lemma StretchesMovedCons(s: Stretch, t: Stretch, ss: seq<Stretch>, ts: seq<Stretch>, k: nat)
    requires StretchMoved(s, t, k) && StretchesMoved(ss, ts, k)
    ensures StretchesMoved([s] + ss, [t] + ts, k)
  {
    hide StretchMoved;
  }

  lemma {:induction false} StretchesMove(env: Env, x: Context, y: Context, k: nat)
    requires Same(x, y, k)
    ensures var a, b := Stretches(env, x), Stretches(env, y);
      a.Some? == b.Some? && (a.Some? ==> StretchesMoved(a.value, b.value, k))
    decreases x.Left()
  {
    SkipMoves(x, y, k);
    var a, b := SkipBlankLines(x), SkipBlankLines(y);
    SameRem(a, b, k);
    StretchesStep(env, x);
    StretchesStep(env, y);
    hide SkipBlankLines, Stretches, NextStretch, Same;
    if !a.AtEnd() {
      TurnMoves(env, a, b, k);
      var s, t := NextStretch(env, a), NextStretch(env, b);
      hide StretchesMoved;
      if s.Turn? {
        StretchesMove(env, s.stretch.to, t.stretch.to, k);
        var m, n := Stretches(env, s.stretch.to), Stretches(env, t.stretch.to);
        if m.Some? { StretchesMovedCons(s.stretch, t.stretch, m.value, n.value, k); }
      }
    }
  }

  lemma AddMoves(f: HttpFile, g: HttpFile, s: Stretch, t: Stretch, k: nat)
    requires f == MovedFile(g, k) && StretchMoved(s, t, k)
    ensures Add(f, s) == MovedFile(Add(g, t), k)
  {
    hide Same, MovedPair, MovedItem, MovedIssue;
    match t
    case VariableStretch(v, _, _) =>
      MovedPairsConcat(g.variables, [v], k);
      assert [v][1..] == [];
    case RequestStretch(item, _, _) =>
      MovedItemsConcat(g.requests, [item], k);
      assert [item][1..] == [];
    case IssueStretch(issue, _, _) =>
      MovedIssuesConcat(g.issues, [issue], k);
      assert [issue][1..] == [];
  }

  lemma {:induction false} GatherMoves(f: HttpFile, g: HttpFile, ss: seq<Stretch>, ts: seq<Stretch>, k: nat)
    requires f == MovedFile(g, k) && StretchesMoved(ss, ts, k)
    ensures Gather(f, ss) == MovedFile(Gather(g, ts), k)
    decreases |ss|
  {
    hide MovedFile, StretchMoved, Add;
    if ss != [] {
      AddMoves(f, g, ss[0], ts[0], k);
      GatherMoves(Add(f, ss[0]), Add(g, ts[0]), ss[1..], ts[1..], k);
    }
  }

  /** What the loop makes of a text from `k` on. */
  function FileFrom(env: Env, source: string, k: nat): Option<HttpFile>
    requires k <= |source|
  {
    match Stretches(env, Context(source, k))
    case None => None
    case Some(ss) => Some(Gather(NOTHING, ss))
  }

  /** From any place `k`, the file is the file of the rest of the text, every position moved by `k`. */
  lemma FileFromIsFileOfRest(env: Env, source: string, k: nat)
    requires k <= |source|
    ensures var rest := FileOf(env, source[k..]);
      FileFrom(env, source, k) == if rest.None? then None else Some(MovedFile(rest.value, k))
  {
    var x, y := At(source, k), At(source[k..], 0);
    assert NOTHING == MovedFile(NOTHING, k);
    assert Same(x, y, k);
    hide Stretches, MovedFile, StretchesMoved, Gather;
    StretchesMove(env, x, y, k);
    if Stretches(env, x).Some? { GatherMoves(NOTHING, NOTHING, Stretches(env, x).value, Stretches(env, y).value, k); }
  }
}
