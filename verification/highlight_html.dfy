/** Placeholders, markup, and the law the overlay lives by: what is painted is the source, rune for rune. */
module HighlightHtml {
  import opened Text
  import opened HttpGrammar
  import opened HttpBlocks
  import opened HttpScan
  import opened Highlight

  // ---- placeholders -------------------------------------------------------------

  predicate NeedleAt(runes: string, i: nat, needle: string)
    requires i + |needle| <= |runes|
  {
    runes[i..i + |needle|] == needle
  }

  /** The first place in `from..to` the needle occurs, or -1. */
  function IndexRunes(runes: string, from: nat, to: nat, needle: string): (i: int)
    requires to <= |runes|
    ensures i >= 0 ==> from <= i && i + |needle| <= to && NeedleAt(runes, i, needle)
    decreases if from + |needle| <= to then to - from - |needle| + 1 else 0
  {
    if from + |needle| > to then -1
    else if NeedleAt(runes, from, needle) then from
    else IndexRunes(runes, from + 1, to, needle)
  }

  method FindRunes(runes: string, from: nat, to: nat, needle: string) returns (i: int)
    requires to <= |runes|
    ensures i == IndexRunes(runes, from, to, needle)
  {
    i := from;
    while i + |needle| <= to
      invariant from <= i
      invariant IndexRunes(runes, i, to, needle) == IndexRunes(runes, from, to, needle)
      decreases if i < to then to - i else 0
    {
      if NeedleAt(runes, i, needle) {
        return;
      }
      i := i + 1;
    }
    i := -1;
  }

  datatype Hole = Hole(open: nat, after: nat)

  /** The next placeholder at or after `cursor`: where it opens and the first rune after it. */
  function NextHole(runes: string, cursor: nat, to: nat): (hole: Option<Hole>)
    requires to <= |runes|
    ensures hole.Some? ==> cursor <= hole.value.open && hole.value.open + 4 <= hole.value.after <= to
    ensures hole.Some? ==> NeedleAt(runes, hole.value.open, "{{") && NeedleAt(runes, hole.value.after - 2, "}}")
  {
    var open := IndexRunes(runes, cursor, to, "{{");
    if open < 0 then None
    else
      var closing := IndexRunes(runes, open + 2, to, "}}");
      if closing < 0 then None else Some(Hole(open, closing + 2))
  }

  function Plain(t: Token, from: nat, to: nat): seq<Token> {
    if from < to then [Token(t.kind, from, to)] else []
  }

  /** The pieces of one token from `cursor` on: its plain stretches and the placeholders between them. */
  function Pieces(runes: string, t: Token, cursor: nat): seq<Token>
    requires t.end <= |runes|
    decreases if cursor < t.end then t.end - cursor else 0
  {
    if cursor >= t.end then []
    else match NextHole(runes, cursor, t.end)
      case None => Plain(t, cursor, t.end)
      case Some(Hole(open, after)) => Plain(t, cursor, open) + ([Token(Placeholder, open, after)] + Pieces(runes, t, after))
  }

  function SplitToken(runes: string, t: Token): seq<Token>
    requires t.end <= |runes|
  {
    if HostsPlaceholders(t.kind) then Pieces(runes, t, t.start) else [t]
  }

  function Split(runes: string, ts: seq<Token>): seq<Token>
    requires forall i :: 0 <= i < |ts| ==> ts[i].end <= |runes|
  {
    if ts == [] then [] else SplitToken(runes, ts[0]) + Split(runes, ts[1..])
  }

  lemma PiecesStep(runes: string, t: Token, cursor: nat)
    requires t.end <= |runes|
    ensures cursor >= t.end ==> Pieces(runes, t, cursor) == []
    ensures cursor < t.end && NextHole(runes, cursor, t.end).None? ==> Pieces(runes, t, cursor) == [Token(t.kind, cursor, t.end)]
    ensures cursor < t.end && NextHole(runes, cursor, t.end).Some? ==>
      var h := NextHole(runes, cursor, t.end).value;
      Pieces(runes, t, cursor) == Plain(t, cursor, h.open) + ([Token(Placeholder, h.open, h.after)] + Pieces(runes, t, h.after))
  {
    hide NextHole;
  }

  method SplitOne(runes: string, t: Token) returns (out: seq<Token>)
    requires t.end <= |runes|
    ensures out == Pieces(runes, t, t.start)
  {
    out := [];
    var cursor := t.start;
    hide Pieces, IndexRunes;
    while cursor < t.end
      invariant out + Pieces(runes, t, cursor) == Pieces(runes, t, t.start)
      decreases if cursor < t.end then t.end - cursor else 0
    {
      PiecesStep(runes, t, cursor);
      var open := FindRunes(runes, cursor, t.end, "{{");
      if open < 0 {
        break;
      }
      var closing := FindRunes(runes, open + 2, t.end, "}}");
      if closing < 0 {
        break;
      }
      if open > cursor {
        out := out + [Token(t.kind, cursor, open)];
      }
      out := out + [Token(Placeholder, open, closing + 2)];
      cursor := closing + 2;
    }
    PiecesStep(runes, t, cursor);
    if cursor < t.end {
      out := out + [Token(t.kind, cursor, t.end)];
    }
  }

  lemma SplitStep(runes: string, ts: seq<Token>, i: nat)
    requires i < |ts| && forall j :: 0 <= j < |ts| ==> ts[j].end <= |runes|
    ensures Split(runes, ts[i..]) ==
      (if HostsPlaceholders(ts[i].kind) then Pieces(runes, ts[i], ts[i].start) else [ts[i]]) + Split(runes, ts[i + 1..])
  {
    assert ts[i..][1..] == ts[i + 1..];
    hide Pieces;
  }

  method SplitPlaceholders(runes: string, ts: seq<Token>) returns (out: seq<Token>)
    requires forall i :: 0 <= i < |ts| ==> ts[i].end <= |runes|
    ensures out == Split(runes, ts)
  {
    out := [];
    var i := 0;
    SplitNothing(runes);
    assert forall s: seq<Token> {:trigger s + []} :: s + [] == s;
    assert [] + Split(runes, ts[0..]) == Split(runes, ts) by { assert ts[0..] == ts; }
    assert ts[|ts|..] == [];
    hide *;
    while i < |ts|
      invariant 0 <= i <= |ts|
      invariant out + Split(runes, ts[i..]) == Split(runes, ts)
    {
      SplitStep(runes, ts, i);
      if !HostsPlaceholders(ts[i].kind) {
        Assoc(out, [ts[i]], Split(runes, ts[i + 1..]));
        out := out + [ts[i]];
      } else {
        var pieces := SplitOne(runes, ts[i]);
        Assoc(out, pieces, Split(runes, ts[i + 1..]));
        out := out + pieces;
      }
      i := i + 1;
    }
  }

  lemma SplitNothing(runes: string)
    ensures Split(runes, []) == []
  {
  }

  /** Non-empty tokens one after the other, from `a` exactly to `b`. */
  predicate Contiguous(ts: seq<Token>, a: nat, b: nat) {
    if ts == [] then a == b else ts[0].start == a && a < ts[0].end && Contiguous(ts[1..], ts[0].end, b)
  }

  /** `out` is a run of contiguous pieces for each token, in order. */
  predicate Tiles(out: seq<Token>, ts: seq<Token>)
    decreases |ts|
  {
    if ts == [] then out == []
    else exists n :: 0 <= n <= |out| && TilesFirst(out, n, ts[0]) && Tiles(out[n..], ts[1..])
  }

  predicate TilesFirst(out: seq<Token>, n: nat, t: Token)
    requires n <= |out|
  {
    Contiguous(out[..n], t.start, t.end)
  }

  predicate WellBraced(runes: string, t: Token) {
    t.kind == Placeholder ==>
      t.start + 4 <= t.end <= |runes| && NeedleAt(runes, t.start, "{{") && NeedleAt(runes, t.end - 2, "}}")
  }

  lemma ContiguousCons(t: Token, rest: seq<Token>, b: nat)
    requires t.start < t.end && Contiguous(rest, t.end, b)
    ensures Contiguous([t] + rest, t.start, b)
  {
    assert ([t] + rest)[1..] == rest;
  }

  lemma PlainFirst(t: Token, from: nat, to: nat, rest: seq<Token>, end: nat)
    requires from <= to && Contiguous(rest, to, end)
    ensures Contiguous(Plain(t, from, to) + rest, from, end)
  {
    if from < to {
      ContiguousCons(Token(t.kind, from, to), rest, end);
    } else {
      assert [] + rest == rest;
    }
  }

  lemma {:induction false} PiecesAreContiguous(runes: string, t: Token, cursor: nat)
    requires cursor <= t.end <= |runes| && t.kind != Placeholder
    ensures Contiguous(Pieces(runes, t, cursor), cursor, t.end)
    ensures forall i :: 0 <= i < |Pieces(runes, t, cursor)| ==> WellBraced(runes, Pieces(runes, t, cursor)[i])
    decreases t.end - cursor
  {
    hide NextHole, NeedleAt;
    if cursor < t.end {
      match NextHole(runes, cursor, t.end)
      case None =>
      case Some(Hole(open, after)) =>
        var rest := Pieces(runes, t, after);
        var hole := Token(Placeholder, open, after);
        PiecesAreContiguous(runes, t, after);
        assert WellBraced(runes, hole);
        hide Contiguous;
        ContiguousCons(hole, rest, t.end);
        PlainFirst(t, cursor, open, [hole] + rest, t.end);
    }
  }

  /** Splitting keeps every stretch of every token and braces every placeholder. */
  lemma {:induction false} SplitTiles(runes: string, ts: seq<Token>, from: nat)
    requires Ordered(ts, from, |runes|) && forall i :: 0 <= i < |ts| ==> ts[i].kind != Placeholder && ts[i].end <= |runes|
    ensures Tiles(Split(runes, ts), ts)
    ensures Ordered(Split(runes, ts), from, |runes|)
    ensures forall i :: 0 <= i < |Split(runes, ts)| ==> WellBraced(runes, Split(runes, ts)[i])
  {
    if ts != [] {
      var t, first, rest := ts[0], SplitToken(runes, ts[0]), Split(runes, ts[1..]);
      SplitTiles(runes, ts[1..], t.end);
      if HostsPlaceholders(t.kind) { PiecesAreContiguous(runes, t, t.start); } else { ContiguousCons(t, [], t.end); }
      assert Contiguous(first, t.start, t.end) by { assert [t] + [] == [t]; }
      assert (first + rest)[..|first|] == first && (first + rest)[|first|..] == rest;
      assert TilesFirst(first + rest, |first|, t);
      OrderedAppend(first, rest, from, t.start, t.end, |runes|);
    }
  }

  lemma {:induction false} OrderedAppend(a: seq<Token>, b: seq<Token>, from: nat, start: nat, end: nat, to: nat)
    requires from <= start && Contiguous(a, start, end) && Ordered(b, end, to)
    ensures Ordered(a + b, from, to)
  {
    if a == [] {
      assert a + b == b;
      OrderedFrom(b, end, from, to);
    } else {
      assert (a + b)[1..] == a[1..] + b;
      OrderedAppend(a[1..], b, a[0].end, a[0].end, end, to);
    }
  }

  lemma OrderedFrom(ts: seq<Token>, from: nat, earlier: nat, to: nat)
    requires earlier <= from && Ordered(ts, from, to)
    ensures Ordered(ts, earlier, to)
  {
  }

  // ---- the token stream ------------------------------------------------------------

  predicate EndsIn(ts: seq<Token>, to: nat) {
    forall i :: 0 <= i < |ts| ==> ts[i].end <= to && ts[i].kind != Placeholder
  }

  lemma EndsInBoth(a: seq<Token>, b: seq<Token>, to: nat)
    requires EndsIn(a, to) && EndsIn(b, to)
    ensures EndsIn(a + b, to)
  {
  }

  lemma {:induction false} PairTokensEnd(kind: Kind, pairs: seq<Pair>, to: nat)
    requires PairsWithin(pairs, 0, to) && kind != Placeholder
    ensures EndsIn(PairTokens(kind, pairs), to)
  {
    if pairs != [] { PairTokensEnd(kind, pairs[1..], to); }
  }

  lemma {:induction false} CommentTokensEnd(runes: string, comments: seq<Positioned>, to: nat)
    requires AllWithin(comments, 0, to)
    ensures EndsIn(CommentTokens(runes, comments), to)
  {
    if comments != [] {
      CommentTokensEnd(runes, comments[1..], to);
      assert Within(comments[0], 0, to);
    }
  }

  lemma ItemTokensEnd(runes: string, item: Item, to: nat)
    requires ItemWithin(item, 0, to)
    ensures EndsIn(ItemTokens(runes, item), to)
  {
    CommentTokensEnd(runes, item.comments, to);
    PairTokensEnd(HeaderName, item.headers, to);
    var line := Spanned(Verb, item.line.verb) + Spanned(Target, item.line.target) + Spanned(Version, item.line.version);
    var above, headers, body := CommentTokens(runes, item.comments), PairTokens(HeaderName, item.headers), Spanned(Body, item.body);
    assert EndsIn(line, to) && EndsIn(body, to);
    hide EndsIn, ItemWithin, CommentTokens, PairTokens, Spanned;
    EndsInBoth(above, line, to);
    EndsInBoth(above + line, headers, to);
    EndsInBoth(above + line + headers, body, to);
  }

  lemma {:induction false} ItemsTokensEnd(runes: string, items: seq<Item>, to: nat)
    requires forall i :: 0 <= i < |items| ==> ItemWithin(items[i], 0, to)
    ensures EndsIn(ItemsTokens(runes, items), to)
  {
    if items != [] {
      ItemTokensEnd(runes, items[0], to);
      ItemsTokensEnd(runes, items[1..], to);
      hide EndsIn, ItemWithin, ItemTokens;
      EndsInBoth(ItemTokens(runes, items[0]), ItemsTokens(runes, items[1..]), to);
    }
  }

  /** On a context whose only line break is its last character, no span reaches past that break. */
  predicate OneLineContext(ctx: Context, end: nat) {
    |ctx.src| == end + 1 && ctx.off <= end && ctx.src[end] == '\n'
    && forall i :: ctx.off <= i < end ==> ctx.src[i] != '\n'
  }

  lemma ManyStopsAtBreak(p: char -> bool, ctx: Context, end: nat)
    requires OneLineContext(ctx, end) && !p('\n')
    ensures Many(p, ctx).1.off <= end
  {
    assert ctx.Rem()[end - ctx.off] == '\n';
  }

  lemma TextStopsAtBreak(text: string, ctx: Context, end: nat)
    requires OneLineContext(ctx, end) && '\n' !in text
    ensures text <= ctx.Rem() ==> ctx.off + |text| <= end
  {
    assert ctx.Rem()[end - ctx.off] == '\n';
    if end - ctx.off < |text| <= ctx.Left() {
      assert text[end - ctx.off] in text;
    }
  }

  lemma {:induction false} FirstBreak(s: string, n: nat)
    requires n < |s| && s[n] == '\n' && forall i :: 0 <= i < n ==> s[i] != '\n'
    ensures IndexOf(s, "\n") == Some(n)
  {
    if n > 0 { FirstBreak(s[1..], n - 1); }
  }

  lemma CommentStopsAtBreak(prefix: string, ctx: Context, end: nat)
    requires OneLineContext(ctx, end) && '\n' !in prefix
    ensures CommentParser(prefix, ctx).Ok? ==> CommentParser(prefix, ctx).next.off <= end
  {
    TextStopsAtBreak(prefix, ctx, end);
    if prefix <= ctx.Rem() {
      var marker := ctx.Forward(|prefix|);
      assert forall i :: 0 <= i <= end - marker.off ==> marker.Rem()[i] == ctx.src[marker.off + i];
      FirstBreak(marker.Rem(), end - marker.off);
    }
  }

  lemma TargetStopsAtBreak(env: Env, ctx: Context, end: nat)
    requires |ctx.src| == end + 1 && ctx.src[end] == '\n'
    requires forall i :: ctx.off <= i < end ==> ctx.src[i] != '\n'
    ensures TargetParser(env, ctx).Ok? ==> TargetParser(env, ctx).next.off <= end
  {
    if ctx.off <= end {
      ManyStopsAtBreak(IsNoBreak, ctx, end);
    } else {
      assert LineContext(ctx).Rem() == "";
    }
  }

  lemma VersionStopsAtBreak(env: Env, ctx: Context, end: nat)
    requires OneLineContext(ctx, end)
    ensures OptionalVersion(env, ctx).off <= end
  {
    var start := Spaces(env, ctx);
    if start.off <= end {
      TextStopsAtBreak("HTTP/", start, end);
      if "HTTP/" <= start.Rem() {
        var afterName := start.Forward(5);
        ManyStopsAtBreak(IsAsciiDigit, afterName, end);
        var afterMajor := Many(IsAsciiDigit, afterName).1;
        TextStopsAtBreak(".", afterMajor, end);
        if "." <= afterMajor.Rem() {
          ManyStopsAtBreak(IsAsciiDigit, afterMajor.Forward(1), end);
        }
      }
    }
  }

  lemma VariableStopsAtBreak(env: Env, ctx: Context, end: nat)
    requires OneLineContext(ctx, end)
    ensures var r := VariableParser(env, ctx); r.Ok? ==> PairWithin(r.value, ctx.off, end)
  {
    TextStopsAtBreak("@", ctx, end);
    if "@" <= ctx.Rem() {
      var isName := NameRune(env);
      var marker := ctx.Forward(1);
      ManyStopsAtBreak(isName, marker, end);
      var beforeAssign := Spaces(env, Many(isName, marker).1);
      hide Many, SpanOf, Letter, Digit;
      if beforeAssign.off <= end {
        TextStopsAtBreak("=", beforeAssign, end);
        if "=" <= beforeAssign.Rem() {
          ManyStopsAtBreak(IsNoBreakOrReturn, beforeAssign.Forward(1), end);
        }
      }
    }
  }

  lemma RequestStopsAtBreak(env: Env, ctx: Context, end: nat)
    requires OneLineContext(ctx, end)
    ensures var r := RequestLineParser(env, ctx); r.Ok? ==> LineWithin(r.value, ctx.off, end)
  {
    RequestLineAhead(env, ctx);
    hide VerbParser, TargetParser, OptionalVersion, SpanOf;
    if VerbParser(env, ctx).Ok? {
      var afterVerb := VerbParser(env, ctx).next;
      TargetStopsAtBreak(env, afterVerb, end);
      if TargetParser(env, afterVerb).Ok? {
        VersionStopsAtBreak(env, TargetParser(env, afterVerb).next, end);
      }
    }
  }

  lemma {:induction false} ColonAt(s: string)
    ensures IndexOf(s, ":").Some? ==> s[IndexOf(s, ":").value] == ':'
  {
    if s != "" { ColonAt(s[1..]); }
  }

  lemma NamesHaveNoBreak(s: string, k: nat, i: nat)
    requires k < |s| && i <= |s| && s[k] == '\n' && All(s[..i], IsNameChar)
    ensures i <= k
  {
    forall j | 0 <= j < i ensures s[j] != '\n' {
      assert s[..i][j] == s[j];
    }
  }

  lemma NameStopsAtBreak(ctx: Context, end: nat)
    requires OneLineContext(ctx, end)
    ensures UntilText(IsNameChar, ":", true, ctx).Ok? ==> UntilText(IsNameChar, ":", true, ctx).next.off <= end
  {
    ColonAt(ctx.Rem());
    assert ctx.Rem()[end - ctx.off] == '\n';
    hide IndexOf;
    if UntilText(IsNameChar, ":", true, ctx).Ok? {
      NamesHaveNoBreak(ctx.Rem(), end - ctx.off, IndexOf(ctx.Rem(), ":").value);
    }
  }

  lemma OneLineLater(ctx: Context, next: Context, end: nat)
    requires OneLineContext(ctx, end) && Ahead(ctx, next) && next.off <= end
    ensures OneLineContext(next, end)
  {
  }

  lemma HeaderStopsAtBreak(ctx: Context, end: nat)
    requires OneLineContext(ctx, end)
    ensures var r := HeaderParser(ctx); r.Ok? ==> PairWithin(r.value, ctx.off, end)
  {
    HeaderAhead(ctx);
    NameStopsAtBreak(ctx, end);
    hide SpanOf, UntilText, OneLineContext;
    if UntilText(IsNameChar, ":", true, ctx).Ok? {
      assert OneLineContext(UntilText(IsNameChar, ":", true, ctx).next, end) by { OneLineLater(ctx, UntilText(IsNameChar, ":", true, ctx).next, end); }
      hide Many;
      ManyStopsAtBreak(IsNoBreakOrReturn, UntilText(IsNameChar, ":", true, ctx).next, end);
    }
  }

  lemma PairEnds(a: Kind, b: Kind, p: Pair, from: nat, to: nat)
    requires PairWithin(p, from, to) && a != Placeholder && b != Placeholder
    ensures EndsIn([SpanToken(a, p.name), SpanToken(b, p.value)], to)
  {
  }

  lemma LineEnds(line: RequestHead, from: nat, to: nat)
    requires LineWithin(line, from, to)
    ensures EndsIn([SpanToken(Verb, line.verb), SpanToken(Target, line.target), SpanToken(Version, line.version)], to)
  {
  }

  lemma CommentEnds(kind: Kind, prefix: string, ctx: Context, end: nat)
    requires OneLineContext(ctx, end) && '\n' !in prefix && kind != Placeholder
    ensures CommentParser(prefix, ctx).Ok? ==> EndsIn([SpanToken(kind, CommentParser(prefix, ctx).value)], end)
  {
    CommentStopsAtBreak(prefix, ctx, end);
    CommentWithin(prefix, ctx);
  }

  /** The line break added to the line under the lexer is never painted. */
  lemma LexLineEnds(env: Env, runes: string, start: nat, end: nat)
    requires start <= end <= |runes| && forall i :: start <= i < end ==> runes[i] != '\n'
    ensures EndsIn(LexLine(env, runes, start, end), end)
  {
    var ctx: Context := Context(runes[..end] + "\n", start);
    assert OneLineContext(ctx, end);
    hide VariableParser, CommentParser, RequestLineParser, HeaderParser, IsHeaderName, OneLineContext, PairWithin, LineWithin, EndsIn;
    VariableStopsAtBreak(env, ctx, end);
    CommentEnds(Separator, SEPARATOR, ctx, end);
    CommentEnds(Comment, "#", ctx, end);
    RequestStopsAtBreak(env, ctx, end);
    HeaderStopsAtBreak(ctx, end);
    if VariableParser(env, ctx).Ok? { PairEnds(Variable, Value, VariableParser(env, ctx).value, start, end); }
    if RequestLineParser(env, ctx).Ok? { LineEnds(RequestLineParser(env, ctx).value, start, end); }
    if HeaderParser(ctx).Ok? { PairEnds(HeaderName, Value, HeaderParser(ctx).value, start, end); }
    NothingEnds(end);
  }

  lemma NothingEnds(end: nat)
    ensures EndsIn([], end)
  {
  }

  lemma CommentWithin(prefix: string, ctx: Context)
    ensures CommentParser(prefix, ctx).Ok? ==> Within(CommentParser(prefix, ctx).value, ctx.off, CommentParser(prefix, ctx).next.off)
  {
  }

  lemma LineEndHasNoBreak(runes: string, from: nat, to: nat)
    requires from <= to <= |runes|
    ensures forall i :: from <= i < LineEnd(runes, from, to) ==> runes[i] != '\n'
  {
    forall i | from <= i < LineEnd(runes, from, to) ensures runes[i] != '\n' {
      assert runes[i] == runes[from..to][i - from];
    }
  }

  lemma {:induction false} LexUnreadableEnds(env: Env, runes: string, from: nat, to: nat)
    requires to <= |runes|
    ensures EndsIn(LexUnreadable(env, runes, from, to), to)
    decreases if from < to then to - from else 0
  {
    hide LexLine, LineEnd;
    if from < to {
      var end := LineEnd(runes, from, to);
      LineEndHasNoBreak(runes, from, to);
      LexLineEnds(env, runes, from, end);
      LexUnreadableEnds(env, runes, end + 1, to);
    }
  }

  lemma {:induction false} IssuesTokensEnd(env: Env, runes: string, issues: seq<Issue>)
    requires forall i :: 0 <= i < |issues| ==> issues[i].end <= |runes|
    ensures EndsIn(IssuesTokens(env, runes, issues), |runes|)
  {
    if issues != [] {
      LexUnreadableEnds(env, runes, issues[0].start, issues[0].end);
      IssuesTokensEnd(env, runes, issues[1..]);
      hide LexUnreadable;
      EndsInBoth(LexUnreadable(env, runes, issues[0].start, issues[0].end), IssuesTokens(env, runes, issues[1..]), |runes|);
    }
  }

  lemma CollectedEnds(env: Env, runes: string, file: HttpFile)
    requires FileWithin(file, 0, |runes|)
    ensures EndsIn(Collected(env, runes, file), |runes|)
  {
    PairTokensEnd(Variable, file.variables, |runes|);
    ItemsTokensEnd(runes, file.requests, |runes|);
    IssuesTokensEnd(env, runes, file.issues);
    hide PairTokens, ItemsTokens, IssuesTokens, EndsIn;
    EndsInBoth(PairTokens(Variable, file.variables), ItemsTokens(runes, file.requests), |runes|);
    EndsInBoth(PairTokens(Variable, file.variables) + ItemsTokens(runes, file.requests), IssuesTokens(env, runes, file.issues), |runes|);
  }
}
