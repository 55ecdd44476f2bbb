/** The tokens a syntax highlighter paints, and the passes that give every rune one owner. */
module Highlight {
  import opened Text
  import opened HttpGrammar
  import opened HttpBlocks
  import opened HttpScan

  datatype Kind =
    Separator | Comment | Variable | Verb | Target | Version | HeaderName | Value | Body | Placeholder

  /** A half-open stretch of runes. */
  datatype Token = Token(kind: Kind, start: nat, end: nat)

  predicate HostsPlaceholders(kind: Kind) {
    kind == Target || kind == Value || kind == Body
  }

  // ---- collecting ------------------------------------------------------------------

  function SpanToken(kind: Kind, p: Positioned): Token {
    Token(kind, p.start, p.end)
  }

  /** A span that covers nothing leaves no token. */
  function Spanned(kind: Kind, p: Positioned): seq<Token> {
    if p.end <= p.start then [] else [SpanToken(kind, p)]
  }

  function PairTokens(nameKind: Kind, pairs: seq<Pair>): seq<Token> {
    if pairs == [] then []
    else Spanned(nameKind, pairs[0].name) + Spanned(Value, pairs[0].value) + PairTokens(nameKind, pairs[1..])
  }

  function CommentKind(runes: string, comment: Positioned): Kind {
    if comment.start + 3 <= |runes| && runes[comment.start..comment.start + 3] == SEPARATOR then Separator else Comment
  }

  function CommentTokens(runes: string, comments: seq<Positioned>): seq<Token> {
    if comments == [] then []
    else Spanned(CommentKind(runes, comments[0]), comments[0]) + CommentTokens(runes, comments[1..])
  }

  function ItemTokens(runes: string, item: Item): seq<Token> {
    CommentTokens(runes, item.comments)
    + (Spanned(Verb, item.line.verb) + Spanned(Target, item.line.target) + Spanned(Version, item.line.version))
    + PairTokens(HeaderName, item.headers)
    + Spanned(Body, item.body)
  }

  function ItemsTokens(runes: string, items: seq<Item>): seq<Token> {
    if items == [] then [] else ItemTokens(runes, items[0]) + ItemsTokens(runes, items[1..])
  }

  predicate IsHeaderName(env: Env, name: string) {
    name != "" && All(name, c => Letter(env, c) || Digit(env, c) || c == '-' || c == '_')
  }

  /** One line of an unreadable block, with the line break the file may not have, offered to each parser in turn. */
  function LexLine(env: Env, runes: string, start: nat, end: nat): seq<Token>
    requires start <= end <= |runes|
  {
    var ctx: Context := Context(runes[..end] + "\n", start);
    match VariableParser(env, ctx)
    case Ok(v, _) => [SpanToken(Variable, v.name), SpanToken(Value, v.value)]
    case Fail =>
      match CommentParser(SEPARATOR, ctx)
      case Ok(c, _) => [SpanToken(Separator, c)]
      case Fail =>
        match CommentParser("#", ctx)
        case Ok(c, _) => [SpanToken(Comment, c)]
        case Fail =>
          match RequestLineParser(env, ctx)
          case Ok(r, _) => [SpanToken(Verb, r.verb), SpanToken(Target, r.target), SpanToken(Version, r.version)]
          case Fail =>
            match HeaderParser(ctx)
            case Ok(h, _) =>
              if IsHeaderName(env, h.name.text) then [SpanToken(HeaderName, h.name), SpanToken(Value, h.value)] else []
            case Fail => []
  }

  function LineEnd(runes: string, start: nat, to: nat): (end: nat)
    requires start <= to <= |runes|
    ensures start <= end <= to
  {
    start + Run(runes[start..to], IsNoBreak)
  }

  function LexUnreadable(env: Env, runes: string, from: nat, to: nat): seq<Token>
    requires to <= |runes|
    decreases if from < to then to - from else 0
  {
    if from >= to then []
    else
      var end := LineEnd(runes, from, to);
      LexLine(env, runes, from, end) + LexUnreadable(env, runes, end + 1, to)
  }

  method FindLineEnd(runes: string, start: nat, to: nat) returns (end: nat)
    requires start <= to <= |runes|
    ensures end == LineEnd(runes, start, to)
  {
    end := start;
    while end < to && runes[end] != '\n'
      invariant start <= end <= to
      invariant forall i :: start <= i < end ==> runes[i] != '\n'
    {
      end := end + 1;
    }
    RunIs(runes[start..to], IsNoBreak, end - start);
  }

  method LexUnreadableBlock(env: Env, runes: string, from: nat, to: nat) returns (tokens: seq<Token>)
    requires to <= |runes|
    ensures tokens == LexUnreadable(env, runes, from, to)
  {
    tokens := [];
    var start := from;
    hide LexLine, LineEnd;
    while start < to
      invariant tokens + LexUnreadable(env, runes, start, to) == LexUnreadable(env, runes, from, to)
      decreases if start < to then to - start else 0
    {
      var end := FindLineEnd(runes, start, to);
      tokens := tokens + LexLine(env, runes, start, end);
      start := end + 1;
    }
  }

  function IssuesTokens(env: Env, runes: string, issues: seq<Issue>): seq<Token>
    requires forall i :: 0 <= i < |issues| ==> issues[i].end <= |runes|
  {
    if issues == [] then []
    else LexUnreadable(env, runes, issues[0].start, issues[0].end) + IssuesTokens(env, runes, issues[1..])
  }

  function Collected(env: Env, runes: string, file: HttpFile): seq<Token>
    requires FileWithin(file, 0, |runes|)
  {
    PairTokens(Variable, file.variables) + ItemsTokens(runes, file.requests) + IssuesTokens(env, runes, file.issues)
  }

  // ---- sorting by start, ties in order -------------------------------------------------

  function Insert(t: Token, ts: seq<Token>): seq<Token> {
    if ts == [] || t.start <= ts[0].start then [t] + ts else [ts[0]] + Insert(t, ts[1..])
  }

  /** sort.SliceStable by start. */
  function Sorted(ts: seq<Token>): seq<Token> {
    if ts == [] then [] else Insert(ts[0], Sorted(ts[1..]))
  }

  predicate Ascending(ts: seq<Token>) {
    forall i, j :: 0 <= i < j < |ts| ==> ts[i].start <= ts[j].start
  }

  lemma ConsAscends(t: Token, ts: seq<Token>)
    requires Ascending(ts) && forall i :: 0 <= i < |ts| ==> t.start <= ts[i].start
    ensures Ascending([t] + ts)
  {
  }

  lemma TailAscends(ts: seq<Token>)
    requires Ascending(ts) && ts != []
    ensures Ascending(ts[1..]) && ts == [ts[0]] + ts[1..]
  {
  }

  lemma {:induction false} InsertKeeps(t: Token, ts: seq<Token>)
    requires Ascending(ts)
    ensures Ascending(Insert(t, ts)) && multiset(Insert(t, ts)) == multiset(ts) + multiset{t}
  {
    if ts == [] || t.start <= ts[0].start {
      ConsAscends(t, ts);
    } else {
      var head, tail, rest := ts[0], ts[1..], Insert(t, ts[1..]);
      TailAscends(ts);
      InsertKeeps(t, tail);
      AllAfter(head, tail, t, rest);
      assert Insert(t, ts) == [head] + rest;
      hide *;
      ConsAscends(head, rest);
    }
  }

  lemma AllAfter(head: Token, tail: seq<Token>, t: Token, rest: seq<Token>)
    requires Ascending([head] + tail) && head.start <= t.start && multiset(rest) == multiset(tail) + multiset{t}
    ensures forall i :: 0 <= i < |rest| ==> head.start <= rest[i].start
  {
    forall i | 0 <= i < |rest| ensures head.start <= rest[i].start {
      assert rest[i] in multiset(rest);
      if rest[i] != t {
        var j :| 0 <= j < |tail| && tail[j] == rest[i];
        assert ([head] + tail)[0] == head && ([head] + tail)[j + 1] == tail[j];
      }
    }
  }

  lemma {:induction false} SortedKeeps(ts: seq<Token>)
    ensures Ascending(Sorted(ts)) && multiset(Sorted(ts)) == multiset(ts)
  {
    if ts != [] {
      SortedKeeps(ts[1..]);
      InsertKeeps(ts[0], Sorted(ts[1..]));
      assert ts == [ts[0]] + ts[1..];
    }
  }

  /** The tokens that start at a place, in order. */
  function StartingAt(ts: seq<Token>, start: nat): seq<Token> {
    if ts == [] then [] else (if ts[0].start == start then [ts[0]] else []) + StartingAt(ts[1..], start)
  }

  lemma StartingCons(t: Token, ts: seq<Token>, start: nat)
    ensures StartingAt([t] + ts, start) == (if t.start == start then [t] else []) + StartingAt(ts, start)
  {
    assert ([t] + ts)[1..] == ts;
  }

  lemma {:induction false} InsertIsStable(t: Token, ts: seq<Token>, start: nat)
    ensures StartingAt(Insert(t, ts), start) == (if t.start == start then [t] else []) + StartingAt(ts, start)
  {
    if ts == [] || t.start <= ts[0].start {
      StartingCons(t, ts, start);
    } else {
      var head, tail := ts[0], ts[1..];
      InsertIsStable(t, tail, start);
      StartingCons(head, Insert(t, tail), start);
      NoMore(StartingAt(tail, start));
      NoMore(StartingAt(Insert(t, tail), start));
    }
  }

  /** Tokens with the same start keep their order. */
  lemma {:induction false} SortedIsStable(ts: seq<Token>, start: nat)
    ensures StartingAt(Sorted(ts), start) == StartingAt(ts, start)
  {
    if ts != [] {
      SortedIsStable(ts[1..], start);
      InsertIsStable(ts[0], Sorted(ts[1..]), start);
    }
  }

  // ---- one owner per rune ---------------------------------------------------------------

  predicate Dropped(t: Token, end: nat) {
    t.start < end || t.end <= t.start
  }

  /** The tokens that start at or after the end of the last one kept, and cover something. */
  function Owners(ts: seq<Token>, end: nat): seq<Token> {
    if ts == [] then []
    else if Dropped(ts[0], end) then Owners(ts[1..], end)
    else [ts[0]] + Owners(ts[1..], ts[0].end)
  }

  /** How many of the first tokens are kept, and where the last of them ends. */
  function Reached(ts: seq<Token>, end: nat): nat {
    if ts == [] then end else Reached(ts[1..], if Dropped(ts[0], end) then end else ts[0].end)
  }

  lemma {:induction false} OwnersSnoc(ts: seq<Token>, end: nat, t: Token)
    ensures Owners(ts + [t], end) == Owners(ts, end) + if Dropped(t, Reached(ts, end)) then [] else [t]
    ensures Reached(ts + [t], end) == if Dropped(t, Reached(ts, end)) then Reached(ts, end) else t.end
  {
    if ts == [] {
    } else {
      assert (ts + [t])[1..] == ts[1..] + [t];
      OwnersSnoc(ts[1..], if Dropped(ts[0], end) then end else ts[0].end, t);
    }
  }

  lemma {:induction false} OwnersFit(ts: seq<Token>, end: nat)
    ensures |Owners(ts, end)| <= |ts|
  {
    if ts != [] { OwnersFit(ts[1..], if Dropped(ts[0], end) then end else ts[0].end); }
  }

  /** Compacts the tokens in the array they came in. */
  method DropOverlaps(a: array<Token>) returns (kept: nat)
    modifies a
    ensures kept <= a.Length
    ensures a[..kept] == Owners(old(a[..]), 0)
  {
    kept := 0;
    var end := 0;
    ghost var all := a[..];
    for i := 0 to a.Length
      invariant kept <= i
      invariant a[..kept] == Owners(all[..i], 0) && end == Reached(all[..i], 0)
      invariant a[i..] == all[i..]
    {
      var token := a[i];
      assert token == all[i] && all[..i + 1] == all[..i] + [token];
      assert a[i + 1..] == all[i + 1..] by { assert a[i..][1..] == a[i + 1..] && all[i..][1..] == all[i + 1..]; }
      hide Owners, Reached;
      OwnersSnoc(all[..i], 0, token);
      if token.start < end || token.end <= token.start {
        continue;
      }
      ghost var before := a[..kept];
      a[kept] := token;
      assert a[..kept] == before && a[..kept + 1] == before + [token];
      kept := kept + 1;
      end := token.end;
    }
    assert all[..a.Length] == all;
  }

  /** In order, apart from each other, none empty, all inside `from..to`. */
  predicate Ordered(ts: seq<Token>, from: nat, to: nat) {
    if ts == [] then from <= to
    else from <= ts[0].start < ts[0].end && Ordered(ts[1..], ts[0].end, to)
  }

  lemma {:induction false} OwnersAreOrdered(ts: seq<Token>, end: nat, to: nat)
    requires end <= to && forall i :: 0 <= i < |ts| ==> ts[i].end <= to
    ensures Ordered(Owners(ts, end), end, to)
  {
    if ts == [] {
    } else if Dropped(ts[0], end) {
      OwnersAreOrdered(ts[1..], end, to);
    } else {
      OwnersAreOrdered(ts[1..], ts[0].end, to);
      assert Owners(ts, end)[1..] == Owners(ts[1..], ts[0].end);
    }
  }

  predicate Overlap(a: Token, b: Token) {
    a.start < b.end && b.start < a.end
  }

  /** From sorted tokens, the ones left out were empty or overlapped one that is kept. */
  lemma {:induction false} DroppedOverlapOwner(ts: seq<Token>, end: nat, last: Token)
    requires Ascending(ts)
    requires last.end == end && last.start < last.end && forall i :: 0 <= i < |ts| ==> last.start <= ts[i].start
    ensures forall i :: 0 <= i < |ts| ==>
      ts[i] in Owners(ts, end) || ts[i].end <= ts[i].start || Overlap(ts[i], last)
      || exists k :: k in Owners(ts, end) && Overlap(ts[i], k)
  {
    if ts != [] {
      var t, rest := ts[0], ts[1..];
      var next := if Dropped(t, end) then last else t;
      DroppedOverlapOwner(rest, next.end, next);
      forall i | 0 <= i < |ts| ensures
        ts[i] in Owners(ts, end) || ts[i].end <= ts[i].start || Overlap(ts[i], last)
        || exists k :: k in Owners(ts, end) && Overlap(ts[i], k)
      {
        if i > 0 {
          assert ts[i] == rest[i - 1];
          assert forall k :: k in Owners(rest, next.end) ==> k in Owners(ts, end);
        }
      }
    }
  }
}
