/** The token stream and the markup made of it: stripped and unescaped, the markup is the source again. */
module HighlightRender {
  import opened Text
  import opened HttpGrammar
  import opened HttpBlocks
  import opened HttpScan
  import opened Highlight
  import opened HighlightHtml
  import opened HttpEnds

  // ---- the token stream ----------------------------------------------------------

  /** The tokens of a source once it is parsed. */
  function TokensOf(env: Env, runes: string, file: HttpFile): seq<Token>
    requires FileWithin(file, 0, |runes|)
  {
    StreamFits(env, runes, file);
    Split(runes, OwnersOf(env, runes, file))
  }

  function OwnersOf(env: Env, runes: string, file: HttpFile): seq<Token>
    requires FileWithin(file, 0, |runes|)
  {
    Owners(Sorted(Collected(env, runes, file)), 0)
  }

  lemma {:induction false} OwnersEnd(ts: seq<Token>, end: nat, to: nat)
    requires EndsIn(ts, to)
    ensures EndsIn(Owners(ts, end), to)
  {
    if ts != [] {
      OwnersEnd(ts[1..], if Dropped(ts[0], end) then end else ts[0].end, to);
      assert EndsIn([ts[0]], to);
    }
  }

  lemma SortedEnd(ts: seq<Token>, to: nat)
    requires EndsIn(ts, to)
    ensures EndsIn(Sorted(ts), to)
  {
    SortedKeeps(ts);
    forall i | 0 <= i < |Sorted(ts)| ensures Sorted(ts)[i].end <= to && Sorted(ts)[i].kind != Placeholder {
      assert Sorted(ts)[i] in multiset(ts);
    }
  }

  lemma StreamFits(env: Env, runes: string, file: HttpFile)
    requires FileWithin(file, 0, |runes|)
    ensures EndsIn(OwnersOf(env, runes, file), |runes|)
  {
    CollectedEnds(env, runes, file);
    hide Collected, Owners, Sorted, EndsIn;
    SortedEnd(Collected(env, runes, file), |runes|);
    OwnersEnd(Sorted(Collected(env, runes, file)), 0, |runes|);
  }

  /** The painted tokens: in order, apart, non-empty, inside the source, tiling the tokens kept, their placeholders braced. */
  lemma TokensAreOrdered(env: Env, runes: string, file: HttpFile)
    requires FileWithin(file, 0, |runes|)
    ensures Ordered(TokensOf(env, runes, file), 0, |runes|)
    ensures Tiles(TokensOf(env, runes, file), OwnersOf(env, runes, file))
    ensures forall i :: 0 <= i < |TokensOf(env, runes, file)| ==> WellBraced(runes, TokensOf(env, runes, file)[i])
  {
    StreamFits(env, runes, file);
    CollectedEnds(env, runes, file);
    SortedEnd(Collected(env, runes, file), |runes|);
    hide Collected, Sorted, Owners, Split, Ordered, Tiles, WellBraced;
    OwnersAreOrdered(Sorted(Collected(env, runes, file)), 0, |runes|);
    SplitTiles(runes, OwnersOf(env, runes, file), 0);
  }

  /** Every token read from the source is painted, covers nothing, or shares a rune with one that is painted. */
  lemma DroppedForAReason(env: Env, runes: string, file: HttpFile, t: Token)
    requires FileWithin(file, 0, |runes|) && t in Collected(env, runes, file)
    ensures t in OwnersOf(env, runes, file) || t.end <= t.start || exists k :: k in OwnersOf(env, runes, file) && Overlap(t, k)
  {
    var all := Collected(env, runes, file);
    SortedKeeps(all);
    hide Collected;
    assert t in multiset(Sorted(all));
    FirstOwner(Sorted(all), t);
  }

  lemma {:induction false} FirstOwner(ts: seq<Token>, t: Token)
    requires Ascending(ts) && t in ts
    ensures t in Owners(ts, 0) || t.end <= t.start || exists k :: k in Owners(ts, 0) && Overlap(t, k)
  {
    var first, rest := ts[0], ts[1..];
    if Dropped(first, 0) {
      if t != first { FirstOwner(rest, t); }
    } else {
      DroppedOverlapOwner(rest, first.end, first);
      assert forall k :: k in Owners(rest, first.end) ==> k in Owners(ts, 0);
      assert first in Owners(ts, 0);
    }
  }

  // ---- the loops that collect --------------------------------------------------------

  method AppendSpan(tokens: seq<Token>, kind: Kind, p: Positioned) returns (all: seq<Token>)
    ensures all == tokens + Spanned(kind, p)
  {
    if p.end <= p.start {
      return tokens;
    }
    all := tokens + [SpanToken(kind, p)];
  }

  lemma PairTokensSnoc(kind: Kind, pairs: seq<Pair>, i: nat)
    requires i < |pairs|
    ensures PairTokens(kind, pairs[i..]) == Spanned(kind, pairs[i].name) + Spanned(Value, pairs[i].value) + PairTokens(kind, pairs[i + 1..])
  {
    assert pairs[i..][1..] == pairs[i + 1..];
  }

  lemma PairsMove(tokens: seq<Token>, kind: Kind, pairs: seq<Pair>, i: nat)
    requires i < |pairs|
    ensures tokens + PairTokens(kind, pairs[i..])
         == tokens + Spanned(kind, pairs[i].name) + Spanned(Value, pairs[i].value) + PairTokens(kind, pairs[i + 1..])
  {
    PairTokensSnoc(kind, pairs, i);
    var name, value, rest := Spanned(kind, pairs[i].name), Spanned(Value, pairs[i].value), PairTokens(kind, pairs[i + 1..]);
    hide PairTokens, Spanned;
    Assoc(name, value, rest);
    Assoc(tokens, name, value + rest);
    Assoc(tokens + name, value, rest);
  }

  lemma NoPairTokens(kind: Kind, pairs: seq<Pair>)
    ensures PairTokens(kind, pairs[|pairs|..]) == [] && pairs[0..] == pairs
  {
  }

  method CollectPairs(tokens: seq<Token>, kind: Kind, pairs: seq<Pair>) returns (all: seq<Token>)
    ensures all == tokens + PairTokens(kind, pairs)
  {
    all := tokens;
    var i := 0;
    NoPairTokens(kind, pairs);
    hide *;
    while i < |pairs|
      invariant 0 <= i <= |pairs|
      invariant all + PairTokens(kind, pairs[i..]) == tokens + PairTokens(kind, pairs)
    {
      PairsMove(all, kind, pairs, i);
      all := AppendSpan(all, kind, pairs[i].name);
      all := AppendSpan(all, Value, pairs[i].value);
      i := i + 1;
    }
  }

  lemma CommentTokensSnoc(runes: string, cs: seq<Positioned>, i: nat)
    requires i < |cs|
    ensures CommentTokens(runes, cs[i..]) == Spanned(CommentKind(runes, cs[i]), cs[i]) + CommentTokens(runes, cs[i + 1..])
  {
    assert cs[i..][1..] == cs[i + 1..];
  }

  method CollectComments(tokens: seq<Token>, runes: string, comments: seq<Positioned>) returns (all: seq<Token>)
    ensures all == tokens + CommentTokens(runes, comments)
  {
    all := tokens;
    var i := 0;
    assert comments[0..] == comments && comments[|comments|..] == [];
    assert CommentTokens(runes, []) == [];
    hide *;
    while i < |comments|
      invariant 0 <= i <= |comments|
      invariant all + CommentTokens(runes, comments[i..]) == tokens + CommentTokens(runes, comments)
    {
      CommentTokensSnoc(runes, comments, i);
      var kind := CommentKind(runes, comments[i]);
      Assoc(all, Spanned(kind, comments[i]), CommentTokens(runes, comments[i + 1..]));
      all := AppendSpan(all, kind, comments[i]);
      i := i + 1;
    }
  }

  method CollectItem(tokens: seq<Token>, runes: string, item: Item) returns (all: seq<Token>)
    ensures all == tokens + ItemTokens(runes, item)
  {
    ghost var line := item.line;
    ghost var above, verb, target, version, headers, body := CommentTokens(runes, item.comments), Spanned(Verb, line.verb),
      Spanned(Target, line.target), Spanned(Version, line.version), PairTokens(HeaderName, item.headers), Spanned(Body, item.body);
    assert ItemTokens(runes, item) == above + (verb + target + version) + headers + body;
    hide *;
    all := CollectComments(tokens, runes, item.comments);
    Assoc(tokens, above, verb + target + version);
    Assoc(tokens + above, verb + target, version);
    Assoc(tokens + above, verb, target);
    all := AppendSpan(all, Verb, item.line.verb);
    all := AppendSpan(all, Target, item.line.target);
    all := AppendSpan(all, Version, item.line.version);
    assert all == tokens + (above + (verb + target + version));
    Assoc(tokens, above + (verb + target + version), headers);
    all := CollectPairs(all, HeaderName, item.headers);
    Assoc(tokens, above + (verb + target + version) + headers, body);
    all := AppendSpan(all, Body, item.body);
  }

  lemma ItemsTokensSnoc(runes: string, items: seq<Item>, i: nat)
    requires i < |items|
    ensures ItemsTokens(runes, items[i..]) == ItemTokens(runes, items[i]) + ItemsTokens(runes, items[i + 1..])
  {
    assert items[i..][1..] == items[i + 1..];
  }

  lemma IssuesTokensSnoc(env: Env, runes: string, issues: seq<Issue>, i: nat)
    requires i < |issues| && forall j :: 0 <= j < |issues| ==> issues[j].end <= |runes|
    ensures IssuesTokens(env, runes, issues[i..]) == LexUnreadable(env, runes, issues[i].start, issues[i].end) + IssuesTokens(env, runes, issues[i + 1..])
  {
    assert issues[i..][1..] == issues[i + 1..];
  }

  lemma NothingCollected(runes: string, items: seq<Item>)
    ensures ItemsTokens(runes, items[|items|..]) == [] && items[0..] == items
  {
  }

  method CollectItems(tokens: seq<Token>, runes: string, items: seq<Item>) returns (all: seq<Token>)
    ensures all == tokens + ItemsTokens(runes, items)
  {
    all := tokens;
    var i := 0;
    NothingCollected(runes, items);
    hide *;
    while i < |items|
      invariant 0 <= i <= |items|
      invariant all + ItemsTokens(runes, items[i..]) == tokens + ItemsTokens(runes, items)
    {
      ItemsTokensSnoc(runes, items, i);
      all := CollectItem(all, runes, items[i]);
      i := i + 1;
    }
  }

  method CollectIssues(env: Env, tokens: seq<Token>, runes: string, issues: seq<Issue>) returns (all: seq<Token>)
    requires forall i :: 0 <= i < |issues| ==> issues[i].end <= |runes|
    ensures all == tokens + IssuesTokens(env, runes, issues)
  {
    all := tokens;
    var i := 0;
    assert issues[0..] == issues && IssuesTokens(env, runes, issues[|issues|..]) == [];
    hide *;
    while i < |issues|
      invariant 0 <= i <= |issues|
      invariant all + IssuesTokens(env, runes, issues[i..]) == tokens + IssuesTokens(env, runes, issues)
    {
      IssuesTokensSnoc(env, runes, issues, i);
      var unreadable := LexUnreadableBlock(env, runes, issues[i].start, issues[i].end);
      all := all + unreadable;
      i := i + 1;
    }
  }

  method Collect(env: Env, runes: string, file: HttpFile) returns (tokens: seq<Token>)
    requires FileWithin(file, 0, |runes|)
    ensures tokens == Collected(env, runes, file)
  {
    hide ItemsTokens, PairTokens, IssuesTokens, ItemWithin, PairsWithin;
    tokens := CollectPairs([], Variable, file.variables);
    tokens := CollectItems(tokens, runes, file.requests);
    tokens := CollectIssues(env, tokens, runes, file.issues);
  }

  /** None when the parse never returns. */
  method Tokenize(env: Env, source: string) returns (r: Option<seq<Token>>)
    ensures r == PaintOf(env, source)
  {
    var parsed := ParseHttpFile(env, source);
    SpansInSource(env, source);
    hide FileOf, FileWithin, Split, Owners, Sorted, Collected;
    if parsed.None? {
      return None;
    }
    var file := parsed.value;
    var tokens := Collect(env, source, file);
    var sorted := Sorted(tokens);
    var a := new Token[|sorted|](i requires 0 <= i < |sorted| => sorted[i]);
    assert a[..] == sorted;
    var kept := DropOverlaps(a);
    StreamFits(env, source, file);
    var out := SplitPlaceholders(source, a[..kept]);
    r := Some(out);
  }

  /** The source parses, to tokens a renderer can follow. */
  predicate Paints(env: Env, source: string) {
    PaintOf(env, source).Some? && Ordered(PaintOf(env, source).value, 0, |source|)
  }

  lemma PaintedIsParsed(env: Env, source: string)
    ensures PaintOf(env, source).Some? <==> FileOf(env, source).Some?
  {
    hide FileOf, TokensOf;
  }

  lemma PaintsWhatParses(env: Env, source: string)
    ensures FileOf(env, source).Some? <==> Paints(env, source)
  {
    SpansInSource(env, source);
    if FileOf(env, source).Some? { TokensAreOrdered(env, source, FileOf(env, source).value); }
    hide TokensOf, FileOf, FileWithin;
  }

  function PaintOf(env: Env, source: string): Option<seq<Token>> {
    SpansInSource(env, source);
    match FileOf(env, source)
    case None => None
    case Some(file) => Some(TokensOf(env, source, file))
  }

  // ---- markup ------------------------------------------------------------------------

  function EscapeChar(c: char): string {
    if c == '&' then "&amp;" else if c == '<' then "&lt;" else if c == '>' then "&gt;" else [c]
  }

  function Escape(s: string): string {
    if s == "" then "" else EscapeChar(s[0]) + Escape(s[1..])
  }

  lemma {:induction false} EscapeConcat(a: string, b: string)
    ensures Escape(a + b) == Escape(a) + Escape(b)
  {
    if a == "" {
      assert a + b == b;
    } else {
      assert (a + b)[1..] == a[1..] + b;
      EscapeConcat(a[1..], b);
    }
  }

  lemma EscapeOne(c: char)
    ensures Escape([c]) == EscapeChar(c)
  {
    assert EscapeChar(c) + "" == EscapeChar(c);
  }

  lemma EscapedEnds(s: string)
    ensures Escape(s[..0]) == "" && s[..|s|] == s
  {
  }

  lemma EscapedMore(out: string, s: string, i: nat)
    requires i < |s|
    ensures out + Escape(s[..i + 1]) == out + Escape(s[..i]) + EscapeChar(s[i])
  {
    assert s[..i + 1] == s[..i] + [s[i]];
    hide Escape, EscapeChar;
    EscapeConcat(s[..i], [s[i]]);
    EscapeOne(s[i]);
    Assoc(out, Escape(s[..i]), EscapeChar(s[i]));
  }

  method WriteEscaped(out: string, s: string) returns (all: string)
    ensures all == out + Escape(s)
  {
    all := out;
    EscapedEnds(s);
    NoMore(out);
    hide Escape;
    for i := 0 to |s|
      invariant all == out + Escape(s[..i])
    {
      EscapedMore(out, s, i);
      if s[i] == '&' {
        all := all + "&amp;";
      } else if s[i] == '<' {
        all := all + "&lt;";
      } else if s[i] == '>' {
        all := all + "&gt;";
      } else {
        all := all + [s[i]];
      }
    }
  }

  /** The class suffix of a kind. */
  function KindName(kind: Kind): string {
    match kind
    case Separator => "separator"
    case Comment => "comment"
    case Variable => "variable"
    case Verb => "method"
    case Target => "target"
    case Version => "version"
    case HeaderName => "header"
    case Value => "value"
    case Body => "body"
    case Placeholder => "placeholder"
  }

  function OpenTag(kind: Kind): string {
    "<span class=\"hl-" + KindName(kind) + "\">"
  }

  const CLOSE_TAG: string := "</span>"

  /** The markup of everything from `cursor` on, closed by the line break a <pre> swallows. */
  function Render(runes: string, ts: seq<Token>, cursor: nat): string
    requires Ordered(ts, cursor, |runes|)
  {
    if ts == [] then Escape(runes[cursor..]) + "\n"
    else
      OrderedEnds(ts, cursor, |runes|);
      Marked(runes, ts[0], cursor) + Render(runes, ts[1..], ts[0].end)
  }

  lemma {:induction false} OrderedEnds(ts: seq<Token>, from: nat, to: nat)
    requires Ordered(ts, from, to)
    ensures from <= to && forall i :: 0 <= i < |ts| ==> ts[i].end <= to
  {
    if ts != [] {
      OrderedEnds(ts[1..], ts[0].end, to);
    }
  }

  /** The text before a token, then the token inside its tags. */
  function Marked(runes: string, t: Token, cursor: nat): string
    requires cursor <= t.start <= t.end <= |runes|
  {
    Escape(runes[cursor..t.start]) + (OpenTag(t.kind) + (Escape(runes[t.start..t.end]) + CLOSE_TAG))
  }

  method WriteToken(before: string, runes: string, t: Token, cursor: nat) returns (out: string)
    requires cursor <= t.start <= t.end <= |runes|
    ensures out == before + Marked(runes, t, cursor)
  {
    assert Escape("") == "" && before + "" == before;
    ghost var gap, open, mark := Escape(runes[cursor..t.start]), OpenTag(t.kind), Escape(runes[t.start..t.end]);
    assert Marked(runes, t, cursor) == gap + (open + (mark + CLOSE_TAG));
    assert t.start <= cursor ==> runes[cursor..t.start] == "";
    hide *;
    out := before;
    if t.start > cursor {
      out := WriteEscaped(out, runes[cursor..t.start]);
    }
    assert out == before + gap;
    out := out + OpenTag(t.kind);
    out := WriteEscaped(out, runes[t.start..t.end]);
    out := out + CLOSE_TAG;
    Assoc(before + gap + open, mark, CLOSE_TAG);
    Assoc(before + gap, open, mark + CLOSE_TAG);
    Assoc(before, gap, open + (mark + CLOSE_TAG));
  }

  method HighlightHTML(env: Env, source: string) returns (html: Option<string>)
    ensures html.None? <==> FileOf(env, source).None?
    ensures html.Some? ==> Paints(env, source) && html.value == Render(source, PaintOf(env, source).value, 0)
  {
    PaintsWhatParses(env, source);
    hide PaintOf, FileOf;
    assert PaintOf(env, source).Some? ==> FileOf(env, source).Some? by { PaintedIsParsed(env, source); }
    var painted := Tokenize(env, source);
    if painted.None? {
      return None;
    }
    var out := WriteTokens(source, painted.value);
    html := Some(out);
  }

  method WriteTokens(runes: string, ts: seq<Token>) returns (out: string)
    requires Ordered(ts, 0, |runes|)
    ensures out == Render(runes, ts, 0)
  {
    out := "";
    var cursor: nat := 0;
    var i := 0;
    assert ts[0..] == ts;
    hide *;
    while i < |ts|
      invariant 0 <= i <= |ts| && Ordered(ts[i..], cursor, |runes|)
      invariant out + Render(runes, ts[i..], cursor) == Render(runes, ts, 0)
    {
      var token := ts[i];
      RenderStep(runes, ts, i, cursor);
      Assoc(out, Marked(runes, token, cursor), Render(runes, ts[i + 1..], token.end));
      out := WriteToken(out, runes, token, cursor);
      cursor := token.end;
      i := i + 1;
    }
    OrderedEnds(ts[i..], cursor, |runes|);
    RenderEnd(runes, cursor);
    assert ts[i..] == [];
    Assoc(out, Escape(runes[cursor..]), "\n");
    out := WriteEscaped(out, runes[cursor..]);
    out := out + "\n";
  }

  lemma RenderStep(runes: string, ts: seq<Token>, i: nat, cursor: nat)
    requires i < |ts| && Ordered(ts[i..], cursor, |runes|)
    ensures cursor <= ts[i].start < ts[i].end <= |runes| && Ordered(ts[i + 1..], ts[i].end, |runes|)
    ensures Render(runes, ts[i..], cursor) == Marked(runes, ts[i], cursor) + Render(runes, ts[i + 1..], ts[i].end)
  {
    OrderedEnds(ts[i..], cursor, |runes|);
    assert ts[i..][1..] == ts[i + 1..];
    hide Marked;
  }

  lemma RenderEnd(runes: string, cursor: nat)
    requires cursor <= |runes|
    ensures Render(runes, [], cursor) == Escape(runes[cursor..]) + "\n"
  {
  }

  // ---- reading the markup back -----------------------------------------------------------

  predicate IsNoClose(c: char) {
    c != '>'
  }

  /** The length of a tag `</?span[^>]*>` at the start of a text, 0 when there is none. */
  function TagLength(s: string): (n: nat)
    ensures n <= |s|
  {
    var name := if "</span" <= s then 6 else if "<span" <= s then 5 else 0;
    var n := name + Run(s[name..], IsNoClose);
    if name > 0 && n < |s| then n + 1 else 0
  }

  function Strip(s: string): string {
    if s == "" then ""
    else if TagLength(s) > 0 then Strip(s[TagLength(s)..])
    else [s[0]] + Strip(s[1..])
  }

  /** Every entity of the three back to its character, left to right. */
  function Unescape(s: string): string {
    if s == "" then ""
    else if "&lt;" <= s then "<" + Unescape(s[4..])
    else if "&gt;" <= s then ">" + Unescape(s[4..])
    else if "&amp;" <= s then "&" + Unescape(s[5..])
    else [s[0]] + Unescape(s[1..])
  }

  lemma StripChar(c: char, b: string)
    requires c != '<'
    ensures Strip([c] + b) == [c] + Strip(b)
  {
    assert ([c] + b)[0] == c && ([c] + b)[1..] == b;
    assert TagLength([c] + b) == 0;
    hide TagLength;
  }

  lemma {:induction false} StripText(a: string, b: string)
    requires '<' !in a
    ensures Strip(a + b) == a + Strip(b)
  {
    hide *;
    if a == "" {
      assert a + b == b && a + Strip(b) == Strip(b);
    } else {
      StripText(a[1..], b);
      HeadTail(a);
      StripChar(a[0], a[1..] + b);
      Assoc([a[0]], a[1..], b);
      Assoc([a[0]], a[1..], Strip(b));
    }
  }

  lemma {:induction false} EscapedHasNoTag(s: string)
    ensures '<' !in Escape(s)
  {
    if s != "" { EscapedHasNoTag(s[1..]); }
  }

  /** A tag with no `>` before its last character. */
  lemma StripTag(name: string, inner: string, b: string)
    requires '>' !in inner && (name == "<span" || name == "</span")
    ensures Strip(name + (inner + (">" + b))) == Strip(b)
  {
    var s := name + (inner + (">" + b));
    TagIs(name, inner, b);
    assert s[TagLength(s)..] == b;
    hide TagLength;
  }

  lemma TagIs(name: string, inner: string, b: string)
    requires '>' !in inner && (name == "<span" || name == "</span")
    ensures TagLength(name + (inner + (">" + b))) == |name| + |inner| + 1
  {
    var tail := inner + (">" + b);
    var s := name + tail;
    assert s[..|name|] == name && s[|name|..] == tail;
    assert s[1] == name[1];
    RunOfConcat(inner, ">" + b, IsNoClose);
  }

  lemma KindNameIsPlain(kind: Kind)
    ensures '>' !in KindName(kind)
  {
  }

  lemma StripOpen(kind: Kind, b: string)
    ensures Strip(OpenTag(kind) + b) == Strip(b)
  {
    KindNameIsPlain(kind);
    hide Strip, KindName;
    var inner := " class=\"hl-" + KindName(kind) + "\"";
    assert OpenTag(kind) + b == "<span" + (inner + (">" + b));
    StripTag("<span", inner, b);
  }

  lemma StripClose(b: string)
    ensures Strip(CLOSE_TAG + b) == Strip(b)
  {
    hide Strip;
    assert CLOSE_TAG + b == "</span" + ("" + (">" + b));
    StripTag("</span", "", b);
  }

  lemma StripEscaped(s: string, b: string)
    ensures Strip(Escape(s) + b) == Escape(s) + Strip(b)
  {
    EscapedHasNoTag(s);
    StripText(Escape(s), b);
  }

  lemma EscapeJoin(s: string, i: nat, j: nat, k: nat)
    requires i <= j <= k <= |s|
    ensures Escape(s[i..j]) + Escape(s[j..k]) == Escape(s[i..k])
  {
    assert s[i..j] + s[j..k] == s[i..k];
    EscapeConcat(s[i..j], s[j..k]);
  }

  lemma StripMarked(runes: string, t: Token, cursor: nat, rest: string)
    requires cursor <= t.start <= t.end <= |runes|
    ensures Strip(Marked(runes, t, cursor) + rest) == Escape(runes[cursor..t.start]) + (Escape(runes[t.start..t.end]) + Strip(rest))
  {
    hide Strip, Escape, OpenTag;
    var gap, open, mark := Escape(runes[cursor..t.start]), OpenTag(t.kind), Escape(runes[t.start..t.end]);
    Assoc(gap, open + (mark + CLOSE_TAG), rest);
    Assoc(open, mark + CLOSE_TAG, rest);
    Assoc(mark, CLOSE_TAG, rest);
    StripEscaped(runes[cursor..t.start], open + (mark + (CLOSE_TAG + rest)));
    StripOpen(t.kind, mark + (CLOSE_TAG + rest));
    StripEscaped(runes[t.start..t.end], CLOSE_TAG + rest);
    StripClose(rest);
  }

  lemma Regroup(a: string, b: string, c: string)
    ensures a + (b + (c + "\n")) == ((a + b) + c) + "\n"
  {
  }

  /** Without its tags the markup is the escaped source. */
  lemma {:induction false} StripRender(runes: string, ts: seq<Token>, cursor: nat)
    requires cursor <= |runes| && Ordered(ts, cursor, |runes|)
    ensures Strip(Render(runes, ts, cursor)) == Escape(runes[cursor..]) + "\n"
  {
    if ts == [] {
      hide Escape;
      StripEscaped(runes[cursor..], "\n");
      StripText("\n", "");
      assert "\n" + "" == "\n";
    } else {
      var t, tail := ts[0], ts[1..];
      OrderedEnds(ts, cursor, |runes|);
      assert ts[0..] == ts;
      RenderStep(runes, ts, 0, cursor);
      hide *;
      StripRender(runes, tail, t.end);
      var rest := Render(runes, tail, t.end);
      var gap, mark := Escape(runes[cursor..t.start]), Escape(runes[t.start..t.end]);
      StripMarked(runes, t, cursor, rest);
      EscapeJoin(runes, cursor, t.start, t.end);
      EscapeJoin(runes, cursor, t.end, |runes|);
      assert runes[t.end..|runes|] == runes[t.end..] && runes[cursor..|runes|] == runes[cursor..];
      Regroup(gap, mark, Escape(runes[t.end..]));
    }
  }

  lemma UnescapeChar(c: char, b: string)
    ensures Unescape(EscapeChar(c) + b) == [c] + Unescape(b)
  {
    var s := EscapeChar(c) + b;
    assert s[0] == EscapeChar(c)[0];
    assert s[|EscapeChar(c)|..] == b;
    if c == '&' {
      assert s[1] == 'a' && s[..5] == "&amp;";
    } else if c == '<' {
      assert s[..4] == "&lt;";
    } else if c == '>' {
      assert s[1] == 'g' && s[..4] == "&gt;";
    }
  }

  lemma {:induction false} UnescapeEscape(s: string, b: string)
    ensures Unescape(Escape(s) + b) == s + Unescape(b)
  {
    if s == "" {
      assert Escape(s) + b == b && s + Unescape(b) == Unescape(b);
    } else {
      var rest := s[1..];
      UnescapeEscape(rest, b);
      assert Escape(s) == EscapeChar(s[0]) + Escape(rest);
      hide *;
      UnescapeChar(s[0], Escape(rest) + b);
      Assoc(EscapeChar(s[0]), Escape(rest), b);
      Assoc([s[0]], rest, Unescape(b));
      HeadTail(s);
    }
  }

  /** The overlay is the source, rune for rune, and the line break a <pre> swallows. */
  lemma OverlayIsTheSource(env: Env, source: string)
    requires Paints(env, source)
    ensures Unescape(Strip(Render(source, PaintOf(env, source).value, 0))) == source + "\n"
  {
    hide PaintOf, Render, Strip, Escape;
    StripRender(source, PaintOf(env, source).value, 0);
    assert source[0..] == source;
    assert Unescape("\n") == "\n" + Unescape("");
    UnescapeEscape(source, "\n");
  }

  /** A source that is empty or ends in a line break is always painted, and painted whole. */
  lemma ClosedSourceIsPainted(env: Env, source: string)
    requires source == "" || Closed(source)
    ensures Paints(env, source) && Unescape(Strip(Render(source, PaintOf(env, source).value, 0))) == source + "\n"
  {
    hide *;
    ClosedFileEnds(env, source);
    PaintsWhatParses(env, source);
    OverlayIsTheSource(env, source);
  }
}
