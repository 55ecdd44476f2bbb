/** The fields of a parsed file and the stretches of source they stand on: what is collected, and that no two fields meet. */
module HighlightFields {
  import opened Text
  import opened HttpGrammar
  import opened HttpBlocks
  import opened HttpScan
  import opened Highlight

  // ---- fields -----------------------------------------------------------------------

  predicate Spans(t: Token, p: Positioned) {
    t.start == p.start && t.end == p.end
  }

  /** Three marks stand at this place. */
  predicate MarksAt(runes: string, at: nat) {
    at + 3 <= |runes| && runes[at] == '#' && runes[at + 1] == '#' && runes[at + 2] == '#'
  }

  predicate NoteField(runes: string, note: Positioned, t: Token) {
    Spans(t, note) && t.kind == if MarksAt(runes, note.start) then Separator else Comment
  }

  predicate NameField(kind: Kind, p: Pair, t: Token) {
    t.kind == kind && Spans(t, p.name)
  }

  predicate ValueField(p: Pair, t: Token) {
    t.kind == Value && Spans(t, p.value)
  }

  predicate PairField(kind: Kind, p: Pair, t: Token) {
    NameField(kind, p, t) || ValueField(p, t)
  }

  ghost predicate PairsField(kind: Kind, ps: seq<Pair>, t: Token) {
    exists i :: 0 <= i < |ps| && PairField(kind, ps[i], t)
  }

  ghost predicate NotesField(runes: string, notes: seq<Positioned>, t: Token) {
    exists i :: 0 <= i < |notes| && NoteField(runes, notes[i], t)
  }

  predicate LineField(line: RequestHead, t: Token) {
    || (t.kind == Verb && Spans(t, line.verb))
    || (t.kind == Target && Spans(t, line.target))
    || (t.kind == Version && Spans(t, line.version))
  }

  predicate BodyField(body: Positioned, t: Token) {
    t.kind == Body && Spans(t, body)
  }

  /** A note, a part of the request line, half a header, or the body. */
  ghost predicate ItemField(runes: string, item: Item, t: Token) {
    NotesField(runes, item.comments, t) || LineField(item.line, t) || PairsField(HeaderName, item.headers, t) || BodyField(item.body, t)
  }

  ghost predicate ItemsField(runes: string, items: seq<Item>, t: Token) {
    exists i :: 0 <= i < |items| && ItemField(runes, items[i], t)
  }

  /** The token is the span of a field of its kind. */
  ghost predicate FileField(runes: string, file: HttpFile, t: Token) {
    PairsField(Variable, file.variables, t) || ItemsField(runes, file.requests, t)
  }

  // ---- fields of an unreadable block ---------------------------------------------------

  /** One line of `from..to`. */
  predicate LineIn(runes: string, from: nat, to: nat, a: nat, b: nat) {
    && from <= a <= b <= to <= |runes| && a < to
    && (a == from || runes[a - 1] == '\n') && (b == to || runes[b] == '\n')
    && forall i :: a <= i < b ==> runes[i] != '\n'
  }

  /** Letters, digits, hyphens and underscores. */
  predicate LooksLikeName(env: Env, name: string) {
    name != "" && forall i :: 0 <= i < |name| ==> Letter(env, name[i]) || Digit(env, name[i]) || name[i] == '-' || name[i] == '_'
  }

  lemma HeaderNameLooks(env: Env, name: string)
    ensures IsHeaderName(env, name) <==> LooksLikeName(env, name)
  {
  }

  /** What the line is read as on its own: a variable first, then a separator, a note, a request line, a header with a header's name. */
  predicate ReadAlone(env: Env, runes: string, a: nat, b: nat, t: Token)
    requires a <= b <= |runes|
  {
    var ctx: Context := Context(runes[..b] + "\n", a);
    var v, s, c, r, h := VariableParser(env, ctx), CommentParser("###", ctx), CommentParser("#", ctx), RequestLineParser(env, ctx), HeaderParser(ctx);
    if v.Ok? then PairField(Variable, v.value, t)
    else if s.Ok? then t.kind == Separator && Spans(t, s.value)
    else if c.Ok? then t.kind == Comment && Spans(t, c.value)
    else if r.Ok? then LineField(r.value, t)
    else h.Ok? && LooksLikeName(env, h.value.name.text) && PairField(HeaderName, h.value, t)
  }

  predicate LineReadAlone(env: Env, runes: string, from: nat, to: nat, a: nat, b: nat, t: Token) {
    LineIn(runes, from, to, a, b) && ReadAlone(env, runes, a, b, t)
  }

  ghost predicate BlockField(env: Env, runes: string, from: nat, to: nat, t: Token) {
    exists a: nat, b: nat :: LineReadAlone(env, runes, from, to, a, b, t)
  }

  ghost predicate IssueField(env: Env, runes: string, issues: seq<Issue>, t: Token) {
    exists i :: 0 <= i < |issues| && BlockField(env, runes, issues[i].start, issues[i].end, t)
  }

  // ---- what is collected ----------------------------------------------------------------

  lemma SpannedIs(kind: Kind, p: Positioned, t: Token)
    requires t.start < t.end
    ensures t in Spanned(kind, p) <==> t.kind == kind && Spans(t, p)
  {
  }

  lemma {:induction false} PairTokensAre(kind: Kind, ps: seq<Pair>, t: Token)
    requires t.start < t.end
    ensures t in PairTokens(kind, ps) <==> PairsField(kind, ps, t)
  {
    if ps != [] {
      PairTokensAre(kind, ps[1..], t);
      SpannedIs(kind, ps[0].name, t);
      SpannedIs(Value, ps[0].value, t);
      hide PairField, Spanned;
      assert PairField(kind, ps[0], t) <==> t in Spanned(kind, ps[0].name) || t in Spanned(Value, ps[0].value) by { PairFieldIs(kind, ps[0], t); }
      hide PairTokens;
      PairsFieldStep(kind, ps, t);
      PairTokensStep(kind, ps, t);
    }
  }

  lemma PairFieldIs(kind: Kind, p: Pair, t: Token)
    requires t.start < t.end
    ensures PairField(kind, p, t) <==> t in Spanned(kind, p.name) || t in Spanned(Value, p.value)
  {
  }

  lemma PairTokensStep(kind: Kind, ps: seq<Pair>, t: Token)
    requires ps != []
    ensures t in PairTokens(kind, ps) <==> t in Spanned(kind, ps[0].name) || t in Spanned(Value, ps[0].value) || t in PairTokens(kind, ps[1..])
  {
    hide Spanned;
  }

  lemma PairsFieldStep(kind: Kind, ps: seq<Pair>, t: Token)
    requires ps != []
    ensures PairsField(kind, ps, t) <==> PairField(kind, ps[0], t) || PairsField(kind, ps[1..], t)
  {
    hide PairField;
    if PairsField(kind, ps, t) {
      var i :| 0 <= i < |ps| && PairField(kind, ps[i], t);
      if i > 0 { assert PairField(kind, ps[1..][i - 1], t); }
    }
    if PairsField(kind, ps[1..], t) {
      var i :| 0 <= i < |ps[1..]| && PairField(kind, ps[1..][i], t);
      assert PairField(kind, ps[i + 1], t);
    }
  }

  lemma KindOfNote(runes: string, note: Positioned)
    ensures CommentKind(runes, note) == if MarksAt(runes, note.start) then Separator else Comment
  {
    if note.start + 3 <= |runes| {
      var s := runes[note.start..note.start + 3];
      assert s == SEPARATOR <==> s[0] == '#' && s[1] == '#' && s[2] == '#';
    }
  }

  lemma {:induction false} CommentTokensAre(runes: string, notes: seq<Positioned>, t: Token)
    requires t.start < t.end
    ensures t in CommentTokens(runes, notes) <==> NotesField(runes, notes, t)
  {
    if notes != [] {
      CommentTokensAre(runes, notes[1..], t);
      KindOfNote(runes, notes[0]);
      SpannedIs(CommentKind(runes, notes[0]), notes[0], t);
      assert NoteField(runes, notes[0], t) <==> t in Spanned(CommentKind(runes, notes[0]), notes[0]);
      hide NoteField, Spanned, CommentKind;
      NotesFieldStep(runes, notes, t);
    }
  }

  lemma NotesFieldStep(runes: string, notes: seq<Positioned>, t: Token)
    requires notes != []
    ensures NotesField(runes, notes, t) <==> NoteField(runes, notes[0], t) || NotesField(runes, notes[1..], t)
  {
    hide NoteField;
    if NotesField(runes, notes, t) {
      var i :| 0 <= i < |notes| && NoteField(runes, notes[i], t);
      if i > 0 { assert NoteField(runes, notes[1..][i - 1], t); }
    }
    if NotesField(runes, notes[1..], t) {
      var i :| 0 <= i < |notes[1..]| && NoteField(runes, notes[1..][i], t);
      assert NoteField(runes, notes[i + 1], t);
    }
  }

  lemma LineTokensAre(line: RequestHead, t: Token)
    requires t.start < t.end
    ensures t in Spanned(Verb, line.verb) + Spanned(Target, line.target) + Spanned(Version, line.version) <==> LineField(line, t)
  {
  }

  lemma ItemTokensAre(runes: string, item: Item, t: Token)
    requires t.start < t.end
    ensures t in ItemTokens(runes, item) <==> ItemField(runes, item, t)
  {
    CommentTokensAre(runes, item.comments, t);
    LineTokensAre(item.line, t);
    PairTokensAre(HeaderName, item.headers, t);
    SpannedIs(Body, item.body, t);
    hide CommentTokens, PairTokens, Spanned, NotesField, PairsField, LineField;
  }

  lemma {:induction false} ItemsTokensAre(runes: string, items: seq<Item>, t: Token)
    requires t.start < t.end
    ensures t in ItemsTokens(runes, items) <==> ItemsField(runes, items, t)
  {
    if items != [] {
      ItemsTokensAre(runes, items[1..], t);
      ItemTokensAre(runes, items[0], t);
      hide ItemField, ItemTokens;
      ItemsFieldStep(runes, items, t);
    }
  }

  lemma ItemsFieldStep(runes: string, items: seq<Item>, t: Token)
    requires items != []
    ensures ItemsField(runes, items, t) <==> ItemField(runes, items[0], t) || ItemsField(runes, items[1..], t)
  {
    hide ItemField;
    if ItemsField(runes, items, t) {
      var i :| 0 <= i < |items| && ItemField(runes, items[i], t);
      if i > 0 { assert ItemField(runes, items[1..][i - 1], t); }
    }
    if ItemsField(runes, items[1..], t) {
      var i :| 0 <= i < |items[1..]| && ItemField(runes, items[1..][i], t);
      assert ItemField(runes, items[i + 1], t);
    }
  }

  lemma LexLineIs(env: Env, runes: string, a: nat, b: nat, t: Token)
    requires a <= b <= |runes|
    ensures t in LexLine(env, runes, a, b) <==> ReadAlone(env, runes, a, b, t)
  {
    hide VariableParser, CommentParser, RequestLineParser, HeaderParser, IsHeaderName, LooksLikeName;
    var h := HeaderParser(Context(runes[..b] + "\n", a));
    if h.Ok? { HeaderNameLooks(env, h.value.name.text); }
  }

  lemma LineEndIs(runes: string, from: nat, to: nat)
    requires from < to <= |runes|
    ensures var end := LineEnd(runes, from, to); LineIn(runes, from, to, from, end) && (end < to ==> runes[end] == '\n')
  {
    var end := LineEnd(runes, from, to);
    forall i | from <= i < end ensures runes[i] != '\n' {
      assert runes[i] == runes[from..to][i - from];
    }
    if end < to { assert runes[end] == runes[from..to][end - from]; }
  }

  lemma NextLines(runes: string, from: nat, to: nat, a: nat, b: nat)
    requires from < to <= |runes|
    ensures var end := LineEnd(runes, from, to);
      LineIn(runes, from, to, a, b) <==> (a == from && b == end) || LineIn(runes, end + 1, to, a, b)
  {
    var end := LineEnd(runes, from, to);
    LineEndIs(runes, from, to);
    hide LineEnd;
  }

  lemma LexUnreadableStep(env: Env, runes: string, from: nat, to: nat, t: Token)
    requires to <= |runes|
    ensures from >= to ==> LexUnreadable(env, runes, from, to) == []
    ensures from < to ==> var end := LineEnd(runes, from, to);
      (t in LexUnreadable(env, runes, from, to) <==> t in LexLine(env, runes, from, end) || t in LexUnreadable(env, runes, end + 1, to))
  {
    hide LexLine, LineEnd;
  }

  lemma NoLineLeft(env: Env, runes: string, from: nat, to: nat, t: Token)
    requires from >= to
    ensures !BlockField(env, runes, from, to, t)
  {
    hide ReadAlone;
  }

  lemma {:induction false} LexUnreadableIs(env: Env, runes: string, from: nat, to: nat, t: Token)
    requires to <= |runes|
    ensures t in LexUnreadable(env, runes, from, to) <==> BlockField(env, runes, from, to, t)
    decreases if from < to then to - from else 0
  {
    hide *;
    LexUnreadableStep(env, runes, from, to, t);
    if from < to {
      var end := LineEnd(runes, from, to);
      LexUnreadableIs(env, runes, end + 1, to, t);
      LexLineIs(env, runes, from, end, t);
      BlockFieldStep(env, runes, from, to, t);
    } else {
      NoLineLeft(env, runes, from, to, t);
    }
  }

  lemma AloneIs(env: Env, runes: string, from: nat, to: nat, a: nat, b: nat, t: Token)
    ensures LineReadAlone(env, runes, from, to, a, b, t) <==> LineIn(runes, from, to, a, b) && ReadAlone(env, runes, a, b, t)
    ensures LineIn(runes, from, to, a, b) ==> a <= b <= |runes|
    ensures LineReadAlone(env, runes, from, to, a, b, t) ==> BlockField(env, runes, from, to, t)
  {
    hide ReadAlone;
  }

  lemma BlockFieldStep(env: Env, runes: string, from: nat, to: nat, t: Token)
    requires from < to <= |runes|
    ensures var end := LineEnd(runes, from, to);
      BlockField(env, runes, from, to, t) <==> ReadAlone(env, runes, from, end, t) || BlockField(env, runes, end + 1, to, t)
  {
    hide *;
    var end := LineEnd(runes, from, to);
    LineEndIs(runes, from, to);
    AloneIs(env, runes, from, to, from, end, t);
    if BlockField(env, runes, from, to, t) {
      var a, b := SomeLine(env, runes, from, to, t);
      NextLines(runes, from, to, a, b);
      AloneIs(env, runes, from, to, a, b, t);
      AloneIs(env, runes, end + 1, to, a, b, t);
    }
    if BlockField(env, runes, end + 1, to, t) {
      var a, b := SomeLine(env, runes, end + 1, to, t);
      NextLines(runes, from, to, a, b);
      AloneIs(env, runes, from, to, a, b, t);
      AloneIs(env, runes, end + 1, to, a, b, t);
    }
  }

  lemma SomeLine(env: Env, runes: string, from: nat, to: nat, t: Token) returns (a: nat, b: nat)
    requires BlockField(env, runes, from, to, t)
    ensures LineReadAlone(env, runes, from, to, a, b, t)
  {
    hide LineReadAlone;
    a, b :| LineReadAlone(env, runes, from, to, a, b, t);
  }

  lemma {:induction false} IssuesTokensAre(env: Env, runes: string, issues: seq<Issue>, t: Token)
    requires forall i :: 0 <= i < |issues| ==> issues[i].end <= |runes|
    ensures t in IssuesTokens(env, runes, issues) <==> IssueField(env, runes, issues, t)
  {
    if issues != [] {
      IssuesTokensAre(env, runes, issues[1..], t);
      LexUnreadableIs(env, runes, issues[0].start, issues[0].end, t);
      hide LexUnreadable, BlockField;
      IssueFieldStep(env, runes, issues, t);
    }
  }

  lemma IssueFieldStep(env: Env, runes: string, issues: seq<Issue>, t: Token)
    requires issues != []
    ensures IssueField(env, runes, issues, t) <==>
      BlockField(env, runes, issues[0].start, issues[0].end, t) || IssueField(env, runes, issues[1..], t)
  {
    hide BlockField;
    if IssueField(env, runes, issues, t) {
      var i :| 0 <= i < |issues| && BlockField(env, runes, issues[i].start, issues[i].end, t);
      if i > 0 { assert BlockField(env, runes, issues[1..][i - 1].start, issues[1..][i - 1].end, t); }
    }
    if IssueField(env, runes, issues[1..], t) {
      var i :| 0 <= i < |issues[1..]| && BlockField(env, runes, issues[1..][i].start, issues[1..][i].end, t);
      assert BlockField(env, runes, issues[i + 1].start, issues[i + 1].end, t);
    }
  }

  /** What is collected to be painted: the fields of what was read, and what the lines of the rest are read as on their own. */
  lemma CollectedIsFields(env: Env, runes: string, file: HttpFile, t: Token)
    requires FileWithin(file, 0, |runes|) && t.start < t.end
    ensures t in Collected(env, runes, file) <==> FileField(runes, file, t) || IssueField(env, runes, file.issues, t)
  {
    PairTokensAre(Variable, file.variables, t);
    ItemsTokensAre(runes, file.requests, t);
    IssuesTokensAre(env, runes, file.issues, t);
    hide PairTokens, ItemsTokens, IssuesTokens, PairsField, ItemsField, IssueField;
  }

  // ---- no two fields meet -------------------------------------------------------------------

  predicate Apart(p: Positioned, q: Positioned) {
    p.end <= q.start || q.end <= p.start
  }

  predicate InOrder(ps: seq<Positioned>) {
    forall i, j :: 0 <= i < j < |ps| ==> ps[i].end <= ps[j].start
  }

  predicate PairsInOrder(ps: seq<Pair>) {
    && (forall i :: 0 <= i < |ps| ==> ps[i].name.end <= ps[i].value.start)
    && (forall i, j :: 0 <= i < j < |ps| ==> ps[i].value.end <= ps[j].name.start)
  }

  predicate Crossed(ps: seq<Pair>, ns: seq<Positioned>) {
    forall i, j :: 0 <= i < |ps| && 0 <= j < |ns| ==> Apart(ps[i].name, ns[j]) && Apart(ps[i].value, ns[j])
  }

  lemma FirstInOrder(p: Positioned, ps: seq<Positioned>, mid: nat, next: nat, to: nat)
    requires p.end <= mid <= next && InOrder(ps) && AllWithin(ps, next, to)
    ensures InOrder([p] + ps)
  {
  }

  lemma {:induction false} CommentsInOrder(ctx: Context)
    ensures InOrder(CommentLines(ctx).0)
    decreases ctx.Left()
  {
    CommentLinesStep(ctx);
    hide CommentLines, NoteParser, ConsumeEndOfLine, InOrder, AllWithin;
    var note := NoteParser(ctx);
    if note.Ok? {
      var next := ConsumeEndOfLine(note.next);
      CommentsInOrder(next);
      CommentsWithin(next);
      FirstInOrder(note.value, CommentLines(next).0, note.next.off, next.off, CommentLines(next).1.off);
    } else {
      NothingInOrder();
    }
  }

  lemma NothingInOrder()
    ensures InOrder([]) && PairsInOrder([]) && Crossed([], [])
  {
  }

  lemma HeaderInOrder(ctx: Context)
    ensures var r := HeaderParser(ctx); r.Ok? ==> r.value.name.end <= r.value.value.start
  {
    hide UntilText, Many, SpanOf;
  }

  /** Headers and notes between them, each in order, and no header on a note. */
  predicate HeadedApart(r: Headed) {
    r.Headed? ==> PairsInOrder(r.headers) && InOrder(r.comments) && Crossed(r.headers, r.comments)
  }

  lemma NotesFirst(notes: seq<Positioned>, r: Headed, from: nat, mid: nat, to: nat)
    requires r.Headed? && HeadedApart(r) && InOrder(notes) && AllWithin(notes, from, mid)
    requires PairsWithin(r.headers, mid, to) && AllWithin(r.comments, mid, to)
    ensures HeadedApart(Headed(r.headers, notes + r.comments, r.next))
  {
    var all := notes + r.comments;
    assert forall i :: 0 <= i < |all| ==> all[i] == if i < |notes| then notes[i] else r.comments[i - |notes|];
    forall i, j | 0 <= i < j < |all| ensures all[i].end <= all[j].start {
      if i < |notes| <= j {
        assert Within(notes[i], from, mid) && Within(r.comments[j - |notes|], mid, to);
      } else if j < |notes| {
        assert notes[i].end <= notes[j].start;
      } else {
        assert r.comments[i - |notes|].end <= r.comments[j - |notes|].start;
      }
    }
    forall i, j | 0 <= i < |r.headers| && 0 <= j < |all| ensures Apart(r.headers[i].name, all[j]) && Apart(r.headers[i].value, all[j]) {
      assert PairWithin(r.headers[i], mid, to);
      if j < |notes| { assert Within(notes[j], from, mid); } else { assert Apart(r.headers[i].name, r.comments[j - |notes|]); }
    }
  }

  lemma HeaderFirst(h: Pair, r: Headed, from: nat, mid: nat, next: nat, to: nat)
    requires r.Headed? && HeadedApart(r) && PairWithin(h, from, mid) && h.name.end <= h.value.start && mid <= next
    requires PairsWithin(r.headers, next, to) && AllWithin(r.comments, next, to)
    ensures HeadedApart(Headed([h] + r.headers, r.comments, r.next))
  {
    var all := [h] + r.headers;
    assert forall i :: 0 < i < |all| ==> all[i] == r.headers[i - 1];
    forall i, j | 0 <= i < j < |all| ensures all[i].value.end <= all[j].name.start {
      assert PairWithin(r.headers[j - 1], next, to);
    }
    forall i, j | 0 <= i < |all| && 0 <= j < |r.comments| ensures Apart(all[i].name, r.comments[j]) && Apart(all[i].value, r.comments[j]) {
      assert Within(r.comments[j], next, to);
      if i > 0 { assert Apart(r.headers[i - 1].name, r.comments[j]); }
    }
  }

  lemma {:induction false} HeadersApart(ctx: Context)
    ensures HeadedApart(HeaderLoop(ctx))
    decreases ctx.Left()
  {
    HeaderLoopStep(ctx);
    hide HeaderLoop, CommentLines, HeaderParser, IsBlankLine, ConsumeEndOfLine, PairsInOrder, InOrder, Crossed, AllWithin, PairsWithin, PairWithin;
    NothingInOrder();
    if !HeadersEnd(ctx) {
      if "#" <= ctx.Rem() {
        var (notes, n) := CommentLines(ctx);
        if notes != [] {
          HeadersApart(n);
          if HeaderLoop(n).Headed? {
            HeadersWithin(n);
            CommentsWithin(ctx);
            CommentsInOrder(ctx);
            NotesFirst(notes, HeaderLoop(n), ctx.off, n.off, HeaderLoop(n).next.off);
          }
        }
      } else if HeaderParser(ctx).Ok? {
        var n := HeaderParser(ctx).next;
        var next := ConsumeEndOfLine(n);
        HeadersApart(next);
        if HeaderLoop(next).Headed? {
          HeadersWithin(next);
          HeaderAhead(ctx);
          HeaderInOrder(ctx);
          HeaderFirst(HeaderParser(ctx).value, HeaderLoop(next), ctx.off, n.off, next.off, HeaderLoop(next).next.off);
        }
      }
    }
  }

  lemma LineInOrder(env: Env, ctx: Context)
    ensures var r := RequestLineParser(env, ctx);
      r.Ok? ==> ctx.off <= r.value.verb.start <= r.value.verb.end <= r.value.target.start <= r.value.target.end <= r.value.version.start
                && r.value.version.start <= r.value.version.end <= r.next.off
  {
    hide VerbParser, TargetParser, OptionalVersion, SpanOf, LineContext;
  }

  /**
   Where the parts of a block stand: the first `k` notes up to `p`, then the request line up to `q`, the other notes and the
   headers up to `r`, then the body.
   */
  predicate Laid(item: Item, k: nat, p: nat, q: nat, r: nat) {
    && k <= |item.comments| && InOrder(item.comments)
    && (forall i :: 0 <= i < k ==> item.comments[i].end <= p)
    && p <= item.line.verb.start <= item.line.verb.end <= item.line.target.start <= item.line.target.end <= item.line.version.start
    && item.line.version.start <= item.line.version.end <= q
    && (forall i :: k <= i < |item.comments| ==> q <= item.comments[i].start && item.comments[i].end <= r)
    && PairsWithin(item.headers, q, r) && PairsInOrder(item.headers) && Crossed(item.headers, item.comments[k..])
    && p <= q <= r <= item.body.start
  }

  lemma NotesApart(runes: string, notes: seq<Positioned>, a: Token, b: Token)
    requires InOrder(notes) && NotesField(runes, notes, a) && NotesField(runes, notes, b) && a.start < a.end && b.start < b.end && Overlap(a, b)
    ensures a == b
  {
    var i :| 0 <= i < |notes| && NoteField(runes, notes[i], a);
    var j :| 0 <= j < |notes| && NoteField(runes, notes[j], b);
    assert i == j;
  }

  lemma PairApart(kind: Kind, p: Pair, a: Token, b: Token)
    requires p.name.end <= p.value.start && PairField(kind, p, a) && PairField(kind, p, b) && kind != Value
    requires a.start < a.end && b.start < b.end && Overlap(a, b)
    ensures a == b
  {
  }

  lemma PairsApart(kind: Kind, ps: seq<Pair>, q: nat, r: nat, a: Token, b: Token)
    requires PairsWithin(ps, q, r) && PairsInOrder(ps) && kind != Value
    requires PairsField(kind, ps, a) && PairsField(kind, ps, b) && a.start < a.end && b.start < b.end && Overlap(a, b)
    ensures a == b
  {
    hide PairField, PairWithin;
    var i :| 0 <= i < |ps| && PairField(kind, ps[i], a);
    var j :| 0 <= j < |ps| && PairField(kind, ps[j], b);
    PairBounds(kind, ps[i], q, r, a);
    PairBounds(kind, ps[j], q, r, b);
    if i == j { PairApart(kind, ps[i], a, b); }
  }

  lemma PairBounds(kind: Kind, p: Pair, q: nat, r: nat, t: Token)
    requires PairWithin(p, q, r) && p.name.end <= p.value.start && PairField(kind, p, t)
    ensures p.name.start <= t.start && t.end <= p.value.end
  {
  }

  /** A note of the first `k`, or one among the headers. */
  lemma NoteStands(runes: string, item: Item, k: nat, p: nat, q: nat, r: nat, t: Token)
    requires Laid(item, k, p, q, r) && NotesField(runes, item.comments, t)
    ensures t.end <= p || (q <= t.start && t.end <= r)
  {
    var i :| 0 <= i < |item.comments| && NoteField(runes, item.comments[i], t);
  }

  lemma HeaderStands(kind: Kind, ps: seq<Pair>, q: nat, r: nat, t: Token)
    requires PairsWithin(ps, q, r) && PairsField(kind, ps, t)
    ensures q <= t.start && t.end <= r
  {
    var i :| 0 <= i < |ps| && PairField(kind, ps[i], t);
    assert PairWithin(ps[i], q, r);
  }

  lemma NoteAndHeader(runes: string, item: Item, k: nat, p: nat, q: nat, r: nat, a: Token, b: Token)
    requires Laid(item, k, p, q, r) && NotesField(runes, item.comments, a) && PairsField(HeaderName, item.headers, b)
    requires a.start < a.end && b.start < b.end
    ensures !Overlap(a, b)
  {
    var i :| 0 <= i < |item.comments| && NoteField(runes, item.comments[i], a);
    var j :| 0 <= j < |item.headers| && PairField(HeaderName, item.headers[j], b);
    assert PairWithin(item.headers[j], q, r);
    if i >= k {
      assert item.comments[k..][i - k] == item.comments[i];
      assert Apart(item.headers[j].name, item.comments[i]) && Apart(item.headers[j].value, item.comments[i]);
    }
  }

  /** Two fields of a block that share a rune are the same. */
  lemma FieldsApart(runes: string, item: Item, k: nat, p: nat, q: nat, r: nat, a: Token, b: Token)
    requires Laid(item, k, p, q, r) && ItemField(runes, item, a) && ItemField(runes, item, b)
    requires a.start < a.end && b.start < b.end && Overlap(a, b)
    ensures a == b
  {
    var notes, headers := item.comments, item.headers;
    if NotesField(runes, notes, a) { NoteStands(runes, item, k, p, q, r, a); }
    if NotesField(runes, notes, b) { NoteStands(runes, item, k, p, q, r, b); }
    if PairsField(HeaderName, headers, a) { HeaderStands(HeaderName, headers, q, r, a); }
    if PairsField(HeaderName, headers, b) { HeaderStands(HeaderName, headers, q, r, b); }
    if NotesField(runes, notes, a) && NotesField(runes, notes, b) { NotesApart(runes, notes, a, b); }
    if PairsField(HeaderName, headers, a) && PairsField(HeaderName, headers, b) { PairsApart(HeaderName, headers, q, r, a, b); }
    if NotesField(runes, notes, a) && PairsField(HeaderName, headers, b) { NoteAndHeader(runes, item, k, p, q, r, a, b); }
    if NotesField(runes, notes, b) && PairsField(HeaderName, headers, a) { NoteAndHeader(runes, item, k, p, q, r, b, a); }
    hide NotesField, PairsField, InOrder, PairsInOrder, Crossed, PairsWithin;
  }

  lemma ItemIsLaid(env: Env, ctx: Context) returns (k: nat, p: nat, q: nat, r: nat)
    ensures ItemParser(env, ctx).ItemOk? ==> Laid(ItemParser(env, ctx).item, k, p, q, r)
  {
    k, p, q, r := 0, 0, 0, 0;
    hide CommentLines, SkipBlankLines, RequestLineParser, HeaderLoop, ConsumeEndOfLine, BodyParser, AllWithin, PairsWithin, InOrder, PairsInOrder, Crossed, Laid;
    var start := SkipBlankLines(ctx);
    var (above, n) := CommentLines(start);
    var line := RequestLineParser(env, n);
    CommentsWithin(start);
    CommentsInOrder(start);
    RequestLineAhead(env, n);
    LineInOrder(env, n);
    if line.Ok? {
      var headers := ConsumeEndOfLine(line.next);
      var headed := HeaderLoop(headers);
      if headed.Headed? {
        HeadersWithin(headers);
        HeadersApart(headers);
        k, p, q, r := |above|, n.off, headers.off, headed.next.off;
        var body := BodyParser(headed.next).0;
        PartsAreLaid(above, headed, line.value, body, start.off, p, line.next.off, q, r);
      }
    }
  }

  lemma PartsAreLaid(above: seq<Positioned>, headed: Headed, line: RequestHead, body: Positioned, o: nat, p: nat, l: nat, q: nat, r: nat)
    requires headed.Headed? && HeadedApart(headed) && InOrder(above) && AllWithin(above, o, p) && p <= l <= q <= r <= body.start
    requires PairsWithin(headed.headers, q, r) && AllWithin(headed.comments, q, r)
    requires p <= line.verb.start <= line.verb.end <= line.target.start <= line.target.end <= line.version.start <= line.version.end <= l
    ensures Laid(Item(above + headed.comments, line, headed.headers, body), |above|, p, q, r)
  {
    var all := above + headed.comments;
    assert all[|above|..] == headed.comments;
    assert forall i :: 0 <= i < |all| ==> all[i] == if i < |above| then above[i] else headed.comments[i - |above|];
    hide PairsWithin, PairsInOrder, Crossed;
    forall i | 0 <= i < |all| ensures if i < |above| then all[i].end <= p else q <= all[i].start && all[i].end <= r {
      if i < |above| { assert Within(above[i], o, p); } else { assert Within(headed.comments[i - |above|], q, r); }
    }
    forall i, j | 0 <= i < j < |all| ensures all[i].end <= all[j].start {
      if j < |above| {
        assert above[i].end <= above[j].start;
      } else if i >= |above| {
        assert headed.comments[i - |above|].end <= headed.comments[j - |above|].start;
      }
    }
  }

  // ---- the fields of a file, stretch by stretch -----------------------------------------------

  ghost predicate StretchField(runes: string, s: Stretch, t: Token) {
    match s
    case VariableStretch(v, _, _) => PairField(Variable, v, t)
    case RequestStretch(item, _, _) => ItemField(runes, item, t)
    case IssueStretch(_, _, _) => false
  }

  ghost predicate StretchesField(runes: string, ss: seq<Stretch>, t: Token) {
    ss != [] && (StretchField(runes, ss[0], t) || StretchesField(runes, ss[1..], t))
  }

  lemma VariableInOrder(env: Env, ctx: Context)
    ensures var r := VariableParser(env, ctx); r.Ok? ==> r.value.name.end <= r.value.value.start
  {
    hide Many, SpanOf, Spaces, NameRune;
  }

  lemma OneStretchApart(env: Env, ctx: Context, runes: string, a: Token, b: Token)
    requires NextStretch(env, ctx).Turn?
    requires var s := NextStretch(env, ctx).stretch; StretchField(runes, s, a) && StretchField(runes, s, b)
    requires a.start < a.end && b.start < b.end && Overlap(a, b)
    ensures a == b
  {
    TurnIs(env, ctx);
    VariableInOrder(env, ctx);
    hide VariableParser, ItemParser, SkipUnreadable, NextStretch, ItemField;
    if VariableParser(env, ctx).Ok? {
      PairApart(Variable, VariableParser(env, ctx).value, a, b);
    } else if ItemParser(env, ctx).ItemOk? {
      var k, p, q, r := ItemIsLaid(env, ctx);
      FieldsApart(runes, ItemParser(env, ctx).item, k, p, q, r, a, b);
    }
  }

  lemma ItemFieldWithin(runes: string, item: Item, t: Token, from: nat, to: nat)
    requires ItemWithin(item, from, to) && ItemField(runes, item, t)
    ensures from <= t.start && t.end <= to
  {
    if NotesField(runes, item.comments, t) {
      var i :| 0 <= i < |item.comments| && NoteField(runes, item.comments[i], t);
      assert Within(item.comments[i], from, to);
    }
    if PairsField(HeaderName, item.headers, t) { HeaderStands(HeaderName, item.headers, from, to, t); }
    hide NotesField, PairsField, AllWithin, PairsWithin;
  }

  lemma StretchFieldWithin(runes: string, s: Stretch, t: Token)
    requires WellRead(s) && StretchField(runes, s, t)
    ensures s.from.off <= t.start && t.end <= s.to.off
  {
    if s.RequestStretch? { ItemFieldWithin(runes, s.item, t, s.from.off, s.to.off); }
    hide ItemField, ItemWithin, NoSeparatorLine;
  }

  lemma {:induction false} LaterFields(env: Env, ctx: Context, runes: string, t: Token)
    requires Stretches(env, ctx).Some? && StretchesField(runes, Stretches(env, ctx).value, t)
    ensures ctx.off <= t.start
    decreases ctx.Left()
  {
    StretchesStep(env, ctx);
    var start := SkipBlankLines(ctx);
    hide SkipBlankLines, Stretches, NextStretch, StretchField, WellRead;
    if !start.AtEnd() {
      var s := NextStretch(env, start).stretch;
      NextStretchAhead(env, start);
      NextIsWellRead(env, start);
      FieldsCons(runes, s, Stretches(env, s.to).value, t);
      if StretchField(runes, s, t) { StretchFieldWithin(runes, s, t); } else { LaterFields(env, s.to, runes, t); }
    }
  }

  lemma FieldsCons(runes: string, s: Stretch, rest: seq<Stretch>, t: Token)
    ensures StretchesField(runes, [s] + rest, t) <==> StretchField(runes, s, t) || StretchesField(runes, rest, t)
  {
    assert ([s] + rest)[1..] == rest;
    hide StretchField;
  }

  lemma {:induction false} StretchesApart(env: Env, ctx: Context, runes: string, a: Token, b: Token)
    requires Stretches(env, ctx).Some?
    requires StretchesField(runes, Stretches(env, ctx).value, a) && StretchesField(runes, Stretches(env, ctx).value, b)
    requires a.start < a.end && b.start < b.end && Overlap(a, b)
    ensures a == b
    decreases ctx.Left()
  {
    StretchesStep(env, ctx);
    var start := SkipBlankLines(ctx);
    hide SkipBlankLines, Stretches, NextStretch, StretchField, WellRead;
    if !start.AtEnd() {
      var s := NextStretch(env, start).stretch;
      NextStretchAhead(env, start);
      NextIsWellRead(env, start);
      var rest := Stretches(env, s.to).value;
      FieldsCons(runes, s, rest, a);
      FieldsCons(runes, s, rest, b);
      hide StretchesField;
      if StretchField(runes, s, a) {
        StretchFieldWithin(runes, s, a);
        if StretchField(runes, s, b) { OneStretchApart(env, start, runes, a, b); } else { LaterFields(env, s.to, runes, b); }
      } else if StretchField(runes, s, b) {
        StretchFieldWithin(runes, s, b);
        LaterFields(env, s.to, runes, a);
      } else {
        StretchesApart(env, s.to, runes, a, b);
      }
    }
  }

  lemma PairsFieldSnoc(kind: Kind, ps: seq<Pair>, p: Pair, t: Token)
    ensures PairsField(kind, ps + [p], t) <==> PairsField(kind, ps, t) || PairField(kind, p, t)
  {
    hide PairField;
    var all := ps + [p];
    if PairsField(kind, ps, t) {
      var i :| 0 <= i < |ps| && PairField(kind, ps[i], t);
      assert all[i] == ps[i];
    }
    if PairField(kind, p, t) { assert all[|ps|] == p; }
    if PairsField(kind, all, t) {
      var i :| 0 <= i < |all| && PairField(kind, all[i], t);
      if i < |ps| { assert all[i] == ps[i]; }
    }
  }

  lemma ItemsFieldSnoc(runes: string, items: seq<Item>, item: Item, t: Token)
    ensures ItemsField(runes, items + [item], t) <==> ItemsField(runes, items, t) || ItemField(runes, item, t)
  {
    hide ItemField;
    var all := items + [item];
    if ItemsField(runes, items, t) {
      var i :| 0 <= i < |items| && ItemField(runes, items[i], t);
      assert all[i] == items[i];
    }
    if ItemField(runes, item, t) { assert all[|items|] == item; }
    if ItemsField(runes, all, t) {
      var i :| 0 <= i < |all| && ItemField(runes, all[i], t);
      if i < |items| { assert all[i] == items[i]; }
    }
  }

  lemma AddedField(runes: string, file: HttpFile, s: Stretch, t: Token)
    ensures FileField(runes, Add(file, s), t) <==> FileField(runes, file, t) || StretchField(runes, s, t)
  {
    hide PairField, ItemField, PairsField, ItemsField;
    match s
    case VariableStretch(v, _, _) => PairsFieldSnoc(Variable, file.variables, v, t);
    case RequestStretch(item, _, _) => ItemsFieldSnoc(runes, file.requests, item, t);
    case IssueStretch(_, _, _) =>
  }

  lemma {:induction false} GatheredField(runes: string, file: HttpFile, ss: seq<Stretch>, t: Token)
    ensures FileField(runes, Gather(file, ss), t) <==> FileField(runes, file, t) || StretchesField(runes, ss, t)
    decreases |ss|
  {
    hide FileField, StretchField, Add;
    if ss != [] {
      AddedField(runes, file, ss[0], t);
      GatheredField(runes, Add(file, ss[0]), ss[1..], t);
    }
  }

  lemma NothingHasFields(runes: string, t: Token)
    ensures !FileField(runes, NOTHING, t)
  {
  }

  /** Two fields of a file that share a rune are one and the same. */
  lemma FileFieldsApart(env: Env, source: string, a: Token, b: Token)
    requires FileOf(env, source).Some? && FileField(source, FileOf(env, source).value, a) && FileField(source, FileOf(env, source).value, b)
    requires a.start < a.end && b.start < b.end && Overlap(a, b)
    ensures a == b
  {
    var ss := Stretches(env, At(source, 0)).value;
    assert FileOf(env, source).value == Gather(NOTHING, ss);
    hide *;
    GatheredField(source, NOTHING, ss, a);
    GatheredField(source, NOTHING, ss, b);
    NothingHasFields(source, a);
    NothingHasFields(source, b);
    StretchesApart(env, At(source, 0), source, a, b);
  }
}
