/**
 The positioned grammar of a `.http` file: parsers from a context to a value and the context
 that follows it. Positions are rune offsets; line and column numbers are left out.
 */
module HttpGrammar {
  import opened Text

  /**
   What the code asks of Unicode tables, of the combinator library and of net/url: the letters,
   digits and skipped blanks outside printable ASCII, and the targets url.Parse accepts.
   */
  datatype Env = Env(letter: char -> bool, digit: char -> bool, space: char -> bool, url: string -> bool)

  predicate IsPrintable(c: char) {
    '!' <= c <= '~'
  }

  predicate Letter(env: Env, c: char) {
    IsAsciiLetter(c) || (c > '~' && env.letter(c))
  }

  predicate Digit(env: Env, c: char) {
    IsAsciiDigit(c) || (c > '~' && env.digit(c))
  }

  /** The characters `Spaces` skips. */
  predicate Space(env: Env, c: char) {
    IsBlank(c) || (!IsPrintable(c) && env.space(c))
  }

  function SpaceRune(env: Env): char -> bool { c => Space(env, c) }

  /** The characters a request method is made of. */
  function WordRune(env: Env): char -> bool { c => Letter(env, c) || Digit(env, c) }

  /** The characters of a file variable's name. */
  function NameRune(env: Env): char -> bool { c => Letter(env, c) || Digit(env, c) || c == '_' || c == '-' || c == '.' }

  // ---- contexts --------------------------------------------------------------

  /** A position in a text; the text before it is behind the parser. */
  datatype Place = Context(src: string, off: nat) {
    predicate Valid() {
      off <= |src|
    }

    /** What remains to be read. */
    function Rem(): string
      requires Valid()
    {
      src[off..]
    }

    function Left(): nat
      requires Valid()
    {
      |src| - off
    }

    predicate AtEnd()
      requires Valid()
    {
      off == |src|
    }

    function Forward(n: nat): Context
      requires Valid() && n <= Left()
    {
      Context(src, off + n)
    }
  }

  type Context = c: Place | c.Valid() witness Context("", 0)

  /** A place in a text. */
  function At(s: string, off: nat): Context
    requires off <= |s|
  {
    Context(s, off)
  }

  /** `next` is reached from `ctx` by consuming text. */
  predicate Ahead(ctx: Context, next: Context) {
    ctx.src == next.src && ctx.off <= next.off
  }

  datatype Result<+T> = Ok(value: T, next: Context) | Fail

  // ---- the combinators used ---------------------------------------------------

  /** Many(Satisfy(p)): the longest run, possibly empty. */
  function Many(p: char -> bool, ctx: Context): (r: (string, Context))
    ensures Ahead(ctx, r.1)
  {
    var n := Run(ctx.Rem(), p);
    (ctx.Rem()[..n], ctx.Forward(n))
  }

  function StringMatch(text: string, ctx: Context): (r: Result<string>)
    ensures r.Ok? ==> Ahead(ctx, r.next)
  {
    if text <= ctx.Rem() then Ok(text, ctx.Forward(|text|)) else Fail
  }

  /** The first place `needle` occurs. */
  function IndexOf(s: string, needle: string): (i: Option<nat>)
    ensures i.Some? ==> i.value + |needle| <= |s|
  {
    if needle <= s then Some(0)
    else if s == "" then None
    else match IndexOf(s[1..], needle)
      case Some(i) => Some(i + 1)
      case None => None
  }

  predicate Contains(s: string, needle: string) {
    IndexOf(s, needle).Some?
  }

  /** UntilText(Many(Satisfy(p)), delimiter, consume): everything before the delimiter, all of it satisfying `p`. */
  function UntilText(p: char -> bool, delimiter: string, consume: bool, ctx: Context): (r: Result<string>)
    ensures r.Ok? ==> Ahead(ctx, r.next)
  {
    match IndexOf(ctx.Rem(), delimiter)
    case None => Fail
    case Some(i) =>
      if !All(ctx.Rem()[..i], p) then Fail
      else Ok(ctx.Rem()[..i], ctx.Forward(if consume then i + |delimiter| else i))
  }

  function Spaces(env: Env, ctx: Context): (next: Context)
    ensures Ahead(ctx, next)
  {
    Many(SpaceRune(env), ctx).1
  }

  /** NewLineParser, skipped when there is no line break to read. */
  function ConsumeEndOfLine(ctx: Context): (next: Context)
    ensures Ahead(ctx, next)
  {
    if "\r\n" <= ctx.Rem() then ctx.Forward(2)
    else if "\n" <= ctx.Rem() then ctx.Forward(1)
    else ctx
  }

  // ---- spans ---------------------------------------------------------------------

  /** A value and the half-open stretch of source it was read from. */
  datatype Positioned = Positioned(text: string, start: nat, end: nat)

  predicate Within(p: Positioned, from: nat, to: nat) {
    from <= p.start <= p.end <= to
  }

  /** The noise a span never covers on its right. */
  predicate IsCutSpace(c: char) {
    IsBlank(c) || c == '\r'
  }

  predicate IsCutColon(c: char) {
    IsCutSpace(c) || c == ':'
  }

  predicate IsCutBreak(c: char) {
    IsCutSpace(c) || c == '\n'
  }

  predicate IsReturn(c: char) {
    c == '\r'
  }

  function Consumed(before: Context, after: Context): string
    requires Ahead(before, after)
  {
    before.src[before.off..after.off]
  }

  /** What was consumed between two contexts, without the blanks before it and the `cut` characters after it. */
  function SpanOf(before: Context, after: Context, cut: char -> bool): (p: Positioned)
    requires Ahead(before, after)
    ensures Within(p, before.off, after.off)
  {
    var consumed := Consumed(before, after);
    var lead := Run(consumed, IsBlank);
    var tail := if Kept(consumed, cut) < lead then lead else Kept(consumed, cut);
    Positioned(consumed[lead..tail], before.off + lead, before.off + tail)
  }

  method MeasureSpan(before: Context, after: Context, cut: char -> bool) returns (p: Positioned)
    requires Ahead(before, after)
    ensures p == SpanOf(before, after, cut)
  {
    var consumed := before.src[before.off..after.off];
    var lead := 0;
    while lead < |consumed| && (consumed[lead] == ' ' || consumed[lead] == '\t')
      invariant 0 <= lead <= |consumed|
      invariant forall i :: 0 <= i < lead ==> IsBlank(consumed[i])
    {
      lead := lead + 1;
    }
    RunIs(consumed, IsBlank, lead);
    var tail := |consumed|;
    while tail > lead && cut(consumed[tail - 1])
      invariant lead <= tail <= |consumed|
      invariant forall i :: tail <= i < |consumed| ==> cut(consumed[i])
    {
      tail := tail - 1;
    }
    if tail > lead {
      KeptIs(consumed, cut, tail);
    }
    p := Positioned(consumed[lead..tail], before.off + lead, before.off + tail);
  }

  // ---- lines ----------------------------------------------------------------------

  predicate IsNoBreak(c: char) {
    c != '\n'
  }

  predicate IsNoBreakOrReturn(c: char) {
    c != '\r' && c != '\n'
  }

  /** The text limited to the line it starts on. */
  function LineContext(ctx: Context): Context {
    Context(ctx.src[..ctx.off + Run(ctx.Rem(), IsNoBreak)], ctx.off)
  }

  /** The current line, its line break included. */
  function LineLength(s: string): (n: nat)
    ensures n <= |s|
    ensures s != "" ==> n > 0
  {
    var n := Run(s, IsNoBreak);
    if n < |s| then n + 1 else n
  }

  function ReadLine(ctx: Context): (r: (string, Context))
    ensures Ahead(ctx, r.1)
    ensures !ctx.AtEnd() ==> r.1.Left() < ctx.Left()
  {
    var n := LineLength(ctx.Rem());
    (ctx.Rem()[..n], ctx.Forward(n))
  }

  predicate IsBlankLine(ctx: Context) {
    var n := Run(ctx.Rem(), IsCutSpace);
    n == ctx.Left() || ctx.Rem()[n] == '\n'
  }

  const SEPARATOR: string := "###"

  function SkipBlankLines(ctx: Context): (next: Context)
    ensures Ahead(ctx, next)
    ensures !next.AtEnd() ==> !IsBlankLine(next)
    decreases ctx.Left()
  {
    if ctx.AtEnd() || !IsBlankLine(ctx) then ctx
    else
      var rest := ReadLine(ctx).1;
      var next := SkipBlankLines(rest);
      next
  }

  // ---- the request line --------------------------------------------------------------

  /** The simple case folding strings.EqualFold uses, onto upper case. */
  function FoldChar(c: char): char {
    if 'a' <= c <= 'z' then c - 32 as char
    else if c == '\U{17F}' then 'S'
    else if c == '\U{212A}' then 'K'
    else c
  }

  predicate EqualFold(a: string, b: string) {
    |a| == |b| && forall i :: 0 <= i < |a| ==> FoldChar(a[i]) == FoldChar(b[i])
  }

  const VERBS: seq<string> := ["GET", "POST", "PUT", "PATCH", "HEAD", "OPTIONS", "DELETE", "QUERY", "CONNECT"]

  function ParseVerb(input: string, verbs: seq<string>): Option<string> {
    if verbs == [] then None
    else if EqualFold(verbs[0], input) then Some(verbs[0])
    else ParseVerb(input, verbs[1..])
  }

  function VerbParser(env: Env, ctx: Context): (r: Result<string>)
    ensures r.Ok? ==> Ahead(ctx, r.next)
  {
    var (word, after) := Many(WordRune(env), ctx);
    var next := Spaces(env, after);
    match ParseVerb(word, VERBS)
    case Some(verb) => Ok(verb, next)
    case None => Fail
  }

  /** Up to the version marker, or to the end of the line. */
  function TargetLength(line: string): (n: nat)
    ensures n <= |line|
  {
    match IndexOf(line, " HTTP/")
    case Some(i) => i
    case None => |line|
  }

  lemma {:induction false} NoVersionIn(line: string)
    requires ' ' !in line
    ensures IndexOf(line, " HTTP/").None?
  {
    if line != "" {
      assert line[0] in line && " HTTP/"[0] == ' ';
      NoVersionIn(line[1..]);
    }
  }

  /** A target is a URL, or a template that still holds a placeholder; the value says whether it was resolved. */
  function TargetParser(env: Env, ctx: Context): (r: Result<bool>)
    ensures r.Ok? ==> Ahead(ctx, r.next)
    ensures r.Ok? ==> r.next.off <= ctx.off + LineContext(ctx).Left()
  {
    var line := LineContext(ctx).Rem();
    var n := TargetLength(line);
    var text := TrimRight(line[..n], IsCutSpace);
    if n > 0 && Contains(text, "://") && env.url(text) then Ok(true, ctx.Forward(n))
    else if Contains(text, "{{") then Ok(false, ctx.Forward(n))
    else Fail
  }

  /** `HTTP/major.minor`, blanks allowed before it. */
  function VersionParser(env: Env, ctx: Context): (r: Result<(string, string)>)
    ensures r.Ok? ==> Ahead(ctx, r.next)
  {
    var start := Spaces(env, ctx);
    match StringMatch("HTTP/", start)
    case Fail => Fail
    case Ok(_, afterName) =>
      var (major, afterMajor) := Many(IsAsciiDigit, afterName);
      if major == "" || !("." <= afterMajor.Rem()) then Fail
      else
        var (minor, next) := Many(IsAsciiDigit, afterMajor.Forward(1));
        if minor == "" then Fail else Ok((major, minor), next)
  }

  datatype RequestHead = RequestHead(verb: Positioned, target: Positioned, resolved: bool, version: Positioned)

  function OptionalVersion(env: Env, ctx: Context): (next: Context)
    ensures Ahead(ctx, next)
  {
    match VersionParser(env, ctx) case Ok(_, n) => n case Fail => ctx
  }

  /** The verb's span carries its canonical spelling; an omitted version is an empty span. */
  function RequestHeadOf(verb: string, resolved: bool, start: Context, afterVerb: Context, afterTarget: Context, next: Context): RequestHead
    requires Ahead(start, afterVerb) && Ahead(afterVerb, afterTarget) && Ahead(afterTarget, next)
  {
    RequestHead(SpanOf(start, afterVerb, IsCutSpace).(text := verb), SpanOf(afterVerb, afterTarget, IsCutSpace), resolved,
                SpanOf(afterTarget, next, IsCutSpace))
  }

  function RequestLineParser(env: Env, ctx: Context): (r: Result<RequestHead>) {
    match VerbParser(env, ctx)
    case Fail => Fail
    case Ok(verb, afterVerb) =>
      match TargetParser(env, afterVerb)
      case Fail => Fail
      case Ok(resolved, afterTarget) =>
        var next := OptionalVersion(env, afterTarget);
        Ok(RequestHeadOf(verb, resolved, ctx, afterVerb, afterTarget, next), next)
  }

  predicate LineWithin(line: RequestHead, from: nat, to: nat) {
    Within(line.verb, from, to) && Within(line.target, from, to) && Within(line.version, from, to)
  }

  lemma RequestLineAhead(env: Env, ctx: Context)
    ensures var r := RequestLineParser(env, ctx);
      r.Ok? ==> Ahead(ctx, r.next) && r.next.off > ctx.off && LineWithin(r.value, ctx.off, r.next.off)
  {
    hide VerbParser, TargetParser, OptionalVersion, SpanOf, LineContext;
    if VerbParser(env, ctx).Ok? {
      var afterVerb := VerbParser(env, ctx).next;
      VerbConsumes(env, ctx);
      if TargetParser(env, afterVerb).Ok? {
        var afterTarget := TargetParser(env, afterVerb).next;
      }
    }
  }

  lemma {:induction false} EmptyIsNoVerb(verbs: seq<string>)
    requires "" !in verbs
    ensures ParseVerb("", verbs) == None
  {
    if verbs != [] {
      EmptyIsNoVerb(verbs[1..]);
    }
  }

  lemma VerbConsumes(env: Env, ctx: Context)
    requires VerbParser(env, ctx).Ok?
    ensures VerbParser(env, ctx).next.off > ctx.off
  {
    EmptyIsNoVerb(VERBS);
  }

  // ---- variables, comments, headers ----------------------------------------------------

  datatype Pair = Pair(name: Positioned, value: Positioned)

  /** `@name = value`; the name's span opens on the marker, its text does not hold it. */
  function VariableParser(env: Env, ctx: Context): (r: Result<Pair>)
    ensures r.Ok? ==> Ahead(ctx, r.next) && r.next.off > ctx.off && PairWithin(r.value, ctx.off, r.next.off)
  {
    match StringMatch("@", ctx)
    case Fail => Fail
    case Ok(_, marker) =>
      var (name, afterName) := Many(NameRune(env), marker);
      var beforeAssign := Spaces(env, afterName);
      if name == "" || !("=" <= beforeAssign.Rem()) then Fail
      else
        var assign := beforeAssign.Forward(1);
        var (_, next) := Many(IsNoBreakOrReturn, assign);
        Ok(Pair(Positioned(name, ctx.off, afterName.off), SpanOf(assign, next, IsCutSpace)), next)
  }

  predicate Anything(c: char) {
    true
  }

  /** A comment line, up to its line break; without one there is no comment. */
  function CommentParser(prefix: string, ctx: Context): (r: Result<Positioned>)
    ensures r.Ok? ==> Ahead(ctx, r.next) && r.next.off >= ctx.off + |prefix|
    ensures r.Ok? ==> Within(r.value, ctx.off, r.next.off)
  {
    match StringMatch(prefix, ctx)
    case Fail => Fail
    case Ok(_, marker) =>
      match UntilText(Anything, "\n", false, marker)
      case Fail => Fail
      case Ok(text, next) =>
        Ok(SpanOf(ctx, next, IsReturn).(text := text), next)
  }

  /** OrElse(HeaderCommentsParser, CommentLineParser): a separator first, an ordinary note otherwise. */
  function NoteParser(ctx: Context): (r: Result<Positioned>)
    ensures r.Ok? ==> Ahead(ctx, r.next) && r.next.off > ctx.off
    ensures r.Ok? ==> Within(r.value, ctx.off, r.next.off)
  {
    match CommentParser(SEPARATOR, ctx)
    case Ok(c, next) => Ok(c, next)
    case Fail => CommentParser("#", ctx)
  }

  predicate IsNameChar(c: char) {
    c != ':' && c != '\n'
  }

  /** `Name: value`. */
  function HeaderParser(ctx: Context): (r: Result<Pair>) {
    match UntilText(IsNameChar, ":", true, ctx)
    case Fail => Fail
    case Ok(_, afterName) =>
      var next := Many(IsNoBreakOrReturn, afterName).1;
      Ok(Pair(SpanOf(ctx, afterName, IsCutColon), SpanOf(afterName, next, IsCutSpace)), next)
  }

  predicate PairWithin(p: Pair, from: nat, to: nat) {
    Within(p.name, from, to) && Within(p.value, from, to)
  }

  lemma HeaderAhead(ctx: Context)
    ensures var r := HeaderParser(ctx);
      r.Ok? ==> Ahead(ctx, r.next) && r.next.off > ctx.off && PairWithin(r.value, ctx.off, r.next.off)
  {
    var name := UntilText(IsNameChar, ":", true, ctx);
    if name.Ok? {
      assert name.next.off > ctx.off;
      hide UntilText, Many, SpanOf;
    }
  }
}
