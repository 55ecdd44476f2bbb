/** Request lines that carry a version: what each field of the line is, and where it stands. */
module HttpVersions {
  import opened Text
  import opened HttpGrammar
  import opened HttpBlocks
  import opened HttpGrammarLines

  // ---- where a text occurs --------------------------------------------------------------

  predicate StandsAt(s: string, needle: string, i: nat) {
    i + |needle| <= |s| && s[i..i + |needle|] == needle
  }

  ghost predicate Occurs(s: string, needle: string) {
    exists i: nat :: StandsAt(s, needle, i)
  }

  /** The place found is the first one. */
  lemma {:induction false} IndexIsFirst(s: string, needle: string, j: nat)
    ensures var at := IndexOf(s, needle);
      && (at.Some? ==> StandsAt(s, needle, at.value))
      && (StandsAt(s, needle, j) ==> at.Some? && at.value <= j)
  {
    assert needle <= s <==> StandsAt(s, needle, 0);
    if !(needle <= s) && s != "" {
      IndexIsFirst(s[1..], needle, if j == 0 then 0 else j - 1);
      Later(s, needle, if j == 0 then 0 else j - 1);
      if IndexOf(s[1..], needle).Some? {
        Later(s, needle, IndexOf(s[1..], needle).value);
      }
    }
  }

  lemma Later(s: string, needle: string, j: nat)
    requires s != ""
    ensures StandsAt(s, needle, j + 1) <==> StandsAt(s[1..], needle, j)
  {
    if j + 1 + |needle| <= |s| {
      assert s[j + 1..j + 1 + |needle|] == s[1..][j..j + |needle|];
    }
  }

  lemma ContainsIsOccurs(s: string, needle: string)
    ensures Contains(s, needle) <==> Occurs(s, needle)
  {
    IndexIsFirst(s, needle, 0);
    if Occurs(s, needle) {
      var i: nat :| StandsAt(s, needle, i);
      IndexIsFirst(s, needle, i);
    }
  }

  const VERSION_MARK: string := " HTTP/"

  lemma MarkIsFirst(target: string, tail: string)
    requires ' ' !in target
    ensures IndexOf(target + (VERSION_MARK + tail), VERSION_MARK) == Some(|target|)
  {
    var s := target + (VERSION_MARK + tail);
    hide *;
    MarkStands(target, tail);
    IndexIsFirst(s, VERSION_MARK, |target|);
    var i := IndexOf(s, VERSION_MARK).value;
    if i < |target| {
      MarkOpensBlank(s, i);
      BlankBehind(target, VERSION_MARK + tail, i);
    }
  }

  lemma MarkStands(target: string, tail: string)
    ensures StandsAt(target + (VERSION_MARK + tail), VERSION_MARK, |target|)
  {
    assert (target + (VERSION_MARK + tail))[|target|..|target| + |VERSION_MARK|] == VERSION_MARK;
  }

  lemma BlankBehind(target: string, more: string, i: nat)
    requires ' ' !in target && i < |target + more| && (target + more)[i] == ' '
    ensures i >= |target|
  {
  }

  lemma MarkOpensBlank(s: string, i: nat)
    ensures StandsAt(s, VERSION_MARK, i) ==> s[i] == ' '
  {
    if StandsAt(s, VERSION_MARK, i) {
      assert s[i..i + |VERSION_MARK|][0] == s[i];
    }
  }

  // ---- the verb, in any case -------------------------------------------------------------

  predicate IsVerb(verb: string) {
    verb in ["GET", "POST", "PUT", "PATCH", "HEAD", "OPTIONS", "DELETE", "QUERY", "CONNECT"]
  }

  /** The same letters, each in upper or in lower case. */
  predicate Spells(typed: string, verb: string) {
    |typed| == |verb| && forall i :: 0 <= i < |verb| ==> typed[i] == verb[i] || typed[i] as int == verb[i] as int + 32
  }

  lemma SpelledFolds(typed: string, verb: string, other: string)
    requires IsUpperWord(verb) && IsUpperWord(other) && Spells(typed, verb)
    ensures EqualFold(other, typed) <==> other == verb
  {
    assert forall i :: 0 <= i < |verb| ==> FoldChar(typed[i]) == verb[i];
    if EqualFold(other, typed) {
      forall i | 0 <= i < |other| ensures other[i] == verb[i] {
        assert FoldChar(other[i]) == FoldChar(typed[i]);
      }
    }
  }

  lemma {:induction false} SpelledAmong(typed: string, verb: string, verbs: seq<string>)
    requires Spells(typed, verb) && verb in verbs && forall i :: 0 <= i < |verbs| ==> IsUpperWord(verbs[i])
    ensures ParseVerb(typed, verbs) == Some(verb)
  {
    assert IsUpperWord(verb);
    SpelledFolds(typed, verb, verbs[0]);
    hide IsUpperWord, Spells, EqualFold;
    if verbs[0] != verb {
      SpelledAmong(typed, verb, verbs[1..]);
    }
  }

  lemma VerbFacts(env: Env, typed: string, verb: string)
    requires IsVerb(verb) && Spells(typed, verb)
    ensures typed != "" && All(typed, WordRune(env)) && IsAsciiLetter(typed[0]) && IsAsciiLetter(typed[|typed| - 1])
    ensures ParseVerb(typed, VERBS) == Some(verb)
  {
    VerbIsUpper(verb);
    SpelledAmong(typed, verb, VERBS);
    hide ParseVerb;
    forall i | 0 <= i < |typed| ensures IsAsciiLetter(typed[i]) {
      assert 'A' <= verb[i] <= 'Z';
    }
  }

  lemma VerbIsUpper(verb: string)
    requires IsVerb(verb)
    ensures verb in VERBS && IsUpperWord(verb) && forall i :: 0 <= i < |VERBS| ==> IsUpperWord(VERBS[i])
  {
  }

  lemma VerbIsRead(env: Env, ctx: Context, typed: string, verb: string, rest: string)
    requires IsVerb(verb) && Spells(typed, verb) && Reads(ctx, typed, " " + rest) && rest != "" && !Space(env, rest[0])
    ensures VerbParser(env, ctx) == Ok(verb, ctx.Forward(|typed| + 1)) && |typed| + 1 <= ctx.Left() && ctx.Forward(|typed| + 1).Rem() == rest
    ensures SpanOf(ctx, ctx.Forward(|typed| + 1), IsCutSpace) == Positioned(typed, ctx.off, ctx.off + |typed|)
  {
    VerbFacts(env, typed, verb);
    hide ParseVerb, Spells, IsVerb, SpanOf, Many;
    WordThenBlank(env, ctx, typed, rest);
    BlankPadded(ctx, typed, rest);
  }

  lemma BlankPadded(ctx: Context, typed: string, rest: string)
    requires Reads(ctx, typed, " " + rest) && typed != "" && IsAsciiLetter(typed[0]) && IsAsciiLetter(typed[|typed| - 1])
    ensures |typed| + 1 <= ctx.Left()
    ensures SpanOf(ctx, ctx.Forward(|typed| + 1), IsCutSpace) == Positioned(typed, ctx.off, ctx.off + |typed|)
  {
    Assoc(typed, " ", rest);
    After(ctx, typed + " ", rest);
    NoMore(typed + " ");
    hide SpanOf;
    PaddedSpan(ctx, ctx.Forward(|typed| + 1), "", typed, " ");
  }

  lemma WordThenBlank(env: Env, ctx: Context, typed: string, rest: string)
    requires All(typed, WordRune(env)) && Reads(ctx, typed, " " + rest) && rest != "" && !Space(env, rest[0])
    ensures |typed| + 1 <= ctx.Left() && Many(WordRune(env), ctx) == (typed, ctx.Forward(|typed|))
    ensures Spaces(env, ctx.Forward(|typed|)) == ctx.Forward(|typed| + 1) && ctx.Forward(|typed| + 1).Rem() == rest
  {
    BlankEndsWord(env);
    hide Many, WordRune, Run;
    ManyOf(WordRune(env), ctx, typed, " " + rest);
    ManyOf(SpaceRune(env), ctx.Forward(|typed|), " ", rest);
  }

  lemma BlankEndsWord(env: Env)
    ensures !WordRune(env)(' ') && SpaceRune(env)(' ') && forall c :: SpaceRune(env)(c) <==> Space(env, c)
  {
  }

  /** A span leaves out the blanks around what it covers. */
  lemma PaddedSpan(before: Context, after: Context, lead: string, text: string, pad: string)
    requires Ahead(before, after) && Consumed(before, after) == lead + (text + pad)
    requires text != "" && !IsCutSpace(text[0]) && !IsCutSpace(text[|text| - 1])
    requires All(lead, IsBlank) && All(pad, IsCutSpace)
    ensures SpanOf(before, after, IsCutSpace) == Positioned(text, before.off + |lead|, before.off + |lead| + |text|)
  {
    var s := lead + (text + pad);
    assert (text + pad)[0] == text[0];
    RunOfConcat(lead, text + pad, IsBlank);
    var n := |lead| + |text|;
    assert s[n - 1] == text[|text| - 1] && forall i :: n <= i < |s| ==> s[i] == pad[i - n];
    KeptIs(s, IsCutSpace, n);
    assert s[|lead|..n] == text;
  }

  // ---- the target and the version ------------------------------------------------------------

  /** A target the grammar accepts, said without its parsers. */
  ghost predicate Accepted(env: Env, target: string) {
    && target != "" && !Space(env, target[0]) && All(target, IsNotRegexSpace)
    && ((Occurs(target, "://") && env.url(target)) || Occurs(target, "{{"))
  }

  lemma AcceptedFacts(env: Env, target: string)
    requires Accepted(env, target)
    ensures OneLine(target) && ' ' !in target && target != "" && !Space(env, target[0])
    ensures !IsCutSpace(target[0]) && !IsCutSpace(target[|target| - 1]) && TrimRight(target, IsCutSpace) == target
    ensures Contains(target, "://") <==> Occurs(target, "://")
    ensures Contains(target, "{{") <==> Occurs(target, "{{")
  {
    ContainsIsOccurs(target, "://");
    ContainsIsOccurs(target, "{{");
    assert IsNotRegexSpace(target[0]) && IsNotRegexSpace(target[|target| - 1]);
    KeptIs(target, IsCutSpace, |target|);
    hide Contains, Occurs;
  }

  lemma LineHoldsMark(ctx: Context, target: string, tail: string)
    requires Reads(ctx, target, VERSION_MARK + tail) && OneLine(target)
    ensures exists more: string :: LineContext(ctx).Rem() == target + (VERSION_MARK + more)
  {
    var s, n := ctx.Rem(), Run(ctx.Rem(), IsNoBreak);
    var k := |target| + 6;
    assert forall i :: 0 <= i < k ==> s[i] == if i < |target| then target[i] else VERSION_MARK[i - |target|];
    assert forall i :: 0 <= i < |target| ==> target[i] in target;
    assert n >= k;
    var line := LineContext(ctx).Rem();
    assert line == s[..n];
    assert line == target + (VERSION_MARK + s[k..n]);
  }

  lemma TargetIsRead(env: Env, ctx: Context, target: string, tail: string)
    requires Accepted(env, target) && Reads(ctx, target, VERSION_MARK + tail)
    ensures |target| <= ctx.Left() && ctx.Forward(|target|).Rem() == VERSION_MARK + tail
    ensures TargetParser(env, ctx) == Ok(Occurs(target, "://") && env.url(target), ctx.Forward(|target|))
    ensures SpanOf(ctx, ctx.Forward(|target|), IsCutSpace) == Positioned(target, ctx.off, ctx.off + |target|)
  {
    AcceptedFacts(env, target);
    assert (Occurs(target, "://") && env.url(target)) || Occurs(target, "{{");
    hide *;
    LineHoldsMark(ctx, target, tail);
    After(ctx, target, VERSION_MARK + tail);
    var more :| LineContext(ctx).Rem() == target + (VERSION_MARK + more);
    MarkIsFirst(target, more);
    TargetUpTo(env, ctx, target, VERSION_MARK + more);
    WholeSpan(ctx, target, VERSION_MARK + tail);
  }

  lemma WholeSpan(ctx: Context, text: string, rest: string)
    requires Reads(ctx, text, rest) && text != "" && !IsCutSpace(text[0]) && !IsCutSpace(text[|text| - 1])
    ensures |text| <= ctx.Left() && SpanOf(ctx, ctx.Forward(|text|), IsCutSpace) == Positioned(text, ctx.off, ctx.off + |text|)
  {
    After(ctx, text, rest);
    NoMore(text);
    hide SpanOf;
    PaddedSpan(ctx, ctx.Forward(|text|), "", text, "");
  }

  lemma TargetUpTo(env: Env, ctx: Context, target: string, more: string)
    requires target != "" && TrimRight(target, IsCutSpace) == target && |target| <= ctx.Left()
    requires LineContext(ctx).Rem() == target + more && IndexOf(target + more, VERSION_MARK) == Some(|target|)
    ensures TargetParser(env, ctx) ==
      if Contains(target, "://") && env.url(target) then Ok(true, ctx.Forward(|target|))
      else if Contains(target, "{{") then Ok(false, ctx.Forward(|target|)) else Fail
  {
    assert (target + more)[..|target|] == target;
    hide Contains, TrimRight, LineContext, IndexOf;
  }

  function VersionText(major: string, minor: string): string {
    "HTTP/" + (major + ("." + minor))
  }

  predicate Digits(s: string) {
    s != "" && All(s, IsAsciiDigit)
  }

  predicate NoDigitFirst(s: string) {
    s == "" || !IsAsciiDigit(s[0])
  }

  lemma VersionSplits(major: string, minor: string, rest: string)
    ensures " " + VersionText(major, minor) + rest == " " + ("HTTP/" + (major + ("." + (minor + rest))))
    ensures " " + ("HTTP/" + (major + ("." + (minor + rest)))) == VERSION_MARK + (major + ("." + (minor + rest)))
  {
    var tail := major + ("." + (minor + rest));
    assert VersionText(major, minor) + rest == "HTTP/" + tail by {
      Assoc("HTTP/", major + ("." + minor), rest);
      Assoc(major, "." + minor, rest);
      Assoc(".", minor, rest);
    }
    Assoc(" ", VersionText(major, minor), rest);
    Assoc(" ", "HTTP/", tail);
    assert " " + "HTTP/" == VERSION_MARK;
  }

  lemma VersionIsRead(env: Env, ctx: Context, major: string, minor: string, rest: string)
    requires Digits(major) && Digits(minor) && NoDigitFirst(rest) && ctx.Rem() == " " + VersionText(major, minor) + rest
    ensures var n := |VersionText(major, minor)| + 1;
      && n <= ctx.Left() && OptionalVersion(env, ctx) == ctx.Forward(n)
      && SpanOf(ctx, ctx.Forward(n), IsCutSpace) == Positioned(VersionText(major, minor), ctx.off + 1, ctx.off + n)
  {
    var minorOn := minor + rest;
    VersionSplits(major, minor, rest);
    hide Many, SpanOf, Spaces;
    VersionParts(env, ctx, major, minor, rest);
    var n := |VersionText(major, minor)| + 1;
    After(ctx, " " + VersionText(major, minor), rest);
    assert Consumed(ctx, ctx.Forward(n)) == " " + (VersionText(major, minor) + "");
    VersionEnds(major, minor);
    PaddedSpan(ctx, ctx.Forward(n), " ", VersionText(major, minor), "");
  }

  lemma VersionEnds(major: string, minor: string)
    requires Digits(minor)
    ensures var v := VersionText(major, minor); v != "" && !IsCutSpace(v[0]) && !IsCutSpace(v[|v| - 1])
  {
    var v := VersionText(major, minor);
    assert v[0] == 'H' && v[|v| - 1] == minor[|minor| - 1] && IsAsciiDigit(minor[|minor| - 1]);
  }

  lemma VersionParts(env: Env, ctx: Context, major: string, minor: string, rest: string)
    requires Digits(major) && Digits(minor) && NoDigitFirst(rest)
    requires ctx.Rem() == " " + ("HTTP/" + (major + ("." + (minor + rest))))
    ensures var n := |VersionText(major, minor)| + 1; n <= ctx.Left() && OptionalVersion(env, ctx) == ctx.Forward(n)
  {
    var tail := major + ("." + (minor + rest));
    VersionOpens(env);
    NumberEnds(minor, rest);
    hide Many, Spaces, SpaceRune, VersionParser, VersionText, Run, All;
    ManyOf(SpaceRune(env), ctx, " ", "HTTP/" + tail);
    var start := ctx.Forward(1);
    After(start, "HTTP/", tail);
    NameIsThere(start, tail);
    var afterName := start.Forward(5);
    ManyOf(IsAsciiDigit, afterName, major, "." + (minor + rest));
    var afterMajor := afterName.Forward(|major|);
    After(afterMajor, ".", minor + rest);
    ManyOf(IsAsciiDigit, afterMajor.Forward(1), minor, rest);
    VersionIs(env, ctx, start, afterName, major, afterMajor, minor, afterMajor.Forward(1).Forward(|minor|));
    VersionLength(major, minor);
  }

  lemma VersionOpens(env: Env)
    ensures SpaceRune(env)(' ') && !SpaceRune(env)('H') && !IsAsciiDigit('.')
  {
  }

  lemma NumberEnds(minor: string, rest: string)
    requires NoDigitFirst(rest)
    ensures rest == "" || !IsAsciiDigit(rest[0])
    ensures ("." + (minor + rest))[0] == '.'
  {
  }

  lemma NameIsThere(start: Context, tail: string)
    requires start.Rem() == "HTTP/" + tail
    ensures 5 <= start.Left() && StringMatch("HTTP/", start) == Ok("HTTP/", start.Forward(5)) && ("HTTP/" + tail)[0] == 'H'
  {
  }

  lemma VersionLength(major: string, minor: string)
    ensures |VersionText(major, minor)| + 1 == 7 + |major| + |minor|
  {
  }

  lemma VersionIs(env: Env, ctx: Context, start: Context, afterName: Context, major: string, afterMajor: Context, minor: string, next: Context)
    requires Spaces(env, ctx) == start && StringMatch("HTTP/", start) == Ok("HTTP/", afterName)
    requires Many(IsAsciiDigit, afterName) == (major, afterMajor) && major != "" && "." <= afterMajor.Rem()
    requires Many(IsAsciiDigit, afterMajor.Forward(1)) == (minor, next) && minor != ""
    ensures OptionalVersion(env, ctx) == next
  {
    hide Many, Spaces, StringMatch;
  }

  // ---- the line -----------------------------------------------------------------------------------

  /** A line that reads `typed target HTTP/major.minor`, whatever comes behind. */
  ghost predicate VersionedLine(env: Env, s: string, typed: string, verb: string, target: string, major: string, minor: string, rest: string) {
    && IsVerb(verb) && Spells(typed, verb) && Accepted(env, target) && Digits(major) && Digits(minor) && NoDigitFirst(rest)
    && s == typed + (" " + (target + (" " + VersionText(major, minor) + rest)))
  }

  /** The head such a line is read to from offset `at`: every text and every span. */
  ghost function VersionedHead(env: Env, at: nat, typed: string, verb: string, target: string, major: string, minor: string): RequestHead {
    var t := at + |typed| + 1;
    var v := t + |target| + 1;
    RequestHead(Positioned(verb, at, at + |typed|), Positioned(target, t, t + |target|), Occurs(target, "://") && env.url(target),
                Positioned("HTTP/" + (major + ("." + minor)), v, v + 6 + |major| + |minor|))
  }

  lemma HeadIs(env: Env, ctx: Context, verb: string, resolved: bool, afterVerb: Context, afterTarget: Context, next: Context,
               v: Positioned, t: Positioned, w: Positioned)
    requires VerbParser(env, ctx) == Ok(verb, afterVerb) && TargetParser(env, afterVerb) == Ok(resolved, afterTarget)
    requires OptionalVersion(env, afterTarget) == next
    requires SpanOf(ctx, afterVerb, IsCutSpace) == v && SpanOf(afterVerb, afterTarget, IsCutSpace) == t && SpanOf(afterTarget, next, IsCutSpace) == w
    ensures RequestLineParser(env, ctx) == Ok(RequestHead(v.(text := verb), t, resolved, w), next)
  {
    hide VerbParser, TargetParser, OptionalVersion, SpanOf;
  }

  lemma VerbAndTargetRead(env: Env, ctx: Context, typed: string, verb: string, target: string, version: string, tail: string)
    requires IsVerb(verb) && Spells(typed, verb) && Accepted(env, target) && version == VERSION_MARK + tail
    requires Reads(ctx, typed, " " + (target + version))
    ensures |typed| + 1 <= ctx.Left() && |target| <= ctx.Forward(|typed| + 1).Left()
    ensures var c := ctx.Forward(|typed| + 1); var d := c.Forward(|target|); var at := ctx.off + |typed| + 1;
      && VerbParser(env, ctx) == Ok(verb, c) && TargetParser(env, c) == Ok(Occurs(target, "://") && env.url(target), d)
      && SpanOf(ctx, c, IsCutSpace) == Positioned(typed, ctx.off, ctx.off + |typed|)
      && SpanOf(c, d, IsCutSpace) == Positioned(target, at, at + |target|)
      && d.off == at + |target| && d.Rem() == version
  {
    hide *;
    AcceptedFacts(env, target);
    TargetFirst(target, version);
    VerbIsRead(env, ctx, typed, verb, target + version);
    ForwardOff(ctx, |typed| + 1);
    var c := ctx.Forward(|typed| + 1);
    ReadsThese(c, target, version);
    TargetIsRead(env, c, target, tail);
    ForwardOff(c, |target|);
  }

  /** The request line parser on such a line. */
  lemma VersionedLineReads(env: Env, ctx: Context, typed: string, verb: string, target: string, major: string, minor: string, rest: string)
    requires VersionedLine(env, ctx.Rem(), typed, verb, target, major, minor, rest)
    ensures var r := RequestLineParser(env, ctx);
      r.Ok? && r.value == VersionedHead(env, ctx.off, typed, verb, target, major, minor)
  {
    hide *;
    VersionedParts(env, ctx, typed, verb, target, major, minor, rest);
    VersionSplits(major, minor, rest);
    VerbAndTargetRead(env, ctx, typed, verb, target, " " + VersionText(major, minor) + rest, major + ("." + (minor + rest)));
    var c := ctx.Forward(|typed| + 1);
    var d, text, at := c.Forward(|target|), VersionText(major, minor), ctx.off + |typed| + 1;
    VersionIsRead(env, d, major, minor, rest);
    HeadIs(env, ctx, verb, Occurs(target, "://") && env.url(target), c, d, d.Forward(|text| + 1),
           Positioned(typed, ctx.off, ctx.off + |typed|), Positioned(target, at, at + |target|),
           Positioned(text, d.off + 1, d.off + (|text| + 1)));
    VersionedHeadIs(env, ctx.off, typed, verb, target, major, minor);
  }

  lemma ForwardOff(ctx: Context, n: nat)
    requires n <= ctx.Left()
    ensures ctx.Forward(n).off == ctx.off + n
  {
  }

  lemma ReadsThese(ctx: Context, a: string, b: string)
    requires ctx.Rem() == a + b
    ensures Reads(ctx, a, b)
  {
  }

  lemma VersionedParts(env: Env, ctx: Context, typed: string, verb: string, target: string, major: string, minor: string, rest: string)
    requires VersionedLine(env, ctx.Rem(), typed, verb, target, major, minor, rest)
    ensures IsVerb(verb) && Spells(typed, verb) && Accepted(env, target) && Digits(major) && Digits(minor) && NoDigitFirst(rest)
    ensures Reads(ctx, typed, " " + (target + (" " + VersionText(major, minor) + rest)))
  {
    hide IsVerb, Spells, Accepted, Digits, VersionText;
  }

  lemma VersionedHeadIs(env: Env, at: nat, typed: string, verb: string, target: string, major: string, minor: string)
    ensures var t := at + |typed| + 1; var v := t + |target|; var text := VersionText(major, minor);
      VersionedHead(env, at, typed, verb, target, major, minor) ==
        RequestHead(Positioned(typed, at, at + |typed|).(text := verb), Positioned(target, t, t + |target|), Occurs(target, "://") && env.url(target),
                    Positioned(text, v + 1, v + (|text| + 1)))
  {
    hide Occurs;
  }

  lemma TargetFirst(target: string, more: string)
    requires target != ""
    ensures target + more != "" && (target + more)[0] == target[0]
  {
  }

  // ---- the first request of a file -----------------------------------------------------------------

  lemma {:induction false} FirstRequestStays(file: HttpFile, ss: seq<Stretch>)
    requires file.requests != []
    ensures var all := Gather(file, ss).requests; all != [] && all[0] == file.requests[0]
    decreases |ss|
  {
    if ss != [] { FirstRequestStays(Add(file, ss[0]), ss[1..]); }
  }

  lemma LetterOpens(env: Env, ctx: Context)
    requires !ctx.AtEnd() && IsAsciiLetter(ctx.Rem()[0])
    ensures SkipBlankLines(ctx) == ctx && CommentLines(ctx) == ([], ctx) && VariableParser(env, ctx).Fail?
  {
    assert ctx.Rem()[0] != '#' && ctx.Rem()[0] != '@' && !IsCutSpace(ctx.Rem()[0]) && ctx.Rem()[0] != '\n';
    hide *;
    NotBlankLine(ctx);
    NoNoteHere(ctx);
    CommentLinesStep(ctx);
    NotSkipped(ctx);
    NoVariableHere(env, ctx);
  }

  lemma NotSkipped(ctx: Context)
    requires !IsBlankLine(ctx)
    ensures SkipBlankLines(ctx) == ctx
  {
    hide IsBlankLine;
  }

  lemma NoNoteHere(ctx: Context)
    requires !ctx.AtEnd() && ctx.Rem()[0] != '#'
    ensures NoteParser(ctx).Fail?
  {
  }

  lemma NoVariableHere(env: Env, ctx: Context)
    requires !ctx.AtEnd() && ctx.Rem()[0] != '@'
    ensures VariableParser(env, ctx).Fail?
  {
    hide Many, Spaces, SpanOf;
  }

  lemma ItemOfLine(env: Env, ctx: Context)
    requires SkipBlankLines(ctx) == ctx && CommentLines(ctx) == ([], ctx) && RequestLineParser(env, ctx).Ok?
    ensures var i := ItemParser(env, ctx); i.ItemStuck? || (i.ItemOk? && i.item.line == RequestLineParser(env, ctx).value)
  {
    hide SkipBlankLines, CommentLines, RequestLineParser, HeaderLoop, BodyParser, ConsumeEndOfLine;
  }

  /**
   A file that opens with such a line, if it is read at all: its first request has the canonical verb, exactly that target and
   exactly that version, each where it stands.
   */
  lemma VersionedFileReads(env: Env, source: string, typed: string, verb: string, target: string, major: string, minor: string, rest: string)
    requires VersionedLine(env, source, typed, verb, target, major, minor, rest) && FileOf(env, source).Some?
    ensures var file := FileOf(env, source).value;
      file.requests != [] && file.requests[0].line == VersionedHead(env, 0, typed, verb, target, major, minor)
  {
    var ctx := At(source, 0);
    assert ctx.Rem() == source;
    VerbFacts(env, typed, verb);
    assert source[0] == typed[0];
    hide VersionedLine, VersionedHead, Spells, IsVerb, IsAsciiLetter;
    VersionedLineReads(env, ctx, typed, verb, target, major, minor, rest);
    LetterOpens(env, ctx);
    hide RequestLineParser, VariableParser, SkipBlankLines, CommentLines;
    ItemOfLine(env, ctx);
    TurnIs(env, ctx);
    StretchesStep(env, ctx);
    FirstGathers(env, source, ItemParser(env, ctx).item);
  }

  lemma FirstGathers(env: Env, source: string, item: Item)
    requires FileOf(env, source).Some? && !At(source, 0).AtEnd() && SkipBlankLines(At(source, 0)) == At(source, 0)
    requires var t := NextStretch(env, At(source, 0)); t.Turn? ==> t.stretch.RequestStretch? && t.stretch.item == item
    ensures var file := FileOf(env, source).value; file.requests != [] && file.requests[0] == item
  {
    StretchesStep(env, At(source, 0));
    var ss := Stretches(env, At(source, 0)).value;
    hide NextStretch, SkipBlankLines, Stretches;
    assert ss[0].item == item;
    FirstRequestStays(Add(NOTHING, ss[0]), ss[1..]);
  }

  // ---- any request line ------------------------------------------------------------------------------

  /** Target and version are the source where they stand, and the target holds no version marker. */
  ghost predicate LineIsSource(src: string, line: RequestHead) {
    && line.target.start <= line.target.end <= |src| && line.target.text == src[line.target.start..line.target.end]
    && line.version.start <= line.version.end <= |src| && line.version.text == src[line.version.start..line.version.end]
    && !Occurs(line.target.text, VERSION_MARK)
  }

  lemma SpanIsSource(before: Context, after: Context, cut: char -> bool)
    requires Ahead(before, after)
    ensures var p := SpanOf(before, after, cut); p.start <= p.end <= |before.src| && p.text == before.src[p.start..p.end]
  {
    var consumed := Consumed(before, after);
    var lead := Run(consumed, IsBlank);
    var tail := if Kept(consumed, cut) < lead then lead else Kept(consumed, cut);
    hide Run, Kept;
    assert consumed[lead..tail] == before.src[before.off + lead..before.off + tail];
  }

  lemma PartHoldsNoMark(s: string, from: nat, to: nat)
    requires from <= to <= |s| && !Occurs(s, VERSION_MARK)
    ensures !Occurs(s[from..to], VERSION_MARK)
  {
    if Occurs(s[from..to], VERSION_MARK) {
      var i: nat :| StandsAt(s[from..to], VERSION_MARK, i);
      StandsFurther(s, from, to, VERSION_MARK, i);
    }
  }

  lemma StandsFurther(s: string, from: nat, to: nat, needle: string, i: nat)
    requires from <= to <= |s| && StandsAt(s[from..to], needle, i)
    ensures StandsAt(s, needle, from + i)
  {
    forall k | 0 <= k < |needle| ensures s[from + i + k] == needle[k] {
      assert s[from..to][i..i + |needle|][k] == needle[k];
    }
  }

  lemma CutHoldsNoMark(line: string)
    ensures !Occurs(line[..TargetLength(line)], VERSION_MARK)
  {
    var n := TargetLength(line);
    IndexIsFirst(line, VERSION_MARK, 0);
    if Occurs(line[..n], VERSION_MARK) {
      var i: nat :| StandsAt(line[..n], VERSION_MARK, i);
      assert line[0..n] == line[..n];
      StandsFurther(line, 0, n, VERSION_MARK, i);
      IndexIsFirst(line, VERSION_MARK, i);
    }
  }

  lemma TargetConsumes(env: Env, ctx: Context)
    requires TargetParser(env, ctx).Ok?
    ensures var line := LineContext(ctx).Rem(); Consumed(ctx, TargetParser(env, ctx).next) == line[..TargetLength(line)]
  {
    var line, next := LineContext(ctx).Rem(), TargetParser(env, ctx).next;
    assert next.off == ctx.off + TargetLength(line);
    assert line == ctx.Rem()[..|line|];
    assert ctx.src[ctx.off..next.off] == ctx.Rem()[..next.off - ctx.off];
  }

  lemma LineReadIsSource(env: Env, ctx: Context)
    ensures RequestLineParser(env, ctx).Ok? ==> LineIsSource(ctx.src, RequestLineParser(env, ctx).value)
  {
    if RequestLineParser(env, ctx).Ok? {
      var afterVerb := VerbParser(env, ctx).next;
      var afterTarget := TargetParser(env, afterVerb).next;
      TargetConsumes(env, afterVerb);
      CutHoldsNoMark(LineContext(afterVerb).Rem());
      SpanIsPart(afterVerb, afterTarget, IsCutSpace);
      SpanIsSource(afterVerb, afterTarget, IsCutSpace);
      SpanIsSource(afterTarget, OptionalVersion(env, afterTarget), IsCutSpace);
      hide VerbParser, TargetParser, OptionalVersion, SpanOf, LineContext, TargetLength, Occurs;
    }
  }

  lemma SpanIsPart(before: Context, after: Context, cut: char -> bool)
    requires Ahead(before, after) && !Occurs(Consumed(before, after), VERSION_MARK)
    ensures !Occurs(SpanOf(before, after, cut).text, VERSION_MARK)
  {
    var consumed := Consumed(before, after);
    var lead := Run(consumed, IsBlank);
    var tail := if Kept(consumed, cut) < lead then lead else Kept(consumed, cut);
    hide Occurs;
    PartHoldsNoMark(consumed, lead, tail);
  }
}
