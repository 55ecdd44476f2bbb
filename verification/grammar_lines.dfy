/** The grammar on lines the printer writes. */
module HttpGrammarLines {
  import opened Text
  import opened HttpGrammar
  import opened HttpBlocks

  /** `a` is what the context reads next, `b` what remains after it. */
  predicate Reads(ctx: Context, a: string, b: string) {
    ctx.Rem() == a + b
  }

  lemma After(ctx: Context, a: string, b: string)
    requires Reads(ctx, a, b)
    ensures |a| <= ctx.Left() && ctx.Forward(|a|).Rem() == b
    ensures ctx.src[ctx.off..ctx.off + |a|] == a
  {
    assert (a + b)[|a|..] == b;
    assert (a + b)[..|a|] == a;
  }

  lemma ManyOf(p: char -> bool, ctx: Context, a: string, b: string)
    requires Reads(ctx, a, b)
    requires All(a, p) && (b == "" || !p(b[0]))
    ensures |a| <= ctx.Left() && Many(p, ctx) == (a, ctx.Forward(|a|))
    ensures ctx.Forward(|a|).Rem() == b
  {
    After(ctx, a, b);
    RunOfConcat(a, b, p);
  }

  lemma {:induction false} IndexOfBreak(line: string, rest: string)
    requires OneLine(line)
    ensures IndexOf(line + ("\n" + rest), "\n") == Some(|line|)
  {
    if line == "" {
      assert "" + ("\n" + rest) == "\n" + rest;
    } else {
      var s := line + ("\n" + rest);
      assert s[0] == line[0] && line[0] in line;
      assert s[1..] == line[1..] + ("\n" + rest);
      IndexOfBreak(line[1..], rest);
    }
  }

  lemma {:induction false} IndexOfColon(name: string, rest: string)
    requires ':' !in name
    ensures IndexOf(name + (":" + rest), ":") == Some(|name|)
  {
    if name == "" {
      assert "" + (":" + rest) == ":" + rest;
    } else {
      var s := name + (":" + rest);
      assert s[0] == name[0] && name[0] in name;
      assert s[1..] == name[1..] + (":" + rest);
      IndexOfColon(name[1..], rest);
    }
  }

  lemma BreakConsumed(ctx: Context, rest: string)
    requires Reads(ctx, "\n", rest)
    ensures ConsumeEndOfLine(ctx) == ctx.Forward(1) && ctx.Forward(1).Rem() == rest
  {
    After(ctx, "\n", rest);
    assert ctx.Rem()[0] == '\n';
  }

  // ---- comment lines ---------------------------------------------------------

  lemma NoteReads(ctx: Context, line: string, rest: string)
    requires Reads(ctx, line, "\n" + rest)
    requires OneLine(line) && "#" <= line
    ensures |line| < ctx.Left()
    ensures NoteParser(ctx).Ok? && NoteParser(ctx).next == ctx.Forward(|line|)
    ensures ctx.Forward(|line|).Rem() == "\n" + rest
  {
    After(ctx, line, "\n" + rest);
    assert |line| == 1 ==> ctx.Rem()[1] == '\n';
    assert |line| == 2 ==> ctx.Rem()[2] == '\n';
    if "###" <= ctx.Rem() {
      assert ctx.Rem()[1] == '#' && ctx.Rem()[2] == '#';
      PrefixedNoteReads(ctx, SEPARATOR, line, rest);
    } else {
      PrefixedNoteReads(ctx, "#", line, rest);
    }
  }

  lemma PrefixedNoteReads(ctx: Context, prefix: string, line: string, rest: string)
    requires Reads(ctx, line, "\n" + rest)
    requires OneLine(line) && prefix <= ctx.Rem() && |prefix| <= |line|
    ensures |line| < ctx.Left()
    ensures CommentParser(prefix, ctx).Ok? && CommentParser(prefix, ctx).next == ctx.Forward(|line|)
  {
    var text := line[|prefix|..];
    assert line == prefix + text by {
      assert (line + ("\n" + rest))[..|prefix|] == line[..|prefix|];
    }
    After(ctx, line, "\n" + rest);
    assert Reads(ctx, prefix, text + ("\n" + rest)) by {
      assert prefix + text + ("\n" + rest) == prefix + (text + ("\n" + rest));
    }
    After(ctx, prefix, text + ("\n" + rest));
    IndexOfBreak(text, rest);
  }

  /** Note lines in a row, and then something else. */
  lemma {:induction false} NotesRead(ctx: Context, notes: seq<string>, rest: string)
    requires ctx.Rem() == Unlines(notes) + rest
    requires forall i :: 0 <= i < |notes| ==> OneLine(notes[i]) && "#" <= notes[i]
    requires rest == "" || rest[0] != '#'
    ensures CommentLines(ctx).1.src == ctx.src && CommentLines(ctx).1.Rem() == rest
    ensures CommentLines(ctx).0 == [] <==> notes == []
    decreases |notes|
  {
    CommentLinesStep(ctx);
    if notes == [] {
      assert ctx.Rem() == rest;
      assert !("#" <= rest);
    } else {
      var line, below := notes[0], Unlines(notes[1..]) + rest;
      assert Unlines(notes) + rest == line + ("\n" + below) by {
        Associate(line, "\n", Unlines(notes[1..]), rest);
      }
      NoteReads(ctx, line, below);
      BreakConsumed(ctx.Forward(|line|), below);
      hide CommentLines, NoteParser, ConsumeEndOfLine;
      NotesRead(ConsumeEndOfLine(NoteParser(ctx).next), notes[1..], rest);
    }
  }

  lemma Associate(a: string, b: string, c: string, d: string)
    ensures a + b + c + d == a + (b + (c + d))
  {
  }

  // ---- request lines ------------------------------------------------------------

  const FORM_VERBS: seq<string> := ["GET", "POST", "PUT", "PATCH", "DELETE", "HEAD", "OPTIONS", "QUERY"]

  predicate IsUpperWord(s: string) {
    s != "" && forall i :: 0 <= i < |s| ==> 'A' <= s[i] <= 'Z'
  }

  lemma FoldOfUpper(a: string, b: string)
    requires IsUpperWord(a) && IsUpperWord(b)
    ensures EqualFold(a, b) <==> a == b
  {
    if EqualFold(a, b) {
      forall i | 0 <= i < |a| ensures a[i] == b[i] {
        assert FoldChar(a[i]) == FoldChar(b[i]);
      }
    }
  }

  lemma {:induction false} VerbAmong(verb: string, verbs: seq<string>)
    requires verb in verbs && forall i :: 0 <= i < |verbs| ==> IsUpperWord(verbs[i])
    ensures ParseVerb(verb, verbs) == Some(verb)
  {
    assert IsUpperWord(verb);
    FoldOfUpper(verbs[0], verb);
    if verbs[0] != verb {
      VerbAmong(verb, verbs[1..]);
    }
  }

  lemma FormVerbFacts(verb: string)
    requires verb in FORM_VERBS
    ensures IsUpperWord(verb) && ParseVerb(verb, VERBS) == Some(verb)
  {
    assert verb in VERBS;
    assert forall i :: 0 <= i < |VERBS| ==> IsUpperWord(VERBS[i]);
    VerbAmong(verb, VERBS);
  }

  lemma VerbReads(env: Env, ctx: Context, verb: string, rest: string)
    requires verb in FORM_VERBS
    requires Reads(ctx, verb, " " + rest)
    requires rest != "" && !Space(env, rest[0])
    ensures VerbParser(env, ctx).Ok? && VerbParser(env, ctx).value == verb
    ensures |verb| + 1 <= ctx.Left() && VerbParser(env, ctx).next == ctx.Forward(|verb| + 1)
    ensures ctx.Forward(|verb| + 1).Rem() == rest
  {
    FormVerbFacts(verb);
    var isAlnum := WordRune(env);
    ManyOf(isAlnum, ctx, verb, " " + rest);
    var after := ctx.Forward(|verb|);
    ManyOf(SpaceRune(env), after, " ", rest);
  }

  /** A target the grammar accepts: a URL it can parse, or a template. */
  predicate UsableTarget(env: Env, target: string) {
    && target != "" && !Space(env, target[0])
    && All(target, IsNotRegexSpace)
    && ((Contains(target, "://") && env.url(target)) || Contains(target, "{{"))
  }

  lemma LineOf(ctx: Context, line: string, rest: string)
    requires Reads(ctx, line, "\n" + rest) && OneLine(line)
    ensures LineContext(ctx).Rem() == line
  {
    assert ("\n" + rest)[0] == '\n';
    RunOfConcat(line, "\n" + rest, IsNoBreak);
    After(ctx, line, "\n" + rest);
  }

  lemma TargetFacts(env: Env, target: string)
    requires UsableTarget(env, target)
    ensures OneLine(target) && ' ' !in target && TrimRight(target, IsCutSpace) == target
    ensures !IsBlank(target[0]) && !IsCutSpace(target[|target| - 1])
  {
    assert IsNotRegexSpace(target[0]) && IsNotRegexSpace(target[|target| - 1]);
    KeptIs(target, IsCutSpace, |target|);
  }

  lemma TargetReads(env: Env, ctx: Context, target: string, rest: string)
    requires UsableTarget(env, target)
    requires Reads(ctx, target, "\n" + rest)
    ensures |target| < ctx.Left()
    ensures TargetParser(env, ctx).Ok? && TargetParser(env, ctx).next == ctx.Forward(|target|)
    ensures SpanOf(ctx, ctx.Forward(|target|), IsCutSpace).text == target
  {
    TargetFacts(env, target);
    LineOf(ctx, target, rest);
    NoVersionIn(target);
    After(ctx, target, "\n" + rest);
    RunIs(target, IsBlank, 0);
    KeptIs(target, IsCutSpace, |target|);
    assert target[..|target|] == target;
  }

  /** Nothing the parser skips is a line break, so a version never comes from another line. */
  predicate BlanksStayOnLine(env: Env) {
    !Space(env, '\n')
  }

  lemma NoVersion(env: Env, ctx: Context, rest: string)
    requires BlanksStayOnLine(env) && ctx.Rem() == "\n" + rest
    ensures OptionalVersion(env, ctx) == ctx
  {
    assert ctx.Rem()[0] == '\n';
    assert "" + ctx.Rem() == ctx.Rem();
    ManyOf(SpaceRune(env), ctx, "", ctx.Rem());
    assert Spaces(env, ctx) == ctx;
    assert "HTTP/"[0] == 'H';
  }

  lemma RequestLineReads(env: Env, ctx: Context, verb: string, target: string, rest: string)
    requires BlanksStayOnLine(env) && verb in FORM_VERBS && UsableTarget(env, target)
    requires Reads(ctx, verb, " " + (target + ("\n" + rest)))
    ensures var r := RequestLineParser(env, ctx);
      && r.Ok? && r.value.verb.text == verb && r.value.target.text == target
      && r.next.src == ctx.src && r.next.Rem() == "\n" + rest
  {
    var tail := target + ("\n" + rest);
    TargetOpens(env, target);
    assert tail[0] == target[0];
    hide VerbParser, TargetParser, OptionalVersion, UsableTarget, Space, SpanOf, BlanksStayOnLine;
    VerbReads(env, ctx, verb, tail);
    var afterVerb := VerbParser(env, ctx).next;
    assert Reads(afterVerb, target, "\n" + rest);
    TargetReads(env, afterVerb, target, rest);
    After(afterVerb, target, "\n" + rest);
    NoVersion(env, afterVerb.Forward(|target|), rest);
  }

  lemma TargetOpens(env: Env, target: string)
    requires UsableTarget(env, target)
    ensures !Space(env, target[0])
  {
  }

  // ---- variables and headers --------------------------------------------------------

  /** A value that starts and ends on the line, and is read whole. */
  predicate PlainValue(value: string) {
    OneLine(value) && '\r' !in value && Trimmed(value)
  }

  lemma ValueSpan(before: Context, after: Context, value: string)
    requires Ahead(before, after) && Consumed(before, after) == " " + value
    requires PlainValue(value)
    ensures SpanOf(before, after, IsCutSpace).text == value
  {
    var consumed := " " + value;
    RunOfConcat(" ", value, IsBlank);
    if value == "" {
      KeptIs(consumed, IsCutSpace, 0);
    } else {
      assert consumed[|consumed| - 1] == value[|value| - 1];
      KeptIs(consumed, IsCutSpace, |consumed|);
      assert consumed[1..|consumed|] == value;
    }
  }

  lemma NameSpan(before: Context, after: Context, name: string)
    requires Ahead(before, after) && Consumed(before, after) == name + ":"
    requires name != "" && All(name, IsWord)
    ensures SpanOf(before, after, IsCutColon).text == name
  {
    var consumed := name + ":";
    assert IsWord(name[0]) && IsWord(name[|name| - 1]);
    assert consumed[0] == name[0] && consumed[|name| - 1] == name[|name| - 1];
    RunIs(consumed, IsBlank, 0);
    KeptIs(consumed, IsCutColon, |name|);
    assert consumed[0..|name|] == name;
  }

  lemma ValueReads(ctx: Context, value: string, rest: string)
    requires PlainValue(value)
    requires Reads(ctx, " " + value, "\n" + rest)
    ensures |value| + 1 < ctx.Left()
    ensures Many(IsNoBreakOrReturn, ctx).1 == ctx.Forward(|value| + 1)
    ensures ctx.Forward(|value| + 1).Rem() == "\n" + rest
    ensures SpanOf(ctx, ctx.Forward(|value| + 1), IsCutSpace).text == value
  {
    var line := " " + value;
    assert All(line, IsNoBreakOrReturn) by {
      forall i | 0 <= i < |line| ensures IsNoBreakOrReturn(line[i]) {
        assert i > 0 ==> line[i] == value[i - 1] && value[i - 1] in value;
      }
    }
    ManyOf(IsNoBreakOrReturn, ctx, line, "\n" + rest);
    After(ctx, line, "\n" + rest);
    ValueSpan(ctx, ctx.Forward(|value| + 1), value);
  }

  lemma WordHasNo(name: string)
    requires All(name, IsWord)
    ensures ':' !in name && All(name, IsNameChar)
  {
  }

  lemma HeaderReads(ctx: Context, key: string, value: string, rest: string)
    requires key != "" && All(key, IsWord) && PlainValue(value)
    requires Reads(ctx, key, ":" + (" " + value + ("\n" + rest)))
    ensures var r := HeaderParser(ctx);
      && r.Ok? && r.value.name.text == key && r.value.value.text == value
      && r.next.src == ctx.src && r.next.Rem() == "\n" + rest
  {
    var line := " " + value + ("\n" + rest);
    WordHasNo(key);
    IndexOfColon(key, line);
    After(ctx, key, ":" + line);
    assert Reads(ctx, key + ":", line) by { assert key + ":" + line == key + (":" + line); }
    After(ctx, key + ":", line);
    assert ctx.Rem()[..|key|] == key;
    var afterName := ctx.Forward(|key| + 1);
    assert UntilText(IsNameChar, ":", true, ctx) == Ok(key, afterName);
    hide UntilText, Many, SpanOf, PlainValue;
    NameSpan(ctx, afterName, key);
    ValueReads(afterName, value, rest);
  }

  /** What reads a variable, its parts read one after the other. */
  lemma VariableIs(env: Env, ctx: Context, name: string, marker: Context, afterName: Context, beforeAssign: Context, next: Context)
    requires StringMatch("@", ctx) == Ok("@", marker) && Many(NameRune(env), marker) == (name, afterName) && name != ""
    requires Spaces(env, afterName) == beforeAssign && "=" <= beforeAssign.Rem()
    requires Many(IsNoBreakOrReturn, beforeAssign.Forward(1)).1 == next
    ensures var r := VariableParser(env, ctx);
      r.Ok? && r.value.name.text == name && r.value.value == SpanOf(beforeAssign.Forward(1), next, IsCutSpace) && r.next == next
  {
    hide Many, SpanOf, StringMatch, Spaces, NameRune;
  }

  lemma VariableNameReads(env: Env, ctx: Context, key: string, line: string)
    requires key != "" && All(key, IsWord) && Reads(ctx, "@", key + (" " + ("=" + line)))
    ensures |key| + 3 <= ctx.Left() && Reads(ctx.Forward(|key| + 2), "=", line)
    ensures StringMatch("@", ctx) == Ok("@", ctx.Forward(1))
    ensures Many(NameRune(env), ctx.Forward(1)) == (key, ctx.Forward(|key| + 1))
    ensures Spaces(env, ctx.Forward(|key| + 1)) == ctx.Forward(|key| + 2)
  {
    After(ctx, "@", key + (" " + ("=" + line)));
    WordsAreNames(env, key);
    NothingNamesBlank(env);
    hide Many, NameRune, SpaceRune;
    ManyOf(NameRune(env), ctx.Forward(1), key, " " + ("=" + line));
    ManyOf(SpaceRune(env), ctx.Forward(|key| + 1), " ", "=" + line);
  }

  lemma VariableReads(env: Env, ctx: Context, key: string, value: string, rest: string)
    requires key != "" && All(key, IsWord) && PlainValue(value)
    requires Reads(ctx, "@", key + (" " + ("=" + (" " + value + ("\n" + rest)))))
    ensures var r := VariableParser(env, ctx);
      && r.Ok? && r.value.name.text == key && r.value.value.text == value
      && r.next.src == ctx.src && r.next.Rem() == "\n" + rest
  {
    hide Many, SpanOf, PlainValue, NameRune, SpaceRune, Spaces, StringMatch, VariableParser;
    VariableNameReads(env, ctx, key, " " + value + ("\n" + rest));
    var beforeAssign := ctx.Forward(|key| + 2);
    After(beforeAssign, "=", " " + value + ("\n" + rest));
    ValueReads(beforeAssign.Forward(1), value, rest);
    VariableIs(env, ctx, key, ctx.Forward(1), ctx.Forward(|key| + 1), beforeAssign, beforeAssign.Forward(|value| + 2));
  }

  lemma NothingNamesBlank(env: Env)
    ensures !NameRune(env)(' ') && SpaceRune(env)(' ') && !SpaceRune(env)('=')
  {
  }

  lemma WordsAreNames(env: Env, key: string)
    requires All(key, IsWord)
    ensures All(key, NameRune(env))
  {
  }

  // ---- bodies -------------------------------------------------------------------------

  lemma LineReads(ctx: Context, line: string, rest: string)
    requires Reads(ctx, line, "\n" + rest) && OneLine(line)
    ensures ReadLine(ctx).1.src == ctx.src && ReadLine(ctx).1.Rem() == rest
    ensures ReadLine(ctx).1 == ctx.Forward(|line| + 1)
  {
    assert ("\n" + rest)[0] == '\n';
    RunOfConcat(line, "\n" + rest, IsNoBreak);
    assert line + ("\n" + rest) == line + "\n" + rest;
    After(ctx, line + "\n", rest);
  }

  lemma SeparatorOpensLine(ctx: Context, line: string, rest: string)
    requires Reads(ctx, line, "\n" + rest) && OneLine(line)
    ensures SEPARATOR <= ctx.Rem() <==> SEPARATOR <= line
  {
    var s := line + ("\n" + rest);
    assert |line| < 3 ==> s[|line|] == '\n';
    assert |line| >= 3 ==> s[..3] == line[..3];
  }

  /** Lines that do not open a block are read up to the one that does, or to the end. */
  lemma {:induction false} LinesRead(ctx: Context, lines: seq<string>, rest: string)
    requires ctx.Rem() == Unlines(lines) + rest
    requires forall i :: 0 <= i < |lines| ==> OneLine(lines[i]) && !(SEPARATOR <= lines[i])
    requires rest == "" || SEPARATOR <= rest
    ensures UntilSeparator(ctx).src == ctx.src && UntilSeparator(ctx).Rem() == rest
    decreases |lines|
  {
    if lines == [] {
      assert ctx.Rem() == rest;
    } else {
      var line, below := lines[0], Unlines(lines[1..]) + rest;
      Associate(line, "\n", Unlines(lines[1..]), rest);
      assert Reads(ctx, line, "\n" + below);
      SeparatorOpensLine(ctx, line, below);
      LineReads(ctx, line, below);
      assert !ctx.AtEnd();
      hide ReadLine;
      LinesRead(ReadLine(ctx).1, lines[1..], rest);
    }
  }

  lemma BlankLineReads(ctx: Context, rest: string)
    requires ctx.Rem() == "\n" + rest
    ensures IsBlankLine(ctx) && !ctx.AtEnd()
    ensures ReadLine(ctx).1.src == ctx.src && ReadLine(ctx).1.Rem() == rest
  {
    assert ctx.Rem()[0] == '\n';
    RunIs(ctx.Rem(), IsCutSpace, 0);
    assert "" + ("\n" + rest) == "\n" + rest;
    LineReads(ctx, "", rest);
  }

  lemma NotBlankLine(ctx: Context)
    requires !ctx.AtEnd() && !IsCutSpace(ctx.Rem()[0]) && ctx.Rem()[0] != '\n'
    ensures !IsBlankLine(ctx)
  {
    RunIs(ctx.Rem(), IsCutSpace, 0);
  }
}
