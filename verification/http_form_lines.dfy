/** What each printed line reads back as. */
module HttpFormLines {
  import opened Text
  import opened HttpForm

  predicate ShapeRow(row: KV) {
    All(row.key, IsWord) && OneLine(row.value) && Trimmed(row.value)
  }

  lemma AfterSeparatorOf(gap: string, separator: string, value: string)
    requires All(gap, IsRegexSpace)
    requires |separator| == 1 && !IsRegexSpace(separator[0])
    requires Trimmed(value)
    ensures AfterSeparator(gap + (separator + (" " + value)), separator[0]) == Some(value)
  {
    RunOfConcat(gap, separator + (" " + value), IsRegexSpace);
    assert (separator + (" " + value))[1..] == " " + value;
    RunOfConcat(" ", value, IsRegexSpace);
    TrimSpaceOfTrimmed(value);
  }

  lemma NameValueOf(key: string, gap: string, separator: string, value: string, on: bool)
    requires key != "" && All(key, IsWord)
    requires All(gap, IsRegexSpace)
    requires separator == ":" || separator == "="
    requires Trimmed(value)
    ensures NameValue(key + (gap + (separator + (" " + value))), separator[0], on) == Some(KV(key, value, on))
  {
    var rest := gap + (separator + (" " + value));
    assert rest[0] == if gap == "" then separator[0] else gap[0];
    assert !IsWord(rest[0]);
    hide AfterSeparator, Trimmed, TrimSpace, Run, IsRegexSpace;
    AfterSeparatorOf(gap, separator, value);
    RunOfConcat(key, rest, IsWord);
  }

  lemma VarTextReads(v: KV)
    requires ShapeRow(v) && WritesVar(v)
    ensures VarLine(VarText(v)) == Some(v)
    ensures !("###" <= VarText(v))
  {
    var plain := v.key + (" " + ("=" + (" " + v.value)));
    VarTextIs(v, plain);
    hide VarText, NameValue;
    NameValueOf(v.key, " ", "=", v.value, true);
    assert VarText(v)[1..] == plain;
    assert VarText(v)[0] == '@';
  }

  lemma VarTextIs(v: KV, plain: string)
    requires plain == v.key + (" " + ("=" + (" " + v.value)))
    ensures VarText(v) == "@" + plain
  {
    assert " " + ("=" + (" " + v.value)) == " = " + v.value;
  }

  lemma HeaderTextIs(h: KV, plain: string)
    requires plain == h.key + ("" + (":" + (" " + h.value)))
    ensures HeaderText(h) == if h.on then plain else "#" + (" " + plain)
  {
    assert "" + (":" + (" " + h.value)) == ": " + h.value;
    assert plain == h.key + ": " + h.value;
    assert "#" + (" " + plain) == "# " + plain;
  }

  function Plain(h: KV): string {
    h.key + ("" + (":" + (" " + h.value)))
  }

  lemma PlainReads(h: KV)
    requires ShapeRow(h) && h.key != ""
    ensures HeaderLine(Plain(h), h.on) == Some(h)
  {
    NameValueOf(h.key, "", ":", h.value, h.on);
  }

  lemma PlainOpens(h: KV)
    requires ShapeRow(h) && h.key != ""
    ensures Plain(h) != "" && IsWord(Plain(h)[0])
  {
    assert Plain(h)[0] == h.key[0];
  }

  lemma PlainText(h: KV)
    ensures HeaderText(h) == if h.on then Plain(h) else "#" + (" " + Plain(h))
  {
    HeaderTextIs(h, Plain(h));
  }

  lemma NoMarker(line: string)
    requires line != "" && IsWord(line[0])
    ensures Uncomment(line).None?
  {
    TrimLeftNothing(line, IsBlank);
  }

  lemma TickedHeaderReads(h: KV)
    requires ShapeRow(h) && h.key != "" && h.on
    ensures HeaderText(h) != "" && IsWord(HeaderText(h)[0])
    ensures Uncomment(HeaderText(h)).None?
    ensures HeaderLine(HeaderText(h), true) == Some(h)
  {
    PlainText(h);
    hide *;
    PlainReads(h);
    PlainOpens(h);
    NoMarker(Plain(h));
  }

  lemma UncommentOf(plain: string)
    requires plain != "" && IsWord(plain[0])
    ensures Uncomment("#" + (" " + plain)) == Some(plain)
  {
    var line := "#" + (" " + plain);
    TrimLeftNothing(line, IsBlank);
    assert line[1..] == " " + plain;
    RunOfConcat(" ", plain, IsBlank);
  }

  lemma UntickedHeaderReads(h: KV)
    requires ShapeRow(h) && h.key != "" && !h.on
    ensures |HeaderText(h)| > 1 && HeaderText(h)[0] == '#' && HeaderText(h)[1] == ' '
    ensures Uncomment(HeaderText(h)).Some?
    ensures HeaderLine(Uncomment(HeaderText(h)).value, false) == Some(h)
  {
    PlainText(h);
    assert h.on == false;
    hide Plain, HeaderText, HeaderLine, ShapeRow, Uncomment;
    PlainReads(h);
    PlainOpens(h);
    UncommentOf(Plain(h));
  }

  lemma NotBlank(line: string)
    requires line != "" && !IsSpace(line[0])
    ensures TrimSpace(line) != ""
  {
    TrimLeftNothing(line, IsSpace);
  }

  // ---- titles --------------------------------------------------------------

  lemma TitleLineOf(name: string)
    requires Trimmed(name)
    ensures TitleLine(name) == if name == "" then "###" else "### " + name
  {
    var s := "### " + name;
    KeptIs(s, IsOnlySpace, if name == "" then 3 else |s|);
  }

  predicate OpensWithHash(name: string) {
    name != "" && name[0] == '#'
  }

  /** A title survives the trip exactly when it does not open with a marker of its own. */
  lemma TitleReads(name: string)
    requires Trimmed(name)
    ensures TitleOf(TitleLine(name)) == name <==> !OpensWithHash(name)
    ensures OpensWithHash(name) ==> |TitleOf(TitleLine(name))| < |name|
  {
    TitleLineOf(name);
    var line := TitleLine(name);
    if name == "" {
      RunIs(line, IsHashOrSpace, 3);
    } else if name[0] != '#' {
      assert line[4] == name[0];
      RunIs(line, IsHashOrSpace, 4);
      assert line[4..] == name;
      TrimSpaceOfTrimmed(name);
    } else {
      assert line[4] == '#';
      var n := Run(line, IsHashOrSpace);
      assert n >= 5;
    }
  }

  // ---- request lines -------------------------------------------------------

  predicate NoRegexSpace(url: string) {
    All(url, IsNotRegexSpace)
  }

  /** What the line parser can leave in the target: one word, or a trimmed line kept whole. */
  predicate ShapeUrl(url: string) {
    OneLine(url) && (NoRegexSpace(url) || Trimmed(url))
  }

  lemma VerbFacts(verb: string)
    requires IsMethod(verb)
    ensures verb != "" && All(verb, IsAsciiLetter) && Upper(verb) == verb
    ensures forall i :: 0 <= i < |verb| ==> 'A' <= verb[i] <= 'Z'
  {
    assert verb in ["GET", "POST", "PUT", "PATCH", "DELETE", "HEAD", "OPTIONS", "QUERY"];
    assert Upper(verb) == verb;
  }

  lemma VerbIsTrimmed(verb: string)
    requires IsMethod(verb)
    ensures Trimmed(verb) && TrimSpace(verb) == verb
  {
    VerbFacts(verb);
    assert IsAsciiLetter(verb[0]) && IsAsciiLetter(verb[|verb| - 1]);
    TrimSpaceOfTrimmed(verb);
  }

  lemma RequestLineOf(verb: string, url: string)
    requires IsMethod(verb) && ShapeUrl(url)
    ensures TrimRight(verb + (" " + url), IsOnlySpace) == if url == "" then verb else verb + (" " + url)
  {
    VerbFacts(verb);
    var s := verb + (" " + url);
    if url == "" {
      assert IsAsciiLetter(verb[|verb| - 1]);
      KeptIs(s, IsOnlySpace, |verb|);
      assert s[..|verb|] == verb;
    } else {
      assert IsNotRegexSpace(url[|url| - 1]) || !IsSpace(url[|url| - 1]);
      KeptIs(s, IsOnlySpace, |s|);
    }
  }

  lemma ReqLineWithoutTarget(verb: string)
    requires IsMethod(verb)
    ensures ReqLine(verb) == None
  {
    VerbFacts(verb);
    RunIs(verb, IsAsciiLetter, |verb|);
    assert verb[|verb|..] == "";
  }

  /** The parts a request line with a target is cut into. */
  lemma ReqLineParts(verb: string, url: string)
    requires IsMethod(verb)
    requires url != "" && IsNotRegexSpace(url[0])
    ensures var k := Run(url, IsNotRegexSpace);
      k > 0 && ReqLine(verb + (" " + url)) == if ReqLineTail(url[k..]) then Some((verb, url[..k])) else None
  {
    VerbFacts(verb);
    hide Run, ReqLineTail, IsMethod, Upper, UpperChar, TrimLeft;
    RunOfConcat(verb, " " + url, IsAsciiLetter);
    RunOfConcat(" ", url, IsRegexSpace);
  }

  lemma ReadableRequestLine(r: Request, verb: string, url: string)
    requires IsMethod(verb) && NoRegexSpace(url)
    ensures var line := TrimRight(verb + (" " + url), IsOnlySpace);
      ReadRequestLine(r, line) == if url == "" then r.(verb := verb) else r.(verb := verb, url := url)
  {
    VerbFacts(verb);
    assert url != "" ==> url[..|url|] == url && url[|url|..] == "" && ReqLineTail("");
    assert OneLine(url);
    hide ReqLine, ReqLineTail, TrimRight, TrimSpace, Run, Upper, IsMethod, OneLine;
    RequestLineOf(verb, url);
    VerbIsTrimmed(verb);
    if url == "" {
      ReqLineWithoutTarget(verb);
    } else {
      ReqLineParts(verb, url);
      RunIs(url, IsNotRegexSpace, |url|);
    }
  }

  lemma NotAVerb(line: string, i: nat)
    requires i < |line| && line[i] == ' '
    ensures !IsMethod(Upper(line))
  {
    assert Upper(line)[i] == ' ';
    if IsMethod(Upper(line)) {
      VerbFacts(Upper(line));
      assert false;
    }
  }

  /** A target with a blank in it never comes back as it was printed. */
  lemma UnreadableRequestLine(r: Request, verb: string, url: string)
    requires IsMethod(verb) && ShapeUrl(url) && !NoRegexSpace(url)
    requires r.verb == "GET" && r.url == ""
    ensures var line := TrimRight(verb + (" " + url), IsOnlySpace);
      var q := ReadRequestLine(r, line);
      && line == verb + (" " + url)
      && (ReqLine(line).Some? ==> q.verb == verb && q.url == url[..Run(url, IsNotRegexSpace)] && 0 < |q.url| < |url|)
      && (ReqLine(line).None? ==> q.verb == "GET" && q.url == line)
  {
    VerbFacts(verb);
    var line := verb + (" " + url);
    assert IsNotRegexSpace(url[0]);
    assert line[0] == verb[0] && line[|line| - 1] == url[|url| - 1] && line[|verb|] == ' ';
    assert Trimmed(line);
    hide ReqLine, Run, TrimRight, TrimSpace, Upper, IsMethod, Kept;
    RequestLineOf(verb, url);
    ReqLineParts(verb, url);
    TrimSpaceOfTrimmed(line);
    NotAVerb(line, |verb|);
  }
}
