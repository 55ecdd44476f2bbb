/** What substitution does to a text, placeholder by placeholder, and where a request sends the result. */
module HttpPlaceholders {
  import opened Text
  import opened HttpForm
  import opened HttpGrammar
  import opened HttpBlocks
  import opened HttpSend

  // ---- placeholders -----------------------------------------------------------------

  /** A name between double braces, blanks allowed around it. */
  datatype Braced = Braced(left: string, name: string, right: string) {
    predicate Valid() {
      All(left, IsRegexSpace) && name != "" && All(name, IsWord) && All(right, IsRegexSpace)
    }

    function Inner(): string {
      left + (name + right)
    }

    function Text(): string {
      "{{" + (Inner() + "}}")
    }
  }

  /** No two braces open anywhere in the text. */
  predicate NoBraces(s: string) {
    forall i :: 0 <= i < |s| - 1 ==> !(s[i] == '{' && s[i + 1] == '{')
  }

  predicate Answers(v: KV, name: string) {
    v.on && v.key == name
  }

  /** Row `i` is the first ticked one of this name. */
  predicate FirstRow(vars: seq<KV>, name: string, i: nat) {
    i < |vars| && Answers(vars[i], name) && forall j :: 0 <= j < i ==> !Answers(vars[j], name)
  }

  predicate NoRow(vars: seq<KV>, name: string) {
    forall j :: 0 <= j < |vars| ==> !Answers(vars[j], name)
  }

  predicate OpensWith(s: string, b: Braced, rest: string) {
    b.Valid() && s == b.Text() + rest
  }

  lemma DropFirst(a: string, b: string)
    ensures (a + b)[|a|..] == b && (a + b)[..|a|] == a
  {
  }

  lemma DropMore(s: string, i: nat, j: nat)
    requires i + j <= |s|
    ensures s[i + j..] == s[i..][j..] && s[i..i + j] == s[i..][..j]
  {
  }

  lemma PartsFollow(s: string, left: string, name: string, right: string, close: string)
    requires s == "{{" + (left + (name + (right + close)))
    ensures |s| == 2 + |left| + |name| + |right| + |close| && "{{" <= s && s[2..] == left + (name + (right + close))
    ensures s[2 + |left|..] == name + (right + close) && s[2 + |left|..2 + |left| + |name|] == name
    ensures s[2 + |left| + |name|..] == right + close && s[2 + |left| + |name| + |right|..] == close
  {
    DropFirst("{{", left + (name + (right + close)));
    DropFirst(left, name + (right + close));
    DropFirst(name, right + close);
    DropFirst(right, close);
    var x := 2 + |left|;
    DropMore(s, 2, |left|);
    DropMore(s, x, |name|);
    DropMore(s, x + |name|, |right|);
  }

  lemma PlaceholderRuns(s: string, x: nat, y: nat, z: nat)
    requires "{{" <= s && x == 2 + Run(s[2..], IsRegexSpace) && y == x + Run(s[x..], IsWord) && z == y + Run(s[y..], IsRegexSpace)
    ensures x <= y <= z <= |s| && PlaceholderAt(s) == if x < y && "}}" <= s[z..] then Some((z + 2, s[x..y])) else None
  {
    hide Run;
  }

  lemma BlanksRun(left: string, name: string, tail: string)
    requires All(left, IsRegexSpace) && name != "" && All(name, IsWord)
    ensures Run(left + (name + tail), IsRegexSpace) == |left|
  {
    assert IsWord(name[0]) && (name + tail)[0] == name[0];
    hide Run;
    RunOfConcat(left, name + tail, IsRegexSpace);
  }

  lemma NameRuns(name: string, right: string, close: string)
    requires All(name, IsWord) && All(right, IsRegexSpace) && close != "" && close[0] == '}'
    ensures Run(name + (right + close), IsWord) == |name|
  {
    assert (right + close)[0] == if right == "" then close[0] else right[0];
    assert right != "" ==> IsRegexSpace(right[0]);
    hide Run;
    RunOfConcat(name, right + close, IsWord);
  }

  lemma BlanksCloseRun(right: string, close: string)
    requires All(right, IsRegexSpace) && close != "" && close[0] == '}'
    ensures Run(right + close, IsRegexSpace) == |right|
  {
    hide Run;
    RunOfConcat(right, close, IsRegexSpace);
  }

  lemma PlaceholderIs(s: string, left: string, name: string, right: string, close: string)
    requires s == "{{" + (left + (name + (right + close))) && "}}" <= close && close[0] == '}'
    requires All(left, IsRegexSpace) && name != "" && All(name, IsWord) && All(right, IsRegexSpace)
    ensures PlaceholderAt(s) == Some((|s| - |close| + 2, name))
  {
    hide *;
    PartsFollow(s, left, name, right, close);
    BlanksRun(left, name, right + close);
    NameRuns(name, right, close);
    BlanksCloseRun(right, close);
    PlaceholderRuns(s, 2 + |left|, 2 + |left| + |name|, 2 + |left| + |name| + |right|);
  }

  lemma PlaceholderReads(b: Braced, rest: string)
    requires b.Valid()
    ensures PlaceholderAt(b.Text() + rest) == Some((|b.Text()|, b.name)) && (b.Text() + rest)[|b.Text()|..] == rest
  {
    TextSplits(b, rest);
    DropFirst(b.Text(), rest);
    hide PlaceholderAt, All;
    PlaceholderIs(b.Text() + rest, b.left, b.name, b.right, "}}" + rest);
  }

  lemma TextSplits(b: Braced, rest: string)
    ensures b.Text() + rest == "{{" + (b.left + (b.name + (b.right + ("}}" + rest))))
  {
    Assoc("{{", b.Inner() + "}}", rest);
    Assoc(b.Inner(), "}}", rest);
    Assoc(b.left, b.name + b.right, "}}" + rest);
    Assoc(b.name, b.right, "}}" + rest);
  }

  lemma Cut(s: string, i: nat, j: nat)
    requires i <= j <= |s|
    ensures s[i..] == s[i..j] + s[j..]
  {
  }

  lemma RunSlice(s: string, i: nat, p: char -> bool)
    requires i <= |s|
    ensures i + Run(s[i..], p) <= |s| && All(s[i..i + Run(s[i..], p)], p)
  {
  }

  lemma SplitsThere(s: string, x: nat, y: nat, z: nat)
    requires "{{" <= s && 2 <= x <= y <= z <= |s| && "}}" <= s[z..]
    ensures z + 2 <= |s| && s == "{{" + (s[2..x] + (s[x..y] + (s[y..z] + ("}}" + s[z + 2..]))))
  {
    Cut(s, 2, x);
    Cut(s, x, y);
    Cut(s, y, z);
    CutText(s, 0, "{{");
    CutText(s, z, "}}");
  }

  lemma CutText(s: string, i: nat, t: string)
    requires i <= |s| && t <= s[i..]
    ensures i + |t| <= |s| && s[i..] == t + s[i + |t|..]
  {
    assert s[i..][..|t|] == t;
  }

  /** A text is read as opening with a placeholder only if it does. */
  lemma PlaceholderIsThere(s: string)
    requires PlaceholderAt(s).Some?
    ensures exists b: Braced, rest: string :: OpensWith(s, b, rest)
  {
    PlaceholderOpens(s);
    hide *;
    var x := 2 + Run(s[2..], IsRegexSpace);
    var y := x + Run(s[x..], IsWord);
    var z := y + Run(s[y..], IsRegexSpace);
    PlaceholderRuns(s, x, y, z);
    RunSlice(s, 2, IsRegexSpace);
    RunSlice(s, x, IsWord);
    RunSlice(s, y, IsRegexSpace);
    BracedThere(s, x, y, z);
  }

  lemma BracedThere(s: string, x: nat, y: nat, z: nat)
    requires "{{" <= s && 2 <= x < y <= z <= |s| && "}}" <= s[z..]
    requires All(s[2..x], IsRegexSpace) && All(s[x..y], IsWord) && All(s[y..z], IsRegexSpace)
    ensures exists b: Braced, rest: string :: OpensWith(s, b, rest)
  {
    hide *;
    SplitsThere(s, x, y, z);
    var left, name, right, rest := s[2..x], s[x..y], s[y..z], s[z + 2..];
    assert name != "";
    BracedIs(s, left, name, right, rest);
  }

  lemma PlaceholderOpens(s: string)
    requires PlaceholderAt(s).Some?
    ensures "{{" <= s && 2 <= |s|
  {
    hide Run;
  }

  lemma BracedIs(s: string, left: string, name: string, right: string, rest: string)
    requires All(left, IsRegexSpace) && name != "" && All(name, IsWord) && All(right, IsRegexSpace)
    requires s == "{{" + (left + (name + (right + ("}}" + rest))))
    ensures OpensWith(s, Braced(left, name, right), rest)
  {
    TextSplits(Braced(left, name, right), rest);
    hide All;
  }

  // ---- what substitution does ----------------------------------------------------------

  lemma {:induction false} FirstAnswers(vars: seq<KV>, name: string, i: nat)
    requires FirstRow(vars, name, i)
    ensures Lookup(name, vars) == Some(vars[i].value)
  {
    if i > 0 {
      assert !Answers(vars[0], name);
      assert forall j :: 0 <= j < i - 1 ==> vars[1..][j] == vars[j + 1];
      FirstAnswers(vars[1..], name, i - 1);
    }
  }

  lemma {:induction false} NobodyAnswers(vars: seq<KV>, name: string)
    requires NoRow(vars, name)
    ensures Lookup(name, vars) == None
  {
    if vars != [] {
      assert !Answers(vars[0], name);
      assert forall j :: 0 <= j < |vars[1..]| ==> vars[1..][j] == vars[j + 1];
      NobodyAnswers(vars[1..], name);
    }
  }

  lemma NotHere(before: string, tail: string)
    requires before != "" && NoBraces(before) && (tail == "" || "{{" <= tail)
    ensures PlaceholderAt(before + tail) == None
    ensures (before + tail)[0] == before[0] && (before + tail)[1..] == before[1..] + tail && NoBraces(before[1..])
  {
    var s := before + tail;
    assert forall i :: 0 <= i < |before[1..]| ==> before[1..][i] == before[i + 1];
    if |before| == 1 {
      if "{{" <= s {
        assert s[1] == '{' && s[2] == tail[1] == '{';
        RunIs(s[2..], IsRegexSpace, 0);
        RunIs(s[2..], IsWord, 0);
      }
    } else {
      assert s[0] == before[0] && s[1] == before[1];
      assert !(before[0] == '{' && before[0 + 1] == '{');
    }
  }

  /** Up to the first opening braces nothing changes. */
  lemma {:induction false} PlainIsKept(before: string, tail: string, vars: seq<KV>)
    requires NoBraces(before) && (tail == "" || "{{" <= tail)
    ensures Interpolate(before + tail, vars) == before + Interpolate(tail, vars)
  {
    hide PlaceholderAt, NoBraces;
    if before == "" {
      NoMore(tail);
      NoMore(Interpolate(tail, vars));
    } else {
      NotHere(before, tail);
      PlainIsKept(before[1..], tail, vars);
      HeadTail(before);
      Assoc([before[0]], before[1..], Interpolate(tail, vars));
    }
  }

  lemma NothingToFill(s: string, vars: seq<KV>)
    requires NoBraces(s)
    ensures Interpolate(s, vars) == s
  {
    PlainIsKept(s, "", vars);
    NoMore(s);
  }

  lemma BracedOpens(b: Braced, rest: string)
    ensures "{{" <= b.Text() + rest && b.Text() + rest != ""
  {
  }

  /** The first placeholder of a text is replaced by the value of the first ticked row of its name, and the rest of the text goes on. */
  lemma KnownIsFilled(before: string, b: Braced, rest: string, vars: seq<KV>, i: nat)
    requires NoBraces(before) && b.Valid() && FirstRow(vars, b.name, i)
    ensures Interpolate(before + (b.Text() + rest), vars) == before + (vars[i].value + Interpolate(rest, vars))
  {
    PlaceholderReads(b, rest);
    FirstAnswers(vars, b.name, i);
    BracedOpens(b, rest);
    hide NoBraces, PlaceholderAt, Lookup;
    PlainIsKept(before, b.Text() + rest, vars);
  }

  /** Without such a row it stays as it is written. */
  lemma UnknownStays(before: string, b: Braced, rest: string, vars: seq<KV>)
    requires NoBraces(before) && b.Valid() && NoRow(vars, b.name)
    ensures Interpolate(before + (b.Text() + rest), vars) == before + (b.Text() + Interpolate(rest, vars))
  {
    PlaceholderReads(b, rest);
    NobodyAnswers(vars, b.name);
    BracedOpens(b, rest);
    assert (b.Text() + rest)[..|b.Text()|] == b.Text();
    hide NoBraces, PlaceholderAt, Lookup;
    PlainIsKept(before, b.Text() + rest, vars);
  }

  /** Opening braces that open no placeholder stay, and the second of them is looked at again. */
  lemma LooseBracesStay(before: string, tail: string, vars: seq<KV>)
    requires NoBraces(before) && forall b: Braced, rest: string :: !OpensWith("{{" + tail, b, rest)
    ensures Interpolate(before + ("{{" + tail), vars) == before + ("{" + Interpolate("{" + tail, vars))
  {
    var s := "{{" + tail;
    if PlaceholderAt(s).Some? {
      PlaceholderIsThere(s);
    }
    assert s[1..] == "{" + tail && [s[0]] == "{";
    hide NoBraces, PlaceholderAt;
    PlainIsKept(before, s, vars);
  }

  // ---- where the form sends it ------------------------------------------------------------

  predicate Ticks(h: KV, key: string) {
    h.on && h.key != "" && h.key == key
  }

  /** Row `i` is the last ticked one of this name. */
  predicate LastTicked(rows: seq<KV>, i: nat, key: string) {
    i < |rows| && Ticks(rows[i], key) && forall j :: i < j < |rows| ==> !Ticks(rows[j], key)
  }

  lemma {:induction false} LastRowWins(m: map<string, string>, rows: seq<KV>, vars: seq<KV>, key: string, i: nat)
    requires LastTicked(rows, i, key)
    ensures key in FormHeaders(m, rows, vars) && FormHeaders(m, rows, vars)[key] == Interpolate(rows[i].value, vars)
    decreases |rows|
  {
    var h, more := rows[0], rows[1..];
    assert forall j :: 0 <= j < |more| ==> more[j] == rows[j + 1];
    hide Interpolate;
    var next := if h.on && h.key != "" then m[h.key := Interpolate(h.value, vars)] else m;
    if i == 0 {
      OtherRowsKeep(next, more, vars, key);
    } else {
      LastRowWins(next, more, vars, key, i - 1);
    }
  }

  lemma {:induction false} OtherRowsKeep(m: map<string, string>, rows: seq<KV>, vars: seq<KV>, key: string)
    requires forall j :: 0 <= j < |rows| ==> !Ticks(rows[j], key)
    ensures key in FormHeaders(m, rows, vars) <==> key in m
    ensures key in m ==> FormHeaders(m, rows, vars)[key] == m[key]
    decreases |rows|
  {
    hide Interpolate;
    if rows != [] {
      var h, more := rows[0], rows[1..];
      assert !Ticks(h, key) && forall j :: 0 <= j < |more| ==> more[j] == rows[j + 1];
      OtherRowsKeep(if h.on && h.key != "" then m[h.key := Interpolate(h.value, vars)] else m, more, vars, key);
    }
  }

  lemma {:induction false} SomeRowIsLast(rows: seq<KV>, key: string) returns (i: nat)
    ensures LastTicked(rows, i, key) || forall j :: 0 <= j < |rows| ==> !Ticks(rows[j], key)
  {
    i := 0;
    if rows != [] {
      var n := |rows| - 1;
      if Ticks(rows[n], key) {
        i := n;
      } else {
        i := SomeRowIsLast(rows[..n], key);
        assert forall j :: 0 <= j < n ==> rows[..n][j] == rows[j];
      }
    }
  }

  predicate Bodiless(verb: string) {
    verb in ["GET", "HEAD"]
  }

  /** The method as it is, the URL, the body and each last ticked header substituted, no other header, no body where there is none. */
  lemma FormSends(r: Request, vars: seq<KV>)
    ensures var out := FromForm(r, vars);
      && out.verb == r.verb && out.url == Interpolate(r.url, vars)
      && out.body == (if Bodiless(r.verb) then "" else Interpolate(r.body, vars))
      && (forall key, i: nat :: LastTicked(r.headers, i, key) ==> key in out.headers && out.headers[key] == Interpolate(r.headers[i].value, vars))
      && (forall key :: key in out.headers ==> exists i: nat :: LastTicked(r.headers, i, key))
  {
    var out := FromForm(r, vars);
    hide Interpolate, FormHeaders;
    forall key, i: nat | LastTicked(r.headers, i, key) ensures key in out.headers && out.headers[key] == Interpolate(r.headers[i].value, vars) {
      LastRowWins(map[], r.headers, vars, key, i);
    }
    forall key | key in out.headers ensures exists i: nat :: LastTicked(r.headers, i, key) {
      var i := SomeRowIsLast(r.headers, key);
      if !LastTicked(r.headers, i, key) {
        OtherRowsKeep(map[], r.headers, vars, key);
      }
    }
  }

  /** So a placeholder with a value never leaves the form, in the URL, in a header or in the body. */
  lemma FormFillsKnown(r: Request, vars: seq<KV>, before: string, b: Braced, rest: string, i: nat)
    requires NoBraces(before) && b.Valid() && FirstRow(vars, b.name, i)
    ensures var text, filled := before + (b.Text() + rest), before + (vars[i].value + Interpolate(rest, vars)); var out := FromForm(r, vars);
      && (r.url == text ==> out.url == filled)
      && (r.body == text && !Bodiless(r.verb) ==> out.body == filled)
      && (forall k: nat, key :: LastTicked(r.headers, k, key) && r.headers[k].value == text ==> key in out.headers && out.headers[key] == filled)
  {
    hide *;
    FormSends(r, vars);
    KnownIsFilled(before, b, rest, vars, i);
  }

  // ---- where a block of a file sends it -------------------------------------------------------

  /** Header `i` is the last one of this name. */
  predicate LastNamed(headers: seq<Pair>, i: nat, key: string) {
    key != "" && i < |headers| && headers[i].name.text == key && forall j :: i < j < |headers| ==> headers[j].name.text != key
  }

  lemma {:induction false} BlockIsForm(m: map<string, string>, headers: seq<Pair>, vars: seq<KV>)
    ensures BlockHeaders(m, headers, vars) == FormHeaders(m, FileVars(headers), vars)
    decreases |headers|
  {
    hide Interpolate;
    if headers != [] {
      var h := headers[0];
      assert FileVars(headers)[1..] == FileVars(headers[1..]);
      BlockIsForm(if h.name.text != "" then m[h.name.text := Interpolate(h.value.text, vars)] else m, headers[1..], vars);
    }
  }

  lemma LastNamedTicks(headers: seq<Pair>, i: nat, key: string)
    ensures LastTicked(FileVars(headers), i, key) <==> LastNamed(headers, i, key)
  {
    var rows := FileVars(headers);
    assert forall j :: 0 <= j < |headers| ==> rows[j].on && rows[j].key == headers[j].name.text;
  }

  /** The same for a block: every header counts, and the variables are the file's. */
  lemma BlockSends(file: HttpFile, item: Item)
    ensures var out, vars := FromBlock(file, item), FileVars(file.variables);
      && out.verb == item.line.verb.text && out.url == Interpolate(item.line.target.text, vars)
      && out.body == (if Bodiless(item.line.verb.text) then "" else Interpolate(item.body.text, vars))
      && (forall key, i: nat :: LastNamed(item.headers, i, key) ==> key in out.headers && out.headers[key] == Interpolate(item.headers[i].value.text, vars))
      && (forall key :: key in out.headers ==> exists i: nat :: LastNamed(item.headers, i, key))
  {
    var out, vars, rows := FromBlock(file, item), FileVars(file.variables), FileVars(item.headers);
    BlockIsForm(map[], item.headers, vars);
    hide Interpolate, FormHeaders, BlockHeaders;
    forall key, i: nat | LastNamed(item.headers, i, key) ensures key in out.headers && out.headers[key] == Interpolate(item.headers[i].value.text, vars) {
      LastNamedTicks(item.headers, i, key);
      LastRowWins(map[], rows, vars, key, i);
    }
    forall key | key in out.headers ensures exists i: nat :: LastNamed(item.headers, i, key) {
      var i := SomeRowIsLast(rows, key);
      LastNamedTicks(item.headers, i, key);
      if !LastTicked(rows, i, key) {
        OtherRowsKeep(map[], rows, vars, key);
      }
    }
  }

  /** Variable `i` is the first one of this name in the file. */
  predicate FirstNamed(variables: seq<Pair>, name: string, i: nat) {
    i < |variables| && variables[i].name.text == name && forall j :: 0 <= j < i ==> variables[j].name.text != name
  }

  lemma BlockFillsKnown(file: HttpFile, item: Item, before: string, b: Braced, rest: string, i: nat)
    requires NoBraces(before) && b.Valid() && FirstNamed(file.variables, b.name, i)
    ensures var text, filled := before + (b.Text() + rest), before + (file.variables[i].value.text + Interpolate(rest, FileVars(file.variables)));
      var out := FromBlock(file, item);
      && (item.line.target.text == text ==> out.url == filled)
      && (item.body.text == text && !Bodiless(item.line.verb.text) ==> out.body == filled)
      && (forall k: nat, key :: LastNamed(item.headers, k, key) && item.headers[k].value.text == text ==> key in out.headers && out.headers[key] == filled)
  {
    assert FirstRow(FileVars(file.variables), b.name, i);
    assert FileVars(file.variables)[i].value == file.variables[i].value.text;
    hide *;
    BlockSends(file, item);
    KnownIsFilled(before, b, rest, FileVars(file.variables), i);
  }
}
