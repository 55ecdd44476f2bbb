/** The editor on whole files: texts that end in a line break, and the lines the settings are written as. */
module ConfigText {
  import opened Text
  import opened ConfigEditor
  import opened ConfigLaws

  // ---- texts and their lines -------------------------------------------------------------

  predicate Terminated(text: string) {
    text == "" || text[|text| - 1] == '\n'
  }

  /** A line that holds its line break and no other. */
  predicate Proper(line: string) {
    line != "" && line[|line| - 1] == '\n' && forall i :: 0 <= i < |line| - 1 ==> line[i] != '\n'
  }

  predicate AllProper(ls: seq<string>) {
    forall i :: 0 <= i < |ls| ==> Proper(ls[i])
  }

  predicate ProperOrEmpty(ls: seq<string>) {
    forall i :: 0 <= i < |ls| ==> ls[i] == "" || Proper(ls[i])
  }

  function NoEmpty(ls: seq<string>): seq<string> {
    if ls == [] then [] else (if ls[0] == "" then [] else [ls[0]]) + NoEmpty(ls[1..])
  }

  lemma SplitStep(text: string)
    requires text != ""
    ensures var rest := SplitAfter(text[1..]);
      SplitAfter(text) == if text[0] == '\n' then ["\n"] + rest else [[text[0]] + rest[0]] + rest[1..]
  {
  }

  lemma {:induction false} JoinOfSplit(text: string)
    ensures Join(SplitAfter(text)) == text
  {
    if text == "" {
      assert [""][1..] == [] && "" + "" == "";
    } else {
      var rest := SplitAfter(text[1..]);
      JoinOfSplit(text[1..]);
      SplitStep(text);
      hide SplitAfter;
      HeadTail(text);
      if text[0] == '\n' {
        assert (["\n"] + rest)[1..] == rest;
      } else {
        assert ([[text[0]] + rest[0]] + rest[1..])[1..] == rest[1..];
        Assoc([text[0]], rest[0], Join(rest[1..]));
      }
    }
  }

  /** A terminated text splits into proper lines and one empty piece. */
  lemma {:induction false} SplitIsProper(text: string)
    requires Terminated(text)
    ensures var ls := SplitAfter(text); AllProper(ls[..|ls| - 1]) && ls[|ls| - 1] == ""
  {
    if text != "" {
      TailTerminated(text);
      SplitIsProper(text[1..]);
      JoinOfSplit(text[1..]);
      SplitStep(text);
      hide SplitAfter, Join;
      if text[0] == '\n' {
        ProperFirst(SplitAfter(text[1..]));
      } else {
        NotJustEmpty(SplitAfter(text[1..]));
        ProperLonger(text[0], SplitAfter(text[1..]));
      }
    }
  }

  lemma TailTerminated(text: string)
    requires text != "" && Terminated(text)
    ensures Terminated(text[1..]) && (text[0] != '\n' ==> text[1..] != "")
  {
    if |text| > 1 { assert text[1..][|text| - 2] == text[|text| - 1]; }
  }

  lemma ProperFirst(rest: seq<string>)
    requires rest != [] && AllProper(rest[..|rest| - 1])
    ensures var ls := ["\n"] + rest; AllProper(ls[..|ls| - 1]) && ls[|ls| - 1] == rest[|rest| - 1]
  {
    var ls := ["\n"] + rest;
    assert ls[..|ls| - 1] == ["\n"] + rest[..|rest| - 1];
  }

  lemma ProperLonger(c: char, rest: seq<string>)
    requires c != '\n' && |rest| > 1 && AllProper(rest[..|rest| - 1])
    ensures var ls := [[c] + rest[0]] + rest[1..]; AllProper(ls[..|ls| - 1]) && ls[|ls| - 1] == rest[|rest| - 1]
  {
    var ls := [[c] + rest[0]] + rest[1..];
    assert Proper(rest[..|rest| - 1][0]);
    ProperCons(c, rest[0]);
    hide Proper;
    assert forall i :: 0 < i < |ls| - 1 ==> ls[i] == rest[..|rest| - 1][i];
  }

  lemma JoinEmpty(ls: seq<string>)
    requires |ls| == 1 && ls[0] == ""
    ensures Join(ls) == ""
  {
    assert ls[1..] == [];
  }

  /** Pieces that join to something and end in nothing are more than one. */
  lemma NotJustEmpty(ls: seq<string>)
    requires ls != [] && ls[|ls| - 1] == "" && Join(ls) != ""
    ensures |ls| > 1
  {
    hide Join;
    if |ls| == 1 { JoinEmpty(ls); }
  }

  lemma ProperCons(c: char, line: string)
    requires c != '\n' && Proper(line)
    ensures Proper([c] + line)
  {
    var l := [c] + line;
    assert forall i :: 0 < i < |l| ==> l[i] == line[i - 1];
  }

  lemma {:induction false} SplitOfLine(line: string, rest: string)
    requires Proper(line)
    ensures SplitAfter(line + rest) == [line] + SplitAfter(rest)
  {
    var s := line + rest;
    assert s[0] == line[0];
    SplitStep(s);
    if |line| == 1 {
      assert line == "\n" && s[1..] == rest;
    } else {
      assert Proper(line[1..]) by { assert forall i :: 0 <= i < |line| - 1 ==> line[1..][i] == line[i + 1]; }
      assert s[1..] == line[1..] + rest;
      SplitOfLine(line[1..], rest);
      hide SplitAfter;
      HeadTail(line);
      assert line[0] != '\n';
    }
  }

  /** Splitting what was joined drops the empty pieces and leaves one at the end. */
  lemma {:induction false} SplitOfJoin(ls: seq<string>)
    requires ProperOrEmpty(ls)
    ensures SplitAfter(Join(ls)) == NoEmpty(ls) + [""] && Join(NoEmpty(ls)) == Join(ls)
  {
    if ls != [] {
      SplitOfJoin(ls[1..]);
      hide SplitAfter;
      var rest := Join(ls[1..]);
      if ls[0] == "" {
        assert "" + rest == rest && [] + NoEmpty(ls[1..]) == NoEmpty(ls[1..]);
      } else {
        SplitOfLine(ls[0], rest);
        Assoc([ls[0]], NoEmpty(ls[1..]), [""]);
        assert ([ls[0]] + NoEmpty(ls[1..]))[1..] == NoEmpty(ls[1..]);
      }
    }
  }

  lemma {:induction false} NoEmptyConcat(a: seq<string>, b: seq<string>)
    ensures NoEmpty(a + b) == NoEmpty(a) + NoEmpty(b)
  {
    if a == [] {
      assert a + b == b;
    } else {
      assert (a + b)[1..] == a[1..] + b;
      NoEmptyConcat(a[1..], b);
    }
  }

  lemma {:induction false} NoEmptyOfProper(ls: seq<string>)
    requires AllProper(ls)
    ensures NoEmpty(ls) == ls
  {
    if ls != [] {
      NoEmptyOfProper(ls[1..]);
      HeadTail(ls);
    }
  }

  lemma NoEmptyStep(line: string, rest: seq<string>)
    ensures NoEmpty([line] + rest) == if line == "" then NoEmpty(rest) else [line] + NoEmpty(rest)
  {
    assert ([line] + rest)[1..] == rest;
  }

  // ---- empty pieces decide nothing ------------------------------------------------------------

  function Shrink(p: Parts): Parts {
    if p.NoSection? then p else Parts(NoEmpty(p.before), p.indent, NoEmpty(p.body), NoEmpty(p.after))
  }

  /** The last line before a section is its header. */
  predicate Headed(p: Parts) {
    p.Parts? && p.before != [] ==> p.before[|p.before| - 1] != ""
  }

  lemma {:induction false} LocateHeaded(ed: Editor, lines: seq<string>, open: Option<nat>)
    ensures Headed(Locate(ed, lines, open))
  {
    if lines == [] {
    } else {
      var l, rest := lines[0], lines[1..];
      assert l == "" ==> Skipped(l);
      LocateHeaded(ed, rest, open);
      LocateHeaded(ed, rest, Some(Indent(l)));
      HeadTail(lines);
      hide Skipped, IsHeader, Indent, Locate;
      LocateStep(ed, l, rest, open);
      PushHeaded(l, Locate(ed, rest, open));
      PushHeaded(l, Locate(ed, rest, Some(Indent(l))));
    }
  }

  lemma PushHeaded(line: string, p: Parts)
    requires Headed(p)
    ensures Headed(Push(line, p)) && (line != "" ==> Headed(Anchor(line, p)))
  {
  }

  lemma {:induction false} LastStays(ls: seq<string>)
    requires ls != [] && ls[|ls| - 1] != ""
    ensures NoEmpty(ls) != []
  {
    if |ls| > 1 { LastStays(ls[1..]); }
  }

  lemma PushShrinks(line: string, p: Parts)
    requires Headed(p)
    ensures Shrink(Push(line, p)) == if line == "" then Shrink(p) else Push(line, Shrink(p))
    ensures line != "" ==> Shrink(Anchor(line, p)) == Anchor(line, Shrink(p))
  {
    if p.Parts? {
      NoEmptyStep(line, p.before);
      NoEmptyStep(line, p.body);
      if p.before != [] { LastStays(p.before); }
    }
  }

  lemma {:induction false} LocateShrinks(ed: Editor, lines: seq<string>, open: Option<nat>)
    ensures Locate(ed, NoEmpty(lines), open) == Shrink(Locate(ed, lines, open))
  {
    assert Skipped("");
    if lines != [] {
      var l, rest := lines[0], lines[1..];
      LocateShrinks(ed, rest, open);
      LocateShrinks(ed, rest, Some(Indent(l)));
      LocateHeaded(ed, rest, open);
      LocateHeaded(ed, rest, Some(Indent(l)));
      HeadTail(lines);
      hide Skipped, IsHeader, Indent, Locate, Push, Anchor, NoEmpty, Shrink, Headed;
      NoEmptyStep(l, rest);
      LocateStep(ed, l, rest, open);
      LocateStep(ed, l, NoEmpty(rest), open);
      PushShrinks(l, Locate(ed, rest, open));
      PushShrinks(l, Locate(ed, rest, Some(Indent(l))));
      if open.Some? { EndShrinks(open.value, [l] + rest); }
    }
  }

  lemma EndShrinks(indent: nat, lines: seq<string>)
    ensures Shrink(Parts([], indent, [], lines)) == Parts([], indent, [], NoEmpty(lines))
  {
  }

  lemma {:induction false} AfterBlockShrinks(lines: seq<string>, indent: nat)
    ensures AfterBlock(NoEmpty(lines), indent) == NoEmpty(AfterBlock(lines, indent))
  {
    assert Under("", indent);
    hide Under;
    if lines != [] {
      AfterBlockShrinks(lines[1..], indent);
      NoEmptyStep(lines[0], lines[1..]);
      HeadTail(lines);
      if lines[0] != "" { assert ([lines[0]] + NoEmpty(lines[1..]))[1..] == NoEmpty(lines[1..]); }
    }
  }

  lemma {:induction false} RetainedShrinks(ed: Editor, body: seq<string>, parent: nat)
    ensures Retained(ed, NoEmpty(body), parent) == NoEmpty(Retained(ed, body, parent))
    decreases |body|
  {
    assert !Removable(ed, "", parent);
    hide Removable, Indent, AfterBlock;
    if body != [] {
      var l, rest := body[0], body[1..];
      HeadTail(body);
      NoEmptyStep(l, rest);
      RetainedStep(ed, body, parent);
      if Removable(ed, l, parent) {
        var past := AfterBlock(rest, Indent(l));
        AfterBlockShrinks(rest, Indent(l));
        RetainedShrinks(ed, past, parent);
        assert ([l] + NoEmpty(rest))[1..] == NoEmpty(rest);
        RetainedStep(ed, [l] + NoEmpty(rest), parent);
      } else {
        RetainedShrinks(ed, rest, parent);
        NoEmptyStep(l, Retained(ed, rest, parent));
        if l != "" {
          assert ([l] + NoEmpty(rest))[1..] == NoEmpty(rest);
          RetainedStep(ed, [l] + NoEmpty(rest), parent);
        }
      }
    }
  }

  predicate WritesLines(ed: Editor, render: nat -> seq<string>, parent: nat) {
    RendersUnder(ed, render, parent) && AllProper(render(parent + 2))
  }

  lemma ReplaceShrinks(ed: Editor, lines: seq<string>, render: nat -> seq<string>)
    requires forall parent: nat :: WritesLines(ed, render, parent)
    ensures var r, s := Replace(ed, lines, render), Replace(ed, NoEmpty(lines), render);
      if r.None? then s.None? else s == Some(NoEmpty(r.value))
  {
    LocateShrinks(ed, lines, None);
    var p := Locate(ed, lines, None);
    if p.Parts? {
      assert WritesLines(ed, render, p.indent);
      var kept, written := Retained(ed, p.body, p.indent), render(p.indent + 2);
      hide Locate, Retained, NoEmpty, RendersUnder, AllProper;
      RetainedShrinks(ed, p.body, p.indent);
      NoEmptyOfProper(written);
      NoEmptyConcat(written, p.after);
      NoEmptyConcat(kept, written + p.after);
      NoEmptyConcat(p.before, kept + (written + p.after));
    }
  }

  // ---- last write wins on files ------------------------------------------------------------------

  lemma RetainedIsPart(ed: Editor, body: seq<string>, parent: nat)
    ensures forall l :: l in Retained(ed, body, parent) ==> l in body
    decreases |body|
  {
    hide Removable, Indent;
    if body != [] {
      AfterBlockIsPart(body[1..], Indent(body[0]));
      hide AfterBlock;
      RetainedIsPart(ed, AfterBlock(body[1..], Indent(body[0])), parent);
      RetainedIsPart(ed, body[1..], parent);
    }
  }

  lemma AfterBlockIsPart(lines: seq<string>, indent: nat)
    ensures forall l :: l in AfterBlock(lines, indent) ==> l in lines
  {
    hide Under;
  }

  lemma ReplaceIsProper(ed: Editor, lines: seq<string>, render: nat -> seq<string>)
    requires ProperOrEmpty(lines) && forall parent: nat :: WritesLines(ed, render, parent)
    ensures Replace(ed, lines, render).Some? ==> ProperOrEmpty(Replace(ed, lines, render).value)
  {
    LocateOk(ed, lines, None);
    var p := Locate(ed, lines, None);
    if p.Parts? {
      assert WritesLines(ed, render, p.indent);
      hide Locate, Retained, RendersUnder, Proper, AllStay, Closes;
      RetainedIsPart(ed, p.body, p.indent);
      var out := Replace(ed, lines, render).value;
      forall i | 0 <= i < |out| ensures out[i] == "" || Proper(out[i]) {
        assert out[i] in p.before || out[i] in Retained(ed, p.body, p.indent) || out[i] in render(p.indent + 2) || out[i] in p.after;
        assert out[i] in lines || out[i] in render(p.indent + 2);
      }
    }
  }

  lemma SplitPieces(text: string)
    requires Terminated(text)
    ensures ProperOrEmpty(SplitAfter(text))
  {
    SplitIsProper(text);
    var ls := SplitAfter(text);
    hide SplitAfter, Proper;
    forall i | 0 <= i < |ls| ensures ls[i] == "" || Proper(ls[i]) {
      if i < |ls| - 1 { assert ls[..|ls| - 1][i] == ls[i]; }
    }
  }

  lemma {:induction false} JoinIsTerminated(ls: seq<string>)
    requires ProperOrEmpty(ls)
    ensures Terminated(Join(ls))
  {
    if ls != [] {
      JoinIsTerminated(ls[1..]);
      var rest := Join(ls[1..]);
      assert rest != "" ==> (ls[0] + rest)[|ls[0] + rest| - 1] == rest[|rest| - 1];
      assert rest == "" ==> ls[0] + rest == ls[0];
    }
  }

  lemma RewriteIs(ed: Editor, text: string, render: nat -> seq<string>)
    ensures var r := Replace(ed, SplitAfter(text), render);
      Rewrite(ed, text, render) == if r.None? then None else Some(Join(r.value))
  {
    hide Replace, SplitAfter, Join;
  }

  /** A rewritten file ends in a line break again, and of two rewrites of a section only the last one shows. */
  lemma RewriteLastWins(ed: Editor, text: string, first: nat -> seq<string>, second: nat -> seq<string>)
    requires Terminated(text)
    requires forall parent: nat :: WritesLines(ed, first, parent)
    requires forall parent: nat :: WritesLines(ed, second, parent)
    ensures var once := Rewrite(ed, text, first);
      if once.None? then Rewrite(ed, text, second).None?
      else Terminated(once.value) && Rewrite(ed, once.value, second) == Rewrite(ed, text, second)
  {
    forall parent: nat ensures RendersUnder(ed, first, parent) { assert WritesLines(ed, first, parent); }
    var lines := SplitAfter(text);
    hide Replace, Join, SplitAfter, RendersUnder, WritesLines, Rewrite, ProperOrEmpty, NoEmpty, Terminated;
    RewriteIs(ed, text, first);
    RewriteIs(ed, text, second);
    SplitPieces(text);
    LastWriteWins(ed, lines, first, second);
    ReplaceIsProper(ed, lines, first);
    ReplaceIsProper(ed, lines, second);
    var once := Replace(ed, lines, first);
    if once.Some? {
      RewriteAgain(ed, once.value, second);
    }
  }

  lemma RewriteAgain(ed: Editor, lines: seq<string>, render: nat -> seq<string>)
    requires ProperOrEmpty(lines) && forall parent: nat :: WritesLines(ed, render, parent)
    ensures Terminated(Join(lines))
    ensures var r := Replace(ed, lines, render); Rewrite(ed, Join(lines), render) == if r.None? then None else Some(Join(r.value))
  {
    hide Replace, SplitAfter, WritesLines, Rewrite;
    var text, less := Join(lines), NoEmpty(lines);
    JoinIsTerminated(lines);
    SplitOfJoin(lines);
    RewriteIs(ed, text, render);
    ReplaceShrinks(ed, lines, render);
    ReplaceShrinks(ed, less + [""], render);
    NoEmptyTwice(lines);
    ReplaceIsProper(ed, lines, render);
    PiecesAgain(lines);
    ReplaceIsProper(ed, less + [""], render);
    var r, s := Replace(ed, lines, render), Replace(ed, less + [""], render);
    if r.Some? {
      SplitOfJoin(r.value);
      SplitOfJoin(s.value);
    }
  }

  lemma NoEmptyTwice(lines: seq<string>)
    ensures NoEmpty(NoEmpty(lines) + [""]) == NoEmpty(lines)
  {
    NoEmptyConcat(NoEmpty(lines), [""]);
    NoEmptyStep("", []);
    assert [""] + [] == [""];
    NoEmptyHasNone(lines);
    assert NoEmpty(lines) + [] == NoEmpty(lines);
  }

  lemma NoEmptyHasNone(lines: seq<string>)
    ensures NoEmpty(NoEmpty(lines)) == NoEmpty(lines)
  {
    if lines != [] {
      NoEmptyHasNone(lines[1..]);
      HeadTail(lines);
      NoEmptyStep(lines[0], lines[1..]);
      if lines[0] != "" { NoEmptyStep(lines[0], NoEmpty(lines[1..])); }
    }
  }

  lemma {:induction false} PiecesAgain(lines: seq<string>)
    requires ProperOrEmpty(lines)
    ensures ProperOrEmpty(NoEmpty(lines) + [""])
  {
    hide Proper;
    if lines != [] {
      PiecesAgain(lines[1..]);
      var rest := NoEmpty(lines[1..]) + [""];
      assert lines[0] != "" ==> NoEmpty(lines) + [""] == [lines[0]] + rest;
      assert lines[0] == "" ==> NoEmpty(lines) + [""] == rest;
    }
  }
}
