/** The line editor of the configuration file: one section found, some of its keys replaced, the rest left alone. */
module ConfigEditor {
  import opened Text

  // ---- lines -------------------------------------------------------------------------

  /** strings.SplitAfter(text, "\n"): every line with its line break, the last piece without one. */
  function SplitAfter(text: string): (ls: seq<string>)
    ensures |ls| > 0
  {
    if text == "" then [""]
    else
      var rest := SplitAfter(text[1..]);
      if text[0] == '\n' then ["\n"] + rest else [[text[0]] + rest[0]] + rest[1..]
  }

  function Join(ls: seq<string>): string {
    if ls == [] then "" else ls[0] + Join(ls[1..])
  }

  /** Blank lines and comments decide nothing. */
  predicate Skipped(line: string) {
    var t := TrimSpace(line);
    t == "" || t[0] == '#'
  }

  function Indent(line: string): nat {
    Run(line, IsOnlySpace)
  }

  predicate IsNoColon(c: char) {
    c != ':'
  }

  /** What stands before the first colon, trimmed. */
  function KeyOf(line: string): Option<string> {
    var t := TrimLeft(line, IsOnlySpace);
    var n := Run(t, IsNoColon);
    if n < |t| then Some(TrimSpace(t[..n])) else None
  }

  // ---- an editor of one section -----------------------------------------------------------

  /** The section's header line, trimmed, and the keys under it that are replaced. */
  datatype Editor = Editor(header: string, keys: seq<string>)

  predicate IsHeader(ed: Editor, line: string) {
    TrimSpace(line) == ed.header
  }

  predicate Removable(ed: Editor, line: string, parent: nat) {
    !Skipped(line) && Indent(line) == parent + 2 && KeyOf(line).Some? && KeyOf(line).value in ed.keys
  }

  /** A file cut at a section: up to its header, its body, what follows. */
  datatype Parts = Parts(before: seq<string>, indent: nat, body: seq<string>, after: seq<string>) | NoSection

  function Push(line: string, p: Parts): Parts {
    if p.NoSection? then p
    else if p.before != [] then p.(before := [line] + p.before)
    else p.(body := [line] + p.body)
  }

  function Anchor(line: string, p: Parts): Parts {
    if p.NoSection? then p else p.(before := [line] + p.before)
  }

  /**
   The section, from a place where one may be open at this indent. A header met inside the section opens it again;
   it ends at a line that is indented no deeper than its header.
   */
  function Locate(ed: Editor, lines: seq<string>, open: Option<nat>): Parts {
    if lines == [] then (match open case None => NoSection case Some(indent) => Parts([], indent, [], []))
    else if Skipped(lines[0]) then Push(lines[0], Locate(ed, lines[1..], open))
    else if IsHeader(ed, lines[0]) then Anchor(lines[0], Locate(ed, lines[1..], Some(Indent(lines[0]))))
    else if open.Some? && Indent(lines[0]) <= open.value then Parts([], open.value, [], lines)
    else Push(lines[0], Locate(ed, lines[1..], open))
  }

  /** A line under a key: deeper than it, or deciding nothing. */
  predicate Under(line: string, indent: nat) {
    Skipped(line) || Indent(line) > indent
  }

  function AfterBlock(lines: seq<string>, indent: nat): (rest: seq<string>)
    ensures |rest| <= |lines|
  {
    if lines == [] || !Under(lines[0], indent) then lines else AfterBlock(lines[1..], indent)
  }

  /** The body without the blocks of the replaced keys. */
  function Retained(ed: Editor, body: seq<string>, parent: nat): seq<string>
    decreases |body|
  {
    if body == [] then []
    else if Removable(ed, body[0], parent) then Retained(ed, AfterBlock(body[1..], Indent(body[0])), parent)
    else [body[0]] + Retained(ed, body[1..], parent)
  }

  /** The rewritten lines; None when the section is not there. */
  function Replace(ed: Editor, lines: seq<string>, render: nat -> seq<string>): Option<seq<string>> {
    match Locate(ed, lines, None)
    case NoSection => None
    case Parts(before, indent, body, after) => Some(before + (Retained(ed, body, indent) + (render(indent + 2) + after)))
  }

  /** The rewritten file. */
  function Rewrite(ed: Editor, text: string, render: nat -> seq<string>): Option<string> {
    match Replace(ed, SplitAfter(text), render)
    case None => None
    case Some(ls) => Some(Join(ls))
  }

  // ---- the loops --------------------------------------------------------------------------

  /** What the whole file cuts into, once its first `i` lines are read and the rest cuts into `rest`. */
  function Resumed(lines: seq<string>, i: nat, start: Option<nat>, rest: Parts): Parts
    requires i <= |lines| && (start.Some? ==> start.value < i)
  {
    if rest.NoSection? then rest
    else if start.None? || rest.before != [] then rest.(before := lines[..i] + rest.before)
    else Parts(lines[..start.value + 1], rest.indent, lines[start.value + 1..i] + rest.body, rest.after)
  }

  lemma ResumedStep(ed: Editor, lines: seq<string>, i: nat, start: Option<nat>, open: Option<nat>)
    requires i < |lines| && (start.Some? ==> start.value < i) && (open.Some? <==> start.Some?)
    ensures var l, rest := lines[i], lines[i + 1..]; var all := Resumed(lines, i, start, Locate(ed, lines[i..], open));
      if !Skipped(l) && IsHeader(ed, l) then all == Resumed(lines, i + 1, Some(i), Locate(ed, rest, Some(Indent(l))))
      else if !Skipped(l) && open.Some? && Indent(l) <= open.value then
        all == Parts(lines[..start.value + 1], open.value, lines[start.value + 1..i], lines[i..])
      else all == Resumed(lines, i + 1, start, Locate(ed, rest, open))
  {
    var l, rest := lines[i], lines[i + 1..];
    assert lines[i..][1..] == rest && lines[i..][0] == l;
    hide Skipped, IsHeader, Indent, Resumed;
    LocateOpen(ed, rest, open);
    ResumedPush(lines, i, start, Locate(ed, rest, open));
    ResumedAnchor(lines, i, start, Locate(ed, rest, Some(Indent(l))));
    if start.Some? { ResumedEnd(lines, i, start.value, open.value); }
  }

  lemma ResumedPush(lines: seq<string>, i: nat, start: Option<nat>, p: Parts)
    requires i < |lines| && (start.Some? ==> start.value < i) && (start.None? && p.Parts? ==> p.before != [])
    ensures Resumed(lines, i, start, Push(lines[i], p)) == Resumed(lines, i + 1, start, p)
  {
    assert lines[..i + 1] == lines[..i] + [lines[i]];
    if p.Parts? {
      Assoc(lines[..i], [lines[i]], p.before);
      if start.Some? {
        assert lines[start.value + 1..i + 1] == lines[start.value + 1..i] + [lines[i]];
        Assoc(lines[start.value + 1..i], [lines[i]], p.body);
      }
      assert lines[..i] + [lines[i]] == lines[..i + 1];
    }
  }

  lemma ResumedAnchor(lines: seq<string>, i: nat, start: Option<nat>, p: Parts)
    requires i < |lines| && (start.Some? ==> start.value < i)
    ensures Resumed(lines, i, start, Anchor(lines[i], p)) == Resumed(lines, i + 1, Some(i), p)
  {
    if p.Parts? {
      assert lines[..i + 1] == lines[..i] + [lines[i]];
      Assoc(lines[..i], [lines[i]], p.before);
      assert lines[i + 1..i + 1] + p.body == p.body;
      assert p.before == [] ==> lines[..i] + ([lines[i]] + p.before) == lines[..i + 1];
    }
  }

  lemma ResumedEnd(lines: seq<string>, i: nat, start: nat, indent: nat)
    requires start < i < |lines|
    ensures Resumed(lines, i, Some(start), Parts([], indent, [], lines[i..])) == Parts(lines[..start + 1], indent, lines[start + 1..i], lines[i..])
  {
    assert lines[start + 1..i] + [] == lines[start + 1..i];
  }

  /** A section found from nowhere has its header in front. */
  lemma {:induction false} LocateOpen(ed: Editor, lines: seq<string>, open: Option<nat>)
    ensures open.None? && Locate(ed, lines, open).Parts? ==> Locate(ed, lines, open).before != []
    ensures open.Some? ==> Locate(ed, lines, open).Parts? && (Locate(ed, lines, open).before == [] ==> Locate(ed, lines, open).indent == open.value)
  {
    hide Skipped, IsHeader, Indent;
    if lines != [] {
      LocateOpen(ed, lines[1..], open);
      LocateOpen(ed, lines[1..], Some(Indent(lines[0])));
    }
  }

  /** The state of the search before line `i`: where the last header was, -1 for none, and its indent. */
  ghost predicate Searched(ed: Editor, lines: seq<string>, i: nat, start: int, indent: nat) {
    && -1 <= start < i <= |lines|
    && Locate(ed, lines, None) ==
         if start < 0 then Resumed(lines, i, None, Locate(ed, lines[i..], None))
         else Resumed(lines, i, Some(start), Locate(ed, lines[i..], Some(indent)))
  }

  /** The section is lines `start` to `end`, its header included. */
  ghost predicate FoundAt(ed: Editor, lines: seq<string>, start: int, end: nat, indent: nat) {
    0 <= start < end <= |lines| && Locate(ed, lines, None) == Parts(lines[..start + 1], indent, lines[start + 1..end], lines[end..])
  }

  lemma FoundParts(ed: Editor, lines: seq<string>, start: int, end: nat, indent: nat)
    requires FoundAt(ed, lines, start, end, indent)
    ensures start >= 0 && Locate(ed, lines, None).Parts?
  {
    hide Locate;
  }

  lemma FoundIs(ed: Editor, lines: seq<string>, start: int, end: nat, indent: nat)
    requires FoundAt(ed, lines, start, end, indent)
    ensures 0 <= start < end <= |lines|
    ensures Locate(ed, lines, None) == Parts(lines[..start + 1], indent, lines[start + 1..end], lines[end..])
  {
    hide Locate;
  }

  lemma SearchedFirst(ed: Editor, lines: seq<string>)
    ensures Searched(ed, lines, 0, -1, 0)
  {
    ResumedFirst(ed, lines);
    hide Locate, Resumed;
  }

  lemma SearchedStep(ed: Editor, lines: seq<string>, i: nat, start: int, indent: nat)
    requires i < |lines| && Searched(ed, lines, i, start, indent)
    ensures var l := lines[i];
      if !Skipped(l) && IsHeader(ed, l) then Searched(ed, lines, i + 1, i, Indent(l))
      else if !Skipped(l) && start >= 0 && Indent(l) <= indent then FoundAt(ed, lines, start, i, indent)
      else Searched(ed, lines, i + 1, start, indent)
  {
    if start < 0 { ResumedStep(ed, lines, i, None, None); } else { ResumedStep(ed, lines, i, Some(start), Some(indent)); }
    hide Locate, Skipped, IsHeader, Indent, Resumed;
  }

  lemma SearchedLast(ed: Editor, lines: seq<string>, start: int, indent: nat)
    requires Searched(ed, lines, |lines|, start, indent)
    ensures start < 0 <==> Locate(ed, lines, None).NoSection?
    ensures start >= 0 ==> FoundAt(ed, lines, start, |lines|, indent)
  {
    assert lines[|lines|..] == [];
    if start < 0 { ResumedLast(ed, lines, None, None); } else { ResumedLast(ed, lines, Some(start), Some(indent)); }
    hide Locate, Resumed;
  }

  /** The section's header, its indent and its end, by index. */
  method FindSection(ed: Editor, lines: seq<string>) returns (start: int, end: nat, indent: nat)
    ensures start < 0 <==> Locate(ed, lines, None).NoSection?
    ensures start >= 0 ==> FoundAt(ed, lines, start, end, indent)
  {
    start, end, indent := -1, |lines|, 0;
    var i := 0;
    SearchedFirst(ed, lines);
    hide *;
    while i < |lines|
      invariant 0 <= i <= |lines| && -1 <= start < i && end == |lines|
      invariant Searched(ed, lines, i, start, indent)
    {
      SearchedStep(ed, lines, i, start, indent);
      var line := lines[i];
      if Skipped(line) {
      } else if IsHeader(ed, line) {
        start, indent := i, Indent(line);
      } else if start >= 0 && Indent(line) <= indent {
        end := i;
        FoundParts(ed, lines, start, end, indent);
        return;
      }
      i := i + 1;
    }
    SearchedLast(ed, lines, start, indent);
  }

  lemma ResumedFirst(ed: Editor, lines: seq<string>)
    ensures lines[0..] == lines && Locate(ed, lines, None) == Resumed(lines, 0, None, Locate(ed, lines, None))
  {
    hide Locate;
    var p := Locate(ed, lines, None);
    if p.Parts? { assert lines[..0] + p.before == p.before; }
  }

  lemma ResumedLast(ed: Editor, lines: seq<string>, start: Option<nat>, open: Option<nat>)
    requires (start.Some? <==> open.Some?) && (start.Some? ==> start.value < |lines|)
    ensures var all := Resumed(lines, |lines|, start, Locate(ed, [], open));
      if start.None? then all == NoSection
      else all == Parts(lines[..start.value + 1], open.value, lines[start.value + 1..], [])
  {
    if start.Some? { assert lines[start.value + 1..|lines|] + [] == lines[start.value + 1..]; }
  }

  /** The last line of the block that line `at` opens, by index. */
  method SkipBlock(lines: seq<string>, at: nat, end: nat) returns (last: nat)
    requires at < end <= |lines|
    ensures at <= last < end && AfterBlock(lines[at + 1..end], Indent(lines[at])) == lines[last + 1..end]
  {
    var indent := Indent(lines[at]);
    var i := at + 1;
    hide Skipped, Indent;
    while i < end
      invariant at + 1 <= i <= end
      invariant AfterBlock(lines[at + 1..end], indent) == AfterBlock(lines[i..end], indent)
    {
      assert lines[i..end][0] == lines[i] && lines[i..end][1..] == lines[i + 1..end];
      if Skipped(lines[i]) {
      } else if Indent(lines[i]) <= indent {
        return i - 1;
      }
      i := i + 1;
    }
    last := end - 1;
  }

  lemma RetainedStep(ed: Editor, body: seq<string>, parent: nat)
    requires body != []
    ensures Retained(ed, body, parent) ==
      if Removable(ed, body[0], parent) then Retained(ed, AfterBlock(body[1..], Indent(body[0])), parent)
      else [body[0]] + Retained(ed, body[1..], parent)
  {
    hide Removable, Indent, AfterBlock;
  }

  method KeepOthers(ed: Editor, lines: seq<string>, from: nat, end: nat, parent: nat) returns (out: seq<string>)
    requires from <= end <= |lines|
    ensures out == Retained(ed, lines[from..end], parent)
  {
    out := [];
    var i := from;
    hide Removable, Indent, AfterBlock;
    while i < end
      invariant from <= i <= end
      invariant out + Retained(ed, lines[i..end], parent) == Retained(ed, lines[from..end], parent)
    {
      assert lines[i..end][0] == lines[i] && lines[i..end][1..] == lines[i + 1..end];
      RetainedStep(ed, lines[i..end], parent);
      if Removable(ed, lines[i], parent) {
        i := SkipBlock(lines, i, end);
      } else {
        Assoc(out, [lines[i]], Retained(ed, lines[i + 1..end], parent));
        out := out + [lines[i]];
      }
      i := i + 1;
    }
    assert lines[i..end] == [];
  }

  method ReplaceSection(ed: Editor, lines: seq<string>, render: nat -> seq<string>) returns (r: Option<seq<string>>)
    ensures r == Replace(ed, lines, render)
  {
    hide Locate, Retained;
    var start, end, indent := FindSection(ed, lines);
    if start < 0 {
      return None;
    }
    FoundIs(ed, lines, start, end, indent);
    var out := lines[..start + 1];
    var kept := KeepOthers(ed, lines, start + 1, end, indent);
    Assoc(out + kept, render(indent + 2), lines[end..]);
    Assoc(out, kept, render(indent + 2) + lines[end..]);
    out := out + kept;
    out := out + render(indent + 2);
    out := out + lines[end..];
    r := Some(out);
  }
}
