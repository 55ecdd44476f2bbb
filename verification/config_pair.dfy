/** Two sections rewritten in one file: exactly what each leaves of the other, and the pair of rewrites taken together. */
module ConfigPair {
  import opened Text
  import opened ConfigEditor
  import opened ConfigLaws
  import opened ConfigText
  import opened ConfigSections
  import opened ConfigUnended

  // ---- scanning lines for a section ---------------------------------------------------------------

  /** Lines read for a section: it ended among them, or one may still be open, at this indent. */
  datatype Scan = Closed | Going(open: Option<nat>)

  function ScanOf(ed: Editor, lines: seq<string>, open: Option<nat>): Scan {
    if lines == [] then Going(open)
    else if Skipped(lines[0]) then ScanOf(ed, lines[1..], open)
    else if IsHeader(ed, lines[0]) then ScanOf(ed, lines[1..], Some(Indent(lines[0])))
    else if open.Some? && Indent(lines[0]) <= open.value then Closed
    else ScanOf(ed, lines[1..], open)
  }

  /** A section found behind the scanned lines is found behind them whatever it is found in. */
  lemma {:induction false} ScanThenLocate(ed: Editor, x: seq<string>, y: seq<string>, open: Option<nat>)
    requires ScanOf(ed, x, open).Going?
    requires Locate(ed, y, ScanOf(ed, x, open).open).Parts? && Locate(ed, y, ScanOf(ed, x, open).open).before != []
    ensures var p := Locate(ed, y, ScanOf(ed, x, open).open); Locate(ed, x + y, open) == p.(before := x + p.before)
    decreases |x|
  {
    hide Skipped, IsHeader, Indent, Locate;
    if x == [] {
      NoMore(y);
      NoMore(Locate(ed, y, open).before);
    } else {
      var l, rest := x[0], x[1..];
      var next := if !Skipped(l) && IsHeader(ed, l) then Some(Indent(l)) else open;
      ScanThenLocate(ed, rest, y, next);
      HeadTail(x);
      assert x + y == [l] + (rest + y);
      LocateStep(ed, l, rest + y, open);
      Assoc([l], rest, Locate(ed, y, ScanOf(ed, x, open).open).before);
    }
  }

  /** A section that ended among the scanned lines, or was opened there and is still open, has its header there. */
  lemma {:induction false} ScanEnds(ed: Editor, x: seq<string>, y: seq<string>, open: Option<nat>)
    requires Locate(ed, x + y, open).Parts?
    requires ScanOf(ed, x, open).Going? ==>
      var p := Locate(ed, y, ScanOf(ed, x, open).open); p.Parts? && p.before == []
    ensures |Locate(ed, x + y, open).before| <= |x|
    decreases |x|
  {
    hide Skipped, IsHeader, Indent, Locate;
    if x == [] {
      NoMore(y);
    } else {
      var l, rest := x[0], x[1..];
      HeadTail(x);
      assert x + y == [l] + (rest + y);
      LocateStep(ed, l, rest + y, open);
      LocateOpen(ed, rest + y, open);
      if !Skipped(l) && !IsHeader(ed, l) && open.Some? && Indent(l) <= open.value {
      } else {
        var next := if !Skipped(l) && IsHeader(ed, l) then Some(Indent(l)) else open;
        ScanEnds(ed, rest, y, next);
      }
    }
  }

  lemma {:induction false} ScanConcat(ed: Editor, x: seq<string>, y: seq<string>, open: Option<nat>)
    ensures ScanOf(ed, x + y, open) == if ScanOf(ed, x, open).Closed? then Closed else ScanOf(ed, y, ScanOf(ed, x, open).open)
    decreases |x|
  {
    hide Skipped, IsHeader, Indent;
    if x == [] {
      NoMore(y);
    } else {
      assert (x + y)[0] == x[0] && (x + y)[1..] == x[1..] + y;
      ScanConcat(ed, x[1..], y, open);
      ScanConcat(ed, x[1..], y, Some(Indent(x[0])));
    }
  }

  // ---- the lines of another section ---------------------------------------------------------------

  /** Lines that are deeper than a section's header, or decide nothing. */
  predicate Deeper(lines: seq<string>, indent: nat) {
    forall i :: 0 <= i < |lines| ==> Skipped(lines[i]) || Indent(lines[i]) > indent
  }

  predicate NoHeader(ed: Editor, lines: seq<string>) {
    forall i :: 0 <= i < |lines| ==> Skipped(lines[i]) || !IsHeader(ed, lines[i])
  }

  /** Deeper lines without a header keep a section that is open above them open, and open none. */
  lemma {:induction false} ScanDeeper(ed: Editor, lines: seq<string>, indent: nat, open: Option<nat>)
    requires Deeper(lines, indent) && NoHeader(ed, lines) && (open.Some? ==> open.value < indent)
    ensures ScanOf(ed, lines, open) == Going(open)
    decreases |lines|
  {
    hide Skipped, IsHeader, Indent;
    if lines != [] {
      assert forall i :: 0 <= i < |lines| - 1 ==> lines[1..][i] == lines[i + 1];
      ScanDeeper(ed, lines[1..], indent, open);
    }
  }

  lemma StayDeeper(ed: Editor, lines: seq<string>, indent: nat)
    requires AllStay(ed, lines, indent)
    ensures Deeper(lines, indent)
  {
    hide Skipped, IsHeader, Indent;
    forall i | 0 <= i < |lines| ensures Skipped(lines[i]) || Indent(lines[i]) > indent { assert Stays(ed, lines[i], indent); }
  }

  // ---- two sections apart -------------------------------------------------------------------------

  predicate HeadedBy(ed: Editor, p: Parts) {
    p.Parts? && p.before != [] ==> HeaderLine(ed, p.before[|p.before| - 1], p.indent)
  }

  lemma PushHeadedBy(ed: Editor, line: string, p: Parts)
    requires HeadedBy(ed, p)
    ensures HeadedBy(ed, Push(line, p))
    ensures (p.Parts? && p.before == [] ==> HeaderLine(ed, line, p.indent)) ==> HeadedBy(ed, Anchor(line, p))
  {
    hide HeaderLine;
  }

  /** The last line before a section is its header. */
  lemma {:induction false} LocateHeader(ed: Editor, lines: seq<string>, open: Option<nat>)
    ensures HeadedBy(ed, Locate(ed, lines, open))
  {
    if lines != [] {
      var l, rest := lines[0], lines[1..];
      HeadTail(lines);
      hide Skipped, IsHeader, Indent, Locate, HeadedBy, Push, Anchor;
      LocateHeader(ed, rest, open);
      LocateHeader(ed, rest, Some(Indent(l)));
      LocateOpen(ed, rest, Some(Indent(l)));
      LocateStep(ed, l, rest, open);
      PushHeadedBy(ed, l, Locate(ed, rest, open));
      PushHeadedBy(ed, l, Locate(ed, rest, Some(Indent(l))));
      NoneBefore(ed, Indent(l), [l] + rest);
    } else {
      NoneBefore(ed, if open.Some? then open.value else 0, []);
      assert HeadedBy(ed, NoSection);
    }
  }

  lemma NoneBefore(ed: Editor, indent: nat, lines: seq<string>)
    ensures forall n: nat :: HeadedBy(ed, Parts([], n, [], lines))
  {
    hide HeaderLine;
  }

  predicate HeaderLine(ed: Editor, line: string, indent: nat) {
    !Skipped(line) && IsHeader(ed, line) && Indent(line) == indent
  }

  /** Both sections are there, and neither holds a line that is the other's header. */
  predicate Apart(e1: Editor, e2: Editor, lines: seq<string>) {
    var p, q := Locate(e1, lines, None), Locate(e2, lines, None);
    p.Parts? && q.Parts? && NoHeader(e2, p.body) && NoHeader(e1, q.body)
  }

  /** Lines cut at two sections, the first one above the second: up to its header, its body, up to the other's header, its body, the rest. */
  function Cut(x: seq<string>, s: seq<string>, m: seq<string>, t: seq<string>, y: seq<string>): seq<string> {
    x + (s + (m + (t + y)))
  }

  predicate Layout(above: Editor, below: Editor, x: seq<string>, i: nat, s: seq<string>, m: seq<string>, j: nat, t: seq<string>, y: seq<string>) {
    && m != [] && above.header != below.header && NoHeader(below, s)
    && Locate(above, Cut(x, s, m, t, y), None) == Parts(x, i, s, m + (t + y))
    && Locate(below, Cut(x, s, m, t, y), None) == Parts(x + (s + m), j, t, y)
  }

  /** Lines up to a section's header leave another section open only at a smaller indent. */
  lemma ScanToHeader(ed: Editor, other: Editor, x: seq<string>, indent: nat)
    requires x != [] && HeaderLine(ed, x[|x| - 1], indent) && ed.header != other.header
    ensures var s := ScanOf(other, x, None); s.Going? && s.open.Some? ==> s.open.value < indent
  {
    var init, h := x[..|x| - 1], x[|x| - 1];
    assert x == init + [h];
    assert !IsHeader(other, h);
    hide Skipped, IsHeader, Indent;
    ScanConcat(other, init, [h], None);
    assert [h][1..] == [];
  }

  /** A section below is where it was, whatever the body of the one above becomes. */
  lemma BelowStays(above: Editor, below: Editor, x: seq<string>, i: nat, s: seq<string>, s': seq<string>, a: seq<string>)
    requires x != [] && HeaderLine(above, x[|x| - 1], i) && above.header != below.header
    requires Deeper(s, i) && NoHeader(below, s) && Deeper(s', i) && NoHeader(below, s')
    requires var q := Locate(below, (x + s) + a, None); q.Parts? && |q.before| > |x + s|
    ensures var q := Locate(below, (x + s) + a, None);
      && q.before[..|x + s|] == x + s
      && Locate(below, (x + s') + a, None) == q.(before := (x + s') + q.before[|x + s|..])
  {
    hide *;
    ScanToHeader(above, below, x, i);
    ScanConcat(below, x, s, None);
    ScanConcat(below, x, s', None);
    var open := ScanOf(below, x, None);
    if open.Closed? {
      ScanEnds(below, x + s, a, None);
    } else {
      ScanDeeper(below, s, i, open.open);
      ScanDeeper(below, s', i, open.open);
      BelowFound(below, x + s, x + s', a, open.open);
    }
  }

  lemma BelowFound(ed: Editor, x: seq<string>, x': seq<string>, a: seq<string>, open: Option<nat>)
    requires ScanOf(ed, x, None) == Going(open) == ScanOf(ed, x', None)
    requires var q := Locate(ed, x + a, None); q.Parts? && |q.before| > |x|
    ensures var q := Locate(ed, x + a, None);
      && q.before[..|x|] == x
      && Locate(ed, x' + a, None) == q.(before := x' + q.before[|x|..])
  {
    hide *;
    var q := Locate(ed, a, open);
    if q.NoSection? {
      NoneThenNone(ed, x, a, None);
    } else if q.before == [] {
      ScanEnds(ed, x, a, None);
    } else {
      ScanThenLocate(ed, x, a, None);
      ScanThenLocate(ed, x', a, None);
      assert (x + q.before)[|x|..] == q.before && (x + q.before)[..|x|] == x;
    }
  }

  lemma {:induction false} NoneThenNone(ed: Editor, x: seq<string>, y: seq<string>, open: Option<nat>)
    requires ScanOf(ed, x, open).Going? && Locate(ed, y, ScanOf(ed, x, open).open).NoSection?
    ensures Locate(ed, x + y, open).NoSection?
    decreases |x|
  {
    hide Skipped, IsHeader, Indent, Locate;
    if x == [] {
      NoMore(y);
    } else {
      var l, rest := x[0], x[1..];
      HeadTail(x);
      assert x + y == [l] + (rest + y);
      LocateStep(ed, l, rest + y, open);
      NoneThenNone(ed, rest, y, if !Skipped(l) && IsHeader(ed, l) then Some(Indent(l)) else open);
    }
  }

  // ---- one edit at a time -------------------------------------------------------------------------

  /** Regrouping of cut lines. */
  lemma CutRegroups(x: seq<string>, s: seq<string>, m: seq<string>, t: seq<string>, y: seq<string>)
    ensures Cut(x, s, m, t, y) == (x + s) + (m + (t + y))
    ensures Cut(x, s, m, t, y) == (x + (s + m)) + (t + y)
  {
    Assoc(x, s, m + (t + y));
    Assoc(s, m, t + y);
    Assoc(x, s + m, t + y);
  }

  /** A section edited in place is found where it was, with its new body. */
  lemma EditIsLocated(ed: Editor, lines: seq<string>, body: seq<string>, after: seq<string>)
    requires Locate(ed, lines, None).Parts? && AllStay(ed, body, Locate(ed, lines, None).indent)
    requires var p := Locate(ed, lines, None); if p.after == [] then after == [] else after != [] && after[0] == p.after[0]
    ensures var p := Locate(ed, lines, None); Locate(ed, p.before + (body + after), None) == Parts(p.before, p.indent, body, after)
  {
    var p := Locate(ed, lines, None);
    LocateOk(ed, lines, None);
    LocateOpen(ed, lines, None);
    assert Closes(ed, after, p.indent);
    hide Locate, AllStay, Closes;
    BodyIsLocated(ed, body, after, p.indent);
    BeforeFindsAgain(ed, lines, None, body + after);
  }

  lemma LayoutFacts(above: Editor, below: Editor, x: seq<string>, i: nat, s: seq<string>, m: seq<string>, j: nat, t: seq<string>, y: seq<string>)
    requires Layout(above, below, x, i, s, m, j, t, y)
    ensures x != [] && HeaderLine(above, x[|x| - 1], i) && AllStay(above, s, i) && AllStay(below, t, j)
  {
    var lines := Cut(x, s, m, t, y);
    LocateOk(above, lines, None);
    LocateOk(below, lines, None);
    LocateOpen(above, lines, None);
    LocateHeader(above, lines, None);
    hide Locate, AllStay, Closes, HeaderLine, Cut;
  }

  lemma EditAbove(above: Editor, below: Editor, x: seq<string>, i: nat, s: seq<string>, m: seq<string>, j: nat, t: seq<string>, y: seq<string>, s': seq<string>)
    requires Layout(above, below, x, i, s, m, j, t, y) && AllStay(above, s', i) && NoHeader(below, s')
    ensures Layout(above, below, x, i, s', m, j, t, y)
  {
    LayoutFacts(above, below, x, i, s, m, j, t, y);
    var lines, rest := Cut(x, s, m, t, y), m + (t + y);
    CutRegroups(x, s, m, t, y);
    CutRegroups(x, s', m, t, y);
    hide Locate, AllStay, NoHeader, HeaderLine, Cut;
    EditIsLocated(above, lines, s', rest);
    assert Cut(x, s', m, t, y) == x + (s' + rest) by { CutIs(x, s', m, t, y); }
    StayDeeper(above, s, i);
    StayDeeper(above, s', i);
    Assoc(x, s, m);
    Assoc(x, s', m);
    BelowStays(above, below, x, i, s, s', rest);
    assert ((x + s) + m)[|x + s|..] == m;
  }

  lemma CutIs(x: seq<string>, s: seq<string>, m: seq<string>, t: seq<string>, y: seq<string>)
    ensures Cut(x, s, m, t, y) == x + (s + (m + (t + y)))
  {
  }

  lemma EditBelow(above: Editor, below: Editor, x: seq<string>, i: nat, s: seq<string>, m: seq<string>, j: nat, t: seq<string>, y: seq<string>, t': seq<string>)
    requires Layout(above, below, x, i, s, m, j, t, y) && AllStay(below, t', j)
    ensures Layout(above, below, x, i, s, m, j, t', y)
  {
    LayoutFacts(above, below, x, i, s, m, j, t, y);
    var lines := Cut(x, s, m, t, y);
    CutIs(x, s, m, t', y);
    CutRegroups(x, s, m, t', y);
    hide Locate, AllStay, NoHeader, HeaderLine, Cut;
    EditIsLocated(below, lines, t', y);
    EditIsLocated(above, lines, s, m + (t' + y));
  }

  // ---- the pair -----------------------------------------------------------------------------------

  /** One section rewritten and then the other, on the lines of a file. */
  function Both(e1: Editor, e2: Editor, lines: seq<string>, r1: nat -> seq<string>, r2: nat -> seq<string>): Option<seq<string>> {
    match Replace(e1, lines, r1)
    case None => None
    case Some(once) => Replace(e2, once, r2)
  }

  /** What an editor may write where another one has a section too. */
  predicate Writable(ed: Editor, other: Editor, render: nat -> seq<string>, parent: nat) {
    WritesLines(ed, render, parent) && NoHeader(other, render(parent + 2))
  }

  /** A body with its keys rewritten. */
  function Renewed(ed: Editor, body: seq<string>, parent: nat, render: nat -> seq<string>): seq<string> {
    Retained(ed, body, parent) + render(parent + 2)
  }

  lemma RenewedStays(ed: Editor, other: Editor, body: seq<string>, parent: nat, render: nat -> seq<string>)
    requires AllStay(ed, body, parent) && Writable(ed, other, render, parent)
    ensures AllStay(ed, Renewed(ed, body, parent, render), parent)
    ensures NoHeader(other, body) ==> NoHeader(other, Renewed(ed, body, parent, render))
  {
    RetainedStays(ed, body, parent, parent);
    RenderedStays(ed, render(parent + 2), parent);
    StayConcat(ed, Retained(ed, body, parent), render(parent + 2), parent);
    RetainedIsPart(ed, body, parent);
    hide AllStay, Retained, Rendered, Skipped, IsHeader;
    if NoHeader(other, body) {
      var all := Renewed(ed, body, parent, render);
      forall i | 0 <= i < |all| ensures Skipped(all[i]) || !IsHeader(other, all[i]) {
        if i < |Retained(ed, body, parent)| { PartHasNone(other, body, all[i]); }
      }
    }
  }

  lemma PartHasNone(ed: Editor, lines: seq<string>, l: string)
    requires NoHeader(ed, lines) && l in lines
    ensures Skipped(l) || !IsHeader(ed, l)
  {
  }

  lemma RenewTwice(ed: Editor, body: seq<string>, parent: nat, first: nat -> seq<string>, second: nat -> seq<string>)
    requires WritesLines(ed, first, parent)
    ensures Renewed(ed, Renewed(ed, body, parent, first), parent, second) == Renewed(ed, body, parent, second)
  {
    var kept, written := Retained(ed, body, parent), first(parent + 2);
    assert Rendered(ed, written, parent);
    hide Retained, Rendered, WritesLines;
    RetainedHasNone(ed, body, parent);
    RetainedOfNone(ed, kept, written, parent);
    RenderedIsDropped(ed, written, parent);
    NoMore(kept);
  }

  lemma ReplaceAbove(above: Editor, below: Editor, x: seq<string>, i: nat, s: seq<string>, m: seq<string>, j: nat, t: seq<string>, y: seq<string>, r: nat -> seq<string>)
    requires Layout(above, below, x, i, s, m, j, t, y) && Writable(above, below, r, i)
    ensures Replace(above, Cut(x, s, m, t, y), r) == Some(Cut(x, Renewed(above, s, i, r), m, t, y))
    ensures Layout(above, below, x, i, Renewed(above, s, i, r), m, j, t, y)
  {
    LayoutFacts(above, below, x, i, s, m, j, t, y);
    CutIs(x, Renewed(above, s, i, r), m, t, y);
    assert NoHeader(below, s) && Locate(above, Cut(x, s, m, t, y), None) == Parts(x, i, s, m + (t + y));
    hide Locate, AllStay, NoHeader, HeaderLine, Cut, Layout, Retained, Writable, WritesLines;
    Assoc(Retained(above, s, i), r(i + 2), m + (t + y));
    RenewedStays(above, below, s, i, r);
    EditAbove(above, below, x, i, s, m, j, t, y, Renewed(above, s, i, r));
  }

  lemma ReplaceBelow(above: Editor, below: Editor, x: seq<string>, i: nat, s: seq<string>, m: seq<string>, j: nat, t: seq<string>, y: seq<string>, r: nat -> seq<string>)
    requires Layout(above, below, x, i, s, m, j, t, y) && Writable(below, above, r, j)
    ensures Replace(below, Cut(x, s, m, t, y), r) == Some(Cut(x, s, m, Renewed(below, t, j, r), y))
    ensures Layout(above, below, x, i, s, m, j, Renewed(below, t, j, r), y)
  {
    LayoutFacts(above, below, x, i, s, m, j, t, y);
    CutRegroups(x, s, m, Renewed(below, t, j, r), y);
    assert Locate(below, Cut(x, s, m, t, y), None) == Parts(x + (s + m), j, t, y);
    hide Locate, AllStay, NoHeader, HeaderLine, Cut, Layout, Retained, Writable, WritesLines;
    Assoc(Retained(below, t, j), r(j + 2), y);
    RenewedStays(below, above, t, j, r);
    EditBelow(above, below, x, i, s, m, j, t, y, Renewed(below, t, j, r));
  }

  /** The two rewrites in either order: both bodies with their keys rewritten, and the sections where they were. */
  lemma BothRenew(above: Editor, below: Editor, x: seq<string>, i: nat, s: seq<string>, m: seq<string>, j: nat, t: seq<string>, y: seq<string>,
                  ra: nat -> seq<string>, rb: nat -> seq<string>)
    requires Layout(above, below, x, i, s, m, j, t, y) && Writable(above, below, ra, i) && Writable(below, above, rb, j)
    ensures var both := Cut(x, Renewed(above, s, i, ra), m, Renewed(below, t, j, rb), y); var lines := Cut(x, s, m, t, y);
      Both(above, below, lines, ra, rb) == Some(both) && Both(below, above, lines, rb, ra) == Some(both)
    ensures Layout(above, below, x, i, Renewed(above, s, i, ra), m, j, Renewed(below, t, j, rb), y)
  {
    hide Layout, Writable, Replace, Cut, Renewed;
    ReplaceAbove(above, below, x, i, s, m, j, t, y, ra);
    ReplaceBelow(above, below, x, i, Renewed(above, s, i, ra), m, j, t, y, rb);
    ReplaceBelow(above, below, x, i, s, m, j, t, y, rb);
    ReplaceAbove(above, below, x, i, s, m, j, Renewed(below, t, j, rb), y, ra);
  }

  lemma LayoutLastWins(above: Editor, below: Editor, x: seq<string>, i: nat, s: seq<string>, m: seq<string>, j: nat, t: seq<string>, y: seq<string>,
                       ra: nat -> seq<string>, rb: nat -> seq<string>, ra': nat -> seq<string>, rb': nat -> seq<string>)
    requires Layout(above, below, x, i, s, m, j, t, y)
    requires Writable(above, below, ra, i) && Writable(below, above, rb, j) && Writable(above, below, ra', i) && Writable(below, above, rb', j)
    ensures var lines := Cut(x, s, m, t, y); var once := Both(above, below, lines, ra, rb);
      once.Some? && Both(below, above, lines, rb, ra) == once
      && Both(above, below, once.value, ra', rb') == Both(above, below, lines, ra', rb')
      && Both(below, above, once.value, rb', ra') == Both(below, above, lines, rb', ra')
      && Both(above, below, lines, ra', rb').Some?
      && Both(below, above, lines, rb', ra').Some?
  {
    assert WritesLines(above, ra, i) && WritesLines(below, rb, j);
    hide Layout, Writable, WritesLines, Both, Cut, Renewed;
    BothRenew(above, below, x, i, s, m, j, t, y, ra, rb);
    BothRenew(above, below, x, i, s, m, j, t, y, ra', rb');
    BothRenew(above, below, x, i, Renewed(above, s, i, ra), m, j, Renewed(below, t, j, rb), y, ra', rb');
    RenewTwice(above, s, i, ra, ra');
    RenewTwice(below, t, j, rb, rb');
  }

  /** Where the first of two sections apart ends, or the second. */
  lemma ApartInOrder(e1: Editor, e2: Editor, lines: seq<string>)
    requires e1.header != e2.header && Apart(e1, e2, lines)
    ensures var p, q := Locate(e1, lines, None), Locate(e2, lines, None);
      |q.before| > |p.before| + |p.body| || |p.before| > |q.before| + |q.body|
  {
    var p, q := Locate(e1, lines, None), Locate(e2, lines, None);
    LocateOk(e1, lines, None);
    LocateOk(e2, lines, None);
    LocateOpen(e1, lines, None);
    LocateOpen(e2, lines, None);
    LocateHeader(e1, lines, None);
    LocateHeader(e2, lines, None);
    hide Locate, AllStay, Closes, Skipped, Indent;
    var h1, h2 := |p.before| - 1, |q.before| - 1;
    assert lines[h1] == p.before[h1] && lines[h2] == q.before[h2];
    HeaderIsElsewhere(e2, lines, p.before, p.body, p.after, h2, q.indent);
    HeaderIsElsewhere(e1, lines, q.before, q.body, q.after, h1, p.indent);
  }

  lemma HeaderIsElsewhere(ed: Editor, lines: seq<string>, before: seq<string>, body: seq<string>, after: seq<string>, h: nat, indent: nat)
    requires lines == before + (body + after) && h < |lines| && HeaderLine(ed, lines[h], indent) && NoHeader(ed, body)
    ensures h < |before| || h >= |before| + |body|
  {
    hide Skipped, IsHeader, Indent;
    assert forall k :: 0 <= k < |body| ==> lines[|before| + k] == body[k];
  }

  /** The layout of two sections, the first one above. */
  lemma LayoutOf(above: Editor, below: Editor, lines: seq<string>)
    requires above.header != below.header && Locate(above, lines, None).Parts? && Locate(below, lines, None).Parts?
    requires NoHeader(below, Locate(above, lines, None).body)
    requires |Locate(below, lines, None).before| > |Locate(above, lines, None).before| + |Locate(above, lines, None).body|
    ensures var p, q := Locate(above, lines, None), Locate(below, lines, None); var m := q.before[|p.before| + |p.body|..];
      lines == Cut(p.before, p.body, m, q.body, q.after) && Layout(above, below, p.before, p.indent, p.body, m, q.indent, q.body, q.after)
  {
    var p, q := Locate(above, lines, None), Locate(below, lines, None);
    LocateOk(above, lines, None);
    LocateOk(below, lines, None);
    hide Locate, AllStay, Closes, NoHeader;
    Between(lines, p.before, p.body, p.after, q.before, q.body, q.after);
  }

  lemma Between(lines: seq<string>, x: seq<string>, s: seq<string>, a: seq<string>, b: seq<string>, t: seq<string>, y: seq<string>)
    requires lines == x + (s + a) == b + (t + y) && |b| > |x| + |s|
    ensures var m := b[|x| + |s|..]; m != [] && b == x + (s + m) && a == m + (t + y) && lines == Cut(x, s, m, t, y)
  {
    var m := b[|x| + |s|..];
    Assoc(x, s, a);
    assert b[..|x| + |s|] == lines[..|x| + |s|] == x + s;
    assert b == (x + s) + m;
    Assoc(x, s, m);
    Assoc(x + s, m, t + y);
    assert lines[|x| + |s|..] == a && lines[|x| + |s|..] == m + (t + y);
    CutRegroups(x, s, m, t, y);
  }

  /**
   The pair of rewrites, on any lines where neither section holds the other's header: they are all written, and of
   two pairs only the last one shows.
   */
  lemma PairOfLinesLastWins(e1: Editor, e2: Editor, lines: seq<string>, a1: nat -> seq<string>, a2: nat -> seq<string>, b1: nat -> seq<string>, b2: nat -> seq<string>)
    requires e1.header != e2.header && Apart(e1, e2, lines)
    requires forall n: nat :: Writable(e1, e2, a1, n)
    requires forall n: nat :: Writable(e1, e2, b1, n)
    requires forall n: nat :: Writable(e2, e1, a2, n)
    requires forall n: nat :: Writable(e2, e1, b2, n)
    ensures var once := Both(e1, e2, lines, a1, a2);
      once.Some? && Both(e1, e2, once.value, b1, b2) == Both(e1, e2, lines, b1, b2) && Both(e1, e2, lines, b1, b2).Some?
  {
    var p, q := Locate(e1, lines, None), Locate(e2, lines, None);
    assert p.Parts? && q.Parts? && NoHeader(e2, p.body) && NoHeader(e1, q.body);
    hide Locate, NoHeader, Both, Writable, Cut, Layout, Apart;
    ApartInOrder(e1, e2, lines);
    if |q.before| > |p.before| + |p.body| {
      LayoutOf(e1, e2, lines);
      LayoutLastWins(e1, e2, p.before, p.indent, p.body, q.before[|p.before| + |p.body|..], q.indent, q.body, q.after, a1, a2, b1, b2);
    } else {
      LayoutOf(e2, e1, lines);
      LayoutLastWins(e2, e1, q.before, q.indent, q.body, p.before[|q.before| + |q.body|..], p.indent, p.body, p.after, a2, a1, b2, b1);
    }
  }

  // ---- the program's pair -------------------------------------------------------------------------

  /** persistAccessControlSettings: the proxy's section, then the web interface's. */
  function PersistBoth(f: Formats, text: string, proxy: AccessControl, webui: AccessControl): Option<string> {
    match Both(PROXY_ACCESS, WEBUI_ACCESS, SplitAfter(text), RenderAccess(f, proxy), RenderAccess(f, webui))
    case None => None
    case Some(lines) => Some(Join(lines))
  }

  /** One read, both sections, and one write for both. */
  method PersistAccessControl(f: Formats, text: string, proxy: AccessControl, webui: AccessControl) returns (r: Option<string>)
    ensures r == PersistBoth(f, text, proxy, webui)
  {
    hide Replace, SplitAfter, Join, RenderAccess;
    var once := ReplaceSection(PROXY_ACCESS, SplitAfter(text), RenderAccess(f, proxy));
    if once.None? {
      return None;
    }
    var twice := ReplaceSection(WEBUI_ACCESS, once.value, RenderAccess(f, webui));
    if twice.None? {
      return None;
    }
    r := Some(Join(twice.value));
  }

  lemma {:induction false} BothAlike(e1: Editor, e2: Editor, a: seq<string>, b: seq<string>, r1: nat -> seq<string>, r2: nat -> seq<string>)
    requires NoEmpty(a) == NoEmpty(b)
    requires (forall n: nat :: WritesLines(e1, r1, n)) && (forall n: nat :: WritesLines(e2, r2, n))
    ensures var p, q := Both(e1, e2, a, r1, r2), Both(e1, e2, b, r1, r2);
      if p.None? then q.None? else q.Some? && Join(p.value) == Join(q.value)
  {
    hide Replace, NoEmpty, WritesLines, Join;
    ReplaceShrinks(e1, a, r1);
    ReplaceShrinks(e1, b, r1);
    var p, q := Replace(e1, a, r1), Replace(e1, b, r1);
    if p.Some? && q.Some? { ReplaceAlike(e2, p.value, q.value, r2); }
  }

  lemma BothIsProper(e1: Editor, e2: Editor, lines: seq<string>, r1: nat -> seq<string>, r2: nat -> seq<string>)
    requires ProperOrEmpty(lines) && (forall n: nat :: WritesLines(e1, r1, n)) && (forall n: nat :: WritesLines(e2, r2, n))
    ensures var p := Both(e1, e2, lines, r1, r2); p.Some? ==> ProperOrEmpty(p.value)
  {
    hide Replace, WritesLines, ProperOrEmpty;
    ReplaceIsProper(e1, lines, r1);
    if Replace(e1, lines, r1).Some? { ReplaceIsProper(e2, Replace(e1, lines, r1).value, r2); }
  }

  /** What is written for one section is no header of the other. */
  lemma AccessIsWritable(f: Formats, c: AccessControl, n: nat)
    requires FormatsOk(f)
    ensures Writable(PROXY_ACCESS, WEBUI_ACCESS, RenderAccess(f, c), n) && Writable(WEBUI_ACCESS, PROXY_ACCESS, RenderAccess(f, c), n)
  {
    assert IsAccess(PROXY_ACCESS) && IsAccess(WEBUI_ACCESS);
    AccessWrites(PROXY_ACCESS, f, c, n);
    AccessWrites(WEBUI_ACCESS, f, c, n);
    hide RenderAccess, Skipped, IsHeader, Indent, Removable, AllProper;
  }

  /**
   persistAccessControlSettings twice, on a file that ends in a line break and in which neither of the two sections holds
   the other's header: both times both sections are written, and only the last settings show.
   */
  lemma PairLastWins(f: Formats, text: string, a: AccessControl, a': AccessControl, b: AccessControl, b': AccessControl)
    requires FormatsOk(f) && Terminated(text) && Apart(PROXY_ACCESS, WEBUI_ACCESS, SplitAfter(text))
    ensures var once := PersistBoth(f, text, a, a');
      once.Some? && PersistBoth(f, once.value, b, b') == PersistBoth(f, text, b, b') && PersistBoth(f, text, b, b').Some?
  {
    var e1, e2, lines := PROXY_ACCESS, WEBUI_ACCESS, SplitAfter(text);
    assert |e1.header| == 6 && e1.header[0] == 'p' && e2.header[0] == 'w';
    hide *;
    forall n: nat, c: AccessControl
      ensures Writable(e1, e2, RenderAccess(f, c), n) && Writable(e2, e1, RenderAccess(f, c), n)
      ensures WritesLines(e1, RenderAccess(f, c), n) && WritesLines(e2, RenderAccess(f, c), n)
    {
      AccessIsWritable(f, c, n);
      WritableIs(e1, e2, RenderAccess(f, c), n);
      WritableIs(e2, e1, RenderAccess(f, c), n);
    }
    PairOfLinesLastWins(e1, e2, lines, RenderAccess(f, a), RenderAccess(f, a'), RenderAccess(f, b), RenderAccess(f, b'));
    var once := Both(e1, e2, lines, RenderAccess(f, a), RenderAccess(f, a'));
    SplitPieces(text);
    BothIsProper(e1, e2, lines, RenderAccess(f, a), RenderAccess(f, a'));
    SplitOfJoin(once.value);
    NoEmptyTwice(once.value);
    BothAlike(e1, e2, SplitAfter(Join(once.value)), once.value, RenderAccess(f, b), RenderAccess(f, b'));
    PersistIs(f, text, a, a');
    PersistIs(f, text, b, b');
    PersistIs(f, Join(once.value), b, b');
  }

  lemma WritableIs(ed: Editor, other: Editor, render: nat -> seq<string>, n: nat)
    requires Writable(ed, other, render, n)
    ensures WritesLines(ed, render, n)
  {
    hide WritesLines, NoHeader;
  }

  lemma PersistIs(f: Formats, text: string, proxy: AccessControl, webui: AccessControl)
    ensures var r := Both(PROXY_ACCESS, WEBUI_ACCESS, SplitAfter(text), RenderAccess(f, proxy), RenderAccess(f, webui));
      PersistBoth(f, text, proxy, webui) == if r.None? then None else Some(Join(r.value))
  {
    hide Both, SplitAfter, Join, RenderAccess;
  }

  // ---- a file where one section holds the other ----------------------------------------------------

  predicate AllUnder(lines: seq<string>, indent: nat) {
    forall i :: 0 <= i < |lines| ==> Under(lines[i], indent)
  }

  lemma {:induction false} AllUnderIsBlock(lines: seq<string>, indent: nat)
    requires AllUnder(lines, indent)
    ensures AfterBlock(lines, indent) == []
  {
    hide Under;
    if lines != [] {
      assert forall i :: 0 <= i < |lines| - 1 ==> lines[1..][i] == lines[i + 1];
      AllUnderIsBlock(lines[1..], indent);
    }
  }

  /** A line of neither editor's, at this indent. */
  predicate Plain(e1: Editor, e2: Editor, line: string, indent: nat) {
    !Skipped(line) && !IsHeader(e1, line) && !IsHeader(e2, line) && Indent(line) == indent
  }

  /** `outer` over a replaced key, over `inner`, over a line: the first section lies in a block the second rewrite drops. */
  predicate Nested(e1: Editor, e2: Editor, outer: string, key: string, inner: string, l: string) {
    && HeaderLine(e2, outer, 0) && !IsHeader(e1, outer)
    && Plain(e1, e2, key, 2) && Removable(e2, key, 0)
    && HeaderLine(e1, inner, 4) && !IsHeader(e2, inner)
    && Plain(e1, e2, l, 6)
  }

  lemma InnerLocated(e1: Editor, e2: Editor, outer: string, key: string, inner: string, l: string)
    requires Nested(e1, e2, outer, key, inner, l)
    ensures Locate(e1, [outer] + ([key] + ([inner] + [l])), None) == Parts([outer] + ([key] + [inner]), 4, [l], [])
  {
    assert Locate(e1, [], Some(4)) == Parts([], 4, [], []);
    hide Skipped, IsHeader, Indent, Removable, Locate;
    LocateStep(e1, l, [], Some(4));
    NoMore([l]);
    LocateStep(e1, inner, [l], None);
    NoMore([inner]);
    LocateStep(e1, key, [inner] + [l], None);
    LocateStep(e1, outer, [key] + ([inner] + [l]), None);
  }

  /** The outer section holds everything below its header, in the key's block but for the key. */
  lemma OuterDrops(e2: Editor, outer: string, key: string, deep: seq<string>)
    requires HeaderLine(e2, outer, 0) && Removable(e2, key, 0) && Stays(e2, key, 0) && AllStay(e2, deep, 0) && AllUnder(deep, 2)
    ensures Locate(e2, [outer] + ([key] + deep), None) == Parts([outer], 0, [key] + deep, [])
    ensures Retained(e2, [key] + deep, 0) == []
  {
    assert Indent(key) == 2;
    assert ([key] + deep)[1..] == deep;
    assert Closes(e2, [], 0);
    hide Skipped, IsHeader, Indent, Removable, AllUnder, Stays, AllStay, Closes;
    StayCons(e2, key, deep, 0);
    hide Locate;
    BodyIsLocated(e2, [key] + deep, [], 0);
    NoMore([key] + deep);
    LocateStep(e2, outer, [key] + deep, None);
    NoMore([outer]);
    AllUnderIsBlock(deep, 2);
    RetainedStep(e2, [key] + deep, 0);
  }

  lemma DeepOnes(e1: Editor, e2: Editor, inner: string, kept: seq<string>, written: seq<string>)
    requires HeaderLine(e1, inner, 4) && !IsHeader(e2, inner) && Rendered(e1, written, 4) && NoHeader(e2, written)
    requires forall i :: 0 <= i < |kept| ==> Plain(e1, e2, kept[i], 6)
    ensures AllStay(e2, [inner] + (kept + written), 0) && AllUnder([inner] + (kept + written), 2)
  {
    hide Skipped, IsHeader, Indent, Removable;
    var deep := [inner] + (kept + written);
    forall i | 0 <= i < |deep| ensures Stays(e2, deep[i], 0) && Under(deep[i], 2) {
      if i > |kept| { assert deep[i] == written[i - |kept| - 1]; }
    }
  }

  lemma RenderedIs(ed: Editor, other: Editor, render: nat -> seq<string>, n: nat)
    requires Writable(ed, other, render, n)
    ensures Rendered(ed, render(n + 2), n) && NoHeader(other, render(n + 2)) && AllProper(render(n + 2))
  {
    hide Rendered, NoHeader, AllProper;
  }

  lemma NestedOnce(e1: Editor, e2: Editor, outer: string, key: string, inner: string, l: string, r1: nat -> seq<string>, r2: nat -> seq<string>)
    requires Nested(e1, e2, outer, key, inner, l) && Writable(e1, e2, r1, 4) && Writable(e2, e1, r2, 0)
    ensures Both(e1, e2, [outer] + ([key] + ([inner] + [l])), r1, r2) == Some([outer] + r2(2))
  {
    var kept, written := Retained(e1, [l], 4), r1(6);
    RenderedIs(e1, e2, r1, 4);
    assert Stays(e2, key, 0);
    RetainedIsPart(e1, [l], 4);
    forall i | 0 <= i < |kept| ensures Plain(e1, e2, kept[i], 6) {
      assert kept[i] in kept;
      assert kept[i] in [l];
    }
    InnerLocated(e1, e2, outer, key, inner, l);
    DeepOnes(e1, e2, inner, kept, written);
    var deep := [inner] + (kept + written);
    OuterDrops(e2, outer, key, deep);
    hide Skipped, IsHeader, Indent, Removable, Locate, Retained, Plain, HeaderLine, Writable;
    NoMore(written);
    Assoc([key], [inner], kept + written);
    Assoc([outer], [key] + [inner], kept + written);
    NoMore(r2(2));
  }

  /** The first pair drops the block that holds the first section, and the next pair finds that section no more. */
  lemma NestedFails(e1: Editor, e2: Editor, outer: string, r1: nat -> seq<string>, r2: nat -> seq<string>, written: seq<string>)
    requires !IsHeader(e1, outer) && NoHeader(e1, written)
    ensures Both(e1, e2, [outer] + written, r1, r2) == None
  {
    hide Skipped, IsHeader;
    var lines := [outer] + written;
    forall i | 0 <= i < |lines| ensures Skipped(lines[i]) || !IsHeader(e1, lines[i]) { if i > 0 { assert lines[i] == written[i - 1]; } }
    NoHeaders(e1, lines);
  }

  // ---- such a file ----------------------------------------------------------------------------------

  /** A line of that text at that indent: its trimmed form, whether it is a header, and its first key. */
  lemma LineFacts(indent: nat, text: string)
    requires LineText(text) && !IsSpace(text[|text| - 1])
    ensures var l := LineOf(indent, text);
      Proper(l) && !Skipped(l) && Indent(l) == indent && forall ed: Editor :: IsHeader(ed, l) <==> ed.header == text
  {
    var l, s := LineOf(indent, text), text + "\n";
    LineShape(indent, text);
    assert s[|text| - 1] == text[|text| - 1] && s[|text|] == '\n' && s[..|text|] == text;
    KeptIs(s, IsSpace, |text|);
    hide LineOf, Proper, Indent;
    assert TrimSpace(l) == text;
  }

  lemma NestedTexts()
    ensures LineText("webui:") && LineText("access_control:") && LineText("proxy:") && LineText("port: 1")
    ensures !IsSpace("webui:"[5]) && !IsSpace("access_control:"[14]) && !IsSpace("proxy:"[5]) && !IsSpace("port: 1"[6])
    ensures |"webui:"| == 6 && |"access_control:"| == 15 && |"proxy:"| == 6 && |"port: 1"| == 7
    ensures Opens("access_control:", "access_control") && "access_control" in ACCESS_KEYS
    ensures "webui:" != "proxy:" && "access_control:" != "webui:" && "access_control:" != "proxy:" && "port: 1" != "webui:" && "port: 1" != "proxy:"
  {
    assert "access_control:"[..14] == "access_control" && ACCESS_KEYS[1] == "access_control";
    assert |"webui:"| == 6 && |"access_control:"| == 15 && |"port: 1"| == 7 && "webui:"[0] == 'w' && "proxy:"[0] == 'p';
  }

  /** The four lines, whatever their texts. */
  lemma NestedOf(e1: Editor, e2: Editor, key: string, o: string, k: string, h: string, d: string)
    requires LineText(o) && LineText(k) && LineText(h) && LineText(d)
    requires !IsSpace(o[|o| - 1]) && !IsSpace(k[|k| - 1]) && !IsSpace(h[|h| - 1]) && !IsSpace(d[|d| - 1])
    requires Opens(k, key) && key in e2.keys && e2.header == o && e1.header == h
    requires o != h && k != o && k != h && d != o && d != h
    ensures Nested(e1, e2, LineOf(0, o), LineOf(2, k), LineOf(4, h), LineOf(6, d))
    ensures Proper(LineOf(0, o)) && Proper(LineOf(2, k)) && Proper(LineOf(4, h)) && Proper(LineOf(6, d))
  {
    HeaderOf(e2, e1, 0, o);
    PlainOf(e1, e2, 2, k);
    KeyLineOf(e2, k, key);
    HeaderOf(e1, e2, 4, h);
    PlainOf(e1, e2, 6, d);
    hide LineOf, LineText, Opens, HeaderLine, IsHeader, Plain, Removable, Proper;
  }

  lemma HeaderOf(ed: Editor, other: Editor, indent: nat, text: string)
    requires LineText(text) && !IsSpace(text[|text| - 1]) && ed.header == text && other.header != text
    ensures HeaderLine(ed, LineOf(indent, text), indent) && !IsHeader(other, LineOf(indent, text)) && Proper(LineOf(indent, text))
  {
    LineFacts(indent, text);
    hide LineOf, LineText, Skipped, IsHeader, Proper, Indent;
  }

  lemma PlainOf(e1: Editor, e2: Editor, indent: nat, text: string)
    requires LineText(text) && !IsSpace(text[|text| - 1]) && e1.header != text && e2.header != text
    ensures Plain(e1, e2, LineOf(indent, text), indent) && Proper(LineOf(indent, text))
  {
    LineFacts(indent, text);
    hide LineOf, LineText, Skipped, IsHeader, Proper, Indent;
  }

  lemma KeyLineOf(ed: Editor, text: string, key: string)
    requires LineText(text) && !IsSpace(text[|text| - 1]) && Opens(text, key) && key in ed.keys
    ensures Removable(ed, LineOf(2, text), 0)
  {
    LineFacts(2, text);
    LineShape(2, text);
    hide LineOf, LineText, Opens, Skipped, Proper, Indent, KeyOf;
    KeyOfText(LineOf(2, text), text, key);
  }

  lemma NestedHolds()
    ensures Nested(PROXY_ACCESS, WEBUI_ACCESS, LineOf(0, "webui:"), LineOf(2, "access_control:"), LineOf(4, "proxy:"), LineOf(6, "port: 1"))
    ensures Proper(LineOf(0, "webui:")) && Proper(LineOf(2, "access_control:")) && Proper(LineOf(4, "proxy:")) && Proper(LineOf(6, "port: 1"))
  {
    NestedTexts();
    assert "access_control" in WEBUI_ACCESS.keys && WEBUI_ACCESS.header == "webui:" && PROXY_ACCESS.header == "proxy:";
    hide *;
    NestedOf(PROXY_ACCESS, WEBUI_ACCESS, "access_control", "webui:", "access_control:", "proxy:", "port: 1");
  }

  lemma WrittenSo()
    ensures LineOf(0, "webui:") == "webui:\n" && LineOf(2, "access_control:") == "  access_control:\n"
    ensures LineOf(4, "proxy:") == "    proxy:\n" && LineOf(6, "port: 1") == "      port: 1\n"
  {
    assert Spaces(1) == " " && Spaces(2) == "  ";
    assert Spaces(3) == "   " && Spaces(4) == "    ";
    assert Spaces(5) == "     " && Spaces(6) == "      ";
  }

  /** The lines of the file. */
  function NestedLines(): seq<string> {
    [LineOf(0, "webui:")] + ([LineOf(2, "access_control:")] + ([LineOf(4, "proxy:")] + [LineOf(6, "port: 1")]))
  }

  lemma NestedText()
    ensures Join(NestedLines()) == "webui:\n" + ("  access_control:\n" + ("    proxy:\n" + "      port: 1\n"))
    ensures AllProper(NestedLines())
  {
    assert NestedLines() == [LineOf(0, "webui:")] + ([LineOf(2, "access_control:")] + ([LineOf(4, "proxy:")] + [LineOf(6, "port: 1")]));
    hide *;
    WrittenSo();
    NestedHolds();
    FourLines(LineOf(0, "webui:"), LineOf(2, "access_control:"), LineOf(4, "proxy:"), LineOf(6, "port: 1"));
  }

  lemma FourLines(w: string, k: string, h: string, l: string)
    requires Proper(w) && Proper(k) && Proper(h) && Proper(l)
    ensures Join([w] + ([k] + ([h] + [l]))) == w + (k + (h + l)) && AllProper([w] + ([k] + ([h] + [l])))
  {
    hide Proper, Join;
    JoinCons(w, [k] + ([h] + [l]));
    JoinCons(k, [h] + [l]);
    JoinCons(h, [l]);
    JoinOne(l);
  }

  lemma JoinOne(l: string)
    ensures Join([l]) == l
  {
    assert [l][1..] == [];
    NoMore(l);
  }

  /** What a text of proper lines is rewritten to, by its lines. */
  lemma PersistLines(f: Formats, lines: seq<string>, a: AccessControl, b: AccessControl)
    requires FormatsOk(f) && AllProper(lines)
    ensures var r := Both(PROXY_ACCESS, WEBUI_ACCESS, lines, RenderAccess(f, a), RenderAccess(f, b));
      PersistBoth(f, Join(lines), a, b) == if r.None? then None else Some(Join(r.value))
  {
    assert ProperOrEmpty(lines);
    hide *;
    forall n: nat, c: AccessControl
      ensures WritesLines(PROXY_ACCESS, RenderAccess(f, c), n) && WritesLines(WEBUI_ACCESS, RenderAccess(f, c), n)
    {
      AccessIsWritable(f, c, n);
      WritableIs(PROXY_ACCESS, WEBUI_ACCESS, RenderAccess(f, c), n);
      WritableIs(WEBUI_ACCESS, PROXY_ACCESS, RenderAccess(f, c), n);
    }
    SplitOfJoin(lines);
    NoEmptyTwice(lines);
    PersistIs(f, Join(lines), a, b);
    BothAlike(PROXY_ACCESS, WEBUI_ACCESS, SplitAfter(Join(lines)), lines, RenderAccess(f, a), RenderAccess(f, b));
  }

  /**
   A file whose only proxy section lies in the access-control block of the web interface: the first save drops it,
   and the next save, which would have succeeded on the file as it was, writes nothing.
   */
  lemma NestedSectionFails(f: Formats, a: AccessControl, a': AccessControl, b: AccessControl, b': AccessControl)
    requires FormatsOk(f)
    ensures var text := "webui:\n" + ("  access_control:\n" + ("    proxy:\n" + "      port: 1\n")); var once := PersistBoth(f, text, a, a');
      once.Some? && PersistBoth(f, once.value, b, b') == None && PersistBoth(f, text, b, b').Some?
  {
    var outer, key, inner, l := LineOf(0, "webui:"), LineOf(2, "access_control:"), LineOf(4, "proxy:"), LineOf(6, "port: 1");
    assert NestedLines() == [outer] + ([key] + ([inner] + [l]));
    NestedText();
    NestedHolds();
    assert !IsHeader(PROXY_ACCESS, outer);
    hide *;
    AccessIsWritable(f, a, 4);
    AccessIsWritable(f, a', 0);
    AccessIsWritable(f, b, 4);
    AccessIsWritable(f, b', 0);
    RenderedIs(WEBUI_ACCESS, PROXY_ACCESS, RenderAccess(f, a'), 0);
    NestedOnce(PROXY_ACCESS, WEBUI_ACCESS, outer, key, inner, l, RenderAccess(f, a), RenderAccess(f, a'));
    NestedOnce(PROXY_ACCESS, WEBUI_ACCESS, outer, key, inner, l, RenderAccess(f, b), RenderAccess(f, b'));
    PersistLines(f, NestedLines(), a, a');
    PersistLines(f, NestedLines(), b, b');
    var written := RenderAccess(f, a')(2);
    NestedFails(PROXY_ACCESS, WEBUI_ACCESS, outer, RenderAccess(f, b), RenderAccess(f, b'), written);
    AllProperCons(outer, written);
    PersistLines(f, [outer] + written, b, b');
  }

  lemma AllProperCons(l: string, ls: seq<string>)
    requires Proper(l) && AllProper(ls)
    ensures AllProper([l] + ls)
  {
    hide Proper;
  }
}
