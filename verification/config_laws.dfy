/** The laws of the editor: it writes last what is kept, and leaves the rest of the file alone. */
module ConfigLaws {
  import opened Text
  import opened ConfigEditor

  // ---- a section and its parts ---------------------------------------------------------

  /** A line that leaves an open section open and does not start it again. */
  predicate Stays(ed: Editor, line: string, indent: nat) {
    Skipped(line) || (!IsHeader(ed, line) && Indent(line) > indent)
  }

  predicate AllStay(ed: Editor, lines: seq<string>, indent: nat) {
    forall i :: 0 <= i < |lines| ==> Stays(ed, lines[i], indent)
  }

  /** Nothing, or a line that closes a section of this indent. */
  predicate Closes(ed: Editor, lines: seq<string>, indent: nat) {
    lines == [] || (!Skipped(lines[0]) && !IsHeader(ed, lines[0]) && Indent(lines[0]) <= indent)
  }

  predicate PartsOk(ed: Editor, lines: seq<string>, p: Parts) {
    p.Parts? ==> lines == p.before + (p.body + p.after) && AllStay(ed, p.body, p.indent) && Closes(ed, p.after, p.indent)
  }

  lemma StayCons(ed: Editor, line: string, lines: seq<string>, indent: nat)
    ensures AllStay(ed, [line] + lines, indent) <==> Stays(ed, line, indent) && AllStay(ed, lines, indent)
  {
    hide Stays;
    var all := [line] + lines;
    assert all[0] == line && forall i :: 0 <= i < |lines| ==> all[i + 1] == lines[i];
  }

  lemma PushOk(ed: Editor, line: string, rest: seq<string>, p: Parts)
    requires PartsOk(ed, rest, p) && (p.Parts? && p.before == [] ==> Stays(ed, line, p.indent))
    ensures PartsOk(ed, [line] + rest, Push(line, p)) && PartsOk(ed, [line] + rest, Anchor(line, p))
  {
    hide Stays, Closes, AllStay;
    if p.Parts? {
      StayCons(ed, line, p.body, p.indent);
      Assoc([line], p.before, p.body + p.after);
      Assoc([line], p.body, p.after);
      assert [] + ([line] + p.body + p.after) == [line] + p.body + p.after;
      assert p.before == [] ==> p.before + (p.body + p.after) == p.body + p.after;
    }
  }

  lemma AnchorOk(ed: Editor, line: string, rest: seq<string>, p: Parts)
    requires PartsOk(ed, rest, p)
    ensures PartsOk(ed, [line] + rest, Anchor(line, p))
  {
    hide Closes, AllStay;
    if p.Parts? { Assoc([line], p.before, p.body + p.after); }
  }

  lemma {:induction false} LocateOk(ed: Editor, lines: seq<string>, open: Option<nat>)
    ensures PartsOk(ed, lines, Locate(ed, lines, open))
  {
    if lines == [] {
    } else {
      var l, rest := lines[0], lines[1..];
      assert lines == [l] + rest;
      LocateOk(ed, rest, open);
      LocateOk(ed, rest, Some(Indent(l)));
      LocateOpen(ed, rest, open);
      hide Skipped, IsHeader, Indent, PartsOk;
      if Skipped(l) {
        assert forall n :: Stays(ed, l, n);
        PushOk(ed, l, rest, Locate(ed, rest, open));
      } else if IsHeader(ed, l) {
        AnchorOk(ed, l, rest, Locate(ed, rest, Some(Indent(l))));
      } else if open.Some? && Indent(l) <= open.value {
        ClosedHere(ed, lines, open.value);
      } else {
        PushOk(ed, l, rest, Locate(ed, rest, open));
      }
    }
  }

  lemma ClosedHere(ed: Editor, lines: seq<string>, indent: nat)
    requires Closes(ed, lines, indent)
    ensures PartsOk(ed, lines, Parts([], indent, [], lines))
  {
    assert [] + ([] + lines) == lines;
  }

  /** Lines that stay and a line that closes are the body and what follows. */
  lemma {:induction false} BodyIsLocated(ed: Editor, body: seq<string>, after: seq<string>, indent: nat)
    requires AllStay(ed, body, indent) && Closes(ed, after, indent)
    ensures Locate(ed, body + after, Some(indent)) == Parts([], indent, body, after)
    decreases |body|
  {
    hide Skipped, IsHeader, Indent;
    if body == [] {
      assert [] + after == after;
    } else {
      assert (body + after)[1..] == body[1..] + after && Stays(ed, body[0], indent);
      BodyIsLocated(ed, body[1..], after, indent);
      assert [body[0]] + body[1..] == body;
    }
  }

  /** What the lines before a section make of whatever comes after them. */
  function Behind(before: seq<string>, p: Parts): Parts {
    if p.NoSection? then p
    else if p.before != [] then p.(before := before + p.before)
    else Parts(before, p.indent, p.body, p.after)
  }

  lemma PushBehind(line: string, before: seq<string>, p: Parts)
    requires before != []
    ensures Push(line, Behind(before, p)) == Behind([line] + before, p) && Anchor(line, Behind(before, p)) == Behind([line] + before, p)
  {
    if p.Parts? { Assoc([line], before, p.before); }
  }

  lemma AnchorBehind(line: string, p: Parts)
    ensures Anchor(line, p) == if p.Parts? && p.before == [] then Behind([line], p) else Anchor(line, p)
    ensures Anchor(line, p) == Behind([line], p)
  {
    if p.Parts? && p.before == [] { assert [line] + [] == [line]; }
  }

  lemma LocateStep(ed: Editor, l: string, rest: seq<string>, open: Option<nat>)
    ensures Locate(ed, [l] + rest, open) ==
      if Skipped(l) then Push(l, Locate(ed, rest, open))
      else if IsHeader(ed, l) then Anchor(l, Locate(ed, rest, Some(Indent(l))))
      else if open.Some? && Indent(l) <= open.value then Parts([], open.value, [], [l] + rest)
      else Push(l, Locate(ed, rest, open))
  {
    assert ([l] + rest)[0] == l && ([l] + rest)[1..] == rest;
    hide Skipped, IsHeader, Indent;
  }

  /** The lines up to a section's header find it again, whatever follows. */
  lemma {:induction false} BeforeFindsAgain(ed: Editor, lines: seq<string>, open: Option<nat>, x: seq<string>)
    requires Locate(ed, lines, open).Parts? && Locate(ed, lines, open).before != []
    ensures var p := Locate(ed, lines, open);
      Locate(ed, p.before + x, open) == Behind(p.before, Locate(ed, x, Some(p.indent)))
    decreases |lines|
  {
    assert lines != [] by { hide Skipped, IsHeader, Indent; }
    var l, rest := lines[0], lines[1..];
    var p := Locate(ed, lines, open);
    HeadTail(lines);
    hide Skipped, IsHeader, Indent, Locate, Behind;
    LocateStep(ed, l, rest, open);
    if !Skipped(l) && IsHeader(ed, l) {
      var q := Locate(ed, rest, Some(Indent(l)));
      LocateOpen(ed, rest, Some(Indent(l)));
      LocateStep(ed, l, q.before + x, open);
      Assoc([l], q.before, x);
      if q.before == [] {
        assert [] + x == x && [l] + [] == [l];
        AnchorBehind(l, Locate(ed, x, Some(q.indent)));
      } else {
        BeforeFindsAgain(ed, rest, Some(Indent(l)), x);
        PushBehind(l, q.before, Locate(ed, x, Some(q.indent)));
      }
    } else {
      var q := Locate(ed, rest, open);
      BeforeFindsAgain(ed, rest, open, x);
      LocateStep(ed, l, q.before + x, open);
      Assoc([l], q.before, x);
      PushBehind(l, q.before, Locate(ed, x, Some(q.indent)));
    }
  }

  // ---- what is kept --------------------------------------------------------------------------

  predicate NoneRemovable(ed: Editor, lines: seq<string>, parent: nat) {
    forall i :: 0 <= i < |lines| ==> !Removable(ed, lines[i], parent)
  }

  lemma {:induction false} RetainedHasNone(ed: Editor, body: seq<string>, parent: nat)
    ensures NoneRemovable(ed, Retained(ed, body, parent), parent)
    decreases |body|
  {
    hide Removable, Indent, AfterBlock;
    if body != [] {
      if Removable(ed, body[0], parent) {
        RetainedHasNone(ed, AfterBlock(body[1..], Indent(body[0])), parent);
      } else {
        RetainedHasNone(ed, body[1..], parent);
      }
    }
  }

  lemma {:induction false} RetainedOfNone(ed: Editor, body: seq<string>, more: seq<string>, parent: nat)
    requires NoneRemovable(ed, body, parent)
    ensures Retained(ed, body + more, parent) == body + Retained(ed, more, parent)
    decreases |body|
  {
    hide Removable, Indent, AfterBlock;
    if body == [] {
      assert body + more == more;
    } else {
      assert (body + more)[0] == body[0] && (body + more)[1..] == body[1..] + more;
      RetainedOfNone(ed, body[1..], more, parent);
      HeadTail(body);
      Assoc([body[0]], body[1..], Retained(ed, more, parent));
    }
  }

  lemma {:induction false} AfterBlockStays(ed: Editor, lines: seq<string>, block: nat, indent: nat)
    requires AllStay(ed, lines, indent)
    ensures AllStay(ed, AfterBlock(lines, block), indent)
  {
    hide Stays, Under;
    if lines != [] && Under(lines[0], block) { AfterBlockStays(ed, lines[1..], block, indent); }
  }

  lemma {:induction false} RetainedStays(ed: Editor, body: seq<string>, parent: nat, indent: nat)
    requires AllStay(ed, body, indent)
    ensures AllStay(ed, Retained(ed, body, parent), indent)
    decreases |body|
  {
    if body != [] {
      AfterBlockStays(ed, body[1..], Indent(body[0]), indent);
      hide Removable, Indent, AfterBlock, Stays;
      if Removable(ed, body[0], parent) {
        RetainedStays(ed, AfterBlock(body[1..], Indent(body[0])), parent, indent);
      } else {
        RetainedStays(ed, body[1..], parent, indent);
      }
    }
  }

  /** The lines a renderer writes: under the section, the first of them a replaced key, every line at that depth one. */
  predicate Rendered(ed: Editor, lines: seq<string>, parent: nat) {
    && lines != [] && Removable(ed, lines[0], parent)
    && forall i :: 0 <= i < |lines| ==>
      && !Skipped(lines[i]) && !IsHeader(ed, lines[i]) && Indent(lines[i]) >= parent + 2
      && (Indent(lines[i]) == parent + 2 ==> Removable(ed, lines[i], parent))
  }

  /** What is left of such lines past a block: nothing, or again such lines. */
  lemma {:induction false} AfterBlockRendered(ed: Editor, lines: seq<string>, parent: nat)
    requires forall i :: 0 <= i < |lines| ==>
      !Skipped(lines[i]) && !IsHeader(ed, lines[i]) && Indent(lines[i]) >= parent + 2 && (Indent(lines[i]) == parent + 2 ==> Removable(ed, lines[i], parent))
    ensures var rest := AfterBlock(lines, parent + 2); rest == [] || Rendered(ed, rest, parent)
  {
    hide Skipped, IsHeader, Indent, Removable;
    if lines != [] && Under(lines[0], parent + 2) { AfterBlockRendered(ed, lines[1..], parent); }
  }

  lemma {:induction false} RenderedIsDropped(ed: Editor, lines: seq<string>, parent: nat)
    requires Rendered(ed, lines, parent)
    ensures Retained(ed, lines, parent) == []
    decreases |lines|
  {
    assert Indent(lines[0]) == parent + 2;
    AfterBlockRendered(ed, lines[1..], parent);
    hide Skipped, IsHeader, Indent, Removable, AfterBlock, Rendered;
    var rest := AfterBlock(lines[1..], parent + 2);
    if rest != [] { RenderedIsDropped(ed, rest, parent); }
  }

  lemma RenderedStays(ed: Editor, lines: seq<string>, parent: nat)
    requires Rendered(ed, lines, parent)
    ensures AllStay(ed, lines, parent)
  {
    hide Skipped, IsHeader, Indent, Removable;
  }

  lemma StayConcat(ed: Editor, a: seq<string>, b: seq<string>, indent: nat)
    requires AllStay(ed, a, indent) && AllStay(ed, b, indent)
    ensures AllStay(ed, a + b, indent)
  {
    hide Stays;
  }

  // ---- last write wins ---------------------------------------------------------------------------

  predicate RendersUnder(ed: Editor, render: nat -> seq<string>, parent: nat) {
    Rendered(ed, render(parent + 2), parent)
  }

  /** Of two rewrites of a section only the last one shows, whatever the lines are. */
  lemma LastWriteWins(ed: Editor, lines: seq<string>, first: nat -> seq<string>, second: nat -> seq<string>)
    requires forall parent: nat :: RendersUnder(ed, first, parent)
    ensures var once := Replace(ed, lines, first);
      if once.None? then Replace(ed, lines, second).None? else Replace(ed, once.value, second) == Replace(ed, lines, second)
  {
    var p := Locate(ed, lines, None);
    if p.Parts? {
      LocateOk(ed, lines, None);
      LocateOpen(ed, lines, None);
      assert RendersUnder(ed, first, p.indent);
      var kept, written := Retained(ed, p.body, p.indent), first(p.indent + 2);
      assert Replace(ed, lines, first) == Some(p.before + (kept + (written + p.after)));
      hide Retained, Locate, Stays, Removable, Closes, Rendered, AllStay;
      RetainedStays(ed, p.body, p.indent, p.indent);
      RenderedStays(ed, written, p.indent);
      StayConcat(ed, kept, written, p.indent);
      Assoc(kept, written, p.after);
      BodyIsLocated(ed, kept + written, p.after, p.indent);
      BeforeFindsAgain(ed, lines, None, (kept + written) + p.after);
      RetainedHasNone(ed, p.body, p.indent);
      RetainedOfNone(ed, kept, written, p.indent);
      RenderedIsDropped(ed, written, p.indent);
      assert kept + [] == kept;
    }
  }

  // ---- the frame -----------------------------------------------------------------------------------

  /** Line `j` of a body belongs to the block of the replaced key on line `i`. */
  ghost predicate InBlockOf(ed: Editor, body: seq<string>, i: nat, j: nat, parent: nat) {
    i <= j < |body| && Removable(ed, body[i], parent) && forall k :: i < k <= j ==> Under(body[k], parent + 2)
  }

  ghost predicate InBlock(ed: Editor, body: seq<string>, j: nat, parent: nat) {
    exists i: nat :: InBlockOf(ed, body, i, j, parent)
  }

  /** The lines from `j` on that belong to no block. */
  ghost function Outside(ed: Editor, body: seq<string>, j: nat, parent: nat): seq<string>
    requires j <= |body|
    decreases |body| - j
  {
    if j == |body| then []
    else (if InBlock(ed, body, j, parent) then [] else [body[j]]) + Outside(ed, body, j + 1, parent)
  }

  /** No block that starts before line `j` reaches it. */
  ghost predicate Clear(ed: Editor, body: seq<string>, j: nat, parent: nat) {
    j >= |body| || forall i: nat :: i < j ==> !InBlockOf(ed, body, i, j, parent)
  }

  /** Where the lines under a key end. */
  function BlockEnd(body: seq<string>, j: nat, indent: nat): (n: nat)
    requires j <= |body|
    ensures j <= n <= |body|
    ensures forall k :: j <= k < n ==> Under(body[k], indent)
    ensures n < |body| ==> !Under(body[n], indent)
    decreases |body| - j
  {
    if j < |body| && Under(body[j], indent) then BlockEnd(body, j + 1, indent) else j
  }

  lemma {:induction false} BlockEndIs(body: seq<string>, j: nat, indent: nat)
    requires j <= |body|
    ensures AfterBlock(body[j..], indent) == body[BlockEnd(body, j, indent)..]
    decreases |body| - j
  {
    hide Under;
    if j < |body| {
      assert body[j..][0] == body[j] && body[j..][1..] == body[j + 1..];
      if Under(body[j], indent) { BlockEndIs(body, j + 1, indent); }
    }
  }

  lemma {:induction false} OutsideSkips(ed: Editor, body: seq<string>, i: nat, j: nat, n: nat, parent: nat)
    requires i < j <= n <= |body| && Removable(ed, body[i], parent) && forall k :: i < k < n ==> Under(body[k], parent + 2)
    ensures Outside(ed, body, j, parent) == Outside(ed, body, n, parent)
    decreases n - j
  {
    hide Removable, Under;
    if j < n {
      OutsideSkips(ed, body, i, j + 1, n, parent);
      assert InBlockOf(ed, body, i, j, parent);
      assert InBlock(ed, body, j, parent);
      assert [] + Outside(ed, body, j + 1, parent) == Outside(ed, body, j + 1, parent);
    }
  }

  lemma ClearPast(ed: Editor, body: seq<string>, n: nat, parent: nat)
    requires n < |body| ==> !Under(body[n], parent + 2)
    ensures Clear(ed, body, n, parent)
  {
    hide Removable, Under;
  }

  lemma ClearNext(ed: Editor, body: seq<string>, j: nat, parent: nat)
    requires j < |body| && Clear(ed, body, j, parent) && !Removable(ed, body[j], parent)
    ensures Clear(ed, body, j + 1, parent) && !InBlock(ed, body, j, parent)
  {
    hide Removable, Under;
    var n := j + 1;
    if n < |body| {
      forall i: nat | i < n ensures !InBlockOf(ed, body, i, n, parent) {
        if i < j { assert !InBlockOf(ed, body, i, j, parent); }
      }
    }
  }

  lemma BlockNotRetained(ed: Editor, body: seq<string>, j: nat, parent: nat)
    requires j < |body| && Removable(ed, body[j], parent)
    ensures Retained(ed, body[j..], parent) == Retained(ed, body[BlockEnd(body, j + 1, parent + 2)..], parent)
  {
    assert Indent(body[j]) == parent + 2;
    assert body[j..][0] == body[j] && body[j..][1..] == body[j + 1..];
    hide Removable, Indent, AfterBlock, Retained, BlockEnd;
    RetainedStep(ed, body[j..], parent);
    BlockEndIs(body, j + 1, parent + 2);
  }

  lemma BlockNotOutside(ed: Editor, body: seq<string>, j: nat, parent: nat)
    requires j < |body| && Removable(ed, body[j], parent)
    ensures Outside(ed, body, j, parent) == Outside(ed, body, BlockEnd(body, j + 1, parent + 2), parent)
  {
    hide Removable, Under, BlockEnd;
    assert InBlockOf(ed, body, j, j, parent);
    assert InBlock(ed, body, j, parent);
    assert [] + Outside(ed, body, j + 1, parent) == Outside(ed, body, j + 1, parent);
    hide InBlock, InBlockOf;
    OutsideSkips(ed, body, j, j + 1, BlockEnd(body, j + 1, parent + 2), parent);
  }

  lemma {:induction false} RetainedIsOutsideFrom(ed: Editor, body: seq<string>, j: nat, parent: nat)
    requires j <= |body| && Clear(ed, body, j, parent)
    ensures Retained(ed, body[j..], parent) == Outside(ed, body, j, parent)
    decreases |body| - j
  {
    hide Removable, Under, Indent, Clear, AfterBlock, InBlock, InBlockOf;
    if j < |body| {
      if Removable(ed, body[j], parent) {
        hide Retained, Outside, BlockEnd;
        var n := BlockEnd(body, j + 1, parent + 2);
        BlockNotRetained(ed, body, j, parent);
        BlockNotOutside(ed, body, j, parent);
        ClearPast(ed, body, n, parent);
        RetainedIsOutsideFrom(ed, body, n, parent);
      } else {
        ClearNext(ed, body, j, parent);
        RetainedStep(ed, body[j..], parent);
        assert body[j..][0] == body[j] && body[j..][1..] == body[j + 1..];
        hide Retained;
        RetainedIsOutsideFrom(ed, body, j + 1, parent);
      }
    } else {
      assert body[j..] == [];
    }
  }

  /**
   A rewrite leaves every line before and after the section as it was, keeps in order the lines of the section
   that belong to no block of a replaced key, drops those that do, and writes the new lines behind them.
   */
  lemma RewriteFrame(ed: Editor, lines: seq<string>, render: nat -> seq<string>)
    requires Replace(ed, lines, render).Some?
    ensures var p := Locate(ed, lines, None);
      && p.Parts? && lines == p.before + (p.body + p.after) && AllStay(ed, p.body, p.indent) && Closes(ed, p.after, p.indent)
      && Replace(ed, lines, render).value == p.before + (Outside(ed, p.body, 0, p.indent) + (render(p.indent + 2) + p.after))
  {
    LocateOk(ed, lines, None);
    var p := Locate(ed, lines, None);
    hide Locate, Retained, AllStay, Closes;
    assert p.body[0..] == p.body;
    RetainedIsOutsideFrom(ed, p.body, 0, p.indent);
  }
}
