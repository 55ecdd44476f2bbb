/** Files whose last line does not end in a line break: exactly when a rewrite writes the lines it means to. */
module ConfigUnended {
  import opened Text
  import opened ConfigEditor
  import opened ConfigLaws
  import opened ConfigText
  import opened ConfigSections

  // ---- the pieces of any text ---------------------------------------------------------------------

  /** All but the last. */
  function Init(ls: seq<string>): seq<string> {
    if ls == [] then [] else ls[..|ls| - 1]
  }

  lemma InitCons(l: string, ls: seq<string>)
    ensures Init([l] + ls) == if ls == [] then [] else [l] + Init(ls)
  {
  }

  /** Proper lines or nothing, and one last piece that may lack its line break. */
  predicate Pieces(ls: seq<string>) {
    ls != [] && ProperOrEmpty(Init(ls)) && (OneLine(ls[|ls| - 1]) || Proper(ls[|ls| - 1]))
  }

  lemma {:induction false} SplitOfOne(line: string)
    requires OneLine(line)
    ensures SplitAfter(line) == [line]
  {
    if line != "" {
      SplitOfOne(line[1..]);
      HeadTail(line);
      assert line[0] in line;
    }
  }

  lemma PiecesCons(l: string, ls: seq<string>)
    requires Proper(l) && Pieces(ls)
    ensures Pieces([l] + ls)
  {
    hide Proper, OneLine;
    var all := [l] + ls;
    assert all[|all| - 1] == ls[|ls| - 1];
    InitCons(l, ls);
  }

  lemma ProperBreak()
    ensures Proper("\n")
  {
  }

  /** The first piece of a text, one rune longer. */
  lemma PiecesLonger(c: char, ls: seq<string>)
    requires c != '\n' && Pieces(ls) && ls[0] != ""
    ensures Pieces([[c] + ls[0]] + ls[1..])
  {
    var all := [[c] + ls[0]] + ls[1..];
    if Proper(ls[0]) { ProperCons(c, ls[0]); }
    if |ls| == 1 {
      assert all[..0] == [];
      OneLonger(c, ls[0]);
    } else {
      assert ls[..|ls| - 1][0] == ls[0];
      hide Proper, OneLine;
      assert all[|all| - 1] == ls[|ls| - 1];
      forall i | 0 <= i < |all| - 1 ensures all[i] == "" || Proper(all[i]) { assert i > 0 ==> all[i] == ls[..|ls| - 1][i]; }
    }
  }

  lemma OneLonger(c: char, l: string)
    requires c != '\n'
    ensures OneLine(l) ==> OneLine([c] + l)
  {
  }

  lemma {:induction false} SplitGivesPieces(text: string)
    ensures Pieces(SplitAfter(text)) && (text != "" ==> SplitAfter(text)[0] != "")
  {
    if text == "" {
      assert [""][..0] == [] && OneLine("");
    } else {
      SplitGivesPieces(text[1..]);
      SplitStep(text);
      ProperBreak();
      hide SplitAfter, Proper, OneLine;
      var rest := SplitAfter(text[1..]);
      if text[0] == '\n' {
        PiecesCons("\n", rest);
      } else if text[1..] == "" {
        JustRune(text);
      } else {
        PiecesLonger(text[0], rest);
      }
    }
  }

  lemma JustRune(text: string)
    requires |text| == 1 && text[0] != '\n'
    ensures Pieces(SplitAfter(text)) && SplitAfter(text)[0] != ""
  {
    assert text == [text[0]] && OneLine(text);
    SplitOfOne(text);
    assert [text][..0] == [];
  }

  /** Splitting what was joined, whatever the last piece. */
  lemma {:induction false} SplitOfPieces(ls: seq<string>)
    requires Pieces(ls)
    ensures NoEmpty(SplitAfter(Join(ls))) == NoEmpty(ls)
  {
    var init, last := ls[..|ls| - 1], ls[|ls| - 1];
    assert ls == init + [last];
    if Proper(last) {
      assert ProperOrEmpty(ls) by { assert forall i :: 0 <= i < |init| ==> ls[i] == init[i]; }
      SplitOfJoin(ls);
      hide SplitAfter, Join, NoEmpty, Proper, OneLine;
      NoEmptyTwice(ls);
    } else {
      SplitPast(init, last);
      SplitOfOne(last);
      hide SplitAfter, Join, NoEmpty, Proper, OneLine;
      NoEmptyConcat(NoEmpty(init), [last]);
      NoEmptyConcat(init, [last]);
      NoEmptyHasNone(init);
    }
  }

  lemma {:induction false} SplitPast(init: seq<string>, last: string)
    requires ProperOrEmpty(init)
    ensures SplitAfter(Join(init + [last])) == NoEmpty(init) + SplitAfter(last)
  {
    hide SplitAfter, Proper;
    if init == [] {
      assert [] + [last] == [last] && [last][1..] == [];
      NoMore(last);
      NoMore(SplitAfter(last));
    } else {
      SplitPast(init[1..], last);
      assert (init + [last])[1..] == init[1..] + [last];
      var rest := Join(init[1..] + [last]);
      if init[0] == "" {
        NoMore(rest);
        NoMore(NoEmpty(init[1..]));
      } else {
        SplitOfLine(init[0], rest);
        Assoc([init[0]], NoEmpty(init[1..]), SplitAfter(last));
      }
    }
  }

  lemma {:induction false} JoinNoEmpty(ls: seq<string>)
    ensures Join(NoEmpty(ls)) == Join(ls)
  {
    if ls != [] {
      JoinNoEmpty(ls[1..]);
      if ls[0] == "" {
        NoMore(Join(ls[1..]));
        NoMore(NoEmpty(ls[1..]));
      } else {
        assert ([ls[0]] + NoEmpty(ls[1..]))[1..] == NoEmpty(ls[1..]);
      }
    }
  }

  lemma {:induction false} JoinConcat(a: seq<string>, b: seq<string>)
    ensures Join(a + b) == Join(a) + Join(b)
  {
    if a == [] {
      NoMore(b);
      NoMore(Join(b));
    } else {
      JoinConcat(a[1..], b);
      assert (a + b)[1..] == a[1..] + b && (a + b)[0] == a[0];
      hide Join;
      JoinCons(a[0], a[1..] + b);
      HeadTail(a);
      HeadTail(a + b);
      JoinCons(a[0], a[1..]);
      Assoc(a[0], Join(a[1..]), Join(b));
    }
  }

  lemma JoinCons(line: string, lines: seq<string>)
    ensures Join([line] + lines) == line + Join(lines)
  {
    assert ([line] + lines)[1..] == lines;
  }

  // ---- the lines that are written -----------------------------------------------------------------

  /** The last of these lines ends in a line break, or is nothing. */
  predicate Ended(ls: seq<string>) {
    ls == [] || ls[|ls| - 1] == "" || ls[|ls| - 1][|ls[|ls| - 1]| - 1] == '\n'
  }

  /** Nothing unterminated is left in front of where the new lines go. */
  predicate Fitting(ed: Editor, text: string) {
    var p := Locate(ed, SplitAfter(text), None);
    p.Parts? ==> p.after != [] || Ended(p.before + Retained(ed, p.body, p.indent))
  }

  /** The lines of the new file are the lines it was made of. */
  predicate Stands(ed: Editor, text: string, render: nat -> seq<string>) {
    var r := Replace(ed, SplitAfter(text), render);
    r.Some? ==> NoEmpty(SplitAfter(Join(r.value))) == NoEmpty(r.value)
  }

  /** What is kept of a body, but for its last line, is among the lines before the last. */
  lemma {:induction false} RetainedInit(ed: Editor, body: seq<string>, parent: nat)
    ensures forall l :: l in Init(Retained(ed, body, parent)) ==> l in Init(body)
    ensures forall l :: l in Retained(ed, body, parent) ==> l in body
    decreases |body|
  {
    hide Removable, Indent, AfterBlock;
    if body != [] {
      RetainedStep(ed, body, parent);
      hide Retained;
      if Removable(ed, body[0], parent) {
        var rest := AfterBlock(body[1..], Indent(body[0]));
        RetainedInit(ed, rest, parent);
        AfterBlockIsEnd(body[1..], Indent(body[0]));
        EndInit(body, rest);
      } else {
        RetainedInit(ed, body[1..], parent);
        EndInit(body, body[1..]);
        RetainedSome(ed, body[1..], parent);
        InitCons(body[0], Retained(ed, body[1..], parent));
      }
    }
  }

  lemma RetainedSome(ed: Editor, body: seq<string>, parent: nat)
    ensures body == [] ==> Retained(ed, body, parent) == []
  {
  }

  lemma {:induction false} AfterBlockIsEnd(lines: seq<string>, indent: nat)
    ensures AfterBlock(lines, indent) == lines[|lines| - |AfterBlock(lines, indent)|..]
  {
    hide Under;
    if lines != [] && Under(lines[0], indent) { AfterBlockIsEnd(lines[1..], indent); }
  }

  lemma EndInit(lines: seq<string>, end: seq<string>)
    requires |end| < |lines| && end == lines[|lines| - |end|..]
    ensures forall l :: l in Init(end) ==> l in Init(lines)
    ensures forall l :: l in end ==> l in lines
    ensures end != [] ==> lines[0] in Init(lines)
  {
    if end != [] {
      forall i | 0 <= i < |end| - 1 ensures end[i] in Init(lines) { assert end[i] == Init(lines)[|lines| - |end| + i]; }
      assert lines[0] == Init(lines)[0];
    }
  }

  // ---- what is kept, piece by piece ---------------------------------------------------------------

  predicate Whole(l: string) {
    l == "" || Proper(l)
  }

  predicate Piece(l: string) {
    OneLine(l) || Proper(l)
  }

  lemma PiecesOf(ls: seq<string>)
    requires ls != []
    ensures Pieces(ls) <==> (forall l :: l in Init(ls) ==> Whole(l)) && Piece(ls[|ls| - 1])
    ensures ProperOrEmpty(ls) <==> forall l :: l in ls ==> Whole(l)
  {
    hide Proper, OneLine;
    var init := Init(ls);
    if forall l :: l in init ==> Whole(l) {
      forall i | 0 <= i < |init| ensures init[i] == "" || Proper(init[i]) { assert Whole(init[i]); }
    }
    if forall l :: l in ls ==> Whole(l) {
      forall i | 0 <= i < |ls| ensures ls[i] == "" || Proper(ls[i]) { assert Whole(ls[i]); }
    }
  }

  lemma WholeIsPiece(l: string)
    requires Whole(l)
    ensures Piece(l)
  {
    hide Proper;
  }

  lemma InitConcat(a: seq<string>, b: seq<string>)
    requires b != []
    ensures Init(a + b) == a + Init(b) && (a + b)[|a + b| - 1] == b[|b| - 1]
  {
  }

  /** What stands before the new lines, and what behind them. */
  lemma KeptPieces(ed: Editor, text: string)
    requires Locate(ed, SplitAfter(text), None).Parts?
    ensures var p := Locate(ed, SplitAfter(text), None); var kept := p.before + Retained(ed, p.body, p.indent);
      kept != [] && if p.after != [] then ProperOrEmpty(kept) && Pieces(p.after) else Pieces(kept)
  {
    var lines := SplitAfter(text);
    var p := Locate(ed, lines, None);
    SplitGivesPieces(text);
    LocateOk(ed, lines, None);
    LocateOpen(ed, lines, None);
    RetainedInit(ed, p.body, p.indent);
    RetainedSome(ed, p.body, p.indent);
    hide *;
    KeptFrom(p.before, p.body, Retained(ed, p.body, p.indent), p.after);
  }

  lemma KeptFrom(before: seq<string>, body: seq<string>, r: seq<string>, after: seq<string>)
    requires before != [] && Pieces(before + (body + after))
    requires (forall l :: l in Init(r) ==> l in Init(body)) && (forall l :: l in r ==> l in body)
    ensures var kept := before + r;
      kept != [] && if after != [] then ProperOrEmpty(kept) && Pieces(after) else Pieces(kept)
  {
    hide *;
    if after != [] {
      KeptBefore(before, body, r, after);
    } else {
      NoMore(body);
      if r == [] { KeptNone(before, body); } else { KeptLast(before, body, r); }
    }
  }

  lemma KeptBefore(before: seq<string>, body: seq<string>, r: seq<string>, after: seq<string>)
    requires before != [] && after != [] && Pieces(before + (body + after)) && forall l :: l in r ==> l in body
    ensures ProperOrEmpty(before + r) && Pieces(after)
  {
    PiecesOf(before + (body + after));
    PiecesOf(before + r);
    PiecesOf(after);
    hide Pieces, ProperOrEmpty, Whole, Piece;
    InitConcat(body, after);
    InitConcat(before, body + after);
    hide Init;
    forall l | l in before + r ensures Whole(l) { assert l in before || l in body; }
    forall l | l in Init(after) ensures Whole(l) { assert l in body + Init(after); }
  }

  lemma KeptNone(before: seq<string>, body: seq<string>)
    requires before != [] && Pieces(before + body)
    ensures Pieces(before + [])
  {
    NoMore(before);
    if body == [] {
    } else {
      PiecesOf(before + body);
      PiecesOf(before);
      InitConcat(before, body);
      hide Pieces, Whole, Piece;
      WholeIsPiece(before[|before| - 1]);
      forall l | l in Init(before) ensures Whole(l) { assert l in before; }
    }
  }

  lemma KeptLast(before: seq<string>, body: seq<string>, r: seq<string>)
    requires before != [] && r != [] && Pieces(before + body)
    requires (forall l :: l in Init(r) ==> l in Init(body)) && (forall l :: l in r ==> l in body)
    ensures Pieces(before + r)
  {
    var last := r[|r| - 1];
    assert last in body;
    PiecesOf(before + body);
    PiecesOf(before + r);
    InitConcat(before, body);
    InitConcat(before, r);
    hide Pieces, Whole, Piece, Init;
    forall l | l in before + Init(r) ensures Whole(l) { assert l in before + Init(body); }
    BodyPieces(body, last);
  }

  lemma BodyPieces(body: seq<string>, l: string)
    requires l in body && (forall k :: k in Init(body) ==> Whole(k)) && Piece(body[|body| - 1])
    ensures Piece(l)
  {
    hide Whole, Piece;
    var i :| 0 <= i < |body| && body[i] == l;
    if i < |body| - 1 {
      assert Init(body)[i] == l;
      WholeIsPiece(l);
    }
  }

  // ---- exactly when the written lines stand -------------------------------------------------------

  /** Kept lines, the written ones, and what follows. */
  lemma FittingPieces(kept: seq<string>, written: seq<string>, after: seq<string>)
    requires written != [] && AllProper(written)
    requires if after != [] then ProperOrEmpty(kept) && Pieces(after) else Pieces(kept) && Ended(kept)
    ensures Pieces(kept + (written + after))
  {
    hide Proper, OneLine;
    if after == [] {
      NoMore(written);
      EndedPieces(kept);
      InitConcat(kept, written);
      forall i | 0 <= i < |kept + Init(written)| ensures Whole((kept + Init(written))[i]) {}
    } else {
      InitConcat(written, after);
      InitConcat(kept, written + after);
      var all := kept + (written + Init(after));
      forall i | 0 <= i < |all| ensures Whole(all[i]) {
        if i >= |kept| + |written| { assert all[i] == Init(after)[i - |kept| - |written|]; }
      }
    }
  }

  lemma EndedPieces(ls: seq<string>)
    requires Pieces(ls) && Ended(ls)
    ensures ProperOrEmpty(ls)
  {
    var last := ls[|ls| - 1];
    EndedIsWhole(last);
    hide Proper, OneLine;
    forall i | 0 <= i < |ls| ensures Whole(ls[i]) {
      if i < |ls| - 1 { assert Init(ls)[i] == ls[i]; }
    }
  }

  lemma EndedIsWhole(l: string)
    requires Piece(l) && (l == "" || l[|l| - 1] == '\n')
    ensures Whole(l)
  {
    if l != "" { assert l[|l| - 1] in l; }
  }

  lemma LooseIsOne(l: string)
    requires Piece(l) && l != "" && l[|l| - 1] != '\n'
    ensures OneLine(l)
  {
  }

  lemma GlueIsProper(u: string, w: string)
    requires OneLine(u) && Proper(w)
    ensures Proper(u + w)
  {
    var l := u + w;
    forall i | 0 <= i < |l| - 1 ensures l[i] != '\n' {
      if i < |u| { assert l[i] == u[i] && u[i] in u; } else { assert l[i] == w[i - |u|]; }
    }
  }

  /** The file as it is read again: the loose line and the first written one are one line. */
  function Glued(kept: seq<string>, written: seq<string>): seq<string>
    requires kept != [] && written != []
  {
    Init(kept) + ([kept[|kept| - 1] + written[0]] + written[1..])
  }

  lemma GluedJoins(kept: seq<string>, written: seq<string>)
    requires kept != [] && written != []
    ensures Join(Glued(kept, written)) == Join(kept + written)
  {
    var u, w, more := kept[|kept| - 1], written[0], written[1..];
    assert kept == Init(kept) + [u];
    HeadTail(written);
    hide Join, Init;
    Assoc(Init(kept), [u], written);
    JoinConcat(Init(kept), [u] + written);
    JoinConcat(Init(kept), [u + w] + more);
    JoinCons(u, written);
    JoinCons(w, more);
    JoinCons(u + w, more);
    Assoc(u, w, Join(more));
  }

  lemma GluedIsProper(kept: seq<string>, written: seq<string>)
    requires Pieces(kept) && !Ended(kept) && written != [] && AllProper(written)
    ensures ProperOrEmpty(Glued(kept, written))
  {
    var u := kept[|kept| - 1];
    LooseIsOne(u);
    GlueIsProper(u, written[0]);
    hide Proper, OneLine;
    var all := Glued(kept, written);
    forall i | 0 <= i < |all| ensures Whole(all[i]) {
      if i < |kept| - 1 { assert all[i] == Init(kept)[i]; }
      if i >= |kept| { assert all[i] == written[i - |kept| + 1]; }
    }
  }

  lemma {:induction false} NoEmptyCount(a: seq<string>, b: seq<string>)
    ensures |NoEmpty(a + b)| == |NoEmpty(a)| + |NoEmpty(b)|
  {
    NoEmptyConcat(a, b);
  }

  /** A loose line in front of written lines is lost as a line. */
  lemma LooseIsLost(kept: seq<string>, written: seq<string>)
    requires Pieces(kept) && !Ended(kept) && written != [] && AllProper(written)
    ensures |NoEmpty(SplitAfter(Join(kept + written)))| < |NoEmpty(kept + written)|
  {
    var u, glued := kept[|kept| - 1], Glued(kept, written);
    LooseShape(kept, written);
    hide *;
    GluedIsProper(kept, written);
    GluedJoins(kept, written);
    HeadTail(written);
    SplitOfJoin(glued);
    NoEmptyTwice(glued);
    NoEmptyCount(kept, written);
    NoEmptyCount(Init(kept), [u]);
    NoEmptyCount(Init(kept), [u + written[0]] + written[1..]);
    NoEmptyCount([u + written[0]], written[1..]);
    NoEmptyCount([written[0]], written[1..]);
    OneOfOne(u);
    OneOfOne(written[0]);
    OneOfOne(u + written[0]);
  }

  lemma LooseShape(kept: seq<string>, written: seq<string>)
    requires Pieces(kept) && !Ended(kept) && written != [] && AllProper(written)
    ensures var u := kept[|kept| - 1]; kept == Init(kept) + [u] && u != "" && u + written[0] != "" && written[0] != ""
    ensures Glued(kept, written) == Init(kept) + ([kept[|kept| - 1] + written[0]] + written[1..])
  {
    hide OneLine;
  }

  lemma OneOfOne(l: string)
    requires l != ""
    ensures |NoEmpty([l])| == 1
  {
    assert [l][1..] == [];
  }

  lemma ReplaceParts(ed: Editor, lines: seq<string>, render: nat -> seq<string>)
    ensures var p := Locate(ed, lines, None);
      if p.NoSection? then Replace(ed, lines, render).None?
      else Replace(ed, lines, render) == Some((p.before + Retained(ed, p.body, p.indent)) + (render(p.indent + 2) + p.after))
  {
    var p := Locate(ed, lines, None);
    hide Locate, Retained;
    if p.Parts? { Assoc(p.before, Retained(ed, p.body, p.indent), render(p.indent + 2) + p.after); }
  }

  lemma WritesSome(ed: Editor, render: nat -> seq<string>, parent: nat)
    requires WritesLines(ed, render, parent)
    ensures render(parent + 2) != [] && AllProper(render(parent + 2)) && Proper(render(parent + 2)[0])
    ensures Rendered(ed, render(parent + 2), parent)
  {
    hide Removable, Skipped, IsHeader, Indent, Proper;
  }

  /**
   The lines of a rewritten file, whatever the text, are the lines it was made of exactly when nothing unterminated
   is left in front of where the new lines go.
   */
  lemma StandsExactlyWhenFitting(ed: Editor, text: string, render: nat -> seq<string>)
    requires forall parent: nat :: WritesLines(ed, render, parent)
    ensures Stands(ed, text, render) <==> Fitting(ed, text)
  {
    hide *;
    var p := Locate(ed, SplitAfter(text), None);
    ReplaceParts(ed, SplitAfter(text), render);
    StandsMeans(ed, text, render);
    FittingMeans(ed, text);
    if p.Parts? {
      assert WritesLines(ed, render, p.indent);
      WritesSome(ed, render, p.indent);
      KeptPieces(ed, text);
      StandBehind(p.before + Retained(ed, p.body, p.indent), render(p.indent + 2), p.after);
    }
  }

  /** Lines written behind the kept ones stand exactly when these are ended or something follows. */
  lemma StandBehind(kept: seq<string>, written: seq<string>, after: seq<string>)
    requires written != [] && AllProper(written)
    requires if after != [] then ProperOrEmpty(kept) && Pieces(after) else Pieces(kept)
    ensures var all := kept + (written + after); NoEmpty(SplitAfter(Join(all))) == NoEmpty(all) <==> after != [] || Ended(kept)
  {
    hide *;
    if after != [] || Ended(kept) {
      FittingPieces(kept, written, after);
      SplitOfPieces(kept + (written + after));
    } else {
      NoMore(written);
      LooseIsLost(kept, written);
    }
  }

  lemma StandsMeans(ed: Editor, text: string, render: nat -> seq<string>)
    ensures var r := Replace(ed, SplitAfter(text), render);
      Stands(ed, text, render) <==> (r.Some? ==> NoEmpty(SplitAfter(Join(r.value))) == NoEmpty(r.value))
  {
    hide Replace, SplitAfter, Join, NoEmpty;
  }

  lemma FittingMeans(ed: Editor, text: string)
    ensures var p := Locate(ed, SplitAfter(text), None);
      Fitting(ed, text) <==> (p.Parts? ==> p.after != [] || Ended(p.before + Retained(ed, p.body, p.indent)))
  {
    hide Locate, SplitAfter, Retained, Ended;
  }

  // ---- last write wins, on any text ---------------------------------------------------------------

  lemma ReplaceAlike(ed: Editor, a: seq<string>, b: seq<string>, render: nat -> seq<string>)
    requires NoEmpty(a) == NoEmpty(b) && forall parent: nat :: WritesLines(ed, render, parent)
    ensures var r, s := Replace(ed, a, render), Replace(ed, b, render);
      if r.None? then s.None? else s.Some? && Join(r.value) == Join(s.value)
  {
    hide *;
    ReplaceShrinks(ed, a, render);
    ReplaceShrinks(ed, b, render);
    var r, s := Replace(ed, a, render), Replace(ed, b, render);
    if r.Some? && s.Some? {
      JoinNoEmpty(r.value);
      JoinNoEmpty(s.value);
    }
  }

  /** Where the written lines stand, of two rewrites only the last one shows; a text that ends in a line break is only one such case. */
  lemma FittingLastWins(ed: Editor, text: string, first: nat -> seq<string>, second: nat -> seq<string>)
    requires Fitting(ed, text)
    requires forall parent: nat :: WritesLines(ed, first, parent)
    requires forall parent: nat :: WritesLines(ed, second, parent)
    ensures var once := Rewrite(ed, text, first);
      if once.None? then Rewrite(ed, text, second).None? else Rewrite(ed, once.value, second) == Rewrite(ed, text, second)
  {
    forall parent: nat ensures RendersUnder(ed, first, parent) { assert WritesLines(ed, first, parent); }
    hide *;
    StandsExactlyWhenFitting(ed, text, first);
    LastWriteWins(ed, SplitAfter(text), first, second);
    RewriteIs(ed, text, first);
    RewriteIs(ed, text, second);
    var once := Replace(ed, SplitAfter(text), first);
    if once.Some? {
      StandsMeans(ed, text, first);
      RewriteIs(ed, Join(once.value), second);
      ReplaceAlike(ed, SplitAfter(Join(once.value)), once.value, second);
    }
  }

  /** A text that ends in a line break fits. */
  lemma TerminatedFits(ed: Editor, text: string)
    requires Terminated(text)
    ensures Fitting(ed, text)
  {
    var lines := SplitAfter(text);
    var p := Locate(ed, lines, None);
    if p.Parts? {
      LocateOk(ed, lines, None);
      hide *;
      SplitPieces(text);
      RetainedIsPart(ed, p.body, p.indent);
      PartEnds(lines, p.before, p.body, p.after, Retained(ed, p.body, p.indent));
    }
  }

  lemma PartEnds(lines: seq<string>, before: seq<string>, body: seq<string>, after: seq<string>, r: seq<string>)
    requires ProperOrEmpty(lines) && lines == before + (body + after) && forall l :: l in r ==> l in body
    ensures Ended(before + r)
  {
    hide Proper;
    var kept := before + r;
    if kept != [] {
      var last := kept[|kept| - 1];
      assert last in before || last in r;
      assert last in lines;
      WholeEnds(last);
    }
  }

  lemma WholeEnds(l: string)
    requires Whole(l)
    ensures l == "" || l[|l| - 1] == '\n'
  {
  }

  // ---- texts that do not fit ----------------------------------------------------------------------

  /** A loose line of the section that, with the first written line behind it, still belongs to the section and is kept. */
  predicate LooseLine(ed: Editor, text: string, written: seq<string>) {
    var p := Locate(ed, SplitAfter(text), None);
    && p.Parts? && p.after == [] && !Ended(Retained(ed, p.body, p.indent)) && written != []
    && var r := Retained(ed, p.body, p.indent); var glue := r[|r| - 1] + written[0];
    && Stays(ed, glue, p.indent) && !Removable(ed, glue, p.indent)
  }

  lemma EndedBehind(before: seq<string>, r: seq<string>)
    requires !Ended(r)
    ensures r != [] && !Ended(before + r) && Init(before + r) == before + Init(r) && (before + r)[|before + r| - 1] == r[|r| - 1]
  {
    InitConcat(before, r);
  }

  /** Such a file read again and rewritten: what was loose stays in front of what was written first. */
  lemma LooseLocated(ed: Editor, lines: seq<string>, written: seq<string>, glue: string)
    requires Locate(ed, lines, None).Parts?
    requires var p := Locate(ed, lines, None);
      Retained(ed, p.body, p.indent) != [] && written != [] && Rendered(ed, written, p.indent) && Stays(ed, glue, p.indent)
    ensures var p := Locate(ed, lines, None); var r := Retained(ed, p.body, p.indent);
      var body := Init(r) + ([glue] + written[1..]); Locate(ed, p.before + body, None) == Parts(p.before, p.indent, body, [])
  {
    var p := Locate(ed, lines, None);
    var r := Retained(ed, p.body, p.indent);
    var body := Init(r) + ([glue] + written[1..]);
    LocateOk(ed, lines, None);
    LocateOpen(ed, lines, None);
    RetainedStays(ed, p.body, p.indent, p.indent);
    RenderedStays(ed, written, p.indent);
    hide Locate, Retained, Stays, Rendered;
    assert AllStay(ed, body, p.indent) by { LooseStays(ed, r, written, glue, p.indent); }
    hide AllStay;
    BodyIsLocated(ed, body, [], p.indent);
    NoMore(body);
    BeforeFindsAgain(ed, lines, None, body);
  }

  lemma LooseStays(ed: Editor, r: seq<string>, written: seq<string>, glue: string, indent: nat)
    requires r != [] && written != [] && AllStay(ed, r, indent) && AllStay(ed, written, indent) && Stays(ed, glue, indent)
    ensures AllStay(ed, Init(r) + ([glue] + written[1..]), indent)
  {
    hide Stays;
    forall i | 0 <= i < |Init(r)| ensures Stays(ed, Init(r)[i], indent) { assert Init(r)[i] == r[i]; }
    forall i | 0 <= i < |written[1..]| ensures Stays(ed, written[1..][i], indent) { assert written[1..][i] == written[i + 1]; }
    StayCons(ed, glue, written[1..], indent);
    StayConcat(ed, Init(r), [glue] + written[1..], indent);
  }

  lemma LooseRetained(ed: Editor, r: seq<string>, glue: string, more: seq<string>, parent: nat)
    requires NoneRemovable(ed, r, parent) && !Removable(ed, glue, parent)
    ensures Retained(ed, Init(r) + ([glue] + more), parent) == Init(r) + ([glue] + Retained(ed, more, parent))
  {
    hide Removable, Retained;
    assert NoneRemovable(ed, Init(r), parent) by { assert forall i :: 0 <= i < |Init(r)| ==> Init(r)[i] == r[i]; }
    assert NoneRemovable(ed, [glue], parent);
    hide Init;
    RetainedOfNone(ed, Init(r), [glue] + more, parent);
    RetainedOfNone(ed, [glue], more, parent);
  }

  /** The lines of a file and its length. */
  lemma LengthOf(before: seq<string>, init: seq<string>, glue: string, more: seq<string>, written: seq<string>)
    ensures |Join(before + (init + ([glue] + more) + written))| == |Join(before)| + |Join(init)| + |glue| + |Join(more)| + |Join(written)|
  {
    hide Join;
    JoinConcat(before, init + ([glue] + more) + written);
    JoinConcat(init + ([glue] + more), written);
    JoinConcat(init, [glue] + more);
    JoinCons(glue, more);
  }

  /** The first rewrite of such a text: its lines are the ones of before, the loose line among them made longer. */
  lemma LooseOnce(ed: Editor, text: string, first: nat -> seq<string>)
    requires forall parent: nat :: WritesLines(ed, first, parent)
    requires var p := Locate(ed, SplitAfter(text), None); p.Parts? && p.after == [] && !Ended(Retained(ed, p.body, p.indent)) && first(p.indent + 2) != []
    ensures var p := Locate(ed, SplitAfter(text), None); var r, wa := Retained(ed, p.body, p.indent), first(p.indent + 2);
      r != [] && var once := p.before + (Init(r) + ([r[|r| - 1] + wa[0]] + wa[1..])); ProperOrEmpty(once) && Rewrite(ed, text, first) == Some(Join(once))
  {
    hide *;
    var p := Locate(ed, SplitAfter(text), None);
    var r, wa := Retained(ed, p.body, p.indent), first(p.indent + 2);
    assert WritesLines(ed, first, p.indent);
    WritesSome(ed, first, p.indent);
    KeptPieces(ed, text);
    ReplaceParts(ed, SplitAfter(text), first);
    RewriteIs(ed, text, first);
    LooseWritten(p.before, r, wa);
  }

  lemma LooseWritten(before: seq<string>, r: seq<string>, written: seq<string>)
    requires Pieces(before + r) && !Ended(r) && written != [] && AllProper(written)
    ensures r != [] && var once := before + (Init(r) + ([r[|r| - 1] + written[0]] + written[1..]));
      ProperOrEmpty(once) && Join(once) == Join((before + r) + (written + []))
  {
    hide *;
    EndedBehind(before, r);
    NoMore(written);
    GluedIsProper(before + r, written);
    GluedJoins(before + r, written);
    GluedParts(before, r, written);
  }

  /** On such a text the first rewrite shows through the second. */
  lemma LooseLineFails(ed: Editor, text: string, first: nat -> seq<string>, second: nat -> seq<string>)
    requires forall parent: nat :: WritesLines(ed, first, parent)
    requires forall parent: nat :: WritesLines(ed, second, parent)
    requires Locate(ed, SplitAfter(text), None).Parts? && LooseLine(ed, text, first(Locate(ed, SplitAfter(text), None).indent + 2))
    ensures Rewrite(ed, text, first).Some? && Rewrite(ed, Rewrite(ed, text, first).value, second) != Rewrite(ed, text, second)
  {
    hide *;
    var lines := SplitAfter(text);
    var p := Locate(ed, lines, None);
    var r := Retained(ed, p.body, p.indent);
    var wa, wb := first(p.indent + 2), second(p.indent + 2);
    assert WritesLines(ed, first, p.indent) && WritesLines(ed, second, p.indent);
    LooseMeans(ed, text, wa);
    WritesSome(ed, first, p.indent);
    ProperShows(wa[0]);
    var glue := r[|r| - 1] + wa[0];
    var body := Init(r) + ([glue] + wa[1..]);
    LooseOnce(ed, text, first);
    ReplaceParts(ed, lines, second);
    RewriteIs(ed, text, second);
    NoMore(wb);
    RewriteAgain(ed, p.before + body, second);
    LooseLocated(ed, lines, wa, glue);
    ReplaceParts(ed, p.before + body, second);
    RetainedHasNone(ed, p.body, p.indent);
    LooseRetained(ed, r, glue, wa[1..], p.indent);
    LongerShows(p.before, r, wa[0], Retained(ed, wa[1..], p.indent), wb);
  }

  lemma ProperShows(l: string)
    requires Proper(l)
    ensures l != ""
  {
  }

  lemma LooseMeans(ed: Editor, text: string, written: seq<string>)
    requires LooseLine(ed, text, written)
    ensures var p := Locate(ed, SplitAfter(text), None); var r := Retained(ed, p.body, p.indent);
      && p.Parts? && p.after == [] && !Ended(r) && r != [] && written != []
      && Stays(ed, r[|r| - 1] + written[0], p.indent) && !Removable(ed, r[|r| - 1] + written[0], p.indent)
  {
    hide Locate, SplitAfter, Retained, Stays, Removable;
  }

  /** A line made longer shows in the file, whatever is written behind it. */
  lemma LongerShows(before: seq<string>, r: seq<string>, added: string, more: seq<string>, written: seq<string>)
    requires r != [] && added != ""
    ensures Join(before + (Init(r) + ([r[|r| - 1] + added] + more)) + written) != Join(before + r + written)
  {
    var u := r[|r| - 1];
    hide *;
    Assoc(before, Init(r) + ([u + added] + more), written);
    LengthOf(before, Init(r), u + added, more, written);
    Assoc(before, r, written);
    LengthOf(before, Init(r), u, [], written);
    LastOfInit(r);
  }

  lemma LastOfInit(r: seq<string>)
    requires r != []
    ensures Init(r) + ([r[|r| - 1]] + []) == r
  {
  }

  lemma GluedParts(before: seq<string>, r: seq<string>, written: seq<string>)
    requires r != [] && written != []
    ensures before + r != [] && Glued(before + r, written) == before + (Init(r) + ([r[|r| - 1] + written[0]] + written[1..]))
  {
    InitConcat(before, r);
    hide Init;
    Assoc(before, Init(r), [r[|r| - 1] + written[0]] + written[1..]);
  }

  // ---- two such files -------------------------------------------------------------------------------

  lemma RenderedAccess(f: Formats, c: AccessControl)
    ensures RenderAccess(f, c)(2) == AccessLines(f, c, 2)
  {
    hide AccessLines;
  }

  lemma FirstAccessLine(f: Formats, c: AccessControl)
    ensures AccessLines(f, c, 2) != [] && AccessLines(f, c, 2)[0] == "  access_control:\n"
  {
    assert Spaces(1) == " " && Spaces(2) == "  ";
    hide ModeLine, NetworksLine, ItemLines;
  }

  lemma GluedSplit()
    ensures SplitAfter("proxy:\n" + "  port: 1") == ["proxy:\n"] + ["  port: 1"]
  {
    var header, line := "proxy:\n", "  port: 1";
    assert Proper(header) && OneLine(line);
    hide SplitAfter, Proper, OneLine;
    SplitOfLine(header, line);
    SplitOfOne(line);
  }

  lemma GluedTrims()
    ensures TrimSpace("proxy:\n") == "proxy:" && TrimSpace("  port: 1") == "port: 1"
  {
    var t, u := "proxy:\n", "port: 1";
    RunIs(t, IsSpace, 0);
    KeptIs(t, IsSpace, 6);
    assert t[..6] == "proxy:";
    RunIs("  port: 1", IsSpace, 2);
    assert "  port: 1"[2..] == u;
    KeptIs(u, IsSpace, 7);
  }

  lemma GluedIndents()
    ensures Indent("proxy:\n") == 0 && Indent("  port: 1") == 2
  {
    RunIs("proxy:\n", IsOnlySpace, 0);
    RunIs("  port: 1", IsOnlySpace, 2);
  }

  lemma GluedLocate()
    ensures Locate(PROXY_ACCESS, ["proxy:\n"] + ["  port: 1"], None) == Parts(["proxy:\n"], 0, ["  port: 1"], [])
  {
    GluedTrims();
    GluedIndents();
    var header, line := "proxy:\n", "  port: 1";
    assert !Skipped(header) && IsHeader(PROXY_ACCESS, header);
    assert !Skipped(line) && !IsHeader(PROXY_ACCESS, line) by { assert |"port: 1"| == 7; }
    assert Locate(PROXY_ACCESS, [], Some(0)) == Parts([], 0, [], []);
    hide Skipped, IsHeader, Indent, Locate;
    LocateStep(PROXY_ACCESS, line, [], Some(0));
    LocateStep(PROXY_ACCESS, header, [line], None);
    assert [line] + [] == [line] && [header] + [line] == [header, line] && [header] + [] == [header];
  }

  lemma PortLine()
    ensures TrimLeft("  port: 1", IsOnlySpace) == "port: 1"
  {
    RunIs("  port: 1", IsOnlySpace, 2);
    assert "  port: 1"[2..] == "port: 1";
  }

  lemma PortColon()
    ensures Run("port: 1", IsNoColon) == 4 && "port: 1"[..4] == "port"
  {
    RunIs("port: 1", IsNoColon, 4);
    assert "port: 1"[..4] == "port";
  }

  lemma PortKey()
    ensures KeyOf("  port: 1") == Some("port")
  {
    PortLine();
    PortColon();
    TrimSpaceOfTrimmed("port");
    hide TrimLeft, TrimSpace, Run;
  }

  lemma PortIsKept()
    ensures "port" !in ACCESS_KEYS
  {
    assert |"port"| == 4 && |ACCESS_KEYS[0]| == 24 && |ACCESS_KEYS[1]| == 14;
  }

  lemma GluedRetained()
    ensures Retained(PROXY_ACCESS, ["  port: 1"], 0) == ["  port: 1"]
  {
    PortKey();
    PortIsKept();
    hide KeyOf, Indent, Skipped, AfterBlock, ACCESS_KEYS;
    RetainedOne(PROXY_ACCESS, "  port: 1");
  }

  lemma RetainedOne(ed: Editor, line: string)
    requires KeyOf(line).Some? && KeyOf(line).value !in ed.keys
    ensures Retained(ed, [line], 0) == [line]
  {
    hide KeyOf, Indent, Skipped, AfterBlock;
    assert !Removable(ed, line, 0);
    assert [line][1..] == [];
    NoMore([line]);
  }

  /** The loose line with the first line of an access-control block behind it. */
  lemma PortGlue()
    ensures var glue := "  port: 1" + "  access_control:\n";
      glue == LineOf(2, "port: 1" + "  access_control:") && LineText("port: 1" + "  access_control:")
  {
    var a, b := "port: 1", "  access_control:";
    assert Spaces(1) == " " && Spaces(2) == "  ";
    assert "  port: 1" == "  " + a && "  access_control:\n" == b + "\n";
    Assoc("  ", a, b + "\n");
    Assoc(a, b, "\n");
    assert OneLine(a) && OneLine(b) && !IsSpace(a[0]) && a[0] != '#';
    assert (a + b)[0] == a[0];
  }

  lemma PortStays()
    ensures var glue := "  port: 1" + "  access_control:\n"; Stays(PROXY_ACCESS, glue, 0) && !Removable(PROXY_ACCESS, glue, 0)
  {
    var a, b := "port: 1", "  access_control:";
    var text := a + b;
    PortGlue();
    assert text[2] == a[2] == 'r' && text[1] == a[1] == 'o' && PROXY_ACCESS.header[1] == 'r';
    UnlikeAt(PROXY_ACCESS.header, text, 1);
    assert text[..4] == a[..4] == "port" && text[4] == a[4] == ':' && ':' !in "port" && Trimmed("port");
    assert Opens(text, "port");
    hide LineText, Unlike, Opens, LineOf, Skipped, IsHeader, Proper, Indent, KeyOf;
    RenderedLine(PROXY_ACCESS, 2, text);
    LineShape(2, text);
    KeyOfText(LineOf(2, text), text, "port");
    PortIsKept();
  }

  /** A section whose last line is not terminated: two settings written one after the other are not the last one written. */
  lemma UnterminatedLineFails(f: Formats, a: AccessControl, b: AccessControl)
    requires FormatsOk(f)
    ensures var text := "proxy:\n" + "  port: 1";
      var once := Rewrite(PROXY_ACCESS, text, RenderAccess(f, a));
      once.Some? && Rewrite(PROXY_ACCESS, once.value, RenderAccess(f, b)) != Rewrite(PROXY_ACCESS, text, RenderAccess(f, b))
  {
    var text := "proxy:\n" + "  port: 1";
    assert IsAccess(PROXY_ACCESS);
    GluedSplit();
    GluedLocate();
    GluedRetained();
    FirstAccessLine(f, a);
    RenderedAccess(f, a);
    PortStays();
    assert !Ended(["  port: 1"]) by { assert |"  port: 1"| == 9; }
    hide *;
    LooseIs(PROXY_ACCESS, text, RenderAccess(f, a)(2), ["proxy:\n"], "  port: 1");
    forall parent: nat ensures WritesLines(PROXY_ACCESS, RenderAccess(f, a), parent) && WritesLines(PROXY_ACCESS, RenderAccess(f, b), parent) {
      AccessWrites(PROXY_ACCESS, f, a, parent);
      AccessWrites(PROXY_ACCESS, f, b, parent);
    }
    LooseLineFails(PROXY_ACCESS, text, RenderAccess(f, a), RenderAccess(f, b));
  }

  lemma LooseIs(ed: Editor, text: string, written: seq<string>, before: seq<string>, line: string)
    requires Locate(ed, SplitAfter(text), None) == Parts(before, 0, [line], []) && Retained(ed, [line], 0) == [line]
    requires !Ended([line]) && written != [] && Stays(ed, line + written[0], 0) && !Removable(ed, line + written[0], 0)
    ensures LooseLine(ed, text, written)
  {
    hide Locate, SplitAfter, Retained, Stays, Removable, Ended;
  }

  lemma {:induction false} NoHeaders(ed: Editor, lines: seq<string>)
    requires forall i :: 0 <= i < |lines| ==> Skipped(lines[i]) || !IsHeader(ed, lines[i])
    ensures Locate(ed, lines, None).NoSection?
  {
    hide Skipped, IsHeader, Indent;
    if lines != [] { NoHeaders(ed, lines[1..]); }
  }

  lemma BareHeader()
    ensures SplitAfter("proxy:") == ["proxy:"] && Locate(PROXY_ACCESS, ["proxy:"], None) == Parts(["proxy:"], 0, [], [])
  {
    var h := "proxy:";
    SplitOfOne(h);
    RunIs(h, IsSpace, 0);
    KeptIs(h, IsSpace, 6);
    RunIs(h, IsOnlySpace, 0);
    assert h[..6] == h && h[0..] == h;
    assert !Skipped(h) && IsHeader(PROXY_ACCESS, h) && Indent(h) == 0;
    assert Locate(PROXY_ACCESS, [], Some(0)) == Parts([], 0, [], []);
    hide Skipped, IsHeader, Indent, Locate, SplitAfter;
    LocateStep(PROXY_ACCESS, h, [], None);
    NoMore([h]);
  }

  lemma HeaderIsNoMore()
    ensures !IsHeader(PROXY_ACCESS, "proxy:" + "  access_control:\n")
  {
    var a, b := "proxy:", "  access_control:\n";
    var s := a + b;
    assert |a| == 6 && |b| == 18 && s[0] == a[0] && s[22] == b[16] == ':' && s[23] == b[17] == '\n';
    RunIs(s, IsSpace, 0);
    KeptIs(s, IsSpace, 23);
    assert |TrimSpace(s)| == 23 && |PROXY_ACCESS.header| == 6;
  }

  lemma AccessIsNoHeader(f: Formats, c: AccessControl)
    requires FormatsOk(f)
    ensures var w := RenderAccess(f, c)(2); w != [] && w[0] == "  access_control:\n" && AllProper(w)
    ensures var w := RenderAccess(f, c)(2); forall i :: 0 <= i < |w| ==> !IsHeader(PROXY_ACCESS, w[i])
  {
    assert IsAccess(PROXY_ACCESS);
    FirstAccessLine(f, c);
    RenderedAccess(f, c);
    AccessWrites(PROXY_ACCESS, f, c, 0);
    hide RenderAccess, AccessLines, Skipped, IsHeader, Indent, Removable, AllProper;
  }

  /** A file that is only a section's header, not terminated, and written lines that are no header. */
  lemma BareHeaderFails(ed: Editor, h: string, first: nat -> seq<string>, second: nat -> seq<string>)
    requires SplitAfter(h) == [h] && Locate(ed, [h], None) == Parts([h], 0, [], []) && Pieces([h]) && !Ended([h])
    requires var w := first(2);
      w != [] && AllProper(w) && !IsHeader(ed, h + w[0]) && forall i :: 0 <= i < |w| ==> !IsHeader(ed, w[i])
    requires forall parent: nat :: WritesLines(ed, second, parent)
    ensures var once := Rewrite(ed, h, first); once.Some? && Rewrite(ed, once.value, second) == None
    ensures Rewrite(ed, h, second).Some?
  {
    var wa := first(2);
    var lines := Glued([h], wa);
    assert Init([h]) == [] && lines == [h + wa[0]] + wa[1..];
    assert Retained(ed, [], 0) == [];
    hide Locate, SplitAfter, Join, IsHeader, Skipped, Indent, Pieces, Ended, Retained, Replace, Rewrite, Proper, AllProper, WritesLines;
    NoMore([h]);
    NoMore(wa);
    ReplaceParts(ed, [h], first);
    ReplaceParts(ed, [h], second);
    RewriteIs(ed, h, first);
    RewriteIs(ed, h, second);
    GluedIsProper([h], wa);
    GluedJoins([h], wa);
    forall i | 0 <= i < |lines| ensures !IsHeader(ed, lines[i]) { if i > 0 { assert lines[i] == wa[i]; } }
    NoHeaders(ed, lines);
    ReplaceParts(ed, lines, second);
    RewriteAgain(ed, lines, second);
  }

  /** The first save makes the header part of another line, and the next one finds no section. */
  lemma UnterminatedHeaderFails(f: Formats, a: AccessControl, b: AccessControl)
    requires FormatsOk(f)
    ensures var once := Rewrite(PROXY_ACCESS, "proxy:", RenderAccess(f, a));
      once.Some? && Rewrite(PROXY_ACCESS, once.value, RenderAccess(f, b)) == None
    ensures Rewrite(PROXY_ACCESS, "proxy:", RenderAccess(f, b)).Some?
  {
    assert IsAccess(PROXY_ACCESS);
    BareHeader();
    BareHeaderIsLoose();
    HeaderIsNoMore();
    AccessIsNoHeader(f, a);
    hide *;
    forall parent: nat ensures WritesLines(PROXY_ACCESS, RenderAccess(f, b), parent) { AccessWrites(PROXY_ACCESS, f, b, parent); }
    BareHeaderFails(PROXY_ACCESS, "proxy:", RenderAccess(f, a), RenderAccess(f, b));
  }

  lemma BareHeaderIsLoose()
    ensures Pieces(["proxy:"]) && !Ended(["proxy:"])
  {
    var h := "proxy:";
    assert |h| == 6 && h[5] == ':' && OneLine(h);
    assert Init([h]) == [];
  }
}
