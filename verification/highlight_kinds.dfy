/** What each painted stretch is painted as: the fields of the file, whole, their placeholders apart. */
module HighlightKinds {
  import opened Text
  import opened HttpGrammar
  import opened HttpBlocks
  import opened HttpScan
  import opened Highlight
  import opened HighlightHtml
  import opened HighlightRender
  import opened HighlightFields

  // ---- the pieces of one token ---------------------------------------------------------

  /** The fields a placeholder can stand in. */
  predicate Hosts(kind: Kind) {
    kind == Target || kind == Value || kind == Body
  }

  predicate TwiceAt(runes: string, i: nat, c: char) {
    i + 2 <= |runes| && runes[i] == c && runes[i + 1] == c
  }

  /** Nowhere in `from..to` do two closing braces stand behind two opening ones. */
  predicate NoPair(runes: string, from: nat, to: nat) {
    forall o: nat, c: nat :: from <= o && o + 2 <= c && c + 2 <= to && TwiceAt(runes, o, '{') ==> !TwiceAt(runes, c, '}')
  }

  /** The first opening braces, the first closing ones behind them, and so on from there. */
  predicate LeftmostPairs(runes: string, from: nat, to: nat, hs: seq<Hole>)
    decreases |hs|
  {
    if hs == [] then NoPair(runes, from, to)
    else
      var open, after := hs[0].open, hs[0].after;
      && from <= open && open + 4 <= after <= to && TwiceAt(runes, open, '{') && TwiceAt(runes, after - 2, '}')
      && (forall i: nat :: from <= i < open ==> !TwiceAt(runes, i, '{'))
      && (forall i: nat :: open + 2 <= i < after - 2 ==> !TwiceAt(runes, i, '}'))
      && LeftmostPairs(runes, after, to, hs[1..])
  }

  lemma TwiceIsNeedle(runes: string, i: nat, c: char)
    requires i + 2 <= |runes|
    ensures NeedleAt(runes, i, [c, c]) <==> TwiceAt(runes, i, c)
  {
    assert runes[i..i + 2] == [runes[i], runes[i + 1]];
  }

  lemma {:induction false} FirstTwice(runes: string, from: nat, to: nat, c: char)
    requires to <= |runes|
    ensures var at := IndexRunes(runes, from, to, [c, c]);
      && (at >= 0 ==> from <= at && at + 2 <= to && TwiceAt(runes, at, c) && forall i: nat :: from <= i < at ==> !TwiceAt(runes, i, c))
      && (at < 0 ==> forall i: nat :: from <= i && i + 2 <= to ==> !TwiceAt(runes, i, c))
    decreases if from <= to then to - from else 0
  {
    if from + 2 <= to {
      TwiceIsNeedle(runes, from, c);
      hide NeedleAt, TwiceAt;
      if !NeedleAt(runes, from, [c, c]) { FirstTwice(runes, from + 1, to, c); }
    }
  }

  lemma HoleIsLeftmost(runes: string, from: nat, to: nat)
    requires to <= |runes|
    ensures NextHole(runes, from, to).None? ==> NoPair(runes, from, to)
    ensures NextHole(runes, from, to).Some? ==>
      var open, after := NextHole(runes, from, to).value.open, NextHole(runes, from, to).value.after;
      && from <= open && open + 4 <= after <= to && TwiceAt(runes, open, '{') && TwiceAt(runes, after - 2, '}')
      && (forall i: nat :: from <= i < open ==> !TwiceAt(runes, i, '{'))
      && (forall i: nat :: open + 2 <= i < after - 2 ==> !TwiceAt(runes, i, '}'))
  {
    assert "{{" == ['{', '{'] && "}}" == ['}', '}'];
    FirstTwice(runes, from, to, '{');
    var open := IndexRunes(runes, from, to, "{{");
    if open >= 0 { FirstTwice(runes, open + 2, to, '}'); }
    hide IndexRunes, TwiceAt, NeedleAt;
  }

  predicate IsHole(t: Token, hs: seq<Hole>) {
    t.kind == Placeholder && Hole(t.start, t.end) in hs
  }

  /** The placeholders among the pieces of a token are the leftmost pairs of its runes. */
  lemma {:induction false} PiecesHoles(runes: string, h: Token, cursor: nat) returns (hs: seq<Hole>)
    requires cursor <= h.end <= |runes| && h.kind != Placeholder
    ensures LeftmostPairs(runes, cursor, h.end, hs)
    ensures forall t: Token :: t.kind == Placeholder ==> (t in Pieces(runes, h, cursor) <==> IsHole(t, hs))
    decreases h.end - cursor
  {
    hide *;
    hs := [];
    HoleIsLeftmost(runes, cursor, h.end);
    PiecesStep(runes, h, cursor);
    if cursor >= h.end || NextHole(runes, cursor, h.end).None? {
      NoHoles(runes, h, cursor, Pieces(runes, h, cursor));
    } else {
      var hole := NextHole(runes, cursor, h.end).value;
      var rest := PiecesHoles(runes, h, hole.after);
      hs := [hole] + rest;
      HolesCons(runes, cursor, h.end, hole, rest);
      MoreHoles(h, cursor, hole, Pieces(runes, h, hole.after), rest);
    }
  }

  lemma NoHoles(runes: string, h: Token, cursor: nat, pieces: seq<Token>)
    requires NoPair(runes, cursor, h.end) || cursor >= h.end
    requires h.kind != Placeholder && (pieces == [] || pieces == [Token(h.kind, cursor, h.end)])
    ensures LeftmostPairs(runes, cursor, h.end, [])
    ensures forall t: Token :: t.kind == Placeholder ==> (t in pieces <==> IsHole(t, []))
  {
  }

  lemma HolesCons(runes: string, from: nat, to: nat, hole: Hole, rest: seq<Hole>)
    requires from <= hole.open && hole.open + 4 <= hole.after <= to && TwiceAt(runes, hole.open, '{') && TwiceAt(runes, hole.after - 2, '}')
    requires forall i: nat :: from <= i < hole.open ==> !TwiceAt(runes, i, '{')
    requires forall i: nat :: hole.open + 2 <= i < hole.after - 2 ==> !TwiceAt(runes, i, '}')
    requires LeftmostPairs(runes, hole.after, to, rest)
    ensures LeftmostPairs(runes, from, to, [hole] + rest)
  {
    assert ([hole] + rest)[1..] == rest;
    hide TwiceAt;
  }

  lemma MoreHoles(h: Token, cursor: nat, hole: Hole, later: seq<Token>, rest: seq<Hole>)
    requires h.kind != Placeholder && forall t: Token :: t.kind == Placeholder ==> (t in later <==> IsHole(t, rest))
    ensures forall t: Token :: t.kind == Placeholder ==>
      (t in Plain(h, cursor, hole.open) + ([Token(Placeholder, hole.open, hole.after)] + later) <==> IsHole(t, [hole] + rest))
  {
  }

  /** Inside its token, of its kind or a placeholder. */
  predicate PieceOf(h: Token, t: Token) {
    h.start <= t.start < t.end <= h.end && (t.kind == h.kind || (t.kind == Placeholder && Hosts(h.kind)))
  }

  lemma {:induction false} PiecesAreInside(runes: string, h: Token, cursor: nat, t: Token)
    requires h.start <= cursor <= h.end <= |runes| && Hosts(h.kind) && t in Pieces(runes, h, cursor)
    ensures PieceOf(h, t) && cursor <= t.start
    decreases h.end - cursor
  {
    PiecesStep(runes, h, cursor);
    hide NextHole, Pieces;
    if cursor < h.end && NextHole(runes, cursor, h.end).Some? {
      var hole := NextHole(runes, cursor, h.end).value;
      if t in Pieces(runes, h, hole.after) { PiecesAreInside(runes, h, hole.after, t); }
    }
  }

  lemma {:induction false} ContiguousCovers(ts: seq<Token>, a: nat, b: nat, i: nat)
    requires Contiguous(ts, a, b) && a <= i < b
    ensures exists t :: t in ts && t.start <= i < t.end
  {
    if i < ts[0].end {
      assert ts[0] in ts;
    } else {
      ContiguousCovers(ts[1..], ts[0].end, b, i);
      var t :| t in ts[1..] && t.start <= i < t.end;
      assert t in ts;
    }
  }

  predicate Covers(t: Token, i: nat) {
    t.start <= i < t.end
  }

  /** A token's pieces are inside it, cover it, and hold its leftmost pairs as placeholders if it can hold any. */
  lemma PiecesFacts(runes: string, h: Token) returns (hs: seq<Hole>)
    requires h.start < h.end <= |runes| && h.kind != Placeholder
    ensures forall t :: t in SplitToken(runes, h) ==> PieceOf(h, t)
    ensures forall i: nat :: Covers(h, i) ==> exists t :: t in SplitToken(runes, h) && Covers(t, i)
    ensures Hosts(h.kind) ==> LeftmostPairs(runes, h.start, h.end, hs)
    ensures forall t: Token :: t.kind == Placeholder ==> (t in SplitToken(runes, h) <==> Hosts(h.kind) && IsHole(t, hs))
  {
    hs := [];
    hide Pieces, LeftmostPairs, Contiguous;
    if Hosts(h.kind) {
      hs := PiecesHoles(runes, h, h.start);
      PiecesAreContiguous(runes, h, h.start);
      forall t | t in SplitToken(runes, h) ensures PieceOf(h, t) { PiecesAreInside(runes, h, h.start, t); }
      forall i: nat | Covers(h, i) ensures exists t :: t in SplitToken(runes, h) && Covers(t, i) {
        ContiguousCovers(Pieces(runes, h, h.start), h.start, h.end, i);
        var t :| t in Pieces(runes, h, h.start) && t.start <= i < t.end;
        assert Covers(t, i);
      }
    } else {
      assert SplitToken(runes, h) == [h];
      forall i: nat | Covers(h, i) ensures exists t :: t in SplitToken(runes, h) && Covers(t, i) {
        assert h in SplitToken(runes, h);
      }
    }
  }

  // ---- the pieces of all of them ------------------------------------------------------------

  ghost predicate PieceOfSome(runes: string, ts: seq<Token>, t: Token) {
    exists h :: h in ts && h.end <= |runes| && t in SplitToken(runes, h)
  }

  lemma {:induction false} SplitIsPieces(runes: string, ts: seq<Token>, t: Token)
    requires forall i :: 0 <= i < |ts| ==> ts[i].end <= |runes|
    ensures t in Split(runes, ts) <==> PieceOfSome(runes, ts, t)
  {
    if ts != [] {
      SplitIsPieces(runes, ts[1..], t);
      hide SplitToken;
      PiecesCons(runes, ts, t);
    }
  }

  lemma PiecesCons(runes: string, ts: seq<Token>, t: Token)
    requires ts != [] && forall i :: 0 <= i < |ts| ==> ts[i].end <= |runes|
    ensures PieceOfSome(runes, ts, t) <==> t in SplitToken(runes, ts[0]) || PieceOfSome(runes, ts[1..], t)
  {
    hide SplitToken;
    assert forall h :: h in ts <==> h == ts[0] || h in ts[1..];
  }

  lemma {:induction false} OwnersPart(ts: seq<Token>, end: nat, k: Token)
    requires k in Owners(ts, end)
    ensures k in ts && k.start < k.end && end <= k.start
  {
    if Dropped(ts[0], end) {
      OwnersPart(ts[1..], end, k);
    } else if k != ts[0] {
      OwnersPart(ts[1..], ts[0].end, k);
    }
  }

  lemma {:induction false} OwnersDisjoint(ts: seq<Token>, end: nat, a: Token, b: Token)
    requires a in Owners(ts, end) && b in Owners(ts, end) && Overlap(a, b)
    ensures a == b
  {
    var next := if Dropped(ts[0], end) then end else ts[0].end;
    var rest := Owners(ts[1..], next);
    if a in rest && b in rest {
      OwnersDisjoint(ts[1..], next, a, b);
    } else {
      if a in rest { OwnersPart(ts[1..], next, a); }
      if b in rest { OwnersPart(ts[1..], next, b); }
    }
  }

  /** What is kept was collected, covers something, and is a field. */
  lemma OwnerIsField(env: Env, runes: string, file: HttpFile, k: Token)
    requires FileWithin(file, 0, |runes|) && k in OwnersOf(env, runes, file)
    ensures k.start < k.end <= |runes| && k.kind != Placeholder
    ensures FileField(runes, file, k) || IssueField(env, runes, file.issues, k)
  {
    var all := Collected(env, runes, file);
    hide *;
    OwnersOfIs(env, runes, file);
    OwnersPart(Sorted(all), 0, k);
    SameElements(all, k);
    CollectedIsFields(env, runes, file, k);
    CollectedEnds(env, runes, file);
    EndsOf(all, |runes|, k);
  }

  lemma OwnersOfIs(env: Env, runes: string, file: HttpFile)
    requires FileWithin(file, 0, |runes|)
    ensures OwnersOf(env, runes, file) == Owners(Sorted(Collected(env, runes, file)), 0)
  {
  }

  lemma SameElements(ts: seq<Token>, k: Token)
    ensures k in Sorted(ts) <==> k in ts
  {
    SortedKeeps(ts);
    assert k in multiset(Sorted(ts)) <==> k in multiset(ts);
  }

  lemma EndsOf(ts: seq<Token>, to: nat, k: Token)
    requires EndsIn(ts, to) && k in ts
    ensures k.end <= to && k.kind != Placeholder
  {
  }

  lemma TokensAreSplit(env: Env, runes: string, file: HttpFile, t: Token)
    requires FileWithin(file, 0, |runes|)
    ensures t in TokensOf(env, runes, file) <==> PieceOfSome(runes, OwnersOf(env, runes, file), t)
  {
    StreamFits(env, runes, file);
    hide OwnersOf, Split, PieceOfSome;
    SplitIsPieces(runes, OwnersOf(env, runes, file), t);
  }

  // ---- what is painted is a field, as what it is -----------------------------------------------

  /** A token painted on a field: as the field's kind, or as a placeholder where the field can hold one. */
  ghost predicate PaintsField(env: Env, runes: string, file: HttpFile, h: Token, t: Token) {
    PieceOf(h, t) && (FileField(runes, file, h) || IssueField(env, runes, file.issues, h))
  }

  lemma SomeOwner(env: Env, runes: string, file: HttpFile, t: Token) returns (h: Token)
    requires FileWithin(file, 0, |runes|) && t in TokensOf(env, runes, file)
    ensures h in OwnersOf(env, runes, file) && h.end <= |runes| && t in SplitToken(runes, h)
  {
    TokensAreSplit(env, runes, file, t);
    hide OwnersOf, TokensOf, SplitToken;
    h :| h in OwnersOf(env, runes, file) && h.end <= |runes| && t in SplitToken(runes, h);
  }

  lemma PaintOfFile(env: Env, source: string)
    requires FileOf(env, source).Some?
    ensures FileWithin(FileOf(env, source).value, 0, |source|)
    ensures PaintOf(env, source) == Some(TokensOf(env, source, FileOf(env, source).value))
  {
    SpansInSource(env, source);
    hide FileOf, TokensOf, FileWithin;
  }

  /** Everything painted is a stretch of a field of the kind it is painted as, or a placeholder in a target, a value or a body. */
  lemma PaintedIsField(env: Env, source: string, t: Token)
    requires FileOf(env, source).Some? && PaintOf(env, source).Some? && t in PaintOf(env, source).value
    ensures exists h :: PaintsField(env, source, FileOf(env, source).value, h, t)
  {
    hide *;
    PaintOfFile(env, source);
    var file := FileOf(env, source).value;
    var h := SomeOwner(env, source, file, t);
    OwnerIsField(env, source, file, h);
    var hs := PiecesFacts(source, h);
    PaintsFieldIs(env, source, file, h, t);
  }

  lemma PaintsFieldIs(env: Env, runes: string, file: HttpFile, h: Token, t: Token)
    requires PieceOf(h, t) && (FileField(runes, file, h) || IssueField(env, runes, file.issues, h))
    ensures PaintsField(env, runes, file, h, t)
  {
  }

  // ---- every field is painted ---------------------------------------------------------------------

  /** A field is painted, or shares a rune with one that is. */
  lemma FieldOwnsOrMeets(env: Env, source: string, h: Token)
    requires FileOf(env, source).Some? && h.start < h.end
    requires var file := FileOf(env, source).value; FileField(source, file, h) || IssueField(env, source, file.issues, h)
    ensures var file := FileOf(env, source).value;
      && FileWithin(file, 0, |source|)
      && (h in OwnersOf(env, source, file) || exists k :: k in OwnersOf(env, source, file) && Overlap(h, k))
  {
    hide *;
    PaintOfFile(env, source);
    var file := FileOf(env, source).value;
    CollectedIsFields(env, source, file, h);
    DroppedForAReason(env, source, file, h);
  }

  lemma NoIssueField(env: Env, runes: string, t: Token)
    ensures !IssueField(env, runes, [], t)
  {
  }

  /** In a file that is read whole no field gives way to another. */
  lemma FieldOwns(env: Env, source: string, h: Token)
    requires FileOf(env, source).Some? && FileOf(env, source).value.issues == []
    requires FileField(source, FileOf(env, source).value, h) && h.start < h.end
    ensures FileWithin(FileOf(env, source).value, 0, |source|) && h in OwnersOf(env, source, FileOf(env, source).value)
  {
    hide *;
    var file := FileOf(env, source).value;
    FieldOwnsOrMeets(env, source, h);
    if h !in OwnersOf(env, source, file) {
      var k :| k in OwnersOf(env, source, file) && Overlap(h, k);
      OwnerIsField(env, source, file, k);
      NoIssueField(env, source, k);
      FileFieldsApart(env, source, h, k);
    }
  }

  lemma PiecesArePainted(env: Env, runes: string, file: HttpFile, h: Token, t: Token)
    requires FileWithin(file, 0, |runes|) && h in OwnersOf(env, runes, file) && h.end <= |runes| && t in SplitToken(runes, h)
    ensures t in TokensOf(env, runes, file)
  {
    TokensAreSplit(env, runes, file, t);
    hide OwnersOf, TokensOf, SplitToken;
  }

  /** Every rune of every field of such a file is painted, as what the field is or as a placeholder. */
  lemma FieldIsPainted(env: Env, source: string, h: Token, i: nat)
    requires FileOf(env, source).Some? && FileOf(env, source).value.issues == []
    requires FileField(source, FileOf(env, source).value, h) && Covers(h, i)
    ensures PaintOf(env, source).Some? && exists t :: t in PaintOf(env, source).value && Covers(t, i) && PieceOf(h, t)
  {
    assert h.start < h.end;
    hide *;
    var file := FileOf(env, source).value;
    PaintOfFile(env, source);
    FieldOwns(env, source, h);
    OwnerIsField(env, source, file, h);
    var hs := PiecesFacts(source, h);
    var t :| t in SplitToken(source, h) && Covers(t, i);
    PiecesArePainted(env, source, file, h, t);
  }

  lemma PieceOverlaps(a: Token, b: Token, t: Token)
    requires PieceOf(a, t) && b.start <= t.start && t.end <= b.end && b.start < b.end
    ensures Overlap(a, b)
  {
  }

  /** The placeholders painted inside what is kept: the leftmost pairs of a target, a value or a body, and none anywhere else. */
  lemma OwnerHoles(env: Env, runes: string, file: HttpFile, h: Token) returns (hs: seq<Hole>)
    requires FileWithin(file, 0, |runes|) && h in OwnersOf(env, runes, file)
    ensures Hosts(h.kind) ==> LeftmostPairs(runes, h.start, h.end, hs)
    ensures forall t: Token :: t.kind == Placeholder && h.start <= t.start && t.end <= h.end ==>
      (t in TokensOf(env, runes, file) <==> Hosts(h.kind) && IsHole(t, hs))
  {
    hide *;
    OwnerIsField(env, runes, file, h);
    hs := PiecesFacts(runes, h);
    forall t: Token | t.kind == Placeholder && h.start <= t.start && t.end <= h.end
      ensures t in TokensOf(env, runes, file) <==> Hosts(h.kind) && IsHole(t, hs)
    {
      if t in TokensOf(env, runes, file) {
        var g := SomeOwner(env, runes, file, t);
        OwnerIsField(env, runes, file, g);
        var gs := PiecesFacts(runes, g);
        PieceOverlaps(g, h, t);
        OwnersOfIs(env, runes, file);
        OwnersDisjoint(Sorted(Collected(env, runes, file)), 0, g, h);
      }
      if t in SplitToken(runes, h) { PiecesArePainted(env, runes, file, h, t); }
    }
  }

  /** So in a file that is read whole the placeholders of a field are its leftmost pairs. */
  lemma PlaceholdersAreLeftmost(env: Env, source: string, h: Token) returns (hs: seq<Hole>)
    requires FileOf(env, source).Some? && FileOf(env, source).value.issues == []
    requires FileField(source, FileOf(env, source).value, h) && h.start < h.end
    ensures PaintOf(env, source).Some?
    ensures Hosts(h.kind) ==> LeftmostPairs(source, h.start, h.end, hs)
    ensures forall t: Token :: t.kind == Placeholder && h.start <= t.start && t.end <= h.end ==>
      (t in PaintOf(env, source).value <==> Hosts(h.kind) && IsHole(t, hs))
  {
    hide *;
    PaintOfFile(env, source);
    FieldOwns(env, source, h);
    hs := OwnerHoles(env, source, FileOf(env, source).value, h);
  }

  // ---- the markup -----------------------------------------------------------------------------------

  /** The class a stylesheet knows a kind by. */
  predicate ClassOf(kind: Kind, name: string) {
    || (kind == Separator && name == "hl-separator") || (kind == Comment && name == "hl-comment")
    || (kind == Variable && name == "hl-variable") || (kind == Verb && name == "hl-method")
    || (kind == Target && name == "hl-target") || (kind == Version && name == "hl-version")
    || (kind == HeaderName && name == "hl-header") || (kind == Value && name == "hl-value")
    || (kind == Body && name == "hl-body") || (kind == Placeholder && name == "hl-placeholder")
  }

  lemma TagHasClass(kind: Kind, name: string)
    requires ClassOf(kind, name)
    ensures OpenTag(kind) == "<span class=\"" + (name + "\">")
  {
    ClassIs(kind, name);
    hide ClassOf, KindName;
    Assoc("<span class=\"hl-", KindName(kind), "\">");
    Assoc("<span class=\"", "hl-", KindName(kind));
    Assoc("<span class=\"", "hl-" + KindName(kind), "\">");
    assert "<span class=\"" + "hl-" == "<span class=\"hl-";
  }

  lemma ClassIs(kind: Kind, name: string)
    requires ClassOf(kind, name)
    ensures name == "hl-" + KindName(kind)
  {
  }

  /** Each painted token stands in the markup between its tags, behind the markup of the text before it and before that of the text after it. */
  lemma {:induction false} TokenIsMarked(runes: string, ts: seq<Token>, cursor: nat, k: nat, name: string) returns (before: string, after: string)
    requires Ordered(ts, cursor, |runes|) && k < |ts| && ClassOf(ts[k].kind, name)
    ensures cursor <= ts[k].start < ts[k].end <= |runes|
    ensures Render(runes, ts, cursor) ==
      before + ("<span class=\"" + (name + "\">") + (Escape(runes[ts[k].start..ts[k].end]) + "</span>") + after)
    ensures Strip(before) == Escape(runes[cursor..ts[k].start]) && Strip(after) == Escape(runes[ts[k].end..]) + "\n"
    decreases k
  {
    var t := ts[0];
    assert ts[0..] == ts;
    RenderStep(runes, ts, 0, cursor);
    hide *;
    var rest := Render(runes, ts[1..], t.end);
    if k == 0 {
      TagHasClass(t.kind, name);
      before, after := Escape(runes[cursor..t.start]), rest;
      MarkedIs(runes, t, cursor, rest);
      StripRender(runes, ts[1..], t.end);
      PlainStays(runes[cursor..t.start]);
    } else {
      var mid: string;
      TailAt(ts, k);
      OrderedEnds(ts[1..], t.end, |runes|);
      mid, after := TokenIsMarked(runes, ts[1..], t.end, k - 1, name);
      before := Marked(runes, t, cursor) + mid;
      Assoc(Marked(runes, t, cursor), mid, "<span class=\"" + (name + "\">") + (Escape(runes[ts[k].start..ts[k].end]) + "</span>") + after);
      StripMarked(runes, t, cursor, mid);
      EscapeJoin(runes, t.start, t.end, ts[k].start);
      EscapeJoin(runes, cursor, t.start, ts[k].start);
    }
  }

  lemma TailAt(ts: seq<Token>, k: nat)
    requires 0 < k < |ts|
    ensures ts[1..][k - 1] == ts[k]
  {
  }

  lemma PlainStays(s: string)
    ensures Strip(Escape(s)) == Escape(s)
  {
    hide Escape;
    StripEscaped(s, "");
    NoMore(Escape(s));
  }

  lemma MarkedIs(runes: string, t: Token, cursor: nat, rest: string)
    requires cursor <= t.start <= t.end <= |runes|
    ensures Marked(runes, t, cursor) + rest == Escape(runes[cursor..t.start]) + (OpenTag(t.kind) + (Escape(runes[t.start..t.end]) + "</span>") + rest)
  {
    hide Escape, OpenTag;
    Assoc(Escape(runes[cursor..t.start]), OpenTag(t.kind) + (Escape(runes[t.start..t.end]) + CLOSE_TAG), rest);
  }
}
