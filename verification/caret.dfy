/** The caret of a text area: offsets in UTF-16 code units, and the lines they fall on. */
module Caret {
  import opened Text

  /** The code units of one character: two past the basic plane. */
  function Size(c: char): nat {
    if c >= '\U{10000}' then 2 else 1
  }

  function Units(s: string): nat {
    if s == "" then 0 else Size(s[0]) + Units(s[1..])
  }

  function Breaks(s: string): nat {
    if s == "" then 0 else (if s[0] == '\n' then 1 else 0) + Breaks(s[1..])
  }

  /** How many lines a text has; lines count from 1. */
  function LineCount(s: string): nat {
    1 + Breaks(s)
  }

  /** The index just past the first `n` line breaks, the end of the text when there are fewer. */
  function PastBreaks(s: string, n: nat): (i: nat)
    ensures i <= |s|
  {
    if n == 0 || s == "" then 0
    else 1 + PastBreaks(s[1..], if s[0] == '\n' then n - 1 else n)
  }

  /** The offset of the start of a line. */
  function LineOffset(text: string, line: nat): nat {
    Units(text[..PastBreaks(text, if line >= 1 then line - 1 else 0)])
  }

  /** The line an offset falls on. */
  function LineAt(text: string, offset: int): nat {
    if text == "" || offset <= 0 then 1
    else (if text[0] == '\n' then 1 else 0) + LineAt(text[1..], offset - Size(text[0]))
  }

  // ---- the loops --------------------------------------------------------------------

  /** strings.IndexByte from a place on. */
  method FindBreak(text: string, from: nat) returns (next: int)
    requires from <= |text|
    ensures -1 <= next < |text| - from
    ensures next >= 0 ==> text[from + next] == '\n' && forall i :: from <= i < from + next ==> text[i] != '\n'
    ensures next < 0 ==> forall i :: from <= i < |text| ==> text[i] != '\n'
  {
    for i := from to |text|
      invariant forall k :: from <= k < i ==> text[k] != '\n'
    {
      if text[i] == '\n' {
        return i - from;
      }
    }
    next := -1;
  }

  lemma {:induction false} PastNone(s: string, n: nat)
    requires n > 0 && forall i :: 0 <= i < |s| ==> s[i] != '\n'
    ensures PastBreaks(s, n) == |s|
  {
    if s != "" { PastNone(s[1..], n); }
  }

  lemma {:induction false} PastFirst(s: string, k: nat, n: nat)
    requires k < |s| && s[k] == '\n' && n > 0 && forall i :: 0 <= i < k ==> s[i] != '\n'
    ensures PastBreaks(s, n) == k + 1 + PastBreaks(s[k + 1..], n - 1)
  {
    if k > 0 {
      PastFirst(s[1..], k - 1, n);
      assert s[1..][k..] == s[k + 1..];
    }
  }

  method Utf16LineOffset(text: string, line: int) returns (offset: nat)
    ensures offset == LineOffset(text, if line >= 0 then line else 0)
  {
    var start: nat := 0;
    var i := 1;
    ghost var breaks: nat := if line >= 1 then line - 1 else 0;
    assert text[0..] == text;
    while i < line
      invariant 1 <= i && (line >= 1 ==> i <= line) && start <= |text|
      invariant PastBreaks(text, breaks) == start + PastBreaks(text[start..], if line >= 1 then line - i else 0)
    {
      var next := FindBreak(text, start);
      if next < 0 {
        PastNone(text[start..], line - i);
        start := |text|;
        break;
      }
      PastFirst(text[start..], next, line - i);
      assert text[start..][next + 1..] == text[start + next + 1..];
      start := start + next + 1;
      i := i + 1;
    }
    assert text[|text|..] == "";
    offset := Units(text[..start]);
  }

  method Utf16LineAt(text: string, offset: int) returns (line: nat)
    ensures line == LineAt(text, offset)
  {
    line := 1;
    var units: nat := 0;
    var i := 0;
    assert text[0..] == text;
    while i < |text|
      invariant 0 <= i <= |text|
      invariant LineAt(text, offset) + 1 == line + LineAt(text[i..], offset - units)
    {
      assert text[i..][0] == text[i] && text[i..][1..] == text[i + 1..];
      if units >= offset {
        break;
      }
      units := units + Size(text[i]);
      if text[i] == '\n' {
        line := line + 1;
      }
      i := i + 1;
    }
    assert text[|text|..] == "";
  }

  // ---- a Galois connection --------------------------------------------------------------

  lemma UnitsCons(s: string, n: nat)
    requires s != "" && n < |s|
    ensures Units(s[..n + 1]) == Size(s[0]) + Units(s[1..][..n])
  {
    assert s[..n + 1][1..] == s[1..][..n];
  }

  lemma {:induction false} LineAtBounds(text: string, offset: int)
    ensures 1 <= LineAt(text, offset) <= LineCount(text)
  {
    if text != "" && offset > 0 { LineAtBounds(text[1..], offset - Size(text[0])); }
  }

  /** A line starts at or before an offset exactly when it is at most the line the offset falls on. */
  lemma {:induction false} CaretGalois(text: string, line: nat, offset: int)
    requires 1 <= line <= LineCount(text) && 0 <= offset
    ensures LineOffset(text, line) <= offset <==> line <= LineAt(text, offset)
  {
    LineAtBounds(text, offset);
    if line == 1 {
      assert text[..0] == "";
    } else if text != "" {
      var c, rest := text[0], text[1..];
      var n := PastBreaks(rest, if c == '\n' then line - 2 else line - 1);
      UnitsCons(text, n);
      assert LineOffset(text, line) == Size(c) + Units(rest[..n]);
      var down := if c == '\n' then line - 1 else line;
      assert LineOffset(rest, down) == Units(rest[..n]);
      if offset >= Size(c) {
        CaretGalois(rest, down, offset - Size(c));
      } else {
        Below(text, line, offset);
      }
    }
  }

  lemma Below(text: string, line: nat, offset: int)
    requires text != "" && 0 <= offset < Size(text[0]) && 2 <= line && LineCount(text) >= line
    ensures line > LineAt(text, offset)
  {
    if offset > 0 {
      assert text[0] != '\n';
      assert LineAt(text[1..], offset - Size(text[0])) == 1;
    }
  }

  /** The line an offset falls on is the last that starts at or before it. */
  lemma LineAtIsGreatest(text: string, offset: int)
    requires 0 <= offset
    ensures var line := LineAt(text, offset);
      && 1 <= line <= LineCount(text) && LineOffset(text, line) <= offset
      && forall other :: line < other <= LineCount(text) ==> offset < LineOffset(text, other)
  {
    var line := LineAt(text, offset);
    LineAtBounds(text, offset);
    CaretGalois(text, line, offset);
    forall other | line < other <= LineCount(text) ensures offset < LineOffset(text, other) {
      CaretGalois(text, other, offset);
    }
  }

  /** Later lines start strictly later. */
  lemma {:induction false} OffsetsAscend(text: string, line: nat)
    requires 1 <= line < LineCount(text)
    ensures LineOffset(text, line) < LineOffset(text, line + 1)
  {
    if text != "" {
      var c, rest := text[0], text[1..];
      var n := PastBreaks(rest, if c == '\n' then line - 1 else line);
      UnitsCons(text, n);
      if line == 1 {
        assert text[..0] == "";
      } else {
        UnitsCons(text, PastBreaks(rest, if c == '\n' then line - 2 else line - 1));
        OffsetsAscend(rest, if c == '\n' then line - 1 else line);
      }
    }
  }

  /** A line, to its offset and back, is itself. */
  lemma LineAndBack(text: string, line: nat)
    requires 1 <= line <= LineCount(text)
    ensures LineAt(text, LineOffset(text, line)) == line
  {
    var offset := LineOffset(text, line);
    LineAtBounds(text, offset);
    CaretGalois(text, line, offset);
    if line < LineCount(text) {
      OffsetsAscend(text, line);
      CaretGalois(text, line + 1, offset);
    }
  }

  // ---- the code units ----------------------------------------------------------------------

  /** One character in UTF-16, section 2.1 of RFC 2781: itself, or a high and a low surrogate. */
  function Encoded(c: char): seq<nat> {
    var n := c as int;
    if n < 0x10000 then [n] else [0xD800 + (n - 0x10000) / 0x400, 0xDC00 + (n - 0x10000) % 0x400]
  }

  function Encode(s: string): seq<nat> {
    if s == "" then [] else Encoded(s[0]) + Encode(s[1..])
  }

  predicate IsHigh(u: nat) {
    0xD800 <= u < 0xDC00
  }

  predicate IsLow(u: nat) {
    0xDC00 <= u < 0xE000
  }

  /** The code points of a text in UTF-16. */
  function Decode(units: seq<nat>): seq<nat> {
    if units == [] then []
    else if |units| > 1 && IsHigh(units[0]) && IsLow(units[1])
    then [0x10000 + (units[0] - 0xD800) * 0x400 + (units[1] - 0xDC00)] + Decode(units[2..])
    else [units[0]] + Decode(units[1..])
  }

  function Points(s: string): seq<nat> {
    seq(|s|, i requires 0 <= i < |s| => s[i] as int)
  }

  lemma DecodeFirst(c: char, rest: seq<nat>)
    ensures Decode(Encoded(c) + rest) == [c as int] + Decode(rest)
  {
    var units := Encoded(c) + rest;
    if c as int < 0x10000 {
      assert units[0] == c as int && units[1..] == rest;
    } else {
      assert units[0] == Encoded(c)[0] && units[1] == Encoded(c)[1] && units[2..] == rest;
    }
  }

  /** The units are those of UTF-16: decoded, they are the text again. */
  lemma {:induction false} DecodeEncode(s: string)
    ensures Decode(Encode(s)) == Points(s)
  {
    if s != "" {
      DecodeEncode(s[1..]);
      DecodeFirst(s[0], Encode(s[1..]));
      assert Points(s) == [s[0] as int] + Points(s[1..]);
      hide Decode, Encoded;
    }
  }

  /** What is counted is the code units, of the text before the line. */
  lemma {:induction false} UnitsAreEncoded(s: string)
    ensures Units(s) == |Encode(s)|
  {
    if s != "" { UnitsAreEncoded(s[1..]); }
  }

  /** A line starts behind the code units of everything up to the line break before it. */
  lemma OffsetIsEncoded(text: string, line: nat, i: nat)
    requires 1 < line && StartsLine(text, line, i)
    ensures LineOffset(text, line) == |Encode(text[..i])|
  {
    PastIs(text, line - 1, i);
    UnitsAreEncoded(text[..i]);
  }

  /** The first line starts the text, and so does any number below; a line the text does not have starts at its end. */
  lemma OffsetOfNoLine(text: string, line: nat)
    ensures line <= 1 ==> LineOffset(text, line) == 0
    ensures line > 1 + Breaks(text) ==> LineOffset(text, line) == |Encode(text)|
  {
    if line > 1 + Breaks(text) {
      PastAll(text, line - 1);
      UnitsAreEncoded(text);
    }
  }

  lemma {:induction false} PastAll(s: string, n: nat)
    requires n > Breaks(s)
    ensures PastBreaks(s, n) == |s| && s[..|s|] == s
  {
    if s != "" {
      if s[0] == '\n' { PastAll(s[1..], n - 1); } else { PastAll(s[1..], n); }
    }
  }

  /** Place `i` is just behind the line break that ends line `line - 1`. */
  predicate StartsLine(text: string, line: nat, i: nat) {
    0 < i <= |text| && text[i - 1] == '\n' && line == 1 + Breaks(text[..i])
  }

  lemma {:induction false} PastIs(s: string, n: nat, i: nat)
    requires 0 < i <= |s| && s[i - 1] == '\n' && n == Breaks(s[..i])
    ensures PastBreaks(s, n) == i
  {
    assert s[..i][1..] == s[1..][..i - 1];
    var rest := Breaks(s[1..][..i - 1]);
    if i > 1 {
      LastBreakCounts(s[1..], i - 1);
      PastIs(s[1..], rest, i - 1);
    }
  }

  lemma {:induction false} LastBreakCounts(s: string, i: nat)
    requires 0 < i <= |s| && s[i - 1] == '\n'
    ensures Breaks(s[..i]) > 0
  {
    assert s[..i][1..] == s[1..][..i - 1];
    if i > 1 { LastBreakCounts(s[1..], i - 1); }
  }
}
