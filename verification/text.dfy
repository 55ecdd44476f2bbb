/** Character classes, trimming, and the split between a text and its lines. */
module Text {

  datatype Option<+T> = None | Some(value: T)

  // ---- character classes -------------------------------------------------

  /** Unicode White_Space, the set behind strings.TrimSpace. */
  predicate IsSpace(c: char) {
    || '\t' <= c <= '\r' || c == ' ' || c == '\U{85}' || c == '\U{A0}' || c == '\U{1680}'
    || '\U{2000}' <= c <= '\U{200A}'
    || c == '\U{2028}' || c == '\U{2029}' || c == '\U{202F}' || c == '\U{205F}' || c == '\U{3000}'
  }

  /** `\s` of a Go regular expression. */
  predicate IsRegexSpace(c: char) {
    c == ' ' || c == '\t' || c == '\n' || c == '\U{0C}' || c == '\r'
  }

  predicate IsNotRegexSpace(c: char) {
    !IsRegexSpace(c)
  }

  predicate IsAsciiLetter(c: char) {
    'a' <= c <= 'z' || 'A' <= c <= 'Z'
  }

  predicate IsAsciiDigit(c: char) {
    '0' <= c <= '9'
  }

  /** `[\w.-]` of a Go regular expression. */
  predicate IsWord(c: char) {
    IsAsciiLetter(c) || IsAsciiDigit(c) || c == '_' || c == '.' || c == '-'
  }

  predicate IsBlank(c: char) {
    c == ' ' || c == '\t'
  }

  predicate IsOnlySpace(c: char) {
    c == ' '
  }

  // ---- runs and trimming -------------------------------------------------

  /** How many leading characters satisfy `p`. */
  function Run(s: string, p: char -> bool): (n: nat)
    ensures n <= |s|
    ensures forall i :: 0 <= i < n ==> p(s[i])
    ensures n < |s| ==> !p(s[n])
  {
    if s == "" || !p(s[0]) then 0 else 1 + Run(s[1..], p)
  }

  /** The length left once the trailing characters satisfying `p` are cut. */
  function Kept(s: string, p: char -> bool): (n: nat)
    ensures n <= |s|
    ensures forall i :: n <= i < |s| ==> p(s[i])
    ensures n > 0 ==> !p(s[n - 1])
  {
    if s == "" || !p(s[|s| - 1]) then |s| else Kept(s[..|s| - 1], p)
  }

  lemma KeptPast(s: string, p: char -> bool, i: nat)
    requires i < |s| && !p(s[i])
    ensures Kept(s, p) > i
  {
  }

  function TrimLeft(s: string, p: char -> bool): string {
    s[Run(s, p)..]
  }

  function TrimRight(s: string, p: char -> bool): string {
    s[..Kept(s, p)]
  }

  function TrimSpace(s: string): string {
    TrimRight(TrimLeft(s, IsSpace), IsSpace)
  }

  lemma RunIs(s: string, p: char -> bool, n: nat)
    requires n <= |s|
    requires forall i :: 0 <= i < n ==> p(s[i])
    requires n < |s| ==> !p(s[n])
    ensures Run(s, p) == n
  {
  }

  lemma KeptIs(s: string, p: char -> bool, n: nat)
    requires n <= |s|
    requires forall i :: n <= i < |s| ==> p(s[i])
    requires n > 0 ==> !p(s[n - 1])
    ensures Kept(s, p) == n
  {
  }

  /** A run ends where the next piece starts with something else. */
  lemma RunOfConcat(a: string, b: string, p: char -> bool)
    requires All(a, p)
    requires b == "" || !p(b[0])
    ensures Run(a + b, p) == |a|
    ensures (a + b)[..|a|] == a && (a + b)[|a|..] == b
    ensures TrimLeft(a + b, p) == b
  {
    var s := a + b;
    assert forall i :: 0 <= i < |a| ==> s[i] == a[i];
    assert b != "" ==> s[|a|] == b[0];
    RunIs(s, p, |a|);
  }

  lemma TrimLeftNothing(s: string, p: char -> bool)
    requires s == "" || !p(s[0])
    ensures Run(s, p) == 0 && TrimLeft(s, p) == s
  {
    RunIs(s, p, 0);
  }

  /** Neither end is white space. */
  predicate Trimmed(s: string) {
    s == "" || (!IsSpace(s[0]) && !IsSpace(s[|s| - 1]))
  }

  lemma TrimSpaceIsTrimmed(s: string)
    ensures Trimmed(TrimSpace(s))
  {
    var t := TrimLeft(s, IsSpace);
    var n := Kept(t, IsSpace);
    if n > 0 {
      assert TrimSpace(s)[0] == t[0] && TrimSpace(s)[n - 1] == t[n - 1];
    }
  }

  lemma TrimSpaceOfTrimmed(s: string)
    requires Trimmed(s)
    ensures TrimSpace(s) == s
  {
    RunIs(s, IsSpace, 0);
    KeptIs(s, IsSpace, |s|);
  }

  // ---- the text and its lines ---------------------------------------------

  predicate OneLine(s: string) {
    '\n' !in s
  }

  predicate OneLineEach(ls: seq<string>) {
    forall i :: 0 <= i < |ls| ==> OneLine(ls[i])
  }

  /** strings.Split(s, "\n"). */
  function Lines(s: string): (ls: seq<string>)
    ensures |ls| > 0
    ensures OneLineEach(ls)
  {
    if s == "" then [""]
    else if s[0] == '\n' then [""] + Lines(s[1..])
    else
      var rest := Lines(s[1..]);
      [[s[0]] + rest[0]] + rest[1..]
  }

  /** Every line followed by its line break. */
  function Unlines(ls: seq<string>): string {
    if ls == [] then "" else ls[0] + "\n" + Unlines(ls[1..])
  }

  lemma {:induction false} UnlinesConcat(a: seq<string>, b: seq<string>)
    ensures Unlines(a + b) == Unlines(a) + Unlines(b)
  {
    if a == [] {
      assert a + b == b;
    } else {
      assert (a + b)[1..] == a[1..] + b;
      UnlinesConcat(a[1..], b);
    }
  }

  lemma {:induction false} LinesOfLine(l: string, rest: string)
    requires OneLine(l)
    ensures Lines(l + "\n" + rest) == [l] + Lines(rest)
  {
    var s := l + "\n" + rest;
    if l == "" {
      assert s[1..] == rest;
    } else {
      assert s[1..] == l[1..] + "\n" + rest;
      LinesOfLine(l[1..], rest);
      assert [l[0]] + l[1..] == l;
    }
  }

  /** Splitting undoes joining: the closing line break leaves one empty line. */
  lemma {:induction false} LinesOfUnlines(ls: seq<string>)
    requires OneLineEach(ls)
    ensures Lines(Unlines(ls)) == ls + [""]
  {
    if ls == [] {
    } else {
      LinesOfUnlines(ls[1..]);
      LinesOfLine(ls[0], Unlines(ls[1..]));
    }
  }

  lemma Assoc<T>(a: seq<T>, b: seq<T>, c: seq<T>)
    ensures a + b + c == a + (b + c)
  {
  }

  lemma NoMore<T>(s: seq<T>)
    ensures s + [] == s && [] + s == s
  {
  }

  lemma JustOne<T>(s: seq<T>)
    requires |s| == 1
    ensures s == [s[0]]
  {
  }

  lemma HeadTail<T>(s: seq<T>)
    requires s != []
    ensures [s[0]] + s[1..] == s
  {
  }

  lemma LinesCons(s: string)
    requires s != ""
    ensures var rest := Lines(s[1..]);
      if s[0] == '\n' then Lines(s)[0] == "" && Lines(s)[1..] == rest
      else Lines(s)[0] == [s[0]] + rest[0] && Lines(s)[1..] == rest[1..]
  {
  }

  lemma UnlinesCons(ls: seq<string>)
    requires ls != []
    ensures Unlines(ls) == ls[0] + "\n" + Unlines(ls[1..])
  {
  }

  lemma UnlinesEmptyFirst(ls: seq<string>)
    ensures Unlines([""] + ls) == "\n" + Unlines(ls)
  {
    assert ([""] + ls)[1..] == ls;
    UnlinesCons([""] + ls);
    NoMore("\n");
    hide Unlines;
  }

  lemma {:induction false} UnlinesOfLines(s: string)
    ensures Unlines(Lines(s)) == s + "\n"
  {
    if s == "" {
    } else {
      hide Lines, Unlines;
      var head, rest := [s[0]], Lines(s[1..]);
      UnlinesOfLines(s[1..]);
      LinesCons(s);
      HeadTail(s);
      UnlinesCons(Lines(s));
      UnlinesCons(rest);
      Assoc(head, s[1..], "\n");
      if s[0] == '\n' {
        assert "" + "\n" == head;
      } else {
        Assoc(head, rest[0], "\n");
        Assoc(head, rest[0] + "\n", Unlines(rest[1..]));
      }
    }
  }

  lemma UnlinesInjective(a: seq<string>, b: seq<string>)
    requires OneLineEach(a) && OneLineEach(b)
    requires Unlines(a) == Unlines(b)
    ensures a == b
  {
    LinesOfUnlines(a);
    LinesOfUnlines(b);
    assert a == (a + [""])[..|a|] && b == (b + [""])[..|b|];
  }

  // ---- CRLF ---------------------------------------------------------------

  /** strings.ReplaceAll(s, "\r\n", "\n"). */
  function DropCrlf(s: string): string {
    if s == "" then ""
    else if s[0] == '\r' && |s| > 1 && s[1] == '\n' then "\n" + DropCrlf(s[2..])
    else [s[0]] + DropCrlf(s[1..])
  }

  predicate NoCrlf(s: string) {
    forall i :: 0 <= i < |s| - 1 ==> !(s[i] == '\r' && s[i + 1] == '\n')
  }

  lemma {:induction false} DropCrlfIdentity(s: string)
    requires NoCrlf(s)
    ensures DropCrlf(s) == s
  {
    if s != "" {
      assert NoCrlf(s[1..]) by {
        forall i | 0 <= i < |s[1..]| - 1 ensures !(s[1..][i] == '\r' && s[1..][i + 1] == '\n') {
          assert s[1..][i] == s[i + 1] && s[1..][i + 1] == s[i + 2];
        }
      }
      if |s| > 1 { assert !(s[0] == '\r' && s[0 + 1] == '\n'); }
      DropCrlfIdentity(s[1..]);
    }
  }

  predicate EndsWithCr(s: string) {
    s != "" && s[|s| - 1] == '\r'
  }

  predicate NoLineEndsWithCr(ls: seq<string>) {
    forall i :: 0 <= i < |ls| ==> !EndsWithCr(ls[i])
  }

  lemma {:induction false} NoCrlfOfLines(ls: seq<string>)
    requires OneLineEach(ls)
    ensures NoCrlf(Unlines(ls)) <==> NoLineEndsWithCr(ls)
  {
    if ls != [] {
      var l, rest := ls[0], Unlines(ls[1..]);
      NoCrlfOfLines(ls[1..]);
      var s := l + "\n" + rest;
      assert forall i :: 0 <= i < |l| ==> s[i] == l[i];
      assert s[|l|] == '\n';
      assert forall i :: 0 <= i < |rest| ==> s[|l| + 1 + i] == rest[i];
      if NoCrlf(s) {
        assert l != "" ==> s[|l| - 1 + 1] == '\n';
        forall i | 0 <= i < |rest| - 1 ensures !(rest[i] == '\r' && rest[i + 1] == '\n') {
          assert s[|l| + 1 + i] == rest[i] && s[|l| + 1 + i + 1] == rest[i + 1];
        }
        assert forall i :: 0 <= i < |ls| ==> ls[i] == (if i == 0 then l else ls[1..][i - 1]);
      }
      if NoLineEndsWithCr(ls) {
        assert !EndsWithCr(l);
        assert NoLineEndsWithCr(ls[1..]);
        forall i | 0 <= i < |s| - 1 ensures !(s[i] == '\r' && s[i + 1] == '\n') {
          if i < |l| - 1 {
            assert s[i + 1] == l[i + 1] && l[i + 1] in l;
          } else if i > |l| {
            assert s[i] == rest[i - |l| - 1] && s[i + 1] == rest[i - |l| - 1 + 1];
          }
        }
      }
    }
  }

  predicate HasPrefix(s: string, p: string) {
    p <= s
  }

  predicate All(s: string, p: char -> bool) {
    forall i :: 0 <= i < |s| ==> p(s[i])
  }
}
