/** Header fields on the way to and from an upstream proxy: lookups, connection tokens, rewriting in place. */
module UpstreamHeaders {
  import opened Text
  import opened HttpGrammar

  datatype Field = Field(name: string, value: string)

  datatype Head = Head(major: int, minor: int, status: int, fields: seq<Field>)

  /** The values of a field, names compared without case. */
  function GetHeader(hs: seq<Field>, name: string): seq<string> {
    if hs == [] then []
    else (if EqualFold(hs[0].name, name) then [hs[0].value] else []) + GetHeader(hs[1..], name)
  }

  /** strings.Split on a comma. */
  function Parts(s: string): (ps: seq<string>)
    ensures |ps| > 0
    ensures forall i :: 0 <= i < |ps| ==> ',' !in ps[i]
  {
    if s == "" then [""]
    else if s[0] == ',' then [""] + Parts(s[1..])
    else
      var rest := Parts(s[1..]);
      [[s[0]] + rest[0]] + rest[1..]
  }

  predicate IsToken(part: string, token: string) {
    EqualFold(TrimSpace(part), token)
  }

  predicate HasToken(values: seq<string>, token: string) {
    exists i, j :: 0 <= i < |values| && 0 <= j < |Parts(values[i])| && IsToken(Parts(values[i])[j], token)
  }

  method HeaderHasToken(values: seq<string>, token: string) returns (found: bool)
    ensures found == HasToken(values, token)
  {
    hide IsToken, Parts;
    for i := 0 to |values|
      invariant forall k, j :: 0 <= k < i && 0 <= j < |Parts(values[k])| ==> !IsToken(Parts(values[k])[j], token)
    {
      var parts := Parts(values[i]);
      for j := 0 to |parts|
        invariant forall k :: 0 <= k < j ==> !IsToken(parts[k], token)
      {
        if IsToken(parts[j], token) {
          return true;
        }
      }
    }
    found := false;
  }

  // ---- setting a field --------------------------------------------------------------

  /** The fields without those of that name. */
  function Without(hs: seq<Field>, name: string): (r: seq<Field>)
    ensures |r| <= |hs|
  {
    if hs == [] then []
    else (if EqualFold(hs[0].name, name) then [] else [hs[0]]) + Without(hs[1..], name)
  }

  function SetHeader(hs: seq<Field>, name: string, value: string): seq<Field> {
    Without(hs, name) + [Field(name, value)]
  }

  lemma {:induction false} WithoutSnoc(hs: seq<Field>, name: string, h: Field)
    ensures Without(hs + [h], name) == Without(hs, name) + if EqualFold(h.name, name) then [] else [h]
  {
    hide EqualFold;
    if hs == [] {
      assert [h][1..] == [];
      NoMore([h]);
      NoMore<Field>([]);
    } else {
      assert (hs + [h])[1..] == hs[1..] + [h];
      WithoutSnoc(hs[1..], name, h);
      Assoc(if EqualFold(hs[0].name, name) then [] else [hs[0]], Without(hs[1..], name), if EqualFold(h.name, name) then [] else [h]);
    }
  }

  /** Keeps the other fields at the front of the array they came in; the rest of the array is free. */
  method KeepOthers(a: array<Field>, n: nat, name: string) returns (kept: nat)
    requires n <= a.Length
    modifies a
    ensures kept <= n && a[..kept] == Without(old(a[..n]), name)
    ensures a[n..] == old(a[n..])
  {
    ghost var all := a[..n];
    kept := 0;
    hide EqualFold;
    for i := 0 to n
      invariant kept <= i
      invariant a[..kept] == Without(all[..i], name)
      invariant forall k :: i <= k < n ==> a[k] == all[k]
      invariant a[n..] == old(a[n..])
    {
      var h := a[i];
      assert all[..i + 1] == all[..i] + [h];
      WithoutSnoc(all[..i], name, h);
      if !EqualFold(h.name, name) {
        ghost var before := a[..kept];
        a[kept] := h;
        assert a[..kept + 1] == before + [h];
        kept := kept + 1;
      }
    }
    assert all[..n] == all;
  }

  /** The field appended where the array has room, or in a new array when it has none. */
  method SetHeaderInPlace(a: array<Field>, n: nat, name: string, value: string) returns (b: array<Field>, m: nat)
    requires n <= a.Length
    modifies a
    ensures m <= b.Length && b[..m] == SetHeader(old(a[..n]), name, value)
    ensures b == a || fresh(b)
  {
    hide EqualFold, Without;
    var kept := KeepOthers(a, n, name);
    if kept < a.Length {
      a[kept] := Field(name, value);
      b, m := a, kept + 1;
    } else {
      var hs := a[..] + [Field(name, value)];
      b := new Field[|hs|](i requires 0 <= i < |hs| => hs[i]);
      m := |hs|;
      assert b[..m] == hs;
    }
  }

  lemma FoldIsTransitive(a: string, b: string, c: string)
    requires EqualFold(a, b)
    ensures EqualFold(a, c) <==> EqualFold(b, c)
  {
    if EqualFold(a, c) || EqualFold(b, c) {
      assert |a| == |b| == |c|;
      assert forall i :: 0 <= i < |a| ==> FoldChar(a[i]) == FoldChar(b[i]);
    }
  }

  lemma {:induction false} GetConcat(a: seq<Field>, b: seq<Field>, name: string)
    ensures GetHeader(a + b, name) == GetHeader(a, name) + GetHeader(b, name)
  {
    if a == [] {
      assert a + b == b;
    } else {
      assert (a + b)[1..] == a[1..] + b;
      GetConcat(a[1..], b, name);
      hide EqualFold;
    }
  }

  lemma {:induction false} GetWithout(hs: seq<Field>, name: string, other: string)
    ensures GetHeader(Without(hs, name), other) == if EqualFold(other, name) then [] else GetHeader(hs, other)
  {
    if hs != [] {
      var h, rest := hs[0], Without(hs[1..], name);
      GetWithout(hs[1..], name, other);
      if EqualFold(h.name, other) { FoldIsTransitive(h.name, other, name); }
      hide EqualFold, GetHeader;
      GetCons(h, hs[1..], other);
      GetConcat([h], rest, other);
      GetOne(h, other);
      assert [] + rest == rest && hs == [h] + hs[1..];
    }
  }

  lemma GetCons(h: Field, rest: seq<Field>, name: string)
    ensures GetHeader([h] + rest, name) == (if EqualFold(h.name, name) then [h.value] else []) + GetHeader(rest, name)
  {
    assert ([h] + rest)[1..] == rest;
  }

  lemma GetOne(h: Field, name: string)
    ensures GetHeader([h], name) == if EqualFold(h.name, name) then [h.value] else []
  {
    assert [h][1..] == [];
  }

  lemma FoldIsReflexive(name: string)
    ensures EqualFold(name, name)
  {
  }

  /** A field that is set reads back, alone; every other field is as it was. */
  lemma SetReadsBack(hs: seq<Field>, name: string, value: string, other: string)
    ensures GetHeader(SetHeader(hs, name, value), name) == [value]
    ensures !EqualFold(other, name) ==> GetHeader(SetHeader(hs, name, value), other) == GetHeader(hs, other)
  {
    FoldIsReflexive(name);
    GetWithout(hs, name, name);
    GetWithout(hs, name, other);
    GetConcat(Without(hs, name), [Field(name, value)], name);
    GetConcat(Without(hs, name), [Field(name, value)], other);
    GetOne(Field(name, value), name);
    GetOne(Field(name, value), other);
    if EqualFold(name, other) { FoldIsTransitive(name, other, name); }
    hide EqualFold, GetHeader, Without;
  }

  // ---- the connection tokens of the copy sent upstream ---------------------------------

  predicate Governs(part: string) {
    IsToken(part, "close") || IsToken(part, "keep-alive")
  }

  /** The tokens of one value that say nothing about how long the connection lives. */
  function OtherTokens(parts: seq<string>): seq<string> {
    if parts == [] then []
    else
      (if TrimSpace(parts[0]) == "" || Governs(parts[0]) then [] else [TrimSpace(parts[0])]) + OtherTokens(parts[1..])
  }

  function AllOtherTokens(values: seq<string>): seq<string> {
    if values == [] then [] else OtherTokens(Parts(values[0])) + AllOtherTokens(values[1..])
  }

  /** strings.Join with a comma and a space, the last part given. */
  function JoinUpTo(tokens: seq<string>, last: string): string {
    if tokens == [] then last else tokens[0] + (", " + JoinUpTo(tokens[1..], last))
  }

  function KeepAlive(hs: seq<Field>, name: string): seq<Field> {
    SetHeader(hs, name, JoinUpTo(AllOtherTokens(GetHeader(hs, name)), "keep-alive"))
  }

  /** The copy of the request the gateway gets. */
  function UpstreamRequest(hs: seq<Field>): seq<Field> {
    KeepAlive(KeepAlive(hs, "Connection"), "Proxy-Connection")
  }

  method GatherTokens(values: seq<string>) returns (tokens: seq<string>)
    ensures tokens == AllOtherTokens(values)
  {
    tokens := [];
    assert values[0..] == values && values[|values|..] == [];
    hide Parts, OtherTokens;
    for i := 0 to |values|
      invariant tokens + AllOtherTokens(values[i..]) == AllOtherTokens(values)
    {
      assert values[i..][1..] == values[i + 1..];
      var parts := Parts(values[i]);
      ghost var before := tokens;
      tokens := GatherParts(tokens, parts);
      Assoc(before, OtherTokens(parts), AllOtherTokens(values[i + 1..]));
    }
  }

  lemma OtherTokensStep(parts: seq<string>, j: nat)
    requires j < |parts|
    ensures OtherTokens(parts[j..]) ==
      (if TrimSpace(parts[j]) == "" || Governs(parts[j]) then [] else [TrimSpace(parts[j])]) + OtherTokens(parts[j + 1..])
  {
    assert parts[j..][1..] == parts[j + 1..];
    hide TrimSpace, Governs;
  }

  method GatherParts(tokens: seq<string>, parts: seq<string>) returns (all: seq<string>)
    ensures all == tokens + OtherTokens(parts)
  {
    all := tokens;
    assert parts[0..] == parts && parts[|parts|..] == [] && OtherTokens([]) == [];
    hide *;
    for j := 0 to |parts|
      invariant all + OtherTokens(parts[j..]) == tokens + OtherTokens(parts)
    {
      OtherTokensStep(parts, j);
      var token := TrimSpace(parts[j]);
      if token != "" && !Governs(parts[j]) {
        Assoc(all, [token], OtherTokens(parts[j + 1..]));
        all := all + [token];
      } else {
        assert [] + OtherTokens(parts[j + 1..]) == OtherTokens(parts[j + 1..]);
      }
    }
  }

  /** The client's array is only read; the copy is a new one. */
  method CopyUpstream(client: array<Field>) returns (copy: array<Field>, n: nat)
    ensures n <= copy.Length && copy[..n] == UpstreamRequest(client[..])
    ensures fresh(copy)
  {
    hide GetHeader, SetHeader, JoinUpTo, AllOtherTokens;
    copy := new Field[client.Length](i requires 0 <= i < client.Length reads client => client[i]);
    n := client.Length;
    assert copy[..n] == client[..];
    var tokens := GatherTokens(GetHeader(copy[..n], "Connection"));
    copy, n := SetHeaderInPlace(copy, n, "Connection", JoinUpTo(tokens, "keep-alive"));
    tokens := GatherTokens(GetHeader(copy[..n], "Proxy-Connection"));
    copy, n := SetHeaderInPlace(copy, n, "Proxy-Connection", JoinUpTo(tokens, "keep-alive"));
  }

  lemma {:induction false} PartsOfPart(a: string, b: string)
    requires ',' !in a
    ensures Parts(a + ("," + b)) == [a] + Parts(b)
  {
    var s := a + ("," + b);
    if a == "" {
      assert s == "," + b && s[1..] == b;
    } else {
      assert s[0] == a[0] && s[1..] == a[1..] + ("," + b);
      PartsOfPart(a[1..], b);
      HeadTail(a);
    }
  }

  lemma {:induction false} PartsOfOne(a: string)
    requires ',' !in a
    ensures Parts(a) == [a]
  {
    if a != "" {
      PartsOfOne(a[1..]);
      HeadTail(a);
    }
  }

  predicate IsListed(tokens: seq<string>, token: string) {
    exists i :: 0 <= i < |tokens| && EqualFold(tokens[i], token)
  }

  predicate CleanTokens(tokens: seq<string>) {
    forall i :: 0 <= i < |tokens| ==> ',' !in tokens[i] && Trimmed(tokens[i])
  }

  /** A part, with or without the blank the join puts before it, is its token. */
  lemma BlankBefore(t: string)
    requires Trimmed(t)
    ensures TrimSpace(t) == t && TrimSpace(" " + t) == t
  {
    TrimSpaceOfTrimmed(t);
    var s := " " + t;
    if t == "" {
      RunIs(s, IsSpace, 1);
      assert TrimLeft(s, IsSpace) == "";
    } else {
      RunIs(s, IsSpace, 1);
      assert TrimLeft(s, IsSpace) == t;
      RunIs(t, IsSpace, 0);
      KeptIs(t, IsSpace, |t|);
    }
  }

  /** The parts of a value are, trimmed, these tokens. */
  predicate TrimTo(ps: seq<string>, tokens: seq<string>) {
    |ps| == |tokens| && forall i :: 0 <= i < |ps| ==> TrimSpace(ps[i]) == tokens[i]
  }

  lemma TrimToCons(p: string, ps: seq<string>, t: string, tokens: seq<string>)
    requires TrimTo(ps, tokens) && TrimSpace(p) == t
    ensures TrimTo([p] + ps, [t] + tokens)
  {
    hide TrimSpace;
  }

  lemma JoinStep(lead: string, tokens: seq<string>, last: string)
    requires tokens != []
    ensures lead + JoinUpTo(tokens, last) == (lead + tokens[0]) + ("," + (" " + JoinUpTo(tokens[1..], last)))
    ensures tokens + [last] == [tokens[0]] + (tokens[1..] + [last])
  {
    var rest := JoinUpTo(tokens[1..], last);
    assert JoinUpTo(tokens, last) == tokens[0] + (", " + rest);
    hide JoinUpTo;
    Assoc(",", " ", rest);
    Assoc(lead, tokens[0], "," + (" " + rest));
    HeadTail(tokens);
    Assoc([tokens[0]], tokens[1..], [last]);
  }

  /** Splitting undoes joining: the parts of a joined value, trimmed, are its tokens. */
  lemma {:induction false} PartsOfJoin(lead: string, tokens: seq<string>, last: string)
    requires (lead == "" || lead == " ") && CleanTokens(tokens) && ',' !in last && Trimmed(last)
    ensures TrimTo(Parts(lead + JoinUpTo(tokens, last)), tokens + [last])
    decreases |tokens|
  {
    hide TrimSpace, Trimmed, Parts, TrimTo;
    assert forall t: string {:trigger "" + t} :: "" + t == t;
    if tokens == [] {
      BlankBefore(last);
      PartsOfOne(lead + last);
      TrimToOne(lead + last, last);
    } else {
      var t, rest := tokens[0], tokens[1..];
      assert ',' !in t && Trimmed(t) && CleanTokens(rest);
      BlankBefore(t);
      hide JoinUpTo, CleanTokens;
      PartsOfJoin(" ", rest, last);
      JoinStep(lead, tokens, last);
      PartsOfPart(lead + t, " " + JoinUpTo(rest, last));
      TrimToCons(lead + t, Parts(" " + JoinUpTo(rest, last)), t, rest + [last]);
    }
  }

  lemma TrimToOne(p: string, t: string)
    requires TrimSpace(p) == t
    ensures TrimTo([p], [] + [t])
  {
    hide TrimSpace;
  }

  lemma JoinListed(tokens: seq<string>, last: string, token: string)
    requires CleanTokens(tokens) && ',' !in last && Trimmed(last)
    ensures HasToken([JoinUpTo(tokens, last)], token) <==> IsListed(tokens, token) || EqualFold(last, token)
  {
    hide *;
    var v := JoinUpTo(tokens, last);
    PartsOfJoin("", tokens, last);
    NoMore(v);
    HasOne(v, token);
    SomePartJoined(Parts(v), tokens, last, token);
  }

  predicate SomePart(parts: seq<string>, token: string) {
    exists j :: 0 <= j < |parts| && IsToken(parts[j], token)
  }

  lemma HasOne(v: string, token: string)
    ensures HasToken([v], token) <==> SomePart(Parts(v), token)
  {
    hide Parts, IsToken;
    if SomePart(Parts(v), token) {
      var j :| 0 <= j < |Parts(v)| && IsToken(Parts(v)[j], token);
      assert IsToken(Parts([v][0])[j], token);
    }
  }

  lemma SomePartJoined(ps: seq<string>, tokens: seq<string>, last: string, token: string)
    requires TrimTo(ps, tokens + [last])
    ensures SomePart(ps, token) <==> IsListed(tokens, token) || EqualFold(last, token)
  {
    hide EqualFold, TrimSpace;
    assert forall i :: 0 <= i < |tokens| ==> TrimSpace(ps[i]) == (tokens + [last])[i] == tokens[i];
    assert TrimSpace(ps[|tokens|]) == last;
    if IsListed(tokens, token) {
      var i :| 0 <= i < |tokens| && EqualFold(tokens[i], token);
      assert IsToken(ps[i], token);
    }
    if EqualFold(last, token) { assert IsToken(ps[|tokens|], token); }
    if SomePart(ps, token) {
      var j :| 0 <= j < |ps| && IsToken(ps[j], token);
      if j < |tokens| { assert EqualFold(tokens[j], token); }
    }
  }

  /** One of the parts is the token, and one that governs nothing. */
  predicate SaysSome(parts: seq<string>, token: string) {
    exists j :: 0 <= j < |parts| && IsToken(parts[j], token) && !Governs(parts[j])
  }

  lemma {:induction false} OtherTokensAre(parts: seq<string>, token: string)
    requires forall i :: 0 <= i < |parts| ==> ',' !in parts[i]
    ensures CleanTokens(OtherTokens(parts))
    ensures IsListed(OtherTokens(parts), token) ==> SaysSome(parts, token)
    ensures token != "" && SaysSome(parts, token) ==> IsListed(OtherTokens(parts), token)
  {
    hide *;
    if parts == [] {
      NoOtherTokens(token);
    } else {
      var p, rest := parts[0], OtherTokens(parts[1..]);
      OtherTokensAre(parts[1..], token);
      OtherTokensFirst(parts);
      TokenOf(p, token);
      SaysFirst(parts, token);
      ListedCons(TrimSpace(p), rest, token);
    }
  }

  lemma NoOtherTokens(token: string)
    ensures CleanTokens(OtherTokens([])) && !IsListed(OtherTokens([]), token) && !SaysSome([], token)
  {
  }

  lemma OtherTokensFirst(parts: seq<string>)
    requires parts != []
    ensures var t, rest := TrimSpace(parts[0]), OtherTokens(parts[1..]);
      OtherTokens(parts) == if t == "" || Governs(parts[0]) then rest else [t] + rest
  {
    NoMore(OtherTokens(parts[1..]));
    hide TrimSpace, Governs;
  }

  lemma TokenOf(p: string, token: string)
    requires ',' !in p
    ensures ',' !in TrimSpace(p) && Trimmed(TrimSpace(p))
    ensures IsToken(p, token) <==> EqualFold(TrimSpace(p), token)
    ensures TrimSpace(p) == "" && token != "" ==> !IsToken(p, token)
  {
    TrimSpaceIsTrimmed(p);
  }

  lemma SaysFirst(parts: seq<string>, token: string)
    requires parts != []
    ensures SaysSome(parts, token) <==> (IsToken(parts[0], token) && !Governs(parts[0])) || SaysSome(parts[1..], token)
  {
    hide IsToken, Governs;
    assert forall j :: 0 < j < |parts| ==> parts[j] == parts[1..][j - 1];
    if SaysSome(parts[1..], token) {
      var j :| 0 <= j < |parts[1..]| && IsToken(parts[1..][j], token) && !Governs(parts[1..][j]);
      assert parts[j + 1] == parts[1..][j];
    }
  }

  lemma ListedCons(t: string, rest: seq<string>, token: string)
    ensures IsListed([t] + rest, token) <==> EqualFold(t, token) || IsListed(rest, token)
    ensures CleanTokens([t] + rest) <==> ',' !in t && Trimmed(t) && CleanTokens(rest)
  {
    hide EqualFold, Trimmed;
    var all := [t] + rest;
    assert all[0] == t && forall i :: 0 <= i < |rest| ==> all[i + 1] == rest[i];
  }

  predicate SaysOther(values: seq<string>, token: string) {
    exists i, j :: 0 <= i < |values| && 0 <= j < |Parts(values[i])| && IsToken(Parts(values[i])[j], token) && !Governs(Parts(values[i])[j])
  }

  lemma ListedConcat(a: seq<string>, b: seq<string>, token: string)
    ensures IsListed(a + b, token) <==> IsListed(a, token) || IsListed(b, token)
    ensures CleanTokens(a + b) <==> CleanTokens(a) && CleanTokens(b)
  {
    hide EqualFold, Trimmed;
    var all := a + b;
    assert forall i :: 0 <= i < |a| ==> all[i] == a[i];
    assert forall i :: 0 <= i < |b| ==> all[|a| + i] == b[i];
    if IsListed(all, token) {
      var i :| 0 <= i < |all| && EqualFold(all[i], token);
      if i < |a| { assert EqualFold(a[i], token); } else { assert EqualFold(b[i - |a|], token); }
    }
    if CleanTokens(all) {
      forall i | 0 <= i < |b| ensures ',' !in b[i] && Trimmed(b[i]) { assert all[|a| + i] == b[i]; }
    }
  }

  lemma SaysCons(v: string, rest: seq<string>, token: string)
    ensures SaysOther([v] + rest, token) <==> SaysSome(Parts(v), token) || SaysOther(rest, token)
  {
    hide Parts, IsToken, Governs;
    var all := [v] + rest;
    assert all[0] == v && forall i :: 0 <= i < |rest| ==> all[i + 1] == rest[i];
    if SaysOther(rest, token) {
      var i, j :| 0 <= i < |rest| && 0 <= j < |Parts(rest[i])| && IsToken(Parts(rest[i])[j], token) && !Governs(Parts(rest[i])[j]);
      assert IsToken(Parts(all[i + 1])[j], token);
    }
    if SaysSome(Parts(v), token) {
      var j :| 0 <= j < |Parts(v)| && IsToken(Parts(v)[j], token) && !Governs(Parts(v)[j]);
      assert IsToken(Parts(all[0])[j], token);
    }
  }

  lemma {:induction false} AllOtherTokensAre(values: seq<string>, token: string)
    requires token != ""
    ensures CleanTokens(AllOtherTokens(values)) && (IsListed(AllOtherTokens(values), token) <==> SaysOther(values, token))
  {
    hide IsListed, CleanTokens, SaysOther, SaysSome, Governs, IsToken, Parts;
    if values == [] {
      Silent(token);
    } else {
      var v, rest := values[0], values[1..];
      AllOtherTokensAre(rest, token);
      OtherTokensAre(Parts(v), token);
      ListedConcat(OtherTokens(Parts(v)), AllOtherTokens(rest), token);
      SaysCons(v, rest, token);
      assert values == [v] + rest;
    }
  }

  lemma Silent(token: string)
    ensures CleanTokens([]) && !IsListed([], token) && !SaysOther([], token)
  {
  }

  /** A token that governs nothing is one whose parts govern nothing. */
  lemma SaysIsHas(values: seq<string>, token: string)
    requires !EqualFold(token, "close") && !EqualFold(token, "keep-alive")
    ensures SaysOther(values, token) <==> HasToken(values, token)
  {
    hide Parts, EqualFold, TrimSpace;
    if HasToken(values, token) {
      var i, j :| 0 <= i < |values| && 0 <= j < |Parts(values[i])| && IsToken(Parts(values[i])[j], token);
      var t := TrimSpace(Parts(values[i])[j]);
      FoldIsTransitive(t, token, "close");
      FoldIsTransitive(t, token, "keep-alive");
      assert IsToken(Parts(values[i])[j], token) && !Governs(Parts(values[i])[j]);
    }
  }

  lemma NeverSays(values: seq<string>)
    ensures !SaysOther(values, "close") && !SaysOther(values, "keep-alive")
  {
  }

  /** The one value of a field made to keep the connection: keep-alive, never close, every other token kept. */
  lemma KeepAliveReads(hs: seq<Field>, name: string, token: string, other: string)
    requires token != ""
    ensures var values := GetHeader(KeepAlive(hs, name), name);
      && !HasToken(values, "close") && HasToken(values, "keep-alive")
      && (!EqualFold(token, "close") && !EqualFold(token, "keep-alive") ==> (HasToken(values, token) <==> HasToken(GetHeader(hs, name), token)))
    ensures !EqualFold(other, name) ==> GetHeader(KeepAlive(hs, name), other) == GetHeader(hs, other)
  {
    var given := GetHeader(hs, name);
    var tokens := AllOtherTokens(given);
    assert !EqualFold("keep-alive", "close") && EqualFold("keep-alive", "keep-alive");
    assert ',' !in "keep-alive" && Trimmed("keep-alive");
    hide *;
    KeepAliveIs(hs, name);
    SetReadsBack(hs, name, JoinUpTo(tokens, "keep-alive"), other);
    AllOtherTokensAre(given, "close");
    AllOtherTokensAre(given, token);
    NeverSays(given);
    JoinListed(tokens, "keep-alive", "close");
    JoinListed(tokens, "keep-alive", "keep-alive");
    JoinListed(tokens, "keep-alive", token);
    if !EqualFold(token, "close") && !EqualFold(token, "keep-alive") {
      SaysIsHas(given, token);
      FoldIsSymmetric("keep-alive", token);
    }
  }

  lemma FoldIsSymmetric(a: string, b: string)
    ensures EqualFold(a, b) <==> EqualFold(b, a)
  {
  }

  lemma KeepAliveIs(hs: seq<Field>, name: string)
    ensures KeepAlive(hs, name) == SetHeader(hs, name, JoinUpTo(AllOtherTokens(GetHeader(hs, name)), "keep-alive"))
  {
  }

  /** The copy sent upstream asks to keep the connection, in both fields, and otherwise says what the client said. */
  lemma UpstreamKeepsAlive(hs: seq<Field>, token: string, other: string)
    requires token != ""
    ensures var copy := UpstreamRequest(hs);
      && !HasToken(GetHeader(copy, "Connection"), "close") && HasToken(GetHeader(copy, "Connection"), "keep-alive")
      && !HasToken(GetHeader(copy, "Proxy-Connection"), "close") && HasToken(GetHeader(copy, "Proxy-Connection"), "keep-alive")
    ensures !EqualFold(token, "close") && !EqualFold(token, "keep-alive") ==>
      (HasToken(GetHeader(UpstreamRequest(hs), "Connection"), token) <==> HasToken(GetHeader(hs, "Connection"), token))
    ensures !EqualFold(token, "close") && !EqualFold(token, "keep-alive") ==>
      (HasToken(GetHeader(UpstreamRequest(hs), "Proxy-Connection"), token) <==> HasToken(GetHeader(hs, "Proxy-Connection"), token))
    ensures !EqualFold(other, "Connection") && !EqualFold(other, "Proxy-Connection") ==>
      GetHeader(UpstreamRequest(hs), other) == GetHeader(hs, other)
  {
    var once := KeepAlive(hs, "Connection");
    assert !EqualFold("Connection", "Proxy-Connection") && !EqualFold("Proxy-Connection", "Connection");
    assert UpstreamRequest(hs) == KeepAlive(once, "Proxy-Connection");
    hide *;
    KeepAliveReads(hs, "Connection", token, "Proxy-Connection");
    KeepAliveReads(once, "Proxy-Connection", token, "Connection");
    KeepAliveReads(hs, "Connection", token, other);
    KeepAliveReads(once, "Proxy-Connection", token, other);
  }

  // ---- what the code asks of a challenge and of a request -----------------------------------

  const VERB_HEAD: string := "HEAD"

  /** The response leaves a connection that cannot carry the next exchange. */
  predicate ClosesConnection(head: Head, verb: string) {
    var connection, proxyConnection := GetHeader(head.fields, "Connection"), GetHeader(head.fields, "Proxy-Connection");
    || HasToken(connection, "close") || HasToken(proxyConnection, "close")
    || (head.major == 1 && head.minor == 0 && !HasToken(connection, "keep-alive") && !HasToken(proxyConnection, "keep-alive"))
    || (verb != VERB_HEAD && GetHeader(head.fields, "Content-Length") == []
        && !HasToken(GetHeader(head.fields, "Transfer-Encoding"), "chunked"))
  }

  /** The request can be sent again although nobody knows what became of its first copy. */
  predicate CanRestart(hs: seq<Field>, verb: string) {
    && GetHeader(hs, "Transfer-Encoding") == []
    && (forall i :: 0 <= i < |GetHeader(hs, "Content-Length")| ==> TrimSpace(GetHeader(hs, "Content-Length")[i]) == "0")
    && (verb == "GET" || verb == VERB_HEAD || verb == "OPTIONS" || verb == "CONNECT")
  }

  method CanRestartAfterEof(hs: seq<Field>, verb: string) returns (can: bool)
    ensures can == CanRestart(hs, verb)
  {
    hide GetHeader, TrimSpace;
    if |GetHeader(hs, "Transfer-Encoding")| != 0 {
      return false;
    }
    var lengths := GetHeader(hs, "Content-Length");
    for i := 0 to |lengths|
      invariant forall k :: 0 <= k < i ==> TrimSpace(lengths[k]) == "0"
    {
      if TrimSpace(lengths[i]) != "0" {
        return false;
      }
    }
    can := verb == "GET" || verb == VERB_HEAD || verb == "OPTIONS" || verb == "CONNECT";
  }
}
