/** What the handler's decisions mean on the fields and texts themselves: restarts, closing challenges, offers, numbers of bytes. */
module UpstreamMeaning {
  import opened Text
  import opened HttpGrammar
  import opened UpstreamHeaders
  import opened UpstreamAuth
  import opened UpstreamDrain

  // ---- fields -------------------------------------------------------------------------

  /** Field `i` has this name, case aside. */
  predicate Named(hs: seq<Field>, i: nat, name: string) {
    i < |hs| && EqualFold(hs[i].name, name)
  }

  ghost predicate HasField(hs: seq<Field>, name: string) {
    exists i: nat :: Named(hs, i, name)
  }

  predicate NamedSo(hs: seq<Field>, i: nat, name: string, value: string) {
    Named(hs, i, name) && hs[i].value == value
  }

  ghost predicate HasValue(hs: seq<Field>, name: string, value: string) {
    exists i: nat :: NamedSo(hs, i, name, value)
  }

  /** A header is looked up field by field: its values are those of the fields of that name. */
  lemma {:induction false} LookupIsFields(hs: seq<Field>, name: string, value: string)
    ensures value in GetHeader(hs, name) <==> HasValue(hs, name, value)
    ensures GetHeader(hs, name) == [] <==> !HasField(hs, name)
  {
    hide EqualFold;
    if hs != [] {
      var h, rest := hs[0], hs[1..];
      LookupIsFields(rest, name, value);
      assert Named(hs, 0, name) <==> EqualFold(h.name, name);
      forall i: nat ensures Named(hs, i + 1, name) <==> Named(rest, i, name) {}
      forall i: nat ensures NamedSo(hs, i + 1, name, value) <==> NamedSo(rest, i, name, value) {}
      if HasField(hs, name) {
        var i: nat :| Named(hs, i, name);
        if i > 0 { assert Named(rest, i - 1, name); }
      }
      if HasField(rest, name) {
        var i: nat :| Named(rest, i, name);
        assert Named(hs, i + 1, name);
      }
      if HasValue(hs, name, value) {
        var i: nat :| NamedSo(hs, i, name, value);
        if i > 0 { assert NamedSo(rest, i - 1, name, value); }
      }
      if HasValue(rest, name, value) {
        var i: nat :| NamedSo(rest, i, name, value);
        assert NamedSo(hs, i + 1, name, value);
      }
      if EqualFold(h.name, name) && h.value == value { assert NamedSo(hs, 0, name, value); }
    }
  }

  // ---- a request that may be sent again ---------------------------------------------------

  /** No field announces a body: no transfer coding, and no length but zero. */
  ghost predicate AnnouncesNoBody(hs: seq<Field>) {
    && !HasField(hs, "Transfer-Encoding")
    && forall i: nat :: Named(hs, i, "Content-Length") ==> TrimSpace(hs[i].value) == "0"
  }

  /** A request may be sent again blindly exactly when its method has no effects, or is CONNECT, and it has no body. */
  lemma RestartsExactlyWhenSafe(hs: seq<Field>, verb: string)
    ensures CanRestart(hs, verb) <==> (verb in ["GET", "HEAD", "OPTIONS", "CONNECT"]) && AnnouncesNoBody(hs)
  {
    LookupIsFields(hs, "Transfer-Encoding", "");
    var lengths := GetHeader(hs, "Content-Length");
    hide EqualFold, GetHeader, TrimSpace;
    if AnnouncesNoBody(hs) {
      forall i | 0 <= i < |lengths| ensures TrimSpace(lengths[i]) == "0" {
        LookupIsFields(hs, "Content-Length", lengths[i]);
        var k: nat :| NamedSo(hs, k, "Content-Length", lengths[i]);
      }
    }
    if forall i :: 0 <= i < |lengths| ==> TrimSpace(lengths[i]) == "0" {
      forall i: nat | Named(hs, i, "Content-Length") ensures TrimSpace(hs[i].value) == "0" {
        LookupIsFields(hs, "Content-Length", hs[i].value);
        assert NamedSo(hs, i, "Content-Length", hs[i].value);
        var k :| 0 <= k < |lengths| && lengths[k] == hs[i].value;
      }
    }
  }

  // ---- a challenge that closes its connection ------------------------------------------------

  /** Part `j` of field `i`, cut at commas and trimmed, is this token. */
  predicate TokenAt(hs: seq<Field>, i: nat, j: nat, name: string, token: string) {
    Named(hs, i, name) && j < |Parts(hs[i].value)| && EqualFold(TrimSpace(Parts(hs[i].value)[j]), token)
  }

  ghost predicate HasTokenIn(hs: seq<Field>, name: string, token: string) {
    exists i: nat, j: nat :: TokenAt(hs, i, j, name, token)
  }

  lemma TokensAreFields(hs: seq<Field>, name: string, token: string)
    ensures HasToken(GetHeader(hs, name), token) <==> HasTokenIn(hs, name, token)
  {
    var values := GetHeader(hs, name);
    hide EqualFold, GetHeader, TrimSpace, Parts;
    if HasToken(values, token) {
      var i, j :| 0 <= i < |values| && 0 <= j < |Parts(values[i])| && IsToken(Parts(values[i])[j], token);
      LookupIsFields(hs, name, values[i]);
      var k: nat :| NamedSo(hs, k, name, values[i]);
      assert TokenAt(hs, k, j, name, token);
    }
    if HasTokenIn(hs, name, token) {
      var i: nat, j: nat :| TokenAt(hs, i, j, name, token);
      LookupIsFields(hs, name, hs[i].value);
      assert NamedSo(hs, i, name, hs[i].value);
      var k :| 0 <= k < |values| && values[k] == hs[i].value;
      assert IsToken(Parts(values[k])[j], token);
    }
  }

  /** The message of a response can only end with its connection: neither a length nor chunks. */
  ghost predicate EndsWithConnection(head: Head, verb: string) {
    verb != "HEAD" && !HasField(head.fields, "Content-Length") && !HasTokenIn(head.fields, "Transfer-Encoding", "chunked")
  }

  ghost predicate AsksTo(head: Head, token: string) {
    HasTokenIn(head.fields, "Connection", token) || HasTokenIn(head.fields, "Proxy-Connection", token)
  }

  /** A challenge takes its connection with it exactly when it says so, is of HTTP/1.0 and does not ask to keep it, or has no other end. */
  lemma ClosesExactlyWhen(head: Head, verb: string)
    ensures ClosesConnection(head, verb) <==>
      AsksTo(head, "close") || (head.major == 1 && head.minor == 0 && !AsksTo(head, "keep-alive")) || EndsWithConnection(head, verb)
  {
    hide EqualFold, GetHeader, TrimSpace, Parts, HasToken, HasTokenIn, HasField;
    TokensAreFields(head.fields, "Connection", "close");
    TokensAreFields(head.fields, "Proxy-Connection", "close");
    TokensAreFields(head.fields, "Connection", "keep-alive");
    TokensAreFields(head.fields, "Proxy-Connection", "keep-alive");
    TokensAreFields(head.fields, "Transfer-Encoding", "chunked");
    LookupIsFields(head.fields, "Content-Length", "");
  }

  // ---- the offer that is taken -----------------------------------------------------------------

  /** The package of an offer, when it may be taken. */
  predicate MayTake(codec: Codec, active: Option<Package>, offer: string) {
    var p := codec.parse(Scheme(offer)); p.Some? && (active.None? || active == p)
  }

  predicate IsNtlm(codec: Codec, offer: string) {
    codec.parse(Scheme(offer)) == Some(Ntlm)
  }

  /**
   Offer `k` is the one taken: the last of NTLM if it may be, and otherwise the first that may be; what is taken is its package and
   the token it carries.
   */
  predicate Picked(codec: Codec, active: Option<Package>, offers: seq<string>, k: nat, c: Choice) {
    && k < |offers| && MayTake(codec, active, offers[k])
    && c == Choice(codec.parse(Scheme(offers[k])), if ServerToken(codec, offers[k]).Some? then ServerToken(codec, offers[k]).value else "")
    && ServerToken(codec, offers[k]).Some?
    && (forall j :: k < j < |offers| && MayTake(codec, active, offers[j]) ==> !IsNtlm(codec, offers[j]))
    && (!IsNtlm(codec, offers[k]) ==> forall j :: 0 <= j < k ==> !MayTake(codec, active, offers[j]))
  }

  lemma TakesMeans(codec: Codec, active: Option<Package>, selected: Option<Package>, offer: string)
    ensures Takes(active, selected, codec.parse(Scheme(offer))) <==> MayTake(codec, active, offer) && (selected.None? || IsNtlm(codec, offer))
  {
    hide Scheme;
  }

  lemma SelectStep(codec: Codec, active: Option<Package>, offers: seq<string>, selected: Option<Package>, token: Token)
    requires offers != []
    ensures var taken := MayTake(codec, active, offers[0]) && (selected.None? || IsNtlm(codec, offers[0]));
      Select(codec, active, offers, selected, token) ==
        if !taken then Select(codec, active, offers[1..], selected, token)
        else match ServerToken(codec, offers[0])
          case None => Undecodable
          case Some(t) => Select(codec, active, offers[1..], codec.parse(Scheme(offers[0])), t)
  {
    hide Scheme, ServerToken;
  }

  lemma SelectEnd(codec: Codec, active: Option<Package>, selected: Option<Package>, token: Token)
    ensures Select(codec, active, [], selected, token) == Choice(selected, token)
  {
  }

  /** Once a package is held, it stays unless NTLM is offered further on. */
  lemma {:induction false} SelectRest(codec: Codec, active: Option<Package>, offers: seq<string>, p: Package, token: Token) returns (k: nat)
    ensures var c := Select(codec, active, offers, Some(p), token); c.Choice? ==>
      (c == Choice(Some(p), token) && forall j :: 0 <= j < |offers| && MayTake(codec, active, offers[j]) ==> !IsNtlm(codec, offers[j]))
      || (k < |offers| && Picked(codec, active, offers, k, c) && IsNtlm(codec, offers[k]))
  {
    k := 0;
    hide Scheme, ServerToken, Select, MayTake, IsNtlm;
    if offers == [] {
      SelectEnd(codec, active, Some(p), token);
    } else {
      SelectStep(codec, active, offers, Some(p), token);
      var rest := offers[1..];
      assert forall j :: 0 <= j < |rest| ==> rest[j] == offers[j + 1];
      if !(MayTake(codec, active, offers[0]) && IsNtlm(codec, offers[0])) {
        k := SelectRest(codec, active, rest, p, token);
        k := k + 1;
      } else if ServerToken(codec, offers[0]).Some? {
        NtlmIs(codec, offers[0]);
        var i := SelectRest(codec, active, rest, Ntlm, ServerToken(codec, offers[0]).value);
        k := if i < |rest| && Picked(codec, active, rest, i, Select(codec, active, rest, Some(Ntlm), ServerToken(codec, offers[0]).value)) && IsNtlm(codec, rest[i])
          then i + 1 else 0;
      }
    }
  }

  lemma NtlmIs(codec: Codec, offer: string)
    requires IsNtlm(codec, offer)
    ensures codec.parse(Scheme(offer)) == Some(Ntlm)
  {
  }

  /** What a challenge is answered with: the offer picked, or nothing when none may be taken. */
  lemma {:induction false} SelectPicks(codec: Codec, active: Option<Package>, offers: seq<string>) returns (k: nat)
    ensures var c := Select(codec, active, offers, None, ""); c.Choice? ==>
      if c.package.Some? then Picked(codec, active, offers, k, c) else forall j :: 0 <= j < |offers| ==> !MayTake(codec, active, offers[j])
  {
    k := 0;
    hide Scheme, ServerToken, Select, MayTake, IsNtlm;
    if offers == [] {
      SelectEnd(codec, active, None, "");
    } else {
      SelectStep(codec, active, offers, None, "");
      var rest := offers[1..];
      assert forall j :: 0 <= j < |rest| ==> rest[j] == offers[j + 1];
      if !MayTake(codec, active, offers[0]) {
        k := SelectPicks(codec, active, rest);
        k := k + 1;
      } else if ServerToken(codec, offers[0]).Some? {
        MayTakeIs(codec, active, offers[0]);
        var p, t := codec.parse(Scheme(offers[0])).value, ServerToken(codec, offers[0]).value;
        var i := SelectRest(codec, active, rest, p, t);
        k := if i < |rest| && Picked(codec, active, rest, i, Select(codec, active, rest, Some(p), t)) && IsNtlm(codec, rest[i]) then i + 1 else 0;
      }
    }
  }

  lemma MayTakeIs(codec: Codec, active: Option<Package>, offer: string)
    requires MayTake(codec, active, offer)
    ensures codec.parse(Scheme(offer)).Some?
  {
  }

  /** An offer is its scheme, and behind the first blank the token to decode, blanks around it cut. */
  lemma OfferReads(codec: Codec, scheme: string, parameter: string)
    requires ' ' !in scheme
    ensures Scheme(scheme) == scheme && ServerToken(codec, scheme) == Some("")
    ensures Scheme(scheme + (" " + parameter)) == scheme && ServerToken(codec, scheme + (" " + parameter)) == codec.decode(TrimSpace(parameter))
  {
    var value := scheme + (" " + parameter);
    forall i | 0 <= i < |scheme| ensures IsNoSpace(scheme[i]) { assert scheme[i] in scheme; }
    RunIs(scheme, IsNoSpace, |scheme|);
    assert (" " + parameter)[0] == ' ';
    RunOfConcat(scheme, " " + parameter, IsNoSpace);
    assert scheme[..|scheme|] == scheme;
    assert value[|scheme| + 1..] == parameter;
    hide TrimSpace;
  }

  // ---- numbers -------------------------------------------------------------------------------------

  const HEX_DIGITS: string := "0123456789abcdef"
  const HEX_CAPITALS: string := "0123456789ABCDEF"

  /** A number in hexadecimal. */
  function Hex(n: nat, digits: string): string
    requires |digits| == 16
  {
    if n < 16 then [digits[n]] else Hex(n / 16, digits) + [digits[n % 16]]
  }

  lemma DigitReads(d: nat, digits: string)
    requires d < 16 && (digits == HEX_DIGITS || digits == HEX_CAPITALS)
    ensures HexDigit(digits[d]) == Some(d)
  {
  }

  lemma {:induction false} HexFromSnoc(s: string, c: char, so_far: nat)
    requires HexDigit(c).Some?
    ensures HexFrom(s + [c], so_far) == match HexFrom(s, so_far) case None => None case Some(n) => Some(16 * n + HexDigit(c).value)
  {
    hide HexDigit;
    if s == "" {
      assert [c][1..] == "" && "" + [c] == [c];
    } else {
      assert (s + [c])[1..] == s[1..] + [c];
      match HexDigit(s[0])
      case None =>
      case Some(d) => HexFromSnoc(s[1..], c, 16 * so_far + d);
    }
  }

  /** A size written in hexadecimal is read as itself, in either case of its digits. */
  lemma {:induction false} HexReads(n: nat, digits: string)
    requires digits == HEX_DIGITS || digits == HEX_CAPITALS
    ensures Hex(n, digits) != "" && HexFrom(Hex(n, digits), 0) == Some(n)
    ensures ';' !in Hex(n, digits)
  {
    NoSemicolonIn(digits);
    if n < 16 {
      DigitReads(n, digits);
      assert [digits[n]][1..] == "";
    } else {
      HexReads(n / 16, digits);
      DigitReads(n % 16, digits);
      HexFromSnoc(Hex(n / 16, digits), digits[n % 16], 0);
      assert digits[n % 16] in digits;
    }
  }

  lemma NoSemicolonIn(digits: string)
    requires digits == HEX_DIGITS || digits == HEX_CAPITALS
    ensures ';' !in digits && |digits| == 16
  {
  }

  /** A chunk line: a size of at most sixteen digits, and extensions behind a semicolon or none. */
  lemma SizedLineReads(n: nat, digits: string, extensions: string)
    requires (digits == HEX_DIGITS || digits == HEX_CAPITALS) && |Hex(n, digits)| <= 16
    requires extensions == "" || extensions[0] == ';'
    ensures ChunkSize(Hex(n, digits) + extensions) == Some(n)
  {
    var text := Hex(n, digits);
    HexReads(n, digits);
    hide Hex, HexFrom;
    forall i | 0 <= i < |text| ensures IsNoSemicolon(text[i]) { assert text[i] in text; }
    RunOfConcat(text, extensions, IsNoSemicolon);
  }

  predicate IsHex(c: char) {
    c in HEX_DIGITS || c in HEX_CAPITALS
  }

  lemma DigitIsHex(c: char)
    ensures HexDigit(c).Some? <==> IsHex(c)
  {
    if HexDigit(c).Some? {
      var d := HexDigit(c).value;
      assert HEX_DIGITS[d] == c || HEX_CAPITALS[d] == c;
    }
  }

  lemma {:induction false} HexFromReads(s: string, so_far: nat)
    ensures HexFrom(s, so_far).Some? <==> forall i :: 0 <= i < |s| ==> IsHex(s[i])
  {
    hide IsHex, HexDigit;
    if s != "" {
      DigitIsHex(s[0]);
      match HexDigit(s[0])
      case None =>
      case Some(d) => HexFromReads(s[1..], 16 * so_far + d);
      assert s == [s[0]] + s[1..];
    }
  }

  /** Any other size, one without digits included, is refused. */
  lemma SizeReadsExactlyWhen(size: string, extensions: string)
    requires ';' !in size && (extensions == "" || extensions[0] == ';')
    ensures ChunkSize(size + extensions).Some? <==> 0 < |size| <= 16 && forall i :: 0 <= i < |size| ==> IsHex(size[i])
  {
    HexFromReads(size, 0);
    hide HexFrom, IsHex;
    forall i | 0 <= i < |size| ensures IsNoSemicolon(size[i]) { assert size[i] in size; }
    RunOfConcat(size, extensions, IsNoSemicolon);
  }

  /** A number in decimal. */
  function Digits(n: nat): string {
    if n < 10 then [('0' as int + n) as char] else Digits(n / 10) + [('0' as int + n % 10) as char]
  }

  lemma {:induction false} DecimalReads(n: nat)
    ensures IsDigits(Digits(n)) && Decimal(Digits(n)) == n
  {
    if n < 10 {
      assert Digits(n)[..0] == "" && Decimal("") == 0;
    } else {
      DecimalReads(n / 10);
      var s := Digits(n);
      assert s[..|s| - 1] == Digits(n / 10);
    }
  }

  /** A length that fits 63 bits is read as itself, one that does not is refused; a plus is read over, a negative length refused. */
  lemma LengthReads(n: nat)
    ensures ParseLength(Digits(n)) == if n <= 0x7FFF_FFFF_FFFF_FFFF then Some(n) else None
    ensures ParseLength("+" + Digits(n)) == ParseLength(Digits(n))
    ensures n > 0 ==> ParseLength("-" + Digits(n)) == None
  {
    DecimalReads(n);
    var s := Digits(n);
    assert IsAsciiDigit(s[0]);
    assert ("+" + s)[0] == '+' && ("+" + s)[1..] == s && ("-" + s)[0] == '-' && ("-" + s)[1..] == s;
    hide Digits, Decimal;
  }

  // ---- the final transfer coding ---------------------------------------------------------------

  lemma {:induction false} PartsLast(front: string, last: string)
    requires ',' !in last
    ensures Parts(last) == [last]
    ensures var ps := Parts(front + ("," + last)); ps[|ps| - 1] == last
  {
    if front == "" {
      OnePart(last);
      assert ("," + last)[0] == ',' && ("," + last)[1..] == last && "" + ("," + last) == "," + last;
    } else {
      PartsLast(front[1..], last);
      var s, rest := front + ("," + last), Parts(front[1..] + ("," + last));
      assert s[0] == front[0] && s[1..] == front[1..] + ("," + last);
      if |rest| == 1 { CommaSplits(front[1..], last); }
    }
  }

  lemma {:induction false} OnePart(s: string)
    requires ',' !in s
    ensures Parts(s) == [s]
  {
    if s != "" {
      assert ',' !in s[1..];
      OnePart(s[1..]);
      assert [s[0]] + s[1..] == s;
    }
  }

  lemma {:induction false} CommaSplits(front: string, last: string)
    ensures |Parts(front + ("," + last))| > 1
  {
    var s := front + ("," + last);
    if front == "" {
      assert s[0] == ',';
    } else {
      CommaSplits(front[1..], last);
      assert s[1..] == front[1..] + ("," + last);
    }
  }

  lemma {:induction false} CodingsSnoc(values: seq<string>, v: string)
    ensures Codings(values + [v]) == Codings(values) + Parts(v)
  {
    hide Parts;
    if values == [] {
      assert values + [v] == [v] && [v][1..] == [];
    } else {
      assert (values + [v])[1..] == values[1..] + [v] && (values + [v])[0] == values[0];
      CodingsSnoc(values[1..], v);
      Assoc(Parts(values[0]), Codings(values[1..]), Parts(v));
    }
  }

  /** The final transfer coding stands behind the last comma of the last field. */
  lemma FinalCodingReads(values: seq<string>, front: string, last: string)
    requires ',' !in last
    ensures !FinalIsChunked([])
    ensures FinalIsChunked(values + [last]) <==> EqualFold(TrimSpace(last), "chunked")
    ensures FinalIsChunked(values + [front + ("," + last)]) <==> EqualFold(TrimSpace(last), "chunked")
  {
    hide Parts, TrimSpace, EqualFold;
    PartsLast(front, last);
    CodingsSnoc(values, last);
    CodingsSnoc(values, front + ("," + last));
    hide Codings;
    var all := front + ("," + last);
    LastOfConcat(Codings(values), Parts(last));
    LastOfConcat(Codings(values), Parts(all));
    NoCodingsListed();
  }

  lemma NoCodingsListed()
    ensures Codings([]) == []
  {
  }

  lemma LastOfConcat(a: seq<string>, b: seq<string>)
    requires b != []
    ensures a + b != [] && (a + b)[|a + b| - 1] == b[|b| - 1]
  {
  }
}
