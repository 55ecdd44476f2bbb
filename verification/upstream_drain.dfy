/**
 Where the body of a challenge ends. A stream is the bytes the gateway sends on one connection, each as the
 character of its code; the chunked reader of net/http/httputil is modelled by its grammar, section 7.1 of RFC 9112.
 */
module UpstreamDrain {
  import opened Text
  import opened HttpGrammar
  import opened UpstreamHeaders

  // ---- numbers -----------------------------------------------------------------------

  function HexDigit(c: char): Option<nat> {
    if '0' <= c <= '9' then Some((c - '0') as nat)
    else if 'a' <= c <= 'f' then Some((c - 'a') as nat + 10)
    else if 'A' <= c <= 'F' then Some((c - 'A') as nat + 10)
    else None
  }

  /** At least one and at most sixteen hexadecimal digits. */
  function HexValue(s: string): Option<nat> {
    if s == "" || |s| > 16 then None else HexFrom(s, 0)
  }

  function HexFrom(s: string, so_far: nat): Option<nat> {
    if s == "" then Some(so_far)
    else match HexDigit(s[0])
      case None => None
      case Some(d) => HexFrom(s[1..], 16 * so_far + d)
  }

  predicate IsDigits(s: string) {
    s != "" && All(s, IsAsciiDigit)
  }

  function Decimal(s: string): nat
    requires All(s, IsAsciiDigit)
  {
    if s == "" then 0 else 10 * Decimal(s[..|s| - 1]) + (s[|s| - 1] - '0') as nat
  }

  const MAX_INT64 := 0x7FFF_FFFF_FFFF_FFFF

  /** strconv.ParseInt of a length: a sign is read, a negative length or one past 63 bits is refused. */
  function ParseLength(s: string): Option<nat> {
    var signed := s != "" && (s[0] == '+' || s[0] == '-');
    var digits := if signed then s[1..] else s;
    if !IsDigits(digits) then None
    else
      var n := Decimal(digits);
      if signed && s[0] == '-' && n > 0 then None else if n > MAX_INT64 then None else Some(n)
  }

  // ---- lines -----------------------------------------------------------------------------

  datatype Line = Line(text: string, next: nat)

  function BreakFrom(s: string, off: nat): Option<nat>
    requires off <= |s|
    ensures BreakFrom(s, off).Some? ==> off <= BreakFrom(s, off).value < |s| && s[BreakFrom(s, off).value] == '\n'
    ensures forall i :: off <= i < (if BreakFrom(s, off).Some? then BreakFrom(s, off).value else |s|) ==> s[i] != '\n'
    decreases |s| - off
  {
    if off == |s| then None else if s[off] == '\n' then Some(off) else BreakFrom(s, off + 1)
  }

  /** A line of the stream, without its line break and the return before it; a last line needs no break. */
  function LineAt(s: string, off: nat): (r: Option<Line>)
    requires off <= |s|
    ensures r.Some? ==> off < r.value.next <= |s|
  {
    if off == |s| then None
    else match BreakFrom(s, off)
      case None => Some(Line(s[off..], |s|))
      case Some(i) => Some(Line(if i > off && s[i - 1] == '\r' then s[off..i - 1] else s[off..i], i + 1))
  }

  /** A chunk line, which must end in a return and a line break. */
  function ChunkLineAt(s: string, off: nat): (r: Option<Line>)
    requires off <= |s|
    ensures r.Some? ==> off + 2 <= r.value.next <= |s| && r.value.text == s[off..r.value.next - 2]
  {
    match BreakFrom(s, off)
    case None => None
    case Some(i) => if i > off && s[i - 1] == '\r' && '\r' !in s[off..i - 1] then Some(Line(s[off..i - 1], i + 1)) else None
  }

  predicate IsNoSemicolon(c: char) {
    c != ';'
  }

  /** The size on a chunk line, its extensions cut. */
  function ChunkSize(line: string): Option<nat> {
    HexValue(line[..Run(line, IsNoSemicolon)])
  }

  // ---- what the code consumes --------------------------------------------------------------

  /** Past the last chunk's line: where the chunked reader stops. */
  function Chunks(s: string, off: nat): (end: Option<nat>)
    requires off <= |s|
    ensures end.Some? ==> off < end.value <= |s|
    decreases |s| - off
  {
    match ChunkLineAt(s, off)
    case None => None
    case Some(line) =>
      match ChunkSize(line.text)
      case None => None
      case Some(size) =>
        if size == 0 then Some(line.next)
        else if line.next + size + 2 <= |s| && s[line.next + size] == '\r' && s[line.next + size + 1] == '\n'
        then Chunks(s, line.next + size + 2)
        else None
  }

  /** Past the trailers and the blank line after them. */
  function Trailers(s: string, off: nat): (end: Option<nat>)
    requires off <= |s|
    ensures end.Some? ==> off < end.value <= |s|
    decreases |s| - off
  {
    match LineAt(s, off)
    case None => None
    case Some(line) => if line.text == "" then Some(line.next) else Trailers(s, line.next)
  }

  datatype Framing = NoBody | Chunked | Length(n: nat) | UntilClose | Malformed

  /** How drainUpstreamAuthBody takes the body to be framed. */
  function CodeFraming(head: Head, verb: string): Framing {
    var lengths := GetHeader(head.fields, "Content-Length");
    if verb == VERB_HEAD then NoBody
    else if HasToken(GetHeader(head.fields, "Transfer-Encoding"), "chunked") then Chunked
    else if |lengths| != 1 then Malformed
    else match ParseLength(TrimSpace(lengths[0]))
      case None => Malformed
      case Some(n) => Length(n)
  }

  /** Where it leaves the stream; None when it reports an error. */
  function Drained(framing: Framing, s: string, off: nat): Option<nat>
    requires off <= |s|
  {
    match framing
    case NoBody => Some(off)
    case Chunked => (match Chunks(s, off) case None => None case Some(end) => Trailers(s, end))
    case Length(n) => if off + n <= |s| then Some(off + n) else None
    case _ => None
  }

  class NetworkStream {
    const data: string
    var pos: nat

    ghost predicate Valid()
      reads this
    {
      pos <= |data|
    }

    constructor (bytes: string)
      ensures data == bytes && pos == 0
    {
      data := bytes;
      pos := 0;
    }

    method ReadLine() returns (line: Option<string>)
      requires Valid()
      modifies this
      ensures Valid()
      ensures match LineAt(data, old(pos)) case None => line == None && pos == |data| case Some(l) => line == Some(l.text) && pos == l.next
    {
      var l := LineAt(data, pos);
      if l.None? {
        pos := |data|;
        return None;
      }
      pos := l.value.next;
      line := Some(l.value.text);
    }

    /** Discards the chunks and the last chunk's line. */
    method DiscardChunks() returns (ok: bool)
      requires Valid()
      modifies this
      ensures Valid() && ok == Chunks(data, old(pos)).Some?
      ensures ok ==> pos == Chunks(data, old(pos)).value
    {
      ghost var start := pos;
      hide ChunkSize, ChunkLineAt;
      while true
        invariant Valid() && Chunks(data, pos) == Chunks(data, start)
        decreases |data| - pos
      {
        var line := ChunkLineAt(data, pos);
        if line.None? {
          return false;
        }
        var size := ChunkSize(line.value.text);
        if size.None? {
          return false;
        }
        pos := line.value.next;
        if size.value == 0 {
          return true;
        }
        var end := pos + size.value;
        if end + 2 > |data| || data[end] != '\r' || data[end + 1] != '\n' {
          return false;
        }
        pos := end + 2;
      }
    }

    /** drainUpstreamAuthBody. */
    method Drain(head: Head, verb: string) returns (ok: bool)
      requires Valid()
      modifies this
      ensures Valid() && ok == Drained(CodeFraming(head, verb), data, old(pos)).Some?
      ensures ok ==> pos == Drained(CodeFraming(head, verb), data, old(pos)).value
    {
      hide ChunkSize, ChunkLineAt, LineAt, GetHeader, ParseLength, TrimSpace, Chunks;
      if verb == VERB_HEAD {
        return true;
      }
      var chunked := HeaderHasToken(GetHeader(head.fields, "Transfer-Encoding"), "chunked");
      hide HasToken;
      if chunked {
        ok := DiscardChunks();
        if !ok {
          return;
        }
        ghost var start := pos;
        while true
          invariant Valid() && Trailers(data, pos) == Trailers(data, start)
          decreases |data| - pos
        {
          var line := ReadLine();
          if line.None? {
            return false;
          }
          if line.value == "" {
            return true;
          }
        }
      }
      var lengths := GetHeader(head.fields, "Content-Length");
      if |lengths| != 1 {
        return false;
      }
      var length := ParseLength(TrimSpace(lengths[0]));
      if length.None? {
        return false;
      }
      if pos + length.value > |data| {
        pos := |data|;
        return false;
      }
      pos := pos + length.value;
      ok := true;
    }
  }

  // ---- the messages of RFC 9112 ----------------------------------------------------------------

  /** A chunk: its line and its data. */
  datatype Chunk = Chunk(line: string, data: string)

  datatype ChunkedBody = ChunkedBody(chunks: seq<Chunk>, last: string, trailers: seq<string>)

  predicate ChunkLineOk(line: string) {
    '\n' !in line && '\r' !in line
  }

  predicate ChunkOk(c: Chunk) {
    ChunkLineOk(c.line) && c.data != "" && ChunkSize(c.line) == Some(|c.data|)
  }

  predicate TrailerOk(t: string) {
    t != "" && '\n' !in t && t[|t| - 1] != '\r'
  }

  predicate BodyOk(b: ChunkedBody) {
    && (forall i :: 0 <= i < |b.chunks| ==> ChunkOk(b.chunks[i]))
    && ChunkLineOk(b.last) && ChunkSize(b.last) == Some(0)
    && (forall i :: 0 <= i < |b.trailers| ==> TrailerOk(b.trailers[i]))
  }

  const CRLF: string := "\r\n"

  function EncodeChunks(cs: seq<Chunk>): string {
    if cs == [] then "" else cs[0].line + (CRLF + (cs[0].data + (CRLF + EncodeChunks(cs[1..]))))
  }

  function EncodeTrailers(ts: seq<string>): string {
    if ts == [] then "" else ts[0] + (CRLF + EncodeTrailers(ts[1..]))
  }

  /** chunked-body: chunks, the last chunk, trailers, the closing line. */
  function EncodeBody(b: ChunkedBody): string {
    EncodeChunks(b.chunks) + (b.last + (CRLF + (EncodeTrailers(b.trailers) + CRLF)))
  }

  /** `text` stands at `off`. */
  predicate Stands(s: string, off: nat, text: string) {
    off + |text| <= |s| && forall i {:trigger text[i]} :: 0 <= i < |text| ==> s[off + i] == text[i]
  }

  lemma StandsConcat(s: string, off: nat, a: string, b: string)
    ensures Stands(s, off, a + b) <==> Stands(s, off, a) && Stands(s, off + |a|, b)
  {
    var ab := a + b;
    assert forall i :: 0 <= i < |a| ==> ab[i] == a[i];
    assert forall i :: 0 <= i < |b| ==> ab[|a| + i] == b[i];
    if Stands(s, off, ab) {
      forall i | 0 <= i < |a| ensures s[off + i] == a[i] { assert s[off + i] == ab[i]; }
      forall i | 0 <= i < |b| ensures s[off + |a| + i] == b[i] { assert s[off + (|a| + i)] == ab[|a| + i]; }
    }
    if Stands(s, off, a) && Stands(s, off + |a|, b) {
      forall i | 0 <= i < |ab| ensures s[off + i] == ab[i] {
        if i >= |a| { assert s[off + |a| + (i - |a|)] == b[i - |a|]; }
      }
    }
  }

  lemma StandsSlice(s: string, off: nat, text: string)
    requires Stands(s, off, text)
    ensures off + |text| <= |s| && s[off..off + |text|] == text
  {
  }

  lemma BreakIs(s: string, off: nat, i: nat)
    requires off <= i < |s| && s[i] == '\n' && forall k :: off <= k < i ==> s[k] != '\n'
    ensures BreakFrom(s, off) == Some(i)
  {
  }

  lemma CrlfStands(s: string, off: nat)
    requires Stands(s, off, CRLF)
    ensures off + 2 <= |s| && s[off] == '\r' && s[off + 1] == '\n'
  {
    assert s[off + 0] == CRLF[0] && s[off + 1] == CRLF[1];
  }

  lemma ChunkLineStands(s: string, off: nat, line: string)
    requires Stands(s, off, line + CRLF) && ChunkLineOk(line)
    ensures ChunkLineAt(s, off) == Some(Line(line, off + |line| + 2))
  {
    StandsConcat(s, off, line, CRLF);
    CrlfStands(s, off + |line|);
    StandsSlice(s, off, line);
    forall k | off <= k < off + |line| + 1 ensures s[k] != '\n' {
      if k < off + |line| { assert s[off + (k - off)] == line[k - off]; }
    }
    BreakIs(s, off, off + |line| + 1);
  }

  lemma TrailerStands(s: string, off: nat, t: string)
    requires Stands(s, off, t + CRLF) && '\n' !in t
    ensures LineAt(s, off) == Some(Line(t, off + |t| + 2))
  {
    StandsConcat(s, off, t, CRLF);
    CrlfStands(s, off + |t|);
    StandsSlice(s, off, t);
    forall k | off <= k < off + |t| + 1 ensures s[k] != '\n' {
      if k < off + |t| { assert s[off + (k - off)] == t[k - off]; }
    }
    BreakIs(s, off, off + |t| + 1);
  }

  lemma ChunkParts(s: string, off: nat, c: Chunk, rest: string)
    requires Stands(s, off, c.line + (CRLF + (c.data + (CRLF + rest))))
    ensures var at := off + |c.line| + 2;
      Stands(s, off, c.line + CRLF) && at + |c.data| + 2 <= |s| && s[at + |c.data|] == '\r' && s[at + |c.data| + 1] == '\n'
      && Stands(s, at + |c.data| + 2, rest)
  {
    hide Stands;
    var at := off + |c.line| + 2;
    StandsConcat(s, off, c.line, CRLF + (c.data + (CRLF + rest)));
    StandsConcat(s, off + |c.line|, CRLF, c.data + (CRLF + rest));
    StandsConcat(s, at, c.data, CRLF + rest);
    StandsConcat(s, at + |c.data|, CRLF, rest);
    StandsConcat(s, off, c.line, CRLF);
    CrlfStands(s, at + |c.data|);
  }

  lemma ChunksStep(s: string, off: nat, line: Line, size: nat)
    requires off <= |s| && ChunkLineAt(s, off) == Some(line) && ChunkSize(line.text) == Some(size)
    ensures size == 0 ==> Chunks(s, off) == Some(line.next)
    ensures size > 0 && line.next + size + 2 <= |s| && s[line.next + size] == '\r' && s[line.next + size + 1] == '\n' ==>
      Chunks(s, off) == Chunks(s, line.next + size + 2)
  {
    hide ChunkLineAt, ChunkSize;
  }

  lemma ChunksCons(cs: seq<Chunk>)
    requires cs != [] && forall i :: 0 <= i < |cs| ==> ChunkOk(cs[i])
    ensures EncodeChunks(cs) == cs[0].line + (CRLF + (cs[0].data + (CRLF + EncodeChunks(cs[1..]))))
    ensures ChunkLineOk(cs[0].line) && cs[0].data != "" && ChunkSize(cs[0].line) == Some(|cs[0].data|)
    ensures forall i :: 0 <= i < |cs[1..]| ==> ChunkOk(cs[1..][i])
  {
    assert ChunkOk(cs[0]);
    hide ChunkSize, ChunkLineOk;
  }

  lemma {:induction false} ChunksStand(s: string, off: nat, cs: seq<Chunk>, last: string)
    requires (forall i :: 0 <= i < |cs| ==> ChunkOk(cs[i])) && ChunkLineOk(last) && ChunkSize(last) == Some(0)
    requires Stands(s, off, EncodeChunks(cs)) && Stands(s, off + |EncodeChunks(cs)|, last + CRLF)
    ensures off <= |s| && Chunks(s, off) == Some(off + |EncodeChunks(cs)| + |last| + 2)
    decreases |cs|
  {
    hide ChunkSize, ChunkLineOk, ChunkOk, ChunkLineAt, Chunks;
    if cs == [] {
      ChunkLineStands(s, off, last);
      StandsConcat(s, off, last, CRLF);
      ChunksStep(s, off, Line(last, off + |last| + 2), 0);
    } else {
      var c, rest := cs[0], EncodeChunks(cs[1..]);
      hide Stands, EncodeChunks;
      ChunksCons(cs);
      ChunkParts(s, off, c, rest);
      ChunkLineStands(s, off, c.line);
      ChunksStand(s, off + |c.line| + |c.data| + 4, cs[1..], last);
      ChunksStep(s, off, Line(c.line, off + |c.line| + 2), |c.data|);
    }
  }

  lemma {:induction false} TrailersStand(s: string, off: nat, ts: seq<string>)
    requires (forall i :: 0 <= i < |ts| ==> TrailerOk(ts[i])) && Stands(s, off, EncodeTrailers(ts)) && Stands(s, off + |EncodeTrailers(ts)|, CRLF)
    ensures off <= |s| && Trailers(s, off) == Some(off + |EncodeTrailers(ts)| + 2)
    decreases |ts|
  {
    if ts == [] {
      assert "" + CRLF == CRLF;
      TrailerStands(s, off, "");
    } else {
      var t, rest := ts[0], EncodeTrailers(ts[1..]);
      assert TrailerOk(t);
      hide Stands, EncodeTrailers;
      assert EncodeTrailers(ts) == t + (CRLF + rest) by { TrailersCons(ts); }
      StandsConcat(s, off, t, CRLF + rest);
      StandsConcat(s, off + |t|, CRLF, rest);
      StandsConcat(s, off, t, CRLF);
      TrailerStands(s, off, t);
      TrailersStand(s, off + |t| + 2, ts[1..]);
    }
  }

  lemma TrailersCons(ts: seq<string>)
    requires ts != []
    ensures EncodeTrailers(ts) == ts[0] + (CRLF + EncodeTrailers(ts[1..]))
  {
  }

  /** A chunked body, whatever follows it, is drained to its last byte. */
  lemma ChunkedIsDrained(s: string, off: nat, b: ChunkedBody)
    requires BodyOk(b) && Stands(s, off, EncodeBody(b))
    ensures off <= |s| && Drained(Chunked, s, off) == Some(off + |EncodeBody(b)|)
  {
    var chunks, trailers := EncodeChunks(b.chunks), EncodeTrailers(b.trailers);
    hide Stands, EncodeChunks, EncodeTrailers, Chunks, Trailers, ChunkOk, TrailerOk, ChunkSize, ChunkLineOk;
    StandsConcat(s, off, chunks, b.last + (CRLF + (trailers + CRLF)));
    StandsConcat(s, off + |chunks|, b.last, CRLF + (trailers + CRLF));
    StandsConcat(s, off + |chunks| + |b.last|, CRLF, trailers + CRLF);
    StandsConcat(s, off + |chunks|, b.last, CRLF);
    StandsConcat(s, off + |chunks| + |b.last| + 2, trailers, CRLF);
    ChunksStand(s, off, b.chunks, b.last);
    TrailersStand(s, off + |chunks| + |b.last| + 2, b.trailers);
  }

  // ---- a body cut short ---------------------------------------------------------------------------

  lemma BreakOfCut(s: string, c: nat, off: nat)
    requires off <= c <= |s|
    ensures BreakFrom(s[..c], off).Some? ==> BreakFrom(s, off) == BreakFrom(s[..c], off)
  {
    var b := BreakFrom(s[..c], off);
    if b.Some? {
      assert forall k :: off <= k < b.value ==> s[k] == s[..c][k];
      BreakIs(s, off, b.value);
    }
  }

  lemma ChunkLineOfCut(s: string, c: nat, off: nat)
    requires off <= c <= |s| && ChunkLineAt(s[..c], off).Some?
    ensures ChunkLineAt(s, off) == ChunkLineAt(s[..c], off)
  {
    BreakOfCut(s, c, off);
    var line := ChunkLineAt(s[..c], off).value;
    assert s[..c][off..line.next - 2] == s[off..line.next - 2];
  }

  lemma {:induction false} ChunksOfCut(s: string, c: nat, off: nat)
    requires off <= c <= |s| && Chunks(s[..c], off).Some?
    ensures Chunks(s, off) == Chunks(s[..c], off)
    decreases |s| - off
  {
    hide ChunkLineAt, ChunkSize;
    ChunkLineOfCut(s, c, off);
    var line := ChunkLineAt(s[..c], off).value;
    var size := ChunkSize(line.text).value;
    ChunksStep(s, off, line, size);
    ChunksStep(s[..c], off, line, size);
    if size > 0 {
      var at := line.next + size;
      assert at + 2 <= c && s[..c][at] == s[at] && s[..c][at + 1] == s[at + 1];
      ChunksOfCut(s, c, at + 2);
    }
  }

  lemma LineOfCut(s: string, c: nat, off: nat)
    requires off < c <= |s| && BreakFrom(s[..c], off).Some?
    ensures LineAt(s[..c], off).Some? && LineAt(s, off) == LineAt(s[..c], off)
  {
    BreakOfCut(s, c, off);
    hide BreakFrom;
    var i := BreakFrom(s, off).value;
    assert s[..c][off..i] == s[off..i] && (i > off ==> s[..c][off..i - 1] == s[off..i - 1]);
  }

  lemma NoTrailersUnended(s: string, off: nat)
    requires off <= |s| && BreakFrom(s, off).None?
    ensures Trailers(s, off).None?
  {
    if off < |s| {
      assert LineAt(s, off) == Some(Line(s[off..], |s|)) && s[off..] != "";
      assert Trailers(s, |s|).None?;
    }
  }

  lemma {:induction false} TrailersOfCut(s: string, c: nat, off: nat)
    requires off <= c <= |s| && Trailers(s[..c], off).Some?
    ensures Trailers(s, off) == Trailers(s[..c], off)
    decreases |s| - off
  {
    if BreakFrom(s[..c], off).None? {
      NoTrailersUnended(s[..c], off);
    } else {
      LineOfCut(s, c, off);
      hide LineAt, BreakFrom;
      var line := LineAt(s, off).value;
      if line.text != "" { TrailersOfCut(s, c, line.next); }
    }
  }

  /** What a stream gives is what it gives once more bytes have come. */
  lemma DrainedOfCut(framing: Framing, s: string, c: nat, off: nat)
    requires off <= c <= |s| && Drained(framing, s[..c], off).Some?
    ensures Drained(framing, s, off) == Drained(framing, s[..c], off)
  {
    hide Chunks, Trailers;
    if framing.Chunked? {
      ChunksOfCut(s, c, off);
      TrailersOfCut(s, c, Chunks(s[..c], off).value);
    }
  }

  /** A chunked body cut anywhere is an error, never a complete message. */
  lemma CutChunkedIsRefused(s: string, off: nat, b: ChunkedBody, c: nat)
    requires BodyOk(b) && Stands(s, off, EncodeBody(b)) && off <= c < off + |EncodeBody(b)|
    ensures c <= |s| && Drained(Chunked, s[..c], off) == None
  {
    hide BodyOk, EncodeBody, Drained;
    StandsSlice(s, off, EncodeBody(b));
    ChunkedIsDrained(s, off, b);
    if Drained(Chunked, s[..c], off).Some? {
      DrainedOfCut(Chunked, s, c, off);
      DrainedFits(Chunked, s[..c], off);
    }
  }

  lemma DrainedFits(framing: Framing, s: string, off: nat)
    requires off <= |s|
    ensures Drained(framing, s, off).Some? ==> Drained(framing, s, off).value <= |s|
  {
  }

  // ---- the framing of RFC 9112 and the one the code takes --------------------------------------------

  /** The codings listed in the fields, in order. */
  function Codings(values: seq<string>): seq<string> {
    if values == [] then [] else Parts(values[0]) + Codings(values[1..])
  }

  /** The message is chunked when chunked is its final coding. */
  predicate FinalIsChunked(values: seq<string>) {
    Codings(values) != [] && IsToken(Codings(values)[|Codings(values)| - 1], "chunked")
  }

  /** Section 6.3 of RFC 9112, for a response that is neither informational, 204 nor 304; a list of lengths counts as malformed. */
  function RfcFraming(head: Head, verb: string): Framing {
    var codings, lengths := GetHeader(head.fields, "Transfer-Encoding"), GetHeader(head.fields, "Content-Length");
    if verb == VERB_HEAD then NoBody
    else if codings != [] then (if FinalIsChunked(codings) then Chunked else UntilClose)
    else if lengths == [] then UntilClose
    else if |lengths| != 1 || !IsDigits(TrimSpace(lengths[0])) then Malformed
    else Length(Decimal(TrimSpace(lengths[0])))
  }

  predicate FitsInt64(framing: Framing) {
    framing.Length? ==> framing.n <= MAX_INT64
  }

  lemma CodingsAre(values: seq<string>, k: nat)
    requires k < |Codings(values)|
    ensures exists i, j :: 0 <= i < |values| && 0 <= j < |Parts(values[i])| && Parts(values[i])[j] == Codings(values)[k]
    decreases |values|
  {
    var first := Parts(values[0]);
    if k < |first| {
      assert Parts(values[0])[k] == Codings(values)[k];
    } else {
      CodingsAre(values[1..], k - |first|);
      var i, j :| 0 <= i < |values[1..]| && 0 <= j < |Parts(values[1..][i])| && Parts(values[1..][i])[j] == Codings(values[1..])[k - |first|];
      assert Parts(values[i + 1])[j] == Codings(values)[k];
    }
  }

  lemma FinalIsToken(values: seq<string>)
    requires FinalIsChunked(values)
    ensures HasToken(values, "chunked")
  {
    var k := |Codings(values)| - 1;
    CodingsAre(values, k);
    var i, j :| 0 <= i < |values| && 0 <= j < |Parts(values[i])| && Parts(values[i])[j] == Codings(values)[k];
    assert IsToken(Parts(values[i])[j], "chunked");
    hide IsToken, Parts, Codings;
  }

  /** A transfer coding, when there is one, ends in chunked, and a length carries no sign: what a sender of valid messages does. */
  predicate PlainlyFramed(head: Head) {
    var codings, lengths := GetHeader(head.fields, "Transfer-Encoding"), GetHeader(head.fields, "Content-Length");
    && (codings != [] ==> FinalIsChunked(codings))
    && (codings == [] && |lengths| == 1 ==> TrimSpace(lengths[0]) != "" && TrimSpace(lengths[0])[0] != '+' && TrimSpace(lengths[0])[0] != '-')
  }

  lemma UnsignedLength(s: string)
    requires s != "" && s[0] != '+' && s[0] != '-'
    ensures ParseLength(s) == if IsDigits(s) && Decimal(s) <= MAX_INT64 then Some(Decimal(s)) else None
  {
  }

  lemma SignedLength(s: string)
    requires s == "" || s[0] == '+' || s[0] == '-'
    ensures !IsDigits(s)
  {
  }

  /** On a challenge that keeps its connection, the code and the standard agree on where a plainly framed body ends. */
  lemma PlainFramingsAgree(head: Head, verb: string)
    requires !ClosesConnection(head, verb) && PlainlyFramed(head) && FitsInt64(RfcFraming(head, verb))
    ensures CodeFraming(head, verb) == RfcFraming(head, verb) && !RfcFraming(head, verb).UntilClose?
  {
    var codings, lengths := GetHeader(head.fields, "Transfer-Encoding"), GetHeader(head.fields, "Content-Length");
    if codings != [] {
      FinalIsToken(codings);
    } else {
      NoCodings();
      if |lengths| == 1 { UnsignedLength(TrimSpace(lengths[0])); }
    }
    hide GetHeader, HasToken, TrimSpace, ParseLength, FinalIsChunked, IsDigits, Decimal;
  }

  lemma NoCodings()
    ensures !HasToken([], "chunked")
  {
  }

  /** When the code drains such a challenge at all, it drains what the standard frames exactly when the challenge is plainly framed. */
  lemma FramingsAgreeExactlyWhenPlain(head: Head, verb: string)
    requires verb != VERB_HEAD && !ClosesConnection(head, verb) && !CodeFraming(head, verb).Malformed?
    ensures CodeFraming(head, verb) == RfcFraming(head, verb) <==> PlainlyFramed(head)
  {
    var codings, lengths := GetHeader(head.fields, "Transfer-Encoding"), GetHeader(head.fields, "Content-Length");
    if codings != [] {
      if FinalIsChunked(codings) { FinalIsToken(codings); }
    } else {
      NoCodings();
      if |lengths| == 1 {
        var s := TrimSpace(lengths[0]);
        if s != "" && s[0] != '+' && s[0] != '-' { UnsignedLength(s); } else { SignedLength(s); }
      }
    }
    hide GetHeader, HasToken, TrimSpace, ParseLength, FinalIsChunked, IsDigits, Decimal;
  }

  /** The body of a message framed by `framing` stands at `off` and ends at `end`. */
  ghost predicate BodyStands(framing: Framing, s: string, off: nat, end: nat) {
    match framing
    case NoBody => end == off
    case Length(n) => end == off + n <= |s|
    case Chunked => exists b :: BodyOk(b) && Stands(s, off, EncodeBody(b)) && end == off + |EncodeBody(b)|
    case _ => false
  }

  /** A challenge kept on its connection is drained to the first byte after it, whatever has come behind it. */
  lemma DrainsTheMessage(head: Head, verb: string, s: string, off: nat, end: nat)
    requires !ClosesConnection(head, verb) && PlainlyFramed(head) && FitsInt64(RfcFraming(head, verb)) && off <= |s|
    requires BodyStands(RfcFraming(head, verb), s, off, end)
    ensures Drained(CodeFraming(head, verb), s, off) == Some(end)
  {
    hide ClosesConnection, PlainlyFramed, CodeFraming, BodyOk, EncodeBody, Stands, Chunks, Trailers;
    PlainFramingsAgree(head, verb);
    var framing := RfcFraming(head, verb);
    hide RfcFraming;
    if framing.Chunked? {
      var b :| BodyOk(b) && Stands(s, off, EncodeBody(b)) && end == off + |EncodeBody(b)|;
      ChunkedIsDrained(s, off, b);
    }
  }

  lemma GzipTokens()
    ensures !HasToken(["gzip"], "chunked") && !FinalIsChunked(["gzip"]) && !HasToken([], "close")
  {
    PartsOfOne("gzip");
    TrimSpaceOfTrimmed("gzip");
    assert |"gzip"| == 4 && |"chunked"| == 7;
    assert !IsToken("gzip", "chunked");
    assert ["gzip"][1..] == [] && Codings([]) == [] && ["gzip"] + [] == ["gzip"];
    assert Codings(["gzip"]) == Parts("gzip") + Codings([]);
    hide IsToken, Parts, Codings;
    assert forall i :: 0 <= i < |["gzip"]| ==> ["gzip"][i] == "gzip";
  }

  lemma FiveIsALength()
    ensures TrimSpace("5") == "5" && ParseLength("5") == Some(5) && IsDigits("5")
  {
    TrimSpaceOfTrimmed("5");
    assert Decimal("") == 0 && "5"[..0] == "";
    assert Decimal("5") == 5;
    UnsignedLength("5");
  }

  /** A coding that is not chunked beside a length: the length is drained, the standard reads to the close. */
  lemma GzipWithLengthIsMisframed()
    ensures var head := Head(1, 1, 407, [Field("Transfer-Encoding", "gzip"), Field("Content-Length", "5")]);
      !ClosesConnection(head, "GET") && CodeFraming(head, "GET") == Length(5) && RfcFraming(head, "GET") == UntilClose
  {
    hide GetHeader, HasToken, TrimSpace, ParseLength, Codings, Decimal, Parts, IsToken, FinalIsChunked, IsDigits;
    GzipFields("Transfer-Encoding", ["gzip"]);
    GzipFields("Content-Length", ["5"]);
    GzipFields("Connection", []);
    GzipFields("Proxy-Connection", []);
    GzipTokens();
    FiveIsALength();
    assert "GET" != VERB_HEAD by { assert |"GET"| == 3 && |VERB_HEAD| == 4; }
  }

  lemma GzipFields(name: string, values: seq<string>)
    requires (name == "Transfer-Encoding" && values == ["gzip"]) || (name == "Content-Length" && values == ["5"])
      || ((name == "Connection" || name == "Proxy-Connection") && values == [])
    ensures GetHeader([Field("Transfer-Encoding", "gzip"), Field("Content-Length", "5")], name) == values
  {
    var te, cl := Field("Transfer-Encoding", "gzip"), Field("Content-Length", "5");
    assert [te, cl] == [te] + [cl];
    GetConcat([te], [cl], name);
    GetOne(te, name);
    GetOne(cl, name);
    assert |"Transfer-Encoding"| == 17 && |"Content-Length"| == 14 && |"Connection"| == 10 && |"Proxy-Connection"| == 16;
    assert EqualFold(te.name, name) == (name == "Transfer-Encoding") && EqualFold(cl.name, name) == (name == "Content-Length");
    hide GetHeader, EqualFold;
    assert values == [] || values == [values[0]];
  }
}
