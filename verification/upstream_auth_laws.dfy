/** What the rules of the exchange mean for the events themselves. */
module UpstreamAuthLaws {
  import opened Text
  import opened HttpGrammar
  import opened UpstreamHeaders
  import opened UpstreamAuth

  /** What an observer knows after the first `n` events. */
  ghost function Known(r: Rules, es: seq<Event>, n: nat): Seen
    requires n <= |es|
  {
    Watch(r, NOTHING_SEEN, es[..n])
  }

  lemma {:induction false} ObeysPart(r: Rules, m: Seen, es: seq<Event>, n: nat)
    requires n <= |es| && Obeys(r, m, es)
    ensures Obeys(r, m, es[..n])
    decreases |es|
  {
    hide Allowed, See;
    if n > 0 {
      assert es[..n][1..] == es[1..][..n - 1];
      ObeysPart(r, See(r, m, es[0]), es[1..], n - 1);
    }
  }

  lemma KnownStep(r: Rules, es: seq<Event>, n: nat)
    requires n < |es| && Obeys(r, NOTHING_SEEN, es)
    ensures Known(r, es, n + 1) == See(r, Known(r, es, n), es[n]) && Allowed(r, Known(r, es, n), es[n])
  {
    hide Allowed, See, Obeys, Watch;
    ObeysPart(r, NOTHING_SEEN, es, n + 1);
    assert es[..n + 1] == es[..n] + [es[n]];
    WatchSnoc(r, NOTHING_SEEN, es[..n], es[n]);
  }

  lemma KnownFirst(r: Rules, es: seq<Event>)
    ensures Known(r, es, 0) == NOTHING_SEEN
  {
  }

  lemma KnownLast(r: Rules, es: seq<Event>)
    ensures Known(r, es, |es|) == Watch(r, NOTHING_SEEN, es)
  {
    assert es[..|es|] == es;
  }

  // ---- bounds and balance --------------------------------------------------------------

  function Count(es: seq<Event>, n: nat, p: Event -> bool): nat
    requires n <= |es|
  {
    if n == 0 then 0 else Count(es, n - 1, p) + if p(es[n - 1]) then 1 else 0
  }

  predicate IsWrite(e: Event) { e.Wrote? }
  predicate IsConnect(e: Event) { e.Connected? }
  predicate IsClose(e: Event) { e.Closed? }
  predicate IsCreate(e: Event) { e.Created? }
  predicate IsRelease(e: Event) { e.Released? }

  predicate Balanced(es: seq<Event>, n: nat, m: Seen)
    requires n <= |es|
  {
    && m.writes == Count(es, n, IsWrite) <= 8
    && m.conns == Count(es, n, IsConnect) <= 3
    && Count(es, n, IsConnect) == Count(es, n, IsClose) + (if m.open.Some? then 1 else 0)
    && Count(es, n, IsCreate) == Count(es, n, IsRelease) + (if m.live.Some? then 1 else 0)
  }

  function One(p: bool): nat {
    if p then 1 else 0
  }

  lemma SeeConnections(r: Rules, m: Seen, e: Event)
    ensures var n := See(r, m, e);
      && n.writes == m.writes + One(e.Wrote?) && n.conns == m.conns + One(e.Connected?)
      && n.open == (if e.Connected? then Some(m.conns) else if e.Closed? then None else m.open)
  {
    hide Hear;
  }

  lemma SeeContexts(r: Rules, m: Seen, e: Event)
    ensures var n := See(r, m, e);
      && (e.Created? ==> n.live.Some? && (m.open.Some? ==> n.home == m.open.value))
      && (e.Released? ==> n.live.None?)
      && (!e.Created? && !e.Released? ==> n.live == m.live)
      && (!e.Created? ==> n.home == m.home && n.package == m.package)
      && n.made == (if e.Created? || e.Released? then {} else if e.Updated? && e.computed.Computed? then m.made + {e.computed.token} else m.made)
  {
    hide Hear;
  }

  lemma AllowedWire(r: Rules, m: Seen, e: Event)
    requires Allowed(r, m, e)
    ensures e.Wrote? ==> m.writes < 8
    ensures e.Connected? ==> m.conns < 3 && m.open.None?
    ensures e.Closed? ==> m.open.Some?
    ensures e.Created? ==> m.live.None? && m.open.Some?
    ensures e.Released? ==> m.live.Some?
    ensures e.Created? || e.CreateFailed? ==> m.package.Some? ==> m.package == Some(e.package)
  {
    hide Accounted, Backed, Offered, Bears, NothingUsable;
  }

  /** What one event changes of connections, contexts and counts. */
  lemma SeeWire(r: Rules, m: Seen, e: Event)
    requires Allowed(r, m, e)
    ensures var n := See(r, m, e);
      && n.writes == m.writes + One(e.Wrote?) && n.conns == m.conns + One(e.Connected?)
      && n.open == (if e.Connected? then Some(m.conns) else if e.Closed? then None else m.open)
      && (e.Created? ==> n.live.Some? && m.open.Some? && n.home == m.open.value)
      && (e.Released? ==> n.live.None?)
      && (!e.Created? && !e.Released? ==> n.live == m.live)
      && (!e.Created? ==> n.home == m.home && n.package == m.package)
      && n.made == (if e.Created? || e.Released? then {} else if e.Updated? && e.computed.Computed? then m.made + {e.computed.token} else m.made)
    ensures e.Wrote? ==> m.writes < 8
    ensures e.Connected? ==> m.conns < 3 && m.open.None?
    ensures e.Closed? ==> m.open.Some?
    ensures e.Created? ==> m.live.None?
    ensures e.Released? ==> m.live.Some?
    ensures e.Created? || e.CreateFailed? ==> m.package.Some? ==> m.package == Some(e.package)
  {
    hide See, Allowed;
    SeeConnections(r, m, e);
    SeeContexts(r, m, e);
    AllowedWire(r, m, e);
  }

  lemma {:induction false} RunIsBalanced(r: Rules, es: seq<Event>, n: nat)
    requires n <= |es| && Obeys(r, NOTHING_SEEN, es)
    ensures Balanced(es, n, Known(r, es, n))
  {
    if n == 0 {
      KnownFirst(r, es);
    } else {
      RunIsBalanced(r, es, n - 1);
      KnownStep(r, es, n - 1);
      SeeWire(r, Known(r, es, n - 1), es[n - 1]);
      hide Obeys, Known, Allowed, See;
    }
  }

  /** At most eight requests over at most three connections; as many closes as connections, as many releases as contexts. */
  lemma BoundedAndBalanced(r: Rules, es: seq<Event>)
    requires Obeys(r, NOTHING_SEEN, es)
    requires Watch(r, NOTHING_SEEN, es).open.None? && Watch(r, NOTHING_SEEN, es).live.None?
    ensures Count(es, |es|, IsWrite) <= 8 && Count(es, |es|, IsConnect) <= 3
    ensures Count(es, |es|, IsClose) == Count(es, |es|, IsConnect) && Count(es, |es|, IsRelease) == Count(es, |es|, IsCreate)
  {
    RunIsBalanced(r, es, |es|);
    KnownLast(r, es);
    hide Obeys, Watch, Count;
  }

  // ---- each connection closed once, each context released once ----------------------------

  /** No event of `from..to` opens or closes a connection. */
  predicate NoDial(es: seq<Event>, from: nat, to: nat)
    requires to <= |es|
  {
    forall k :: from <= k < to ==> !es[k].Connected? && !es[k].Closed?
  }

  predicate NoContext(es: seq<Event>, from: nat, to: nat)
    requires to <= |es|
  {
    forall k :: from <= k < to ==> !es[k].Created? && !es[k].Released?
  }

  lemma {:induction false} OpenUntil(r: Rules, es: seq<Event>, i: nat, n: nat) returns (j: nat)
    requires i < n <= |es| && Obeys(r, NOTHING_SEEN, es) && es[i].Connected?
    ensures i < j <= n && NoDial(es, i + 1, j) && (j < n ==> es[j].Closed?) && (j == n ==> Known(r, es, n).open.Some?)
    decreases n
  {
    if n == i + 1 {
      KnownStep(r, es, i);
      j := n;
    } else {
      j := OpenUntil(r, es, i, n - 1);
      KnownStep(r, es, n - 1);
      SeeWire(r, Known(r, es, n - 1), es[n - 1]);
      hide Obeys, Known, See, Allowed;
      if j == n - 1 && !es[n - 1].Closed? { j := n; }
    }
  }

  /** A connection is closed before the next is opened, and before the run is over. */
  lemma ConnectionClosedOnce(r: Rules, es: seq<Event>, i: nat)
    requires Obeys(r, NOTHING_SEEN, es) && Watch(r, NOTHING_SEEN, es).open.None? && i < |es| && es[i].Connected?
    ensures exists j :: i < j < |es| && es[j].Closed? && NoDial(es, i + 1, j)
  {
    var j := OpenUntil(r, es, i, |es|);
    KnownLast(r, es);
    hide Obeys, Watch, Known;
    assert j < |es| && es[j].Closed?;
  }

  lemma {:induction false} LiveUntil(r: Rules, es: seq<Event>, i: nat, n: nat) returns (j: nat)
    requires i < n <= |es| && Obeys(r, NOTHING_SEEN, es) && es[i].Created?
    ensures i < j <= n && NoContext(es, i + 1, j) && (j < n ==> es[j].Released?) && (j == n ==> Known(r, es, n).live.Some?)
    decreases n
  {
    if n == i + 1 {
      KnownStep(r, es, i);
      j := n;
    } else {
      j := LiveUntil(r, es, i, n - 1);
      KnownStep(r, es, n - 1);
      SeeWire(r, Known(r, es, n - 1), es[n - 1]);
      hide Obeys, Known, See, Allowed;
      if j == n - 1 && !es[n - 1].Released? { j := n; }
    }
  }

  /** A context is released before the next is created, and before the run is over. */
  lemma ContextReleasedOnce(r: Rules, es: seq<Event>, i: nat)
    requires Obeys(r, NOTHING_SEEN, es) && Watch(r, NOTHING_SEEN, es).live.None? && i < |es| && es[i].Created?
    ensures exists j :: i < j < |es| && es[j].Released? && NoContext(es, i + 1, j)
  {
    var j := LiveUntil(r, es, i, |es|);
    KnownLast(r, es);
    hide Obeys, Watch, Known;
    assert j < |es| && es[j].Released?;
  }

  // ---- where tokens come from ---------------------------------------------------------------

  /** Event `j` computed this token. */
  predicate Computes(e: Event, t: Token) {
    e.Updated? && e.computed.Computed? && e.computed.token == t
  }

  /** Event `c` made the live context, on the connection still open if the observer says so, and everything computed came after it. */
  predicate MadeAt(es: seq<Event>, c: nat, n: nat, m: Seen)
    requires n <= |es|
  {
    && c < n && es[c].Created? && m.package == Some(es[c].package) && NoContext(es, c + 1, n)
    && m.home < m.conns
    && (m.open == Some(m.home) ==> NoDial(es, c + 1, n))
    && (m.open.Some? ==> m.open.value == m.conns - 1)
    && (forall t :: t in m.made ==> exists j :: c < j < n && Computes(es[j], t))
  }

  lemma {:induction false} OpenIsLast(r: Rules, es: seq<Event>, n: nat)
    requires n <= |es| && Obeys(r, NOTHING_SEEN, es)
    ensures var m := Known(r, es, n); m.open.Some? ==> m.open.value == m.conns - 1
  {
    if n == 0 {
      KnownFirst(r, es);
    } else {
      OpenIsLast(r, es, n - 1);
      KnownStep(r, es, n - 1);
      SeeWire(r, Known(r, es, n - 1), es[n - 1]);
      hide Obeys, Known, See, Allowed;
    }
  }

  lemma ComputedLater(es: seq<Event>, c: nat, n: nat, made: set<Token>)
    requires c < n < |es| && forall t :: t in made ==> exists j :: c < j < n && Computes(es[j], t)
    ensures forall t :: t in made || Computes(es[n], t) ==> exists j :: c < j < n + 1 && Computes(es[j], t)
  {
    hide Computes;
    forall t | t in made || Computes(es[n], t) ensures exists j :: c < j < n + 1 && Computes(es[j], t) {
      if t in made {
        var j :| c < j < n && Computes(es[j], t);
        assert c < j < n + 1;
      }
    }
  }

  lemma MadeLater(r: Rules, es: seq<Event>, c: nat, n: nat, before: Seen)
    requires n < |es| && MadeAt(es, c, n, before) && before.live.Some? && Allowed(r, before, es[n])
    requires var m := See(r, before, es[n]); m.live.Some? && !es[n].Created? && (m.open.Some? ==> m.open.value == m.conns - 1)
    ensures MadeAt(es, c, n + 1, See(r, before, es[n]))
  {
    var m, e := See(r, before, es[n]), es[n];
    SeeWire(r, before, e);
    hide See, Allowed;
    ComputedLater(es, c, n, before.made);
    assert forall t :: t in m.made ==> t in before.made || Computes(e, t);
    hide Computes;
  }

  lemma {:induction false} LiveIsMade(r: Rules, es: seq<Event>, n: nat) returns (c: nat)
    requires n <= |es| && Obeys(r, NOTHING_SEEN, es)
    ensures Known(r, es, n).live.Some? ==> MadeAt(es, c, n, Known(r, es, n))
  {
    c := 0;
    if n == 0 {
      KnownFirst(r, es);
    } else {
      c := LiveIsMade(r, es, n - 1);
      KnownStep(r, es, n - 1);
      OpenIsLast(r, es, n - 1);
      OpenIsLast(r, es, n);
      var before, m, e := Known(r, es, n - 1), Known(r, es, n), es[n - 1];
      SeeWire(r, Known(r, es, n - 1), es[n - 1]);
      hide Obeys, Known, See, Allowed, Computes;
      if e.Created? {
        c := n - 1;
      } else if m.live.Some? {
        hide MadeAt;
        MadeLater(r, es, c, n - 1, before);
      }
    }
  }

  /** Event `c` creates a context of this package and event `j` computes the token from it; neither connection nor context changes up to `i`. */
  predicate ComesFrom(es: seq<Event>, c: nat, j: nat, i: nat, cred: Credential)
    requires i <= |es|
  {
    c < j < i && es[c] == Created(cred.package) && Computes(es[j], cred.token) && NoDial(es, c + 1, i) && NoContext(es, c + 1, i)
  }

  /**
   A token sent was computed by the context live at the time, which was created for the connection it is sent on:
   since the creation there has been no other context and no other connection. Its package is that context's.
   */
  lemma TokensAreTheConnections(r: Rules, es: seq<Event>, i: nat, k: nat)
    requires Obeys(r, NOTHING_SEEN, es) && i < |es| && es[i].Wrote? && k < |es[i].credentials|
    ensures exists c: nat, j: nat :: ComesFrom(es, c, j, i, es[i].credentials[k])
  {
    KnownStep(r, es, i);
    var c := LiveIsMade(r, es, i);
    var m := Known(r, es, i);
    hide Obeys, Known, Accounted;
    var cred := es[i].credentials[k];
    assert cred.token in m.made && m.live.Some? && m.package == Some(cred.package);
    var j: nat :| c < j < i && Computes(es[j], cred.token);
    assert ComesFrom(es, c, j, i, cred);
  }

  /** Event `j` is the head last read on the open connection, and the offers are its. */
  predicate HeardAt(r: Rules, es: seq<Event>, j: nat, n: nat, m: Seen)
    requires n <= |es|
  {
    && j < n && es[j].Read? && es[j].reading.Answered? && m.talk.offers == OffersOf(r, es[j].reading.head)
    && forall k :: j < k < n ==> !es[k].Connected? && !es[k].Closed? && !es[k].Wrote?
  }

  lemma HeardLater(r: Rules, es: seq<Event>, j: nat, n: nat, before: Seen)
    requires n < |es| && HeardAt(r, es, j, n, before) && See(r, before, es[n]).talk.offers == before.talk.offers
    requires !es[n].Connected? && !es[n].Closed? && !es[n].Wrote?
    ensures HeardAt(r, es, j, n + 1, See(r, before, es[n]))
  {
    hide See, OffersOf;
  }

  lemma HeardNow(r: Rules, es: seq<Event>, j: nat, before: Seen)
    requires j < |es| && es[j].Read? && es[j].reading.Answered? && See(r, before, es[j]).talk.offers == OffersOf(r, es[j].reading.head)
    ensures HeardAt(r, es, j, j + 1, See(r, before, es[j]))
  {
    hide See, OffersOf;
  }

  lemma OffersChange(r: Rules, m: Seen, e: Event)
    ensures See(r, m, e).talk.offers != [] && !(e.Read? && e.reading.Answered?) ==>
      See(r, m, e).talk.offers == m.talk.offers && !e.Connected? && !e.Closed? && !e.Wrote?
    ensures e.Read? && e.reading.Answered? ==> See(r, m, e).talk.offers == OffersOf(r, e.reading.head)
  {
    hide GetHeader;
  }

  lemma {:induction false} OffersAreHeard(r: Rules, es: seq<Event>, n: nat) returns (j: nat)
    requires n <= |es| && Obeys(r, NOTHING_SEEN, es)
    ensures Known(r, es, n).talk.offers != [] ==> HeardAt(r, es, j, n, Known(r, es, n))
  {
    j := 0;
    if n == 0 {
      KnownFirst(r, es);
    } else {
      j := OffersAreHeard(r, es, n - 1);
      KnownStep(r, es, n - 1);
      hide *;
      var before, e := Known(r, es, n - 1), es[n - 1];
      OffersChange(r, before, e);
      if e.Read? && e.reading.Answered? {
        j := n - 1;
        HeardNow(r, es, j, before);
      } else if See(r, before, e).talk.offers != [] {
        HeardLater(r, es, j, n - 1, before);
      }
    }
  }

  /** Some field of this name offers this token for this package. */
  predicate OfferedIn(codec: Codec, fields: seq<Field>, name: string, p: Package, token: Token) {
    exists i :: 0 <= i < |fields| && EqualFold(fields[i].name, name) && codec.parse(Scheme(fields[i].value)) == Some(p)
      && ServerToken(codec, fields[i].value) == Some(token)
  }

  /** A head that asks for authentication and offers this token for this package where its status says. */
  predicate OffersToken(r: Rules, head: Head, p: Package, token: Token) {
    || (head.status == 407 && OfferedIn(r.codec, head.fields, "Proxy-Authenticate", p, token))
    || (head.status == 401 && r.treat401 && OfferedIn(r.codec, head.fields, "WWW-Authenticate", p, token))
  }

  lemma {:induction false} HeaderAmong(fields: seq<Field>, name: string, v: string) returns (i: nat)
    requires v in GetHeader(fields, name)
    ensures i < |fields| && EqualFold(fields[i].name, name) && fields[i].value == v
  {
    hide EqualFold;
    if EqualFold(fields[0].name, name) && fields[0].value == v {
      i := 0;
    } else {
      i := HeaderAmong(fields[1..], name, v);
      i := i + 1;
    }
  }

  lemma OffersAreFields(r: Rules, head: Head, p: Package, token: Token)
    requires Offered(r.codec, OffersOf(r, head), p, token)
    ensures OffersToken(r, head, p, token)
  {
    var offers, name := OffersOf(r, head), if head.status == 407 then "Proxy-Authenticate" else "WWW-Authenticate";
    assert Asks(r, head) && offers == GetHeader(head.fields, name);
    hide ServerToken, Scheme, GetHeader, EqualFold, OffersOf;
    var k :| 0 <= k < |offers| && r.codec.parse(Scheme(offers[k])) == Some(p) && ServerToken(r.codec, offers[k]) == Some(token);
    var i := HeaderAmong(head.fields, name, offers[k]);
    assert OfferedIn(r.codec, head.fields, name, p, token);
  }

  /** Event `j` is a head that offers this token, and up to `i` the connection stays and nothing more is written. */
  predicate OffersUpTo(r: Rules, es: seq<Event>, j: nat, i: nat, p: Package, token: Token)
    requires i <= |es|
  {
    && j < i && es[j].Read? && es[j].reading.Answered? && OffersToken(r, es[j].reading.head, p, token)
    && forall k :: j < k < i ==> !es[k].Connected? && !es[k].Closed? && !es[k].Wrote?
  }

  /**
   A server token fed to a context was offered for that context's package, in `Proxy-Authenticate` of a 407 or in `WWW-Authenticate` of
   a 401, by a challenge read on the same connection in answer to the request last sent.
   */
  lemma ServerTokensAreTheConnections(r: Rules, es: seq<Event>, i: nat)
    requires Obeys(r, NOTHING_SEEN, es) && i < |es| && es[i].Updated? && es[i].input != ""
    ensures exists c: nat, j: nat :: CreatedOn(es, c, i) && OffersUpTo(r, es, j, i, es[c].package, es[i].input)
  {
    KnownStep(r, es, i);
    var c := LiveIsMade(r, es, i);
    var j := OffersAreHeard(r, es, i);
    var m := Known(r, es, i);
    hide Obeys, Known, OffersOf, ServerToken, Scheme, OffersToken;
    assert m.talk.offers != [];
    assert HeardAt(r, es, j, i, m) && MadeAt(es, c, i, m);
    OffersAreFields(r, es[j].reading.head, es[c].package, es[i].input);
    assert CreatedOn(es, c, i) && OffersUpTo(r, es, j, i, es[c].package, es[i].input);
  }

  /** Event `c` creates the context live at `i`, on the connection open at `i`. */
  predicate CreatedOn(es: seq<Event>, c: nat, i: nat)
    requires i <= |es|
  {
    c < i && es[c].Created? && NoDial(es, c + 1, i) && NoContext(es, c + 1, i)
  }

  /** And the context it is fed to was created on that connection. */
  lemma UpdatesStayOnTheConnection(r: Rules, es: seq<Event>, i: nat)
    requires Obeys(r, NOTHING_SEEN, es) && i < |es| && es[i].Updated?
    ensures exists c: nat :: CreatedOn(es, c, i)
  {
    KnownStep(r, es, i);
    var c := LiveIsMade(r, es, i);
    hide Obeys, Known, Offered;
    assert CreatedOn(es, c, i);
  }

  // ---- one package ----------------------------------------------------------------------------

  lemma {:induction false} PackageStays(r: Rules, es: seq<Event>, i: nat, n: nat)
    requires i < n <= |es| && Obeys(r, NOTHING_SEEN, es) && es[i].Created?
    ensures Known(r, es, n).package == Some(es[i].package)
    decreases n
  {
    KnownStep(r, es, n - 1);
    if n > i + 1 { PackageStays(r, es, i, n - 1); }
    SeeWire(r, Known(r, es, n - 1), es[n - 1]);
      hide Obeys, Known, See, Allowed;
  }

  /** Every context of a run is of the same package. */
  lemma OnePackage(r: Rules, es: seq<Event>, i: nat, k: nat)
    requires Obeys(r, NOTHING_SEEN, es) && i < k < |es| && es[i].Created? && (es[k].Created? || es[k].CreateFailed?)
    ensures es[k].package == es[i].package
  {
    PackageStays(r, es, i, k);
    KnownStep(r, es, k);
    SeeWire(r, Known(r, es, k), es[k]);
      hide Obeys, Known, See, Allowed;
  }

  // ---- requests that must not be repeated blindly --------------------------------------------------

  predicate IsChallenge(r: Rules, e: Event) {
    e.Read? && e.reading.Answered? && (e.reading.head.status == 407 || (e.reading.head.status == 401 && r.treat401))
  }

  lemma {:induction false} ChallengedSince(r: Rules, es: seq<Event>, i: nat, n: nat) returns (j: nat)
    requires i < n <= |es| && Obeys(r, NOTHING_SEEN, es) && es[i].Wrote? && forall k :: i < k < n ==> !es[k].Wrote?
    ensures Known(r, es, n).talk.challenged ==> i < j < n && IsChallenge(r, es[j])
    decreases n
  {
    j := i;
    KnownStep(r, es, n - 1);
    if n > i + 1 {
      j := ChallengedSince(r, es, i, n - 1);
      hide Obeys, Known, Allowed, OffersOf;
      if es[n - 1].Read? && es[n - 1].reading.Answered? { j := n - 1; }
    }
    hide Obeys, Known, Allowed, OffersOf;
  }

  lemma {:induction false} WrittenBefore(r: Rules, es: seq<Event>, i: nat, n: nat)
    requires i < n <= |es| && Obeys(r, NOTHING_SEEN, es) && es[i].Wrote?
    ensures Known(r, es, n).writes > 0
    decreases n
  {
    KnownStep(r, es, n - 1);
    if n > i + 1 { WrittenBefore(r, es, i, n - 1); }
    SeeWire(r, Known(r, es, n - 1), es[n - 1]);
    hide Obeys, Known, Allowed, See;
  }

  /** A request that cannot be restarted is sent again only after its copy before was answered by a challenge. */
  lemma UnsafeOnlyAfterChallenge(r: Rules, es: seq<Event>, i: nat, k: nat)
    requires Obeys(r, NOTHING_SEEN, es) && !r.restartable
    requires i < k < |es| && es[i].Wrote? && es[k].Wrote? && forall j :: i < j < k ==> !es[j].Wrote?
    ensures exists j :: i < j < k && IsChallenge(r, es[j])
  {
    KnownStep(r, es, k);
    WrittenBefore(r, es, i, k);
    var j := ChallengedSince(r, es, i, k);
    hide Obeys, Known, Accounted, Backed;
    assert i < j < k && IsChallenge(r, es[j]);
  }

  /** What is sent is the client's copy made to keep the connection, and tokens of the run: nothing else. */
  lemma SentIsAccounted(r: Rules, es: seq<Event>, i: nat)
    requires Obeys(r, NOTHING_SEEN, es) && i < |es| && es[i].Wrote?
    ensures Accounted(r.codec, r.client, es[i].fields, es[i].credentials)
  {
    KnownStep(r, es, i);
    hide Obeys, Known;
  }

  // ---- what answers a challenge, and what is forwarded --------------------------------------------------

  /** Exactly one field has this name, case aside, and it is this one. */
  predicate OneField(fields: seq<Field>, name: string, value: string) {
    exists k :: 0 <= k < |fields| && fields[k] == Field(name, value)
      && forall m :: 0 <= m < |fields| && m != k ==> !EqualFold(fields[m].name, name)
  }

  lemma {:induction false} HeaderOnce(fields: seq<Field>, name: string, a: nat, b: nat)
    requires |GetHeader(fields, name)| <= 1 && a < |fields| && b < |fields| && EqualFold(fields[a].name, name) && EqualFold(fields[b].name, name)
    ensures a == b
  {
    hide EqualFold;
    if a > 0 && b > 0 {
      HeaderOnce(fields[1..], name, a - 1, b - 1);
    } else if a != b {
      HeaderFound(fields[1..], name, if a == 0 then b - 1 else a - 1);
    }
  }

  lemma {:induction false} HeaderFound(fields: seq<Field>, name: string, a: nat)
    requires a < |fields| && EqualFold(fields[a].name, name)
    ensures GetHeader(fields, name) != []
  {
    hide EqualFold;
    if a > 0 { HeaderFound(fields[1..], name, a - 1); }
  }

  lemma BearsIsOne(fields: seq<Field>, name: string, value: string)
    requires GetHeader(fields, name) == [value] && Field(name, value) in fields
    ensures OneField(fields, name, value)
  {
    hide EqualFold, GetHeader;
    FoldIsReflexive(name);
    var k :| 0 <= k < |fields| && fields[k] == Field(name, value);
    forall m | 0 <= m < |fields| && m != k ensures !EqualFold(fields[m].name, name) {
      if EqualFold(fields[m].name, name) { HeaderOnce(fields, name, k, m); }
    }
  }

  predicate LastChallenge(r: Rules, es: seq<Event>, j: nat, i: nat)
    requires i <= |es|
  {
    j < i && IsChallenge(r, es[j]) && es[j].Read? && es[j].reading.Answered? && forall k :: j < k < i ==> !IsChallenge(r, es[k])
  }

  predicate LastCreated(es: seq<Event>, c: nat, i: nat)
    requires i <= |es|
  {
    c < i && es[c].Created? && forall k :: c < k < i ==> !es[k].Created?
  }

  predicate IsComputed(e: Event) {
    e.Updated? && e.computed.Computed?
  }

  predicate LastComputed(es: seq<Event>, u: nat, i: nat)
    requires i <= |es|
  {
    u < i && IsComputed(es[u]) && forall k :: u < k < i ==> !IsComputed(es[k])
  }

  /** What one event adds to what is known of challenges, contexts and tokens. */
  lemma SeeKnows(r: Rules, m: Seen, e: Event)
    ensures var n := See(r, m, e);
      && n.talk.asked == (if IsChallenge(r, e) then Some(e.reading.head.status) else m.talk.asked)
      && n.package == (if e.Created? then Some(e.package) else m.package)
      && n.talk.complete == (if IsComputed(e) then e.computed.complete else m.talk.complete)
      && n.talk.last == (if IsComputed(e) then Some(e.computed.token) else if IsChallenge(r, e) || e.Created? then None else m.talk.last)
      && (n.talk.heard ==> (e.Read? && e.reading.Answered?) || (m.talk.heard && !e.Wrote? && !e.Connected? && !e.Closed?))
      && (e.Read? && e.reading.Answered? ==> n.talk.heard && n.talk.challenged == IsChallenge(r, e))
      && (!(e.Read? && e.reading.Answered?) && !e.Wrote? ==> n.talk.challenged == m.talk.challenged)
      && (n.talk.due ==> (e.Read? && e.reading.Answered? && !n.talk.challenged) || (m.talk.due && !e.Forwarded?))
      && (!(e.Read? && e.reading.Answered?) && n.talk.heard ==> n.talk.offers == m.talk.offers)
  {
    hide OffersOf;
  }

  lemma ChallengeIsRead(r: Rules, e: Event)
    requires IsChallenge(r, e)
    ensures e.Read? && e.reading.Answered?
  {
  }

  lemma {:induction false} AskedIsHeard(r: Rules, es: seq<Event>, n: nat) returns (j: nat)
    requires n <= |es| && Obeys(r, NOTHING_SEEN, es)
    ensures var m := Known(r, es, n); m.talk.asked.Some? ==> LastChallenge(r, es, j, n) && m.talk.asked == Some(es[j].reading.head.status)
    ensures Known(r, es, n).talk.asked.None? ==> forall k :: 0 <= k < n ==> !IsChallenge(r, es[k])
  {
    j := 0;
    if n == 0 {
      KnownFirst(r, es);
    } else {
      j := AskedIsHeard(r, es, n - 1);
      KnownStep(r, es, n - 1);
      SeeKnows(r, Known(r, es, n - 1), es[n - 1]);
      if IsChallenge(r, es[n - 1]) { ChallengeIsRead(r, es[n - 1]); }
      hide Obeys, Known, Allowed, See, IsChallenge;
      if IsChallenge(r, es[n - 1]) { j := n - 1; }
    }
  }

  lemma {:induction false} PackageIsCreated(r: Rules, es: seq<Event>, n: nat) returns (c: nat)
    requires n <= |es| && Obeys(r, NOTHING_SEEN, es)
    ensures var m := Known(r, es, n); m.package.Some? ==> LastCreated(es, c, n) && m.package == Some(es[c].package)
  {
    c := 0;
    if n == 0 {
      KnownFirst(r, es);
    } else {
      c := PackageIsCreated(r, es, n - 1);
      KnownStep(r, es, n - 1);
      SeeKnows(r, Known(r, es, n - 1), es[n - 1]);
      hide Obeys, Known, Allowed, See;
      if es[n - 1].Created? { c := n - 1; }
    }
  }

  /** The token known is the one computed last, and no challenge and no context came after it. */
  lemma {:induction false} LastIsComputed(r: Rules, es: seq<Event>, n: nat) returns (u: nat)
    requires n <= |es| && Obeys(r, NOTHING_SEEN, es)
    ensures var m := Known(r, es, n); m.talk.last.Some? ==>
      LastComputed(es, u, n) && m.talk.last == Some(es[u].computed.token) && forall k :: u < k < n ==> !IsChallenge(r, es[k]) && !es[k].Created?
  {
    u := 0;
    if n == 0 {
      KnownFirst(r, es);
    } else {
      u := LastIsComputed(r, es, n - 1);
      KnownStep(r, es, n - 1);
      SeeKnows(r, Known(r, es, n - 1), es[n - 1]);
      hide Obeys, Known, Allowed, See;
      if IsComputed(es[n - 1]) { u := n - 1; }
    }
  }

  /** Event `j` is the last challenge, `c` makes the last context and `u` computes the last token, which is what event `i` sends. */
  predicate AnswersChallenge(r: Rules, es: seq<Event>, j: nat, c: nat, u: nat, i: nat)
    requires i < |es| && es[i].Wrote?
  {
    && LastChallenge(r, es, j, i) && LastCreated(es, c, i) && LastComputed(es, u, i) && j < u && c < u
    && OneField(es[i].fields, if es[j].reading.head.status == 407 then "Proxy-Authorization" else "Authorization",
                r.codec.name(es[c].package) + (" " + r.codec.encode(es[u].computed.token)))
  }

  /**
   A request sent again answers the last challenge there was: exactly one field, called `Proxy-Authorization` for a 407 and
   `Authorization` for a 401, made of the package of the last context and the last token, which was computed after both.
   */
  lemma AnswersTheLastChallenge(r: Rules, es: seq<Event>, h: nat, i: nat)
    requires Obeys(r, NOTHING_SEEN, es) && h < i < |es| && es[h].Wrote? && es[i].Wrote?
    ensures exists j: nat, c: nat, u: nat :: AnswersChallenge(r, es, j, c, u, i)
  {
    hide *;
    WrittenBefore(r, es, h, i);
    KnownStep(r, es, i);
    var j := AskedIsHeard(r, es, i);
    var c := PackageIsCreated(r, es, i);
    var u := LastIsComputed(r, es, i);
    BearsMeans(r, Known(r, es, i), es[i]);
    AnswersIs(r, es, j, c, u, i);
  }

  lemma AnswersIs(r: Rules, es: seq<Event>, j: nat, c: nat, u: nat, i: nat)
    requires i < |es| && es[i].Wrote? && LastChallenge(r, es, j, i) && LastCreated(es, c, i) && LastComputed(es, u, i)
    requires forall k :: u < k < i ==> !IsChallenge(r, es[k]) && !es[k].Created?
    requires OneField(es[i].fields, if es[j].reading.head.status == 407 then "Proxy-Authorization" else "Authorization",
                      r.codec.name(es[c].package) + (" " + r.codec.encode(es[u].computed.token)))
    ensures AnswersChallenge(r, es, j, c, u, i)
  {
    hide OneField;
  }

  lemma BearsMeans(r: Rules, m: Seen, e: Event)
    requires e.Wrote? && m.writes > 0 && Allowed(r, m, e)
    ensures m.talk.asked.Some? && m.package.Some? && m.talk.last.Some?
    ensures OneField(e.fields, if m.talk.asked.value == 407 then "Proxy-Authorization" else "Authorization",
                     r.codec.name(m.package.value) + (" " + r.codec.encode(m.talk.last.value)))
  {
    hide Accounted, Backed, GetHeader, OneField;
    BearsIsOne(e.fields, AnswerField(m.talk.asked.value), r.codec.name(m.package.value) + (" " + r.codec.encode(m.talk.last.value)));
  }

  /** Event `j` is a head that is no challenge. */
  predicate IsFinal(r: Rules, e: Event) {
    e.Read? && e.reading.Answered? && e.reading.head.status != 407 && !(e.reading.head.status == 401 && r.treat401)
  }

  lemma {:induction false} OverForGood(r: Rules, es: seq<Event>, i: nat, n: nat)
    requires i < n <= |es| && Obeys(r, NOTHING_SEEN, es) && es[i].Forwarded?
    ensures Known(r, es, n).talk.over && forall k :: i < k < n ==> es[k].Closed? || es[k].Released?
    decreases n
  {
    KnownStep(r, es, n - 1);
    if n > i + 1 { OverForGood(r, es, i, n - 1); }
    hide Obeys, Known, Accounted, Backed, Offered, OffersOf, Bears, NothingUsable;
  }

  /** A head that is no challenge goes to the client at once, and then there is only cleaning up. */
  lemma FinalIsForwarded(r: Rules, es: seq<Event>, j: nat)
    requires Obeys(r, NOTHING_SEEN, es) && Watch(r, NOTHING_SEEN, es).open.None? && j < |es| && IsFinal(r, es[j])
    ensures j + 1 < |es| && es[j + 1].Forwarded? && forall k :: j + 1 < k < |es| ==> es[k].Closed? || es[k].Released?
  {
    KnownStep(r, es, j);
    KnownLast(r, es);
    if j + 1 < |es| {
      KnownStep(r, es, j + 1);
      DueIsForwarded(r, Known(r, es, j), es[j], es[j + 1]);
      OverForGood(r, es, j + 1, |es|);
    }
    hide Obeys, Watch, Known, Accounted, Backed, Offered, OffersOf, Bears, NothingUsable;
  }

  lemma DueIsForwarded(r: Rules, m: Seen, e: Event, next: Event)
    requires IsFinal(r, e) && Allowed(r, See(r, m, e), next)
    ensures next.Forwarded?
  {
    hide Accounted, Backed, Offered, OffersOf, Bears, NothingUsable, ClosesConnection;
  }

  /** No field of this name is of a package that may still be taken: any before there is a context, the context's afterwards. */
  predicate NoneUsable(codec: Codec, fields: seq<Field>, name: string, taken: Option<Package>) {
    forall i :: 0 <= i < |fields| && EqualFold(fields[i].name, name) ==>
      var p := codec.parse(Scheme(fields[i].value)); p.None? || (taken.Some? && taken != p)
  }

  lemma {:induction false} HeaderHolds(fields: seq<Field>, name: string, i: nat)
    requires i < |fields| && EqualFold(fields[i].name, name)
    ensures fields[i].value in GetHeader(fields, name)
  {
    hide EqualFold;
    if i > 0 { HeaderHolds(fields[1..], name, i - 1); }
  }

  lemma NothingInFields(r: Rules, head: Head, taken: Option<Package>)
    requires Asks(r, head) && NothingUsable(r.codec, taken, OffersOf(r, head))
    ensures NoneUsable(r.codec, head.fields, if head.status == 407 then "Proxy-Authenticate" else "WWW-Authenticate", taken)
  {
    var name, offers := if head.status == 407 then "Proxy-Authenticate" else "WWW-Authenticate", OffersOf(r, head);
    assert offers == GetHeader(head.fields, name);
    hide EqualFold, GetHeader, Scheme, OffersOf;
    forall i | 0 <= i < |head.fields| && EqualFold(head.fields[i].name, name)
      ensures var p := r.codec.parse(Scheme(head.fields[i].value)); p.None? || (taken.Some? && taken != p)
    {
      HeaderHolds(head.fields, name, i);
      var k :| 0 <= k < |offers| && offers[k] == head.fields[i].value;
      assert !Takes(taken, None, r.codec.parse(Scheme(offers[k])));
    }
  }

  /** Event `j` is the head last read, in answer to the request sent last and on the connection still open. */
  predicate LastRead(es: seq<Event>, j: nat, n: nat)
    requires n <= |es|
  {
    && j < n && es[j].Read? && es[j].reading.Answered?
    && forall k :: j < k < n ==> !es[k].Wrote? && !es[k].Connected? && !es[k].Closed? && !(es[k].Read? && es[k].reading.Answered?)
  }

  lemma {:induction false} ReadLast(r: Rules, es: seq<Event>, n: nat) returns (j: nat)
    requires n <= |es| && Obeys(r, NOTHING_SEEN, es)
    ensures var m := Known(r, es, n); m.talk.heard ==>
      LastRead(es, j, n) && m.talk.challenged == IsChallenge(r, es[j]) && m.talk.offers == OffersOf(r, es[j].reading.head)
    ensures Known(r, es, n).talk.due ==> !Known(r, es, n).talk.challenged
  {
    j := 0;
    if n == 0 {
      KnownFirst(r, es);
    } else {
      j := ReadLast(r, es, n - 1);
      KnownStep(r, es, n - 1);
      SeeKnows(r, Known(r, es, n - 1), es[n - 1]);
      if es[n - 1].Read? && es[n - 1].reading.Answered? { HeardOffers(r, Known(r, es, n - 1), es[n - 1]); }
      if Known(r, es, n - 1).talk.due { DueEnds(r, Known(r, es, n - 1), es[n - 1]); }
      hide Obeys, Known, OffersOf, Allowed, See;
      if es[n - 1].Read? && es[n - 1].reading.Answered? { j := n - 1; }
    }
  }

  lemma DueEnds(r: Rules, m: Seen, e: Event)
    requires Allowed(r, m, e) && m.talk.due
    ensures e.Forwarded?
  {
    hide Accounted, Backed, Offered, OffersOf, Bears, NothingUsable, ClosesConnection;
  }

  lemma HeardOffers(r: Rules, m: Seen, e: Event)
    requires e.Read? && e.reading.Answered?
    ensures See(r, m, e).talk.offers == OffersOf(r, e.reading.head)
  {
    hide GetHeader;
  }

  lemma SeeClean(r: Rules, m: Seen, e: Event)
    ensures var n := See(r, m, e); var read := e.Read? && e.reading.Answered?;
      && (read ==> !n.talk.clean && n.talk.closing == ClosesConnection(e.reading.head, r.verb))
      && (!read && !e.Connected? ==> n.talk.closing == m.talk.closing && (n.talk.clean ==> m.talk.clean || e.Drained?))
  {
    hide OffersOf, Asks, ClosesConnection;
  }

  lemma DrainedOpen(r: Rules, m: Seen, e: Event)
    requires Allowed(r, m, e)
    ensures e.Drained? ==> !m.talk.closing
    ensures e.Wrote? ==> m.talk.clean
  {
    hide Accounted, Backed, Offered, Bears, NothingUsable;
  }

  /** Nothing is left of what was read on the open connection, and it does not close. */
  lemma {:induction false} CleanIsDrained(r: Rules, es: seq<Event>, j: nat, n: nat) returns (d: nat)
    requires j < n <= |es| && Obeys(r, NOTHING_SEEN, es) && es[j].Read? && es[j].reading.Answered?
    requires forall k :: j < k < n ==> !es[k].Connected? && !(es[k].Read? && es[k].reading.Answered?)
    ensures Known(r, es, n).talk.closing == ClosesConnection(es[j].reading.head, r.verb)
    ensures Known(r, es, n).talk.clean ==> j < d < n && es[d].Drained? && !ClosesConnection(es[j].reading.head, r.verb)
    decreases n
  {
    d := j;
    KnownStep(r, es, n - 1);
    DrainedOpen(r, Known(r, es, n - 1), es[n - 1]);
    if n > j + 1 {
      d := CleanIsDrained(r, es, j, n - 1);
      if es[n - 1].Drained? { d := n - 1; }
    }
    SeeClean(r, Known(r, es, n - 1), es[n - 1]);
    hide Obeys, Known, See, Allowed, ClosesConnection;
  }

  /**
   A request is written behind a head only on a new connection, or when that head leaves the connection open and the rest of its
   message was drained.
   */
  lemma WritesBehindTheMessage(r: Rules, es: seq<Event>, j: nat, i: nat)
    requires Obeys(r, NOTHING_SEEN, es) && j < i < |es| && es[j].Read? && es[j].reading.Answered? && es[i].Wrote?
    requires forall k :: j < k < i ==> !es[k].Connected? && !(es[k].Read? && es[k].reading.Answered?)
    ensures !ClosesConnection(es[j].reading.head, r.verb) && exists d :: j < d < i && es[d].Drained?
  {
    KnownStep(r, es, i);
    DrainedOpen(r, Known(r, es, i), es[i]);
    var d := CleanIsDrained(r, es, j, i);
    hide Obeys, Known, Allowed, ClosesConnection;
    assert j < d < i && es[d].Drained?;
  }

  /** The handshake is complete, or the head offers no package that may be taken. */
  ghost predicate NothingLeftToSay(r: Rules, es: seq<Event>, head: Head, i: nat)
    requires i <= |es|
  {
    || (exists u: nat :: LastComputed(es, u, i) && es[u].computed.complete)
    || NoneTaken(r, es, head, i)
  }

  ghost predicate NoneTaken(r: Rules, es: seq<Event>, head: Head, i: nat)
    requires i <= |es|
  {
    var name := if head.status == 407 then "Proxy-Authenticate" else "WWW-Authenticate";
    || ((forall k :: 0 <= k < i ==> !es[k].Created?) && NoneUsable(r.codec, head.fields, name, None))
    || (exists c: nat :: LastCreated(es, c, i) && NoneUsable(r.codec, head.fields, name, Some(es[c].package)))
  }

  lemma {:induction false} NoPackageNoContext(r: Rules, es: seq<Event>, n: nat)
    requires n <= |es| && Obeys(r, NOTHING_SEEN, es) && Known(r, es, n).package.None?
    ensures forall k :: 0 <= k < n ==> !es[k].Created?
  {
    if n > 0 {
      KnownStep(r, es, n - 1);
      SeeKnows(r, Known(r, es, n - 1), es[n - 1]);
      hide Obeys, Known, Allowed, See;
      NoPackageNoContext(r, es, n - 1);
    }
  }

  lemma {:induction false} CompleteIsComputed(r: Rules, es: seq<Event>, n: nat) returns (u: nat)
    requires n <= |es| && Obeys(r, NOTHING_SEEN, es)
    ensures Known(r, es, n).talk.complete ==> LastComputed(es, u, n) && es[u].computed.complete
  {
    u := 0;
    if n == 0 {
      KnownFirst(r, es);
    } else {
      u := CompleteIsComputed(r, es, n - 1);
      KnownStep(r, es, n - 1);
      SeeKnows(r, Known(r, es, n - 1), es[n - 1]);
      hide Obeys, Known, Allowed, See;
      if IsComputed(es[n - 1]) { u := n - 1; }
    }
  }

  ghost predicate ForwardedRightly(r: Rules, es: seq<Event>, j: nat, i: nat)
    requires i <= |es|
  {
    LastRead(es, j, i) && (IsFinal(r, es[j]) || NothingLeftToSay(r, es, es[j].reading.head, i))
  }

  /** What goes to the client is the head just read: one that is no challenge, or one there is nothing left to answer with. */
  lemma ForwardsOnlyTheLastWord(r: Rules, es: seq<Event>, i: nat)
    requires Obeys(r, NOTHING_SEEN, es) && i < |es| && es[i].Forwarded?
    ensures exists j: nat :: ForwardedRightly(r, es, j, i)
  {
    KnownStep(r, es, i);
    var j := ReadLast(r, es, i);
    var c := PackageIsCreated(r, es, i);
    var u := CompleteIsComputed(r, es, i);
    var m := Known(r, es, i);
    if m.package.None? { NoPackageNoContext(r, es, i); }
    hide Obeys, Known, OffersOf, NothingUsable, NoneUsable;
    var head := es[j].reading.head;
    if !IsFinal(r, es[j]) && !m.talk.complete {
      NothingInFields(r, head, m.package);
      assert NoneTaken(r, es, head, i);
    }
    assert ForwardedRightly(r, es, j, i);
  }
}
