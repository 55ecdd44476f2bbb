/**
 The upstream authentication exchange: a bounded loop over connections and authentication contexts, run against
 a gateway, a network and a security package that may answer anything and fail anywhere.
 */
module UpstreamAuth {
  import opened Text
  import opened HttpGrammar
  import opened UpstreamHeaders

  type Token = string

  datatype Package = Ntlm | Negotiate | Kerberos

  /** The names of packages on the wire, and base64. */
  datatype Codec = Codec(parse: string -> Option<Package>, name: Package -> string, decode: string -> Option<Token>, encode: Token -> string)

  datatype Reading = Answered(head: Head) | Eof | Broken

  datatype Computed = Computed(complete: bool, token: Token) | Refused

  /** What every call out of the handler answers, by how many calls came before it. */
  datatype World = World(
    connect: nat -> bool, write: nat -> bool, read: nat -> Reading, create: nat -> bool, update: nat -> Computed,
    drain: nat -> bool, browser: nat -> bool)

  // ---- challenges --------------------------------------------------------------------

  datatype Challenge = Challenge(authenticate: string, authorization: string)

  function Detect(head: Head, treat401: bool): Option<Challenge> {
    if head.status == 407 then Some(Challenge("Proxy-Authenticate", "Proxy-Authorization"))
    else if head.status == 401 && treat401 then Some(Challenge("WWW-Authenticate", "Authorization"))
    else None
  }

  /** strings.SplitN(value, " ", 2): the scheme, and what follows the first blank. */
  predicate IsNoSpace(c: char) {
    c != ' '
  }

  function Scheme(value: string): string {
    value[..Run(value, IsNoSpace)]
  }

  function Parameter(value: string): Option<string> {
    var n := Run(value, IsNoSpace);
    if n < |value| then Some(value[n + 1..]) else None
  }

  /** The token a challenge value carries: none at all, or one to decode. */
  function ServerToken(codec: Codec, value: string): Option<Token> {
    match Parameter(value)
    case None => Some("")
    case Some(p) => codec.decode(TrimSpace(p))
  }

  datatype Choice = Choice(package: Option<Package>, token: Token) | Undecodable

  predicate Takes(active: Option<Package>, selected: Option<Package>, p: Option<Package>) {
    p.Some? && (active.None? || active == p) && (selected.None? || p == Some(Ntlm))
  }

  /** The package and token taken from the offers, in order. */
  function Select(codec: Codec, active: Option<Package>, offers: seq<string>, selected: Option<Package>, token: Token): Choice {
    if offers == [] then Choice(selected, token)
    else
      var p := codec.parse(Scheme(offers[0]));
      if !Takes(active, selected, p) then Select(codec, active, offers[1..], selected, token)
      else match ServerToken(codec, offers[0])
        case None => Undecodable
        case Some(t) => Select(codec, active, offers[1..], p, t)
  }

  lemma SelectNone(codec: Codec, active: Option<Package>)
    ensures Select(codec, active, [], None, "") == Choice(None, "")
  {
  }

  /** A token some offer of this package carries. */
  predicate Offered(codec: Codec, offers: seq<string>, p: Package, token: Token) {
    exists i :: 0 <= i < |offers| && codec.parse(Scheme(offers[i])) == Some(p) && ServerToken(codec, offers[i]) == Some(token)
  }

  /** No offer is of a package that may be taken. */
  predicate NothingUsable(codec: Codec, active: Option<Package>, offers: seq<string>) {
    forall i :: 0 <= i < |offers| ==> !Takes(active, None, codec.parse(Scheme(offers[i])))
  }

  /** The package stays the active one, and NTLM is taken whenever it is offered and may be. */
  lemma {:induction false} SelectKeeps(codec: Codec, active: Option<Package>, offers: seq<string>, selected: Option<Package>, token: Token)
    requires selected.Some? && active.Some? ==> selected == active
    ensures var c := Select(codec, active, offers, selected, token);
      && (c.Choice? && c.package.Some? && active.Some? ==> c.package == active)
      && (c.Choice? && c.package.None? ==> selected.None? && c.token == token)
      && (c.Choice? && c.package.Some? ==> (c.package == selected && c.token == token) || Offered(codec, offers, c.package.value, c.token))
      && (c.Choice? && c.package.None? ==> NothingUsable(codec, active, offers))
      && (c.Choice? && active.None? && (selected == Some(Ntlm) || exists i :: 0 <= i < |offers| && codec.parse(Scheme(offers[i])) == Some(Ntlm))
        ==> c.package == Some(Ntlm))
  {
    hide ServerToken, Scheme;
    if offers != [] {
      var p, rest := codec.parse(Scheme(offers[0])), offers[1..];
      assert forall i :: 0 < i < |offers| ==> offers[i] == rest[i - 1];
      if !Takes(active, selected, p) {
        SelectKeeps(codec, active, rest, selected, token);
        OfferedLater(codec, offers);
      } else if ServerToken(codec, offers[0]).Some? {
        SelectKeeps(codec, active, rest, p, ServerToken(codec, offers[0]).value);
        OfferedLater(codec, offers);
      }
    }
  }

  lemma OfferedLater(codec: Codec, offers: seq<string>)
    requires offers != []
    ensures forall p, t :: Offered(codec, offers[1..], p, t) ==> Offered(codec, offers, p, t)
    ensures ServerToken(codec, offers[0]).Some? && codec.parse(Scheme(offers[0])).Some? ==>
      Offered(codec, offers, codec.parse(Scheme(offers[0])).value, ServerToken(codec, offers[0]).value)
  {
    hide ServerToken, Scheme;
    forall p, t | Offered(codec, offers[1..], p, t) ensures Offered(codec, offers, p, t) {
      var i :| 0 <= i < |offers[1..]| && codec.parse(Scheme(offers[1..][i])) == Some(p) && ServerToken(codec, offers[1..][i]) == Some(t);
      assert ServerToken(codec, offers[i + 1]) == Some(t);
    }
  }

  method SelectPackage(codec: Codec, active: Option<Package>, offers: seq<string>) returns (c: Choice)
    ensures c == Select(codec, active, offers, None, "")
  {
    var selected, token := None, "";
    assert offers[0..] == offers && offers[|offers|..] == [];
    hide ServerToken, Scheme;
    for i := 0 to |offers|
      invariant Select(codec, active, offers[i..], selected, token) == Select(codec, active, offers, None, "")
    {
      assert offers[i..][1..] == offers[i + 1..];
      var p := codec.parse(Scheme(offers[i]));
      if Takes(active, selected, p) {
        var t := ServerToken(codec, offers[i]);
        if t.None? {
          return Undecodable;
        }
        selected, token := p, t.value;
      }
    }
    c := Choice(selected, token);
  }

  // ---- the request being sent ---------------------------------------------------------

  /** A token the proxy put in a request. */
  datatype Credential = Credential(header: string, package: Package, token: Token)

  function Value(codec: Codec, c: Credential): string {
    codec.name(c.package) + (" " + codec.encode(c.token))
  }

  function CredentialField(codec: Codec, c: Credential): Field {
    Field(c.header, Value(codec, c))
  }

  predicate IsCredential(codec: Codec, h: Field, cs: seq<Credential>) {
    exists k :: 0 <= k < |cs| && h == CredentialField(codec, cs[k])
  }

  /** Every field sent is one of the client's copy or one of these credentials. */
  predicate Accounted(codec: Codec, client: seq<Field>, sent: seq<Field>, cs: seq<Credential>) {
    forall i :: 0 <= i < |sent| ==> sent[i] in UpstreamRequest(client) || IsCredential(codec, sent[i], cs)
  }

  lemma {:induction false} WithoutIsPart(hs: seq<Field>, name: string)
    ensures forall h :: h in Without(hs, name) ==> h in hs
  {
    hide EqualFold;
    if hs != [] { WithoutIsPart(hs[1..], name); }
  }

  lemma SetAccounted(codec: Codec, client: seq<Field>, sent: seq<Field>, cs: seq<Credential>, c: Credential)
    requires Accounted(codec, client, sent, cs)
    ensures Accounted(codec, client, SetHeader(sent, c.header, Value(codec, c)), cs + [c])
  {
    hide Value, UpstreamRequest;
    var next, more := SetHeader(sent, c.header, Value(codec, c)), cs + [c];
    WithoutIsPart(sent, c.header);
    hide Without;
    forall i | 0 <= i < |next| ensures next[i] in UpstreamRequest(client) || IsCredential(codec, next[i], more) {
      if i == |next| - 1 {
        assert next[i] == CredentialField(codec, more[|cs|]);
      } else {
        assert next[i] in Without(sent, c.header);
        var k :| 0 <= k < |sent| && sent[k] == next[i];
        if IsCredential(codec, sent[k], cs) {
          var j :| 0 <= j < |cs| && sent[k] == CredentialField(codec, cs[j]);
          assert more[j] == cs[j];
        }
      }
    }
  }

  lemma StartAccounted(codec: Codec, client: seq<Field>)
    ensures Accounted(codec, client, UpstreamRequest(client), [])
  {
    hide UpstreamRequest;
  }

  // ---- what the outside sees, and what it should ----------------------------------------

  datatype Event =
    | Connected
    | ConnectFailed
    | Closed
    | Created(package: Package)
    | CreateFailed(package: Package)
    | Released
    | Wrote(fields: seq<Field>, credentials: seq<Credential>)
    | Read(reading: Reading)
    | Updated(input: Token, computed: Computed)
    | Drained
    | Forwarded

  datatype Rules = Rules(codec: Codec, client: seq<Field>, verb: string, restartable: bool, treat401: bool)

  /**
   What an observer of the events knows: the open connection, the live context and the connection it was made
   on, the tokens that context computed and the last of them since it was made and challenged, whether the handshake is complete, whether the
   request sent last was answered on the open connection and what was offered, whether the copy of the request sent last was answered by a challenge, the status of
   the last challenge of all, whether the connection closes behind what was read and whether it stands behind it, whether an
   answer is due to the client, and whether it has been given.
   */
  datatype Seen = Seen(
    conns: nat, open: Option<nat>, writes: nat, ctxs: nat, live: Option<nat>, home: nat, made: set<Token>, package: Option<Package>, talk: Talk)

  /** What an observer knows of what was said. */
  datatype Talk = Talk(
    heard: bool, offers: seq<string>, challenged: bool, asked: Option<int>, closing: bool, clean: bool, last: Option<Token>, complete: bool,
    due: bool, over: bool)

  const NOTHING_SAID := Talk(false, [], false, None, false, false, None, false, false, false)
  const NOTHING_SEEN := Seen(0, None, 0, 0, None, 0, {}, None, NOTHING_SAID)

  /** 407 always asks for authentication, 401 where it is treated the same. */
  predicate Asks(r: Rules, head: Head) {
    head.status == 407 || (head.status == 401 && r.treat401)
  }

  /** The offers of a head that asks. */
  function OffersOf(r: Rules, head: Head): seq<string> {
    if !Asks(r, head) then [] else GetHeader(head.fields, if head.status == 407 then "Proxy-Authenticate" else "WWW-Authenticate")
  }

  /** Where a challenge of this status wants its answer. */
  function AnswerField(status: int): string {
    if status == 407 then "Proxy-Authorization" else "Authorization"
  }

  /** The one field of the name a challenge of this status asks for holds the package and the token. */
  predicate Bears(codec: Codec, fields: seq<Field>, status: int, package: Package, token: Token) {
    var value := codec.name(package) + (" " + codec.encode(token));
    GetHeader(fields, AnswerField(status)) == [value] && Field(AnswerField(status), value) in fields
  }

  function Hear(r: Rules, k: Talk, e: Event): Talk {
    match e
    case Connected => k.(heard := false, offers := [], closing := false, clean := true)
    case Closed => k.(heard := false, offers := [])
    case Created(_) => k.(last := None)
    case Wrote(_, _) => k.(heard := false, offers := [], challenged := false)
    case Read(Answered(head)) =>
      if Asks(r, head) then
        k.(heard := true, offers := OffersOf(r, head), challenged := true, asked := Some(head.status),
           closing := ClosesConnection(head, r.verb), clean := false, last := None)
      else
        k.(heard := true, offers := [], challenged := false, closing := ClosesConnection(head, r.verb), clean := false, due := true)
    case Updated(_, Computed(complete, token)) => k.(last := Some(token), complete := complete)
    case Drained => k.(clean := true)
    case Forwarded => k.(due := false, over := true)
    case _ => k
  }

  function See(r: Rules, m: Seen, e: Event): Seen {
    var talk := Hear(r, m.talk, e);
    match e
    case Connected => m.(conns := m.conns + 1, open := Some(m.conns), talk := talk)
    case Closed => m.(open := None, talk := talk)
    case Created(p) =>
      m.(ctxs := m.ctxs + 1, live := Some(m.ctxs), home := if m.open.Some? then m.open.value else 0, made := {}, package := Some(p), talk := talk)
    case Released => m.(live := None, made := {}, talk := talk)
    case Wrote(_, _) => m.(writes := m.writes + 1, talk := talk)
    case Updated(_, Computed(_, token)) => m.(made := m.made + {token}, talk := talk)
    case _ => m.(talk := talk)
  }

  /** The rules of the exchange. */
  predicate Allowed(r: Rules, m: Seen, e: Event) {
    && (m.talk.due ==> e.Forwarded?)
    && (m.talk.over ==> e.Closed? || e.Released?)
    && match e
       case Connected => m.open.None? && m.conns < 3
       case ConnectFailed => m.open.None?
       case Closed => m.open.Some?
       case Created(p) => m.open.Some? && m.live.None? && (m.package.Some? ==> m.package == Some(p))
       case CreateFailed(p) => m.open.Some? && m.live.None? && (m.package.Some? ==> m.package == Some(p))
       case Released => m.live.Some?
       case Wrote(fields, credentials) =>
         && m.open.Some? && m.talk.clean && m.writes < 8
         && (m.writes > 0 ==> m.talk.challenged || r.restartable)
         && (m.writes > 0 ==> m.talk.asked.Some? && m.package.Some? && m.talk.last.Some? && Bears(r.codec, fields, m.talk.asked.value, m.package.value, m.talk.last.value))
         && Accounted(r.codec, r.client, fields, credentials)
         && (credentials != [] ==> m.live.Some? && m.open == Some(m.home))
         && Backed(credentials, m.live, m.package, m.made)
       case Updated(input, _) =>
         m.live.Some? && m.open == Some(m.home) && (input == "" || (m.package.Some? && Offered(r.codec, m.talk.offers, m.package.value, input)))
       case Forwarded => m.open.Some? && m.talk.heard && (m.talk.due || (m.talk.challenged && (m.talk.complete || NothingUsable(r.codec, m.package, m.talk.offers))))
       case Drained => m.open.Some? && m.talk.heard && !m.talk.closing
       case _ => m.open.Some?
  }

  predicate Obeys(r: Rules, m: Seen, es: seq<Event>)
    decreases |es|
  {
    es == [] || (Allowed(r, m, es[0]) && Obeys(r, See(r, m, es[0]), es[1..]))
  }

  function Watch(r: Rules, m: Seen, es: seq<Event>): Seen
    decreases |es|
  {
    if es == [] then m else Watch(r, See(r, m, es[0]), es[1..])
  }

  lemma {:induction false} WatchSnoc(r: Rules, m: Seen, es: seq<Event>, e: Event)
    ensures Watch(r, m, es + [e]) == See(r, Watch(r, m, es), e)
    ensures Obeys(r, m, es + [e]) <==> Obeys(r, m, es) && Allowed(r, Watch(r, m, es), e)
    decreases |es|
  {
    hide Allowed, See;
    if es == [] {
      assert [] + [e] == [e] && [e][1..] == [];
    } else {
      assert (es + [e])[1..] == es[1..] + [e];
      WatchSnoc(r, See(r, m, es[0]), es[1..], e);
    }
  }

  // ---- the handler ----------------------------------------------------------------------

  /** The credentials are of the active package, and tokens the live context computed. */
  predicate Backed(cs: seq<Credential>, ctx: Option<nat>, active: Option<Package>, made: set<Token>) {
    forall k :: 0 <= k < |cs| ==> ctx.Some? && Some(cs[k].package) == active && cs[k].token in made
  }

  datatype Flow = Again | Done | Failed

  class Handler {
    const codec: Codec
    const world: World
    const client: seq<Field>
    const verb: string
    const treat401: bool

    var clock: nat
    var dials: nat
    var contexts: nat
    var conn: Option<nat>
    var ctx: Option<nat>
    var request: seq<Field>
    var active: Option<Package>
    var authorization: string
    var complete: bool
    var reconnections: nat

    ghost var credentials: seq<Credential>
    ghost var events: seq<Event>

    constructor (codec: Codec, world: World, client: seq<Field>, verb: string, treat401: bool)
      ensures this.codec == codec && this.world == world && this.client == client && this.verb == verb && this.treat401 == treat401
      ensures events == [] && dials == 0 && contexts == 0 && conn == None && ctx == None && active == None && !complete && reconnections == 0
    {
      this.codec, this.world, this.client, this.verb, this.treat401 := codec, world, client, verb, treat401;
      clock, dials, contexts, conn, ctx, request := 0, 0, 0, None, None, [];
      active, authorization, complete, reconnections := None, "", false, 0;
      credentials, events := [], [];
    }

    ghost function TheRules(): Rules {
      Rules(codec, client, verb, CanRestart(client, verb), treat401)
    }

    ghost function Now(): Seen
      reads this`events
    {
      Watch(TheRules(), NOTHING_SEEN, events)
    }

    /** Everything so far obeyed the rules, and the handler's connection and context are the open and the live ones. */
    ghost predicate InStep()
      reads this`events, this`conn, this`ctx, this`dials, this`contexts
    {
      && Obeys(TheRules(), NOTHING_SEEN, events)
      && Now().open == conn && Now().live == ctx && Now().conns == dials && Now().ctxs == contexts
    }

    ghost method Note(e: Event)
      requires Obeys(TheRules(), NOTHING_SEEN, events) && Allowed(TheRules(), Now(), e)
      modifies this`events
      ensures Obeys(TheRules(), NOTHING_SEEN, events) && Now() == See(TheRules(), old(Now()), e)
      ensures events == old(events) + [e]
    {
      WatchSnoc(TheRules(), NOTHING_SEEN, events, e);
      events := events + [e];
    }

    /** No answer is due to the client, and none has been given. */
    ghost predicate Going()
      reads this`events
    {
      !Now().talk.due && !Now().talk.over
    }

    method Connect() returns (ok: bool)
      requires InStep() && Going() && conn.None? && dials < 3
      modifies this`clock, this`conn, this`dials, this`events
      ensures InStep() && ok == conn.Some? && Now() == See(TheRules(), old(Now()), if ok then Connected else ConnectFailed)
    {
      hide Accounted, Offered, Watch, Obeys;
      ok := world.connect(clock);
      clock := clock + 1;
      if ok {
        Note(Connected);
        conn, dials := Some(dials), dials + 1;
      } else {
        Note(ConnectFailed);
      }
    }

    method CloseConnection()
      requires InStep() && conn.Some? && !Now().talk.due
      modifies this`conn, this`events
      ensures InStep() && conn == None && Now() == See(TheRules(), old(Now()), Closed)
    {
      hide Accounted, Offered, Watch, Obeys;
      Note(Closed);
      conn := None;
    }

    method ReleaseContext()
      requires InStep() && ctx.Some? && !Now().talk.due
      modifies this`ctx, this`events
      ensures InStep() && ctx == None && Now() == See(TheRules(), old(Now()), Released)
    {
      hide Accounted, Offered, Watch, Obeys;
      Note(Released);
      ctx := None;
    }

    method CreateContext(p: Package) returns (ok: bool)
      requires InStep() && Going() && conn.Some? && ctx.None? && (Now().package.Some? ==> Now().package == Some(p))
      modifies this`clock, this`ctx, this`contexts, this`events
      ensures InStep() && ok == ctx.Some? && Now() == See(TheRules(), old(Now()), if ok then Created(p) else CreateFailed(p))
    {
      hide Accounted, Offered, Watch, Obeys;
      ok := world.create(clock);
      clock := clock + 1;
      if ok {
        Note(Created(p));
        ctx, contexts := Some(contexts), contexts + 1;
      } else {
        Note(CreateFailed(p));
      }
    }

    method UpdateContext(input: Token) returns (c: Computed)
      requires InStep() && Going() && conn.Some? && ctx.Some? && Now().home == conn.value
      requires input == "" || (Now().package.Some? && Offered(codec, Now().talk.offers, Now().package.value, input))
      modifies this`clock, this`events
      ensures InStep() && Now() == See(TheRules(), old(Now()), Updated(input, c))
    {
      hide Accounted, Offered, Watch, Obeys;
      c := world.update(clock);
      clock := clock + 1;
      Note(Updated(input, c));
    }

    /** Notes what happens on the open connection without telling the observer more. */
    ghost method NoteOnly(e: Event)
      requires e.Drained? ==> Now().talk.heard && !Now().talk.closing
      requires InStep() && conn.Some? && !Now().talk.over && (e.Drained? || e.Read? ==> !Now().talk.due) && (e.Drained? || e.Forwarded? || e.Read?)
      requires e.Forwarded? ==> Now().talk.heard && (Now().talk.due || (Now().talk.challenged && (Now().talk.complete || NothingUsable(codec, Now().package, Now().talk.offers))))
      modifies this`events
      ensures InStep() && Now() == See(TheRules(), old(Now()), e)
    {
      hide Accounted, Offered, Watch, Obeys;
      Note(e);
    }

    /** Between two exchanges: one connection, the context made on it if any, and a request whose tokens are that context's. */
    ghost predicate Ready()
      reads this
    {
      && InStep() && conn.Some? && dials == reconnections + 1 && reconnections <= 2
      && (Now().package.Some? ==> Now().package == active)
      && (ctx.Some? ==> active.Some? && Now().package == active && conn == Some(Now().home))
      && complete == Now().talk.complete
      && Accounted(codec, client, request, credentials)
      && Backed(credentials, ctx, active, Now().made)
    }

    /** The connection can take a request, a package once taken has its context, and tokens go where the last challenge wants them. */
    ghost predicate Aimed()
      reads this`active, this`ctx, this`authorization, this`events
    {
      Now().talk.clean && (active.Some? ==> ctx.Some? && Now().talk.asked.Some? && authorization == AnswerField(Now().talk.asked.value))
    }

    /** The request answers the last challenge with the last token. */
    ghost predicate Armed()
      reads this`active, this`request, this`events
    {
      active.Some? && Now().talk.asked.Some? && Now().talk.last.Some? && Bears(codec, request, Now().talk.asked.value, active.value, Now().talk.last.value)
    }

    /** setToken: the token under the header its challenge asks for, and under that one alone. */
    method SetToken(token: Token)
      requires Ready() && ctx.Some? && token in Now().made
      modifies this`request, this`credentials
      ensures Ready()
      ensures GetHeader(request, authorization) == [codec.name(active.value) + (" " + codec.encode(token))]
      ensures Field(authorization, codec.name(active.value) + (" " + codec.encode(token))) in request
      ensures forall name :: !EqualFold(name, authorization) ==> GetHeader(request, name) == GetHeader(old(request), name)
    {
      hide Offered, Watch, Obeys, GetHeader, Without, EqualFold;
      SetTokenReads(request, authorization, codec.name(active.value) + (" " + codec.encode(token)));
      hide Value, SetHeader;
      ghost var c := Credential(authorization, active.value, token);
      SetAccounted(codec, client, request, credentials, c);
      ValueIs(codec, c);
      request := SetHeader(request, authorization, Value(codec, Credential(authorization, active.value, token)));
      credentials := credentials + [c];
    }

    /** A new connection in place of the old one, the old context released with it. */
    method Reconnect() returns (ok: bool)
      requires Ready() && Going() && active.Some? && reconnections < 2
      modifies this`reconnections, this`clock, this`conn, this`ctx, this`dials, this`events
      ensures Going() && complete == Now().talk.complete && Now().talk.asked == old(Now()).talk.asked && (ok ==> Now().talk.clean)
      ensures InStep() && ctx.None? && ok == conn.Some? && dials <= reconnections + 1 && reconnections == old(reconnections) + 1 <= 2
      ensures ok ==> dials == reconnections + 1 && (Now().package.Some? ==> Now().package == active)
      ensures Now().writes == old(Now()).writes && Now().talk.challenged == old(Now()).talk.challenged
    {
      hide Value, Offered, Watch, Obeys, Accounted;
      reconnections := reconnections + 1;
      CloseConnection();
      if ctx.Some? {
        ReleaseContext();
      }
      ok := Connect();
    }

    /** The live context fed a token of this connection's, and the token it computes set on the request. */
    method Advance(serverToken: Token) returns (ok: bool)
      requires Ready() && Going() && Aimed() && ctx.Some? && (serverToken == "" || Offered(codec, Now().talk.offers, active.value, serverToken))
      modifies this`clock, this`events, this`complete, this`request, this`credentials
      ensures InStep() && Going() && (ok ==> Ready() && Aimed() && Armed())
      ensures Now().writes == old(Now()).writes && Now().talk.challenged == old(Now()).talk.challenged
    {
      hide Value, Offered, Watch, Obeys, Accounted;
      var c := UpdateContext(serverToken);
      ok := !c.Refused?;
      if ok {
        complete := c.complete;
        SetToken(c.token);
      }
    }

    /** A new context on a new connection, and its first token. */
    method Begin(p: Package) returns (ok: bool)
      requires InStep() && Going() && conn.Some? && ctx.None? && active == Some(p) && dials == reconnections + 1 && reconnections <= 2
      requires Now().package.Some? ==> Now().package == active
      requires complete == Now().talk.complete && Now().talk.clean && Now().talk.asked.Some? && authorization == AnswerField(Now().talk.asked.value)
      modifies this
      ensures Going() && (ok ==> Aimed() && Armed())
      ensures InStep() && (ok ==> Ready() && ctx.Some?) && active == old(active) && authorization == old(authorization) && dials == old(dials)
      ensures Now().writes == old(Now()).writes && Now().talk.challenged == old(Now()).talk.challenged
    {
      hide Value, Offered, Watch, Obeys, Accounted, UpstreamRequest;
      request, credentials := UpstreamRequest(client), [];
      StartAccounted(codec, client);
      ok := CreateContext(p);
      if ok {
        ok := Advance("");
      }
    }

    /** restartAuth: a new connection and a new context of the same package, from the first token. */
    method Restart() returns (ok: bool)
      requires Ready() && Going() && active.Some? && Now().talk.asked.Some? && authorization == AnswerField(Now().talk.asked.value)
      modifies this
      ensures Going() && (ok ==> Aimed() && Armed())
      ensures InStep() && (ok ==> Ready() && ctx.Some? && dials == old(dials) + 1) && active == old(active) && authorization == old(authorization)
      ensures Now().writes == old(Now()).writes && Now().talk.challenged == old(Now()).talk.challenged
    {
      hide Value, Offered, Watch, Obeys, Accounted, UpstreamRequest;
      if reconnections >= 2 {
        return false;
      }
      ok := Reconnect();
      if ok {
        ok := Begin(active.value);
      }
    }

    method Send() returns (ok: bool)
      requires Ready() && Going() && Now().talk.clean && Now().writes < 8 && (Now().writes > 0 ==> Armed() && ctx.Some? && (Now().talk.challenged || CanRestart(client, verb)))
      modifies this`clock, this`events
      ensures Ready() && Now() == See(TheRules(), old(Now()), Wrote(request, credentials))
    {
      NoCredentials(credentials, ctx, active, Now().made);
      hide Offered, Watch, Obeys, Accounted, CanRestart, Backed, Bears;
      ok := world.write(clock);
      clock := clock + 1;
      Note(Wrote(request, credentials));
    }

    method ReadHead() returns (r: Reading)
      requires Ready() && Going()
      modifies this`clock, this`events
      ensures Ready() && Now() == See(TheRules(), old(Now()), Read(r))
    {
      hide Offered, Watch, Obeys, Accounted, Backed, ClosesConnection;
      r := world.read(clock);
      clock := clock + 1;
      NoteOnly(Read(r));
    }

    /** The head goes to the client as it came, and the rest of the connection after it. */
    method Forward() returns (flow: Flow)
      requires InStep() && conn.Some? && !Now().talk.over && Now().talk.heard
      requires Now().talk.due || (Now().talk.challenged && (Now().talk.complete || NothingUsable(codec, Now().package, Now().talk.offers)))
      modifies this`clock, this`events
      ensures InStep() && flow != Again
      ensures Now() == See(TheRules(), old(Now()), Forwarded)
    {
      var ok := world.browser(clock);
      clock := clock + 1;
      NoteOnly(Forwarded);
      flow := if ok then Done else Failed;
    }

    /** After an exchange nothing answered: start over when that is safe. */
    method Unanswered() returns (flow: Flow)
      requires Ready() && Going() && Aimed()
      modifies this
      ensures Going() && (flow == Again ==> Aimed() && Armed())
      ensures InStep() && flow != Done && (flow == Again ==> Ready() && CanRestart(client, verb))
      ensures Now().writes == old(Now()).writes
    {
      hide CanRestart, Accounted, Offered, Watch, Obeys;
      var can := CanRestartAfterEof(client, verb);
      if active.Some? && !complete && can {
        var ok := Restart();
        flow := if ok then Again else Failed;
      } else {
        flow := Failed;
      }
    }

    /**
     A challenge: forwarded when it offers nothing to answer with, refused when the token taken cannot be decoded, answered on a
     new connection when it closes its own, on its own otherwise.
     */
    method Respond(head: Head, challenge: Challenge) returns (flow: Flow)
      requires Ready() && Going() && !complete && Detect(head, treat401) == Some(challenge) && (active.Some? ==> ctx.Some?)
      requires Now().talk.heard && Now().talk.closing == ClosesConnection(head, verb)
      requires Now().talk.offers == OffersOf(TheRules(), head) && Now().talk.challenged && Now().talk.asked == Some(head.status)
      modifies this
      ensures InStep() && !Now().talk.due && (flow == Again ==> Ready() && Going() && Now().talk.challenged && Aimed() && Armed())
      ensures Now().writes == old(Now()).writes
      ensures var c := Select(codec, old(active), GetHeader(head.fields, challenge.authenticate), None, "");
        match c
        case Undecodable => flow == Failed && events == old(events)
        case Choice(None, _) => flow != Again && Now() == See(TheRules(), old(Now()), Forwarded)
        case Choice(p, _) =>
          && active == p && authorization == challenge.authorization && flow != Done
          && (flow == Again ==> if ClosesConnection(head, verb) then dials == old(dials) + 1 else dials == old(dials) && conn == old(conn))
    {
      SelectNone(codec, active);
      DetectIs(TheRules(), head);
      hide Value, Watch, Obeys, Accounted, GetHeader, Select, ClosesConnection, Offered, Detect, OffersOf, AnswerField, Bears, NothingUsable;
      NoOffers(codec, Now().package);
      var offers := GetHeader(head.fields, challenge.authenticate);
      if |offers| == 0 {
        flow := Forward();
        return;
      }
      var choice := SelectPackage(codec, active, offers);
      SelectKeeps(codec, active, offers, None, "");
      if choice.Undecodable? {
        return Failed;
      }
      if choice.package.None? {
        flow := Forward();
        return;
      }
      assert |credentials| > 0 ==> active == Some(credentials[0].package);
      assert active.Some? ==> choice.package == active;
      active, authorization := choice.package, challenge.authorization;
      if ClosesConnection(head, verb) {
        var ok := Restart();
        return if ok then Again else Failed;
      }
      flow := AnswerOnConnection(choice.package.value, choice.token);
    }

    /** The context of the connection, made when there is none yet. */
    method EnsureContext(p: Package) returns (ok: bool)
      requires Ready() && Going() && active == Some(p) && Now().talk.clean && Now().talk.asked.Some? && authorization == AnswerField(Now().talk.asked.value)
      modifies this`clock, this`ctx, this`contexts, this`events
      ensures InStep() && Going() && (ok ==> Ready() && ctx.Some? && Aimed())
      ensures Now().writes == old(Now()).writes && Now().talk.challenged == old(Now()).talk.challenged && Now().talk.offers == old(Now()).talk.offers
    {
      hide Value, Watch, Obeys, Accounted, Offered, Bears, AnswerField, NothingUsable, OffersOf, Asks;
      NoCredentials(credentials, ctx, active, Now().made);
      ok := true;
      if ctx.None? {
        ok := CreateContext(p);
      }
    }

    /** The next token, computed from the server's and set on the request, on the connection the challenge came on. */
    method AnswerOnConnection(p: Package, serverToken: Token) returns (flow: Flow)
      requires Ready() && Going() && active == Some(p) && (serverToken == "" || Offered(codec, Now().talk.offers, p, serverToken)) && Now().talk.challenged
      requires Now().talk.asked.Some? && authorization == AnswerField(Now().talk.asked.value) && Now().talk.heard && !Now().talk.closing
      modifies this
      ensures Going() && (flow == Again ==> Aimed() && Armed())
      ensures InStep() && flow != Done && (flow == Again ==> Ready() && Now().talk.challenged)
      ensures Now().writes == old(Now()).writes
      ensures dials == old(dials) && conn == old(conn) && active == old(active) && authorization == old(authorization)
    {
      hide Value, Watch, Obeys, Accounted, Offered, Bears, AnswerField, NothingUsable, OffersOf, Asks;
      var drained := world.drain(clock);
      clock := clock + 1;
      NoteOnly(Drained);
      if !drained {
        return Failed;
      }
      var created := EnsureContext(p);
      if !created {
        return Failed;
      }
      var ok := Advance(serverToken);
      flow := if ok then Again else Failed;
    }

    /** One turn of the loop. */
    method Exchange() returns (flow: Flow)
      requires Ready() && Going() && Aimed() && Now().writes < 8
      requires Now().writes > 0 ==> Armed() && (Now().talk.challenged || CanRestart(client, verb))
      modifies this
      ensures InStep() && !Now().talk.due
      ensures flow == Again ==> Ready() && Going() && Aimed() && Armed() && (Now().talk.challenged || CanRestart(client, verb))
      ensures Now().writes == old(Now()).writes + 1
    {
      hide Watch, Obeys, Accounted, CanRestart, GetHeader, Offered, ClosesConnection, Detect, OffersOf, Bears, AnswerField, NothingUsable;
      var sent := Send();
      if !sent {
        flow := Unanswered();
        return;
      }
      var reading := ReadHead();
      if reading.Eof? {
        flow := Unanswered();
        return;
      }
      if reading.Broken? {
        return Failed;
      }
      DetectIs(TheRules(), reading.head);
      var challenge := Detect(reading.head, treat401);
      if challenge.None? || complete {
        flow := Forward();
        return;
      }
      flow := Respond(reading.head, challenge.value);
    }

    /** What every exit leaves: the live context released, the open connection closed. */
    method CleanUp()
      requires InStep() && !Now().talk.due
      modifies this`ctx, this`conn, this`events
      ensures InStep() && conn == None && ctx == None && Now().writes == old(Now()).writes
    {
      hide Watch, Obeys, Allowed;
      if ctx.Some? {
        ReleaseContext();
      }
      if conn.Some? {
        CloseConnection();
      }
    }

    /** HandleProxyRequest. Whatever the world answers, the exchange obeys the rules and leaves nothing open. */
    method HandleProxyRequest() returns (flow: Flow)
      requires events == [] && dials == 0 && contexts == 0 && conn == None && ctx == None && active == None && !complete && reconnections == 0
      modifies this
      ensures flow != Again
      ensures Obeys(TheRules(), NOTHING_SEEN, events) && Now().open == None && Now().live == None
    {
      hide Obeys, Accounted, UpstreamRequest, CanRestart, Bears;
      assert InStep() && Now() == NOTHING_SEEN by { Starting(TheRules()); }
      var ok := Connect();
      if !ok {
        return Failed;
      }
      request, credentials := UpstreamRequest(client), [];
      StartAccounted(codec, client);
      hide Watch;
      flow := Failed;
      var attempt := 1;
      assert Ready();
      while attempt <= 8
        invariant 1 <= attempt <= 9 && InStep() && flow == Failed
        invariant Ready() && Going() && Aimed() && Now().writes == attempt - 1
        invariant attempt > 1 ==> Armed() && (Now().talk.challenged || CanRestart(client, verb))
      {
        flow := Exchange();
        if flow != Again {
          CleanUp();
          return;
        }
        flow := Failed;
        attempt := attempt + 1;
      }
      CleanUp();
    }
  }

  lemma NoCredentials(cs: seq<Credential>, ctx: Option<nat>, active: Option<Package>, made: set<Token>)
    ensures Backed(cs, ctx, active, made) && ctx.None? ==> cs == []
    ensures Backed([], ctx, active, made)
  {
    if cs != [] { assert cs[0] == cs[0]; }
  }

  /** The code's reading of a head is the observer's. */
  lemma DetectIs(r: Rules, head: Head)
    ensures var c := Detect(head, r.treat401);
      && (c.Some? <==> Asks(r, head))
      && (c.Some? ==> OffersOf(r, head) == GetHeader(head.fields, c.value.authenticate) && c.value.authorization == AnswerField(head.status))
  {
    hide GetHeader;
  }

  lemma NoOffers(codec: Codec, package: Option<Package>)
    ensures NothingUsable(codec, package, [])
  {
  }

  lemma ValueIs(codec: Codec, c: Credential)
    ensures Value(codec, c) == codec.name(c.package) + (" " + codec.encode(c.token))
  {
  }

  lemma SetTokenReads(hs: seq<Field>, name: string, value: string)
    ensures GetHeader(SetHeader(hs, name, value), name) == [value] && Field(name, value) in SetHeader(hs, name, value)
    ensures forall other :: !EqualFold(other, name) ==> GetHeader(SetHeader(hs, name, value), other) == GetHeader(hs, other)
  {
    var all := SetHeader(hs, name, value);
    assert all[|all| - 1] == Field(name, value);
    hide EqualFold, GetHeader, SetHeader;
    SetReadsBack(hs, name, value, name);
    forall other | !EqualFold(other, name) ensures GetHeader(SetHeader(hs, name, value), other) == GetHeader(hs, other) {
      SetReadsBack(hs, name, value, other);
    }
  }

  lemma Starting(r: Rules)
    ensures Obeys(r, NOTHING_SEEN, []) && Watch(r, NOTHING_SEEN, []) == NOTHING_SEEN
  {
  }
}
