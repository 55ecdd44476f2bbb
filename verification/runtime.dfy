/** The running proxy: its listeners, its decrypting pipeline, and the supervisor that changes both while they run. */
module Runtime {
  import opened Text

  // ---- a listener and its connections ----------------------------------------------------

  class Connection {
    var open: bool

    constructor ()
      ensures open
    {
      open := true;
    }
  }

  class ProxyServer {
    const host: string
    var closed: bool
    var listening: bool
    var connections: set<Connection>

    constructor (host: string)
      ensures this.host == host && !closed && listening && connections == {}
    {
      this.host := host;
      closed, listening, connections := false, true, {};
    }

    ghost predicate Valid()
      reads this
    {
      closed <==> !listening
    }

    /** Closes the listener only; what was accepted goes on. */
    method StopAccepting()
      requires Valid()
      modifies this`closed, this`listening
      ensures Valid() && closed
    {
      if closed {
        return;
      }
      closed := true;
      listening := false;
    }

    /** Closes the listener and every tracked connection. */
    method Close()
      requires Valid()
      modifies this`closed, this`listening, connections
      ensures Valid() && closed && forall c :: c in connections ==> !c.open
    {
      StopAccepting();
      var left := connections;
      while left != {}
        invariant left <= connections && closed && Valid()
        invariant forall c :: c in connections - left ==> !c.open
        decreases |left|
      {
        var c :| c in left;
        c.open := false;
        left := left - {c};
      }
    }

    /** A connection accepted too late is not tracked, and its caller closes it. */
    method TrackConnection(c: Connection) returns (tracked: bool)
      modifies this`connections
      ensures tracked == !closed
      ensures connections == if tracked then old(connections) + {c} else old(connections)
    {
      if closed {
        return false;
      }
      connections := connections + {c};
      tracked := true;
    }

    method UntrackConnection(c: Connection)
      modifies this`connections
      ensures connections == old(connections) - {c}
    {
      connections := connections - {c};
    }

    /** One client: refused by access control, closed at once when the server was stopped meanwhile, or tracked. */
    method Accept(allowed: bool) returns (c: Connection)
      modifies this`connections
      ensures fresh(c) && (c.open <==> allowed && !closed)
      ensures connections == if c.open then old(connections) + {c} else old(connections)
    {
      c := new Connection();
      if !allowed {
        c.open := false;
        return;
      }
      var tracked := TrackConnection(c);
      if !tracked {
        c.open := false;
      }
    }

    /** Serving ends: the connection is closed exactly when its request could be read, and no longer tracked either way. */
    method Finish(c: Connection, read: bool)
      modifies this`connections, c
      ensures connections == old(connections) - {c} && (c.open <==> old(c.open) && !read)
    {
      if read {
        c.open := false;
      }
      UntrackConnection(c);
    }
  }

  // ---- the decrypting pipeline ---------------------------------------------------------------

  type Upstream = string

  /** The pipeline built from upstream settings, or the interceptor in front of it. */
  datatype Middleware = Forward(upstream: Upstream) | Interceptor(next: Upstream)

  /** The target and its mode, always stored and read as one. */
  class SwitchableMiddleware {
    var target: (Middleware, bool)

    constructor (initial: Middleware)
      ensures target == (initial, false)
    {
      target := (initial, false);
    }

    method SetDecrypting(next: Middleware, decrypting: bool)
      modifies this
      ensures target == (next, decrypting)
    {
      target := (next, decrypting);
    }

    method Snapshot() returns (m: Middleware, decrypting: bool)
      ensures (m, decrypting) == target
    {
      m, decrypting := target.0, target.1;
    }
  }

  /** What changes the pipeline, each step atomic. */
  datatype Turn = Switch(on: bool, fails: bool, persistFails: bool) | Rebase(next: Upstream, fails: bool)

  /** What a request may be given: an interceptor exactly when it is told that decryption is on, over a base put in place. */
  predicate Given(seen: (Middleware, bool), bases: set<Upstream>) {
    (seen.1 <==> seen.0.Interceptor?) && (if seen.0.Interceptor? then seen.0.next in bases else seen.0.upstream in bases)
  }

  /** The bases asked for up to a turn. */
  function BasesOf(first: Upstream, turns: seq<Turn>): set<Upstream> {
    {first} + set t | t in turns && t.Rebase? :: t.next
  }

  class DecryptRuntime {
    const active: SwitchableMiddleware
    var base: Upstream
    var enabled: bool

    constructor (base: Upstream, enabled: bool)
      ensures this.base == base && this.enabled == enabled && fresh(active) && active.target == (Forward(base), false)
    {
      this.base, this.enabled := base, enabled;
      active := new SwitchableMiddleware(Forward(base));
    }

    /** The active target is an interceptor over the current base exactly when decryption is enabled, the bare base otherwise. */
    ghost predicate InMode()
      reads this, active
    {
      active.target == if enabled then (Interceptor(base), true) else (Forward(base), false)
    }

    /** Nothing when the certificates cannot be read. */
    method NewInterceptor(fails: bool) returns (m: Option<Middleware>)
      ensures m == if fails then None else Some(Interceptor(base))
    {
      m := if fails then None else Some(Interceptor(base));
    }

    method ApplyInitial(fails: bool) returns (ok: bool)
      modifies active
      ensures ok ==> InMode()
      ensures ok == !(enabled && fails) && (!ok ==> active.target == old(active.target))
    {
      if !enabled {
        active.SetDecrypting(Forward(base), false);
        return true;
      }
      var interceptor := NewInterceptor(fails);
      if interceptor.None? {
        return false;
      }
      active.SetDecrypting(interceptor.value, true);
      ok := true;
    }

    method SetEnabled(on: bool, fails: bool, persistFails: bool) returns (ok: bool)
      requires InMode()
      modifies this`enabled, active
      ensures InMode() && (ok ==> enabled == on) && (!ok ==> enabled == old(enabled) && active.target == old(active.target))
      ensures ok == (old(enabled) == on || !((on && fails) || persistFails))
    {
      if enabled == on {
        return true;
      }
      var next := Forward(base);
      if on {
        var interceptor := NewInterceptor(fails);
        if interceptor.None? {
          return false;
        }
        next := interceptor.value;
      }
      if persistFails {
        return false;
      }
      enabled := on;
      active.SetDecrypting(next, on);
      ok := true;
    }

    method ReplaceBase(next: Upstream, fails: bool) returns (ok: bool)
      requires InMode()
      modifies this`base, active
      ensures InMode() && base == (if ok then next else old(base)) && (!ok ==> active.target == old(active.target))
      ensures ok == !(enabled && fails)
    {
      var before := base;
      base := next;
      if !enabled {
        active.SetDecrypting(Forward(next), false);
        return true;
      }
      var interceptor := NewInterceptor(fails);
      if interceptor.None? {
        base := before;
        return false;
      }
      active.SetDecrypting(interceptor.value, true);
      ok := true;
    }

    /** Any switches and new bases with any failures; `seen[k]` is what a request finds between the turns before `k` and turn `k`. */
    method Observe(turns: seq<Turn>) returns (seen: seq<(Middleware, bool)>)
      requires InMode()
      modifies this`enabled, this`base, active
      ensures InMode() && base in BasesOf(old(base), turns)
      ensures |seen| == |turns| && forall k :: 0 <= k < |turns| ==> Given(seen[k], BasesOf(old(base), turns[..k]))
    {
      seen := [];
      for i := 0 to |turns|
        invariant InMode() && base in BasesOf(old(base), turns[..i])
        invariant |seen| == i && forall k :: 0 <= k < i ==> Given(seen[k], BasesOf(old(base), turns[..k]))
      {
        var m, decrypting := active.Snapshot();
        seen := seen + [(m, decrypting)];
        BasesGrow(old(base), turns, i);
        match turns[i] {
          case Switch(on, fails, persistFails) => var _ := SetEnabled(on, fails, persistFails);
          case Rebase(next, fails) => var _ := ReplaceBase(next, fails);
        }
      }
      assert turns[..|turns|] == turns;
    }
  }

  lemma BasesGrow(first: Upstream, turns: seq<Turn>, i: nat)
    requires i < |turns|
    ensures BasesOf(first, turns[..i]) <= BasesOf(first, turns[..i + 1])
    ensures turns[i].Rebase? ==> turns[i].next in BasesOf(first, turns[..i + 1])
  {
    assert turns[..i + 1] == turns[..i] + [turns[i]];
    assert turns[..i + 1][i] == turns[i];
  }

  // ---- the supervisor -----------------------------------------------------------------------------

  /** The listen host access control asks for, and the rest of its settings. */
  datatype Access = Access(listenHost: string, rules: string)

  datatype Config = Config(access: Access, upstream: Upstream, decrypting: bool)

  datatype Command =
    | SetDecryptHttps(on: bool)
    | SetUpstream(upstream: Upstream)
    | SetAccessControl(access: Access)
    | StartProxy
    | StopProxy

  /** Which of a command's outer calls fail, in the order it makes them; the second tries are its rollback's. */
  datatype Faults = Faults(
    listen: bool, listenAgain: bool, persist: bool, build: bool, buildAgain: bool, interceptor: bool, interceptorAgain: bool)

  /** A command, a client that reaches a server, or the end of a connection; servers are the retired ones and the current one. */
  datatype Order = Issue(command: Command, faults: Faults) | Arrival(at: nat, allowed: bool) | Departure(at: nat, read: bool)

  // ---- what a command does --------------------------------------------------------------------------

  /** The settings a session shows, the configuration behind them, the pipeline's base, whether the proxy runs, and the host it listens on. */
  datatype State = State(config: Config, access: Access, upstream: Upstream, base: Upstream, running: bool, host: Option<string>)

  /** The pipeline for new settings cannot be built, so the command changes nothing. */
  predicate CannotBuild(s: State, f: Faults) {
    f.build || (s.config.decrypting && f.interceptor)
  }

  /** Neither can the old one be built again after a failed write. */
  predicate CannotRebuild(s: State, f: Faults) {
    f.buildAgain || (s.config.decrypting && f.interceptorAgain)
  }

  /** New access control needs a new listener. */
  predicate Restarts(s: State, a: Access) {
    s.running && s.access.listenHost != a.listenHost
  }

  /** Whether a command succeeds. */
  predicate Succeeds(s: State, c: Command, f: Faults) {
    match c
    case SetDecryptHttps(on) => s.config.decrypting == on || !((on && f.interceptor) || f.persist)
    case SetUpstream(_) => !CannotBuild(s, f) && !f.persist
    case SetAccessControl(a) => !f.persist && !(Restarts(s, a) && f.listen)
    case StartProxy => s.running || !f.listen
    case StopProxy => true
  }

  /** The state a successful command asks for. */
  function Asked(s: State, c: Command): State {
    match c
    case SetDecryptHttps(on) => s.(config := s.config.(decrypting := on))
    case SetUpstream(u) => s.(config := s.config.(upstream := u), upstream := u, base := u)
    case SetAccessControl(a) => s.(config := s.config.(access := a), access := a, host := if Restarts(s, a) then Some(a.listenHost) else s.host)
    case StartProxy => s.(running := true, host := if s.running then s.host else Some(s.access.listenHost))
    case StopProxy => s.(running := false, host := None)
  }

  /** What a failed command leaves: everything as it was, but for a rollback that fails as well. */
  function Left(s: State, c: Command, f: Faults): State {
    match c
    case SetUpstream(u) => if CannotBuild(s, f) then s else s.(base := if CannotRebuild(s, f) then u else s.config.upstream)
    case SetAccessControl(a) => if f.persist then s else s.(host := if f.listenAgain then None else Some(s.access.listenHost))
    case _ => s
  }

  function Next(s: State, c: Command, f: Faults): State {
    if Succeeds(s, c, f) then Asked(s, c) else Left(s, c, f)
  }

  /** Clients come and go without the state telling. */
  function Then(s: State, o: Order): State {
    if o.Issue? then Next(s, o.command, o.faults) else s
  }

  function After(s: State, orders: seq<Order>): State
    decreases |orders|
  {
    if orders == [] then s else After(Then(s, orders[0]), orders[1..])
  }

  /** A command and its rollback both fail, and leave the proxy running without a listener. */
  predicate LosesListener(s: State, c: Command, f: Faults) {
    c.SetAccessControl? && Restarts(s, c.access) && !f.persist && f.listen && f.listenAgain
  }

  /** A command and its rollback both fail, and leave the pipeline on settings that were refused. */
  predicate LosesBase(s: State, c: Command, f: Faults) {
    c.SetUpstream? && !CannotBuild(s, f) && f.persist && CannotRebuild(s, f) && c.upstream != s.config.upstream
  }

  /** No command of a run loses the listener. */
  predicate KeepsListener(s: State, orders: seq<Order>)
    decreases |orders|
  {
    orders == [] ||
    ((orders[0].Issue? ==> !LosesListener(s, orders[0].command, orders[0].faults)) && KeepsListener(Then(s, orders[0]), orders[1..]))
  }

  predicate KeepsBase(s: State, orders: seq<Order>)
    decreases |orders|
  {
    orders == [] ||
    ((orders[0].Issue? ==> !LosesBase(s, orders[0].command, orders[0].faults)) && KeepsBase(Then(s, orders[0]), orders[1..]))
  }

  /** The proxy listens exactly when it runs, on the host its access control asks for. */
  predicate Listens(s: State) {
    s.host == if s.running then Some(s.access.listenHost) else None
  }

  /** The session shows what the configuration holds. */
  predicate Shown(s: State) {
    s.access == s.config.access && s.upstream == s.config.upstream
  }

  /** One command keeps the proxy listening where it should exactly while it runs, unless it loses the listener, and then it does not. */
  lemma StepListens(s: State, c: Command, f: Faults)
    requires Listens(s)
    ensures Listens(Next(s, c, f)) <==> !LosesListener(s, c, f)
  {
  }

  /** A proxy that runs listens on the host it shows, after any run in which no command loses the listener. */
  lemma {:induction false} RunListens(s: State, orders: seq<Order>)
    requires Listens(s) && KeepsListener(s, orders)
    ensures Listens(After(s, orders))
    decreases |orders|
  {
    if orders != [] {
      if orders[0].Issue? { StepListens(s, orders[0].command, orders[0].faults); }
      RunListens(Then(s, orders[0]), orders[1..]);
    }
  }

  /** One command keeps the pipeline on the configured settings, unless it loses them, and then it does not. */
  lemma StepFollows(s: State, c: Command, f: Faults)
    requires s.base == s.config.upstream
    ensures var n := Next(s, c, f); n.base == n.config.upstream <==> !LosesBase(s, c, f)
  {
  }

  /** The pipeline is on the configured settings after any run in which no command loses them. */
  lemma {:induction false} RunFollows(s: State, orders: seq<Order>)
    requires s.base == s.config.upstream && KeepsBase(s, orders)
    ensures After(s, orders).base == After(s, orders).config.upstream
    decreases |orders|
  {
    if orders != [] {
      if orders[0].Issue? { StepFollows(s, orders[0].command, orders[0].faults); }
      RunFollows(Then(s, orders[0]), orders[1..]);
    }
  }

  /** Whatever fails, the session shows what the configuration holds. */
  lemma {:induction false} RunShows(s: State, orders: seq<Order>)
    requires Shown(s)
    ensures Shown(After(s, orders))
    decreases |orders|
  {
    if orders != [] { RunShows(Then(s, orders[0]), orders[1..]); }
  }

  /** A failed command changes nothing a session shows, and nothing at all unless its rollback fails as well. */
  lemma FailureKeeps(s: State, c: Command, f: Faults)
    requires !Succeeds(s, c, f) && Listens(s) && s.base == s.config.upstream
    ensures var n := Next(s, c, f); n.config == s.config && n.access == s.access && n.upstream == s.upstream && n.running == s.running
    ensures Next(s, c, f) == s <==> !LosesListener(s, c, f) && !LosesBase(s, c, f)
  {
  }

  // ---- what a successful command asks for --------------------------------------------------------------

  /** The command's argument is what is configured, shown and in use from now on, and nothing else has changed. */
  predicate Takes(s: State, c: Command, n: State) {
    match c
    case SetDecryptHttps(on) => n.config.decrypting == on && n == s.(config := n.config) && n.config == s.config.(decrypting := on)
    case SetUpstream(u) =>
      && n.config.upstream == u && n.upstream == u && n.base == u
      && n.config == s.config.(upstream := u) && n.access == s.access && n.running == s.running && n.host == s.host
    case SetAccessControl(a) =>
      && n.config.access == a && n.access == a && (s.running ==> n.host == Some(a.listenHost))
      && n.config == s.config.(access := a) && n.upstream == s.upstream && n.base == s.base && n.running == s.running
      && (!s.running ==> n.host == s.host)
    case StartProxy => n.running && n.host == Some(s.access.listenHost) && n == s.(running := true, host := n.host)
    case StopProxy => !n.running && n.host.None? && n == s.(running := false, host := None)
  }

  /** A command that succeeds takes its argument, and one succeeds when none of its calls fails. */
  lemma SuccessTakes(s: State, c: Command, f: Faults)
    requires Listens(s)
    ensures Succeeds(s, c, f) ==> Takes(s, c, Next(s, c, f))
    ensures f == NO_FAULTS ==> Succeeds(s, c, f)
  {
  }

  const NO_FAULTS := Faults(false, false, false, false, false, false, false)

  lemma {:induction false} AfterSnoc(s: State, orders: seq<Order>, o: Order)
    ensures After(s, orders + [o]) == Then(After(s, orders), o)
    decreases |orders|
  {
    hide Then;
    if orders == [] {
      assert [] + [o] == [o] && [o][1..] == [];
    } else {
      assert (orders + [o])[1..] == orders[1..] + [o];
      AfterSnoc(Then(s, orders[0]), orders[1..], o);
    }
  }

  /** One of the things commands set. */
  datatype Setting = Upstreams | Accesses | Decryption | Running

  /** A command that sets it, and succeeds. */
  predicate Sets(w: Setting, s: State, o: Order) {
    o.Issue? && Succeeds(s, o.command, o.faults) &&
    match w
    case Upstreams => o.command.SetUpstream?
    case Accesses => o.command.SetAccessControl?
    case Decryption => o.command.SetDecryptHttps?
    case Running => o.command.StartProxy? || o.command.StopProxy?
  }

  /** It is as the command set it. */
  predicate IsAs(w: Setting, s: State, c: Command) {
    match w
    case Upstreams => c.SetUpstream? && s.config.upstream == c.upstream
    case Accesses => c.SetAccessControl? && s.config.access == c.access
    case Decryption => c.SetDecryptHttps? && s.config.decrypting == c.on
    case Running => s.running == c.StartProxy?
  }

  /** It is the same in both. */
  predicate Same(w: Setting, s: State, n: State) {
    match w
    case Upstreams => s.config.upstream == n.config.upstream
    case Accesses => s.config.access == n.config.access
    case Decryption => s.config.decrypting == n.config.decrypting
    case Running => s.running == n.running
  }

  lemma StepSets(w: Setting, s: State, o: Order)
    ensures if Sets(w, s, o) then IsAs(w, Then(s, o), o.command) else Same(w, s, Then(s, o))
  {
  }

  lemma SameAs(w: Setting, s: State, n: State, c: Command)
    requires Same(w, s, n)
    ensures IsAs(w, s, c) <==> IsAs(w, n, c)
    ensures forall m :: Same(w, m, s) <==> Same(w, m, n)
  {
  }

  /** After any run each setting is what the last successful command for it asked for, or as it was when there was none. */
  lemma {:induction false} RunTakes(w: Setting, s: State, orders: seq<Order>) returns (i: nat)
    ensures i <= |orders|
    ensures i < |orders| ==> Sets(w, After(s, orders[..i]), orders[i]) && IsAs(w, After(s, orders), orders[i].command)
    ensures i == |orders| ==> Same(w, s, After(s, orders)) && forall j :: 0 <= j < |orders| ==> !Sets(w, After(s, orders[..j]), orders[j])
    ensures forall j :: i < j < |orders| ==> !Sets(w, After(s, orders[..j]), orders[j])
    decreases |orders|
  {
    i := 0;
    if orders != [] {
      var k := |orders| - 1;
      var before, o := orders[..k], orders[k];
      assert orders == before + [o];
      AfterSnoc(s, before, o);
      StepSets(w, After(s, before), o);
      i := RunTakes(w, s, before);
      hide After, Then, Sets, IsAs, Same;
      assert forall j :: 0 <= j < k ==> before[..j] == orders[..j];
      if Sets(w, After(s, before), o) {
        i := k;
      } else {
        forall c { SameAs(w, After(s, before), After(s, orders), c); }
        if i == k { i := |orders|; }
      }
    }
  }

  class Supervisor {
    const decrypt: DecryptRuntime
    var proxy: ProxyServer?
    var retired: seq<ProxyServer>
    var running: bool
    var access: Access
    var upstream: Upstream
    var config: Config

    ghost var created: set<ProxyServer>

    constructor (config: Config, decrypt: DecryptRuntime)
      requires decrypt.InMode() && decrypt.enabled == config.decrypting
      ensures Valid() && this.decrypt == decrypt && created == {} && this.config == config && !running
      ensures access == config.access && upstream == config.upstream
    {
      this.decrypt, this.config := decrypt, config;
      proxy, retired, running := null, [], false;
      access, upstream, created := config.access, config.upstream, {};
    }

    /** Every server ever created is the current one or a retired one; only the current one may accept, and only while running. */
    ghost predicate ServersOk()
      reads this, created
    {
      && (proxy != null ==> proxy in created)
      && (forall p :: p in retired ==> p in created)
      && (forall p :: p in created ==> p == proxy || p in retired)
      && (forall p :: p in created ==> p.Valid() && (p != proxy || !running ==> p.closed))
      && (if running then proxy != null else proxy == null || proxy in retired)
    }

    ghost predicate Valid()
      reads this, created, decrypt, decrypt.active
    {
      ServersOk() && decrypt.InMode() && decrypt.enabled == config.decrypting && access == config.access
    }

    /** CreateProxyServer: a server that listens, or none when listening fails. */
    method Create(fails: bool) returns (p: ProxyServer?)
      modifies this`created
      ensures fails ==> p == null && created == old(created)
      ensures !fails ==> p != null && fresh(p) && created == old(created) + {p} && p.Valid() && !p.closed && p.connections == {}
      ensures !fails ==> p.host == access.listenHost
    {
      if fails {
        return null;
      }
      p := new ProxyServer(access.listenHost);
      created := created + {p};
    }

    /** What a session and its clients can tell of the supervisor. */
    ghost function Now(): State
      reads this, proxy, decrypt
    {
      State(config, access, upstream, decrypt.base, running, if proxy != null && proxy.listening then Some(proxy.host) else None)
    }

    /** startProxy. */
    method Start(f: Faults) returns (ok: bool)
      requires Valid()
      modifies this`proxy, this`running, this`created
      ensures Valid() && ok == (old(running) || !f.listen)
      ensures Now() == if ok then Asked(old(Now()), StartProxy) else old(Now())
      ensures if ok && !old(running) then proxy != null && fresh(proxy) && created == old(created) + {proxy} && proxy.connections == {}
        else proxy == old(proxy) && created == old(created)
    {
      if running {
        return true;
      }
      var p := Create(f.listen);
      if p == null {
        return false;
      }
      proxy, running := p, true;
      ok := true;
    }

    /** stopProxy. */
    method Stop()
      requires Valid()
      modifies this`retired, this`running, created
      ensures Valid() && Now() == Asked(old(Now()), StopProxy)
      ensures retired == if old(running) then old(retired) + [proxy] else old(retired)
      ensures forall p :: p in created ==> p.connections == old(p.connections)
    {
      if !running {
        return;
      }
      proxy.StopAccepting();
      retired := retired + [proxy];
      running := false;
    }

    /** Closes every listener ever opened and every connection it tracks. */
    method CloseAllProxies()
      requires Valid()
      modifies this`running, created, set p, c | p in created && c in p.connections :: c
      ensures !running && created == old(created)
      ensures forall p :: p in created ==> p.closed && !p.listening && forall c :: c in p.connections ==> !c.open
    {
      ghost var tracked := set p, c | p in created && c in p.connections :: c;
      if proxy != null {
        proxy.Close();
      }
      var i := 0;
      while i < |retired|
        invariant 0 <= i <= |retired|
        invariant forall p :: p in created ==> p.Valid() && p.connections == old(p.connections) && (old(p.closed) ==> p.closed)
        invariant proxy != null ==> proxy.closed && forall c :: c in proxy.connections ==> !c.open
        invariant forall k :: 0 <= k < i ==> retired[k].closed && forall c :: c in retired[k].connections ==> !c.open
        invariant forall c :: c in tracked ==> old(c.open) || !c.open
      {
        if retired[i] != proxy {
          retired[i].Close();
        }
        i := i + 1;
      }
      running := false;
    }

    /** setUpstream: the pipeline first, then the file, then what the session shows; a failed write puts the old pipeline back. */
    method ChangeUpstream(next: Upstream, f: Faults) returns (ok: bool)
      requires Valid()
      modifies this`upstream, this`config, decrypt, decrypt.active
      ensures Valid() && ok == Succeeds(old(Now()), SetUpstream(next), f) && Now() == Next(old(Now()), SetUpstream(next), f)
      ensures decrypt.base == old(decrypt.base) ==> decrypt.active.target == old(decrypt.active.target)
    {
      var current := config;
      if f.build {
        return false;
      }
      ok := decrypt.ReplaceBase(next, f.interceptor);
      if !ok {
        return;
      }
      if f.persist {
        if !f.buildAgain {
          var back := decrypt.ReplaceBase(current.upstream, f.interceptorAgain);
        }
        return false;
      }
      upstream := next;
      config := config.(upstream := next);
    }

    /** The old server taken out of service: nothing accepts until another takes its place. */
    ghost predicate OutOfService()
      reads this, created
    {
      && running && proxy != null && proxy in retired
      && (forall p :: p in retired ==> p in created)
      && (forall p :: p in created ==> p in retired && p.Valid() && p.closed)
    }

    method RetireProxy()
      requires ServersOk() && running
      modifies this`retired, created
      ensures OutOfService() && retired == old(retired) + [proxy] && forall p :: p in created ==> p.connections == old(p.connections)
    {
      proxy.StopAccepting();
      retired := retired + [proxy];
    }

    /** A new server in the place of the retired one, or nothing changed when it cannot listen. */
    method Renew(fails: bool) returns (ok: bool)
      requires OutOfService()
      modifies this`proxy, this`created
      ensures ok == !fails && ServersOk() && proxy != null && proxy.listening == ok && (ok ==> proxy.host == access.listenHost)
      ensures if ok then fresh(proxy) && created == old(created) + {proxy} && proxy.connections == {}
        else OutOfService() && proxy == old(proxy) && created == old(created)
    {
      var p := Create(fails);
      ok := p != null;
      if ok {
        proxy := p;
      }
    }

    /** setAccessControl: the file first; a new listener when the host changes, the old settings back when it cannot listen. */
    method ChangeAccess(next: Access, f: Faults) returns (ok: bool)
      requires Valid()
      modifies this`access, this`config, this`proxy, this`retired, this`created, created
      ensures Valid()
      ensures ok == Succeeds(old(Now()), SetAccessControl(next), f) && Now() == Next(old(Now()), SetAccessControl(next), f)
      ensures old(created) <= created && fresh(created - old(created))
      ensures forall p :: p in old(created) ==> p.connections == old(p.connections)
      ensures forall p :: p in created - old(created) ==> p.connections == {}
    {
      var before := access;
      var restart := running && before.listenHost != next.listenHost;
      if f.persist {
        return false;
      }
      if restart {
        RetireProxy();
        access := next;
        var renewed := Renew(f.listen);
        if !renewed {
          access := before;
          var _ := Renew(f.listenAgain);
          return false;
        }
      } else {
        access := next;
      }
      config := config.(access := next);
      ok := true;
    }

    /** The decrypting switch, and the configuration after it. */
    method ChangeDecrypt(on: bool, f: Faults) returns (ok: bool)
      requires Valid()
      modifies this`config, decrypt, decrypt.active
      ensures Valid() && ok == Succeeds(old(Now()), SetDecryptHttps(on), f) && Now() == Next(old(Now()), SetDecryptHttps(on), f)
    {
      ok := decrypt.SetEnabled(on, f.interceptor, f.persist);
      if ok {
        config := config.(decrypting := on);
      }
    }

    /** apply: one command, with what it answers and what it leaves. */
    method Apply(command: Command, f: Faults) returns (ok: bool)
      requires Valid()
      modifies this, created, decrypt, decrypt.active
      ensures Valid() && ok == Succeeds(old(Now()), command, f) && Now() == Next(old(Now()), command, f)
      ensures old(created) <= created && fresh(created - old(created))
      ensures forall p :: p in old(created) ==> p.connections == old(p.connections)
      ensures forall p :: p in created - old(created) ==> p.connections == {}
    {
      match command {
        case SetDecryptHttps(on) => ok := ChangeDecrypt(on, f);
        case SetUpstream(u) => ok := ChangeUpstream(u, f);
        case SetAccessControl(a) => ok := ChangeAccess(a, f);
        case StartProxy => ok := Start(f);
        case StopProxy =>
          Stop();
          ok := true;
      }
    }

    /** The server a client reaches: a retired one, whose listener may still hold a client, or the current one. */
    method ServerAt(at: nat) returns (p: ProxyServer?)
      requires Valid()
      ensures p == null || p in created
    {
      p := if at < |retired| then retired[at] else proxy;
    }

    /** A client comes in. */
    method Arrive(at: nat, allowed: bool)
      requires Valid()
      modifies created
      ensures Valid() && Now() == old(Now())
      ensures forall p, c :: p in created && c in p.connections ==> c in old(p.connections) || fresh(c)
    {
      var p := ServerAt(at);
      if p != null {
        var c := p.Accept(allowed);
      }
    }

    /** A connection ends. */
    method Depart(at: nat, read: bool)
      requires Valid()
      modifies created, set p, c | p in created && c in p.connections :: c
      ensures Valid() && Now() == old(Now())
      ensures forall p :: p in created ==> p.connections <= old(p.connections)
    {
      var p := ServerAt(at);
      if p != null && p.connections != {} {
        var c :| c in p.connections;
        p.Finish(c, read);
      }
    }

    /** Run: any commands with any failures, any arrivals and any departures, one after the other. */
    method Run(orders: seq<Order>)
      requires Valid()
      modifies this, created, decrypt, decrypt.active, set p, c | p in created && c in p.connections :: c
      ensures Valid() && Now() == After(old(Now()), orders)
      ensures old(created) <= created && fresh(created - old(created))
      ensures forall p, c :: p in created && c in p.connections ==> fresh(c) || (p in old(created) && c in old(p.connections))
    {
      ghost var first := created;
      for i := 0 to |orders|
        invariant Valid() && Now() == After(old(Now()), orders[..i])
        invariant first <= created && fresh(created - first)
        invariant forall p, c :: p in created && c in p.connections ==> fresh(c) || (p in first && c in old(p.connections))
      {
        assert orders[..i + 1] == orders[..i] + [orders[i]];
        AfterSnoc(old(Now()), orders[..i], orders[i]);
        match orders[i] {
          case Issue(command, f) => var ok := Apply(command, f);
          case Arrival(at, allowed) => Arrive(at, allowed);
          case Departure(at, read) => Depart(at, read);
        }
      }
      assert orders[..|orders|] == orders;
    }

    /** A run and then shutdown: nothing listens, and no tracked connection is open. */
    method RunAndShutDown(orders: seq<Order>)
      requires Valid()
      modifies this, created, decrypt, decrypt.active, set p, c | p in created && c in p.connections :: c
      ensures !running && old(created) <= created && decrypt.InMode()
      ensures forall p :: p in created ==> p.closed && !p.listening && forall c :: c in p.connections ==> !c.open
    {
      Run(orders);
      CloseAllProxies();
    }

    /** At most one listener accepts, and none once the proxy is stopped. */
    lemma OneListener(p: ProxyServer, q: ProxyServer)
      requires Valid() && p in created && q in created && p.listening && q.listening
      ensures p == q == proxy && running
    {
    }
  }
}
