/** The forwarding loops of a client and its servers (proxy.go, conn.go, the end of redirect.go, multiserver.go)
    and the connection counter with its limit (listen.go), as a transition system over all interleavings.

    Every session of a client with a server has two loops: `up` reads from the client, `down` from the
    server. Recv is one step; the checks after it, with processing and sending or leaving, are another. */
module Forwarding {
  datatype Input = Packet | Closed | Failed
  datatype Loop = Waiting | Holding(input: Input) | Done

  /** swallowed and dropped: the packets that the client-side and the server-side loop took and did not pass
      on because the session was stopped. */
  datatype Session = Session(stopped: bool, open: bool, up: Loop, down: Loop, swallowed: nat, dropped: nat)

  /** A rejected client never got loops: it left, or was denied, while it was being initialised. */
  datatype Phase = Initialising | Rejected | Proxied

  /** A packet that passed the checks of a loop, with the number of redirects completed by then. */
  datatype Forward = Forward(fromClient: bool, session: nat, redirects: nat)

  datatype Client = Client(phase: Phase, open: bool, sessions: seq<Session>, decremented: nat, log: seq<Forward>)

  datatype Action =
    | CloseClient
    | CloseServer(i: nat)
    | InitLost                      // the client is gone: the initialiser gives its place back
    | InitDenied                    // access denied or no server: nobody gives the place back
    | InitDone
    | Redirect
    | RecvUp(i: nat, input: Input)
    | CheckUp(i: nat)
    | RecvDown(i: nat, input: Input)
    | CheckDown(i: nat)

  function Fresh(open: bool): Client {
    Client(Initialising, open, [], 0, [])
  }

  function NewSession(): Session {
    Session(false, true, Waiting, Waiting, 0, 0)
  }

  /** The current server's session. */
  function Last(c: Client): nat
    requires c.sessions != []
  {
    |c.sessions| - 1
  }

  predicate Enabled(c: Client, a: Action) {
    match a
    case CloseClient => true
    case CloseServer(i) => i < |c.sessions|
    case InitLost => c.phase == Initialising && !c.open
    case InitDenied => c.phase == Initialising
    case InitDone => c.phase == Initialising
    case Redirect => c.phase == Proxied && c.sessions != []
    case RecvUp(i, input) => i < |c.sessions| && c.sessions[i].up == Waiting && (input == Closed ==> !c.open)
    case CheckUp(i) => i < |c.sessions| && c.sessions[i].up.Holding?
    case RecvDown(i, input) =>
      i < |c.sessions| && c.sessions[i].down == Waiting && (input == Closed ==> !c.sessions[i].open)
    case CheckDown(i) => i < |c.sessions| && c.sessions[i].down.Holding?
  }

  function Put(c: Client, i: nat, s: Session): Client
    requires i < |c.sessions|
  {
    c.(sessions := c.sessions[i := s])
  }

  function Logged(c: Client, fromClient: bool, i: nat): Client
    requires c.sessions != []
  {
    c.(log := c.log + [Forward(fromClient, i, Last(c))])
  }

  /** One round of Proxy(client, server) after its Recv. The source always forwards; a stopped destination
      ends the loop, whatever was received, and the old server is closed. */
  function AfterCheckUp(c: Client, i: nat): Client
    requires Enabled(c, CheckUp(i))
  {
    var s := c.sessions[i];
    if s.stopped then
      Put(c, i, s.(up := Done, open := false, swallowed := s.swallowed + if s.up.input == Packet then 1 else 0))
    else match s.up.input
      case Closed => Put(c, i, s.(up := Done, open := false)).(decremented := c.decremented + 1)
      case Failed => Put(c, i, s.(up := Waiting))
      case Packet => Logged(Put(c, i, s.(up := Waiting)), true, i)
  }

  /** One round of Proxy(server, client) after its Recv: a stopped source ends the loop at once, a lost
      server closes the client. */
  function AfterCheckDown(c: Client, i: nat): Client
    requires Enabled(c, CheckDown(i))
  {
    var s := c.sessions[i];
    if s.stopped then
      Put(c, i, s.(down := Done, dropped := s.dropped + if s.down.input == Packet then 1 else 0))
    else match s.down.input
      case Closed => Put(c, i, s.(down := Done)).(open := false)
      case Failed => Put(c, i, s.(down := Waiting))
      case Packet => Logged(Put(c, i, s.(down := Waiting)), false, i)
  }

  function Act(c: Client, a: Action): Client
    requires Enabled(c, a)
  {
    match a
    case CloseClient => c.(open := false)
    case CloseServer(i) => Put(c, i, c.sessions[i].(open := false))
    case InitLost => c.(phase := Rejected, decremented := c.decremented + 1)
    case InitDenied => c.(phase := Rejected, open := false)
    case InitDone => c.(phase := Proxied, sessions := [NewSession()])
    case Redirect =>
      c.(sessions := c.sessions[Last(c) := c.sessions[Last(c)].(stopped := true)] + [NewSession()])
    case RecvUp(i, input) => Put(c, i, c.sessions[i].(up := Holding(input)))
    case CheckUp(i) => AfterCheckUp(c, i)
    case RecvDown(i, input) => Put(c, i, c.sessions[i].(down := Holding(input)))
    case CheckDown(i) => AfterCheckDown(c, i)
  }

  // ----- one client -----

  /** Stale sessions are stopped, their loops keep back at most one packet each and only on leaving, and every
      client-side loop closes its server when it leaves. The loops of the current session leave only when
      the client has closed, the server-side one only when the server has, too. */
  ghost predicate GoodSession(s: Session, current: bool, open: bool) {
    && (s.stopped <==> !current)
    && s.swallowed <= (if s.stopped && s.up.Done? then 1 else 0)
    && s.dropped <= (if s.stopped && s.down.Done? then 1 else 0)
    && (s.up.Done? ==> !s.open)
    && (s.up.Done? && current ==> !open)
    && (s.down.Done? && current ==> !open && !s.open)
    && (s.down == Holding(Closed) ==> !s.open)
    && (s.up == Holding(Closed) ==> !open)
  }

  ghost predicate Inv(c: Client) {
    && (c.phase == Proxied <==> c.sessions != [])
    && c.decremented <= 1
    && (c.decremented == 1 ==> !c.open)
    && (c.phase == Initialising ==> c.decremented == 0)
    && (c.phase == Rejected ==> !c.open)
    && (c.phase == Proxied ==> (c.decremented == 1 <==> c.sessions[Last(c)].up.Done?))
    && (forall i :: 0 <= i < |c.sessions| ==> GoodSession(c.sessions[i], i == |c.sessions| - 1, c.open))
    && (forall k :: 0 <= k < |c.log| ==> c.log[k].session == c.log[k].redirects)
  }

  /** A switch to another server is fine unless the loop of the current one has already given the client's
      place back. Redirect as one atomic step of an open connection always satisfies this. */
  predicate TimelyRedirect(c: Client, a: Action) {
    a.Redirect? && c.sessions != [] ==> !c.sessions[Last(c)].up.Done?
  }

  lemma OpenMeansTimely(c: Client, a: Action)
    requires Inv(c) && c.open
    ensures TimelyRedirect(c, a)
  {
  }

  lemma RedirectKeepsInv(c: Client)
    requires Inv(c) && Enabled(c, Redirect) && TimelyRedirect(c, Redirect)
    ensures Inv(Act(c, Redirect))
  {
    var c' := Act(c, Redirect);
    forall i | 0 <= i < |c'.sessions| ensures GoodSession(c'.sessions[i], i == |c'.sessions| - 1, c'.open) {
      if i < |c.sessions| {
        assert GoodSession(c.sessions[i], i == |c.sessions| - 1, c.open);
      }
    }
  }

  lemma CheckUpKeepsInv(c: Client, i: nat)
    requires Inv(c) && Enabled(c, CheckUp(i))
    ensures Inv(Act(c, CheckUp(i)))
  {
    assert GoodSession(c.sessions[i], i == |c.sessions| - 1, c.open);
  }

  lemma CheckDownKeepsInv(c: Client, i: nat)
    requires Inv(c) && Enabled(c, CheckDown(i))
    ensures Inv(Act(c, CheckDown(i)))
  {
    assert GoodSession(c.sessions[i], i == |c.sessions| - 1, c.open);
  }

  lemma ActKeepsInv(c: Client, a: Action)
    requires Inv(c) && Enabled(c, a) && TimelyRedirect(c, a)
    ensures Inv(Act(c, a))
  {
    if a.Redirect? {
      RedirectKeepsInv(c);
    } else if a.CheckUp? {
      CheckUpKeepsInv(c, a.i);
    } else if a.CheckDown? {
      CheckDownKeepsInv(c, a.i);
    }
  }

  /** The switch is the only place where atomicity matters: if the current loop has already left, and only
      then, the new session's loop will count the same client down a second time. */
  lemma SecondDecrementIff(c: Client)
    requires Inv(c) && c.phase == Proxied && !c.open
    ensures var c1 := Act(c, Redirect);
      var n := |c.sessions|;
      && Enabled(c1, RecvUp(n, Closed))
      && Enabled(Act(c1, RecvUp(n, Closed)), CheckUp(n))
      && (Act(Act(c1, RecvUp(n, Closed)), CheckUp(n)).decremented == 2 <==> !TimelyRedirect(c, Redirect))
  {
  }

  function Swallowed(ss: seq<Session>): nat {
    if ss == [] then 0 else Swallowed(ss[..|ss| - 1]) + ss[|ss| - 1].swallowed
  }

  function Dropped(ss: seq<Session>): nat {
    if ss == [] then 0 else Dropped(ss[..|ss| - 1]) + ss[|ss| - 1].dropped
  }

  lemma {:induction false} SwallowedBound(ss: seq<Session>)
    requires forall i :: 0 <= i < |ss| ==> ss[i].swallowed <= if ss[i].stopped then 1 else 0
    requires forall i :: 0 <= i < |ss| ==> ss[i].dropped <= if ss[i].stopped then 1 else 0
    ensures Swallowed(ss) <= |ss| && Dropped(ss) <= |ss|
    ensures ss != [] && !ss[|ss| - 1].stopped ==> Swallowed(ss) <= |ss| - 1 && Dropped(ss) <= |ss| - 1
  {
    if ss != [] {
      var front := ss[..|ss| - 1];
      assert forall i :: 0 <= i < |front| ==> front[i] == ss[i];
      SwallowedBound(front);
    }
  }

  ghost predicate Run(c: Client, acts: seq<Action>)
    decreases |acts|
  {
    acts == [] || (Enabled(c, acts[0]) && TimelyRedirect(c, acts[0]) && Run(Act(c, acts[0]), acts[1..]))
  }

  ghost function Exec(c: Client, acts: seq<Action>): Client
    requires Run(c, acts)
    decreases |acts|
  {
    if acts == [] then c else Exec(Act(c, acts[0]), acts[1..])
  }

  lemma {:induction false} RunKeepsInv(c: Client, acts: seq<Action>)
    requires Inv(c) && Run(c, acts)
    ensures Inv(Exec(c, acts))
    decreases |acts|
  {
    if acts != [] {
      ActKeepsInv(c, acts[0]);
      RunKeepsInv(Act(c, acts[0]), acts[1..]);
    }
  }

  function Redirects(acts: seq<Action>): nat {
    if acts == [] then 0 else (if acts[0].Redirect? then 1 else 0) + Redirects(acts[1..])
  }

  lemma {:induction false} SessionsCountRedirects(c: Client, acts: seq<Action>)
    requires Inv(c) && Run(c, acts) && c.phase == Proxied
    ensures var c' := Exec(c, acts); c'.phase == Proxied && |c'.sessions| == |c.sessions| + Redirects(acts)
    decreases |acts|
  {
    hide GoodSession;
    if acts != [] {
      ActKeepsInv(c, acts[0]);
      SessionsCountRedirects(Act(c, acts[0]), acts[1..]);
    }
  }

  /** Over every interleaving, from the moment the loops start and after k redirects: exactly one
      client-side loop has a destination that is not stopped; every packet that ever passed the checks of
      a loop belonged to the server that was current then; stale loops kept back at most k packets in all on
      either side; a client-side loop that has left has closed its server; and the loops of the current
      session run as long as the client is open. */
  lemma StaleForwardingIsBounded(open: bool, acts: seq<Action>)
    requires Run(Act(Fresh(open), InitDone), acts)
    ensures var c := Exec(Act(Fresh(open), InitDone), acts);
      && |c.sessions| == 1 + Redirects(acts)
      && (forall i :: 0 <= i < |c.sessions| ==> (!c.sessions[i].stopped <==> i == Redirects(acts)))
      && (forall k :: 0 <= k < |c.log| ==> c.log[k].session == c.log[k].redirects)
      && Swallowed(c.sessions) <= Redirects(acts) && Dropped(c.sessions) <= Redirects(acts)
      && (forall i :: 0 <= i < |c.sessions| && c.sessions[i].up.Done? ==> !c.sessions[i].open)
      && (c.open ==> !c.sessions[Redirects(acts)].up.Done? && !c.sessions[Redirects(acts)].down.Done?)
  {
    var c0 := Act(Fresh(open), InitDone);
    RunKeepsInv(c0, acts);
    SessionsCountRedirects(c0, acts);
    var c := Exec(c0, acts);
    forall i | 0 <= i < |c.sessions|
      ensures c.sessions[i].swallowed <= if c.sessions[i].stopped then 1 else 0
      ensures c.sessions[i].dropped <= if c.sessions[i].stopped then 1 else 0
    {
      assert GoodSession(c.sessions[i], i == |c.sessions| - 1, c.open);
    }
    SwallowedBound(c.sessions);
  }

  // ----- every packet is accounted for -----

  /** The action by which a loop of the session at i takes a packet. */
  predicate Receipt(a: Action, fromClient: bool, i: nat) {
    a == if fromClient then RecvUp(i, Packet) else RecvDown(i, Packet)
  }

  function Received(acts: seq<Action>, fromClient: bool, i: nat): nat {
    if acts == [] then 0 else (if Receipt(acts[0], fromClient, i) then 1 else 0) + Received(acts[1..], fromClient, i)
  }

  function Forwarded(log: seq<Forward>, fromClient: bool, i: nat): nat {
    if log == [] then 0
    else
      var f := log[|log| - 1];
      Forwarded(log[..|log| - 1], fromClient, i) + if f.fromClient == fromClient && f.session == i then 1 else 0
  }

  /** The packets that the loop kept back. */
  function Lost(c: Client, fromClient: bool, i: nat): nat {
    if i >= |c.sessions| then 0 else if fromClient then c.sessions[i].swallowed else c.sessions[i].dropped
  }

  function InHand(c: Client, fromClient: bool, i: nat): nat {
    if i >= |c.sessions| then 0
    else if (if fromClient then c.sessions[i].up else c.sessions[i].down) == Holding(Packet) then 1 else 0
  }

  function Accounted(c: Client, fromClient: bool, i: nat): nat {
    Forwarded(c.log, fromClient, i) + Lost(c, fromClient, i) + InHand(c, fromClient, i)
  }

  /** The loops of the session that a switch begins are waiting and their server is open; the session before it is
      stopped; nothing else changes. */
  lemma SwitchBegins(c: Client)
    requires Inv(c) && c.phase == Proxied
    ensures Enabled(c, Redirect)
    ensures var c' := Act(c, Redirect);
      && |c'.sessions| == |c.sessions| + 1 && c' == c.(sessions := c'.sessions)
      && c'.sessions[|c.sessions|] == Session(false, true, Waiting, Waiting, 0, 0)
      && c'.sessions[Last(c)] == c.sessions[Last(c)].(stopped := true)
      && (forall i :: 0 <= i < Last(c) ==> c'.sessions[i] == c.sessions[i])
  {
  }

  lemma ForwardedMore(log: seq<Forward>, f: Forward, fromClient: bool, i: nat)
    ensures Forwarded(log + [f], fromClient, i) ==
            Forwarded(log, fromClient, i) + if f.fromClient == fromClient && f.session == i then 1 else 0
  {
    assert (log + [f])[..|log|] == log;
  }

  /** A packet in the hands of a loop whose session is not stopped is passed on, once and in that session. */
  lemma HeldIsForwarded(c: Client, fromClient: bool, i: nat)
    requires i < |c.sessions| && !c.sessions[i].stopped && InHand(c, fromClient, i) == 1
    ensures var a := if fromClient then CheckUp(i) else CheckDown(i);
      && Enabled(c, a)
      && Act(c, a).log == c.log + [Forward(fromClient, i, |c.sessions| - 1)]
      && InHand(Act(c, a), fromClient, i) == 0 && Lost(Act(c, a), fromClient, i) == Lost(c, fromClient, i)
  {
  }

  ghost predicate Accounts(c: Client, a: Action, c': Client, fromClient: bool, i: nat) {
    Accounted(c', fromClient, i) == Accounted(c, fromClient, i) + if Receipt(a, fromClient, i) then 1 else 0
  }

  lemma CheckUpAccounts(c: Client, j: nat, fromClient: bool, i: nat)
    requires Enabled(c, CheckUp(j))
    ensures Accounts(c, CheckUp(j), Act(c, CheckUp(j)), fromClient, i)
  {
    hide Forwarded;
    ForwardedMore(c.log, Forward(true, j, Last(c)), fromClient, i);
  }

  lemma CheckDownAccounts(c: Client, j: nat, fromClient: bool, i: nat)
    requires Enabled(c, CheckDown(j))
    ensures Accounts(c, CheckDown(j), Act(c, CheckDown(j)), fromClient, i)
  {
    hide Forwarded;
    ForwardedMore(c.log, Forward(false, j, Last(c)), fromClient, i);
  }

  /** A waiting loop of the current session can take a packet at any time, and then passes it on. */
  lemma PacketPasses(c: Client, fromClient: bool)
    requires Inv(c) && c.phase == Proxied
    requires (if fromClient then c.sessions[Last(c)].up else c.sessions[Last(c)].down) == Waiting
    ensures var i := Last(c);
      var acts := if fromClient then [RecvUp(i, Packet), CheckUp(i)] else [RecvDown(i, Packet), CheckDown(i)];
      && Run(c, acts) && Exec(c, acts) == c.(log := c.log + [Forward(fromClient, i, i)])
  {
    var i := Last(c);
    var a, b := if fromClient then RecvUp(i, Packet) else RecvDown(i, Packet),
                if fromClient then CheckUp(i) else CheckDown(i);
    TakenAndPassed(c, fromClient, i, a, b);
    hide Act, Enabled, Inv, Run, Exec;
    var c1 := Act(c, a);
    var c2 := Act(c1, b);
    NoMore(c2);
    RunOne(c1, b, []);
    RunOne(c, a, [b] + []);
    assert [a] + ([b] + []) == [a, b];
  }

  lemma NoMore(c: Client)
    ensures Run(c, []) && Exec(c, []) == c
  {
  }

  lemma TakenAndPassed(c: Client, fromClient: bool, i: nat, a: Action, b: Action)
    requires Inv(c) && c.phase == Proxied && i == Last(c)
    requires (if fromClient then c.sessions[i].up else c.sessions[i].down) == Waiting
    requires a == if fromClient then RecvUp(i, Packet) else RecvDown(i, Packet)
    requires b == if fromClient then CheckUp(i) else CheckDown(i)
    ensures Enabled(c, a) && Enabled(Act(c, a), b)
    ensures Act(Act(c, a), b) == c.(log := c.log + [Forward(fromClient, i, i)])
  {
    assert GoodSession(c.sessions[i], true, c.open);
    assert Act(Act(c, a), b).sessions == c.sessions;
  }

  lemma StepAccounts(c: Client, a: Action, fromClient: bool, i: nat)
    requires Inv(c) && Enabled(c, a)
    ensures Accounts(c, a, Act(c, a), fromClient, i)
  {
    hide Forwarded, GoodSession;
    if a.CheckUp? {
      CheckUpAccounts(c, a.i, fromClient, i);
    } else if a.CheckDown? {
      CheckDownAccounts(c, a.i, fromClient, i);
    } else {
      hide AfterCheckUp, AfterCheckDown;
    }
  }

  lemma {:induction false} RunAccounts(c: Client, acts: seq<Action>, fromClient: bool, i: nat)
    requires Inv(c) && Run(c, acts)
    ensures Accounted(Exec(c, acts), fromClient, i) == Accounted(c, fromClient, i) + Received(acts, fromClient, i)
    decreases |acts|
  {
    hide Inv, Accounted, Receipt;
    if acts != [] {
      ActKeepsInv(c, acts[0]);
      StepAccounts(c, acts[0], fromClient, i);
      RunAccounts(Act(c, acts[0]), acts[1..], fromClient, i);
    }
  }

  /** Over every run, for every session and either direction: the packets taken by the loop are those it passed
      on, those it kept back, at most one and only as a stopped session's loop that has left, and the one it
      may have in its hands. */
  lemma PacketsAreConserved(open: bool, acts: seq<Action>, fromClient: bool, i: nat)
    requires Run(Fresh(open), acts)
    ensures var c := Exec(Fresh(open), acts);
      && Received(acts, fromClient, i)
         == Forwarded(c.log, fromClient, i) + Lost(c, fromClient, i) + InHand(c, fromClient, i)
      && (Lost(c, fromClient, i) > 0 ==>
            && Lost(c, fromClient, i) == 1 && c.sessions[i].stopped
            && (if fromClient then c.sessions[i].up else c.sessions[i].down) == Done)
  {
    FreshInv(open);
    RunKeepsInv(Fresh(open), acts);
    RunAccounts(Fresh(open), acts, fromClient, i);
    var c := Exec(Fresh(open), acts);
    if i < |c.sessions| {
      assert GoodSession(c.sessions[i], i == |c.sessions| - 1, c.open);
    }
  }

  /** When the current server closes, its waiting loop learns of it and closes the client. */
  lemma LostServerClosesClient(c: Client)
    requires Inv(c) && c.phase == Proxied && c.sessions[Last(c)].down == Waiting
    ensures var i := Last(c);
      var acts := [CloseServer(i), RecvDown(i, Closed), CheckDown(i)];
      && Run(c, acts) && !Exec(c, acts).open && Exec(c, acts).log == c.log
  {
    var i := Last(c);
    assert GoodSession(c.sessions[i], true, c.open);
    var c1 := Act(c, CloseServer(i));
    var c2 := Act(c1, RecvDown(i, Closed));
    var c3 := Act(c2, CheckDown(i));
    NoMore(c3);
    hide Run, Exec, Inv;
    RunOne(c2, CheckDown(i), []);
    RunOne(c1, RecvDown(i, Closed), [CheckDown(i)] + []);
    RunOne(c, CloseServer(i), [RecvDown(i, Closed)] + ([CheckDown(i)] + []));
    assert [CloseServer(i)] + ([RecvDown(i, Closed)] + ([CheckDown(i)] + []))
        == [CloseServer(i), RecvDown(i, Closed), CheckDown(i)];
  }

  // ----- the counter -----

  /** accepting: the single acceptor has found room but not yet counted the new connection. */
  datatype Gateway = Gateway(connected: int, accepting: bool, clients: seq<Client>)

  datatype Event = AcceptCheck | AcceptDone(open: bool) | ClientEvent(n: nat, a: Action)

  predicate GatewayEnabled(g: Gateway, ev: Event) {
    match ev
    case AcceptCheck => !g.accepting
    case AcceptDone(_) => g.accepting
    case ClientEvent(n, a) => n < |g.clients| && Enabled(g.clients[n], a) && TimelyRedirect(g.clients[n], a)
  }

  /** The check and the increment of Accept are separate steps; everything else may happen in between. */
  function GatewayStep(limit: int, g: Gateway, ev: Event): Gateway
    requires GatewayEnabled(g, ev)
  {
    match ev
    case AcceptCheck => if g.connected >= limit then g else g.(accepting := true)
    case AcceptDone(open) => Gateway(g.connected + 1, false, g.clients + [Fresh(open)])
    case ClientEvent(n, a) =>
      var c' := Act(g.clients[n], a);
      g.(clients := g.clients[n := c'], connected := g.connected - (c'.decremented - g.clients[n].decremented))
  }

  ghost predicate GatewayRun(limit: int, g: Gateway, evs: seq<Event>)
    decreases |evs|
  {
    evs == [] || (GatewayEnabled(g, evs[0]) && GatewayRun(limit, GatewayStep(limit, g, evs[0]), evs[1..]))
  }

  ghost function GatewayExec(limit: int, g: Gateway, evs: seq<Event>): Gateway
    requires GatewayRun(limit, g, evs)
    decreases |evs|
  {
    if evs == [] then g else GatewayExec(limit, GatewayStep(limit, g, evs[0]), evs[1..])
  }

  /** The accepted clients whose place has not been given back. */
  function Held(cs: seq<Client>): int {
    if cs == [] then 0 else Held(cs[..|cs| - 1]) + 1 - cs[|cs| - 1].decremented
  }

  function Open(cs: seq<Client>): nat {
    if cs == [] then 0 else Open(cs[..|cs| - 1]) + if cs[|cs| - 1].open then 1 else 0
  }

  /** A client that was denied while it was being initialised. */
  predicate Leaked(c: Client) {
    c.phase == Rejected && c.decremented == 0
  }

  function LeakedCount(cs: seq<Client>): nat {
    if cs == [] then 0 else LeakedCount(cs[..|cs| - 1]) + if Leaked(cs[|cs| - 1]) then 1 else 0
  }

  lemma {:induction false} HeldUpdate(cs: seq<Client>, n: nat, c: Client)
    requires n < |cs|
    ensures Held(cs[n := c]) == Held(cs) + cs[n].decremented - c.decremented
  {
    var cs' := cs[n := c];
    if n == |cs| - 1 {
      assert cs'[..|cs| - 1] == cs[..|cs| - 1];
    } else {
      assert cs'[..|cs| - 1] == cs[..|cs| - 1][n := c];
      HeldUpdate(cs[..|cs| - 1], n, c);
    }
  }

  /** A client that has closed and whose place will still be given back. */
  predicate Owed(c: Client) {
    !c.open && !Leaked(c) && c.decremented == 0
  }

  function OwedCount(cs: seq<Client>): nat {
    if cs == [] then 0 else OwedCount(cs[..|cs| - 1]) + if Owed(cs[|cs| - 1]) then 1 else 0
  }

  lemma {:induction false} HeldExactly(cs: seq<Client>)
    requires forall n :: 0 <= n < |cs| ==> Inv(cs[n])
    ensures Held(cs) == Open(cs) + OwedCount(cs) + LeakedCount(cs)
  {
    hide GoodSession;
    if cs != [] {
      var front := cs[..|cs| - 1];
      assert forall n :: 0 <= n < |front| ==> front[n] == cs[n];
      HeldExactly(front);
    }
  }

  ghost predicate GatewayInv(limit: int, g: Gateway) {
    && (forall n :: 0 <= n < |g.clients| ==> Inv(g.clients[n]))
    && g.connected == Held(g.clients)
    && g.connected + (if g.accepting then 1 else 0) <= if limit < 0 then 0 else limit
  }

  lemma GatewayStepKeepsInv(limit: int, g: Gateway, ev: Event)
    requires GatewayInv(limit, g) && GatewayEnabled(g, ev)
    ensures GatewayInv(limit, GatewayStep(limit, g, ev))
  {
    hide Inv, Act, Enabled;
    match ev
    case AcceptCheck =>
    case AcceptDone(open) =>
      assert (g.clients + [Fresh(open)])[..|g.clients|] == g.clients;
      FreshInv(open);
    case ClientEvent(n, a) =>
      ActKeepsInv(g.clients[n], a);
      DecrementsOnly(g.clients[n], a);
      HeldUpdate(g.clients, n, Act(g.clients[n], a));
  }

  lemma FreshInv(open: bool)
    ensures Inv(Fresh(open))
  {
  }

  lemma DecrementsOnly(c: Client, a: Action)
    requires Enabled(c, a)
    ensures c.decremented <= Act(c, a).decremented
  {
  }

  lemma {:induction false} GatewayRunKeepsInv(limit: int, g: Gateway, evs: seq<Event>)
    requires GatewayInv(limit, g) && GatewayRun(limit, g, evs)
    ensures GatewayInv(limit, GatewayExec(limit, g, evs))
    decreases |evs|
  {
    hide GatewayInv, GatewayStep, GatewayEnabled;
    if evs != [] {
      GatewayStepKeepsInv(limit, g, evs[0]);
      GatewayRunKeepsInv(limit, GatewayStep(limit, g, evs[0]), evs[1..]);
    }
  }

  /** Over every run: the counter is exactly the number of accepted clients whose place has not been given
      back. These are the open clients, the closed ones whose loop has not left yet, and those denied during
      initialisation; so open and denied clients together never exceed the counter, nor the counter the
      limit. No place is given back twice or before its client has closed. */
  lemma PlayerLimitHolds(limit: int, evs: seq<Event>)
    requires GatewayRun(limit, Gateway(0, false, []), evs)
    ensures var g := GatewayExec(limit, Gateway(0, false, []), evs);
      && g.connected == Open(g.clients) + OwedCount(g.clients) + LeakedCount(g.clients)
      && g.connected <= (if limit < 0 then 0 else limit)
      && (forall n :: 0 <= n < |g.clients| ==>
            g.clients[n].decremented <= 1 && (g.clients[n].decremented == 1 ==> !g.clients[n].open))
  {
    var g0 := Gateway(0, false, []);
    GatewayRunKeepsInv(limit, g0, evs);
    HeldExactly(GatewayExec(limit, g0, evs).clients);
  }

  /** There is room for one more exactly as long as those clients are fewer than the limit. */
  lemma AcceptedIff(limit: int, evs: seq<Event>)
    requires GatewayRun(limit, Gateway(0, false, []), evs)
    requires !GatewayExec(limit, Gateway(0, false, []), evs).accepting
    ensures var g := GatewayExec(limit, Gateway(0, false, []), evs);
      && GatewayEnabled(g, AcceptCheck)
      && (GatewayEnabled(GatewayStep(limit, g, AcceptCheck), AcceptDone(true))
          <==> Open(g.clients) + OwedCount(g.clients) + LeakedCount(g.clients) < limit)
  {
    PlayerLimitHolds(limit, evs);
  }

  // ----- which places are given back -----

  lemma LeakedStays(c: Client, a: Action)
    requires Inv(c) && Leaked(c) && Enabled(c, a)
    ensures Leaked(Act(c, a))
  {
  }

  lemma {:induction false} LeakedThroughout(c: Client, acts: seq<Action>)
    requires Inv(c) && Leaked(c) && Run(c, acts)
    ensures Leaked(Exec(c, acts))
    decreases |acts|
  {
    hide Inv, Leaked;
    if acts != [] {
      ActKeepsInv(c, acts[0]);
      LeakedStays(c, acts[0]);
      LeakedThroughout(Act(c, acts[0]), acts[1..]);
    }
  }

  lemma RunOne(c: Client, a: Action, acts: seq<Action>)
    requires Enabled(c, a) && TimelyRedirect(c, a) && Run(Act(c, a), acts)
    ensures Run(c, [a] + acts) && Exec(c, [a] + acts) == Exec(Act(c, a), acts)
  {
    assert ([a] + acts)[1..] == acts;
  }

  /** The client closes and its loop learns of it. */
  lemma LoopGivesBack(c: Client) returns (acts: seq<Action>)
    requires Inv(c) && c.phase == Proxied && c.decremented == 0 && !c.open
    ensures Run(c, acts) && Exec(c, acts).decremented == 1
    decreases c.sessions[Last(c)].up.Holding?
  {
    var i := Last(c);
    assert GoodSession(c.sessions[i], true, c.open);
    if c.sessions[i].up.Holding? {
      CheckUpKeepsInv(c, i);
      var c' := Act(c, CheckUp(i));
      if c.sessions[i].up.input == Closed {
        acts := [];
        assert Run(c', acts);
      } else {
        acts := LoopGivesBack(c');
      }
      RunOne(c, CheckUp(i), acts);
      acts := [CheckUp(i)] + acts;
    } else {
      var c1 := Act(c, RecvUp(i, Closed));
      var c2 := Act(c1, CheckUp(i));
      acts := [];
      assert Run(c2, acts);
      RunOne(c1, CheckUp(i), acts);
      RunOne(c, RecvUp(i, Closed), [CheckUp(i)] + acts);
      acts := [RecvUp(i, Closed)] + ([CheckUp(i)] + acts);
    }
  }

  lemma PlaceReturnable(c: Client) returns (acts: seq<Action>)
    requires Inv(c) && c.decremented == 0 && !Leaked(c)
    ensures Run(c, acts) && Exec(c, acts).decremented == 1
  {
    var closed := Act(c, CloseClient);
    ActKeepsInv(c, CloseClient);
    if c.phase == Initialising {
      acts := [];
      assert Run(Act(closed, InitLost), acts);
      RunOne(closed, InitLost, acts);
      acts := [InitLost] + acts;
    } else {
      acts := LoopGivesBack(closed);
    }
    RunOne(c, CloseClient, acts);
    acts := [CloseClient] + acts;
  }

  /** A client whose place is held can still get to give it back if and only if it was not denied during
      its initialisation. */
  lemma PlaceReturnableIff(c: Client)
    requires Inv(c) && c.decremented == 0
    ensures (exists acts: seq<Action> :: Run(c, acts) && Exec(c, acts).decremented == 1) <==> !Leaked(c)
  {
    hide Inv, Run, Exec;
    if Leaked(c) {
      forall acts: seq<Action> | Run(c, acts) ensures Exec(c, acts).decremented == 0 {
        LeakedThroughout(c, acts);
      }
    } else {
      var acts := PlaceReturnable(c);
    }
  }

  /** In every run of the gateway the place of a denied client stays taken. */
  lemma {:induction false} LeakedForever(limit: int, g: Gateway, evs: seq<Event>, n: nat)
    requires GatewayInv(limit, g) && GatewayRun(limit, g, evs) && n < |g.clients| && Leaked(g.clients[n])
    ensures var g' := GatewayExec(limit, g, evs); n < |g'.clients| && Leaked(g'.clients[n])
    decreases |evs|
  {
    hide Inv;
    if evs != [] {
      GatewayStepKeepsInv(limit, g, evs[0]);
      if evs[0].ClientEvent? && evs[0].n == n {
        LeakedStays(g.clients[n], evs[0].a);
      }
      LeakedForever(limit, GatewayStep(limit, g, evs[0]), evs[1..], n);
    }
  }
}
