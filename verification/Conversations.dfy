/**
 * What two processes say to each other about a connection, from the message one sends to what the other does with it:
 * a request, its response, the notice that a connection ended, and the notice of a new port. The relay hands a message
 * with the address of its sender to the device it is for.
 */
module Conversations {
  import opened Bytes
  import C = Connections
  import opened Endpoints
  import opened HashTable
  import opened Headers
  import opened Inbox
  import opened Links
  import opened Locals
  import L = Locals
  import opened LocalRuns
  import opened Messages
  import opened Pairs
  import opened Ports
  import opened Process
  import opened Proto
  import R = Responses
  import opened Server
  import opened Session
  import opened SessionRuns
  import opened Tokens
  import opened Wrappers

  // ----- headers carry no NUL

  lemma {:induction false} JoinPlain(ps: seq<bytes>)
    requires |ps| >= 1 && forall i :: 0 <= i < |ps| ==> 0 !in ps[i]
    ensures 0 !in Join(ps, SLASH)
    decreases |ps|
  {
    if |ps| > 1 {
      JoinPlain(ps[1..]);
    }
  }

  lemma PrintedPlain(size: nat, ps: seq<bytes>)
    requires size >= 1 && |ps| >= 1 && forall i :: 0 <= i < |ps| ==> 0 !in ps[i]
    ensures 0 !in Snprintf(size, Join(ps, SLASH))
  {
    hide Join;
    JoinPlain(ps);
  }

  // ----- the request

  /** A client of a tunnel sends: one message, to the tunnel's peer, with the bytes and a header the peer can read. */
  lemma RequestSent(s: Locals, c: LocalClient, buf: bytes, j: nat)
    requires L.Inv(s) && s.fate.Running? && c in s.live && j < |s.tunnels| && s.tunnels[j].id == c.home
    requires Plain(s.tunnels[j].pair.portRemote) && Plain(s.tunnels[j].pair.portLocal)
    ensures var t, pair := L.Step(s, L.Data(c, buf)), s.tunnels[j].pair;
      && |t.out| == |s.out| + 1 && t == s.(out := s.out + [t.out[|s.out|]])
      && var p := t.out[|s.out|]; var argv := Split(p.tp, SLASH);
         && p.to == pair.device && p.address == pair.pid && p.body == buf && 0 !in p.tp && |p.tp| < 64
         && (|argv| == 4 <==> |pair.portRemote| + |Decimal(c.fd)| <= 46)
         && (|argv| == 4 ==>
               argv[0] == Ascii("tunnel_request") && argv[1] == pair.portRemote && argv[2] == Decimal(c.fd))
  {
    hide Split, Decimal, REQUEST, Kept;
    KnownClient(s, c);
    HomeIs(s.tunnels, j);
    var pair := s.tunnels[j].pair;
    RequestHeaderKeepsThree(pair.portRemote, c.fd, pair.portLocal);
    FdSurvivesPrint(c.fd);
    DecimalPlain(c.fd);
    NamesPlain();
    Kinds();
    PrintedPlain(64, [REQUEST, pair.portRemote, Snprintf(8, Decimal(c.fd)), pair.portLocal]);
  }

  /** A first request for a configured port makes an endpoint of that port and descriptor, whose client has the bytes. */
  lemma RequestOpens(e: Ends, device: bytes, from: bytes, port: bytes, fd: bytes, body: bytes, attempt: Attempt,
                     allowed: seq<int>)
    requires Endpoints.Inv(e) && SnAtoi(port, 8) in allowed && ClientOutcome(attempt).Stays?
    requires forall i :: 0 <= i < |e.list| ==> e.list[i].key != from + fd
    requires |from + fd| <= SNB_MAX && |port| <= SNB_MAX
    ensures var r := Requested(e, allowed, device, from, port, fd, body, attempt);
      && r.list == [Endpoint(from + fd, fd, port, from, e.made)] + e.list && Endpoints.Inv(r)
      && Endpoints.Queue(r, e.made) == [body] && r.out == e.out
  {
    hide First, Clients, Endpoints.Distinct;
    FirstIs(e.list, ForKey(from + fd), |e.list|);
    var ev := Endpoints.Request(device, from, port, fd, body, attempt);
    C.StayingIsLinked(e, ev, allowed);
    StepKeepsInvIff(e, ev, allowed);
  }

  // ----- the response

  /** What a backend sends goes back to the sender of the request, with the endpoint's port and descriptor. */
  lemma ResponseSent(e: Ends, x: Endpoint, reply: bytes)
    requires Endpoints.Inv(e) && x in e.list && Plain(x.backendPort) && Plain(x.remoteFd)
    ensures var r := Received(e, x.client, reply);
      && |r.out| == |e.out| + 1 && r == e.(out := e.out + [r.out[|e.out|]])
      && var p := r.out[|e.out|];
         && p.to == Ascii("device") && p.address == x.pid && p.body == reply && 0 !in p.tp && |p.tp| < 64
         && (Split(p.tp, SLASH) == [Ascii("tunnel_response"), x.backendPort, x.remoteFd]
             <==> |x.backendPort| + |x.remoteFd| <= 46)
  {
    hide First, Split, Clients, RESPONSE;
    ClientOf(e.list, x.client);
    var k :| 0 <= k < |e.list| && e.list[k] == x;
    var i := First(e.list, ForClient(x.client));
    SameEndpoint(e, i, k);
    ResponseHeaderTokensIff(x.backendPort, x.remoteFd);
    NamesPlain();
    Kinds();
    PrintedPlain(64, [RESPONSE, x.backendPort, x.remoteFd]);
  }

  lemma SameEndpoint(e: Ends, i: nat, k: nat)
    requires Endpoints.Inv(e) && i < |e.list| && k < |e.list| && e.list[i].client == e.list[k].client
    ensures i == k
  {
    hide Clients;
  }

  /** Whether the way back to the client is free: its entry is in the table, and no earlier tunnel answers for it. */
  ghost predicate WayBack(evs: seq<L.Event>, c: LocalClient, k: nat)
    requires k < |L.Run(NOBODY, evs).tunnels| && Indexable(RemKey(c.fd))
  {
    var ts := L.Run(NOBODY, evs).tunnels;
    && (exists n: nat :: SparedFrom(evs, n, c))
    && forall i :: 0 <= i < k ==> !Lone(ts[i], ts[k].pair.portRemote, RemKey(c.fd))
  }

  /** A response under the client's port and descriptor reaches the client exactly if the way back is free. */
  lemma ResponseReachesIff(evs: seq<L.Event>, c: LocalClient, k: nat, body: bytes)
    requires ShortFds(evs) && c in L.Run(NOBODY, evs).live && L.Run(NOBODY, evs).fate.Running?
    requires var ts := L.Run(NOBODY, evs).tunnels; k < |ts| && ts[k].id == c.home && ts[k].clients.Some?
    ensures Indexable(RemKey(c.fd))
    ensures var s := L.Run(NOBODY, evs);
      var r := Responded(s, s.tunnels[k].pair.portRemote, Decimal(c.fd), body);
      L.Queue(r, c) == L.Queue(s, c) + if WayBack(evs, c, k) then [body] else []
  {
    hide L.Run, Kept, Has, SparedFrom, Lone, ClientFor, KeyIndex, Decimal, IdsDistinct, L.Inv, R.Numbered;
    var s := L.Run(NOBODY, evs);
    R.NobodyTracked();
    R.RunTracked(NOBODY, evs);
    KnownClient(s, c);
    InvFacts(s);
    FoundIff(s, s.tunnels, k, c);
    HoldsIs(s.tunnels, k, c);
    HeldIff(evs, c);
    R.QueueStep(s, L.Response(s.tunnels[k].pair.portRemote, Decimal(c.fd), body), c);
  }

  lemma InvFacts(s: Locals)
    requires L.Inv(s)
    ensures FdsDistinct(s.live) && IdsDistinct(s.tunnels) && forall t :: t in s.tunnels ==> TableKept(t, s.live)
  {
    hide Kept, IdsDistinct, FdsDistinct;
  }

  // ----- a tunnel keeps its name

  predicate SameTunnel(t: Tunnel, u: Tunnel) { u.id == t.id && u.pair == t.pair.(portLocal := u.pair.portLocal) }

  /** Every tunnel of us numbered below n was one of ts, with the same peer and remote port. */
  predicate FromBefore(ts: seq<Tunnel>, us: seq<Tunnel>, n: nat)
  {
    forall i :: 0 <= i < |us| && us[i].id < n ==> exists k :: 0 <= k < |ts| && SameTunnel(ts[k], us[i])
  }

  lemma StepFromBefore(s: Locals, ev: L.Event)
    ensures FromBefore(s.tunnels, L.Step(s, ev).tunnels, s.numbered) && L.Step(s, ev).numbered >= s.numbered
  {
    hide ServersShut, WithPid, WithoutPid, TunnelNamed, Named, WithClient, RemShutdown, ClientFor, Home;
    var us := L.Step(s, ev).tunnels;
    forall i | 0 <= i < |us| && us[i].id < s.numbered
      ensures exists k :: 0 <= k < |s.tunnels| && SameTunnel(s.tunnels[k], us[i])
    {
      if ev.StopPid? && L.Enabled(s, ev) {
        assert us[i] in WithoutPid(s.tunnels, ev.pid);
        var k :| 0 <= k < |s.tunnels| && s.tunnels[k] == us[i];
        assert SameTunnel(s.tunnels[k], us[i]);
      } else if ev.Open? && L.Enabled(s, ev) {
        assert i > 0 && SameTunnel(s.tunnels[i - 1], us[i]);
      } else {
        assert SameTunnel(s.tunnels[i], us[i]);
      }
    }
  }

  lemma {:induction false} RunFromBefore(s: Locals, evs: seq<L.Event>)
    ensures FromBefore(s.tunnels, L.Run(s, evs).tunnels, s.numbered)
    decreases |evs|
  {
    hide L.Step, SameTunnel;
    if evs == [] {
      forall i | 0 <= i < |s.tunnels|
        ensures SameTunnel(s.tunnels[i], s.tunnels[i])
      {
        ItsSelf(s.tunnels[i]);
      }
    } else {
      var t := L.Step(s, evs[0]);
      StepFromBefore(s, evs[0]);
      RunFromBefore(t, evs[1..]);
      Transitive(s.tunnels, t.tunnels, L.Run(t, evs[1..]).tunnels, s.numbered, t.numbered);
    }
  }

  lemma ItsSelf(t: Tunnel)
    ensures SameTunnel(t, t)
  {
  }

  lemma Transitive(ts: seq<Tunnel>, us: seq<Tunnel>, vs: seq<Tunnel>, n: nat, m: nat)
    requires FromBefore(ts, us, n) && FromBefore(us, vs, m) && n <= m
    ensures FromBefore(ts, vs, n)
  {
    forall i | 0 <= i < |vs| && vs[i].id < n
      ensures exists k :: 0 <= k < |ts| && SameTunnel(ts[k], vs[i])
    {
      var j :| 0 <= j < |us| && SameTunnel(us[j], vs[i]);
      var k :| 0 <= k < |ts| && SameTunnel(ts[k], us[j]);
      assert SameTunnel(ts[k], vs[i]);
    }
  }

  /** The tunnel of a client, later on. */
  lemma StillTheSame(s: Locals, evs: seq<L.Event>, c: LocalClient, j: nat, k: nat)
    requires L.Inv(s) && c in s.live && j < |s.tunnels| && s.tunnels[j].id == c.home
    requires k < |L.Run(s, evs).tunnels| && L.Run(s, evs).tunnels[k].id == c.home
    ensures SameTunnel(s.tunnels[j], L.Run(s, evs).tunnels[k])
  {
    hide L.Run, L.Inv;
    KnownClient(s, c);
    InvFacts(s);
    RunFromBefore(s, evs);
    var i :| 0 <= i < |s.tunnels| && SameTunnel(s.tunnels[i], L.Run(s, evs).tunnels[k]);
  }

  // ----- between two processes

  /** Who sent a message, as the relay tells the device it is for. */
  datatype Sender = Sender(cloud: bytes, device: bytes, address: bytes)

  /** What reaches the device. */
  function Relayed(p: Parcel, who: Sender): Msg<bytes> { Msg.MessageFrom(who.cloud, who.device, who.address, p.tp, p.body) }

  /** Names and bytes that fit a message whose header is one of the tunnels'. */
  predicate Carried(who: Sender, body: bytes)
  {
    |who.cloud| + |who.device| + |who.address| <= 16777216 && |body| < 16777216
  }

  lemma CarriedIsSendable(p: Parcel, who: Sender)
    requires Carried(who, p.body) && |p.tp| < 128
    ensures Sendable(Relayed(p, who))
  {
    MessageFromFields(Relayed(p, who));
    LengthOfFive(who.cloud, who.device, who.address, p.tp, p.body);
  }

  lemma LengthOfFive(a: bytes, b: bytes, c: bytes, d: bytes, e: bytes)
    ensures FieldsLength([a, b, c, d, e]) == 20 + |a| + |b| + |c| + |d| + |e|
  {
    assert [a, b, c, d, e][1..] == [b, c, d, e] && [b, c, d, e][1..] == [c, d, e] && [c, d, e][1..] == [d, e];
    assert [d, e][1..] == [e] && [e][1..] == [];
    assert FieldsLength([e]) == 4 + |e| && FieldsLength([d, e]) == 4 + |d| + FieldsLength([e]);
    assert FieldsLength([c, d, e]) == 4 + |c| + FieldsLength([d, e]);
    assert FieldsLength([b, c, d, e]) == 4 + |b| + FieldsLength([c, d, e]);
  }

  /** The peer reads a header of four parts as a request. */
  lemma RequestHeard(q: State, p: Parcel, who: Sender, g: Given, config: Config)
    requires Listening(q) && Carried(who, p.body) && 0 !in p.tp && |p.tp| < 64
    requires var argv := Split(p.tp, SLASH); |argv| == 4 && argv[0] == Ascii("tunnel_request")
    ensures Sendable(Relayed(p, who))
    ensures var argv := Split(p.tp, SLASH);
      Heard(q, Relayed(p, who), g, config).ends
        == Requested(q.ends, config.allowed, who.device, who.address, argv[1], argv[2], p.body, g.attempt)
  {
    hide Split, Heard, Sendable, Requested, NewestGone, Responded, Renamed, Ascii;
    CarriedIsSendable(p, who);
    PeerHeard(q, who.cloud, who.device, who.address, p.tp, p.body, g, config);
  }

  /** And the caller one of three parts as a response. */
  lemma ResponseHeard(s: State, p: Parcel, who: Sender, g: Given, config: Config)
    requires Listening(s) && Carried(who, p.body) && 0 !in p.tp && |p.tp| < 64
    requires var argv := Split(p.tp, SLASH); |argv| == 3 && argv[0] == Ascii("tunnel_response")
    ensures Sendable(Relayed(p, who))
    ensures var argv := Split(p.tp, SLASH);
      Heard(s, Relayed(p, who), g, config).pairs.locals == Responded(s.pairs.locals, argv[1], argv[2], p.body)
  {
    hide Split, Heard, Sendable, Requested, NewestGone, Responded, Renamed, Ascii;
    CarriedIsSendable(p, who);
    PeerHeard(s, who.cloud, who.device, who.address, p.tp, p.body, g, config);
  }

  /** One step of each process. */
  lemma DataSent(s: State, c: LocalClient, buf: bytes, config: Config)
    requires Session.Enabled(s, LocalData(c, buf))
    ensures s.pairs.locals.fate.Running? && c in s.pairs.locals.live
    ensures Session.Step(s, LocalData(c, buf), config).pairs.locals == L.Step(s.pairs.locals, L.Data(c, buf))
  {
    hide Session.Step, L.Step;
    LocalsStep(s, LocalData(c, buf), config);
    RunOne(s.pairs.locals, L.Data(c, buf));
  }

  lemma DataReceived(q: State, x: Endpoint, reply: bytes, config: Config)
    requires Session.Enabled(q, EndpointData(x.client, reply))
    ensures Session.Step(q, EndpointData(x.client, reply), config).ends == Received(q.ends, x.client, reply)
  {
    hide Session.Step, Received;
    EndpointsStep(q, EndpointData(x.client, reply), config);
  }

  lemma ListeningIsRunning(s: State)
    requires Listening(s)
    ensures s.pairs.locals.fate.Running?
  {
  }

  /**
   * A client of a tunnel sends for the first time: the message goes to the tunnel's peer, and a peer that allows the port
   * opens an endpoint of the tunnel's remote port under the sender's address, whose client has what was sent.
   */
  lemma RequestReachesPeer(s: State, c: LocalClient, buf: bytes, j: nat, config: Config, who: Sender, q: State, g: Given,
                           there: Config)
    requires L.Inv(s.pairs.locals) && Session.Enabled(s, LocalData(c, buf))
    requires j < |s.pairs.locals.tunnels| && s.pairs.locals.tunnels[j].id == c.home
    requires var pair := s.pairs.locals.tunnels[j].pair;
      && Plain(pair.portRemote) && Plain(pair.portLocal) && |pair.portRemote| + |Decimal(c.fd)| <= 46
      && SnAtoi(pair.portRemote, 8) in there.allowed
    requires Listening(q) && Endpoints.Inv(q.ends) && ClientOutcome(g.attempt).Stays? && Carried(who, buf)
    requires |who.address + Decimal(c.fd)| <= SNB_MAX
    requires forall i :: 0 <= i < |q.ends.list| ==> q.ends.list[i].key != who.address + Decimal(c.fd)
    ensures var out, pair := s.pairs.locals.out, s.pairs.locals.tunnels[j].pair;
      var sent := Session.Step(s, LocalData(c, buf), config).pairs.locals.out;
      && |sent| == |out| + 1 && sent[|out|].to == pair.device && sent[|out|].address == pair.pid
      && Sendable(Relayed(sent[|out|], who))
      && var ends := Heard(q, Relayed(sent[|out|], who), g, there).ends;
         && Endpoints.Inv(ends) && |ends.list| == |q.ends.list| + 1
         && var x := ends.list[0];
            && x.backendPort == pair.portRemote && x.remoteFd == Decimal(c.fd) && x.pid == who.address
            && x.client == q.ends.made && Endpoints.Queue(ends, x.client) == [buf]
  {
    hide Split, Heard, Sendable, Requested, Decimal, Ascii, L.Inv, Endpoints.Inv, Session.Step, Session.Enabled, L.Step;
    DataSent(s, c, buf, config);
    RequestSent(s.pairs.locals, c, buf, j);
    var pair := s.pairs.locals.tunnels[j].pair;
    var p := L.Step(s.pairs.locals, L.Data(c, buf)).out[|s.pairs.locals.out|];
    RequestHeard(q, p, who, g, there);
    RequestOpens(q.ends, who.device, who.address, pair.portRemote, Decimal(c.fd), buf, g.attempt, there.allowed);
  }

  /**
   * The backend answers: the message goes back to the address the request came from, and where port and descriptor are
   * those of a client's tunnel and of the client, the client gets the bytes exactly if the way back is free.
   */
  lemma ResponseReachesCaller(q: State, x: Endpoint, reply: bytes, there: Config, who: Sender, slots: seq<Slot>,
                              evs: seq<Session.Event>, c: LocalClient, k: nat, g: Given, config: Config)
    requires Session.Enabled(q, EndpointData(x.client, reply)) && Endpoints.Inv(q.ends) && x in q.ends.list
    requires Tidy(Start(slots), evs, config) && Carried(who, reply)
    requires var s := Session.Run(Start(slots), evs, config); var ts := s.pairs.locals.tunnels;
      && Listening(s) && c in s.pairs.locals.live && k < |ts| && ts[k].id == c.home && ts[k].clients.Some?
      && Plain(x.backendPort) && x.backendPort == ts[k].pair.portRemote && x.remoteFd == Decimal(c.fd)
      && |x.backendPort| + |x.remoteFd| <= 46
    ensures Indexable(RemKey(c.fd))
    ensures var out := q.ends.out;
      var sent := Session.Step(q, EndpointData(x.client, reply), there).ends.out;
      && |sent| == |out| + 1 && sent[|out|].to == Ascii("device") && sent[|out|].address == x.pid
      && Sendable(Relayed(sent[|out|], who))
      && var s := Session.Run(Start(slots), evs, config);
         var es := LocalEvents(Start(slots), evs, config);
         && s.pairs.locals == L.Run(NOBODY, es)
         && L.Queue(Heard(s, Relayed(sent[|out|], who), g, config).pairs.locals, c)
              == L.Queue(s.pairs.locals, c) + if WayBack(es, c, k) then [reply] else []
  {
    hide Split, Heard, Sendable, Received, Decimal, Ascii, Endpoints.Inv, Session.Step, Session.Enabled, Session.Run, L.Run;
    hide Tidy, LocalEvents, Responded, WayBack, Indexable, RemKey;
    var s, es := Session.Run(Start(slots), evs, config), LocalEvents(Start(slots), evs, config);
    LocalsRefined(Start(slots), evs, config);
    TidyShort(Start(slots), evs, config);
    ListeningIsRunning(s);
    DataReceived(q, x, reply, there);
    DecimalPlain(c.fd);
    ResponseSent(q.ends, x, reply);
    var p := Received(q.ends, x.client, reply).out[|q.ends.out|];
    ResponseHeard(s, p, who, g, config);
    ResponseReachesIff(es, c, k, reply);
  }

  lemma TidyParts(s: State, evs: seq<Session.Event>, ev: Session.Event, more: seq<Session.Event>, config: Config)
    ensures Session.Run(s, evs + [ev] + more, config)
      == Session.Run(Session.Step(Session.Run(s, evs, config), ev, config), more, config)
    ensures Tidy(s, evs + [ev] + more, config) ==>
      Tidy(s, evs, config) && Tidy(Session.Step(Session.Run(s, evs, config), ev, config), more, config)
    decreases |evs|
  {
    hide Session.Step, TidyStep;
    var all := evs + [ev] + more;
    if evs == [] {
      assert all[1..] == more;
    } else {
      assert all[1..] == evs[1..] + [ev] + more;
      TidyParts(Session.Step(s, evs[0], config), evs[1..], ev, more, config);
    }
  }

  /** The tunnel of a client that was there before is the same after any events. */
  lemma LaterTunnel(s: State, evs: seq<Session.Event>, c: LocalClient, j: nat, k: nat, config: Config)
    requires L.Inv(s.pairs.locals) && c in s.pairs.locals.live
    requires j < |s.pairs.locals.tunnels| && s.pairs.locals.tunnels[j].id == c.home
    requires var ts := Session.Run(s, evs, config).pairs.locals.tunnels; k < |ts| && ts[k].id == c.home
    ensures SameTunnel(s.pairs.locals.tunnels[j], Session.Run(s, evs, config).pairs.locals.tunnels[k])
  {
    hide Session.Run, L.Inv, L.Run, LocalEvents;
    LocalsRefined(s, evs, config);
    StillTheSame(s.pairs.locals, LocalEvents(s, evs, config), c, j, k);
  }

  /** A client's tunnel is the same after it has sent and anything more has happened. */
  lemma AfterSending(slots: seq<Slot>, evs: seq<Session.Event>, c: LocalClient, buf: bytes, more: seq<Session.Event>,
                     config: Config, j: nat, k: nat)
    requires Tidy(Start(slots), evs + [LocalData(c, buf)] + more, config)
    requires var s := Session.Run(Start(slots), evs, config); var ts := s.pairs.locals.tunnels;
      && Session.Enabled(s, LocalData(c, buf)) && j < |ts| && ts[j].id == c.home
      && Plain(ts[j].pair.portRemote) && Plain(ts[j].pair.portLocal)
    requires var us := Session.Run(Start(slots), evs + [LocalData(c, buf)] + more, config).pairs.locals.tunnels;
      k < |us| && us[k].id == c.home
    ensures var s, all := Session.Run(Start(slots), evs, config), evs + [LocalData(c, buf)] + more;
      SameTunnel(s.pairs.locals.tunnels[j], Session.Run(Start(slots), all, config).pairs.locals.tunnels[k])
  {
    hide Session.Run, Session.Step, Session.Enabled, Tidy, L.Step, Split, Decimal;
    var s := Session.Run(Start(slots), evs, config);
    TidyParts(Start(slots), evs, LocalData(c, buf), more, config);
    StartSound(slots);
    RunKeepsSound(Start(slots), evs, config);
    DataSent(s, c, buf, config);
    RequestSent(s.pairs.locals, c, buf, j);
    StepKeepsInv(s.pairs.locals, L.Data(c, buf));
    LaterTunnel(Session.Step(s, LocalData(c, buf), config), more, c, j, k, config);
  }

  /** The message that a client's bytes go out in. */
  ghost function Outgoing(s: State, c: LocalClient, buf: bytes, config: Config): seq<Parcel>
  {
    var sent := Session.Step(s, LocalData(c, buf), config).pairs.locals.out;
    if |s.pairs.locals.out| <= |sent| then sent[|s.pairs.locals.out|..] else []
  }

  /** The message that a backend's bytes go out in. */
  ghost function Answering(q: State, x: Endpoint, reply: bytes, config: Config): seq<Parcel>
  {
    var sent := Session.Step(q, EndpointData(x.client, reply), config).ends.out;
    if |q.ends.out| <= |sent| then sent[|q.ends.out|..] else []
  }

  /**
   * There and back, in runs of two processes. A client of a tunnel sends; the one message this makes is for the tunnel's
   * device and peer, and the peer, handed its bytes, opens an endpoint of the tunnel's remote port, whose client has what
   * was sent. Whatever happens then on either side while endpoint and client are there: what the endpoint's client sends
   * goes out in one message to the caller's address, and the caller, handed its bytes, gives the same client what was sent,
   * exactly if the way back is free.
   */
  lemma ThereAndBack(slots: seq<Slot>, evs: seq<Session.Event>, c: LocalClient, buf: bytes, more: seq<Session.Event>,
                     config: Config, j: nat, k: nat, caller: Sender, q: State, g: Given, later: seq<Session.Event>,
                     there: Config, peer: Sender, reply: bytes, h: Given)
    requires Tidy(Start(slots), evs + [LocalData(c, buf)] + more, config)
    requires Carried(caller, buf) && Carried(peer, reply) && |caller.address + Decimal(c.fd)| <= SNB_MAX
    requires var s := Session.Run(Start(slots), evs, config); var ts := s.pairs.locals.tunnels;
      && Session.Enabled(s, LocalData(c, buf)) && j < |ts| && ts[j].id == c.home
      && Plain(ts[j].pair.portRemote) && Plain(ts[j].pair.portLocal) && |ts[j].pair.portRemote| + |Decimal(c.fd)| <= 46
      && SnAtoi(ts[j].pair.portRemote, 8) in there.allowed
    requires var u := Session.Run(Start(slots), evs + [LocalData(c, buf)] + more, config); var us := u.pairs.locals.tunnels;
      Listening(u) && c in u.pairs.locals.live && k < |us| && us[k].id == c.home && us[k].clients.Some?
    requires Listening(q) && Endpoints.Inv(q.ends) && ClientOutcome(g.attempt).Stays?
    requires forall i :: 0 <= i < |q.ends.list| ==> q.ends.list[i].key != caller.address + Decimal(c.fd)
    ensures Indexable(RemKey(c.fd))
    ensures var s := Session.Run(Start(slots), evs, config); var pair := s.pairs.locals.tunnels[j].pair;
      var sent := Outgoing(s, c, buf, config);
      && |sent| == 1 && sent[0].to == pair.device && sent[0].address == pair.pid && Sendable(Relayed(sent[0], caller))
      && var r := Heard(q, Relayed(sent[0], caller), g, there);
         && r.ends.list != [] && var x := r.ends.list[0];
         && x.backendPort == pair.portRemote && Endpoints.Queue(r.ends, x.client) == [buf]
         && var v := Session.Run(r, later, there);
            Session.Enabled(v, EndpointData(x.client, reply)) && Endpoints.Inv(v.ends) && x in v.ends.list ==>
              var back := Answering(v, x, reply, there);
              && |back| == 1 && back[0].to == Ascii("device") && back[0].address == caller.address
              && Sendable(Relayed(back[0], peer))
              && var all := evs + [LocalData(c, buf)] + more;
                 var u, es := Session.Run(Start(slots), all, config), LocalEvents(Start(slots), all, config);
                 && k < |L.Run(NOBODY, es).tunnels|
                 && L.Queue(Heard(u, Relayed(back[0], peer), h, config).pairs.locals, c)
                      == L.Queue(u.pairs.locals, c) + if WayBack(es, c, k) then [reply] else []
  {
    hide Heard, Sendable, Decimal, Ascii, Endpoints.Inv, L.Inv, Session.Step, Session.Enabled, Session.Run, L.Run;
    hide Tidy, LocalEvents, WayBack, Indexable, RemKey, Listening, Carried, Plain, SnAtoi, Endpoints.Queue, L.Queue;
    var s, all := Session.Run(Start(slots), evs, config), evs + [LocalData(c, buf)] + more;
    TidyParts(Start(slots), evs, LocalData(c, buf), more, config);
    StartSound(slots);
    RunKeepsSound(Start(slots), evs, config);
    RequestReachesPeer(s, c, buf, j, config, caller, q, g, there);
    KeysIndexable(c.fd);
    var sent := Outgoing(s, c, buf, config);
    var r := Heard(q, Relayed(sent[0], caller), g, there);
    var x := r.ends.list[0];
    var v := Session.Run(r, later, there);
    if Session.Enabled(v, EndpointData(x.client, reply)) && Endpoints.Inv(v.ends) && x in v.ends.list {
      AfterSending(slots, evs, c, buf, more, config, j, k);
      ResponseReachesCaller(v, x, reply, there, peer, slots, all, c, k, h, config);
    }
  }

  // ----- the notice that a connection ended

  /** A client of a tunnel with a server hangs up: one message to the tunnel's peer says so and names the descriptor. */
  lemma EndSent(s: Locals, c: LocalClient, j: nat)
    requires L.Inv(s) && s.fate.Running? && c in s.live && j < |s.tunnels| && s.tunnels[j].id == c.home
    requires s.tunnels[j].clients.Some?
    ensures var t, pair := HungUp(s, c), s.tunnels[j].pair;
      && |t.out| == |s.out| + 1 && t.out[..|s.out|] == s.out && t.live == s.live - {c} && t.closed == s.closed + 1
      && t.fate.Running?
      && var p := t.out[|s.out|];
         && p.to == pair.device && p.address == pair.pid && p.body == Ascii("data") && 0 !in p.tp && |p.tp| < 64
         && Split(p.tp, SLASH) == [Ascii("endpoint_stop"), Decimal(c.fd)]
  {
    hide Split, Decimal, STOP, Kept, RemShutdown;
    KnownClient(s, c);
    HomeIs(s.tunnels, j);
    FdSurvivesPrint(c.fd);
    DecimalLength(c.fd, 7);
    SevenDigits();
    DecimalPlain(c.fd);
    NamesPlain();
    Kinds();
    JoinLength2(STOP, Decimal(c.fd));
    PrintedTokensIff(64, [STOP, Decimal(c.fd)]);
    PrintedPlain(64, [STOP, Decimal(c.fd)]);
  }

  lemma SevenDigits()
    ensures Pow10(7) == 10_000_000
  {
    assert Pow10(3) == 1000;
    assert Pow10(7) == 10 * Pow10(6) && Pow10(6) == 10 * Pow10(5) && Pow10(5) == 10 * Pow10(4) && Pow10(4) == 10 * Pow10(3);
  }

  /** And the peer that is handed its bytes stops the newest endpoint of the caller's address. */
  lemma EndReachesPeer(s: State, c: LocalClient, j: nat, config: Config, caller: Sender, q: State, g: Given, there: Config)
    requires L.Inv(s.pairs.locals) && Session.Enabled(s, LocalFailed(c))
    requires var ts := s.pairs.locals.tunnels; j < |ts| && ts[j].id == c.home && ts[j].clients.Some?
    requires Listening(q) && Carried(caller, Ascii("data"))
    ensures var out, pair := s.pairs.locals.out, s.pairs.locals.tunnels[j].pair;
      var sent := Session.Step(s, LocalFailed(c), config).pairs.locals.out;
      && |sent| == |out| + 1 && sent[|out|].to == pair.device && sent[|out|].address == pair.pid
      && Sendable(Relayed(sent[|out|], caller))
      && NewestGone(q.ends, caller.address, Heard(q, Relayed(sent[|out|], caller), g, there).ends)
  {
    hide Split, Heard, Sendable, Decimal, Ascii, L.Inv, Session.Step, Requested, Responded, Renamed, NewestGone, HungUp;
    FailureIs(s, c, config);
    EndSent(s.pairs.locals, c, j);
    var p := HungUp(s.pairs.locals, c).out[|s.pairs.locals.out|];
    CarriedIsSendable(p, caller);
    PeerHeard(q, caller.cloud, caller.device, caller.address, p.tp, p.body, g, there);
    EndIsNoOther();
  }

  lemma EndIsNoOther()
    ensures Ascii("endpoint_stop") != Ascii("tunnel_request") && Ascii("endpoint_stop") != Ascii("tunnel_response")
  {
    Kinds();
  }

  lemma FailureIs(s: State, c: LocalClient, config: Config)
    requires Session.Enabled(s, LocalFailed(c))
    ensures s.pairs.locals.fate.Running? && c in s.pairs.locals.live
    ensures Session.Step(s, LocalFailed(c), config).pairs.locals == HungUp(s.pairs.locals, c)
  {
    hide Session.Step, HungUp;
    LocalsStep(s, LocalFailed(c), config);
    RunOne(s.pairs.locals, HangUp(c));
    assert L.Enabled(s.pairs.locals, HangUp(c));
  }

  // ----- the notice of a new port

  /** Tunnel i goes by the names, and none before it does. */
  predicate FirstCalled(ts: seq<Tunnel>, cloud: bytes, device: bytes, local: bytes, remote: bytes, i: nat)
    requires i < |ts|
  {
    && Called(ts[i], cloud, device, local, remote)
    && forall j :: 0 <= j < i ==> !Called(ts[j], cloud, device, local, remote)
  }

  predicate Called(t: Tunnel, cloud: bytes, device: bytes, local: bytes, remote: bytes)
  {
    t.pair.cloud == cloud && t.pair.device == device && t.pair.portLocal == local && t.pair.portRemote == remote
  }

  /** tunnel_update renames the local port of the first tunnel that goes by its four names, and of no other. */
  lemma RenamedIs(s: Locals, argv: seq<bytes>)
    requires |argv| == 6 && |argv[5]| <= SNB_MAX
    ensures var r := Renamed(s, argv);
      && r == s.(tunnels := r.tunnels) && |r.tunnels| == |s.tunnels|
      && forall i :: 0 <= i < |s.tunnels| ==>
           r.tunnels[i] ==
             if FirstCalled(s.tunnels, argv[1], argv[2], argv[3], argv[4], i)
             then s.tunnels[i].(pair := s.tunnels[i].pair.(portLocal := argv[5])) else s.tunnels[i]
  {
    hide TunnelNamed;
    var k := TunnelNamed(s.tunnels, argv);
    forall i | 0 <= i < |s.tunnels|
      ensures FirstCalled(s.tunnels, argv[1], argv[2], argv[3], argv[4], i) <==> i == k
    {
      assert forall j :: 0 <= j < k ==> !Named(s.tunnels[j], argv);
      if FirstCalled(s.tunnels, argv[1], argv[2], argv[3], argv[4], i) {
        TunnelNamedIs(s.tunnels, argv, i);
      }
    }
  }

  /** A name that has no room in the tunnel it is for aborts the process. */
  lemma LongNameAborts(s: Locals, argv: seq<bytes>, i: nat)
    requires |argv| == 6 && |argv[5]| > 256 && s.fate.Running?
    requires i < |s.tunnels| && FirstCalled(s.tunnels, argv[1], argv[2], argv[3], argv[4], i)
    ensures Renamed(s, argv) == s.(fate := Aborted)
  {
    hide TunnelNamed;
    TunnelNamedIs(s.tunnels, argv, i);
  }

  /**
   * A reply for any local port: one message to the pair's device, and the peer that is handed its bytes, if they hold the
   * names, puts the new port into the first tunnel that goes by them.
   */
  lemma PortReachesPeer(ps: Pairs, pair: Pair, local: bytes, device: bytes, caller: Sender, q: State, g: Given,
                        there: Config)
    requires pair.kind != FORCED && SnAtoi(pair.portLocal, 32) == 0 && PairFits(pair) && |local| <= SNB_MAX
    requires Plain(pair.cloud) && Plain(device) && Plain(pair.portLocal) && Plain(pair.portRemote) && Plain(local)
    requires |Join([UPDATE, pair.cloud, device, pair.portLocal, pair.portRemote, local], SLASH)| < 128
    requires Listening(q) && Carried(caller, Ascii("device"))
    ensures var out, sent := ps.locals.out, Replied(ps, pair, local, device).locals.out;
      && |sent| == |out| + 1 && sent[|out|].to == Ascii("device") && sent[|out|].address == pair.pid
      && Sendable(Relayed(sent[|out|], caller))
      && var r, us := Heard(q, Relayed(sent[|out|], caller), g, there), q.pairs.locals.tunnels;
         && r.ends == q.ends && |r.pairs.locals.tunnels| == |us|
         && forall i :: 0 <= i < |us| ==>
              r.pairs.locals.tunnels[i] ==
                if FirstCalled(us, pair.cloud, device, pair.portLocal, pair.portRemote, i)
                then us[i].(pair := us[i].pair.(portLocal := local)) else us[i]
  {
    hide Split, Join, Heard, Sendable, Requested, Responded, Renamed, NewestGone, Ascii, SlotFor, SnAtoi, UPDATE;
    hide FirstCalled;
    var names := [UPDATE, pair.cloud, device, pair.portLocal, pair.portRemote, local];
    NoticeReadIff(pair, device, local);
    NamesPlain();
    PrintedPlain(128, names);
    var p := UpdateNotice(pair, device, local);
    CarriedIsSendable(p, caller);
    PeerHeard(q, caller.cloud, caller.device, caller.address, p.tp, p.body, g, there);
    Kinds();
    RenamedIs(q.pairs.locals, names);
  }
}
