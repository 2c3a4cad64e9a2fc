/** Conversations.ThereAndBack at an input: client 12 of the tunnel of one slot, and a peer that has just connected. */
module Dialogue {
  import opened Bytes
  import opened Conversations
  import opened Endpoints
  import opened HashTable
  import opened Headers
  import opened Inbox
  import opened Locals
  import L = Locals
  import opened LocalRuns
  import opened Messages
  import opened Pairs
  import opened Ports
  import opened Process
  import opened Proto
  import opened Server
  import opened Session
  import opened SessionRuns
  import Stops
  import opened Tokens
  import opened Wrappers

  // ----- the caller

  /** Events that no endpoint of the process hears of. */
  predicate Apart(ev: Session.Event)
  {
    match ev
    case ConnectTimer(_) => true
    case Upstream(f) => f.PairReply? || f.LastReply?
    case LocalAccepted(_, fd) => fd < FD_LIMIT
    case LocalData(_, _) => true
    case _ => false
  }

  lemma {:induction false} ApartIsTidy(s: State, evs: seq<Session.Event>, config: Config)
    requires forall i :: 0 <= i < |evs| ==> Apart(evs[i])
    ensures Tidy(s, evs, config)
    decreases |evs|
  {
    hide Session.Step;
    if evs != [] {
      ApartIsTidy(Session.Step(s, evs[0], config), evs[1..], config);
    }
  }

  function Caller(slot: Slot, pid: bytes): Tunnel
  {
    Tunnel(0, Stops.PairFor(slot, pid), Some(WithClient(EmptyTable(), Stops.TWELVE)))
  }

  lemma OneTunnel(slot: Slot, pid: bytes, config: Config)
    requires Stops.Usual(slot, pid)
    ensures var s := Session.Run(Start([slot]), Stops.Accepting(slot, pid), config);
      Stops.Joined(s) && s.pairs.locals.tunnels == [Caller(slot, pid)] && s.pairs.locals.queued == map[]
  {
    hide Session.Run, Session.Step, Stops.Opening, Linked, Accepted, Stops.PairFor, Stops.Usual, AnyClient, Sound, Caller;
    Stops.Joins(slot, pid, config);
    Stops.Opens(slot, pid, config);
    Stops.OpeningSound(slot, pid, config);
    var s := Session.Run(Start([slot]), Stops.Opening(slot, pid), config);
    var evs := Stops.Opening(slot, pid) + [LocalAccepted(0, 12)];
    Onward(Start([slot]), Stops.Opening(slot, pid), LocalAccepted(0, 12), config);
    Onward(Start([slot]), evs, Upstream(LastReply), config);
    assert evs + [Upstream(LastReply)] == Stops.Accepting(slot, pid);
    Stops.JoinStep(s, slot, pid, config);
    Stops.AcceptJoins(Stops.PairFor(slot, pid));
    Stops.LastReplyArms(Session.Step(s, LocalAccepted(0, 12), config), config);
    AcceptedIs(slot, pid);
  }

  lemma AcceptedIs(slot: Slot, pid: bytes)
    ensures var l := Accepted(Linked(NOBODY, Stops.PairFor(slot, pid), true), 0, 12);
      l.tunnels == [Caller(slot, pid)] && l.queued == map[]
  {
    hide WithClient;
  }

  lemma TableHas(slot: Slot, pid: bytes)
    ensures Has(Caller(slot, pid).clients.value, Stops.TWELVE)
  {
    hide Has, WithClient, Kept;
    KeptEmpty({}, 0);
    KeptAdd(EmptyTable(), {}, Stops.TWELVE);
  }

  /** Before and after the client has sent. */
  lemma CallerReady(slot: Slot, pid: bytes, buf: bytes, config: Config)
    requires Stops.Usual(slot, pid)
    ensures var evs, c := Stops.Accepting(slot, pid), Stops.TWELVE;
      var s, u := Session.Run(Start([slot]), evs, config), Session.Run(Start([slot]), evs + [LocalData(c, buf)], config);
      && Tidy(Start([slot]), evs + [LocalData(c, buf)], config) && Session.Enabled(s, LocalData(c, buf))
      && Listening(u) && c in u.pairs.locals.live && u.pairs.locals.tunnels == [Caller(slot, pid)]
      && L.Queue(u.pairs.locals, c) == []
  {
    hide Session.Run, Session.Step, Sound, AnyClient, Stops.Usual, Caller, Stops.PairFor, SnItoa;
    var evs, c := Stops.Accepting(slot, pid), Stops.TWELVE;
    var s := Session.Run(Start([slot]), evs, config);
    OneTunnel(slot, pid, config);
    ApartIsTidy(Start([slot]), evs + [LocalData(c, buf)], config);
    Onward(Start([slot]), evs, LocalData(c, buf), config);
    Stops.DataQueues(s, buf, config);
    JoinedEnables(s, buf);
    SendingPhase(s, LocalData(c, buf), config);
    DataSent(s, c, buf, config);
    DataKeeps(s.pairs.locals, c, buf);
  }

  lemma JoinedEnables(s: State, buf: bytes)
    requires Stops.Joined(s)
    ensures Session.Enabled(s, LocalData(Stops.TWELVE, buf))
  {
    hide Sound, AnyClient;
  }

  lemma DataKeeps(s: Locals, c: LocalClient, buf: bytes)
    requires c in s.live
    ensures var t := L.Step(s, L.Data(c, buf)); t.live == s.live && t.queued == s.queued && t.tunnels == s.tunnels
  {
    hide Home, RequestHeader;
  }

  /** The client is in the table, and no other tunnel is there. */
  lemma WayIsFree(slot: Slot, pid: bytes, es: seq<L.Event>)
    requires ShortFds(es) && L.Run(NOBODY, es).tunnels == [Caller(slot, pid)] && Stops.TWELVE in L.Run(NOBODY, es).live
    requires Indexable(RemKey(12))
    ensures WayBack(es, Stops.TWELVE, 0)
  {
    hide L.Run, SparedFrom, Has, Lone, RemKey, Indexable;
    TableHas(slot, pid);
    HoldsIs(L.Run(NOBODY, es).tunnels, 0, Stops.TWELVE);
    HeldIff(es, Stops.TWELVE);
  }

  // ----- the peer

  /** A process without slots, just connected. */
  ghost function Fresh(there: Config): State { Session.Step(Start([]), ConnectTimer(Stops.CONNECTS), there) }

  lemma FreshListens(there: Config)
    ensures Listening(Fresh(there)) && Fresh(there).ends == NONE && Endpoints.Inv(NONE) && !Fresh(there).phase.dangling
  {
    NothingLinked();
  }

  /** A request that opens an endpoint leaves the peer running. */
  lemma StillServed(q: State, p: Parcel, who: Sender, g: Given, config: Config)
    requires Listening(q) && !q.phase.dangling && Carried(who, p.body) && 0 !in p.tp && |p.tp| < 128
    requires var argv := Split(p.tp, SLASH);
      && |argv| == 4 && argv[0] == Ascii("tunnel_request")
      && Requested(q.ends, config.allowed, who.device, who.address, argv[1], argv[2], p.body, g.attempt).fate.Running?
    ensures Sendable(Relayed(p, who))
    ensures Alive(Heard(q, Relayed(p, who), g, config)) && !Heard(q, Relayed(p, who), g, config).phase.sigterm
  {
    hide Split, Heard, Sendable, Requested, Moved, REQUEST, SamePhase;
    CarriedIsSendable(p, who);
    HeardIs(q, Relayed(p, who), g, config);
    Kinds();
    var argv, t := Split(p.tp, SLASH), q.(phase := q.phase.(hang := true));
    var ends := Requested(q.ends, config.allowed, who.device, who.address, argv[1], argv[2], p.body, g.attempt);
    MovedPairs(t, ends, t.pairs, config);
    MovedFate(t, ends, t.pairs, config);
    MovedPhase(t, ends, t.pairs, config);
    SameSigterm(t.phase, Moved(t, ends, t.pairs, config).phase);
  }

  /** And the backend of the endpoint can answer. */
  lemma PeerReady(s: State, c: LocalClient, buf: bytes, j: nat, config: Config, who: Sender, q: State, g: Given,
                  there: Config, reply: bytes)
    requires L.Inv(s.pairs.locals) && Session.Enabled(s, LocalData(c, buf))
    requires j < |s.pairs.locals.tunnels| && s.pairs.locals.tunnels[j].id == c.home
    requires var pair := s.pairs.locals.tunnels[j].pair;
      && Plain(pair.portRemote) && Plain(pair.portLocal) && |pair.portRemote| + |Decimal(c.fd)| <= 46
      && SnAtoi(pair.portRemote, 8) in there.allowed
    requires Listening(q) && !q.phase.dangling && Endpoints.Inv(q.ends) && ClientOutcome(g.attempt).Stays?
    requires Carried(who, buf) && |who.address + Decimal(c.fd)| <= SNB_MAX
    requires forall i :: 0 <= i < |q.ends.list| ==> q.ends.list[i].key != who.address + Decimal(c.fd)
    ensures var sent := Outgoing(s, c, buf, config);
      && |sent| == 1 && Sendable(Relayed(sent[0], who))
      && var r := Heard(q, Relayed(sent[0], who), g, there);
         && r.ends.list != [] && Endpoints.Inv(r.ends) && Session.Enabled(r, EndpointData(r.ends.list[0].client, reply))
  {
    hide Split, Heard, Sendable, Requested, Decimal, Ascii, L.Inv, Endpoints.Inv, Session.Step, Session.Enabled, L.Step;
    hide Listening, Plain, SnAtoi, Carried;
    DataSent(s, c, buf, config);
    RequestSent(s.pairs.locals, c, buf, j);
    var pair := s.pairs.locals.tunnels[j].pair;
    var p := L.Step(s.pairs.locals, L.Data(c, buf)).out[|s.pairs.locals.out|];
    RequestHeard(q, p, who, g, there);
    RequestOpens(q.ends, who.device, who.address, pair.portRemote, Decimal(c.fd), buf, g.attempt, there.allowed);
    InvRuns(Requested(q.ends, there.allowed, who.device, who.address, pair.portRemote, Decimal(c.fd), buf, g.attempt));
    StillServed(q, p, who, g, there);
    CanAnswer(Heard(q, Relayed(p, who), g, there), reply);
  }

  lemma InvRuns(e: Ends)
    requires Endpoints.Inv(e)
    ensures e.fate.Running?
  {
  }

  lemma CanAnswer(r: State, reply: bytes)
    requires Alive(r) && !r.phase.sigterm && Endpoints.Inv(r.ends) && r.ends.list != []
    ensures Session.Enabled(r, EndpointData(r.ends.list[0].client, reply))
  {
    ClientOf(r.ends.list, r.ends.list[0].client);
  }

  lemma SameSigterm(p: Phase, q: Phase)
    requires SamePhase(p, q)
    ensures q.sigterm == p.sigterm
  {
  }

  lemma ShortPorts(slot: Slot)
    requires 0 < slot.port < 10_000_000
    ensures Plain(SnItoa(slot.port)) && Plain(SnItoa(slot.portLocal)) && |SnItoa(slot.port)| <= 7
    ensures SnAtoi(SnItoa(slot.port), 8) == slot.port
  {
    PortSurvivesIff(slot.port);
    ShortPort(slot.port);
    PortPlain(slot.port);
    PortPlain(slot.portLocal);
  }

  lemma PortPlain(n: int)
    ensures Plain(SnItoa(n))
  {
    DecimalDigits(if n < 0 then -n else n);
    hide Decimal;
  }

  /**
   * Client 12 of the slot's tunnel sends; the peer's backend at the slot's port gets what it sent, and answers; the client
   * gets the answer, and it is all the client has got.
   */
  lemma TwelveTalks(slot: Slot, pid: bytes, config: Config, caller: Sender, there: Config, peer: Sender, buf: bytes,
                    reply: bytes, g: Given, h: Given)
    requires Stops.Usual(slot, pid) && 0 < slot.port < 10_000_000 && slot.port in there.allowed
    requires Carried(caller, buf) && Carried(peer, reply) && |caller.address| <= 250 && ClientOutcome(g.attempt).Stays?
    ensures var evs := Stops.Accepting(slot, pid);
      var s := Session.Run(Start([slot]), evs, config);
      var sent := Outgoing(s, Stops.TWELVE, buf, config);
      && |sent| == 1 && sent[0].to == slot.device && sent[0].address == pid && Sendable(Relayed(sent[0], caller))
      && var r := Heard(Fresh(there), Relayed(sent[0], caller), g, there);
         && r.ends.list != [] && var x := r.ends.list[0];
         && x.backendPort == SnItoa(slot.port) && Endpoints.Queue(r.ends, x.client) == [buf]
         && var back := Answering(r, x, reply, there);
            && |back| == 1 && Sendable(Relayed(back[0], peer))
            && var u := Session.Run(Start([slot]), evs + [LocalData(Stops.TWELVE, buf)], config);
               L.Queue(Heard(u, Relayed(back[0], peer), h, config).pairs.locals, Stops.TWELVE) == [reply]
  {
    hide Session.Run, Session.Step, Sound, AnyClient, Stops.Accepting, Stops.Usual, Heard, Answering, Outgoing, Sendable;
    hide Carried, Plain, SnAtoi, SnItoa, Relayed, WayBack, Tidy, LocalEvents, L.Run, Caller, Endpoints.Queue, L.Queue, Fresh;
    hide Stops.PairFor, Session.Enabled, Listening, Endpoints.Inv, Decimal, Indexable, RemKey;
    var evs, c := Stops.Accepting(slot, pid), Stops.TWELVE;
    var ev := LocalData(c, buf);
    var s, all := Session.Run(Start([slot]), evs, config), evs + [ev] + [];
    OneTunnel(slot, pid, config);
    CallerReady(slot, pid, buf, config);
    CallerIs(slot, pid);
    ShortPorts(slot);
    FreshListens(there);
    TwelveIs();
    assert all == evs + [ev];
    JoinedSound(s);
    PeerReady(s, c, buf, 0, config, caller, Fresh(there), g, there, reply);
    ThereAndBack([slot], evs, c, buf, [], config, 0, 0, caller, Fresh(there), g, [], there, peer, reply, h);
    NoEvents(Heard(Fresh(there), Relayed(Outgoing(s, c, buf, config)[0], caller), g, there), there);
    LocalsRefined(Start([slot]), all, config);
    TidyShort(Start([slot]), all, config);
    WayIsFree(slot, pid, LocalEvents(Start([slot]), all, config));
    assert [] + [reply] == [reply];
  }

  lemma CallerIs(slot: Slot, pid: bytes)
    ensures var t := Caller(slot, pid);
      && t.id == 0 && t.clients.Some? && t.pair.portRemote == SnItoa(slot.port) && t.pair.portLocal == SnItoa(slot.portLocal)
      && t.pair.device == slot.device && t.pair.pid == pid
  {
    hide SnItoa, WithClient;
  }

  lemma JoinedSound(s: State)
    requires Stops.Joined(s)
    ensures L.Inv(s.pairs.locals)
  {
    hide L.Inv, AnyClient;
  }

  lemma NoEvents(s: State, config: Config)
    ensures Session.Run(s, [], config) == s
  {
  }

  lemma TwelveIs()
    ensures |Decimal(12)| == 2 && Stops.TWELVE.home == 0 && Stops.TWELVE.fd == 12
  {
  }
}
