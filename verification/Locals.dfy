/**
 * The caller side: the list of tunnels (src/tunnel.c), each with the table of its server's clients, and those clients
 * from accept to hang-up (src/async_server.c).
 */
module Locals {
  import opened Bytes
  import opened HashTable
  import opened Headers
  import opened Process
  import opened Proto
  import opened Server
  import opened Tokens
  import opened Wrappers

  /** gc_device_pair_s; a tunnel keeps a copy. */
  datatype Pair = Pair(cloud: bytes, pid: bytes, device: bytes, portLocal: bytes, portRemote: bytes, kind: bytes)

  /** gc_tunnel_s; `id` tells tunnels apart. A forced tunnel has no server. */
  datatype Tunnel = Tunnel(id: nat, pair: Pair, clients: Option<ClientTable>)

  /**
   * `live` are the clients that exist, `queued` the payloads given to each, `out` what went upstream, `closed` the calls
   * of async_client_shutdown.
   */
  datatype Locals = Locals(tunnels: seq<Tunnel>, live: set<LocalClient>, numbered: nat, made: nat,
                           queued: map<nat, seq<bytes>>, out: seq<Parcel>, closed: nat, fate: Fate)

  const NOBODY := Locals([], {}, 0, 0, map[], [], 0, Running)

  // ----- one tunnel's server

  /** The tunnel with the id, or the end. */
  function Home(ts: seq<Tunnel>, id: nat): (i: nat)
    ensures i <= |ts| && (i < |ts| ==> ts[i].id == id)
    ensures forall j :: 0 <= j < i ==> ts[j].id != id
  {
    if ts == [] || ts[0].id == id then 0 else 1 + Home(ts[1..], id)
  }

  function WithTable(s: Locals, i: nat, t: ClientTable): Locals
    requires i < |s.tunnels|
  {
    s.(tunnels := s.tunnels[i := s.tunnels[i].(clients := Some(t))])
  }

  /** server_async_client, on a tunnel that has a server. */
  function Accepted(s: Locals, id: nat, fd: nat): Locals
  {
    var i := Home(s.tunnels, id);
    if i < |s.tunnels| && s.tunnels[i].clients.Some? then
      var c := LocalClient(s.made, fd, id);
      WithTable(s, i, WithClient(s.tunnels[i].clients.value, c)).(live := s.live + {c}, made := s.made + 1)
    else s
  }

  /** The notice endpoint_stop of src/async_server.c sends. */
  function StopNotice(pair: Pair, fd: nat): Parcel
  {
    Parcel(pair.device, pair.pid, Snprintf(64, Join([STOP, Decimal(fd)], SLASH)), Ascii("data"))
  }

  /** async_client_shutdown; the server it came through may be gone, and with it what c->parent points to. */
  function HungUp(s: Locals, c: LocalClient): Locals
  {
    var i := Home(s.tunnels, c.home);
    var gone := s.(live := s.live - {c}, closed := s.closed + 1);
    if i < |s.tunnels| && s.tunnels[i].clients.Some? then
      WithTable(gone, i, RemShutdown(s.tunnels[i].clients.value, c))
        .(out := s.out + [StopNotice(s.tunnels[i].pair, c.fd)],
          fate := if c in s.live then s.fate else Worse(s.fate, Strayed))
    else gone.(fate := Worse(s.fate, Strayed))
  }

  function Notices(pair: Pair, cs: seq<LocalClient>): (ps: seq<Parcel>)
    ensures |ps| == |cs|
  {
    seq(|cs|, i requires 0 <= i < |cs| => StopNotice(pair, cs[i].fd))
  }

  /** async_server_shutdown of a tunnel's server. */
  function ServerShut(s: Locals, t: Tunnel): Locals
  {
    if t.clients.None? then s
    else
      var hs := Heads(t.clients.value, HT_MAX);
      s.(live := s.live - Members(hs), closed := s.closed + |hs|, out := s.out + Notices(t.pair, hs),
         fate := if Members(hs) <= s.live then s.fate else Worse(s.fate, Strayed))
  }

  /** The servers of ts, one after the other. */
  function ServersShut(s: Locals, ts: seq<Tunnel>): (r: Locals)
    ensures r.tunnels == s.tunnels && r.numbered == s.numbered && r.made == s.made && r.queued == s.queued
    decreases |ts|
  {
    if ts == [] then s else ServersShut(ServerShut(s, ts[0]), ts[1..])
  }

  // ----- the list

  /** The end of gc_tunnel_add. */
  function Linked(s: Locals, pair: Pair, server: bool): Locals
  {
    s.(tunnels := [Tunnel(s.numbered, pair, if server then Some(EmptyTable()) else None)] + s.tunnels,
       numbered := s.numbered + 1)
  }

  function WithPid(ts: seq<Tunnel>, pid: bytes): (r: seq<Tunnel>)
    ensures forall t :: t in r <==> t in ts && t.pair.pid == pid
  {
    if ts == [] then []
    else if ts[0].pair.pid == pid then [ts[0]] + WithPid(ts[1..], pid)
    else WithPid(ts[1..], pid)
  }

  function WithoutPid(ts: seq<Tunnel>, pid: bytes): (r: seq<Tunnel>)
    ensures forall t :: t in r <==> t in ts && t.pair.pid != pid
  {
    if ts == [] then []
    else if ts[0].pair.pid == pid then WithoutPid(ts[1..], pid)
    else [ts[0]] + WithoutPid(ts[1..], pid)
  }

  /** gc_tunnel_stop */
  function PidStopped(s: Locals, pid: bytes): Locals
  {
    ServersShut(s, WithPid(s.tunnels, pid)).(tunnels := WithoutPid(s.tunnels, pid))
  }

  /** gc_tunnel_stop_all */
  function EveryStopped(s: Locals): Locals { ServersShut(s, s.tunnels).(tunnels := []) }

  predicate Named(t: Tunnel, argv: seq<bytes>)
    requires |argv| == 6
  {
    t.pair.cloud == argv[1] && t.pair.device == argv[2] && t.pair.portLocal == argv[3] && t.pair.portRemote == argv[4]
  }

  function TunnelNamed(ts: seq<Tunnel>, argv: seq<bytes>): (i: nat)
    requires |argv| == 6
    ensures i <= |ts| && (i < |ts| ==> Named(ts[i], argv))
    ensures forall j :: 0 <= j < i ==> !Named(ts[j], argv)
  {
    if ts == [] || Named(ts[0], argv) then 0 else 1 + TunnelNamed(ts[1..], argv)
  }

  lemma TunnelNamedIs(ts: seq<Tunnel>, argv: seq<bytes>, i: nat)
    requires |argv| == 6 && i <= |ts| && (i < |ts| ==> Named(ts[i], argv))
    requires forall j :: 0 <= j < i ==> !Named(ts[j], argv)
    ensures TunnelNamed(ts, argv) == i
  {
  }

  /** gc_tunnel_update */
  function Renamed(s: Locals, argv: seq<bytes>): Locals
  {
    if |argv| != 6 then s
    else
      var i := TunnelNamed(s.tunnels, argv);
      if i == |s.tunnels| then s
      else if |argv[5]| > SNB_MAX then s.(fate := Worse(s.fate, Aborted))
      else s.(tunnels := s.tunnels[i := s.tunnels[i].(pair := s.tunnels[i].pair.(portLocal := argv[5]))])
  }

  // ----- data

  function Queue(s: Locals, c: LocalClient): seq<bytes> { if c.id in s.queued then s.queued[c.id] else [] }

  /** client_data */
  function Asked(s: Locals, c: LocalClient, buf: bytes): Locals
  {
    var i := Home(s.tunnels, c.home);
    if i < |s.tunnels| then
      var p := s.tunnels[i].pair;
      s.(out := s.out + [Parcel(p.device, p.pid, RequestHeader(p.portRemote, c.fd, p.portLocal), buf)])
    else s.(fate := Worse(s.fate, Strayed))
  }

  predicate Searched(t: Tunnel, port: bytes) { t.pair.portRemote == port && t.clients.Some? }

  /** tunnel_client_find, for a key that has a bucket. */
  function ClientFor(ts: seq<Tunnel>, port: bytes, key: bytes): Option<LocalClient>
    requires Indexable(key)
  {
    if ts == [] then None
    else if Searched(ts[0], port) && GetAsWritten(ts[0].clients.value, key).Some? then
      GetAsWritten(ts[0].clients.value, key)
    else ClientFor(ts[1..], port, key)
  }

  /** gc_tunnel_response, for a header of three parts. A key without a bucket indexes before the table. */
  function Responded(s: Locals, port: bytes, fd: bytes, body: bytes): Locals
  {
    var key := Snprintf(16, fd);
    if !Indexable(key) then
      if exists t :: t in s.tunnels && Searched(t, port) then s.(fate := Worse(s.fate, Strayed)) else s
    else match ClientFor(s.tunnels, port, key)
      case None => s
      case Some(c) =>
        if c in s.live then s.(queued := s.queued[c.id := Queue(s, c) + [body]]) else s.(fate := Worse(s.fate, Strayed))
  }

  // ----- runs

  /** What reaches the tunnels. A pair too long for its tunnel aborts; the notice is port_update's. */
  datatype Event =
    | Open(pair: Pair, server: bool)
    | StopPid(pid: bytes)
    | StopEvery
    | Rename(argv: seq<bytes>)
    | Accept(id: nat, descriptor: nat)
    | HangUp(client: LocalClient)
    | Data(client: LocalClient, buf: bytes)
    | Response(port: bytes, fd: bytes, body: bytes)
    | Notice(parcel: Parcel)
    | Overlong

  /** A client's callbacks run while it exists; accept() gives a descriptor that no client of the process has. */
  ghost predicate Enabled(s: Locals, ev: Event)
  {
    && s.fate.Running?
    && (ev.Accept? ==> forall c :: c in s.live ==> c.fd != ev.descriptor)
    && (ev.HangUp? ==> ev.client in s.live) && (ev.Data? ==> ev.client in s.live)
  }

  ghost function Step(s: Locals, ev: Event): Locals
  {
    if !Enabled(s, ev) then s
    else match ev
      case Open(pair, server) => Linked(s, pair, server)
      case StopPid(pid) => PidStopped(s, pid)
      case StopEvery => EveryStopped(s)
      case Rename(argv) => Renamed(s, argv)
      case Accept(id, fd) => Accepted(s, id, fd)
      case HangUp(c) => HungUp(s, c)
      case Data(c, buf) => Asked(s, c, buf)
      case Response(port, fd, body) => Responded(s, port, fd, body)
      case Notice(parcel) => s.(out := s.out + [parcel])
      case Overlong => s.(fate := Aborted)
  }

  ghost function Run(s: Locals, evs: seq<Event>): Locals
    decreases |evs|
  {
    if evs == [] then s else Run(Step(s, evs[0]), evs[1..])
  }

  /** The descriptors of the run fit their key. */
  predicate ShortFds(evs: seq<Event>) { forall i :: 0 <= i < |evs| && evs[i].Accept? ==> evs[i].descriptor < FD_LIMIT }

  // ----- what every event keeps

  ghost predicate People(s: Locals)
  {
    && FdsDistinct(s.live)
    && (forall c :: c in s.live ==> c.id < s.made && c.home < s.numbered && c.fd < FD_LIMIT)
  }

  predicate IdsDistinct(ts: seq<Tunnel>) { forall i, j :: 0 <= i < j < |ts| ==> ts[i].id != ts[j].id }

  ghost predicate TableKept(t: Tunnel, live: set<LocalClient>)
  {
    t.clients.Some? ==> Kept(t.clients.value, live, t.id)
  }

  /** Descriptors and tunnel ids are unique, and each table holds existing clients of its own tunnel. */
  ghost predicate Inv(s: Locals)
  {
    && People(s) && IdsDistinct(s.tunnels)
    && forall t :: t in s.tunnels ==> t.id < s.numbered && TableKept(t, s.live)
  }

  lemma StartInv()
    ensures Inv(NOBODY)
  {
  }

  lemma HomeIs(ts: seq<Tunnel>, i: nat)
    requires IdsDistinct(ts) && i < |ts|
    ensures Home(ts, ts[i].id) == i
  {
  }

  /** Tunnel i with another table of the same tunnel. */
  lemma TableReplaced(s: Locals, i: nat, t: ClientTable, live: set<LocalClient>)
    requires i < |s.tunnels| && IdsDistinct(s.tunnels) && Kept(t, live, s.tunnels[i].id)
    requires forall u :: u in s.tunnels ==> u.id < s.numbered && (u.id != s.tunnels[i].id ==> TableKept(u, live))
    ensures var ts := WithTable(s, i, t).tunnels;
      IdsDistinct(ts) && forall u :: u in ts ==> u.id < s.numbered && TableKept(u, live)
  {
    hide Kept;
    var ts := WithTable(s, i, t).tunnels;
    forall u | u in ts
      ensures u.id < s.numbered && TableKept(u, live)
    {
      var k :| 0 <= k < |ts| && ts[k] == u;
      assert s.tunnels[k] in s.tunnels;
    }
  }

  lemma AcceptKeeps(s: Locals, id: nat, fd: nat)
    requires Inv(s) && fd < FD_LIMIT && forall c :: c in s.live ==> c.fd != fd
    ensures Inv(Accepted(s, id, fd))
  {
    hide Kept, WithClient, Home;
    var i := Home(s.tunnels, id);
    if i < |s.tunnels| && s.tunnels[i].clients.Some? {
      var c, t := LocalClient(s.made, fd, id), s.tunnels[i].clients.value;
      assert s.tunnels[i] in s.tunnels && TableKept(s.tunnels[i], s.live);
      KeptAdd(t, s.live, c);
      forall u | u in s.tunnels && u.id != id && u.clients.Some?
        ensures TableKept(u, s.live + {c})
      {
        assert TableKept(u, s.live);
        KeptMore(u.clients.value, s.live, s.live + {c}, u.id);
      }
      TableReplaced(s, i, WithClient(t, c), s.live + {c});
    }
  }

  lemma KeptMore(t: ClientTable, live: set<LocalClient>, more: set<LocalClient>, home: nat)
    requires Kept(t, live, home) && live <= more
    ensures Kept(t, more, home)
  {
  }

  lemma OthersKept(ts: seq<Tunnel>, live: set<LocalClient>, less: set<LocalClient>, id: nat)
    requires forall u :: u in ts ==> TableKept(u, live)
    requires forall c :: c in live && c.home != id ==> c in less
    ensures forall u :: u in ts && u.id != id ==> TableKept(u, less)
  {
    hide Kept;
    forall u | u in ts && u.id != id && u.clients.Some?
      ensures TableKept(u, less)
    {
      assert TableKept(u, live);
      KeptLess(u.clients.value, live, less, u.id);
    }
  }

  lemma HangUpKeeps(s: Locals, c: LocalClient)
    requires Inv(s) && c in s.live
    ensures Inv(HungUp(s, c))
  {
    hide Kept, RemShutdown, Home, StopNotice;
    var i := Home(s.tunnels, c.home);
    var less := s.live - {c};
    OthersKept(s.tunnels, s.live, less, c.home);
    if i < |s.tunnels| && s.tunnels[i].clients.Some? {
      var t := s.tunnels[i].clients.value;
      assert s.tunnels[i] in s.tunnels && TableKept(s.tunnels[i], s.live);
      KeptRem(t, s.live, c);
      TableReplaced(s, i, RemShutdown(t, c), less);
    } else {
      NoTableOf(s, c.home, less);
    }
  }

  lemma NoTableOf(s: Locals, id: nat, live: set<LocalClient>)
    requires IdsDistinct(s.tunnels)
    requires var i := Home(s.tunnels, id); i == |s.tunnels| || s.tunnels[i].clients.None?
    ensures forall u :: u in s.tunnels && u.id == id ==> TableKept(u, live)
  {
    forall u | u in s.tunnels && u.id == id
      ensures TableKept(u, live)
    {
      var k :| 0 <= k < |s.tunnels| && s.tunnels[k] == u;
      HomeIs(s.tunnels, k);
    }
  }

  // ----- stopping tunnels

  /** The server of one of the tunnels reaches the client when it shuts down. */
  ghost predicate Reached(ts: seq<Tunnel>, c: LocalClient)
  {
    exists t :: t in ts && t.clients.Some? && c in Heads(t.clients.value, HT_MAX)
  }

  /** One of the tunnels has a client in its table. */
  ghost predicate AnyClient(ts: seq<Tunnel>)
  {
    exists t :: t in ts && t.clients.Some? && Heads(t.clients.value, HT_MAX) != []
  }

  lemma ServerShutFacts(s: Locals, t: Tunnel)
    requires FdsDistinct(s.live) && TableKept(t, s.live)
    ensures var r := ServerShut(s, t);
      && r.live <= s.live && r.fate == s.fate
      && (forall c :: c in s.live ==> (c in r.live <==> !(t.clients.Some? && c in Heads(t.clients.value, HT_MAX))))
      && (forall c :: c in s.live && c.home != t.id ==> c in r.live)
      && |r.out| - |s.out| == r.closed - s.closed >= 0
      && (r.closed > s.closed <==> t.clients.Some? && Heads(t.clients.value, HT_MAX) != [])
  {
    hide Kept, Heads, Notices;
    if t.clients.Some? {
      ShutdownReachesIff(t.clients.value, s.live, t.id);
    }
  }

  /** Servers shut down one after the other reach the heads of all their tables, and no other client. */
  lemma {:induction false} ServersShutFacts(s: Locals, ts: seq<Tunnel>)
    requires FdsDistinct(s.live) && IdsDistinct(ts) && forall t :: t in ts ==> TableKept(t, s.live)
    ensures var r := ServersShut(s, ts);
      && r.live <= s.live && r.fate == s.fate
      && (forall c :: c in s.live ==> (c in r.live <==> !Reached(ts, c)))
      && (forall c :: c in s.live && (forall t :: t in ts ==> t.id != c.home) ==> c in r.live)
      && |r.out| - |s.out| == r.closed - s.closed >= 0
      && (r.closed > s.closed <==> AnyClient(ts))
    decreases |ts|
  {
    hide Kept, Heads, ServerShut, FdsDistinct;
    if ts != [] {
      var r := ServerShut(s, ts[0]);
      assert ts[0] in ts;
      ServerShutFacts(s, ts[0]);
      FewerFds(s.live, r.live);
      assert forall t :: t in ts[1..] ==> t in ts && t.id != ts[0].id by {
        assert forall k :: 0 <= k < |ts[1..]| ==> ts[1..][k] == ts[k + 1];
      }
      OthersKept(ts, s.live, r.live, ts[0].id);
      ServersShutFacts(r, ts[1..]);
      assert forall t :: t in ts <==> t == ts[0] || t in ts[1..] by {
        assert ts == [ts[0]] + ts[1..];
      }
    }
  }

  /** Each client that is shut down costs one notice. */
  lemma {:induction false} NoticesSent(s: Locals, ts: seq<Tunnel>)
    ensures var r := ServersShut(s, ts);
      |r.out| - |s.out| == r.closed - s.closed >= 0 && (r.closed > s.closed <==> AnyClient(ts))
    decreases |ts|
  {
    hide Heads, Notices;
    if ts != [] {
      NoticesSent(ServerShut(s, ts[0]), ts[1..]);
      assert forall t :: t in ts <==> t == ts[0] || t in ts[1..] by {
        assert ts == [ts[0]] + ts[1..];
      }
    }
  }

  lemma FewerFds(live: set<LocalClient>, less: set<LocalClient>)
    requires FdsDistinct(live) && less <= live
    ensures FdsDistinct(less)
  {
  }

  lemma ConsDistinct(t: Tunnel, ts: seq<Tunnel>)
    requires IdsDistinct(ts) && forall u :: u in ts ==> u.id != t.id
    ensures IdsDistinct([t] + ts)
  {
    assert forall k :: 0 <= k < |ts| ==> ts[k] in ts;
  }

  lemma TailDistinct(ts: seq<Tunnel>)
    requires ts != [] && IdsDistinct(ts)
    ensures IdsDistinct(ts[1..]) && forall t :: t in ts[1..] ==> t in ts && t.id != ts[0].id
  {
    assert forall k :: 0 <= k < |ts[1..]| ==> ts[1..][k] == ts[k + 1];
  }

  lemma {:induction false} PartsDistinct(ts: seq<Tunnel>, pid: bytes)
    requires IdsDistinct(ts)
    ensures IdsDistinct(WithPid(ts, pid)) && IdsDistinct(WithoutPid(ts, pid))
  {
    hide IdsDistinct;
    if ts != [] {
      TailDistinct(ts);
      PartsDistinct(ts[1..], pid);
      ConsDistinct(ts[0], if ts[0].pair.pid == pid then WithPid(ts[1..], pid) else WithoutPid(ts[1..], pid));
    }
  }

  lemma SameId(ts: seq<Tunnel>, t: Tunnel, u: Tunnel)
    requires IdsDistinct(ts) && t in ts && u in ts && t.id == u.id
    ensures t == u
  {
    var i :| 0 <= i < |ts| && ts[i] == t;
    var j :| 0 <= j < |ts| && ts[j] == u;
  }

  /** Stopping some tunnels: what is left is in order, and who is left was not reached. */
  lemma StopKeeps(s: Locals, stopped: seq<Tunnel>, left: seq<Tunnel>)
    requires Inv(s) && IdsDistinct(stopped) && IdsDistinct(left)
    requires forall t :: t in stopped ==> t in s.tunnels
    requires forall t :: t in left ==> t in s.tunnels && t !in stopped
    ensures Inv(ServersShut(s, stopped).(tunnels := left))
  {
    hide Kept, ServersShut;
    ServersShutFacts(s, stopped);
    var r := ServersShut(s, stopped);
    forall t | t in left
      ensures TableKept(t, r.live)
    {
      assert TableKept(t, s.live);
      forall c | c in s.live && c.home == t.id
        ensures c in r.live
      {
        forall u | u in stopped
          ensures u.id != c.home
        {
          if u.id == t.id {
            SameId(s.tunnels, t, u);
          }
        }
      }
      if t.clients.Some? {
        KeptLess(t.clients.value, s.live, r.live, t.id);
      }
    }
  }

  // ----- one step

  lemma OpenKeeps(s: Locals, pair: Pair, server: bool)
    requires Inv(s)
    ensures Inv(Linked(s, pair, server))
  {
    hide Kept, EmptyTable, Heads;
    KeptEmpty(s.live, s.numbered);
    var r := Linked(s, pair, server);
    forall t | t in r.tunnels
      ensures t.id < r.numbered && TableKept(t, r.live)
    {
      if t != r.tunnels[0] {
        assert t in s.tunnels;
      }
    }
    LinkedIds(s, r.tunnels[0]);
  }

  lemma LinkedIds(s: Locals, t: Tunnel)
    requires IdsDistinct(s.tunnels) && t.id == s.numbered && forall u :: u in s.tunnels ==> u.id < s.numbered
    ensures IdsDistinct([t] + s.tunnels)
  {
    assert forall k :: 0 <= k < |s.tunnels| ==> s.tunnels[k] in s.tunnels;
  }

  lemma RenameKeeps(s: Locals, argv: seq<bytes>)
    requires Inv(s)
    ensures Inv(Renamed(s, argv))
  {
    hide Kept, TunnelNamed, Named;
    var r := Renamed(s, argv);
    forall u | u in r.tunnels
      ensures u.id < s.numbered && TableKept(u, s.live)
    {
      var k :| 0 <= k < |r.tunnels| && r.tunnels[k] == u;
      assert s.tunnels[k] in s.tunnels;
    }
  }

  lemma StepKeepsInv(s: Locals, ev: Event)
    requires Inv(s) && (ev.Accept? ==> ev.descriptor < FD_LIMIT)
    ensures Inv(Step(s, ev)) && Step(s, ev).made >= s.made
  {
    hide Linked, ServersShut, Renamed, Accepted, HungUp, Kept, IdsDistinct, People;
    hide ClientFor, Home, Searched, TableKept;
    match ev
    case Open(pair, server) =>
      OpenKeeps(s, pair, server);
      Counts(s, ev);
    case StopPid(pid) =>
      PartsDistinct(s.tunnels, pid);
      StopKeeps(s, WithPid(s.tunnels, pid), WithoutPid(s.tunnels, pid));
      Counts(s, ev);
    case StopEvery =>
      NoTunnels();
      StopKeeps(s, s.tunnels, []);
      Counts(s, ev);
    case Rename(argv) =>
      RenameKeeps(s, argv);
      Counts(s, ev);
    case Accept(id, fd) =>
      if Enabled(s, ev) {
        AcceptKeeps(s, id, fd);
      }
      Counts(s, ev);
    case HangUp(c) =>
      if Enabled(s, ev) {
        HangUpKeeps(s, c);
      }
      Counts(s, ev);
    case Data(_, _) =>
      SameInv(s, Step(s, ev));
    case Response(_, _, _) =>
      SameInv(s, Step(s, ev));
    case Notice(_) =>
      SameInv(s, Step(s, ev));
    case Overlong =>
      SameInv(s, Step(s, ev));
  }

  lemma NoTunnels()
    ensures IdsDistinct([])
  {
  }

  lemma SameInv(s: Locals, r: Locals)
    requires Inv(s) && r.tunnels == s.tunnels && r.live == s.live && r.made == s.made && r.numbered == s.numbered
    ensures Inv(r)
  {
  }

  lemma Counts(s: Locals, ev: Event)
    ensures Step(s, ev).made >= s.made
  {
    hide ClientFor, Home, Searched, ServersShut;
  }

  lemma {:induction false} RunKeepsInv(s: Locals, evs: seq<Event>)
    requires Inv(s) && ShortFds(evs)
    ensures Inv(Run(s, evs))
    decreases |evs|
  {
    hide Step, Inv;
    if evs != [] {
      StepKeepsInv(s, evs[0]);
      RunKeepsInv(Step(s, evs[0]), evs[1..]);
    }
  }
}
