/**
 * The slots and the tunnels changed in place, against the functions of modules Pairs and Locals: src/tunnel.c with its
 * list relinked, and what src/async_server.c does to the clients of a tunnel's server.
 */
module PairTable {
  import opened Bytes
  import opened HashTable
  import opened Headers
  import opened Links
  import opened Locals
  import L = Locals
  import opened Pairing
  import opened Pairs
  import opened Ports
  import opened Process
  import opened Proto
  import opened Server
  import opened Tokens
  import opened Wrappers

  const GC_CFG_MAX_TUNNELS := 32

  ghost predicate AllRegistered(ts: seq<Tunnel>)
  {
    forall i :: 0 <= i < |ts| && ts[i].clients.Some? ==> Registered(ts[i].clients.value)
  }

  class PairTable {
    /** config.device */
    const device: bytes
    /** config.tunnels */
    const slots: array<Slot>
    const ntunnels: nat
    /** The head of the list. */
    var tunnels: Link?<Tunnel>
    ghost var links: seq<Link<Tunnel>>
    /** What the list holds. */
    ghost var list: seq<Tunnel>
    var live: set<LocalClient>
    var numbered: nat
    var made: nat
    var queued: map<nat, seq<bytes>>
    var out: seq<Parcel>
    var closed: nat
    var fate: Fate

    ghost predicate Listed()
      reads this`tunnels, this`links, this`list, links
    {
      IsList(tunnels, links, list) && AllRegistered(list)
    }

    ghost predicate Valid()
      reads this`tunnels, this`links, this`list, links
    {
      ntunnels <= GC_CFG_MAX_TUNNELS == slots.Length && Listed()
    }

    ghost function Slots(): seq<Slot>
      requires ntunnels <= slots.Length
      reads slots
    {
      slots[..ntunnels]
    }

    ghost function Local(): Locals
      reads this
    {
      Locals(list, live, numbered, made, queued, out, closed, fate)
    }

    ghost function View(): Pairs
      requires ntunnels <= slots.Length
      reads this, slots
    {
      Pairs(Slots(), Local())
    }

    constructor (configured: seq<Slot>, device: bytes)
      requires |configured| <= GC_CFG_MAX_TUNNELS
      ensures Valid() && fresh(slots) && View() == Pairs(configured, NOBODY) && this.device == device && links == []
    {
      this.device := device;
      ntunnels := |configured|;
      tunnels, links, list := null, [], [];
      live, numbered, made, queued, out, closed, fate := {}, 0, 0, map[], [], 0, Running;
      slots := new Slot[GC_CFG_MAX_TUNNELS](i =>
        if 0 <= i < |configured| then configured[i] else Slot([], [], 0, 0, []));
      new;
      assert slots[..ntunnels] == configured;
    }

    // ----- the slots

    /** pairs_offline; `logged` if the names of a slot were. */
    method PairsOffline(address: bytes) returns (logged: bool)
      requires Valid()
      modifies slots
      ensures Slots() == SlotsOffline(old(Slots()), address)
      ensures logged == Marks(old(Slots()), address)
    {
      logged := false;
      for i := 0 to ntunnels
        invariant forall j :: 0 <= j < ntunnels ==>
          slots[j] == if j < i then SlotOffline(old(slots[j]), address) else old(slots[j])
        invariant logged <==> address != [] && exists j :: 0 <= j < i && old(slots[..])[j].pid == address
      {
        if |address| == 0 {
          slots[i] := slots[i].(pid := []);
        } else if slots[i].pid == address {
          logged := true;
          slots[i] := slots[i].(pid := []);
        }
      }
    }

    /** The search in port_update and in device_pair_reply. */
    method FindSlot(pair: Pair) returns (i: nat)
      requires Valid()
      ensures i == SlotFor(Slots(), pair)
    {
      hide SnItoa, SlotFor, Listed;
      i := 0;
      while i < ntunnels
        invariant 0 <= i <= ntunnels && forall j :: 0 <= j < i ==> !Wanted(slots[j], pair)
      {
        var port, portLocal := SnItoa(slots[i].port), SnItoa(slots[i].portLocal);
        if slots[i].cloud == pair.cloud && slots[i].device == pair.device
           && port == pair.portRemote && portLocal == pair.portLocal {
          break;
        }
        i := i + 1;
      }
      SlotForIs(slots[..ntunnels], pair, i);
    }

    method PortUpdate(pair: Pair, newLocal: bytes) returns (updated: Pair)
      requires Valid()
      modifies slots, this`out
      ensures Slots() == PortUpdated(old(Slots()), pair, newLocal)
      ensures Slots() == PortGiven(old(Slots()), NamesIn(pair), SnAtoi(newLocal, 8))
      ensures updated == PairUpdated(old(Slots()), pair, newLocal)
      ensures out == old(out) + [UpdateNotice(pair, device, newLocal)]
    {
      hide SlotFor, UpdateHeader, SnAtoi, Listed, FirstNamed;
      PortUpdatedIs(Slots(), pair, newLocal);
      updated := pair;
      out := out + [Parcel(Ascii("device"), pair.pid, UpdateHeader(pair, device, newLocal), Ascii("device"))];
      var i := FindSlot(pair);
      if i < ntunnels {
        slots[i] := slots[i].(portLocal := SnAtoi(newLocal, 8));
        updated := pair.(portLocal := newLocal);
      }
    }

    // ----- the list

    /** What a walk along the list sees at node i. */
    lemma WalkAt(i: nat)
      requires Listed()
      ensures |links| == |list| && tunnels == NodeAt(links, 0)
      ensures i < |links| ==> links[i].item == list[i] && links[i].next == NodeAt(links, i + 1)
    {
    }

    /** gc_tunnel_add; `local` is the port async_server got, None if there is no server to be had. */
    method GcTunnelAdd(asked: Pair, local: Option<bytes>) returns (ok: bool, pair: Pair)
      requires Valid()
      modifies this`tunnels, this`links, this`list, this`numbered, this`out, this`fate, slots
      ensures Valid() && fresh(Members(links) - Members(old(links)))
      ensures ok <==> asked.kind == FORCED || local.Some?
      ensures !ok ==> View() == old(View())
      ensures ok ==>
        var l := if local.Some? then local.value else [];
        View() == TunnelAdded(old(View()), asked, l, device) && pair == Opened(old(Slots()), asked, l, device).pair
    {
      hide SlotFor, UpdateHeader, SnAtoi, FORCED, IsList, PairFits, AllRegistered, PortUpdated, PairUpdated;
      pair := asked;
      if pair.kind != FORCED {
        if local.None? {
          return false, pair;
        }
        var portLocal := SnAtoi(pair.portLocal, 32);
        if portLocal == 0 {
          pair := PortUpdate(pair, local.value);
        }
      }
      ok := true;
      if !PairFits(pair) {
        fate := Worse(fate, Aborted);
        return;
      }
      Insert(pair, asked.kind != FORCED);
    }

    /** The tunnel itself, before all others. */
    method Insert(pair: Pair, server: bool)
      requires Listed()
      modifies this`tunnels, this`links, this`list, this`numbered
      ensures Listed() && fresh(Members(links) - Members(old(links)))
      ensures Local() == L.Linked(old(Local()), pair, server)
    {
      hide IsList, AllRegistered;
      var t := Tunnel(numbered, pair, if server then Some(EmptyTable()) else None);
      AddedRegistered(list, t);
      var first := Push(tunnels, t, links, list);
      tunnels, links, list, numbered := first, [first] + links, [t] + list, numbered + 1;
    }

    /** device_pair_reply; false where it asks for the process to stop. */
    method DevicePairReply(asked: Pair, local: Option<bytes>) returns (ok: bool)
      requires Valid()
      modifies this`tunnels, this`links, this`list, this`numbered, this`out, this`fate, slots
      ensures Valid() && fresh(Members(links) - Members(old(links)))
      ensures ok <==> asked.kind == FORCED || local.Some?
      ensures ok ==> View() == Replied(old(View()), asked, if local.Some? then local.value else [], device)
      ensures !ok ==> View() == old(View())
      ensures ok && asked.kind != FORCED && SnAtoi(asked.portLocal, 32) != 0 && PairFits(asked) ==>
        Slots() == PidGiven(old(Slots()), NamesIn(asked), asked.pid)
    {
      hide SlotFor, UpdateHeader, SnAtoi, FORCED, Listed, PairFits, PortUpdated, TunnelAdded, FirstNamed;
      if asked.kind != FORCED && SnAtoi(asked.portLocal, 32) != 0 && PairFits(asked) {
        PidGoesToFirst(View(), asked, if local.Some? then local.value else [], device);
      }
      var pair: Pair;
      ok, pair := GcTunnelAdd(asked, local);
      if !ok || !PairFits(pair) {
        return;
      }
      if pair.kind == FORCED {
        return;
      }
      var i := FindSlot(pair);
      if i < ntunnels {
        slots[i] := slots[i].(pid := pair.pid);
      }
    }

    method GcTunnelUpdate(argv: seq<bytes>) returns (ok: bool)
      requires Valid()
      modifies this`list, this`fate, links
      ensures Valid() && Local() == Renamed(old(Local()), argv)
      ensures ok <==> |argv| == 6 && TunnelNamed(old(list), argv) < |old(list)| && |argv[5]| <= SNB_MAX
    {
      hide IsList, TunnelNamed, AllRegistered;
      if |argv| != 6 {
        return false;
      }
      var t := tunnels;
      ghost var i := 0;
      WalkAt(0);
      while t != null
        invariant 0 <= i <= |links| == |list| && t == NodeAt(links, i)
        invariant Listed() && Local() == old(Local()) && forall j :: 0 <= j < i ==> !Named(list[j], argv)
        decreases |links| - i
      {
        WalkAt(i);
        var p := t.item.pair;
        if argv[1] == p.cloud && argv[2] == p.device && argv[3] == p.portLocal && argv[4] == p.portRemote {
          TunnelNamedIs(list, argv, i);
          if |argv[5]| > SNB_MAX {
            fate := Worse(fate, Aborted);
            return false;
          }
          TableRegistered(i);
          Put(t, i, t.item.(pair := p.(portLocal := argv[5])));
          return true;
        }
        t, i := t.next, i + 1;
      }
      TunnelNamedIs(list, argv, i);
      return false;
    }

    /** A tunnel changed in its node. */
    method Put(ent: Link<Tunnel>, ghost i: nat, item: Tunnel)
      requires Listed() && i < |links| && ent == links[i]
      requires item.clients.Some? ==> Registered(item.clients.value)
      modifies this`list, ent`item
      ensures Listed() && list == old(list)[i := item] && ent.item == item
    {
      hide Registered;
      Change(ent, item, tunnels, links, list, i);
      list := list[i := item];
    }

    // ----- the clients of a tunnel's server

    /** client->parent->tunnel; null where the server is gone. */
    method Parent(id: nat) returns (ent: Link?<Tunnel>, ghost i: nat)
      requires Listed()
      ensures |links| == |list| && i == Home(list, id) && ent == NodeAt(links, i)
      ensures i < |links| ==> ent != null && ent.item == list[i]
    {
      hide IsList, AllRegistered;
      ent, i := tunnels, 0;
      WalkAt(0);
      while ent != null && ent.item.id != id
        invariant 0 <= i <= |links| == |list| && ent == NodeAt(links, i)
        invariant forall j :: 0 <= j < i ==> list[j].id != id
        decreases |links| - i
      {
        WalkAt(i);
        ent, i := ent.next, i + 1;
      }
      WalkAt(i);
      HomeFound(list, id, i);
    }

    /** server_async_client */
    method ServerAsyncClient(id: nat, fd: nat)
      requires Listed()
      modifies this`list, this`live, this`made, links
      ensures Listed() && Local() == Accepted(old(Local()), id, fd)
    {
      hide Listed, WithClient;
      var ent, i := Parent(id);
      if ent != null && ent.item.clients.Some? {
        var c, t := LocalClient(made, fd, id), ent.item.clients.value;
        TableRegistered(i);
        AddRegisters(t, c);
        Put(ent, i, ent.item.(clients := Some(WithClient(t, c))));
        live, made := live + {c}, made + 1;
      }
    }

    lemma TableRegistered(i: nat)
      requires Listed() && i < |list|
      ensures list[i].clients.Some? ==> Registered(list[i].clients.value)
    {
    }

    /** async_client_shutdown of a client whose server is this tunnel's. */
    method AsyncClientShutdown(ent: Link<Tunnel>, ghost i: nat, c: LocalClient)
      requires Listed() && i < |links| == |list| && ent == links[i] && ent.item == list[i] && ent.item.clients.Some?
      modifies this`list, this`live, this`closed, this`out, this`fate, ent`item
      ensures Listed() && ent.item == old(ent.item).(clients := Some(RemShutdown(old(ent.item.clients.value), c)))
      ensures list == old(list)[i := ent.item]
      ensures live == old(live) - {c} && closed == old(closed) + 1
      ensures out == old(out) + [StopNotice(old(list[i]).pair, c.fd)]
      ensures fate == if c in old(live) then old(fate) else Worse(old(fate), Strayed)
    {
      hide Listed, RemShutdown, Registered;
      closed := closed + 1;
      var p := ent.item.pair;
      out := out + [Parcel(p.device, p.pid, Snprintf(64, Join([STOP, Decimal(c.fd)], SLASH)), Ascii("data"))];
      var t := ent.item.clients.value;
      TableRegistered(i);
      RemKeepsRegistered(t, c);
      Put(ent, i, ent.item.(clients := Some(RemShutdown(t, c))));
      if c !in live {
        fate := Worse(fate, Strayed);
      }
      live := live - {c};
    }

    /** client_error */
    method ClientError(c: LocalClient)
      requires Listed()
      modifies this`list, this`live, this`closed, this`out, this`fate, links
      ensures Listed() && Local() == HungUp(old(Local()), c)
    {
      hide Listed, RemShutdown, StopNotice;
      var ent, i := Parent(c.home);
      if ent != null && ent.item.clients.Some? {
        AsyncClientShutdown(ent, i, c);
      } else {
        live, closed, fate := live - {c}, closed + 1, Worse(fate, Strayed);
      }
    }

    /** async_server_shutdown: the head of each bucket in turn, while the calls change the table. */
    method AsyncServerShutdown(ent: Link<Tunnel>, ghost i: nat)
      requires Listed() && i < |links| == |list| && ent == links[i] && ent.item == list[i] && ent.item.clients.Some?
      modifies this`list, this`live, this`closed, this`out, this`fate, ent`item
      ensures Listed() && |list| == |old(list)| && forall j :: 0 <= j < |list| && j != i ==> list[j] == old(list)[j]
      ensures Local().(tunnels := old(list)) == ServerShut(old(Local()), old(list)[i])
    {
      hide Listed, RemShutdown, Registered, Heads, Swept, AfterShut;
      ghost var t, s := ent.item, Local();
      ghost var table := t.clients.value;
      TableRegistered(i);
      NothingShut(s, t.pair, table);
      for b := 0 to HT_MAX
        invariant Listed() && |list| == |s.tunnels| && list == s.tunnels[i := ent.item]
        invariant ent.item == t.(clients := Some(Swept(table, b)))
        invariant AfterShut(s, Local(), t.pair, Heads(table, b))
      {
        NextBucket(table, b);
        if ent.item.clients.value[b] != [] {
          var c := ent.item.clients.value[b][0].value;
          ghost var r := Local();
          SweptRegistered(table, b);
          HeadRemoved(Swept(table, b), b);
          HeadOnlyOnce(table, b);
          AsyncClientShutdown(ent, i, c);
          OneMoreShut(s, r, Local(), t.pair, Heads(table, b), c);
        }
      }
      ThenShut(s, Local(), t);
    }

    /** `if (t->server) async_server_shutdown(t->server)` */
    method StopServer(ent: Link<Tunnel>, ghost i: nat)
      requires Listed() && i < |links| == |list| && ent == links[i] && ent.item == list[i]
      modifies this`list, this`live, this`closed, this`out, this`fate, ent`item
      ensures Listed() && |list| == |old(list)| && forall j :: 0 <= j < |list| && j != i ==> list[j] == old(list)[j]
      ensures Local().(tunnels := old(list)) == ServerShut(old(Local()), old(list)[i])
    {
      hide Listed, Heads, Notices;
      if ent.item.clients.Some? {
        AsyncServerShutdown(ent, i);
      }
    }

    /** A tunnel's server is shut down, and its node taken out of the list. */
    method StopTunnel(prev: Link?<Tunnel>, ent: Link<Tunnel>, ghost i: nat) returns (next: Link?<Tunnel>)
      requires Listed() && i < |links| == |list| && ent == links[i] && prev == Before(links, i)
      modifies this`tunnels, this`links, this`list, this`live, this`closed, this`out, this`fate
      modifies ent`item, (if prev == null then {} else {prev})`next
      ensures Listed() && links == Without(old(links), i) && next == NodeAt(links, i)
      ensures |list| == |links| == |old(links)| - 1
      ensures list[..i] == old(list)[..i] && list[i..] == old(list)[i + 1..]
      ensures Local().(tunnels := old(list)) == ServerShut(old(Local()), old(list)[i])
    {
      hide Listed, Without, ServerShut, NodeAt, Before;
      WalkAt(i);
      StopServer(ent, i);
      TakenOut(old(list), list, i);
      WalkAt(i);
      next := ent.next;
      NodeIs(links, i);
      TakeOut(prev, ent, i);
    }

    /** The three lines that take a node out of the list. */
    method TakeOut(prev: Link?<Tunnel>, ent: Link<Tunnel>, ghost i: nat)
      requires Listed() && i < |links| && ent == links[i] && prev == Before(links, i)
      modifies this`tunnels, this`links, this`list, (if prev == null then {} else {prev})`next
      ensures Listed() && links == Without(old(links), i) && list == Without(old(list), i)
      ensures |list| == |links| == |old(links)| - 1
    {
      hide IsList, AllRegistered, Without, NodeAt, Before;
      WalkAt(i);
      WithoutRegistered(list, i);
      WithoutAt(links, i);
      tunnels := Links.Unlink(tunnels, prev, ent, links, list, i);
      links, list := Without(links, i), Without(list, i);
      WalkAt(0);
    }

    /** gc_tunnel_stop */
    method GcTunnelStop(pid: bytes)
      requires Valid()
      modifies this`tunnels, this`links, this`list, this`live, this`closed, this`out, this`fate, links
      ensures Valid() && Local() == PidStopped(old(Local()), pid) && Members(links) <= Members(old(links))
    {
      hide Listed, ServersShut, ServerShut, WithPid, WithoutPid, Without, Members, NodeAt, Before;
      var prev: Link?<Tunnel>, t := null, tunnels;
      ghost var s, i := Local(), 0;
      WalkAt(0);
      assert list[0..] == list && list[..0] == [];
      WalkEnds(links);
      while t != null
        invariant Listed() && Members(links) <= Members(old(links))
        invariant 0 <= i <= |links| == |list| && t == NodeAt(links, i) && prev == Before(links, i)
        invariant list[..i] + WithoutPid(list[i..], pid) == WithoutPid(s.tunnels, pid)
        invariant ServersShut(Local().(tunnels := s.tunnels), WithPid(list[i..], pid))
          == ServersShut(s, WithPid(s.tunnels, pid))
        decreases |links| - i
      {
        WalkAt(i);
        WalkEnds(links);
        NodeIs(links, i);
        ghost var r := Local();
        OneStopped(r, s.tunnels, i, pid);
        if t.item.pair.pid == pid {
          StillIn(links, old(links), i);
          MembersWithout(links, i);
          t := StopTunnel(prev, t, i);
          OneShut(r, Local(), i, s.tunnels);
        } else {
          prev, t, i := t, t.next, i + 1;
        }
      }
      WalkEnds(links);
      NoMore(list, pid);
      ShutUntil(s, Local(), pid);
    }

    /** gc_tunnel_stop_all */
    method GcTunnelStopAll()
      requires Valid()
      modifies this`tunnels, this`links, this`list, this`live, this`closed, this`out, this`fate, links
      ensures Valid() && Local() == EveryStopped(old(Local())) && links == []
    {
      hide IsList, AllRegistered, ServersShut, ServerShut;
      var t := tunnels;
      ghost var s, i := Local(), 0;
      WalkAt(0);
      assert s.tunnels[0..] == s.tunnels;
      while t != null
        invariant Listed() && links == old(links) && 0 <= i <= |links| == |list| == |s.tunnels| && t == NodeAt(links, i)
        invariant forall j :: i <= j < |list| ==> list[j] == s.tunnels[j]
        invariant ServersShut(Local().(tunnels := s.tunnels), s.tunnels[i..]) == ServersShut(s, s.tunnels)
        decreases |links| - i
      {
        WalkAt(i);
        ghost var r := Local();
        NextShut(r.(tunnels := s.tunnels), i);
        StopServer(t, i);
        OneShut(r, Local(), i, s.tunnels);
        WalkAt(i);
        t, i := t.next, i + 1;
      }
      NoneLeft(Local().(tunnels := s.tunnels));
      tunnels, links, list := null, [], [];
      NoTunnel();
    }

    lemma NoTunnel()
      ensures IsList<Tunnel>(null, [], []) && AllRegistered([])
    {
    }

    // ----- data

    /** client_data */
    method ClientData(c: LocalClient, buf: bytes)
      requires Listed()
      modifies this`out, this`fate
      ensures Local() == Asked(old(Local()), c, buf)
    {
      hide Listed, Home, RequestHeader;
      var ent, i := Parent(c.home);
      if ent == null {
        fate := Worse(fate, Strayed);
        return;
      }
      var p := ent.item.pair;
      out := out + [Parcel(p.device, p.pid, RequestHeader(p.portRemote, c.fd, p.portLocal), buf)];
    }

    /** tunnel_client_find; a key without a bucket indexes before the table. */
    method TunnelClientFind(port: bytes, fd: bytes) returns (c: Option<LocalClient>)
      requires Listed()
      modifies this`fate
      ensures var key := Snprintf(16, fd);
        if Indexable(key) then c == ClientFor(list, port, key) && fate == old(fate)
        else
          && c == None
          && fate == if exists t :: t in list && Searched(t, port) then Worse(old(fate), Strayed) else old(fate)
    {
      hide IsList, AllRegistered, KeyIndex, GetAsWritten, Snprintf;
      var t := tunnels;
      ghost var i := 0;
      var key := Snprintf(16, fd);
      WalkAt(0);
      assert list[0..] == list;
      while t != null
        invariant 0 <= i <= |links| == |list| && t == NodeAt(links, i) && fate == old(fate)
        invariant Indexable(key) ==> ClientFor(list[i..], port, key) == ClientFor(list, port, key)
        invariant !Indexable(key) ==> forall j :: 0 <= j < i ==> !Searched(list[j], port)
        decreases |links| - i
      {
        WalkAt(i);
        assert list[i..][1..] == list[i + 1..];
        if t.item.pair.portRemote == port && t.item.clients.Some? {
          if !Indexable(key) {
            assert list[i] in list && Searched(list[i], port);
            fate := Worse(fate, Strayed);
            return None;
          }
          var kv := GetAsWritten(t.item.clients.value, key);
          if kv.Some? {
            return kv;
          }
        }
        t, i := t.next, i + 1;
      }
      return None;
    }

    /** gc_tunnel_response */
    method GcTunnelResponse(argv: seq<bytes>, body: bytes) returns (ok: bool)
      requires Listed()
      modifies this`queued, this`fate
      ensures Local() == if |argv| == 3 then Responded(old(Local()), argv[1], argv[2], body) else old(Local())
    {
      hide Listed, ClientFor, Searched, KeyIndex, Snprintf;
      if |argv| != 3 {
        return false;
      }
      var c := TunnelClientFind(argv[1], argv[2]);
      if c.None? {
        return false;
      }
      if c.value in live {
        var q := if c.value.id in queued then queued[c.value.id] else [];
        queued := queued[c.value.id := q + [body]];
      } else {
        fate := Worse(fate, Strayed);
      }
      return true;
    }
  }

  lemma AddedRegistered(ts: seq<Tunnel>, t: Tunnel)
    requires AllRegistered(ts) && (t.clients.Some? ==> t.clients.value == EmptyTable<LocalClient>())
    ensures AllRegistered([t] + ts)
  {
    EmptyRefines<LocalClient>();
  }

  lemma WithoutRegistered(ts: seq<Tunnel>, i: nat)
    requires AllRegistered(ts) && i < |ts|
    ensures AllRegistered(Without(ts, i))
  {
    hide Registered;
  }

  lemma HomeFound(ts: seq<Tunnel>, id: nat, i: nat)
    requires i <= |ts| && (i < |ts| ==> ts[i].id == id) && forall j :: 0 <= j < i ==> ts[j].id != id
    ensures Home(ts, id) == i
  {
  }

  // ----- a server shut down client by client

  /** What async_client_shutdown of the clients hs, all of one server, does. */
  ghost predicate AfterShut(s: Locals, r: Locals, pair: Pair, hs: seq<LocalClient>)
  {
    && r.live == s.live - Members(hs) && r.closed == s.closed + |hs| && r.out == s.out + Notices(pair, hs)
    && r.fate == if Members(hs) <= s.live then s.fate else Worse(s.fate, Strayed)
  }

  lemma NothingShut(s: Locals, pair: Pair, t: ClientTable)
    ensures AfterShut(s, s, pair, Heads(t, 0)) && Swept(t, 0) == t
  {
  }

  lemma NextBucket(t: ClientTable, b: nat)
    requires b < HT_MAX
    ensures Swept(t, b)[b] == t[b] && Swept(t, b + 1) == Swept(t, b)[b := Emptied(t[b])]
    ensures t[b] == [] ==> Swept(t, b + 1) == Swept(t, b) && Heads(t, b + 1) == Heads(t, b)
    ensures t[b] != [] ==> Heads(t, b + 1) == Heads(t, b) + [t[b][0].value]
  {
    ShutdownStep(t, [], b);
    if t[b] == [] {
      assert Swept(t, b)[b := []] == Swept(t, b);
    }
  }

  lemma OneMoreShut(s: Locals, r: Locals, q: Locals, pair: Pair, hs: seq<LocalClient>, c: LocalClient)
    requires AfterShut(s, r, pair, hs) && c !in hs
    requires q.live == r.live - {c} && q.closed == r.closed + 1 && q.out == r.out + [StopNotice(pair, c.fd)]
    requires q.fate == if c in r.live then r.fate else Worse(r.fate, Strayed)
    ensures AfterShut(s, q, pair, hs + [c])
  {
    hide StopNotice;
    assert Notices(pair, hs + [c]) == Notices(pair, hs) + [StopNotice(pair, c.fd)];
    assert Members(hs + [c]) == Members(hs) + {c};
  }

  lemma ThenShut(s: Locals, r: Locals, t: Tunnel)
    requires t.clients.Some? && AfterShut(s, r, t.pair, Heads(t.clients.value, HT_MAX))
    requires r.numbered == s.numbered && r.made == s.made && r.queued == s.queued
    ensures r.(tunnels := s.tunnels) == ServerShut(s, t)
  {
    hide Heads, Notices;
  }

  lemma OneShut(r: Locals, q: Locals, i: nat, ts: seq<Tunnel>)
    requires i < |r.tunnels| && q.(tunnels := r.tunnels) == ServerShut(r, r.tunnels[i])
    ensures q.(tunnels := ts) == ServerShut(r.(tunnels := ts), r.tunnels[i])
  {
    hide Heads, Notices;
  }

  /** Tunnel i of those that are left, with the pid or without. */
  lemma OneStopped(r: Locals, ts: seq<Tunnel>, i: nat, pid: bytes)
    requires i < |r.tunnels|
    ensures var s, rest := r.(tunnels := ts), r.tunnels[i + 1..];
      if r.tunnels[i].pair.pid == pid then
        && WithoutPid(r.tunnels[i..], pid) == WithoutPid(rest, pid)
        && ServersShut(s, WithPid(r.tunnels[i..], pid))
           == ServersShut(ServerShut(s, r.tunnels[i]), WithPid(rest, pid))
      else
        && r.tunnels[..i] + WithoutPid(r.tunnels[i..], pid) == r.tunnels[..i + 1] + WithoutPid(rest, pid)
        && WithPid(r.tunnels[i..], pid) == WithPid(rest, pid)
  {
    hide ServerShut;
    assert r.tunnels[i..][1..] == r.tunnels[i + 1..];
    var rest := WithPid(r.tunnels[i + 1..], pid);
    assert ([r.tunnels[i]] + rest)[1..] == rest;
  }

  lemma TakenOut(was: seq<Tunnel>, list: seq<Tunnel>, i: nat)
    requires i < |was| == |list| && forall j :: 0 <= j < |was| && j != i ==> list[j] == was[j]
    ensures Without(list, i)[..i] == was[..i] && Without(list, i)[i..] == was[i + 1..]
  {
  }

  lemma NextShut(s: Locals, i: nat)
    requires i < |s.tunnels|
    ensures ServersShut(s, s.tunnels[i..]) == ServersShut(ServerShut(s, s.tunnels[i]), s.tunnels[i + 1..])
  {
    hide ServerShut;
    assert s.tunnels[i..][1..] == s.tunnels[i + 1..];
  }

  lemma NoneLeft(s: Locals)
    ensures ServersShut(s, s.tunnels[|s.tunnels|..]) == s
  {
  }

  lemma NoMore(ts: seq<Tunnel>, pid: bytes)
    ensures WithPid(ts[|ts|..], pid) == [] && ts[..|ts|] + WithoutPid(ts[|ts|..], pid) == ts
  {
  }

  lemma ShutUntil(s: Locals, r: Locals, pid: bytes)
    requires ServersShut(r.(tunnels := s.tunnels), []) == ServersShut(s, WithPid(s.tunnels, pid))
    requires r.tunnels == WithoutPid(s.tunnels, pid)
    ensures r == PidStopped(s, pid)
  {
    hide WithPid, WithoutPid;
  }

  lemma SweptRegistered(t: ClientTable, b: nat)
    requires Registered(t) && b <= HT_MAX
    ensures Registered(Swept(t, b))
  {
  }
}
