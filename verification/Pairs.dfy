/** The configured slots and which of them are paired: src/tunnel.c and the pairing handlers of src/gcapi.c. */
module Pairs {
  import opened Bytes
  import opened Headers
  import opened Locals
  import opened Ports
  import opened Process
  import opened Proto
  import opened Tokens
  import opened Wrappers

  const FORCED: bytes := Ascii("forced")

  /** config.tunnels[i] */
  datatype Slot = Slot(cloud: bytes, device: bytes, port: int, portLocal: int, pid: bytes)

  datatype Pairs = Pairs(slots: seq<Slot>, locals: Locals)

  // ----- pairing

  predicate Wanted(s: Slot, pair: Pair)
  {
    && s.cloud == pair.cloud && s.device == pair.device
    && SnItoa(s.port) == pair.portRemote && SnItoa(s.portLocal) == pair.portLocal
  }

  /** The first slot a pair is for, or the end. */
  function SlotFor(slots: seq<Slot>, pair: Pair): (i: nat)
    ensures i <= |slots| && (i < |slots| ==> Wanted(slots[i], pair))
    ensures forall j :: 0 <= j < i ==> !Wanted(slots[j], pair)
  {
    hide Wanted;
    if slots == [] || Wanted(slots[0], pair) then 0
    else
      assert forall j :: 0 < j < |slots| ==> slots[j] == slots[1..][j - 1];
      1 + SlotFor(slots[1..], pair)
  }

  lemma SlotForIs(slots: seq<Slot>, pair: Pair, i: nat)
    requires i <= |slots| && (i < |slots| ==> Wanted(slots[i], pair))
    requires forall j :: 0 <= j < i ==> !Wanted(slots[j], pair)
    ensures SlotFor(slots, pair) == i
  {
  }

  /** port_update: the slot learns the port the server really got. */
  function PortUpdated(slots: seq<Slot>, pair: Pair, newLocal: bytes): seq<Slot>
  {
    var i := SlotFor(slots, pair);
    if i < |slots| then slots[i := slots[i].(portLocal := SnAtoi(newLocal, 8))] else slots
  }

  function PairUpdated(slots: seq<Slot>, pair: Pair, newLocal: bytes): Pair
  {
    if SlotFor(slots, pair) < |slots| then pair.(portLocal := newLocal) else pair
  }

  predicate PairFits(pair: Pair)
  {
    && |pair.cloud| <= SNB_MAX && |pair.pid| <= SNB_MAX && |pair.device| <= SNB_MAX
    && |pair.portLocal| <= SNB_MAX && |pair.portRemote| <= SNB_MAX && |pair.kind| <= SNB_MAX
  }

  /** The header port_update sends. */
  function UpdateHeader(pair: Pair, device: bytes, newLocal: bytes): bytes
  {
    Snprintf(128, Join([UPDATE, pair.cloud, device, pair.portLocal, pair.portRemote, newLocal], SLASH))
  }

  function UpdateNotice(pair: Pair, device: bytes, newLocal: bytes): Parcel
  {
    Parcel(Ascii("device"), pair.pid, UpdateHeader(pair, device, newLocal), Ascii("device"))
  }

  /** What gc_tunnel_add does before it links the tunnel. */
  datatype Opening = Opening(slots: seq<Slot>, pair: Pair, notices: seq<Parcel>)

  /** `local` is the port of the server that was opened. */
  function Opened(slots: seq<Slot>, pair: Pair, local: bytes, device: bytes): Opening
  {
    if pair.kind != FORCED && SnAtoi(pair.portLocal, 32) == 0 then
      Opening(PortUpdated(slots, pair, local), PairUpdated(slots, pair, local), [UpdateNotice(pair, device, local)])
    else Opening(slots, pair, [])
  }

  /** gc_tunnel_add, where a server can be opened or none is wanted. */
  function TunnelAdded(ps: Pairs, pair: Pair, local: bytes, device: bytes): Pairs
  {
    var o := Opened(ps.slots, pair, local, device);
    var noticed := ps.locals.(out := ps.locals.out + o.notices);
    if !PairFits(o.pair) then Pairs(o.slots, noticed.(fate := Worse(noticed.fate, Aborted)))
    else Pairs(o.slots, Linked(noticed, o.pair, pair.kind != FORCED))
  }

  /** device_pair_reply, where a server can be opened or none is wanted. */
  function Replied(ps: Pairs, pair: Pair, local: bytes, device: bytes): Pairs
  {
    var added := TunnelAdded(ps, pair, local, device);
    var p := Opened(ps.slots, pair, local, device).pair;
    var i := SlotFor(added.slots, p);
    if PairFits(p) && pair.kind != FORCED && i < |added.slots| then
      added.(slots := added.slots[i := added.slots[i].(pid := p.pid)])
    else added
  }

  // ----- offline notices

  function SlotOffline(s: Slot, address: bytes): Slot
  {
    if address == [] || s.pid == address then s.(pid := []) else s
  }

  /** pairs_offline */
  function SlotsOffline(slots: seq<Slot>, address: bytes): (r: seq<Slot>)
    ensures |r| == |slots| && forall i :: 0 <= i < |r| ==> r[i] == SlotOffline(slots[i], address)
  {
    seq(|slots|, i requires 0 <= i < |slots| => SlotOffline(slots[i], address))
  }

  /** cloud_offline, but for the endpoint it stops. */
  function Offline(ps: Pairs, address: bytes): Pairs
  {
    Pairs(SlotsOffline(ps.slots, address), PidStopped(ps.locals, address))
  }

  /** What upstream_error does to the slots and the tunnels. */
  function Cleared(ps: Pairs): Pairs { Pairs(SlotsOffline(ps.slots, []), EveryStopped(ps.locals)) }

  // ----- what handlers read of the configuration

  /** The reply's port_update reads the device, its search the slots. */
  predicate Looks(slots: seq<Slot>, pair: Pair)
  {
    pair.kind != FORCED && (SnAtoi(pair.portLocal, 32) == 0 || (slots != [] && PairFits(pair)))
  }

  /** pairs_offline logs the slots it marks by name. */
  predicate Marks(slots: seq<Slot>, address: bytes)
  {
    address != [] && exists i :: 0 <= i < |slots| && slots[i].pid == address
  }

  function PairRequest(s: Slot): Msg<bytes> { DevicePair(s.cloud, s.device, SnItoa(s.portLocal), SnItoa(s.port)) }

  /** What devices_pair sends. */
  function PairRequests(slots: seq<Slot>): seq<Msg<bytes>>
  {
    if slots == [] then []
    else (if slots[0].pid == [] then [PairRequest(slots[0])] else []) + PairRequests(slots[1..])
  }

  /** The request of a slot without a peer comes before those of the slots behind it. */
  lemma PairRequestsStep(slots: seq<Slot>, i: nat, before: seq<Msg<bytes>>)
    requires i < |slots|
    ensures before + PairRequests(slots[i..]) ==
      (if slots[i].pid == [] then before + [PairRequest(slots[i])] else before) + PairRequests(slots[i + 1..])
  {
    hide PairRequest;
    assert slots[i..][0] == slots[i] && slots[i..][1..] == slots[i + 1..];
    assert before + ([PairRequest(slots[i])] + PairRequests(slots[i + 1..]))
      == before + [PairRequest(slots[i])] + PairRequests(slots[i + 1..]);
    assert [] + PairRequests(slots[i + 1..]) == PairRequests(slots[i + 1..]);
  }

  lemma PairRequestsNone(slots: seq<Slot>, i: nat, before: seq<Msg<bytes>>)
    requires i == |slots|
    ensures before + PairRequests(slots[i..]) == before && slots[0..] == slots
  {
  }

  // ----- every paired slot has its tunnel

  predicate Serves(t: Tunnel, s: Slot)
  {
    && t.pair.pid == s.pid && t.pair.cloud == s.cloud && t.pair.device == s.device
    && t.pair.portRemote == SnItoa(s.port)
  }

  predicate Paired(slots: seq<Slot>, ts: seq<Tunnel>)
  {
    forall i :: 0 <= i < |slots| && slots[i].pid != [] ==> exists t :: t in ts && Serves(t, slots[i])
  }

  lemma RepliedKeepsPaired(ps: Pairs, pair: Pair, local: bytes, device: bytes)
    requires Paired(ps.slots, ps.locals.tunnels)
    ensures var r := Replied(ps, pair, local, device); Paired(r.slots, r.locals.tunnels)
  {
    hide SlotFor, PairFits, SnAtoi, SnItoa, UpdateHeader, FORCED;
    var next := Replied(ps, pair, local, device);
    var o := Opened(ps.slots, pair, local, device);
    forall i | 0 <= i < |next.slots| && next.slots[i].pid != []
      ensures exists t :: t in next.locals.tunnels && Serves(t, next.slots[i])
    {
      if ps.slots[i].pid != [] {
        var t :| t in ps.locals.tunnels && Serves(t, ps.slots[i]);
        assert t in next.locals.tunnels && Serves(t, o.slots[i]);
      }
      if next.slots[i] != o.slots[i] {
        assert next.locals.tunnels[0] in next.locals.tunnels && Serves(next.locals.tunnels[0], next.slots[i]);
      }
    }
  }

  lemma OfflineKeepsPaired(ps: Pairs, address: bytes)
    requires Paired(ps.slots, ps.locals.tunnels)
    ensures var r := Offline(ps, address); Paired(r.slots, r.locals.tunnels)
  {
    hide WithoutPid, WithPid, ServersShut, SlotsOffline, SnItoa;
    var next := Offline(ps, address);
    forall i | 0 <= i < |next.slots| && next.slots[i].pid != []
      ensures exists t :: t in next.locals.tunnels && Serves(t, next.slots[i])
    {
      var t :| t in ps.locals.tunnels && Serves(t, ps.slots[i]);
      assert t in next.locals.tunnels;
    }
  }

  /** As long as tunnels keep their names, slots and tunnels stay in step. */
  lemma SameNamesPaired(slots: seq<Slot>, ts: seq<Tunnel>, us: seq<Tunnel>)
    requires Paired(slots, ts) && |us| == |ts|
    requires forall k :: 0 <= k < |ts| ==> us[k].pair == ts[k].pair.(portLocal := us[k].pair.portLocal)
    ensures Paired(slots, us)
  {
    hide SnItoa;
    forall i | 0 <= i < |slots| && slots[i].pid != []
      ensures exists u :: u in us && Serves(u, slots[i])
    {
      var t :| t in ts && Serves(t, slots[i]);
      var k :| 0 <= k < |ts| && ts[k] == t;
      assert us[k] in us && Serves(us[k], slots[i]);
    }
  }

  lemma RenamedKeepsPaired(ps: Pairs, argv: seq<bytes>)
    requires Paired(ps.slots, ps.locals.tunnels)
    ensures Paired(ps.slots, Renamed(ps.locals, argv).tunnels)
  {
    hide TunnelNamed, SnItoa, Named;
    SameNamesPaired(ps.slots, ps.locals.tunnels, Renamed(ps.locals, argv).tunnels);
  }

  /** gc_tunnel_stop_all by itself leaves the slots paired with nothing, exactly when any was paired. */
  lemma StopAllKeepsPairedIff(slots: seq<Slot>)
    ensures Paired(slots, []) <==> forall i :: 0 <= i < |slots| ==> slots[i].pid == []
  {
  }

  /** After an offline notice nothing of that address is left; an empty address unpairs every slot. */
  lemma OfflineClears(ps: Pairs, address: bytes)
    ensures var next := Offline(ps, address);
      && (forall t :: t in next.locals.tunnels <==> t in ps.locals.tunnels && t.pair.pid != address)
      && (forall i :: 0 <= i < |next.slots| ==>
            next.slots[i].pid == (if address == [] || ps.slots[i].pid == address then [] else ps.slots[i].pid))
  {
    hide WithoutPid, WithPid, ServersShut;
  }

  /**
   * A reply for slot i, which takes any local port: the slot learns the port, and the notice of it goes upstream. Slot k
   * gets the pid, which is slot i exactly when no slot before it has that very port already.
   */
  lemma ZeroPortPairs(ps: Pairs, pair: Pair, i: nat, port: int, device: bytes)
    requires pair.kind != FORCED && SnAtoi(pair.portLocal, 32) == 0 && 0 < port < 10_000_000
    requires i < |ps.slots| && i == SlotFor(ps.slots, pair) && PairFits(pair)
    ensures var next, asked := Replied(ps, pair, SnItoa(port), device), pair.(portLocal := SnItoa(port));
      var learnt := ps.slots[i := ps.slots[i].(portLocal := port)];
      var k := SlotFor(learnt, asked);
      && next.locals.fate == ps.locals.fate
      && next.locals.out == ps.locals.out + [UpdateNotice(pair, device, SnItoa(port))]
      && |next.locals.tunnels| == |ps.locals.tunnels| + 1 && next.locals.tunnels[0].pair == asked
      && k <= i && (k == i <==> forall j :: 0 <= j < i ==> !Wanted(ps.slots[j], asked))
      && next.slots == learnt[k := learnt[k].(pid := pair.pid)]
  {
    hide SlotFor, SnItoa, SnAtoi, FORCED, UpdateHeader;
    PortSurvivesIff(port);
    var asked := pair.(portLocal := SnItoa(port));
    var learnt := ps.slots[i := ps.slots[i].(portLocal := port)];
    assert Wanted(learnt[i], asked);
    assert forall j :: 0 <= j < i ==> learnt[j] == ps.slots[j];
    ShortPort(port);
  }

  lemma ShortPort(port: int)
    ensures |SnItoa(port)| <= 7
  {
  }

  // ----- the notice of a new port

  /** The peer reads the notice's five names exactly if the header's buffer holds them. */
  lemma NoticeReadIff(pair: Pair, device: bytes, newLocal: bytes)
    requires Plain(pair.cloud) && Plain(device) && Plain(pair.portLocal) && Plain(pair.portRemote) && Plain(newLocal)
    ensures var names := [UPDATE, pair.cloud, device, pair.portLocal, pair.portRemote, newLocal];
      Split(UpdateHeader(pair, device, newLocal), SLASH) == names <==> |Join(names, SLASH)| < 128
  {
    hide Split, Join;
    NamesPlain();
    PrintedTokensIff(128, [UPDATE, pair.cloud, device, pair.portLocal, pair.portRemote, newLocal]);
  }

  /** A peer that reads them puts the new port into its first tunnel of that name, and changes nothing else. */
  lemma NoticeUpdatesPeer(s: Locals, pair: Pair, device: bytes, newLocal: bytes)
    requires |newLocal| <= SNB_MAX
    ensures var argv := [UPDATE, pair.cloud, device, pair.portLocal, pair.portRemote, newLocal];
      && Dispatch(argv[0]) == TunnelUpdate
      && var i, next := TunnelNamed(s.tunnels, argv), Renamed(s, argv);
         && next.fate == s.fate && |next.tunnels| == |s.tunnels|
         && (i < |s.tunnels| ==>
               && next.tunnels[i] == s.tunnels[i].(pair := s.tunnels[i].pair.(portLocal := newLocal))
               && s.tunnels[i].pair.cloud == pair.cloud && s.tunnels[i].pair.device == device
               && s.tunnels[i].pair.portLocal == pair.portLocal && s.tunnels[i].pair.portRemote == pair.portRemote)
         && forall j :: 0 <= j < |s.tunnels| && j != i ==> next.tunnels[j] == s.tunnels[j]
  {
    NamesPlain();
    hide TunnelNamed, UPDATE, REQUEST, RESPONSE;
  }
}
