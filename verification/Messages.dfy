/**
 * What each message does to the process, from its bytes to the effect: which field its handler goes by, and which messages
 * end the process (callback_data of src/gcapi.c).
 */
module Messages {
  import opened Bytes
  import opened Endpoints
  import opened Headers
  import opened Inbox
  import opened Links
  import opened Locals
  import opened Pairs
  import opened Pairing
  import opened Ports
  import opened Process
  import opened Proto
  import opened Session
  import opened SessionRuns
  import opened Tokens
  import opened Wrappers

  /** The process is handed the bytes of a message. */
  ghost function Heard(s: State, m: Msg<bytes>, g: Given, config: Config): State
    requires Sendable(m)
  {
    match ToFrame(Encode(m), g)
    case None => s
    case Some(f) => Session.Step(s, Upstream(f), config)
  }

  /** The upstream's read callback runs. */
  predicate Listening(s: State) { Alive(s) && s.phase.active && !s.phase.sigterm }

  lemma HeardIs(s: State, m: Msg<bytes>, g: Given, config: Config)
    requires Sendable(m) && Legible(m) && Listening(s)
    ensures Heard(s, m, g, config) == Read(s, Meant(m, g), config)
  {
    hide ToFrame, Meant, Encode, Read;
    LegibleHandled(m, g);
  }

  // ----- a login reply

  /** By its error alone: pairing starts, or with the traffic action one request goes out; any other error ends it. */
  lemma LoginHeard(s: State, error: bytes, data: bytes, g: Given, config: Config)
    requires Sendable(AccountLoginReply(error, data)) && Listening(s)
    ensures var t, p := Heard(s, AccountLoginReply(error, data), g, config), s.phase.(hang := true);
      && t.ends == s.ends && t.pairs == s.pairs
      && t.phase ==
           if error == Ascii("ok") then
             if config.traffic then p.(backlog := p.backlog + 1, writing := true) else p.(pair := true)
           else if error == Ascii("ok_registered") then p
           else p.(shutdown := true)
  {
    hide Encode, Heard, Sendable;
    HeardIs(s, AccountLoginReply(error, data), g, config);
  }

  // ----- an offline notice

  /** By its address alone: its slots lose their pid, its tunnels go, and so does its newest endpoint. */
  lemma OfflineHeard(s: State, address: bytes, cloud: bytes, device: bytes, g: Given, config: Config)
    requires Sendable(Msg.OfflineSet(address, cloud, device)) && Listening(s)
    ensures var t := Heard(s, Msg.OfflineSet(address, cloud, device), g, config);
      && |t.pairs.slots| == |s.pairs.slots|
      && (forall i :: 0 <= i < |s.pairs.slots| ==>
            t.pairs.slots[i] == if address == [] || s.pairs.slots[i].pid == address then s.pairs.slots[i].(pid := [])
                                else s.pairs.slots[i])
      && (forall u :: u in t.pairs.locals.tunnels <==> u in s.pairs.locals.tunnels && u.pair.pid != address)
      && NewestGone(s.ends, address, t.ends)
  {
    hide Encode, Heard, Sendable, Read, NewestGone;
    HeardIs(s, Msg.OfflineSet(address, cloud, device), g, config);
    OfflineRead(s, address, config);
    FirstStopped(s.ends, address);
  }

  /** Endpoint i is the newest of the address. */
  predicate NewestOf(list: seq<Endpoint>, address: bytes, i: nat)
    requires i < |list|
  {
    list[i].pid == address && forall j :: 0 <= j < i ==> list[j].pid != address
  }

  /** The newest endpoint of the address, if there is one, is out of the list, and its client was shut down. */
  predicate NewestGone(e: Ends, address: bytes, r: Ends)
  {
    && ((forall i :: 0 <= i < |e.list| ==> e.list[i].pid != address) ==> r == e)
    && forall i :: 0 <= i < |e.list| && NewestOf(e.list, address, i) ==>
         r.list == e.list[..i] + e.list[i + 1..] && r.open == e.open - {e.list[i].client} && r.closed == e.closed + 1
  }

  lemma FirstStopped(e: Ends, address: bytes)
    ensures NewestGone(e, address, Stopped(e, address))
  {
    hide First;
    var k := First(e.list, ForPid(address));
    assert forall j :: 0 <= j < k ==> !Matches(e.list[j], ForPid(address));
    assert k < |e.list| ==> e.list[k].pid == address;
    forall i | 0 <= i < |e.list| && NewestOf(e.list, address, i)
      ensures i == k
    {
      FirstIs(e.list, ForPid(address), i);
    }
  }

  lemma OfflineRead(s: State, address: bytes, config: Config)
    ensures var t := Read(s, Frame.OfflineSet(address), config);
      && |t.pairs.slots| == |s.pairs.slots|
      && (forall i :: 0 <= i < |s.pairs.slots| ==>
            t.pairs.slots[i] == if address == [] || s.pairs.slots[i].pid == address then s.pairs.slots[i].(pid := [])
                                else s.pairs.slots[i])
      && (forall u :: u in t.pairs.locals.tunnels <==> u in s.pairs.locals.tunnels && u.pair.pid != address)
      && t.ends == Stopped(s.ends, address)
  {
    hide Stopped, Moved, Marks, Consulted, WithoutPid, WithPid, ServersShut;
    var t := s.(phase := s.phase.(hang := true));
    ConsultedSame(t, Marks(t.pairs.slots, address));
    MovedPairs(Consulted(t, Marks(t.pairs.slots, address)), Stopped(t.ends, address), Offline(t.pairs, address), config);
  }

  // ----- a pair reply

  /** By its error alone: with "ok" its pairs are taken one after the other, and with any other error nothing is. */
  lemma PairReplyHeard(s: State, cloud: bytes, error: bytes, list: bytes, kind: bytes, g: Given, config: Config)
    requires Sendable(DevicePairReply(cloud, error, list, kind)) && Listening(s)
    ensures var t := s.(phase := s.phase.(hang := true));
      Heard(s, DevicePairReply(cloud, error, list, kind), g, config)
        == if error == Ascii("ok") then PairsReplied(t, g.replies, config) else t
  {
    hide Encode, Heard, Sendable, PairsReplied;
    HeardIs(s, DevicePairReply(cloud, error, list, kind), g, config);
  }

  /** Reply k grants request k. */
  predicate Grants(requests: seq<Msg<bytes>>, replies: seq<(Pair, Option<bytes>)>)
  {
    && |replies| == |requests|
    && forall k :: 0 <= k < |replies| ==>
         var p := replies[k].0;
         && requests[k].DevicePair? && p == Granted(requests[k], p.pid, p.kind) && replies[k].1.Some?
         && p.pid != [] && p.kind != FORCED && |p.pid| <= SNB_MAX && |p.kind| <= SNB_MAX
  }

  /** The slots are told apart by their names, name a local port, and fit. */
  predicate Proper(slots: seq<Slot>)
  {
    && NamesDistinct(slots)
    && forall i :: 0 <= i < |slots| ==>
         slots[i].portLocal != 0 && |slots[i].cloud| <= SNB_MAX && |slots[i].device| <= SNB_MAX
  }

  lemma {:induction false} FirstAsked(slots: seq<Slot>) returns (i: nat)
    requires PairRequests(slots) != []
    ensures i < |slots| && slots[i].pid == [] && PairRequests(slots[..i]) == []
    decreases |slots|
  {
    hide PairRequest;
    if slots[0].pid == [] {
      i := 0;
      assert slots[..0] == [];
    } else {
      var k := FirstAsked(slots[1..]);
      i := k + 1;
      assert slots[..i][0] == slots[0] && slots[..i][1..] == slots[1..][..k];
    }
  }

  lemma SamePropers(slots: seq<Slot>, i: nat, pid: bytes)
    requires Proper(slots) && i < |slots|
    ensures Proper(slots[i := slots[i].(pid := pid)])
  {
    hide SnItoa;
    var r := slots[i := slots[i].(pid := pid)];
    assert forall k :: 0 <= k < |slots| ==> NamesOf(r[k]) == NamesOf(slots[k]);
  }

  /** Handing a granted request to device_pair_reply. */
  lemma OneGranted(s: State, pair: Pair, local: Option<bytes>, config: Config)
    requires Alive(s) && !s.phase.freed && local.Some? && pair.kind != FORCED
    ensures var r := Replied(s.pairs, pair, local.value, config.device);
      r.locals.fate.Running? && r.locals.out == s.pairs.locals.out ==>
        var t := PairReplied(s, pair, local, config);
        t.pairs == r && Alive(t) && !t.phase.freed
  {
    hide Replied, FORCED, Looks;
  }

  /**
   * A device_pair_reply that grants each request of devices_pair, in order: every slot is paired afterwards, those that
   * were paired before as they were, and devices_pair asks for nothing.
   */
  lemma {:induction false} AllAnswered(s: State, replies: seq<(Pair, Option<bytes>)>, config: Config)
    requires Alive(s) && !s.phase.freed && Proper(s.pairs.slots) && Grants(PairRequests(s.pairs.slots), replies)
    ensures var t := PairsReplied(s, replies, config);
      && Alive(t) && |t.pairs.slots| == |s.pairs.slots| && PairRequests(t.pairs.slots) == []
      && |t.pairs.locals.tunnels| == |s.pairs.locals.tunnels| + |replies|
      && forall i :: 0 <= i < |s.pairs.slots| ==>
           && t.pairs.slots[i] == s.pairs.slots[i].(pid := t.pairs.slots[i].pid)
           && (s.pairs.slots[i].pid != [] ==> t.pairs.slots[i] == s.pairs.slots[i])
    decreases |replies|
  {
    hide Replied, FORCED, PairReplied, PairRequests, PairRequest, NamesDistinct, Alive;
    if replies != [] {
      var slots := s.pairs.slots;
      var i := FirstAsked(slots);
      var (pair, local) := replies[0];
      RequestIsAnswered(s.pairs, i, pair.pid, pair.kind, local.value, config.device);
      RequestsAt(slots, i);
      assert PairRequests(slots[..i]) + PairRequests(slots[i + 1..]) == PairRequests(slots)[1..];
      StillRunning(s);
      OneGranted(s, pair, local, config);
      var next := PairReplied(s, pair, local, config);
      SamePropers(slots, i, pair.pid);
      RestGrants(PairRequests(slots), replies);
      AllAnswered(next, replies[1..], config);
    }
  }

  lemma StillRunning(s: State)
    requires Alive(s)
    ensures s.pairs.locals.fate.Running?
  {
  }

  lemma RestGrants(requests: seq<Msg<bytes>>, replies: seq<(Pair, Option<bytes>)>)
    requires Grants(requests, replies) && replies != []
    ensures Grants(requests[1..], replies[1..])
  {
    hide FORCED;
  }

  // ----- a message from a peer

  /** What the pieces of a header make of the process s: the first says what the message is. */
  predicate Effect(s: State, device: bytes, address: bytes, argv: seq<bytes>, body: bytes, attempt: Attempt,
                   config: Config, t: State)
    requires argv != []
  {
    && t.pairs.slots == s.pairs.slots
    && (argv[0] == Ascii("tunnel_request") ==>
          if |argv| != 4 then t == s
          else
            && t.ends == Requested(s.ends, config.allowed, device, address, argv[1], argv[2], body, attempt)
            && t.pairs == s.pairs)
    && (argv[0] == Ascii("tunnel_response") ==>
          if |argv| != 3 then t == s
          else t.ends == s.ends && t.pairs.locals == Responded(s.pairs.locals, argv[1], argv[2], body))
    && (argv[0] == Ascii("tunnel_update") ==>
          t.ends == s.ends && t.pairs.locals == if |argv| != 6 then s.pairs.locals else Renamed(s.pairs.locals, argv))
    && (argv[0] == Ascii("endpoint_stop") ==> NewestGone(s.ends, address, t.ends) && t.pairs == s.pairs)
    && (argv[0] !in {Ascii("tunnel_request"), Ascii("tunnel_response"), Ascii("tunnel_update"), Ascii("endpoint_stop")} ==>
          t.fate == Aborted)
  }

  /** By its sender's device and address, the pieces of its header, and its body. */
  lemma PeerHeard(s: State, cloud: bytes, device: bytes, address: bytes, tp: bytes, body: bytes, g: Given, config: Config)
    requires Sendable(Msg.MessageFrom(cloud, device, address, tp, body)) && Listening(s)
    requires 0 !in tp && |body| < 16777216
    ensures Effect(s.(phase := s.phase.(hang := true)), device, address, Split(tp, SLASH), body, g.attempt, config,
                   Heard(s, Msg.MessageFrom(cloud, device, address, tp, body), g, config))
  {
    hide Encode, Heard, Sendable, Told, Split, Effect;
    var m := Msg.MessageFrom(cloud, device, address, tp, body);
    HeardIs(s, m, g, config);
    var argv := Split(tp, SLASH);
    PeerTold(s.(phase := s.phase.(hang := true)), Frame.MessageFrom(device, address, argv, body, g.attempt), config);
  }

  lemma Kinds()
    ensures REQUEST == Ascii("tunnel_request") && RESPONSE == Ascii("tunnel_response")
    ensures UPDATE == Ascii("tunnel_update") && STOP == Ascii("endpoint_stop")
    ensures |{REQUEST, RESPONSE, UPDATE, STOP}| == 4
    ensures REQUEST != RESPONSE && REQUEST != UPDATE && REQUEST != STOP && RESPONSE != UPDATE && RESPONSE != STOP
    ensures UPDATE != STOP
  {
    NamesPlain();
    assert REQUEST[7] == 114 && UPDATE[7] == 117 && STOP[7] == 116;
    assert |{REQUEST, RESPONSE}| == 2 && |{REQUEST, RESPONSE, UPDATE}| == 3;
  }

  lemma OtherCounts(l: Locals, argv: seq<bytes>)
    ensures |argv| != 6 ==> Renamed(l, argv) == l
  {
  }

  lemma PeerTold(s: State, f: Frame, config: Config)
    requires f.MessageFrom? && f.argv != []
    ensures Effect(s, f.device, f.address, f.argv, f.body, f.attempt, config, Told(s, f, config))
  {
    hide Requested, Stopped, Renamed, Responded, Moved, NewestGone, REQUEST, RESPONSE, UPDATE, STOP, Ascii;
    Kinds();
    FirstStopped(s.ends, f.address);
    var l := s.pairs.locals;
    match Dispatch(f.argv[0])
    case EndpointRequest =>
      if |f.argv| == 4 {
        MovedPairs(s, Requested(s.ends, config.allowed, f.device, f.address, f.argv[1], f.argv[2], f.body, f.attempt),
                   s.pairs, config);
      }
    case TunnelResponse =>
      if |f.argv| == 3 {
        MovedPairs(s, s.ends, s.pairs.(locals := Responded(l, f.argv[1], f.argv[2], f.body)), config);
      }
    case TunnelUpdate =>
      OtherCounts(l, f.argv);
      MovedPairs(s, s.ends, s.pairs.(locals := Renamed(l, f.argv)), config);
    case EndpointStop => MovedPairs(s, Stopped(s.ends, f.address), s.pairs, config);
    case Abort =>
  }

  // ----- the others

  /** Every other message resets the hang timer, and the replies to the one-shot actions end the process; no more. */
  lemma OthersHeard(s: State, m: Msg<bytes>, g: Given, config: Config)
    requires Sendable(m) && Listening(s)
    requires !m.AccountLoginReply? && !m.OfflineSet? && !m.DevicePairReply? && !m.MessageFrom?
    ensures var last := m.TrafficGetReply? || m.AccountSetReply? || m.AccountExistsReply? || m.AccountDataSetReply?;
      Heard(s, m, g, config) == s.(phase := s.phase.(hang := true, shutdown := s.phase.shutdown || last))
  {
    hide Encode, Heard, Sendable, Meant, Read;
    HeardIs(s, m, g, config);
    OthersMean(m, g);
    LastRead(s, config);
    OtherRead(s, config);
  }

  lemma OthersMean(m: Msg<bytes>, g: Given)
    requires !m.AccountLoginReply? && !m.OfflineSet? && !m.DevicePairReply? && !m.MessageFrom?
    ensures var last := m.TrafficGetReply? || m.AccountSetReply? || m.AccountExistsReply? || m.AccountDataSetReply?;
      Meant(m, g) == if last then LastReply else Other
  {
  }

  lemma LastRead(s: State, config: Config)
    ensures Read(s, LastReply, config) == s.(phase := s.phase.(hang := true, shutdown := true))
  {
  }

  lemma OtherRead(s: State, config: Config)
    ensures Read(s, Other, config) == s.(phase := s.phase.(hang := true, shutdown := s.phase.shutdown))
  {
  }

  // ----- after stop(), in a process that connected again

  /** stop() has freed the configuration, and the upstream is active again. */
  predicate Freed(s: State) { PhaseInv(s.phase) && Listening(s) && s.phase.freed }

  /** A login then reads the freed configuration exactly if it succeeds. */
  lemma FreedLogin(s: State, error: bytes, data: bytes, g: Given, config: Config)
    requires Sendable(AccountLoginReply(error, data)) && Freed(s)
    ensures Heard(s, AccountLoginReply(error, data), g, config).fate == Strayed <==> error == Ascii("ok")
  {
    hide Encode, Heard, Sendable, Ascii;
    HeardIs(s, AccountLoginReply(error, data), g, config);
  }

  /** An offline notice, exactly if it is for a slot that is paired. */
  lemma FreedOffline(s: State, address: bytes, cloud: bytes, device: bytes, g: Given, config: Config)
    requires Sendable(Msg.OfflineSet(address, cloud, device)) && Freed(s)
    ensures Heard(s, Msg.OfflineSet(address, cloud, device), g, config).fate == Strayed <==>
      address != [] && exists i :: 0 <= i < |s.pairs.slots| && s.pairs.slots[i].pid == address
  {
    hide Encode, Heard, Sendable, Moved, Stopped, Offline;
    HeardIs(s, Msg.OfflineSet(address, cloud, device), g, config);
    var t := s.(phase := s.phase.(hang := true));
    MovedFate(Consulted(t, Marks(t.pairs.slots, address)), Stopped(t.ends, address), Offline(t.pairs, address), config);
  }

  /** A pair of a reply, exactly if it has a server and either takes any local port or is looked for among the slots. */
  lemma FreedReply(s: State, pair: Pair, local: Option<bytes>, config: Config)
    requires Freed(s) && (pair.kind == FORCED || local.Some?)
    ensures PairReplied(s, pair, local, config).fate == Strayed <==>
      pair.kind != FORCED && (SnAtoi(pair.portLocal, 32) == 0 || (s.pairs.slots != [] && PairFits(pair)))
  {
    hide Moved, Replied, FORCED, SnAtoi, PairFits;
    var r := Replied(s.pairs, pair, if local.Some? then local.value else [], config.device);
    ConsultedSame(s, Looks(s.pairs.slots, pair));
    MovedFate(Consulted(s, Looks(s.pairs.slots, pair)), s.ends, r, config);
  }

  /** devices_pair, exactly if there is a slot to ask for. */
  lemma FreedAsks(s: State)
    requires Freed(s)
    ensures PairsAsked(s).fate == Strayed <==> exists i :: 0 <= i < |s.pairs.slots| && s.pairs.slots[i].pid == []
  {
    hide PairRequests;
    AsksIff(s.pairs.slots);
  }

  lemma {:induction false} AsksIff(slots: seq<Slot>)
    ensures PairRequests(slots) != [] <==> exists i :: 0 <= i < |slots| && slots[i].pid == []
    decreases |slots|
  {
    hide PairRequest;
    if slots != [] {
      AsksIff(slots[1..]);
      assert forall i :: 0 < i < |slots| ==> slots[i] == slots[1..][i - 1];
      if i :| 0 <= i < |slots| && slots[i].pid == [] {
        assert i > 0 ==> slots[1..][i - 1].pid == [];
      }
    }
  }
}
