/** Runs of the process: to its endpoints and to its tunnels they are runs of their own, and what follows for stop(). */
module SessionRuns {
  import opened Bytes
  import C = Connections
  import opened Endpoints
  import opened HashTable
  import opened Headers
  import opened Locals
  import L = Locals
  import opened LocalRuns
  import opened Pairs
  import opened Process
  import opened Proto
  import opened Server
  import opened Session
  import opened Tokens
  import opened Wrappers

  /** One event more. */
  lemma {:induction false} Onward(s: State, evs: seq<Session.Event>, e: Session.Event, config: Config)
    ensures Session.Run(s, evs + [e], config) == Session.Step(Session.Run(s, evs, config), e, config)
    decreases |evs|
  {
    hide Session.Step;
    if evs == [] {
      assert [] + [e] == [e] && [e][1..] == [];
    } else {
      assert (evs + [e])[1..] == evs[1..] + [e];
      Onward(Session.Step(s, evs[0], config), evs[1..], e, config);
    }
  }

  // ----- endpoints

  /** What an event is to the endpoints. */
  ghost function ToEndpoints(s: State, ev: Session.Event): Option<Endpoints.Event>
  {
    if !Session.Enabled(s, ev) then None
    else match ev
      case UpstreamFailed => Some(StopAll)
      case WriteClosed => if s.phase.sigterm then None else Some(StopAll)
      case HangTimer => Some(StopAll)
      case ShutdownTimer => Some(StopAll)
      case EndpointData(c, buf) => Some(Endpoints.Data(c, buf))
      case EndpointFailed(c) => Some(Error(c))
      case Upstream(f) => FrameToEndpoints(f)
      case _ => None
  }

  function FrameToEndpoints(f: Frame): Option<Endpoints.Event>
  {
    if f.OfflineSet? then Some(Stop(f.address))
    else if f.MessageFrom? && f.argv != [] then
      if Dispatch(f.argv[0]).EndpointStop? then Some(Stop(f.address))
      else if Dispatch(f.argv[0]).EndpointRequest? && |f.argv| == 4 then
        Some(Request(f.device, f.address, f.argv[1], f.argv[2], f.body, f.attempt))
      else None
    else None
  }

  lemma EndpointsRead(s: State, f: Frame, config: Config)
    requires s.ends.fate.Running?
    ensures Read(s, f, config).ends == match FrameToEndpoints(f)
      case None => s.ends
      case Some(e) => Endpoints.Step(s.ends, e, config.allowed)
  {
    hide Requested, Stopped, Renamed, Offline, PairsReplied, Dispatch, Responded, Moved, LoggedIn, SamePhase, Consulted;
    hide Marks;
    var t := s.(phase := s.phase.(hang := true));
    match f
    case LoginReply(error) => LoggedInPairs(t, error, config);
    case PairReply(_, replies) => PairsRepliedPhase(t, replies, config);
    case MessageFrom(_, _, _, _, _) => EndpointsTold(t, f, config);
    case OfflineSet(address) =>
      ConsultedSame(t, Marks(t.pairs.slots, address));
      MovedPairs(Consulted(t, Marks(t.pairs.slots, address)), Stopped(t.ends, address), Offline(t.pairs, address), config);
    case LastReply =>
    case Other =>
    case Stray =>
  }

  lemma EndpointsTold(s: State, f: Frame, config: Config)
    requires f.MessageFrom? && s.ends.fate.Running?
    ensures Told(s, f, config).ends == match FrameToEndpoints(f)
      case None => s.ends
      case Some(e) => Endpoints.Step(s.ends, e, config.allowed)
  {
    hide Requested, Stopped, Renamed, Dispatch, Responded, Moved;
    if f.argv != [] {
      match Dispatch(f.argv[0])
      case EndpointRequest =>
        if |f.argv| == 4 {
          MovedPairs(s, Requested(s.ends, config.allowed, f.device, f.address, f.argv[1], f.argv[2], f.body, f.attempt),
                     s.pairs, config);
        }
      case TunnelResponse =>
        if |f.argv| == 3 {
          MovedPairs(s, s.ends, s.pairs.(locals := Responded(s.pairs.locals, f.argv[1], f.argv[2], f.body)), config);
        }
      case TunnelUpdate =>
        MovedPairs(s, s.ends, s.pairs.(locals := Renamed(s.pairs.locals, f.argv)), config);
      case EndpointStop =>
        MovedPairs(s, Stopped(s.ends, f.address), s.pairs, config);
      case Abort =>
    }
  }

  lemma EndpointsStep(s: State, ev: Session.Event, config: Config)
    ensures Session.Step(s, ev, config).ends == match ToEndpoints(s, ev)
      case None => s.ends
      case Some(e) => Endpoints.Step(s.ends, e, config.allowed)
  {
    hide AllStopped, Received, ClientErrored, Cleared, Read, Accepted, Asked, HungUp, PairsAsked, Moved, Queued, SamePhase;
    hide EveryStopped, FrameToEndpoints, Consulted;
    if Session.Enabled(s, ev) {
      match ev
      case ConnectTimer(_) =>
      case Handshaken =>
      case UpstreamFailed => MovedPairs(s, AllStopped(s.ends), Cleared(s.pairs), config);
      case UpstreamWrote(_) =>
      case WriteClosed =>
        MovedPairs(s.(phase := s.phase.(writing := false)), AllStopped(s.ends), Cleared(s.pairs), config);
      case Upstream(f) => EndpointsRead(s, f, config);
      case HangTimer => MovedPairs(s, AllStopped(s.ends), Cleared(s.pairs), config);
      case PingTimer => QueuedPhase(s, 1);
      case PairTimer => AskedPhase(s);
      case ShutdownTimer =>
        ConsultedSame(s, true);
        var u := Consulted(s, true).(phase := Quiet(s.phase));
        MovedPairs(u, AllStopped(s.ends), s.pairs.(locals := EveryStopped(s.pairs.locals)), config);
      case Signal =>
      case EndpointData(c, buf) => MovedPairs(s, Received(s.ends, c, buf), s.pairs, config);
      case EndpointFailed(c) => MovedPairs(s, ClientErrored(s.ends, c), s.pairs, config);
      case LocalAccepted(id, fd) => MovedPairs(s, s.ends, s.pairs.(locals := Accepted(s.pairs.locals, id, fd)), config);
      case LocalData(c, buf) => MovedPairs(s, s.ends, s.pairs.(locals := Asked(s.pairs.locals, c, buf)), config);
      case LocalFailed(c) => MovedPairs(s, s.ends, s.pairs.(locals := HungUp(s.pairs.locals, c)), config);
    }
  }

  /** The events of a whole run that reach the endpoints. */
  ghost function EndpointEvents(s: State, evs: seq<Session.Event>, config: Config): seq<Endpoints.Event>
    decreases |evs|
  {
    if evs == [] then []
    else
      (match ToEndpoints(s, evs[0]) case None => [] case Some(e) => [e])
        + EndpointEvents(Session.Step(s, evs[0], config), evs[1..], config)
  }

  /** A run of the process is, to the endpoints, a run of their own: what holds of those holds here. */
  lemma {:induction false} EndpointsRefined(s: State, evs: seq<Session.Event>, config: Config)
    ensures Session.Run(s, evs, config).ends == Endpoints.Run(s.ends, EndpointEvents(s, evs, config), config.allowed)
    decreases |evs|
  {
    hide Session.Step, Endpoints.Step, ToEndpoints;
    if evs != [] {
      var next := Session.Step(s, evs[0], config);
      EndpointsStep(s, evs[0], config);
      EndpointsRefined(next, evs[1..], config);
      var rest := EndpointEvents(next, evs[1..], config);
      assert [] + rest == rest;
      match ToEndpoints(s, evs[0])
      case None =>
      case Some(e) => assert ([e] + rest)[1..] == rest;
    }
  }

  /**
   * In a whole session, with addresses of one length: while an endpoint stays, its client is given what came from its
   * descriptor at its address, in order, and no more. Which connections that was is the next lemma.
   */
  lemma SessionIsolates(slots: seq<Slot>, evs: seq<Session.Event>, more: seq<Session.Event>, config: Config, x: Endpoint)
    requires NothingBreaks(NONE, EndpointEvents(Start(slots), evs, config), config.allowed)
    requires var s := Session.Run(Start(slots), evs, config);
      && NothingBreaks(s.ends, EndpointEvents(s, more, config), config.allowed)
      && AddressesOf(EndpointEvents(s, more, config), |x.pid|)
      && x in s.ends.list && x.client in Clients(Session.Run(s, more, config).ends.list)
    ensures var s := Session.Run(Start(slots), evs, config);
      Endpoints.Queue(Session.Run(s, more, config).ends, x.client)
        == Endpoints.Queue(s.ends, x.client)
           + Payloads(EndpointEvents(s, more, config), x.pid, x.remoteFd, config.allowed)
  {
    hide Endpoints.Run, Session.Run, NothingBreaks, EndpointEvents, Endpoints.Queue, Payloads, Clients, AddressesOf;
    var s := Session.Run(Start(slots), evs, config);
    NothingLinked();
    EndpointsRefined(Start(slots), evs, config);
    RunKeepsInvIff(NONE, EndpointEvents(Start(slots), evs, config), config.allowed);
    EndpointsRefined(s, more, config);
    DescriptorIsolated(s.ends, EndpointEvents(s, more, config), config.allowed, x);
  }

  /**
   * In a whole session, no client of an endpoint is given payloads of two connections exactly if, whenever a descriptor of
   * an address comes back with another connection, something took the endpoint of the first one before.
   */
  lemma SessionConnectionsApartIff(slots: seq<Slot>, evs: seq<Session.Event>, who: seq<nat>, config: Config)
    requires var es := EndpointEvents(Start(slots), evs, config);
      |who| == |es| && NothingBreaks(NONE, es, config.allowed)
    ensures var es := EndpointEvents(Start(slots), evs, config);
      && Session.Run(Start(slots), evs, config).ends == C.At(es, config.allowed, |es|)
      && ((forall c :: C.OneConnection(es, who, config.allowed, c)) <==>
            forall i: nat, j: nat :: C.Returns(es, who, config.allowed, i, j) ==>
              C.TakenBetween(es, config.allowed, i, j, C.At(es, config.allowed, i).made))
  {
    hide Session.Run, Endpoints.Run, NothingBreaks, EndpointEvents, C.OneConnection, C.Returns, C.TakenBetween;
    var es := EndpointEvents(Start(slots), evs, config);
    EndpointsRefined(Start(slots), evs, config);
    assert es[..|es|] == es;
    C.ConnectionsApartIff(es, who, config.allowed);
  }

  // ----- tunnels

  /** What a pair reply is to the tunnels. */
  function ReplyEvents(slots: seq<Slot>, pair: Pair, local: Option<bytes>, device: bytes): seq<L.Event>
  {
    if pair.kind != FORCED && local.None? then []
    else
      var o := Opened(slots, pair, if local.Some? then local.value else [], device);
      (if o.notices == [] then [] else [Notice(o.notices[0])])
        + [if PairFits(o.pair) then Open(o.pair, pair.kind != FORCED) else Overlong]
  }

  function RepliesEvents(s: State, replies: seq<(Pair, Option<bytes>)>, config: Config): seq<L.Event>
    decreases |replies|
  {
    if replies == [] || !Alive(s) then []
    else
      ReplyEvents(s.pairs.slots, replies[0].0, replies[0].1, config.device)
        + RepliesEvents(PairReplied(s, replies[0].0, replies[0].1, config), replies[1..], config)
  }

  /** What an event is to the tunnels. */
  ghost function ToLocals(s: State, ev: Session.Event, config: Config): seq<L.Event>
  {
    if !Session.Enabled(s, ev) then []
    else match ev
      case UpstreamFailed => [StopEvery]
      case WriteClosed => if s.phase.sigterm then [] else [StopEvery]
      case HangTimer => [StopEvery]
      case ShutdownTimer => [StopEvery]
      case LocalAccepted(id, fd) => [Accept(id, fd)]
      case LocalData(c, buf) => [L.Data(c, buf)]
      case LocalFailed(c) => [HangUp(c)]
      case Upstream(f) => FrameToLocals(s, f, config)
      case _ => []
  }

  function FrameToLocals(s: State, f: Frame, config: Config): seq<L.Event>
  {
    if f.OfflineSet? then [StopPid(f.address)]
    else if f.PairReply? && f.error == OK then RepliesEvents(s.(phase := s.phase.(hang := true)), f.replies, config)
    else if f.MessageFrom? && f.argv != [] then
      if Dispatch(f.argv[0]).TunnelUpdate? then [Rename(f.argv)]
      else if Dispatch(f.argv[0]).TunnelResponse? && |f.argv| == 3 then [Response(f.argv[1], f.argv[2], f.body)]
      else []
    else []
  }

  lemma ReplyIs(ps: Pairs, pair: Pair, local: Option<bytes>, device: bytes)
    requires ps.locals.fate.Running? && (pair.kind == FORCED || local.Some?)
    ensures Replied(ps, pair, if local.Some? then local.value else [], device).locals
      == L.Run(ps.locals, ReplyEvents(ps.slots, pair, local, device))
  {
    hide SlotFor, UpdateHeader, FORCED, PairFits, Linked, PortUpdated, PairUpdated;
    var o := Opened(ps.slots, pair, if local.Some? then local.value else [], device);
    var l := ps.locals;
    var last := if PairFits(o.pair) then Open(o.pair, pair.kind != FORCED) else Overlong;
    RunOne(l.(out := l.out + o.notices), last);
    if o.notices != [] {
      RunAppend(l, [Notice(o.notices[0])], [last]);
      RunOne(l, Notice(o.notices[0]));
      assert [o.notices[0]] == o.notices;
    } else {
      assert [] + [last] == [last] && l.out + [] == l.out;
    }
  }

  lemma {:induction false} RepliesAre(s: State, replies: seq<(Pair, Option<bytes>)>, config: Config)
    ensures PairsReplied(s, replies, config).pairs.locals
      == L.Run(s.pairs.locals, RepliesEvents(s, replies, config))
    decreases |replies|
  {
    hide Replied, Moved, FORCED, Opened, PairFits, L.Step, Looks, Consulted;
    if replies != [] && Alive(s) {
      var (pair, local) := replies[0];
      var next := PairReplied(s, pair, local, config);
      var first := ReplyEvents(s.pairs.slots, pair, local, config.device);
      if pair.kind == FORCED || local.Some? {
        var r := Replied(s.pairs, pair, if local.Some? then local.value else [], config.device);
        ReplyIs(s.pairs, pair, local, config.device);
        ConsultedSame(s, Looks(s.pairs.slots, pair));
        MovedPairs(Consulted(s, Looks(s.pairs.slots, pair)), s.ends, r, config);
      }
      RepliesAre(next, replies[1..], config);
      RunAppend(s.pairs.locals, first, RepliesEvents(next, replies[1..], config));
    }
  }

  lemma LocalsRead(s: State, f: Frame, config: Config)
    requires Alive(s)
    ensures Read(s, f, config).pairs.locals == L.Run(s.pairs.locals, FrameToLocals(s, f, config))
  {
    hide Requested, Stopped, Renamed, PairsReplied, RepliesEvents, Dispatch, Responded, Moved, LoggedIn, SamePhase;
    hide OK, OK_REGISTERED, PidStopped, Consulted, Marks;
    var t := s.(phase := s.phase.(hang := true));
    match f
    case LoginReply(error) => LoggedInPairs(t, error, config);
    case PairReply(_, replies) => RepliesAre(t, replies, config);
    case MessageFrom(_, _, _, _, _) => LocalsTold(t, f, config);
    case OfflineSet(address) =>
      ConsultedSame(t, Marks(t.pairs.slots, address));
      MovedPairs(Consulted(t, Marks(t.pairs.slots, address)), Stopped(t.ends, address), Offline(t.pairs, address), config);
      RunOne(s.pairs.locals, StopPid(address));
    case LastReply =>
    case Other =>
    case Stray =>
  }

  lemma LocalsTold(s: State, f: Frame, config: Config)
    requires f.MessageFrom? && Alive(s)
    ensures Told(s, f, config).pairs.locals == L.Run(s.pairs.locals, FrameToLocals(s, f, config))
  {
    hide Requested, Stopped, Renamed, Dispatch, Responded, Moved;
    var l := s.pairs.locals;
    if f.argv != [] {
      RunOne(l, Rename(f.argv));
      match Dispatch(f.argv[0])
      case EndpointRequest =>
        if |f.argv| == 4 {
          MovedPairs(s, Requested(s.ends, config.allowed, f.device, f.address, f.argv[1], f.argv[2], f.body, f.attempt),
                     s.pairs, config);
        }
      case TunnelResponse =>
        if |f.argv| == 3 {
          RunOne(l, Response(f.argv[1], f.argv[2], f.body));
          MovedPairs(s, s.ends, s.pairs.(locals := Responded(l, f.argv[1], f.argv[2], f.body)), config);
        }
      case TunnelUpdate =>
        MovedPairs(s, s.ends, s.pairs.(locals := Renamed(l, f.argv)), config);
      case EndpointStop =>
        MovedPairs(s, Stopped(s.ends, f.address), s.pairs, config);
      case Abort =>
    }
  }

  lemma LocalsStep(s: State, ev: Session.Event, config: Config)
    ensures Session.Step(s, ev, config).pairs.locals == L.Run(s.pairs.locals, ToLocals(s, ev, config))
  {
    hide AllStopped, Received, ClientErrored, Read, Accepted, Asked, HungUp, PairsAsked, Moved, Queued, SamePhase;
    hide EveryStopped, FrameToLocals, SlotsOffline, Consulted;
    var l := s.pairs.locals;
    if Session.Enabled(s, ev) {
      match ev
      case ConnectTimer(_) =>
      case Handshaken =>
      case UpstreamFailed =>
        MovedPairs(s, AllStopped(s.ends), Cleared(s.pairs), config);
        RunOne(l, StopEvery);
      case UpstreamWrote(_) =>
      case WriteClosed =>
        MovedPairs(s.(phase := s.phase.(writing := false)), AllStopped(s.ends), Cleared(s.pairs), config);
        RunOne(l, StopEvery);
      case Upstream(f) => LocalsRead(s, f, config);
      case HangTimer =>
        MovedPairs(s, AllStopped(s.ends), Cleared(s.pairs), config);
        RunOne(l, StopEvery);
      case PingTimer => QueuedPhase(s, 1);
      case PairTimer => AskedPhase(s);
      case ShutdownTimer =>
        ConsultedSame(s, true);
        MovedPairs(Consulted(s, true).(phase := Quiet(s.phase)), AllStopped(s.ends), s.pairs.(locals := EveryStopped(l)),
                   config);
        RunOne(l, StopEvery);
      case Signal =>
      case EndpointData(c, buf) => MovedPairs(s, Received(s.ends, c, buf), s.pairs, config);
      case EndpointFailed(c) => MovedPairs(s, ClientErrored(s.ends, c), s.pairs, config);
      case LocalAccepted(id, fd) =>
        MovedPairs(s, s.ends, s.pairs.(locals := Accepted(l, id, fd)), config);
        RunOne(l, Accept(id, fd));
      case LocalData(c, buf) =>
        MovedPairs(s, s.ends, s.pairs.(locals := Asked(l, c, buf)), config);
        RunOne(l, L.Data(c, buf));
      case LocalFailed(c) =>
        MovedPairs(s, s.ends, s.pairs.(locals := HungUp(l, c)), config);
        RunOne(l, HangUp(c));
    }
  }

  /** The events of a whole run that reach the tunnels. */
  ghost function LocalEvents(s: State, evs: seq<Session.Event>, config: Config): seq<L.Event>
    decreases |evs|
  {
    if evs == [] then []
    else ToLocals(s, evs[0], config) + LocalEvents(Session.Step(s, evs[0], config), evs[1..], config)
  }

  /** A run of the process is, to the tunnels and their clients, a run of their own. */
  lemma {:induction false} LocalsRefined(s: State, evs: seq<Session.Event>, config: Config)
    ensures Session.Run(s, evs, config).pairs.locals == L.Run(s.pairs.locals, LocalEvents(s, evs, config))
    decreases |evs|
  {
    hide Session.Step, L.Step, ToLocals;
    if evs != [] {
      var next := Session.Step(s, evs[0], config);
      LocalsStep(s, evs[0], config);
      LocalsRefined(next, evs[1..], config);
      RunAppend(s.pairs.locals, ToLocals(s, evs[0], config), LocalEvents(next, evs[1..], config));
    }
  }

  // ----- what every tidy run keeps

  ghost predicate Sound(s: State)
  {
    PhaseInv(s.phase) && Endpoints.Inv(s.ends) && L.Inv(s.pairs.locals) && Bound(s)
  }

  /** No request breaks the endpoints, and descriptors fit their key. */
  ghost predicate TidyStep(s: State, ev: Session.Event, config: Config)
  {
    && (ToEndpoints(s, ev).Some? ==> !Breaks(s.ends, ToEndpoints(s, ev).value, config.allowed))
    && (ev.LocalAccepted? ==> ev.descriptor < FD_LIMIT)
  }

  ghost predicate Tidy(s: State, evs: seq<Session.Event>, config: Config)
    decreases |evs|
  {
    evs != [] ==> TidyStep(s, evs[0], config) && Tidy(Session.Step(s, evs[0], config), evs[1..], config)
  }

  lemma StartSound(slots: seq<Slot>)
    ensures Sound(Start(slots))
  {
    NothingLinked();
    StartInv();
  }

  lemma ShortReplies(s: State, replies: seq<(Pair, Option<bytes>)>, config: Config)
    ensures ShortFds(RepliesEvents(s, replies, config))
    decreases |replies|
  {
    hide PairReplied, Opened, FORCED, PairFits;
    if replies != [] && Alive(s) {
      ShortReplies(PairReplied(s, replies[0].0, replies[0].1, config), replies[1..], config);
    }
  }

  lemma StepShort(s: State, ev: Session.Event, config: Config)
    requires ev.LocalAccepted? ==> ev.descriptor < FD_LIMIT
    ensures ShortFds(ToLocals(s, ev, config))
  {
    hide RepliesEvents, Dispatch, OK;
    if ev.Upstream? && ev.frame.PairReply? {
      ShortReplies(s.(phase := s.phase.(hang := true)), ev.frame.replies, config);
    }
  }

  lemma StepKeepsSound(s: State, ev: Session.Event, config: Config)
    requires Sound(s) && TidyStep(s, ev, config)
    ensures Sound(Session.Step(s, ev, config))
  {
    hide Session.Step, L.Run, ToLocals, ToEndpoints, Endpoints.Step, L.Inv, Endpoints.Inv, PhaseInv, Bound;
    var next := Session.Step(s, ev, config);
    StepKeepsPhase(s, ev, config);
    EndpointsStep(s, ev, config);
    if ToEndpoints(s, ev).Some? {
      StepKeepsInvIff(s.ends, ToEndpoints(s, ev).value, config.allowed);
    }
    LocalsStep(s, ev, config);
    StepShort(s, ev, config);
    RunKeepsInv(s.pairs.locals, ToLocals(s, ev, config));
    StepBound(s, ev, config);
  }

  lemma {:induction false} RunKeepsSound(s: State, evs: seq<Session.Event>, config: Config)
    requires Sound(s) && Tidy(s, evs, config)
    ensures Sound(Session.Run(s, evs, config))
    decreases |evs|
  {
    hide Session.Step, Sound, TidyStep;
    if evs != [] {
      StepKeepsSound(s, evs[0], config);
      RunKeepsSound(Session.Step(s, evs[0], config), evs[1..], config);
    }
  }

  /** In a tidy run of the process, no data from an endpoint's client ends it. */
  lemma ClientDataNeverAborts(slots: seq<Slot>, evs: seq<Session.Event>, config: Config, c: nat, buf: bytes)
    requires Tidy(Start(slots), evs, config)
    ensures var s := Session.Run(Start(slots), evs, config);
      Session.Enabled(s, EndpointData(c, buf)) ==> Alive(Session.Step(s, EndpointData(c, buf), config))
  {
    hide Session.Run, Tidy, First, Moved;
    var s := Session.Run(Start(slots), evs, config);
    StartSound(slots);
    RunKeepsSound(Start(slots), evs, config);
    ClientOf(s.ends.list, c);
    if Session.Enabled(s, EndpointData(c, buf)) {
      MovedPairs(s, Received(s.ends, c, buf), s.pairs, config);
      MovedFate(s, Received(s.ends, c, buf), s.pairs, config);
      EndpointIsActive(s, c);
    }
  }

  lemma EndpointIsActive(s: State, c: nat)
    requires Bound(s) && Endpoints.Inv(s.ends) && c in s.ends.open && PhaseInv(s.phase)
    ensures s.phase.active && !s.phase.dangling
  {
    hide First;
    ClientOf(s.ends.list, c);
  }

  /** Only a send behind a freed tail strays. */
  lemma MovedFate(s: State, ends: Ends, pairs: Pairs, config: Config)
    ensures Moved(s, ends, pairs, config).fate
      == if s.phase.dangling && |ends.out| - |s.ends.out| + |pairs.locals.out| - |s.pairs.locals.out| > 0
         then Worse(s.fate, Strayed) else s.fate
  {
  }

  lemma {:induction false} TidyShort(s: State, evs: seq<Session.Event>, config: Config)
    requires Tidy(s, evs, config)
    ensures ShortFds(LocalEvents(s, evs, config))
    decreases |evs|
  {
    hide Session.Step, ToLocals, Breaks, ToEndpoints;
    if evs != [] {
      StepShort(s, evs[0], config);
      TidyShort(Session.Step(s, evs[0], config), evs[1..], config);
    }
  }

  /**
   * In every tidy run of the process: shutting a tunnel's server down reaches every existing client of it, each once,
   * exactly if none of them lost its entry to a sibling that hung up and no two share a bucket.
   */
  lemma TunnelStopReachesIff(slots: seq<Slot>, evs: seq<Session.Event>, config: Config, t: Tunnel)
    requires Tidy(Start(slots), evs, config)
    requires t in Session.Run(Start(slots), evs, config).pairs.locals.tunnels && t.clients.Some?
    ensures var mine := Mine(Session.Run(Start(slots), evs, config).pairs.locals.live, t.id);
      multiset(Heads(t.clients.value, HT_MAX)) == multiset(mine) <==>
        (forall c :: c in mine ==> exists k: nat :: SparedFrom(LocalEvents(Start(slots), evs, config), k, c))
        && NoneShare(mine)
  {
    hide Session.Run, L.Run, Tidy, LocalEvents, Heads, SparedFrom, NoneShare;
    LocalsRefined(Start(slots), evs, config);
    TidyShort(Start(slots), evs, config);
    ShutdownReachesLiveIff(LocalEvents(Start(slots), evs, config), t);
  }

  // ----- stop()

  lemma StoppedEnds(e: Ends)
    requires Endpoints.Inv(e)
    ensures var r := AllStopped(e); r.fate.Running? && r.out == e.out && (r.closed > e.closed <==> e.list != [])
  {
    hide Clients, Endpoints.Distinct, CloseEach;
    ClosedEach(e, e.list);
  }

  lemma StoppedLocals(l: Locals)
    requires L.Inv(l)
    ensures var r := EveryStopped(l);
      r.fate == l.fate && |r.out| - |l.out| == r.closed - l.closed >= 0 && (r.closed > l.closed <==> AnyClient(l.tunnels))
  {
    hide ServersShut, Kept, AnyClient;
    ServersShutFacts(l, l.tunnels);
  }

  /**
   * In every tidy run: stop() asks for itself again exactly when clients end the process and there is one to shut down, an
   * endpoint's or one in the table of a tunnel's server.
   */
  lemma StopRearmsIff(slots: seq<Slot>, evs: seq<Session.Event>, config: Config)
    requires Tidy(Start(slots), evs, config)
    ensures var s := Session.Run(Start(slots), evs, config);
      Session.Enabled(s, ShutdownTimer) ==>
        (Session.Step(s, ShutdownTimer, config).phase.shutdown
         <==> config.clientterm && (s.ends.list != [] || AnyClient(s.pairs.locals.tunnels)))
  {
    hide Session.Run, Tidy, AnyClient, AllStopped, EveryStopped, Queued, L.Inv, Endpoints.Inv;
    var s := Session.Run(Start(slots), evs, config);
    StartSound(slots);
    RunKeepsSound(Start(slots), evs, config);
    StoppedEnds(s.ends);
    StoppedLocals(s.pairs.locals);
    EndedShutdown(s, config);
  }

  lemma EndedShutdown(s: State, config: Config)
    ensures Ended(s, config).phase.shutdown <==>
      config.clientterm && (AllStopped(s.ends).closed > s.ends.closed
                            || EveryStopped(s.pairs.locals).closed > s.pairs.locals.closed)
  {
    hide AllStopped, EveryStopped;
  }

  /**
   * stop() frees the upstream's send queue before the tunnels' clients send their endpoint_stop notices, and it frees the
   * configuration each time. In every tidy run it uses freed memory exactly if it ran before, or if the upstream is
   * active with something queued and a table has a client.
   */
  lemma StopStraysIff(slots: seq<Slot>, evs: seq<Session.Event>, config: Config)
    requires Tidy(Start(slots), evs, config)
    ensures var s := Session.Run(Start(slots), evs, config);
      Session.Enabled(s, ShutdownTimer) ==>
        (Alive(Session.Step(s, ShutdownTimer, config))
         <==> !s.phase.freed && !(s.phase.active && s.phase.backlog > 0 && AnyClient(s.pairs.locals.tunnels)))
  {
    hide Session.Run, Tidy, Sound, AnyClient, Session.Step, Session.Enabled;
    StartSound(slots);
    RunKeepsSound(Start(slots), evs, config);
    if Session.Enabled(Session.Run(Start(slots), evs, config), ShutdownTimer) {
      EndedStraysIff(Session.Run(Start(slots), evs, config), config);
    }
  }

  lemma EndedStraysIff(s: State, config: Config)
    requires Sound(s) && Session.Enabled(s, ShutdownTimer)
    ensures Alive(Session.Step(s, ShutdownTimer, config))
      <==> !s.phase.freed && !(s.phase.active && s.phase.backlog > 0 && AnyClient(s.pairs.locals.tunnels))
  {
    hide AnyClient, AllStopped, EveryStopped, Moved, L.Inv, Endpoints.Inv, SamePhase;
    StoppedEnds(s.ends);
    StoppedLocals(s.pairs.locals);
    NobodyLeft(s);
    ConsultedSame(s, true);
    var t, pairs := Consulted(s, true).(phase := Quiet(s.phase)), s.pairs.(locals := EveryStopped(s.pairs.locals));
    MovedPairs(t, AllStopped(s.ends), pairs, config);
    MovedFate(t, AllStopped(s.ends), pairs, config);
  }

  /** Once the configuration is freed it stays so, and an armed shutdown timer stays armed for as long as nothing strays. */
  lemma StepKeepsFreed(s: State, ev: Session.Event, config: Config)
    requires s.phase.freed
    ensures var t := Session.Step(s, ev, config);
      t.phase.freed && (s.phase.shutdown && !(Session.Enabled(s, ev) && ev.ShutdownTimer?) ==> t.phase.shutdown)
  {
    hide Session.Step, Session.Enabled, Read;
    Session.Skipped(s, ev, config);
    if Session.Enabled(s, ev) {
      if Sending(ev) {
        SendingPhase(s, ev, config);
      } else if ev.Upstream? {
        ReadPhase(s, ev.frame, config);
      } else {
        OthersKeepFreed(s, ev, config);
      }
    }
  }

  lemma OthersKeepFreed(s: State, ev: Session.Event, config: Config)
    requires s.phase.freed && Session.Enabled(s, ev) && !Sending(ev) && !ev.Upstream?
    ensures var t := Session.Step(s, ev, config);
      t.phase.freed && (s.phase.shutdown && !ev.ShutdownTimer? ==> t.phase.shutdown)
  {
    hide Session.Enabled, Session.Step;
    if Direct(ev) {
      match ev
      case ConnectTimer(attempt) => ConnectKeeps(s, attempt, config);
      case Handshaken => HandshakeKeeps(s, config);
      case UpstreamWrote(left) => WriteKeeps(s, left, config);
      case Signal => SignalKeeps(s, config);
    } else {
      FailedKeeps(s, ev, config);
    }
  }

  predicate StaysFreed(p: Phase, q: Phase) { q.freed == p.freed && (p.shutdown ==> q.shutdown) }

  lemma ConnectKeeps(s: State, attempt: Attempt, config: Config)
    ensures StaysFreed(s.phase, Session.Step(s, ConnectTimer(attempt), config).phase)
  {
    hide Session.Enabled;
  }

  lemma HandshakeKeeps(s: State, config: Config)
    ensures StaysFreed(s.phase, Session.Step(s, Handshaken, config).phase)
  {
    hide Session.Enabled;
  }

  lemma WriteKeeps(s: State, left: nat, config: Config)
    ensures StaysFreed(s.phase, Session.Step(s, UpstreamWrote(left), config).phase)
  {
    hide Session.Enabled;
  }

  lemma SignalKeeps(s: State, config: Config)
    ensures StaysFreed(s.phase, Session.Step(s, Session.Signal, config).phase)
  {
    hide Session.Enabled;
  }

  lemma FailedKeeps(s: State, ev: Session.Event, config: Config)
    requires s.phase.freed && Session.Enabled(s, ev)
    requires ev.UpstreamFailed? || ev.HangTimer? || ev.WriteClosed? || ev.ShutdownTimer?
    ensures var t := Session.Step(s, ev, config);
      t.phase.freed && (s.phase.shutdown && !ev.ShutdownTimer? ==> t.phase.shutdown)
  {
    hide Session.Enabled, Read, UpstreamErrored, Ended, Moved, MovedLocals, PairsAsked, Queued, Connecting;
    hide Received, ClientErrored, Accepted, Asked, HungUp;
    match ev
    case UpstreamFailed => ErroredKeeps(s, config);
    case HangTimer => ErroredKeeps(s, config);
    case WriteClosed => ErroredKeeps(s.(phase := s.phase.(writing := false)), config);
    case ShutdownTimer => EndedFreed(s, config);
  }

  lemma ErroredKeeps(s: State, config: Config)
    ensures var p := UpstreamErrored(s, config).phase; p.freed == s.phase.freed && (s.phase.shutdown ==> p.shutdown)
  {
    hide AllStopped, Cleared, Moved;
    MovedPhase(s, AllStopped(s.ends), Cleared(s.pairs), config);
  }

  lemma EndedFreed(s: State, config: Config)
    ensures Ended(s, config).phase.freed && (s.phase.freed && s.fate.Running? ==> Ended(s, config).fate == Strayed)
  {
    hide AllStopped, EveryStopped, Moved;
    ConsultedSame(s, true);
    var t := Consulted(s, true).(phase := Quiet(s.phase));
    var pairs := s.pairs.(locals := EveryStopped(s.pairs.locals));
    MovedPhase(t, AllStopped(s.ends), pairs, config);
    MovedFate(t, AllStopped(s.ends), pairs, config);
  }

  lemma {:induction false} DeadStaysDead(s: State, evs: seq<Session.Event>, config: Config)
    requires !Alive(s)
    ensures Session.Run(s, evs, config) == s
    decreases |evs|
  {
    if evs != [] {
      DeadStaysDead(s, evs[1..], config);
    }
  }

  lemma {:induction false} TimerWaits(s: State, evs: seq<Session.Event>, config: Config)
    requires s.phase.freed && s.phase.shutdown
    ensures var t := Session.Run(s, evs, config); Alive(t) ==> t.phase.freed && t.phase.shutdown
    decreases |evs|
  {
    hide Session.Step, Session.Enabled;
    if evs != [] {
      var next := Session.Step(s, evs[0], config);
      StepKeepsFreed(s, evs[0], config);
      if Session.Enabled(s, evs[0]) && evs[0].ShutdownTimer? {
        SecondStop(s, config);
        DeadStaysDead(next, evs[1..], config);
      } else {
        TimerWaits(next, evs[1..], config);
      }
    }
  }

  /** A second stop() frees the configuration again. */
  lemma SecondStop(s: State, config: Config)
    requires s.phase.freed && Session.Enabled(s, ShutdownTimer)
    ensures Session.Step(s, ShutdownTimer, config).fate == Strayed
  {
    hide Ended;
    EndedFreed(s, config);
  }

  /**
   * In every tidy run in which stop() asks for itself again, that stop() comes unless something else goes wrong before:
   * whatever happens in between, its timer is armed, and it uses freed memory.
   */
  lemma StopTwiceStrays(slots: seq<Slot>, evs: seq<Session.Event>, more: seq<Session.Event>, config: Config)
    requires Tidy(Start(slots), evs, config)
    requires var s := Session.Run(Start(slots), evs, config);
      && Session.Enabled(s, ShutdownTimer)
      && config.clientterm && (s.ends.list != [] || AnyClient(s.pairs.locals.tunnels))
    ensures var s := Session.Run(Start(slots), evs, config);
      var t := Session.Run(Session.Step(s, ShutdownTimer, config), more, config);
      Alive(t) ==> Session.Enabled(t, ShutdownTimer) && Session.Step(t, ShutdownTimer, config).fate == Strayed
  {
    hide Session.Run, Tidy, AnyClient, Session.Step, Alive;
    var s := Session.Run(Start(slots), evs, config);
    StopRearmsIff(slots, evs, config);
    StopFrees(s, config);
    TimerWaits(Session.Step(s, ShutdownTimer, config), more, config);
    var t := Session.Run(Session.Step(s, ShutdownTimer, config), more, config);
    if Alive(t) {
      SecondStop(t, config);
    }
  }

  lemma StopFrees(s: State, config: Config)
    requires Session.Enabled(s, ShutdownTimer)
    ensures Session.Step(s, ShutdownTimer, config).phase.freed
  {
    hide Ended;
    EndedFreed(s, config);
  }

  /** The two events by which a process that stopped connects again. */
  function Wakes(): seq<Session.Event> { [WriteClosed, ConnectTimer(Attempt(3, -1, EINPROGRESS))] }

  lemma WakesUp(s: State, config: Config)
    requires Alive(s) && s.phase.writing && !s.phase.active && !s.phase.sigterm
    requires s.ends.list == [] && s.pairs.locals.tunnels == []
    ensures Session.Run(s, Wakes(), config).phase.active
  {
    hide Moved;
    var u := s.(phase := s.phase.(writing := false));
    var t := Session.Step(s, WriteClosed, config);
    MovedPairs(u, AllStopped(s.ends), Cleared(s.pairs), config);
    MovedFate(u, AllStopped(s.ends), Cleared(s.pairs), config);
    assert Alive(t) && t.phase.connect;
    assert Wakes()[1..] == [ConnectTimer(Attempt(3, -1, EINPROGRESS))];
    assert Wakes()[1..][1..] == [];
  }

  /**
   * In every tidy run: after stop() the process connects again, in some continuation, exactly if a tunnel's table had a
   * client to be told of, nothing was queued, stop() had not run before, and there was no SIGTERM.
   */
  lemma StopReconnectsIff(slots: seq<Slot>, evs: seq<Session.Event>, config: Config)
    requires Tidy(Start(slots), evs, config)
    ensures var s := Session.Run(Start(slots), evs, config);
      Session.Enabled(s, ShutdownTimer) ==>
        ((exists more :: Session.Run(Session.Step(s, ShutdownTimer, config), more, config).phase.active)
         <==> AnyClient(s.pairs.locals.tunnels) && s.phase.backlog == 0 && !s.phase.freed && !s.phase.sigterm)
  {
    hide Session.Run, Tidy, Sound, AnyClient, Session.Step, Session.Enabled;
    StartSound(slots);
    RunKeepsSound(Start(slots), evs, config);
    var s := Session.Run(Start(slots), evs, config);
    if Session.Enabled(s, ShutdownTimer) {
      EndedReconnectsIff(s, config);
    }
  }

  lemma EndedReconnectsIff(s: State, config: Config)
    requires Sound(s) && Session.Enabled(s, ShutdownTimer)
    ensures (exists more :: Session.Run(Session.Step(s, ShutdownTimer, config), more, config).phase.active)
      <==> AnyClient(s.pairs.locals.tunnels) && s.phase.backlog == 0 && !s.phase.freed && !s.phase.sigterm
  {
    hide Session.Run, AnyClient, L.Inv, Endpoints.Inv, Ended;
    var t := Session.Step(s, ShutdownTimer, config);
    EndedStraysIff(s, config);
    EndedPhase(s, config);
    EndedSends(s, config);
    NobodyLeft(s);
    if AnyClient(s.pairs.locals.tunnels) && s.phase.backlog == 0 && !s.phase.freed && !s.phase.sigterm {
      WakesUp(t, config);
    }
    if more :| Session.Run(t, more, config).phase.active {
      if !Alive(t) {
        DeadStaysDead(t, more, config);
      } else if Stranded(t.phase) {
        StepBound(s, ShutdownTimer, config);
        StrandedStays(t, more, config);
      }
    }
  }

  lemma StrandedStays(t: State, more: seq<Session.Event>, config: Config)
    requires PhaseInv(t.phase) && Bound(t) && Stranded(t.phase)
    ensures !Session.Run(t, more, config).phase.active
  {
    hide Session.Run, SomethingStrands;
    StrandedIff(t, more, config);
  }

  // ----- refusals

  /** A request to a port that is not allowed is answered with a message that aborts the process it is for. */
  lemma DenialAbortsPeer(s: State, f: Frame, config: Config, peer: State, attempt: Attempt)
    requires Session.Enabled(s, Upstream(f)) && Session.Enabled(peer, Upstream(f)) && f.MessageFrom? && |f.argv| == 4
    requires Dispatch(f.argv[0]).EndpointRequest? && !PortAllowed(config.allowed, f.argv[1])
    ensures var out := Session.Step(s, Upstream(f), config).ends.out;
      && |out| == |s.ends.out| + 1
      && var p := out[|s.ends.out|];
         && p.to == f.device && p.address == f.address
         && var told := Frame.MessageFrom(f.device, f.address, Split(p.tp, SLASH), p.body, attempt);
            Session.Step(peer, Upstream(told), config).fate == Aborted
  {
    hide Split, Dispatch, PortAllowed, Moved, DeniedHeader;
    DeniedAborts(f.argv[1]);
    EndpointsStep(s, Upstream(f), config);
  }
}
