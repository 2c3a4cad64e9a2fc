/**
 * The process as src/gcapi.c runs it: the upstream connection and its timers, the tunnels it opens for its own clients
 * and the endpoints it keeps for others, with every handler an atomic step.
 */
module Session {
  import opened Bytes
  import opened Endpoints
  import opened Headers
  import opened Locals
  import opened Pairs
  import opened Ports
  import opened Process
  import opened Proto
  import opened Server
  import opened Tokens
  import opened Wrappers

  const OK: bytes := Ascii("ok")
  const OK_REGISTERED: bytes := Ascii("ok_registered")

  datatype Config = Config(device: bytes, allowed: seq<int>, clientterm: bool, traffic: bool)

  /**
   * Which timers are armed, whether the client is active, how often it was shut down since upstream_connect, how many
   * buffers its send queue holds, whether that queue points to buffers that were freed, whether its write watcher is
   * started, and whether stop() freed the configuration.
   */
  datatype Phase = Phase(connect: bool, pair: bool, ping: bool, hang: bool, shutdown: bool, sigterm: bool,
                         active: bool, shutdowns: nat, backlog: nat, dangling: bool, writing: bool, freed: bool)

  datatype State = State(phase: Phase, ends: Ends, pairs: Pairs, fate: Fate)

  predicate Alive(s: State) { s.ends.fate.Running? && s.pairs.locals.fate.Running? && s.fate.Running? }

  /** gc_init */
  function Start(slots: seq<Slot>): State
  {
    var p := Phase(true, false, false, false, false, false, false, 0, 0, false, false, false);
    State(p, NONE, Pairs(slots, NOBODY), Running)
  }

  // ----- what happens

  /** How async_client_ssl ends. Its guard drops the client when connect() did not fail. */
  function UpstreamOutcome(a: Attempt): Outcome
  {
    if a.socket == -1 then NoSocket
    else if a.ret != -1 && a.errno != EINPROGRESS && a.errno != EINTR then Dropped
    else Stays
  }

  /** A message from the upstream. Stray stands for one whose fields are not inside the buffer. */
  datatype Frame =
    | LoginReply(error: bytes)
    | PairReply(error: bytes, replies: seq<(Pair, Option<bytes>)>)
    | MessageFrom(device: bytes, address: bytes, argv: seq<bytes>, body: bytes, attempt: Attempt)
    | OfflineSet(address: bytes)
    | LastReply
    | Other
    | Stray

  datatype Event =
    | ConnectTimer(attempt: Attempt)
    | Handshaken
    | UpstreamFailed
    | UpstreamWrote(left: nat)
    | WriteClosed
    | Upstream(frame: Frame)
    | HangTimer
    | PingTimer
    | PairTimer
    | ShutdownTimer
    | Signal
    | EndpointData(endpoint: nat, buf: bytes)
    | EndpointFailed(endpoint: nat)
    | LocalAccepted(id: nat, descriptor: nat)
    | LocalData(client: LocalClient, buf: bytes)
    | LocalFailed(client: LocalClient)

  /**
   * Timers fire when armed; the upstream's callbacks run while it is active, and its write callback once more if the
   * watcher is started on the descriptor that was closed; after SIGTERM no socket is served.
   */
  ghost predicate Enabled(s: State, ev: Event)
  {
    && Alive(s)
    && match ev
       case ConnectTimer(_) => s.phase.connect
       case Handshaken => s.phase.active
       case UpstreamFailed => s.phase.active && !s.phase.sigterm
       case UpstreamWrote(left) => s.phase.active && !s.phase.sigterm && s.phase.writing && left < s.phase.backlog
       case WriteClosed => s.phase.writing && !s.phase.active
       case Upstream(_) => s.phase.active && !s.phase.sigterm
       case HangTimer => s.phase.hang
       case PingTimer => s.phase.ping
       case PairTimer => s.phase.pair
       case ShutdownTimer => s.phase.shutdown
       case Signal => !s.phase.sigterm
       case EndpointData(c, _) => c in s.ends.open && !s.phase.sigterm
       case EndpointFailed(c) => c in s.ends.open && !s.phase.sigterm
       case LocalAccepted(_, fd) => !s.phase.sigterm && forall c :: c in s.pairs.locals.live ==> c.fd != fd
       case LocalData(c, _) => c in s.pairs.locals.live && !s.phase.sigterm
       case LocalFailed(c) => c in s.pairs.locals.live && !s.phase.sigterm
  }

  // ----- the handlers

  /** n buffers more in the send queue, and its watcher started; behind a freed tail there is no place for them. */
  function Queued(s: State, n: int): State
  {
    if n <= 0 then s
    else s.(phase := s.phase.(backlog := s.phase.backlog + n, writing := true),
            fate := if s.phase.dangling then Worse(s.fate, Strayed) else s.fate)
  }

  /** What the configuration points to is used; stop() frees it and clears no pointer. */
  function Consulted(s: State, uses: bool): State
  {
    if uses && s.phase.freed then s.(fate := Worse(s.fate, Strayed)) else s
  }

  /** Endpoints and tunnels after a handler; async_client_shutdown ends a run with clientterm. */
  function Changed(s: State, ends: Ends, pairs: Pairs, config: Config): State
  {
    var closed := ends.closed > s.ends.closed || pairs.locals.closed > s.pairs.locals.closed;
    s.(ends := ends, pairs := pairs, phase := s.phase.(shutdown := s.phase.shutdown || (config.clientterm && closed)))
  }

  /** And what they sent is queued. */
  function Moved(s: State, ends: Ends, pairs: Pairs, config: Config): State
  {
    Queued(Changed(s, ends, pairs, config), |ends.out| - |s.ends.out| + |pairs.locals.out| - |s.pairs.locals.out|)
  }

  function MovedLocals(s: State, locals: Locals, config: Config): State
  {
    Moved(s, s.ends, s.pairs.(locals := locals), config)
  }

  /** Its SSL client shut down, if it has one. */
  function Inactive(p: Phase): Phase
  {
    if p.active then p.(active := false, shutdowns := p.shutdowns + 1, dangling := p.backlog > 0, writing := false) else p
  }

  /** upstream_error */
  function UpstreamErrored(s: State, config: Config): State
  {
    var t := Moved(s, AllStopped(s.ends), Cleared(s.pairs), config);
    t.(phase := Inactive(t.phase).(pair := false, ping := false, hang := false, connect := true))
  }

  /** libev stops the watcher of a descriptor that is closed, and runs async_write_ssl, which finds GC_WANT_SHUTDOWN. */
  function Closed(s: State, config: Config): State
  {
    var t := s.(phase := s.phase.(writing := false));
    if s.phase.sigterm then t else UpstreamErrored(t, config)
  }

  /** upstream_connect and async_client_ssl */
  function Connected(p: Phase, attempt: Attempt): Phase
  {
    var o := UpstreamOutcome(attempt);
    p.(connect := false, active := o.Stays?, shutdowns := if o.Dropped? then 1 else 0, backlog := 0, dangling := false,
       writing := false)
  }

  function Connecting(s: State, attempt: Attempt): State { s.(phase := Connected(s.phase, attempt)) }

  /** What stop() leaves on before it stops tunnels and endpoints. */
  function Quiet(p: Phase): Phase
  {
    Inactive(p).(shutdown := false, ping := false, hang := false, pair := false, connect := false, freed := true)
  }

  /** stop */
  function Ended(s: State, config: Config): State
  {
    var t := Consulted(s, true).(phase := Quiet(s.phase));
    Moved(t, AllStopped(s.ends), s.pairs.(locals := EveryStopped(s.pairs.locals)), config)
  }

  /** client_logged */
  function LoggedIn(s: State, error: bytes, config: Config): State
  {
    if error == OK then
      var t := Consulted(s, true);
      if config.traffic then Queued(t, 1) else t.(phase := t.phase.(pair := true))
    else if error != OK_REGISTERED then s.(phase := s.phase.(shutdown := true))
    else s
  }

  /** device_pair_reply */
  function PairReplied(s: State, pair: Pair, local: Option<bytes>, config: Config): State
  {
    if pair.kind == FORCED || local.Some? then
      var r := Replied(s.pairs, pair, if local.Some? then local.value else [], config.device);
      Moved(Consulted(s, Looks(s.pairs.slots, pair)), s.ends, r, config)
    else s.(phase := s.phase.(shutdown := true))
  }

  function PairsReplied(s: State, replies: seq<(Pair, Option<bytes>)>, config: Config): State
    decreases |replies|
  {
    if replies == [] || !Alive(s) then s
    else PairsReplied(PairReplied(s, replies[0].0, replies[0].1, config), replies[1..], config)
  }

  /** cloud_offline */
  function WentOffline(s: State, address: bytes, config: Config): State
  {
    Moved(Consulted(s, Marks(s.pairs.slots, address)), Stopped(s.ends, address), Offline(s.pairs, address), config)
  }

  /** message_from, with the strings its header was cut into. */
  function Told(s: State, f: Frame, config: Config): State
    requires f.MessageFrom?
  {
    if f.argv == [] then s
    else match Dispatch(f.argv[0])
      case EndpointRequest =>
        if |f.argv| != 4 then s
        else
          var ends := Requested(s.ends, config.allowed, f.device, f.address, f.argv[1], f.argv[2], f.body, f.attempt);
          Moved(s, ends, s.pairs, config)
      case TunnelResponse =>
        if |f.argv| != 3 then s else MovedLocals(s, Responded(s.pairs.locals, f.argv[1], f.argv[2], f.body), config)
      case TunnelUpdate => MovedLocals(s, Renamed(s.pairs.locals, f.argv), config)
      case EndpointStop => Moved(s, Stopped(s.ends, f.address), s.pairs, config)
      case Abort => s.(fate := Aborted)
  }

  /** callback_data of a message that parses */
  function Read(s: State, f: Frame, config: Config): State
  {
    var t := s.(phase := s.phase.(hang := true));
    match f
    case LoginReply(error) => LoggedIn(t, error, config)
    case PairReply(error, replies) => if error == OK then PairsReplied(t, replies, config) else t
    case MessageFrom(_, _, _, _, _) => Told(t, f, config)
    case OfflineSet(address) => WentOffline(t, address, config)
    case LastReply => t.(phase := t.phase.(shutdown := true))
    case Other => t
    case Stray => t.(fate := Strayed)
  }

  /** devices_pair */
  function PairsAsked(s: State): State
  {
    var n := |PairRequests(s.pairs.slots)|;
    Queued(Consulted(s, n > 0), n)
  }

  ghost function Step(s: State, ev: Event, config: Config): State
  {
    if !Enabled(s, ev) then s
    else match ev
      case ConnectTimer(attempt) => Connecting(s, attempt)
      case Handshaken => s.(phase := s.phase.(hang := true, ping := true, writing := s.phase.backlog > 0))
      case UpstreamFailed => UpstreamErrored(s, config)
      case UpstreamWrote(left) => s.(phase := s.phase.(backlog := left, writing := left > 0))
      case WriteClosed => Closed(s, config)
      case Upstream(f) => Read(s, f, config)
      case HangTimer => UpstreamErrored(s, config)
      case PingTimer => Queued(s, 1)
      case PairTimer => PairsAsked(s)
      case ShutdownTimer => Ended(s, config)
      case Signal => s.(phase := s.phase.(sigterm := true, shutdown := true))
      case EndpointData(c, buf) => Moved(s, Received(s.ends, c, buf), s.pairs, config)
      case EndpointFailed(c) => Moved(s, ClientErrored(s.ends, c), s.pairs, config)
      case LocalAccepted(id, fd) => MovedLocals(s, Accepted(s.pairs.locals, id, fd), config)
      case LocalData(c, buf) => MovedLocals(s, Asked(s.pairs.locals, c, buf), config)
      case LocalFailed(c) => MovedLocals(s, HungUp(s.pairs.locals, c), config)
  }

  ghost function Run(s: State, evs: seq<Event>, config: Config): State
    decreases |evs|
  {
    if evs == [] then s else Run(Step(s, evs[0], config), evs[1..], config)
  }

  // ----- the upstream connection

  predicate PhaseInv(p: Phase)
  {
    && (p.connect ==> !p.active)
    && (p.hang || p.ping || p.pair ==> p.active)
    && p.shutdowns + (if p.active then 1 else 0) <= 1
    && (p.dangling ==> !p.active)
    && (p.active ==> (p.writing <==> p.backlog > 0))
  }

  /** The same but for the shutdown timer, and for a send queue that grew. */
  predicate SamePhase(p: Phase, q: Phase)
  {
    && q.connect == p.connect && q.pair == p.pair && q.ping == p.ping && q.hang == p.hang && q.sigterm == p.sigterm
    && q.active == p.active && q.shutdowns == p.shutdowns && q.dangling == p.dangling && q.freed == p.freed
    && (p.shutdown ==> q.shutdown)
    && q.backlog >= p.backlog && q.writing == (p.writing || q.backlog > p.backlog)
  }

  lemma MovedPhase(s: State, ends: Ends, pairs: Pairs, config: Config)
    ensures var t := Moved(s, ends, pairs, config); SamePhase(s.phase, t.phase) && t.ends == ends && t.pairs == pairs
  {
    hide Queued, SamePhase, Changed;
    var t := Changed(s, ends, pairs, config);
    ChangedPhase(s, ends, pairs, config);
    QueuedPhase(t, |ends.out| - |s.ends.out| + |pairs.locals.out| - |s.pairs.locals.out|);
    ThenPhase(s.phase, t.phase, Moved(s, ends, pairs, config).phase);
  }

  lemma ChangedPhase(s: State, ends: Ends, pairs: Pairs, config: Config)
    ensures var t := Changed(s, ends, pairs, config); SamePhase(s.phase, t.phase) && t.ends == ends && t.pairs == pairs
  {
  }

  lemma QueuedPhase(s: State, n: int)
    ensures var t := Queued(s, n); SamePhase(s.phase, t.phase) && t.ends == s.ends && t.pairs == s.pairs
  {
  }

  lemma ConsultedSame(s: State, uses: bool)
    ensures var t := Consulted(s, uses); t.phase == s.phase && t.ends == s.ends && t.pairs == s.pairs
  {
  }

  lemma {:induction false} PairsRepliedPhase(s: State, replies: seq<(Pair, Option<bytes>)>, config: Config)
    ensures var t := PairsReplied(s, replies, config); t.ends == s.ends && SamePhase(s.phase, t.phase)
    decreases |replies|
  {
    hide Replied, Moved, FORCED, SamePhase, Looks, Consulted;
    StaysSame(s.phase);
    if replies != [] && Alive(s) {
      var (pair, local) := replies[0];
      var u := Consulted(s, Looks(s.pairs.slots, pair));
      ConsultedSame(s, Looks(s.pairs.slots, pair));
      MovedPhase(u, s.ends, Replied(s.pairs, pair, if local.Some? then local.value else [], config.device), config);
      var next := PairReplied(s, pair, local, config);
      NextPhase(s.phase, next.phase);
      PairsRepliedPhase(next, replies[1..], config);
      ThenPhase(s.phase, next.phase, PairsReplied(s, replies, config).phase);
    }
  }

  lemma NextPhase(p: Phase, q: Phase)
    ensures q == p.(shutdown := true) ==> SamePhase(p, q)
  {
  }

  lemma ThenPhase(p: Phase, q: Phase, r: Phase)
    requires SamePhase(p, q) && SamePhase(q, r)
    ensures SamePhase(p, r)
  {
  }

  /** A message arms the hang timer, and perhaps the pair timer and the shutdown timer. */
  lemma ReadPhase(s: State, f: Frame, config: Config)
    ensures var p := Read(s, f, config).phase;
      && SamePhase(s.phase.(hang := true, pair := p.pair), p) && (s.phase.pair ==> p.pair)
  {
    hide Offline, PairsReplied, Moved, Told, Stopped, LoggedIn, SamePhase, Consulted, Marks;
    var t := s.(phase := s.phase.(hang := true));
    var p := Read(s, f, config).phase;
    StaysSame(t.phase);
    NextPhase(t.phase, p);
    WithPair(s.phase, p);
    match f
    case LoginReply(error) => LoggedInPhase(s, error, config);
    case PairReply(_, replies) => PairsRepliedPhase(t, replies, config);
    case MessageFrom(_, _, _, _, _) => ToldPhase(t, f, config);
    case OfflineSet(address) =>
      ConsultedSame(t, Marks(t.pairs.slots, address));
      MovedPhase(Consulted(t, Marks(t.pairs.slots, address)), Stopped(t.ends, address), Offline(t.pairs, address), config);
    case LastReply =>
    case Other =>
    case Stray =>
  }

  lemma WithPair(p: Phase, q: Phase)
    ensures SamePhase(p.(hang := true), q) ==> SamePhase(p.(hang := true, pair := q.pair), q) && q.pair == p.pair
  {
  }

  lemma LoggedInPhase(s: State, error: bytes, config: Config)
    ensures var p := LoggedIn(s.(phase := s.phase.(hang := true)), error, config).phase;
      SamePhase(s.phase.(hang := true, pair := p.pair), p) && (s.phase.pair ==> p.pair)
  {
    hide Queued, Consulted, OK, OK_REGISTERED, SamePhase;
    var t := s.(phase := s.phase.(hang := true));
    var p := LoggedIn(t, error, config).phase;
    ConsultedSame(t, true);
    QueuedPhase(Consulted(t, true), 1);
    StaysSame(t.phase);
    NextPhase(t.phase, p);
    WithPair(s.phase, p);
    ArmedPair(s.phase);
  }

  lemma ArmedPair(p: Phase)
    ensures SamePhase(p.(hang := true, pair := true), p.(hang := true, pair := true))
    ensures p.(hang := true).(pair := true) == p.(hang := true, pair := true)
  {
  }

  lemma ToldPhase(s: State, f: Frame, config: Config)
    requires f.MessageFrom?
    ensures SamePhase(s.phase, Told(s, f, config).phase)
  {
    hide Requested, Stopped, Renamed, Dispatch, Responded, Moved, SamePhase;
    StaysSame(s.phase);
    if f.argv != [] {
      match Dispatch(f.argv[0])
      case EndpointRequest =>
        if |f.argv| == 4 {
          MovedPhase(s, Requested(s.ends, config.allowed, f.device, f.address, f.argv[1], f.argv[2], f.body, f.attempt),
                     s.pairs, config);
        }
      case TunnelResponse =>
        if |f.argv| == 3 {
          MovedPhase(s, s.ends, s.pairs.(locals := Responded(s.pairs.locals, f.argv[1], f.argv[2], f.body)), config);
        }
      case TunnelUpdate =>
        MovedPhase(s, s.ends, s.pairs.(locals := Renamed(s.pairs.locals, f.argv)), config);
      case EndpointStop =>
        MovedPhase(s, Stopped(s.ends, f.address), s.pairs, config);
      case Abort =>
    }
  }

  lemma StaysSame(p: Phase)
    ensures SamePhase(p, p)
  {
  }

  /** Events that at most send something. */
  predicate Sending(ev: Event)
  {
    ev.EndpointData? || ev.EndpointFailed? || ev.LocalAccepted? || ev.LocalData? || ev.LocalFailed?
    || ev.PingTimer? || ev.PairTimer?
  }

  lemma SendingPhase(s: State, ev: Event, config: Config)
    requires Sending(ev) && Enabled(s, ev)
    ensures SamePhase(s.phase, Step(s, ev, config).phase)
  {
    hide Moved, Queued, PairsAsked, SamePhase, Received, ClientErrored, Accepted, Asked, HungUp, Enabled;
    match ev
    case PingTimer => QueuedPhase(s, 1);
    case PairTimer => AskedPhase(s);
    case EndpointData(c, buf) => MovedPhase(s, Received(s.ends, c, buf), s.pairs, config);
    case EndpointFailed(c) => MovedPhase(s, ClientErrored(s.ends, c), s.pairs, config);
    case LocalAccepted(id, fd) => MovedPhase(s, s.ends, s.pairs.(locals := Accepted(s.pairs.locals, id, fd)), config);
    case LocalData(c, buf) => MovedPhase(s, s.ends, s.pairs.(locals := Asked(s.pairs.locals, c, buf)), config);
    case LocalFailed(c) => MovedPhase(s, s.ends, s.pairs.(locals := HungUp(s.pairs.locals, c)), config);
  }

  lemma SameInv(p: Phase, q: Phase)
    requires PhaseInv(p) && SamePhase(p, q)
    ensures PhaseInv(q)
  {
  }

  /** Events that change the phase alone. */
  predicate Direct(ev: Event) { ev.ConnectTimer? || ev.Handshaken? || ev.UpstreamWrote? || ev.Signal? }

  lemma DirectPhase(s: State, ev: Event, config: Config)
    requires PhaseInv(s.phase) && Direct(ev) && Enabled(s, ev)
    ensures PhaseInv(Step(s, ev, config).phase)
  {
  }

  lemma FailedPhase(s: State, ev: Event, config: Config)
    requires PhaseInv(s.phase) && Enabled(s, ev)
    requires ev.UpstreamFailed? || ev.HangTimer? || ev.WriteClosed? || ev.ShutdownTimer?
    ensures PhaseInv(Step(s, ev, config).phase)
  {
    hide UpstreamErrored, Ended, Closed, PhaseInv;
    match ev
    case UpstreamFailed => ErroredPhase(s, config);
    case HangTimer => ErroredPhase(s, config);
    case WriteClosed => ClosedPhase(s, config);
    case ShutdownTimer => EndedPhase(s, config);
  }

  lemma UpstreamPhase(s: State, f: Frame, config: Config)
    requires PhaseInv(s.phase) && s.phase.active
    ensures PhaseInv(Read(s, f, config).phase)
  {
    hide Read, SamePhase;
    ReadPhase(s, f, config);
    var p := Read(s, f, config).phase;
    SameInv(s.phase.(hang := true, pair := p.pair), p);
  }

  lemma Skipped(s: State, ev: Event, config: Config)
    ensures !Enabled(s, ev) ==> Step(s, ev, config) == s
    ensures Enabled(s, ev) && ev.Upstream? ==> s.phase.active && Step(s, ev, config) == Read(s, ev.frame, config)
  {
    hide Read;
  }

  lemma StepKeepsPhase(s: State, ev: Event, config: Config)
    requires PhaseInv(s.phase)
    ensures PhaseInv(Step(s, ev, config).phase)
  {
    hide Step, Enabled, PhaseInv, SamePhase, Read;
    Skipped(s, ev, config);
    if Enabled(s, ev) {
      if Sending(ev) {
        SendingPhase(s, ev, config);
        SameInv(s.phase, Step(s, ev, config).phase);
      } else if Direct(ev) {
        DirectPhase(s, ev, config);
      } else if ev.Upstream? {
        UpstreamPhase(s, ev.frame, config);
      } else {
        FailedPhase(s, ev, config);
      }
    }
  }

  lemma ErroredPhase(s: State, config: Config)
    requires PhaseInv(s.phase)
    ensures var p := UpstreamErrored(s, config).phase;
      && PhaseInv(p) && p.connect && !p.active && !p.pair && !p.ping && !p.hang
      && p.shutdowns == s.phase.shutdowns + if s.phase.active then 1 else 0
  {
    hide AllStopped, Cleared, Moved;
    MovedPhase(s, AllStopped(s.ends), Cleared(s.pairs), config);
  }

  lemma ClosedPhase(s: State, config: Config)
    requires PhaseInv(s.phase)
    ensures !s.phase.active ==>
      var p := Closed(s, config).phase;
      && PhaseInv(p) && !p.active
      && (if s.phase.sigterm then p == s.phase.(writing := false) else p.connect)
  {
    hide UpstreamErrored;
    if !s.phase.active {
      ErroredPhase(s.(phase := s.phase.(writing := false)), config);
    }
  }

  lemma EndedPhase(s: State, config: Config)
    requires PhaseInv(s.phase)
    ensures var p := Ended(s, config).phase;
      && PhaseInv(p) && !p.connect && !p.active && !p.pair && !p.ping && !p.hang && p.freed
      && p.sigterm == s.phase.sigterm
  {
    hide AllStopped, EveryStopped, Moved, Consulted;
    ConsultedSame(s, true);
    var t := Consulted(s, true).(phase := Quiet(s.phase));
    MovedPhase(t, AllStopped(s.ends), s.pairs.(locals := EveryStopped(s.pairs.locals)), config);
  }

  /**
   * Over every run: the connect timer is armed only while the client is inactive, the hang, ping and pair timers only
   * while it is active, its write watcher is started then exactly if something is queued, and the SSL client is shut down
   * at most once per connect, never before it is given up.
   */
  lemma {:induction false} RunKeepsPhase(s: State, evs: seq<Event>, config: Config)
    requires PhaseInv(s.phase)
    ensures PhaseInv(Run(s, evs, config).phase)
    decreases |evs|
  {
    hide Step;
    if evs != [] {
      StepKeepsPhase(s, evs[0], config);
      RunKeepsPhase(Step(s, evs[0], config), evs[1..], config);
    }
  }

  /** In every reachable state, an upstream error leaves nothing of the session but the wait for the next connect. */
  lemma UpstreamErrorClears(slots: seq<Slot>, evs: seq<Event>, ev: Event, config: Config)
    requires ev.UpstreamFailed? || ev.HangTimer?
    ensures var s := Run(Start(slots), evs, config);
      Enabled(s, ev) ==>
        var t := Step(s, ev, config);
        && t.ends.list == [] && t.pairs.locals.tunnels == []
        && |t.pairs.slots| == |s.pairs.slots| && (forall i :: 0 <= i < |t.pairs.slots| ==> t.pairs.slots[i].pid == [])
        && !t.phase.pair && !t.phase.ping && !t.phase.hang && t.phase.connect && !t.phase.active
        && t.phase.shutdowns == 1 && t.ends.closed == s.ends.closed + |s.ends.list|
  {
    hide Run, Moved, ServersShut, CloseEach;
    var s := Run(Start(slots), evs, config);
    RunKeepsPhase(Start(slots), evs, config);
    ErroredPhase(s, config);
    MovedPhase(s, AllStopped(s.ends), Cleared(s.pairs), config);
  }

  /** Tunnels and endpoints are there only while the upstream is, and only stop() leaves a watcher on a closed one. */
  predicate Bound(s: State)
  {
    !s.phase.active ==>
      s.pairs.locals.tunnels == [] && s.ends.list == [] && (s.phase.writing ==> s.phase.freed && !s.phase.connect)
  }

  /** Handlers that send nothing leave the upstream as it is. */
  lemma MovedIdle(s: State, ends: Ends, pairs: Pairs, config: Config)
    requires ends.out == s.ends.out && pairs.locals.out == s.pairs.locals.out
    ensures var t := Moved(s, ends, pairs, config); t.phase == s.phase.(shutdown := t.phase.shutdown)
  {
  }

  lemma EndpointIdle(s: State, c: nat, buf: bytes, config: Config)
    requires s.ends.list == []
    ensures var t := Moved(s, Received(s.ends, c, buf), s.pairs, config);
      t.phase == s.phase.(shutdown := t.phase.shutdown) && t.ends.list == [] && t.pairs == s.pairs
    ensures var t := Moved(s, ClientErrored(s.ends, c), s.pairs, config);
      t.phase == s.phase.(shutdown := t.phase.shutdown) && t.ends.list == [] && t.pairs == s.pairs
  {
    hide Moved;
    MovedPairs(s, Received(s.ends, c, buf), s.pairs, config);
    MovedPairs(s, ClientErrored(s.ends, c), s.pairs, config);
    MovedIdle(s, Received(s.ends, c, buf), s.pairs, config);
    MovedIdle(s, ClientErrored(s.ends, c), s.pairs, config);
  }

  lemma LocalIdle(s: State, l: Locals, config: Config)
    requires l.tunnels == [] && l.out == s.pairs.locals.out
    ensures var t := MovedLocals(s, l, config);
      t.phase == s.phase.(shutdown := t.phase.shutdown) && t.ends == s.ends && t.pairs.locals.tunnels == []
  {
    hide Moved;
    MovedPairs(s, s.ends, s.pairs.(locals := l), config);
    MovedIdle(s, s.ends, s.pairs.(locals := l), config);
  }

  /** stop(): its watcher is started again exactly if a tunnel's client sends its notice. */
  lemma EndedSends(s: State, config: Config)
    ensures var t := Ended(s, config);
      && t.ends.list == [] && t.pairs.locals.tunnels == []
      && (t.phase.writing <==> (!s.phase.active && s.phase.writing) || AnyClient(s.pairs.locals.tunnels))
  {
    hide AllStopped, EveryStopped, Moved, Consulted, AnyClient, SamePhase;
    ConsultedSame(s, true);
    NoticesSent(s.pairs.locals, s.pairs.locals.tunnels);
    var u := Consulted(s, true).(phase := Quiet(s.phase));
    var ends, pairs := AllStopped(s.ends), s.pairs.(locals := EveryStopped(s.pairs.locals));
    MovedPairs(u, ends, pairs, config);
    MovedWriting(u, ends, pairs, config);
    StopsSendNothing(s);
  }

  lemma StopsSendNothing(s: State)
    ensures AllStopped(s.ends).out == s.ends.out && AllStopped(s.ends).list == []
    ensures EveryStopped(s.pairs.locals).out == ServersShut(s.pairs.locals, s.pairs.locals.tunnels).out
    ensures EveryStopped(s.pairs.locals).tunnels == []
  {
    hide CloseEach, ServersShut;
  }

  lemma MovedWriting(s: State, ends: Ends, pairs: Pairs, config: Config)
    ensures Moved(s, ends, pairs, config).phase.writing
      <==> s.phase.writing || |ends.out| + |pairs.locals.out| > |s.ends.out| + |s.pairs.locals.out|
  {
    hide Queued, Changed;
    QueuedWriting(Changed(s, ends, pairs, config), |ends.out| - |s.ends.out| + |pairs.locals.out| - |s.pairs.locals.out|);
    ChangedWriting(s, ends, pairs, config);
  }

  lemma QueuedWriting(s: State, n: int)
    ensures Queued(s, n).phase.writing <==> s.phase.writing || n > 0
  {
  }

  lemma ChangedWriting(s: State, ends: Ends, pairs: Pairs, config: Config)
    ensures Changed(s, ends, pairs, config).phase.writing == s.phase.writing
  {
  }

  /** What happens to clients while the upstream is not active sends nothing, so it does not wake the upstream. */
  lemma ClientsIdle(s: State, ev: Event, config: Config)
    requires Bound(s) && Enabled(s, ev) && !s.phase.active
    requires ev.EndpointData? || ev.EndpointFailed? || ev.LocalAccepted? || ev.LocalData? || ev.LocalFailed?
    ensures var t := Step(s, ev, config); Bound(t) && t.phase == s.phase.(shutdown := t.phase.shutdown)
  {
    hide Step, Enabled, Bound;
    if ev.EndpointData? || ev.EndpointFailed? {
      EndpointsIdle(s, ev, config);
    } else {
      LocalsIdle(s, ev, config);
    }
  }

  lemma EndpointsIdle(s: State, ev: Event, config: Config)
    requires Bound(s) && Enabled(s, ev) && !s.phase.active && (ev.EndpointData? || ev.EndpointFailed?)
    ensures var t := Step(s, ev, config); Bound(t) && t.phase == s.phase.(shutdown := t.phase.shutdown)
  {
    hide Received, ClientErrored, Moved, Enabled;
    EndpointIdle(s, ev.endpoint, if ev.EndpointData? then ev.buf else [], config);
  }

  lemma LocalsIdle(s: State, ev: Event, config: Config)
    requires Bound(s) && Enabled(s, ev) && !s.phase.active && (ev.LocalAccepted? || ev.LocalData? || ev.LocalFailed?)
    ensures var t := Step(s, ev, config); Bound(t) && t.phase == s.phase.(shutdown := t.phase.shutdown)
  {
    hide Accepted, Asked, HungUp, MovedLocals, Enabled;
    var l := s.pairs.locals;
    match ev
    case LocalAccepted(id, fd) =>
      NoTunnelsSendNothing(l, id, fd, LocalClient(0, 0, 0), []);
      LocalIdle(s, Accepted(l, id, fd), config);
    case LocalData(c, buf) =>
      NoTunnelsSendNothing(l, 0, 0, c, buf);
      LocalIdle(s, Asked(l, c, buf), config);
    case LocalFailed(c) =>
      NoTunnelsSendNothing(l, 0, 0, c, []);
      LocalIdle(s, HungUp(l, c), config);
  }

  /** What happens only while it is active. */
  lemma StaysActive(s: State, ev: Event, config: Config)
    requires PhaseInv(s.phase) && Enabled(s, ev)
    requires ev.Handshaken? || ev.UpstreamWrote? || ev.Upstream? || ev.PingTimer? || ev.PairTimer?
    ensures s.phase.active && Step(s, ev, config).phase.active
  {
    hide Read, Queued, PairsAsked, SamePhase;
    match ev
    case Handshaken =>
    case UpstreamWrote(_) =>
    case Upstream(f) => ReadStaysActive(s, f, config);
    case PingTimer => QueuedActive(s, 1);
    case PairTimer => AskedPhase(s);
  }

  lemma QueuedActive(s: State, n: int)
    ensures Queued(s, n).phase.active == s.phase.active
  {
  }

  lemma ActiveBound(s: State)
    requires s.phase.active
    ensures Bound(s)
  {
  }

  lemma TimerBound(s: State, ev: Event, config: Config)
    requires Bound(s) && PhaseInv(s.phase) && Enabled(s, ev)
    requires ev.ConnectTimer? || ev.UpstreamFailed? || ev.HangTimer? || ev.WriteClosed? || ev.ShutdownTimer? || ev.Signal?
    ensures Bound(Step(s, ev, config))
  {
    hide UpstreamErrored, Ended, AnyClient;
    match ev
    case ConnectTimer(_) =>
    case UpstreamFailed => ErroredBound(s, config);
    case HangTimer => ErroredBound(s, config);
    case WriteClosed =>
      if !s.phase.sigterm {
        ErroredBound(s.(phase := s.phase.(writing := false)), config);
      }
    case ShutdownTimer =>
      EndedPhase(s, config);
      EndedSends(s, config);
    case Signal =>
  }

  lemma SendingActive(s: State, ev: Event, config: Config)
    requires Sending(ev) && Enabled(s, ev)
    ensures Step(s, ev, config).phase.active == s.phase.active
  {
    hide Step, Enabled;
    SendingPhase(s, ev, config);
  }

  lemma StepBound(s: State, ev: Event, config: Config)
    requires Bound(s) && PhaseInv(s.phase)
    ensures Bound(Step(s, ev, config))
  {
    hide Step, Enabled, Bound, PhaseInv, Read;
    Skipped(s, ev, config);
    if Enabled(s, ev) {
      if ev.EndpointData? || ev.EndpointFailed? || ev.LocalAccepted? || ev.LocalData? || ev.LocalFailed? {
        SendingActive(s, ev, config);
        if s.phase.active {
          ActiveBound(Step(s, ev, config));
        } else {
          ClientsIdle(s, ev, config);
        }
      } else if ev.Handshaken? || ev.UpstreamWrote? || ev.Upstream? || ev.PingTimer? || ev.PairTimer? {
        StaysActive(s, ev, config);
        ActiveBound(Step(s, ev, config));
      } else {
        TimerBound(s, ev, config);
      }
    }
  }

  lemma ErroredBound(s: State, config: Config)
    requires PhaseInv(s.phase) && Bound(s) && (s.phase.active || !s.phase.writing)
    ensures Bound(UpstreamErrored(s, config)) && !UpstreamErrored(s, config).phase.writing
  {
    hide Moved, AllStopped, Cleared, Consulted;
    ErroredPhase(s, config);
    StopsSendNothing(s);
    ClearedIs(s);
    MovedPairs(s, AllStopped(s.ends), Cleared(s.pairs), config);
    MovedPhase(s, AllStopped(s.ends), Cleared(s.pairs), config);
    if !s.phase.active {
      MovedIdle(s, AllStopped(s.ends), Cleared(s.pairs), config);
    }
  }

  lemma ClearedIs(s: State)
    ensures Cleared(s.pairs).locals == EveryStopped(s.pairs.locals) && Cleared(s.pairs).locals.tunnels == []
    ensures s.pairs.locals.tunnels == [] ==> Cleared(s.pairs).locals.out == s.pairs.locals.out
  {
  }

  lemma AskedPhase(s: State)
    ensures var t := PairsAsked(s); SamePhase(s.phase, t.phase) && t.ends == s.ends && t.pairs == s.pairs
    ensures PairsAsked(s).phase.active == s.phase.active
  {
    hide Queued, Consulted, PairRequests;
    var n := |PairRequests(s.pairs.slots)|;
    ConsultedSame(s, n > 0);
    QueuedPhase(Consulted(s, n > 0), n);
  }

  lemma ReadStaysActive(s: State, f: Frame, config: Config)
    ensures s.phase.active ==> Read(s, f, config).phase.active
  {
    hide Read;
    ReadPhase(s, f, config);
  }

  /** Without tunnels no event of their clients sends anything. */
  lemma NoTunnelsSendNothing(l: Locals, id: nat, fd: nat, c: LocalClient, buf: bytes)
    requires l.tunnels == []
    ensures Accepted(l, id, fd) == l
    ensures Asked(l, c, buf).tunnels == [] && Asked(l, c, buf).out == l.out
    ensures HungUp(l, c).tunnels == [] && HungUp(l, c).out == l.out
  {
  }

  /** Neither connected nor going to be. */
  predicate Stranded(p: Phase) { !p.connect && !p.active && (p.sigterm || !p.writing) }

  /**
   * A connect without a socket, or one whose connect() did not fail; the end of the process, unless a client's notice
   * starts the watcher of the upstream that was shut down; or SIGTERM before that watcher's callback.
   */
  ghost predicate Strands(s: State, ev: Event)
  {
    && Enabled(s, ev)
    && match ev
       case ConnectTimer(a) => a.socket == -1 || (a.ret != -1 && a.errno != EINPROGRESS && a.errno != EINTR)
       case ShutdownTimer =>
         s.phase.sigterm || (!AnyClient(s.pairs.locals.tunnels) && (s.phase.active || !s.phase.writing))
       case Signal => !s.phase.connect && !s.phase.active
       case _ => false
  }

  ghost predicate SomethingStrands(s: State, evs: seq<Event>, config: Config)
    decreases |evs|
  {
    evs != [] && (Strands(s, evs[0]) || SomethingStrands(Step(s, evs[0], config), evs[1..], config))
  }

  lemma TimerStrandsIff(s: State, ev: Event, config: Config)
    requires PhaseInv(s.phase) && Bound(s) && Enabled(s, ev)
    requires ev.ConnectTimer? || ev.UpstreamFailed? || ev.HangTimer? || ev.WriteClosed? || ev.ShutdownTimer? || ev.Signal?
    ensures Stranded(Step(s, ev, config).phase) <==> Stranded(s.phase) || Strands(s, ev)
  {
    hide UpstreamErrored, Ended, AnyClient, Closed;
    match ev
    case ConnectTimer(_) =>
    case UpstreamFailed => ErroredPhase(s, config);
    case HangTimer => ErroredPhase(s, config);
    case WriteClosed => ClosedPhase(s, config);
    case ShutdownTimer =>
      EndedPhase(s, config);
      EndedSends(s, config);
      NobodyLeft(s);
    case Signal =>
  }

  lemma StepStrandsIff(s: State, ev: Event, config: Config)
    requires PhaseInv(s.phase) && Bound(s)
    ensures Stranded(Step(s, ev, config).phase) <==> Stranded(s.phase) || Strands(s, ev)
  {
    hide Enabled, Step, Bound, PhaseInv;
    Skipped(s, ev, config);
    if Enabled(s, ev) {
      if ev.EndpointData? || ev.EndpointFailed? || ev.LocalAccepted? || ev.LocalData? || ev.LocalFailed? {
        SendingActive(s, ev, config);
        if !s.phase.active {
          ClientsIdle(s, ev, config);
        }
      } else if ev.Handshaken? || ev.UpstreamWrote? || ev.Upstream? || ev.PingTimer? || ev.PairTimer? {
        StaysActive(s, ev, config);
      } else {
        TimerStrandsIff(s, ev, config);
      }
    }
  }

  lemma NobodyLeft(s: State)
    requires Bound(s)
    ensures AnyClient(s.pairs.locals.tunnels) ==> s.phase.active
  {
  }

  /**
   * A connect that drops its client is never retried: from then on, whatever happens, the client stays inactive and
   * nothing arms the connect timer. Over every run this is so exactly after such a connect, after a stop() that no
   * tunnel's client had to be told of, and after any stop() with SIGTERM.
   */
  lemma {:induction false} StrandedIff(s: State, evs: seq<Event>, config: Config)
    requires PhaseInv(s.phase) && Bound(s)
    ensures Stranded(Run(s, evs, config).phase) <==> Stranded(s.phase) || SomethingStrands(s, evs, config)
    decreases |evs|
  {
    hide Step, PhaseInv, Strands, Bound;
    if evs != [] {
      StepKeepsPhase(s, evs[0], config);
      StepBound(s, evs[0], config);
      StepStrandsIff(s, evs[0], config);
      StrandedIff(Step(s, evs[0], config), evs[1..], config);
    }
  }

  /** connect() succeeds at once, errno being 0: the process never connects again. */
  lemma ImmediateConnectStrands(s: State, socket: int, evs: seq<Event>, config: Config)
    requires PhaseInv(s.phase) && Bound(s) && Alive(s) && s.phase.connect && socket != -1
    ensures Stranded(Run(Step(s, ConnectTimer(Attempt(socket, 0, 0)), config), evs, config).phase)
  {
    hide Step, Run, Bound;
    var ev := ConnectTimer(Attempt(socket, 0, 0));
    StepKeepsPhase(s, ev, config);
    StepBound(s, ev, config);
    StepStrandsIff(s, ev, config);
    StrandedIff(Step(s, ev, config), evs, config);
  }

  /** connect() is refused at once: the client is active all the same. */
  lemma RefusedConnectIsActive(s: State, socket: int, config: Config)
    requires Alive(s) && s.phase.connect && socket != -1
    ensures Step(s, ConnectTimer(Attempt(socket, -1, ECONNREFUSED)), config).phase.active
  {
  }

  // ----- pairing

  ghost predicate InStep(s: State) { Paired(s.pairs.slots, s.pairs.locals.tunnels) }

  predicate AnyPaired(slots: seq<Slot>) { exists i :: 0 <= i < |slots| && slots[i].pid != [] }

  /** stop() while a slot is paired. */
  ghost predicate Unpairs(s: State, ev: Event) { Enabled(s, ev) && ev.ShutdownTimer? && AnyPaired(s.pairs.slots) }

  lemma MovedPairs(s: State, ends: Ends, pairs: Pairs, config: Config)
    ensures Moved(s, ends, pairs, config).pairs == pairs && Moved(s, ends, pairs, config).ends == ends
  {
    hide SamePhase;
    MovedPhase(s, ends, pairs, config);
  }

  lemma {:induction false} PairsRepliedKeeps(s: State, replies: seq<(Pair, Option<bytes>)>, config: Config)
    requires InStep(s)
    ensures InStep(PairsReplied(s, replies, config))
    decreases |replies|
  {
    hide Paired, Replied, Moved, FORCED, Looks, Consulted;
    if replies != [] && Alive(s) {
      var (pair, local) := replies[0];
      var l := if local.Some? then local.value else [];
      RepliedKeepsPaired(s.pairs, pair, l, config.device);
      MovedPairs(Consulted(s, Looks(s.pairs.slots, pair)), s.ends, Replied(s.pairs, pair, l, config.device), config);
      PairsRepliedKeeps(PairReplied(s, pair, local, config), replies[1..], config);
    }
  }

  lemma ClearedPaired(ps: Pairs)
    ensures Paired(Cleared(ps).slots, Cleared(ps).locals.tunnels)
  {
    hide ServersShut;
  }

  /** Clients come and go without a change of names. */
  lemma TablesOnly(slots: seq<Slot>, l: Locals, m: Locals)
    requires Paired(slots, l.tunnels) && |m.tunnels| == |l.tunnels|
    requires forall k :: 0 <= k < |l.tunnels| ==> m.tunnels[k].pair == l.tunnels[k].pair
    ensures Paired(slots, m.tunnels)
  {
    hide Paired;
    SameNamesPaired(slots, l.tunnels, m.tunnels);
  }

  lemma LocalsKeepNames(l: Locals, id: nat, fd: nat, c: LocalClient)
    ensures var m := Accepted(l, id, fd);
      |m.tunnels| == |l.tunnels| && forall k :: 0 <= k < |l.tunnels| ==> m.tunnels[k].pair == l.tunnels[k].pair
    ensures var m := HungUp(l, c);
      |m.tunnels| == |l.tunnels| && forall k :: 0 <= k < |l.tunnels| ==> m.tunnels[k].pair == l.tunnels[k].pair
  {
    hide Home, WithClient, RemShutdown, StopNotice;
  }

  lemma LoggedInPairs(s: State, error: bytes, config: Config)
    ensures LoggedIn(s, error, config).pairs == s.pairs && LoggedIn(s, error, config).ends == s.ends
  {
    hide Queued, Consulted, OK, OK_REGISTERED;
    ConsultedSame(s, true);
    QueuedPhase(Consulted(s, true), 1);
  }

  lemma ReadKeepsPaired(s: State, f: Frame, config: Config)
    requires InStep(s)
    ensures InStep(Read(s, f, config))
  {
    hide PairsReplied, Moved, Offline, Paired, Stopped, Told, LoggedIn, Consulted, Marks;
    var t := s.(phase := s.phase.(hang := true));
    match f
    case LoginReply(error) => LoggedInPairs(t, error, config);
    case PairReply(_, replies) => PairsRepliedKeeps(t, replies, config);
    case MessageFrom(_, _, _, _, _) => ToldKeepsPaired(t, f, config);
    case OfflineSet(address) =>
      OfflineKeepsPaired(s.pairs, address);
      ConsultedSame(t, Marks(t.pairs.slots, address));
      MovedPairs(Consulted(t, Marks(t.pairs.slots, address)), Stopped(t.ends, address), Offline(t.pairs, address), config);
    case LastReply =>
    case Other =>
    case Stray =>
  }

  lemma ToldKeepsPaired(s: State, f: Frame, config: Config)
    requires f.MessageFrom? && InStep(s)
    ensures InStep(Told(s, f, config))
  {
    hide Requested, Stopped, Renamed, Dispatch, Moved, Paired, ClientFor, Searched;
    if f.argv != [] {
      match Dispatch(f.argv[0])
      case EndpointRequest =>
        if |f.argv| == 4 {
          MovedPairs(s, Requested(s.ends, config.allowed, f.device, f.address, f.argv[1], f.argv[2], f.body, f.attempt),
                     s.pairs, config);
        }
      case TunnelResponse =>
        if |f.argv| == 3 {
          MovedPairs(s, s.ends, s.pairs.(locals := Responded(s.pairs.locals, f.argv[1], f.argv[2], f.body)), config);
        }
      case TunnelUpdate =>
        RenamedKeepsPaired(s.pairs, f.argv);
        MovedPairs(s, s.ends, s.pairs.(locals := Renamed(s.pairs.locals, f.argv)), config);
      case EndpointStop =>
        MovedPairs(s, Stopped(s.ends, f.address), s.pairs, config);
      case Abort =>
    }
  }

  lemma StepKeepsPairedIff(s: State, ev: Event, config: Config)
    requires InStep(s)
    ensures InStep(Step(s, ev, config)) <==> !Unpairs(s, ev)
  {
    hide AllStopped, Received, ClientErrored, Cleared, Read, Accepted, HungUp, PairsAsked, Moved, Paired, Queued;
    hide ServersShut, Home, Ended, UpstreamErrored;
    match ev
    case ConnectTimer(_) =>
    case Handshaken =>
    case UpstreamFailed => ErroredPairs(s, config);
    case UpstreamWrote(_) =>
    case WriteClosed => ErroredPairs(s.(phase := s.phase.(writing := false)), config);
    case Upstream(f) => ReadKeepsPaired(s, f, config);
    case HangTimer => ErroredPairs(s, config);
    case PingTimer => QueuedPhase(s, 1);
    case PairTimer => AskedPhase(s);
    case ShutdownTimer => EndedPairs(s, config);
    case Signal =>
    case EndpointData(c, buf) => MovedPairs(s, Received(s.ends, c, buf), s.pairs, config);
    case EndpointFailed(c) => MovedPairs(s, ClientErrored(s.ends, c), s.pairs, config);
    case LocalAccepted(id, fd) =>
      LocalsKeepNames(s.pairs.locals, id, fd, LocalClient(0, 0, 0));
      TablesOnly(s.pairs.slots, s.pairs.locals, Accepted(s.pairs.locals, id, fd));
      MovedPairs(s, s.ends, s.pairs.(locals := Accepted(s.pairs.locals, id, fd)), config);
    case LocalData(c, buf) => MovedPairs(s, s.ends, s.pairs.(locals := Asked(s.pairs.locals, c, buf)), config);
    case LocalFailed(c) =>
      LocalsKeepNames(s.pairs.locals, 0, 0, c);
      TablesOnly(s.pairs.slots, s.pairs.locals, HungUp(s.pairs.locals, c));
      MovedPairs(s, s.ends, s.pairs.(locals := HungUp(s.pairs.locals, c)), config);
  }

  lemma ErroredPairs(s: State, config: Config)
    ensures UpstreamErrored(s, config).pairs == Cleared(s.pairs) && InStep(UpstreamErrored(s, config))
  {
    hide AllStopped, Cleared, Moved, Paired;
    ClearedPaired(s.pairs);
    MovedPairs(s, AllStopped(s.ends), Cleared(s.pairs), config);
  }

  lemma EndedPairs(s: State, config: Config)
    ensures InStep(Ended(s, config)) <==> !AnyPaired(s.pairs.slots)
  {
    hide AllStopped, Moved, Paired, ServersShut, Consulted;
    StopAllKeepsPairedIff(s.pairs.slots);
    var t := Consulted(s, true).(phase := Quiet(s.phase));
    MovedPairs(t, AllStopped(s.ends), s.pairs.(locals := EveryStopped(s.pairs.locals)), config);
  }

  ghost predicate AlwaysPaired(s: State, evs: seq<Event>, config: Config)
    decreases |evs|
  {
    InStep(s) && (evs != [] ==> AlwaysPaired(Step(s, evs[0], config), evs[1..], config))
  }

  ghost predicate NothingUnpairs(s: State, evs: seq<Event>, config: Config)
    decreases |evs|
  {
    evs != [] ==> !Unpairs(s, evs[0]) && NothingUnpairs(Step(s, evs[0], config), evs[1..], config)
  }

  lemma {:induction false} AlwaysPairedFromIff(s: State, evs: seq<Event>, config: Config)
    requires InStep(s)
    ensures AlwaysPaired(s, evs, config) <==> NothingUnpairs(s, evs, config)
    decreases |evs|
  {
    hide InStep, Step, Unpairs;
    if evs != [] {
      StepKeepsPairedIff(s, evs[0], config);
      if !Unpairs(s, evs[0]) {
        AlwaysPairedFromIff(Step(s, evs[0], config), evs[1..], config);
      }
    }
  }

  /**
   * From gc_init, in every reachable state, each slot with a pid has a tunnel with that pid, cloud, device and remote
   * port, through replies, ports assigned late, renamed ports, clients that come and go, offline notices and upstream
   * errors. Only stop() while a slot is paired ends this: it removes the tunnels and leaves the pids.
   */
  lemma AlwaysPairedIff(slots: seq<Slot>, evs: seq<Event>, config: Config)
    requires forall i :: 0 <= i < |slots| ==> slots[i].pid == []
    ensures AlwaysPaired(Start(slots), evs, config) <==> NothingUnpairs(Start(slots), evs, config)
  {
    hide Step, AlwaysPaired, NothingUnpairs;
    AlwaysPairedFromIff(Start(slots), evs, config);
  }
}
