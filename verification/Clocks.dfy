/** Over every run, which timers of the process are armed: exactly those that something armed and nothing stopped since. */
module Clocks {
  import opened Bytes
  import opened Endpoints
  import opened Headers
  import opened Locals
  import opened Pairs
  import opened Process
  import opened Proto
  import opened Session
  import opened SessionRuns
  import opened Wrappers

  /** The five timers; Ending is shutdown_timer. */
  datatype Clock = Connect | Ping | Hang | Pairing | Ending

  predicate Armed(p: Phase, k: Clock)
  {
    match k
    case Connect => p.connect
    case Ping => p.ping
    case Hang => p.hang
    case Pairing => p.pair
    case Ending => p.shutdown
  }

  /** The upstream is given up. */
  predicate Lost(s: State, ev: Session.Event)
  {
    ev.UpstreamFailed? || ev.HangTimer? || (ev.WriteClosed? && !s.phase.sigterm)
  }

  /** With clientterm: async_client_shutdown was called for a client of an endpoint or of a tunnel. */
  predicate Terminates(s: State, ends: Ends, pairs: Pairs, config: Config)
  {
    config.clientterm && (ends.closed > s.ends.closed || pairs.locals.closed > s.pairs.locals.closed)
  }

  ghost predicate Closes(s: State, ev: Session.Event, config: Config)
  {
    var t := Session.Step(s, ev, config);
    Terminates(s, t.ends, t.pairs, config)
  }

  /** Of the pairs of a reply, one that is to have a server gets none. */
  predicate NoServer(s: State, replies: seq<(Pair, Option<bytes>)>, config: Config)
    decreases |replies|
  {
    && replies != [] && Alive(s)
    && ((replies[0].0.kind != FORCED && replies[0].1.None?)
        || NoServer(PairReplied(s, replies[0].0, replies[0].1, config), replies[1..], config))
  }

  /**
   * connect_timer is armed by the loss of the upstream, ping and hang by the handshake, hang by any message, pair by a
   * login, and shutdown by SIGTERM, the reply to a one-shot action, a refused login, a tunnel without its server, and with
   * clientterm by the end of a client.
   */
  ghost predicate Arms(k: Clock, s: State, ev: Session.Event, config: Config)
  {
    match k
    case Connect => Lost(s, ev)
    case Ping => ev.Handshaken?
    case Hang => ev.Handshaken? || ev.Upstream?
    case Pairing => ev.Upstream? && ev.frame.LoginReply? && ev.frame.error == Ascii("ok") && !config.traffic
    case Ending =>
      || ev.Signal?
      || (ev.Upstream? && Ends(s, ev.frame, config))
      || Closes(s, ev, config)
  }

  predicate Ends(s: State, f: Frame, config: Config)
  {
    match f
    case LastReply => true
    case LoginReply(error) => error != Ascii("ok") && error != Ascii("ok_registered")
    case PairReply(error, replies) =>
      error == Ascii("ok") && NoServer(s.(phase := s.phase.(hang := true)), replies, config)
    case _ => false
  }

  /** connect_timer is stopped by the connect it brings, the others by the loss of the upstream, all by stop(). */
  predicate Stops(k: Clock, s: State, ev: Session.Event)
  {
    || ev.ShutdownTimer?
    || match k
       case Connect => ev.ConnectTimer?
       case Ending => false
       case _ => Lost(s, ev)
  }

  // ----- shutdown_timer

  lemma QueuedEnds(s: State, n: int)
    ensures Queued(s, n).phase.shutdown == s.phase.shutdown
  {
  }

  lemma ChangedEnds(s: State, ends: Ends, pairs: Pairs, config: Config)
    ensures Changed(s, ends, pairs, config).phase.shutdown <==> s.phase.shutdown || Terminates(s, ends, pairs, config)
  {
  }

  lemma MovedEnds(s: State, ends: Ends, pairs: Pairs, config: Config)
    ensures Moved(s, ends, pairs, config).phase.shutdown <==> s.phase.shutdown || Terminates(s, ends, pairs, config)
  {
    hide Queued, Changed, Terminates;
    ChangedEnds(s, ends, pairs, config);
    QueuedEnds(Changed(s, ends, pairs, config), |ends.out| - |s.ends.out| + |pairs.locals.out| - |s.pairs.locals.out|);
  }

  lemma RepliedClosesNone(ps: Pairs, pair: Pair, local: bytes, device: bytes)
    ensures Replied(ps, pair, local, device).locals.closed == ps.locals.closed
  {
    hide SlotFor, PairFits, UpdateHeader, PortUpdated, PairUpdated, FORCED;
  }

  lemma {:induction false} RepliesEnd(s: State, replies: seq<(Pair, Option<bytes>)>, config: Config)
    ensures var t := PairsReplied(s, replies, config);
      && (t.phase.shutdown <==> s.phase.shutdown || NoServer(s, replies, config))
      && t.ends == s.ends && t.pairs.locals.closed == s.pairs.locals.closed
    decreases |replies|
  {
    hide Replied, Moved, FORCED, Looks, Consulted, Alive;
    if replies != [] && Alive(s) {
      var (pair, local) := replies[0];
      var r := Replied(s.pairs, pair, if local.Some? then local.value else [], config.device);
      var u := Consulted(s, Looks(s.pairs.slots, pair));
      ConsultedSame(s, Looks(s.pairs.slots, pair));
      RepliedClosesNone(s.pairs, pair, if local.Some? then local.value else [], config.device);
      MovedPairs(u, s.ends, r, config);
      MovedEnds(u, s.ends, r, config);
      RepliesEnd(PairReplied(s, pair, local, config), replies[1..], config);
    }
  }

  lemma ReadEnds(s: State, f: Frame, config: Config)
    ensures var t := Read(s, f, config);
      t.phase.shutdown <==> s.phase.shutdown || Ends(s, f, config) || Terminates(s, t.ends, t.pairs, config)
  {
    hide Offline, PairsReplied, NoServer, Moved, Told, Stopped, Marks, Consulted, Ascii;
    var t := s.(phase := s.phase.(hang := true));
    match f
    case LoginReply(error) => LoginEnds(t, error, config);
    case PairReply(_, replies) => RepliesEnd(t, replies, config);
    case MessageFrom(_, _, _, _, _) => ToldEnds(t, f, config);
    case OfflineSet(address) =>
      ConsultedSame(t, Marks(t.pairs.slots, address));
      var u := Consulted(t, Marks(t.pairs.slots, address));
      MovedPairs(u, Stopped(t.ends, address), Offline(t.pairs, address), config);
      MovedEnds(u, Stopped(t.ends, address), Offline(t.pairs, address), config);
    case LastReply =>
    case Other =>
    case Stray =>
  }

  /** What a login reply comes to. */
  lemma LoginIs(s: State, error: bytes, config: Config)
    ensures LoggedIn(s, error, config) ==
      if error == Ascii("ok") then if config.traffic then Queued(Consulted(s, true), 1) else Paired(Consulted(s, true))
      else if error == Ascii("ok_registered") then s
      else Refused(s)
  {
    hide Ascii, Queued, Consulted;
  }

  function Paired(s: State): State { s.(phase := s.phase.(pair := true)) }

  function Refused(s: State): State { s.(phase := s.phase.(shutdown := true)) }

  lemma OnePhase(s: State)
    ensures var t := Paired(s);
      t.phase.shutdown == s.phase.shutdown && t.phase.pair && t.ends == s.ends && t.pairs == s.pairs
    ensures var t := Refused(s);
      t.phase.shutdown && t.phase.pair == s.phase.pair && t.ends == s.ends && t.pairs == s.pairs
  {
  }

  lemma LoginEnds(s: State, error: bytes, config: Config)
    ensures var t := LoggedIn(s, error, config);
      && (t.phase.shutdown <==> s.phase.shutdown || (error != Ascii("ok") && error != Ascii("ok_registered")))
      && t.ends == s.ends && t.pairs == s.pairs
  {
    hide Ascii, Queued, Consulted, LoggedIn, Paired, Refused, SamePhase;
    LoginIs(s, error, config);
    OnePhase(s);
    OnePhase(Consulted(s, true));
    ConsultedSame(s, true);
    QueuedEnds(Consulted(s, true), 1);
    QueuedPhase(Consulted(s, true), 1);
  }

  lemma ToldEnds(s: State, f: Frame, config: Config)
    requires f.MessageFrom?
    ensures var t := Told(s, f, config);
      t.phase.shutdown <==> s.phase.shutdown || Terminates(s, t.ends, t.pairs, config)
  {
    hide Requested, Stopped, Renamed, Dispatch, Responded, Moved;
    if f.argv != [] {
      match Dispatch(f.argv[0])
      case EndpointRequest =>
        if |f.argv| == 4 {
          MovedBoth(s, Requested(s.ends, config.allowed, f.device, f.address, f.argv[1], f.argv[2], f.body, f.attempt),
                    s.pairs, config);
        }
      case TunnelResponse =>
        if |f.argv| == 3 {
          MovedBoth(s, s.ends, s.pairs.(locals := Responded(s.pairs.locals, f.argv[1], f.argv[2], f.body)), config);
        }
      case TunnelUpdate => MovedBoth(s, s.ends, s.pairs.(locals := Renamed(s.pairs.locals, f.argv)), config);
      case EndpointStop => MovedBoth(s, Stopped(s.ends, f.address), s.pairs, config);
      case Abort =>
    }
  }

  lemma MovedBoth(s: State, ends: Ends, pairs: Pairs, config: Config)
    ensures var t := Moved(s, ends, pairs, config);
      && t.ends == ends && t.pairs == pairs
      && (t.phase.shutdown <==> s.phase.shutdown || Terminates(s, ends, pairs, config))
  {
    hide Moved;
    MovedPairs(s, ends, pairs, config);
    MovedEnds(s, ends, pairs, config);
  }

  lemma SendingEnds(s: State, ev: Session.Event, config: Config)
    requires Session.Enabled(s, ev) && Sending(ev)
    ensures Session.Step(s, ev, config).phase.shutdown <==>
      s.phase.shutdown || Closes(s, ev, config)
  {
    hide Moved, Queued, Received, ClientErrored, Accepted, Asked, HungUp, Session.Enabled, PairsAsked;
    match ev
    case PingTimer =>
      QueuedPhase(s, 1);
      QueuedEnds(s, 1);
    case PairTimer => AskedEnds(s);
    case EndpointData(c, buf) => MovedBoth(s, Received(s.ends, c, buf), s.pairs, config);
    case EndpointFailed(c) => MovedBoth(s, ClientErrored(s.ends, c), s.pairs, config);
    case LocalAccepted(id, fd) => MovedBoth(s, s.ends, s.pairs.(locals := Accepted(s.pairs.locals, id, fd)), config);
    case LocalData(c, buf) => MovedBoth(s, s.ends, s.pairs.(locals := Asked(s.pairs.locals, c, buf)), config);
    case LocalFailed(c) => MovedBoth(s, s.ends, s.pairs.(locals := HungUp(s.pairs.locals, c)), config);
  }

  lemma AskedEnds(s: State)
    ensures var t := PairsAsked(s); t.phase.shutdown == s.phase.shutdown && t.ends == s.ends && t.pairs == s.pairs
  {
    hide Queued, PairRequests;
    var n := |PairRequests(s.pairs.slots)|;
    AskedPhase(s);
    ConsultedSame(s, n > 0);
    QueuedEnds(Consulted(s, n > 0), n);
  }

  lemma DirectEnds(s: State, ev: Session.Event, config: Config)
    requires Session.Enabled(s, ev) && Direct(ev)
    ensures var t := Session.Step(s, ev, config);
      && (t.phase.shutdown <==> s.phase.shutdown || ev.Signal?) && t.ends == s.ends && t.pairs == s.pairs
  {
    hide Session.Enabled, Session.Step;
    match ev
    case ConnectTimer(attempt) => ConnectEnds(s, attempt, config);
    case Handshaken => HandshakeEnds(s, config);
    case UpstreamWrote(left) => WriteEnds(s, left, config);
    case Signal => SignalEnds(s, config);
  }

  predicate OnlyPhase(s: State, t: State) { t.phase.shutdown == s.phase.shutdown && t.ends == s.ends && t.pairs == s.pairs }

  lemma ConnectEnds(s: State, attempt: Attempt, config: Config)
    ensures OnlyPhase(s, Session.Step(s, ConnectTimer(attempt), config))
  {
    hide Session.Enabled;
  }

  lemma HandshakeEnds(s: State, config: Config)
    ensures OnlyPhase(s, Session.Step(s, Handshaken, config))
  {
    hide Session.Enabled;
  }

  lemma WriteEnds(s: State, left: nat, config: Config)
    ensures OnlyPhase(s, Session.Step(s, UpstreamWrote(left), config))
  {
    hide Session.Enabled;
  }

  /** SIGTERM arms the shutdown timer. */
  lemma SignalEnds(s: State, config: Config)
    requires Session.Enabled(s, Session.Signal)
    ensures var t := Session.Step(s, Session.Signal, config);
      t.phase.shutdown && t.phase.sigterm && t.ends == s.ends && t.pairs == s.pairs
  {
    hide Session.Enabled;
  }

  lemma FailedEnds(s: State, ev: Session.Event, config: Config)
    requires Session.Enabled(s, ev)
    requires ev.UpstreamFailed? || ev.HangTimer? || ev.WriteClosed? || ev.ShutdownTimer?
    ensures Session.Step(s, ev, config).phase.shutdown <==>
      (s.phase.shutdown && !ev.ShutdownTimer?) || Closes(s, ev, config)
  {
    hide Session.Enabled, UpstreamErrored, Ended, Session.Closed;
    match ev
    case UpstreamFailed => ErroredEnds(s, config);
    case HangTimer => ErroredEnds(s, config);
    case WriteClosed => ClosedEnds(s, config);
    case ShutdownTimer => EndedEnds(s, config);
  }

  lemma ClosedEnds(s: State, config: Config)
    ensures var t := Session.Closed(s, config);
      t.phase.shutdown <==> s.phase.shutdown || Terminates(s, t.ends, t.pairs, config)
  {
    hide UpstreamErrored;
    ErroredEnds(s.(phase := s.phase.(writing := false)), config);
  }

  lemma ErroredEnds(s: State, config: Config)
    ensures var t := UpstreamErrored(s, config);
      t.phase.shutdown <==> s.phase.shutdown || Terminates(s, t.ends, t.pairs, config)
  {
    hide Moved, AllStopped, Cleared;
    MovedBoth(s, AllStopped(s.ends), Cleared(s.pairs), config);
  }

  lemma EndedEnds(s: State, config: Config)
    ensures var t := Ended(s, config);
      t.phase.shutdown <==> Terminates(s, t.ends, t.pairs, config)
  {
    hide Moved, AllStopped, EveryStopped, Consulted;
    ConsultedSame(s, true);
    MovedBoth(Consulted(s, true).(phase := Quiet(s.phase)), AllStopped(s.ends),
              s.pairs.(locals := EveryStopped(s.pairs.locals)), config);
  }

  lemma StepEndsIff(s: State, ev: Session.Event, config: Config)
    requires Session.Enabled(s, ev)
    ensures Session.Step(s, ev, config).phase.shutdown
      <==> Arms(Ending, s, ev, config) || (s.phase.shutdown && !ev.ShutdownTimer?)
  {
    hide Session.Step, Session.Enabled, Ends, Closes, Read;
    if Sending(ev) {
      SendingEnds(s, ev, config);
    } else if Direct(ev) {
      DirectEnds(s, ev, config);
      ClosesIs(s, ev, config);
    } else if ev.Upstream? {
      UpstreamIs(s, ev, config);
      ReadEnds(s, ev.frame, config);
      ClosesIs(s, ev, config);
    } else {
      FailedEnds(s, ev, config);
    }
  }

  lemma ClosesIs(s: State, ev: Session.Event, config: Config)
    ensures var t := Session.Step(s, ev, config); Closes(s, ev, config) <==> Terminates(s, t.ends, t.pairs, config)
  {
    hide Session.Step;
  }

  // ----- the others

  lemma DirectArmed(k: Clock, s: State, ev: Session.Event, config: Config)
    requires !k.Ending? && PhaseInv(s.phase) && Session.Enabled(s, ev) && Direct(ev)
    ensures Armed(Session.Step(s, ev, config).phase, k)
      <==> Arms(k, s, ev, config) || (Armed(s.phase, k) && !Stops(k, s, ev))
  {
    hide Ascii;
  }

  lemma SameArmed(p: Phase, q: Phase, k: Clock)
    requires SamePhase(p, q) && !k.Ending?
    ensures Armed(q, k) <==> Armed(p, k)
  {
  }

  lemma ErroredArmed(s: State, k: Clock, config: Config)
    requires !k.Ending?
    ensures Armed(UpstreamErrored(s, config).phase, k) <==> k.Connect?
  {
    hide Moved, AllStopped, Cleared;
  }

  lemma EndedArmed(s: State, k: Clock, config: Config)
    requires !k.Ending?
    ensures !Armed(Ended(s, config).phase, k)
  {
    hide Moved, AllStopped, EveryStopped, Consulted, SamePhase;
    ConsultedSame(s, true);
    var t := Consulted(s, true).(phase := Quiet(s.phase));
    var pairs := s.pairs.(locals := EveryStopped(s.pairs.locals));
    MovedPhase(t, AllStopped(s.ends), pairs, config);
    SameArmed(t.phase, Ended(s, config).phase, k);
  }

  lemma FailedArmed(k: Clock, s: State, ev: Session.Event, config: Config)
    requires !k.Ending? && PhaseInv(s.phase) && Session.Enabled(s, ev)
    requires ev.UpstreamFailed? || ev.HangTimer? || ev.WriteClosed? || ev.ShutdownTimer?
    ensures Armed(Session.Step(s, ev, config).phase, k)
      <==> Arms(k, s, ev, config) || (Armed(s.phase, k) && !Stops(k, s, ev))
  {
    hide UpstreamErrored, Ended, PhaseInv, Session.Enabled;
    match ev
    case UpstreamFailed => ErroredArmed(s, k, config);
    case HangTimer => ErroredArmed(s, k, config);
    case WriteClosed =>
      if !s.phase.sigterm {
        ErroredArmed(s.(phase := s.phase.(writing := false)), k, config);
      } else {
        WatcherOff(s.phase, k);
      }
    case ShutdownTimer => EndedArmed(s, k, config);
  }

  lemma WatcherOff(p: Phase, k: Clock)
    ensures Armed(p.(writing := false), k) <==> Armed(p, k)
  {
  }

  lemma ReadArmed(s: State, f: Frame, k: Clock, config: Config)
    requires s.phase.active && PhaseInv(s.phase) && !k.Ending?
    ensures Armed(Read(s, f, config).phase, k)
      <==> Arms(k, s, Upstream(f), config) || Armed(s.phase, k)
  {
    hide Read, SamePhase, Ascii;
    ReadPhase(s, f, config);
    PairArmed(s, f, config);
    var p := Read(s, f, config).phase;
    SameArmed(s.phase.(hang := true, pair := p.pair), p, k);
  }

  lemma PairArmed(s: State, f: Frame, config: Config)
    ensures Read(s, f, config).phase.pair
      <==> s.phase.pair || (f.LoginReply? && f.error == Ascii("ok") && !config.traffic)
  {
    hide Offline, PairsReplied, Moved, Told, Stopped, SamePhase, Marks, Ascii, LoggedIn, Consulted;
    var t := s.(phase := s.phase.(hang := true));
    match f
    case LoginReply(error) => LoginArmed(t, error, config);
    case PairReply(_, replies) =>
      PairsRepliedPhase(t, replies, config);
      SameArmed(t.phase, PairsReplied(t, replies, config).phase, Pairing);
    case MessageFrom(_, _, _, _, _) =>
      ToldPhase(t, f, config);
      SameArmed(t.phase, Told(t, f, config).phase, Pairing);
    case OfflineSet(address) =>
      ConsultedSame(t, Marks(t.pairs.slots, address));
      var u := Consulted(t, Marks(t.pairs.slots, address));
      MovedPhase(u, Stopped(t.ends, address), Offline(t.pairs, address), config);
      SameArmed(u.phase, Read(s, f, config).phase, Pairing);
    case LastReply =>
    case Other =>
    case Stray =>
  }

  lemma LoginArmed(s: State, error: bytes, config: Config)
    ensures LoggedIn(s, error, config).phase.pair <==> s.phase.pair || (error == Ascii("ok") && !config.traffic)
  {
    hide Ascii, Queued, Consulted, LoggedIn, Paired, Refused, SamePhase;
    LoginIs(s, error, config);
    OnePhase(s);
    OnePhase(Consulted(s, true));
    ConsultedSame(s, true);
    QueuedPhase(Consulted(s, true), 1);
    SameArmed(s.phase, Queued(Consulted(s, true), 1).phase, Pairing);
  }

  /** One event. */
  lemma StepArmedIff(k: Clock, s: State, ev: Session.Event, config: Config)
    requires PhaseInv(s.phase) && Session.Enabled(s, ev)
    ensures Armed(Session.Step(s, ev, config).phase, k)
      <==> Arms(k, s, ev, config) || (Armed(s.phase, k) && !Stops(k, s, ev))
  {
    hide Session.Step, Session.Enabled, PhaseInv, Ascii, Read, Ends, Closes;
    if k.Ending? {
      StepEndsIff(s, ev, config);
    } else if Sending(ev) {
      SendingPhase(s, ev, config);
      SameArmed(s.phase, Session.Step(s, ev, config).phase, k);
    } else if Direct(ev) {
      DirectArmed(k, s, ev, config);
    } else if ev.Upstream? {
      UpstreamIs(s, ev, config);
      ReadArmed(s, ev.frame, k, config);
    } else {
      FailedArmed(k, s, ev, config);
    }
  }

  lemma UpstreamIs(s: State, ev: Session.Event, config: Config)
    requires Session.Enabled(s, ev) && ev.Upstream?
    ensures s.phase.active && Session.Step(s, ev, config) == Read(s, ev.frame, config)
  {
    hide Read;
  }

  // ----- over a run

  /** The process before event j. */
  ghost function At(s: State, evs: seq<Session.Event>, j: nat, config: Config): State
    requires j <= |evs|
  {
    Session.Run(s, evs[..j], config)
  }

  ghost predicate ArmedAt(k: Clock, s: State, evs: seq<Session.Event>, j: nat, config: Config)
  {
    j < |evs| && Session.Enabled(At(s, evs, j, config), evs[j]) && Arms(k, At(s, evs, j, config), evs[j], config)
  }

  ghost predicate StoppedAt(k: Clock, s: State, evs: seq<Session.Event>, j: nat, config: Config)
  {
    j < |evs| && Session.Enabled(At(s, evs, j, config), evs[j]) && Stops(k, At(s, evs, j, config), evs[j])
  }

  /** Nothing stopped it from event j on, up to event n. */
  ghost predicate Left(k: Clock, s: State, evs: seq<Session.Event>, j: nat, n: nat, config: Config)
  {
    forall m: nat :: j <= m < n ==> !StoppedAt(k, s, evs, m, config)
  }

  /** Armed by an event before n and left so since. */
  ghost predicate ArmedSince(k: Clock, s: State, evs: seq<Session.Event>, j: nat, n: nat, config: Config)
  {
    j < n && ArmedAt(k, s, evs, j, config) && Left(k, s, evs, j + 1, n, config)
  }

  lemma {:induction false} ArmedUpTo(k: Clock, s: State, evs: seq<Session.Event>, n: nat, config: Config)
    requires PhaseInv(s.phase) && n <= |evs|
    ensures PhaseInv(At(s, evs, n, config).phase)
    ensures Armed(At(s, evs, n, config).phase, k) <==>
      (exists j: nat :: ArmedSince(k, s, evs, j, n, config)) || (Armed(s.phase, k) && Left(k, s, evs, 0, n, config))
    decreases n
  {
    hide Session.Run, Session.Step, Session.Enabled, PhaseInv, Armed, Arms, Stops;
    if n == 0 {
      Nothing(s, evs, config);
    } else {
      var i := n - 1;
      ArmedUpTo(k, s, evs, i, config);
      var t, ev := At(s, evs, i, config), evs[i];
      assert evs[..n] == evs[..i] + [ev];
      Onward(s, evs[..i], ev, config);
      StepKeepsPhase(t, ev, config);
      hide At;
      if Session.Enabled(t, ev) {
        StepArmedIff(k, t, ev, config);
      } else {
        Session.Skipped(t, ev, config);
      }
      OneLater(k, s, evs, i, n, config);
    }
  }

  lemma Nothing(s: State, evs: seq<Session.Event>, config: Config)
    ensures At(s, evs, 0, config) == s
  {
    assert evs[..0] == [];
  }

  /** What holds up to event n, from what holds up to the one before. */
  lemma OneLater(k: Clock, s: State, evs: seq<Session.Event>, i: nat, n: nat, config: Config)
    requires n == i + 1
    ensures Left(k, s, evs, 0, n, config) <==> Left(k, s, evs, 0, i, config) && !StoppedAt(k, s, evs, i, config)
    ensures (exists j: nat :: ArmedSince(k, s, evs, j, n, config)) <==>
      || ArmedAt(k, s, evs, i, config)
      || ((exists j: nat :: ArmedSince(k, s, evs, j, i, config)) && !StoppedAt(k, s, evs, i, config))
  {
    hide ArmedAt, StoppedAt;
    if j: nat :| ArmedSince(k, s, evs, j, n, config) {
      assert j < i ==> ArmedSince(k, s, evs, j, i, config);
    }
    if ArmedAt(k, s, evs, i, config) {
      assert ArmedSince(k, s, evs, i, n, config);
    }
    if j: nat :| ArmedSince(k, s, evs, j, i, config) {
      assert !StoppedAt(k, s, evs, i, config) ==> ArmedSince(k, s, evs, j, n, config);
    }
  }

  /**
   * From gc_init, after any events: a timer is armed exactly if some event armed it and none since stopped it; the connect
   * timer also if nothing stopped it since the start.
   */
  lemma ArmedIff(k: Clock, slots: seq<Slot>, evs: seq<Session.Event>, config: Config)
    ensures Armed(Session.Run(Start(slots), evs, config).phase, k) <==>
      || (exists j: nat :: ArmedSince(k, Start(slots), evs, j, |evs|, config))
      || (k.Connect? && Left(k, Start(slots), evs, 0, |evs|, config))
  {
    hide Session.Run, ArmedSince, Left;
    assert evs[..|evs|] == evs;
    ArmedUpTo(k, Start(slots), evs, |evs|, config);
  }
}
