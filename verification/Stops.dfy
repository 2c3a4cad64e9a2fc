/** Runs of the process, from gc_init, at whose end stop() does what it should not. */
module Stops {
  import opened Bytes
  import opened Endpoints
  import opened HashTable
  import opened Headers
  import opened Locals
  import L = Locals
  import opened LocalRuns
  import opened Pairs
  import opened Ports
  import opened Process
  import opened Proto
  import opened Server
  import opened Session
  import opened SessionRuns
  import opened Wrappers

  /** The pair that answers a slot. */
  function PairFor(slot: Slot, pid: bytes): Pair
  {
    Pair(slot.cloud, pid, slot.device, SnItoa(slot.portLocal), SnItoa(slot.port), [])
  }

  predicate Usual(slot: Slot, pid: bytes)
  {
    && 0 < slot.portLocal < 10_000_000 && slot.pid == [] && pid != []
    && |slot.cloud| <= SNB_MAX && |slot.device| <= SNB_MAX && |pid| <= SNB_MAX
  }

  const CONNECTS := Attempt(3, -1, EINPROGRESS)

  /** Connect, and get a reply for the slot. */
  function Opening(slot: Slot, pid: bytes): seq<Session.Event>
  {
    [ConnectTimer(CONNECTS), Upstream(PairReply(OK, [(PairFor(slot, pid), Some(SnItoa(slot.portLocal)))]))]
  }

  /** What the slot's tunnel and its table look like then. */
  ghost predicate Open(s: State, slot: Slot, pid: bytes)
  {
    && Alive(s) && s.phase.active && !s.phase.sigterm && !s.phase.freed && s.phase.backlog == 0 && !s.phase.dangling
    && s.ends == NONE && s.pairs.slots == [slot.(pid := pid)]
    && s.pairs.locals == Linked(NOBODY, PairFor(slot, pid), true)
  }

  lemma PairIsFor(slot: Slot, pid: bytes)
    requires Usual(slot, pid)
    ensures var p := PairFor(slot, pid);
      Wanted(slot, p) && PairFits(p) && p.kind != FORCED && SnAtoi(p.portLocal, 32) != 0
    ensures SlotFor([slot], PairFor(slot, pid)) == 0
  {
    hide Itoa, Atoi;
    var n := slot.portLocal;
    PortSurvivesIff(n);
    assert Snprintf(8, SnItoa(n)) == SnItoa(n) && Snprintf(32, SnItoa(n)) == SnItoa(n);
    assert |FORCED| == 6;
  }

  lemma ReplyOpens(slot: Slot, pid: bytes, device: bytes)
    requires Usual(slot, pid)
    ensures Replied(Pairs([slot], NOBODY), PairFor(slot, pid), SnItoa(slot.portLocal), device)
      == Pairs([slot.(pid := pid)], Linked(NOBODY, PairFor(slot, pid), true))
  {
    hide SlotFor, SnItoa, SnAtoi, FORCED, Wanted, PairFits;
    PairIsFor(slot, pid);
    assert NOBODY.out + [] == NOBODY.out;
    assert [slot][0 := slot.(pid := pid)] == [slot.(pid := pid)];
  }

  lemma OneReply(s: State, pair: Pair, local: Option<bytes>, config: Config)
    requires Alive(s)
    ensures PairsReplied(s, [(pair, local)], config) == PairReplied(s, pair, local, config)
  {
    hide PairReplied;
    assert [(pair, local)][1..] == [];
    assert PairsReplied(PairReplied(s, pair, local, config), [], config) == PairReplied(s, pair, local, config);
  }

  lemma ReplyRead(s: State, slot: Slot, pid: bytes, config: Config)
    requires Usual(slot, pid) && Alive(s) && s.phase.active && !s.phase.sigterm && !s.phase.freed && !s.phase.dangling
    requires s.phase.backlog == 0 && s.ends == NONE && s.pairs == Pairs([slot], NOBODY)
    ensures Open(Read(s, PairReply(OK, [(PairFor(slot, pid), Some(SnItoa(slot.portLocal)))]), config), slot, pid)
  {
    hide Replied, OK, OK_REGISTERED, FORCED, PairFor, SnItoa, Linked, Looks;
    var t := s.(phase := s.phase.(hang := true));
    PairIsFor(slot, pid);
    ReplyOpens(slot, pid, config.device);
    OneReply(t, PairFor(slot, pid), Some(SnItoa(slot.portLocal)), config);
    LinkedIs(PairFor(slot, pid));
  }

  lemma LinkedIs(pair: Pair)
    ensures var l := Linked(NOBODY, pair, true); l.fate.Running? && l.out == [] && l.closed == 0
  {
  }

  lemma Opens(slot: Slot, pid: bytes, config: Config)
    requires Usual(slot, pid)
    ensures Open(Session.Run(Start([slot]), Opening(slot, pid), config), slot, pid)
  {
    hide Read, Open, Usual, PairFor, SnItoa, OK, Session.Run;
    var a := Session.Step(Start([slot]), ConnectTimer(CONNECTS), config);
    var reply := Upstream(PairReply(OK, [(PairFor(slot, pid), Some(SnItoa(slot.portLocal)))]));
    assert [] + [ConnectTimer(CONNECTS)] == [ConnectTimer(CONNECTS)];
    assert [ConnectTimer(CONNECTS)] + [reply] == Opening(slot, pid);
    NoEvent(Start([slot]), config);
    Onward(Start([slot]), [], ConnectTimer(CONNECTS), config);
    Onward(Start([slot]), [ConnectTimer(CONNECTS)], reply, config);
    ReplyRead(a, slot, pid, config);
  }

  lemma NoEvent(s: State, config: Config)
    ensures Session.Run(s, [], config) == s
  {
  }

  // ----- a slot stays paired

  lemma LastReplyArms(s: State, config: Config)
    requires Alive(s) && s.phase.active && !s.phase.sigterm
    ensures Session.Step(s, Upstream(LastReply), config) == s.(phase := s.phase.(hang := true, shutdown := true))
    ensures Session.Enabled(Session.Step(s, Upstream(LastReply), config), ShutdownTimer)
  {
  }

  lemma StopIs(s: State, config: Config)
    requires Session.Enabled(s, ShutdownTimer)
    ensures Session.Step(s, ShutdownTimer, config) == Ended(s, config)
  {
    hide Ended, Alive;
  }

  /** Then the process is told to end: the slot keeps the pid, and there is no tunnel. */
  lemma StopUnpairs(slot: Slot, pid: bytes, config: Config)
    requires Usual(slot, pid)
    ensures var s := Session.Run(Start([slot]), Opening(slot, pid) + [Upstream(LastReply), ShutdownTimer], config);
      s.pairs.slots == [slot.(pid := pid)] && s.pairs.locals.tunnels == [] && !InStep(s)
  {
    hide Session.Run, Session.Step, Session.Enabled, Ended, Opening, InStep, Linked;
    Opens(slot, pid, config);
    var s := Session.Run(Start([slot]), Opening(slot, pid), config);
    var evs := Opening(slot, pid) + [Upstream(LastReply)];
    Onward(Start([slot]), Opening(slot, pid), Upstream(LastReply), config);
    Onward(Start([slot]), evs, ShutdownTimer, config);
    assert evs + [ShutdownTimer] == Opening(slot, pid) + [Upstream(LastReply), ShutdownTimer];
    var t := Session.Step(s, Upstream(LastReply), config);
    LastReplyArms(s, config);
    StopIs(t, config);
    EndedPairs(t, config);
    EndedSends(t, config);
    EndedSlots(t, config);
    assert t.pairs.slots[0].pid == pid;
  }

  lemma EndedSlots(s: State, config: Config)
    ensures Ended(s, config).pairs.slots == s.pairs.slots
  {
    hide AllStopped, EveryStopped, Moved;
    ConsultedSame(s, true);
    var t := Consulted(s, true).(phase := Quiet(s.phase));
    MovedPairs(t, AllStopped(s.ends), s.pairs.(locals := EveryStopped(s.pairs.locals)), config);
  }

  // ----- a client of the tunnel

  /** Client 12 of the tunnel. */
  const TWELVE := LocalClient(0, 12, 0)

  function Accepting(slot: Slot, pid: bytes): seq<Session.Event>
  {
    Opening(slot, pid) + [LocalAccepted(0, 12), Upstream(LastReply)]
  }

  ghost predicate Joined(s: State)
  {
    && Sound(s) && s.phase.active && !s.phase.sigterm && !s.phase.freed && s.phase.backlog == 0 && s.phase.shutdown
    && Alive(s) && s.pairs.locals.live == {TWELVE} && AnyClient(s.pairs.locals.tunnels)
    && s.pairs.locals.tunnels != [] && s.pairs.locals.tunnels[0].id == 0
  }

  lemma AcceptJoins(pair: Pair)
    ensures var l := Linked(NOBODY, pair, true);
      && Accepted(l, 0, 12).live == {TWELVE} && AnyClient(Accepted(l, 0, 12).tunnels)
      && Accepted(l, 0, 12).out == [] && Accepted(l, 0, 12).closed == 0 && Accepted(l, 0, 12).fate.Running?
      && |Accepted(l, 0, 12).tunnels| == 1 && Accepted(l, 0, 12).tunnels[0].id == 0
  {
    hide WithClient, Heads, EmptyTable;
    var l := Linked(NOBODY, pair, true);
    LoneHead(TWELVE);
    var t := Accepted(l, 0, 12).tunnels[0];
    assert t in Accepted(l, 0, 12).tunnels && t.clients == Some(WithClient(EmptyTable(), TWELVE));
    assert TWELVE in Members(Heads(t.clients.value, HT_MAX));
  }

  lemma JoinStep(s: State, slot: Slot, pid: bytes, config: Config)
    requires Open(s, slot, pid) && Sound(s)
    ensures var t := Session.Step(s, LocalAccepted(0, 12), config);
      && t == s.(pairs := s.pairs.(locals := Accepted(s.pairs.locals, 0, 12)))
      && Sound(t)
  {
    hide Accepted, Linked, PairFor, Sound;
    AcceptJoins(PairFor(slot, pid));
    LinkedIs(PairFor(slot, pid));
    NobodyYet(PairFor(slot, pid));
    StepKeepsSound(s, LocalAccepted(0, 12), config);
  }

  lemma NobodyYet(pair: Pair)
    ensures Linked(NOBODY, pair, true).live == {}
  {
  }

  lemma OpeningSound(slot: Slot, pid: bytes, config: Config)
    requires Usual(slot, pid)
    ensures Sound(Session.Run(Start([slot]), Opening(slot, pid), config))
  {
    hide Session.Run, Session.Step, Sound, Usual, PairFor, SnItoa, OK;
    var reply := Upstream(PairReply(OK, [(PairFor(slot, pid), Some(SnItoa(slot.portLocal)))]));
    assert [] + [ConnectTimer(CONNECTS)] == [ConnectTimer(CONNECTS)];
    assert [ConnectTimer(CONNECTS)] + [reply] == Opening(slot, pid);
    NoEvent(Start([slot]), config);
    Onward(Start([slot]), [], ConnectTimer(CONNECTS), config);
    Onward(Start([slot]), [ConnectTimer(CONNECTS)], reply, config);
    StartSound([slot]);
    StepKeepsSound(Start([slot]), ConnectTimer(CONNECTS), config);
    StepKeepsSound(Session.Step(Start([slot]), ConnectTimer(CONNECTS), config), reply, config);
  }

  lemma Joins(slot: Slot, pid: bytes, config: Config)
    requires Usual(slot, pid)
    ensures Joined(Session.Run(Start([slot]), Accepting(slot, pid), config))
  {
    hide Session.Run, Session.Step, Opening, Linked, Accepted, PairFor, Usual, AnyClient, Sound;
    Opens(slot, pid, config);
    OpeningSound(slot, pid, config);
    var s := Session.Run(Start([slot]), Opening(slot, pid), config);
    var evs := Opening(slot, pid) + [LocalAccepted(0, 12)];
    Onward(Start([slot]), Opening(slot, pid), LocalAccepted(0, 12), config);
    Onward(Start([slot]), evs, Upstream(LastReply), config);
    assert evs + [Upstream(LastReply)] == Accepting(slot, pid);
    JoinStep(s, slot, pid, config);
    AcceptJoins(PairFor(slot, pid));
    var t := Session.Step(s, LocalAccepted(0, 12), config);
    LastReplyArms(t, config);
    StepKeepsSound(t, Upstream(LastReply), config);
  }

  /** The client's notice wakes the upstream that stop() shut down: the process connects again. */
  lemma StopReconnects(slot: Slot, pid: bytes, config: Config)
    requires Usual(slot, pid)
    ensures Session.Run(Start([slot]), Accepting(slot, pid) + [ShutdownTimer] + Wakes(), config).phase.active
  {
    hide Session.Run, Session.Step, Session.Enabled, Sound, AnyClient, Accepting, Ended, Usual;
    Joins(slot, pid, config);
    var s := Session.Run(Start([slot]), Accepting(slot, pid), config);
    Onward(Start([slot]), Accepting(slot, pid), ShutdownTimer, config);
    TimerReady(s);
    EndedStraysIff(s, config);
    StopIs(s, config);
    EndedSends(s, config);
    SoundPhase(s);
    EndedPhase(s, config);
    WakesUp(Ended(s, config), config);
    RunSplits(Start([slot]), Accepting(slot, pid) + [ShutdownTimer], Wakes(), config);
  }

  lemma TimerReady(s: State)
    requires Joined(s)
    ensures Session.Enabled(s, ShutdownTimer)
  {
  }

  lemma SoundPhase(s: State)
    requires Sound(s)
    ensures PhaseInv(s.phase)
  {
  }

  lemma {:induction false} RunSplits(s: State, evs: seq<Session.Event>, more: seq<Session.Event>, config: Config)
    ensures Session.Run(s, evs + more, config) == Session.Run(Session.Run(s, evs, config), more, config)
    decreases |evs|
  {
    hide Session.Step;
    if evs == [] {
      assert evs + more == more;
    } else {
      assert (evs + more)[1..] == evs[1..] + more;
      RunSplits(Session.Step(s, evs[0], config), evs[1..], more, config);
    }
  }

  /** With clientterm stop() comes again, and frees the configuration twice. */
  lemma StopFreesTwice(slot: Slot, pid: bytes, config: Config)
    requires Usual(slot, pid) && config.clientterm
    ensures Session.Run(Start([slot]), Accepting(slot, pid) + [ShutdownTimer, ShutdownTimer], config).fate == Strayed
  {
    hide Session.Run, Session.Step, Session.Enabled, Sound, AnyClient, Accepting, Ended, Usual;
    Joins(slot, pid, config);
    var evs := Accepting(slot, pid) + [ShutdownTimer];
    var s := Session.Run(Start([slot]), Accepting(slot, pid), config);
    Onward(Start([slot]), Accepting(slot, pid), ShutdownTimer, config);
    Onward(Start([slot]), evs, ShutdownTimer, config);
    assert evs + [ShutdownTimer] == Accepting(slot, pid) + [ShutdownTimer, ShutdownTimer];
    TimerReady(s);
    EndedStraysIff(s, config);
    StopIs(s, config);
    StopFrees(s, config);
    Rearmed(s, config);
    SecondStop(Session.Step(s, ShutdownTimer, config), config);
  }

  lemma Rearmed(s: State, config: Config)
    requires Joined(s) && config.clientterm && Alive(Ended(s, config))
    ensures Session.Enabled(Ended(s, config), ShutdownTimer)
  {
    hide AllStopped, EveryStopped, Ended, AnyClient, L.Inv;
    EndedShutdown(s, config);
    StoppedLocals(s.pairs.locals);
  }

  /** With a request of the client still queued, stop() appends its notice behind freed slots. */
  lemma StopStrays(slot: Slot, pid: bytes, buf: bytes, config: Config)
    requires Usual(slot, pid)
    ensures var s := Session.Run(Start([slot]), Accepting(slot, pid) + [LocalData(TWELVE, buf), ShutdownTimer], config);
      s.fate == Strayed
  {
    hide Session.Run, Session.Step, Session.Enabled, Sound, AnyClient, Accepting, Ended, Usual;
    Joins(slot, pid, config);
    var evs := Accepting(slot, pid) + [LocalData(TWELVE, buf)];
    var s := Session.Run(Start([slot]), Accepting(slot, pid), config);
    Onward(Start([slot]), Accepting(slot, pid), LocalData(TWELVE, buf), config);
    Onward(Start([slot]), evs, ShutdownTimer, config);
    assert evs + [ShutdownTimer] == Accepting(slot, pid) + [LocalData(TWELVE, buf), ShutdownTimer];
    DataQueues(s, buf, config);
    var t := Session.Step(s, LocalData(TWELVE, buf), config);
    StepKeepsSound(s, LocalData(TWELVE, buf), config);
    StopIs(t, config);
    BehindFreed(t, config);
  }

  lemma DataQueues(s: State, buf: bytes, config: Config)
    requires Joined(s)
    ensures var t := Session.Step(s, LocalData(TWELVE, buf), config);
      && t.phase.backlog == 1 && t.phase.active && Alive(t) && Session.Enabled(t, ShutdownTimer)
      && t.pairs.locals.tunnels == s.pairs.locals.tunnels && TidyStep(s, LocalData(TWELVE, buf), config)
  {
    hide Sound, AnyClient, RequestHeader;
    SoundPhase(s);
  }

  lemma BehindFreed(s: State, config: Config)
    requires Sound(s) && Alive(s) && s.phase.active && s.phase.backlog > 0 && AnyClient(s.pairs.locals.tunnels)
    ensures Ended(s, config).fate == Strayed
  {
    hide AnyClient, AllStopped, EveryStopped, Moved, L.Inv, Endpoints.Inv, SamePhase;
    StoppedEnds(s.ends);
    StoppedLocals(s.pairs.locals);
    ConsultedSame(s, true);
    var t, pairs := Consulted(s, true).(phase := Quiet(s.phase)), s.pairs.(locals := EveryStopped(s.pairs.locals));
    MovedFate(t, AllStopped(s.ends), pairs, config);
  }
}
