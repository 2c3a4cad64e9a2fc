/** The handlers of src/gcapi.c over the lists they change, against the functions of module Session. */
module SessionClass {
  import opened Bytes
  import Codec
  import opened EndpointList
  import opened Endpoints
  import opened Headers
  import opened Inbox
  import opened Links
  import opened Locals
  import opened PairTable
  import opened Pairs
  import opened Ports
  import opened Process
  import opened Proto
  import opened Session
  import opened Tokens
  import opened Wrappers

  /** gc_s */
  class Gc {
    const config: Config
    const ends: EndpointList
    const table: PairTable
    var connectTimer: bool
    var pairTimer: bool
    var pingTimer: bool
    var hangTimer: bool
    var shutdownTimer: bool
    var sigterm: bool
    /** client.base.active */
    var active: bool
    var shutdowns: nat
    var backlog: nat
    var dangling: bool
    /** client.base.write is started */
    var writing: bool
    /** gc_config_free was called */
    var freed: bool
    var fate: Fate

    ghost predicate Valid()
      reads this, ends, ends.links, table, table.links
    {
      ends.Valid() && table.Valid() && ends.allowed == config.allowed && table.device == config.device
    }

    ghost function Timers(): Phase
      reads this`connectTimer, this`pairTimer, this`pingTimer, this`hangTimer, this`shutdownTimer, this`sigterm
      reads this`active, this`shutdowns, this`backlog, this`dangling, this`writing, this`freed
    {
      Phase(connectTimer, pairTimer, pingTimer, hangTimer, shutdownTimer, sigterm, active, shutdowns, backlog, dangling,
            writing, freed)
    }

    ghost function View(): State
      requires table.ntunnels <= table.slots.Length
      reads this, ends, table, table.slots
    {
      State(Timers(), ends.View(), table.View(), fate)
    }

    /** gc_init */
    constructor (config: Config, slots: seq<Slot>)
      requires |slots| <= GC_CFG_MAX_TUNNELS
      ensures Valid() && fresh(ends) && fresh(table) && fresh(table.slots) && View() == Start(slots)
    {
      this.config := config;
      ends := new EndpointList(config.allowed);
      table := new PairTable(slots, config.device);
      connectTimer, pairTimer, pingTimer, hangTimer, shutdownTimer := true, false, false, false, false;
      sigterm, active, shutdowns, backlog := false, false, 0, 0;
      dangling, writing, freed, fate := false, false, false, Running;
    }

    /** gc_force_stop */
    method ForceStop()
      modifies this`shutdownTimer
      ensures Timers() == old(Timers()).(shutdown := true)
    {
      shutdownTimer := true;
    }

    /** hang_reset */
    method HangReset()
      modifies this`hangTimer
      ensures Timers() == old(Timers()).(hang := true)
    {
      hangTimer := true;
    }

    /** state_changed */
    method StateChanged()
      modifies this`hangTimer, this`pingTimer, this`writing
      ensures Timers() == old(Timers()).(hang := true, ping := true, writing := old(Timers()).backlog > 0)
    {
      hangTimer, pingTimer, writing := true, true, backlog > 0;
    }

    /** What a call of async_write_ssl leaves queued. */
    method Wrote(left: nat)
      modifies this`backlog, this`writing
      ensures Timers() == old(Timers()).(backlog := left, writing := left > 0)
    {
      backlog, writing := left, left > 0;
    }

    /** libev, on a descriptor that is closed */
    method Unwatch()
      modifies this`writing
      ensures Timers() == old(Timers()).(writing := false) && sigterm == Timers().sigterm
    {
      writing := false;
    }

    /** sigh_terminate */
    method SighTerminate()
      modifies this`sigterm, this`shutdownTimer
      ensures Timers() == old(Timers()).(sigterm := true, shutdown := true)
    {
      sigterm := true;
      ForceStop();
    }

    /** n calls of gc_packet_send */
    method Append(n: int)
      requires table.ntunnels <= table.slots.Length
      modifies this`backlog, this`writing, this`fate
      ensures View() == Queued(old(View()), n)
    {
      if n > 0 {
        backlog, writing := backlog + n, true;
        if dangling {
          fate := Worse(fate, Strayed);
        }
      }
    }

    /** What the configuration points to is used. */
    method Consult(uses: bool)
      modifies this`fate
      ensures fate == if uses && Timers().freed then Worse(old(fate), Strayed) else old(fate)
    {
      if uses && freed {
        fate := Worse(fate, Strayed);
      }
    }

    /** A packet whose contents the configuration has. */
    method Ask()
      requires table.ntunnels <= table.slots.Length
      modifies this`backlog, this`writing, this`fate
      ensures View() == Queued(Consulted(old(View()), true), 1)
    {
      hide Queued, Timers;
      Consult(true);
      Append(1);
    }

    /** What the calls of gc_packet_send and async_client_shutdown in a handler do to the process. */
    method Settle(ghost s: State, endsClosed: nat, localsClosed: nat, sent: nat)
      requires Valid() && Timers() == s.phase && fate == s.fate
      requires endsClosed == s.ends.closed && localsClosed == s.pairs.locals.closed
      requires sent == |s.ends.out| + |s.pairs.locals.out|
      modifies this`shutdownTimer, this`backlog, this`writing, this`fate
      ensures View() == Moved(s, ends.View(), table.View(), config)
    {
      hide EndpointList.Valid, PairTable.Listed, Queued, Timers;
      if config.clientterm && (ends.closed > endsClosed || table.closed > localsClosed) {
        ForceStop();
      }
      Append(|ends.out| + |table.out| - sent);
    }

    /** async_client_ssl_shutdown and `active = 0`, if the client is active. */
    method ShutdownIfActive()
      modifies this`active, this`shutdowns, this`dangling, this`writing
      ensures Timers() == Inactive(old(Timers()))
    {
      if active {
        writing := false;
        shutdowns := shutdowns + 1;
        dangling := backlog > 0;
        active := false;
      }
    }

    /** What upstream_error does to the timers. */
    method Reset()
      modifies this`pairTimer, this`pingTimer, this`hangTimer, this`connectTimer
      modifies this`active, this`shutdowns, this`dangling, this`writing
      ensures Timers() == Inactive(old(Timers())).(pair := false, ping := false, hang := false, connect := true)
    {
      hide Timers;
      UpstreamTimersOff();
      ShutdownIfActive();
      ConnectAgain();
    }

    method UpstreamTimersOff()
      modifies this`pairTimer, this`pingTimer, this`hangTimer
      ensures Timers() == old(Timers()).(pair := false, ping := false, hang := false)
    {
      pairTimer, pingTimer, hangTimer := false, false, false;
    }

    method ConnectAgain()
      modifies this`connectTimer
      ensures Timers() == old(Timers()).(connect := true)
    {
      connectTimer := true;
    }

    method UpstreamError()
      requires Valid()
      modifies this, ends, table, table.slots, table.links
      ensures Valid() && View() == UpstreamErrored(old(View()), config) && ends.links == [] && table.links == []
    {
      hide AllStopped, SlotsOffline, EveryStopped, Moved, EndpointList.Valid, PairTable.Listed, Inactive, Timers;
      var c, d, n := ends.closed, table.closed, |ends.out| + |table.out|;
      var _ := table.PairsOffline([]);
      table.GcTunnelStopAll();
      ends.StopAll();
      Settle(old(View()), c, d, n);
      ghost var m := View();
      assert m == Moved(old(View()), AllStopped(old(View()).ends), Cleared(old(View()).pairs), config);
      Reset();
      assert View() == m.(phase := Timers());
    }

    /** upstream_connect and async_client_ssl */
    method UpstreamConnect(a: Attempt)
      modifies this`connectTimer, this`active, this`shutdowns, this`backlog, this`dangling, this`writing
      ensures Timers() == Connected(old(Timers()), a)
    {
      connectTimer := false;
      active, shutdowns, backlog, dangling, writing := false, 0, 0, false, false;
      if a.socket == -1 {
        return;
      }
      if a.ret != -1 && a.errno != EINPROGRESS && a.errno != EINTR {
        shutdowns := shutdowns + 1;
        return;
      }
      active := true;
    }

    /** stop, up to gc_upstream_force_stop */
    method Calm()
      modifies this`pairTimer, this`pingTimer, this`hangTimer, this`connectTimer, this`shutdownTimer
      modifies this`active, this`shutdowns, this`dangling, this`writing, this`freed
      ensures Timers() == Quiet(old(Timers()))
    {
      hide Timers;
      UpstreamTimersOff();
      ConfigFree();
      ShutdownIfActive();
    }

    /** gc_config_free, and the timers besides those of the session */
    method ConfigFree()
      modifies this`shutdownTimer, this`connectTimer, this`freed
      ensures Timers() == old(Timers()).(shutdown := false, connect := false, freed := true)
    {
      shutdownTimer, connectTimer, freed := false, false, true;
    }

    method Stop()
      requires Valid()
      modifies this, ends, table, table.links
      ensures Valid() && View() == Ended(old(View()), config) && ends.links == [] && table.links == []
    {
      hide AllStopped, EveryStopped, Moved, EndpointList.Valid, PairTable.Listed, Quiet, Timers;
      var c, d, n := ends.closed, table.closed, |ends.out| + |table.out|;
      Consult(true);
      Calm();
      ghost var s := View();
      assert s == Consulted(old(View()), true).(phase := Quiet(old(View()).phase));
      table.GcTunnelStopAll();
      ends.StopAll();
      Settle(s, c, d, n);
    }

    /** ev_timer_again(gc->loop, &gc->config.pair_timer) */
    method PairAgain()
      modifies this`pairTimer
      ensures Timers() == old(Timers()).(pair := true)
    {
      pairTimer := true;
    }

    method ClientLogged(error: bytes)
      requires Valid()
      modifies this
      ensures View() == LoggedIn(old(View()), error, config)
    {
      hide Queued, OK, OK_REGISTERED, Timers, EndpointList.Valid, PairTable.Listed;
      if error == OK {
        Consult(true);
        if config.traffic {
          Append(1);
        } else {
          PairAgain();
        }
      } else if error != OK_REGISTERED {
        ForceStop();
      }
    }

    /** What an offline notice does to the lists; `logged` if it named a slot. */
    method ListsOffline(address: bytes) returns (logged: bool)
      requires Valid()
      modifies ends, ends.links, table, table.slots, table.links
      ensures Valid() && logged == Marks(old(table.Slots()), address)
      ensures ends.View() == Stopped(old(ends.View()), address) && table.View() == Offline(old(table.View()), address)
      ensures Members(ends.links) <= Members(old(ends.links)) && Members(table.links) <= Members(old(table.links))
    {
      hide SlotsOffline, Stopped, PidStopped, EndpointList.Valid, PairTable.Listed, Members, Marks, Timers;
      logged := table.PairsOffline(address);
      ends.Stop(address);
      table.GcTunnelStop(address);
    }

    method CloudOffline(address: bytes)
      requires Valid()
      modifies this, ends, ends.links, table, table.slots, table.links
      ensures Valid() && View() == WentOffline(old(View()), address, config)
      ensures Members(ends.links) <= Members(old(ends.links)) && Members(table.links) <= Members(old(table.links))
    {
      hide Offline, Stopped, Moved, EndpointList.Valid, PairTable.Listed, Members, Marks, Timers;
      var c, d, n := ends.closed, table.closed, |ends.out| + |table.out|;
      var logged := ListsOffline(address);
      Consult(logged);
      Settle(Consulted(old(View()), logged), c, d, n);
    }

    /** device_pair_reply and what follows from it for the process. */
    method PairReplied(pair: Pair, local: Option<bytes>)
      requires Valid()
      modifies this, table, table.slots
      ensures Valid() && View() == Session.PairReplied(old(View()), pair, local, config)
      ensures fresh(Members(table.links) - Members(old(table.links)))
    {
      hide Replied, Moved, FORCED, EndpointList.Valid, PairTable.Listed, Members, SnAtoi, PairFits, Timers;
      var c, d, n := ends.closed, table.closed, |ends.out| + |table.out|;
      var ok := table.DevicePairReply(pair, local);
      if ok {
        Consult(pair.kind != FORCED && (SnAtoi(pair.portLocal, 32) == 0 || (table.ntunnels > 0 && PairFits(pair))));
        Settle(Consulted(old(View()), Looks(old(View()).pairs.slots, pair)), c, d, n);
      } else {
        ForceStop();
      }
    }

    /** The loop over the pairs of a DEVICE_PAIR_REPLY. */
    method PairReplies(replies: seq<(Pair, Option<bytes>)>)
      requires Valid()
      modifies this, table, table.slots
      ensures Valid() && View() == PairsReplied(old(View()), replies, config)
      ensures fresh(Members(table.links) - Members(old(table.links)))
    {
      hide Session.PairReplied, EndpointList.Valid, PairTable.Listed, Timers;
      var i := 0;
      assert replies[0..] == replies;
      while i < |replies| && table.fate.Running? && fate.Running? && ends.fate.Running?
        invariant 0 <= i <= |replies| && Valid()
        invariant PairsReplied(View(), replies[i..], config) == PairsReplied(old(View()), replies, config)
        invariant unchanged(ends) && fresh(Members(table.links) - Members(old(table.links)))
      {
        assert replies[i..][1..] == replies[i + 1..] && replies[i..][0] == replies[i];
        PairReplied(replies[i].0, replies[i].1);
        i := i + 1;
      }
    }

    /** gc_endpoint_request */
    method EndpointRequest(f: Frame)
      requires Valid() && f.MessageFrom? && |f.argv| == 4
      modifies this, ends, ends.links
      ensures Valid() && fresh(Members(ends.links) - Members(old(ends.links)))
      ensures var s := old(View());
        var r := Requested(s.ends, config.allowed, f.device, f.address, f.argv[1], f.argv[2], f.body, f.attempt);
        View() == Moved(s, r, s.pairs, config)
    {
      hide Requested, Moved, EndpointList.Valid, PairTable.Listed, Members, Timers;
      var c, d, n := ends.closed, table.closed, |ends.out| + |table.out|;
      ends.Request(f.device, f.address, f.argv[1], f.argv[2], f.body, f.attempt);
      Settle(old(View()), c, d, n);
    }

    method EndpointStop(address: bytes)
      requires Valid()
      modifies this, ends, ends.links
      ensures Valid() && Members(ends.links) <= Members(old(ends.links))
      ensures View() == Moved(old(View()), Stopped(old(View()).ends, address), old(View()).pairs, config)
    {
      hide Stopped, Moved, EndpointList.Valid, PairTable.Listed, Members, Timers;
      var c, d, n := ends.closed, table.closed, |ends.out| + |table.out|;
      ends.Stop(address);
      Settle(old(View()), c, d, n);
    }

    /** gc_tunnel_response and gc_tunnel_update */
    method TunnelMessage(f: Frame, response: bool)
      requires Valid() && f.MessageFrom? && (response ==> |f.argv| == 3)
      modifies this, table, table.links
      ensures Valid() && table.links == old(table.links)
      ensures var l := old(View()).pairs.locals;
        var r := if response then Responded(l, f.argv[1], f.argv[2], f.body) else Renamed(l, f.argv);
        View() == MovedLocals(old(View()), r, config)
    {
      hide Responded, Renamed, Moved, EndpointList.Valid, PairTable.Listed, Members, Timers;
      var c, d, n := ends.closed, table.closed, |ends.out| + |table.out|;
      if response {
        var _ := table.GcTunnelResponse(f.argv, f.body);
      } else {
        var _ := table.GcTunnelUpdate(f.argv);
      }
      Settle(old(View()), c, d, n);
    }

    /** message_from with argv */
    method Tell(f: Frame)
      requires Valid() && f.MessageFrom?
      modifies this, ends, ends.links, table, table.links
      ensures Valid() && View() == Told(old(View()), f, config)
      ensures fresh(Members(ends.links) - Members(old(ends.links))) && table.links == old(table.links)
    {
      hide Requested, Stopped, Renamed, Dispatch, Responded, Moved, EndpointList.Valid, PairTable.Listed, Timers;
      if f.argv == [] {
        return;
      }
      match Dispatch(f.argv[0])
      case EndpointRequest =>
        if |f.argv| == 4 {
          EndpointRequest(f);
        }
      case TunnelResponse =>
        if |f.argv| == 3 {
          TunnelMessage(f, true);
        }
      case TunnelUpdate => TunnelMessage(f, false);
      case EndpointStop => EndpointStop(f.address);
      case Abort => fate := Aborted;
    }

    /** message_from */
    method MessageFrom(buffer: array<byte>, p: Msg<Slice>, g: Given)
      requires Valid() && buffer.Length <= INT_MAX
      requires Parse(buffer[..]) == Got(p) && p.MessageFrom? && AllInside(buffer[..], Fields(p))
      modifies this, ends, ends.links, table, table.links, buffer
      ensures Valid() && fresh(Members(ends.links) - Members(old(ends.links))) && table.links == old(table.links)
      ensures match ToFrame(old(buffer[..]), g)
        case Some(f) =>
          View() == if f.MessageFrom? then Told(old(View()), f, config) else old(View()).(fate := Strayed)
        case None => false
    {
      hide Told, EndpointList.Valid, PairTable.Listed, ToFrame, Parse, Timers;
      var f := CutMessage(buffer, p, g);
      if f.MessageFrom? {
        Tell(f);
      } else {
        fate := Strayed;
      }
    }

    /** callback_data behind gc_deserialize, of a message that leaves the lists alone. */
    method Reply(f: Frame)
      requires Valid() && !f.MessageFrom? && !f.OfflineSet? && (f.PairReply? ==> f.error != OK)
      modifies this
      ensures View() == Read(old(View()), f, config)
    {
      hide Told, PairsReplied, WentOffline, LoggedIn, OK, EndpointList.Valid, PairTable.Listed, Timers;
      HangReset();
      if f.LoginReply? {
        ClientLogged(f.error);
      } else if f.LastReply? {
        ForceStop();
      } else if f.Stray? {
        fate := Strayed;
      }
    }

    /** callback_data behind gc_deserialize and gc_parse_delimiter */
    method Handle(f: Frame)
      requires Valid()
      modifies this, ends, ends.links, table, table.slots, table.links
      ensures Valid() && View() == Read(old(View()), f, config)
      ensures fresh(Members(ends.links) - Members(old(ends.links)))
      ensures fresh(Members(table.links) - Members(old(table.links)))
    {
      hide Told, PairsReplied, WentOffline, LoggedIn, OK, EndpointList.Valid, PairTable.Listed, Timers;
      if f.MessageFrom? {
        HangReset();
        Tell(f);
      } else if f.PairReply? && f.error == OK {
        HangReset();
        PairReplies(f.replies);
      } else if f.OfflineSet? {
        HangReset();
        CloudOffline(f.address);
      } else {
        Reply(f);
      }
    }

    /** hang_reset, then message_from. */
    method Heard(buffer: array<byte>, p: Msg<Slice>, g: Given)
      requires Valid() && buffer.Length <= INT_MAX
      requires Parse(buffer[..]) == Got(p) && p.MessageFrom? && AllInside(buffer[..], Fields(p))
      modifies this, ends, ends.links, table, table.links, buffer
      ensures Valid()
      ensures match ToFrame(old(buffer[..]), g)
        case Some(f) => View() == Read(old(View()), f, config)
        case None => false
    {
      hide Read, Told, EndpointList.Valid, PairTable.Listed, Members, Parse, ToFrame, Timers, AllInside;
      ghost var was := buffer[..];
      HangReset();
      MessageFrom(buffer, p, g);
      TellIs(old(View()), was, g, config);
    }

    /** callback_data, of a frame behind its length word: gc_deserialize, and the handler of the message in the buffer. */
    method CallbackData(buffer: array<byte>, g: Given)
      requires Valid() && buffer.Length <= INT_MAX
      modifies this, ends, ends.links, table, table.slots, table.links, buffer
      ensures Valid() && View() == match ToFrame(old(buffer[..]), g)
        case None => old(View())
        case Some(f) => Read(old(View()), f, config)
    {
      hide Read, EndpointList.Valid, PairTable.Listed, Members, Timers;
      hide Parse, Contents, FrameWith, Strings, CutAt, Starts, Text;
      var src := new Codec.Sn.Over(buffer);
      var p := Codec.Deserialize(src);
      if p.Failed? {
        return;
      }
      if p.Got? && AllInside(buffer[..], Fields(p.value)) {
        if p.value.MessageFrom? {
          Heard(buffer, p.value, g);
        } else {
          Handle(FrameWith(Contents(buffer[..], p.value), [], g));
        }
      } else {
        Handle(Frame.Stray);
      }
    }

    /** devices_pair */
    method DevicesPair() returns (requests: seq<Msg<bytes>>)
      requires Valid()
      modifies this`backlog, this`writing, this`fate
      ensures requests == PairRequests(old(View()).pairs.slots)
      ensures View() == PairsAsked(old(View()))
    {
      hide EndpointList.Valid, PairTable.Listed, Queued, SnItoa, Consulted, Timers, PairRequests;
      ghost var slots := table.slots[..table.ntunnels];
      requests := [];
      NothingAsked(View());
      PairRequestsNone(slots, |slots|, []);
      for i := 0 to table.ntunnels
        invariant View() == Queued(Consulted(old(View()), requests != []), |requests|)
        invariant requests + PairRequests(slots[i..]) == PairRequests(slots)
      {
        PairRequestsStep(slots, i, requests);
        var t := table.slots[i];
        if |t.pid| == 0 {
          Ask();
          OneMoreAsked(old(View()), |requests|);
          requests := requests + [DevicePair(t.cloud, t.device, SnItoa(t.portLocal), SnItoa(t.port))];
        }
      }
      PairRequestsNone(slots, |slots|, requests);
    }

    /** Whether libev runs the callback, and the callback does not return at once after SIGTERM. */
    method Ready(ev: Session.Event) returns (b: bool)
      requires Valid()
      ensures b == Session.Enabled(View(), ev)
    {
      hide EndpointList.Valid, PairTable.Listed;
      b := ends.fate.Running? && table.fate.Running? && fate.Running?;
      if b && (ev.ConnectTimer? || ev.HangTimer? || ev.PingTimer? || ev.PairTimer? || ev.ShutdownTimer?) {
        b := (ev.ConnectTimer? && connectTimer) || (ev.HangTimer? && hangTimer) || (ev.PingTimer? && pingTimer)
          || (ev.PairTimer? && pairTimer) || (ev.ShutdownTimer? && shutdownTimer);
      } else if b && ev.Handshaken? {
        b := active;
      } else if b && ev.WriteClosed? {
        b := writing && !active;
      } else if b {
        b := !sigterm;
        if ev.UpstreamFailed? || ev.Upstream? {
          b := b && active;
        } else if ev.UpstreamWrote? {
          b := b && active && writing && ev.left < backlog;
        } else if ev.EndpointData? || ev.EndpointFailed? {
          b := b && ev.endpoint in ends.open;
        } else if ev.LocalAccepted? {
          b := b && forall c :: c in table.live ==> c.fd != ev.descriptor;
        } else if ev.LocalData? || ev.LocalFailed? {
          b := b && ev.client in table.live;
        }
      }
    }

    /** What the sockets of endpoints bring. */
    method EndpointEvent(ev: Session.Event)
      requires Valid() && Session.Enabled(View(), ev) && (ev.EndpointData? || ev.EndpointFailed?)
      modifies this, ends, ends.links
      ensures Valid() && View() == Session.Step(old(View()), ev, config)
      ensures Members(ends.links) <= Members(old(ends.links))
    {
      hide Received, ClientErrored, Moved, EndpointList.Valid, PairTable.Listed, Members, Session.Enabled, Timers;
      var c, d, n := ends.closed, table.closed, |ends.out| + |table.out|;
      if ev.EndpointData? {
        ends.Recv(ev.endpoint, ev.buf);
      } else {
        ends.Error(ev.endpoint);
      }
      Settle(old(View()), c, d, n);
    }

    /** What the sockets of tunnels and of their clients bring. */
    method LocalEvent(ev: Session.Event)
      requires Valid() && Session.Enabled(View(), ev) && (ev.LocalAccepted? || ev.LocalData? || ev.LocalFailed?)
      modifies this, table, table.links
      ensures Valid() && View() == Session.Step(old(View()), ev, config) && table.links == old(table.links)
    {
      hide Moved, Session.Enabled, Session.Step, EndpointList.Valid, PairTable.Listed, AtTunnels, Timers;
      var c, d, n := ends.closed, table.closed, |ends.out| + |table.out|;
      Tunnels(ev);
      Settle(old(View()), c, d, n);
      LocalStep(old(View()), ev, config);
    }

    method Tunnels(ev: Session.Event)
      requires table.Valid() && (ev.LocalAccepted? || ev.LocalData? || ev.LocalFailed?)
      modifies table, table.links
      ensures table.Valid() && table.Local() == AtTunnels(old(table.Local()), ev) && table.links == old(table.links)
      ensures table.tunnels == old(table.tunnels)
    {
      hide Accepted, Asked, HungUp, PairTable.Listed;
      if ev.LocalAccepted? {
        table.ServerAsyncClient(ev.id, ev.descriptor);
      } else if ev.LocalData? {
        table.ClientData(ev.client, ev.buf);
      } else {
        table.ClientError(ev.client);
      }
    }

    /** What the timers, and signals, bring. */
    method TimerEvent(ev: Session.Event)
      requires Valid() && Session.Enabled(View(), ev)
      requires ev.ConnectTimer? || ev.HangTimer? || ev.PingTimer? || ev.PairTimer? || ev.ShutdownTimer? || ev.Signal?
      modifies this, ends, table, table.slots, table.links
      ensures Valid() && View() == Session.Step(old(View()), ev, config)
      ensures Members(ends.links) <= Members(old(ends.links)) && Members(table.links) <= Members(old(table.links))
    {
      hide Ended, UpstreamErrored, Connected, Queued, Session.Enabled, PairsAsked;
      hide EndpointList.Valid, PairTable.Listed, Timers;
      if ev.ConnectTimer? {
        UpstreamConnect(ev.attempt);
      } else if ev.HangTimer? {
        UpstreamError();
      } else if ev.PingTimer? {
        Append(1);
      } else if ev.PairTimer? {
        var _ := DevicesPair();
      } else if ev.ShutdownTimer? {
        Stop();
      } else {
        SighTerminate();
      }
    }

    /** What the upstream's socket brings. */
    method UpstreamEvent(ev: Session.Event)
      requires Valid() && Session.Enabled(View(), ev)
      requires ev.Handshaken? || ev.UpstreamFailed? || ev.UpstreamWrote? || ev.WriteClosed? || ev.Upstream?
      modifies this, ends, ends.links, table, table.slots, table.links
      ensures Valid() && View() == Session.Step(old(View()), ev, config)
      ensures fresh(Members(ends.links) - Members(old(ends.links)))
      ensures fresh(Members(table.links) - Members(old(table.links)))
    {
      hide Read, UpstreamErrored, EndpointList.Valid, PairTable.Listed, Session.Enabled, Timers;
      if ev.Handshaken? {
        StateChanged();
      } else if ev.UpstreamFailed? {
        UpstreamError();
      } else if ev.UpstreamWrote? {
        Wrote(ev.left);
      } else if ev.WriteClosed? {
        Unwatch();
        if !sigterm {
          UpstreamError();
        }
      } else {
        Handle(ev.frame);
      }
    }

    /** One turn of the event loop. */
    method Turn(ev: Session.Event)
      requires Valid()
      modifies this, ends, ends.links, table, table.slots, table.links
      ensures Valid() && View() == Session.Step(old(View()), ev, config)
      ensures fresh(Members(ends.links) - Members(old(ends.links)))
      ensures fresh(Members(table.links) - Members(old(table.links)))
    {
      hide Session.Step, Session.Enabled, EndpointList.Valid, PairTable.Listed, Timers;
      var ready := Ready(ev);
      if !ready {
        NotReady(View(), ev, config);
      } else if ev.EndpointData? || ev.EndpointFailed? {
        EndpointEvent(ev);
      } else if ev.LocalAccepted? || ev.LocalData? || ev.LocalFailed? {
        LocalEvent(ev);
      } else if ev.Handshaken? || ev.UpstreamFailed? || ev.UpstreamWrote? || ev.WriteClosed? || ev.Upstream? {
        UpstreamEvent(ev);
      } else {
        TimerEvent(ev);
      }
    }
  }

  function AtTunnels(l: Locals, ev: Session.Event): Locals
    requires ev.LocalAccepted? || ev.LocalData? || ev.LocalFailed?
  {
    if ev.LocalAccepted? then Accepted(l, ev.id, ev.descriptor)
    else if ev.LocalData? then Asked(l, ev.client, ev.buf)
    else HungUp(l, ev.client)
  }

  lemma LocalStep(s: State, ev: Session.Event, config: Config)
    requires Session.Enabled(s, ev) && (ev.LocalAccepted? || ev.LocalData? || ev.LocalFailed?)
    ensures Session.Step(s, ev, config) == Moved(s, s.ends, s.pairs.(locals := AtTunnels(s.pairs.locals, ev)), config)
  {
    hide Moved, Accepted, Asked, HungUp, Session.Enabled;
  }

  lemma NotReady(s: State, ev: Session.Event, config: Config)
    requires !Session.Enabled(s, ev)
    ensures Session.Step(s, ev, config) == s
  {
  }

  lemma NothingAsked(s: State)
    ensures Queued(Consulted(s, false), 0) == s
  {
  }

  lemma OneMoreAsked(s: State, n: nat)
    ensures Queued(Consulted(Queued(Consulted(s, n > 0), n), true), 1) == Queued(Consulted(s, true), n + 1)
  {
  }

  /** The handlers of a parsed MESSAGE_FROM, behind hang_reset. */
  lemma TellIs(s: State, buf: bytes, g: Given, config: Config)
    requires Parse(buf).Got? && Parse(buf).value.MessageFrom? && AllInside(buf, Fields(Parse(buf).value))
    ensures var t := s.(phase := s.phase.(hang := true));
      match ToFrame(buf, g)
      case Some(f) => Read(s, f, config) == if f.MessageFrom? then Told(t, f, config) else t.(fate := Strayed)
      case None => false
  {
    hide Told, Parse, Contents, Strings, CutAt, Starts, Text;
    InsideTp(buf, Parse(buf).value);
    ContentsOf(buf, Parse(buf).value);
  }
}
