/**
 * src/endpoint.c: the peer side of a tunnel. Each remote connection has an endpoint, a local TCP client that is
 * found by the sender's address followed by the sender's descriptor.
 */
module Endpoints {
  import opened Bytes
  import opened Headers
  import opened Links
  import opened Ports
  import opened Process
  import opened Proto

  datatype Endpoint = Endpoint(key: bytes, remoteFd: bytes, backendPort: bytes, pid: bytes, client: nat)

  /** How async_client ends. Its guard drops the client when connect() did not fail. */
  function ClientOutcome(a: Attempt): Outcome
  {
    if a.socket == -1 then NoSocket
    else if a.ret != -1 && a.errno != EINPROGRESS then Dropped
    else Stays
  }

  /**
   * `open` are the clients that exist, `made` how many ever did, `queued` the payloads given to each, `closed` the
   * calls of async_client_shutdown.
   */
  datatype Ends = Ends(list: seq<Endpoint>, open: set<nat>, made: nat, queued: map<nat, seq<bytes>>,
                       out: seq<Parcel>, closed: nat, fate: Fate)

  const NONE := Ends([], {}, 0, map[], [], 0, Running)

  // ----- the list

  datatype Sought = ForKey(key: bytes) | ForClient(client: nat) | ForPid(pid: bytes)

  predicate Matches(e: Endpoint, w: Sought)
  {
    match w
    case ForKey(k) => e.key == k
    case ForClient(c) => e.client == c
    case ForPid(p) => e.pid == p
  }

  /** The first endpoint that matches, or the end of the list. */
  function First(list: seq<Endpoint>, w: Sought): (i: nat)
    ensures i <= |list| && (i < |list| ==> Matches(list[i], w))
    ensures forall j :: 0 <= j < i ==> !Matches(list[j], w)
  {
    if list == [] || Matches(list[0], w) then 0 else 1 + First(list[1..], w)
  }

  lemma FirstIs(list: seq<Endpoint>, w: Sought, i: nat)
    requires i <= |list| && (i < |list| ==> Matches(list[i], w)) && forall j :: 0 <= j < i ==> !Matches(list[j], w)
    ensures First(list, w) == i
  {
  }

  function Clients(list: seq<Endpoint>): set<nat> { set i | 0 <= i < |list| :: list[i].client }

  // ----- the handlers

  function Queue(e: Ends, c: nat): seq<bytes> { if c in e.queued then e.queued[c] else [] }

  /** gc_gen_ev_send */
  function Send(e: Ends, c: nat, body: bytes): Ends
  {
    if c in e.open then e.(queued := e.queued[c := Queue(e, c) + [body]]) else e.(fate := Worse(e.fate, Strayed))
  }

  /** async_client_shutdown */
  function Close(e: Ends, c: nat): Ends
  {
    if c in e.open then e.(open := e.open - {c}, closed := e.closed + 1)
    else e.(closed := e.closed + 1, fate := Worse(e.fate, Strayed))
  }

  /** endpoint_stop_client */
  function Unlink(e: Ends, c: nat): Ends { e.(list := Without(e.list, First(e.list, ForClient(c)))) }

  /** port_allowed */
  predicate PortAllowed(allowed: seq<int>, port: bytes) { SnAtoi(port, 8) in allowed }

  /** endpoint_add, with the payload sent afterwards when it succeeds. */
  function Added(e: Ends, address: bytes, port: bytes, fd: bytes, body: bytes, attempt: Attempt): Ends
  {
    var key := address + fd;
    if |key| > SNB_MAX || |port| > SNB_MAX then e.(fate := Worse(e.fate, Aborted))
    else
      var c := e.made;
      var linked := e.(list := [Endpoint(key, fd, port, address, c)] + e.list, open := e.open + {c}, made := c + 1,
                       queued := e.queued[c := []]);
      match ClientOutcome(attempt)
      case Stays => Send(linked, c, body)
      case NoSocket => Close(Unlink(linked, c), c)
      case Dropped => Close(linked, c)
  }

  /** gc_endpoint_request */
  function Requested(e: Ends, allowed: seq<int>, device: bytes, address: bytes, port: bytes, fd: bytes, body: bytes,
                     attempt: Attempt): Ends
  {
    if !PortAllowed(allowed, port) then e.(out := e.out + [Parcel(device, address, DeniedHeader(port), Ascii("NULL"))])
    else
      var i := First(e.list, ForKey(address + fd));
      if i < |e.list| then Send(e, e.list[i].client, body) else Added(e, address, port, fd, body, attempt)
  }

  /** endpoint_recv */
  function Received(e: Ends, c: nat, buf: bytes): Ends
  {
    var i := First(e.list, ForClient(c));
    if i < |e.list| then
      var ent := e.list[i];
      e.(out := e.out + [Parcel(Ascii("device"), ent.pid, ResponseHeader(ent.backendPort, ent.remoteFd), buf)])
    else e.(fate := Worse(e.fate, Aborted))
  }

  /** endpoint_error */
  function ClientErrored(e: Ends, c: nat): Ends { Close(Unlink(e, c), c) }

  /** gc_endpoint_stop */
  function Stopped(e: Ends, address: bytes): Ends
  {
    var i := First(e.list, ForPid(address));
    if i < |e.list| then Close(e, e.list[i].client).(list := Without(e.list, i)) else e
  }

  function CloseEach(e: Ends, list: seq<Endpoint>): (r: Ends)
    ensures r.list == e.list && r.made == e.made && r.queued == e.queued && r.out == e.out
    ensures r.closed == e.closed + |list| && r.open <= e.open
    decreases |list|
  {
    if list == [] then e else CloseEach(Close(e, list[0].client), list[1..])
  }

  /** gc_endpoints_stop_all */
  function AllStopped(e: Ends): Ends { CloseEach(e, e.list).(list := []) }

  // ----- runs

  datatype Event =
    | Request(device: bytes, address: bytes, port: bytes, fd: bytes, body: bytes, attempt: Attempt)
    | Data(client: nat, buf: bytes)
    | Error(client: nat)
    | Stop(from: bytes)
    | StopAll

  /** A client's callbacks run only while the client exists. */
  predicate Enabled(e: Ends, ev: Event)
  {
    e.fate.Running? && (ev.Data? ==> ev.client in e.open) && (ev.Error? ==> ev.client in e.open)
  }

  function Step(e: Ends, ev: Event, allowed: seq<int>): Ends
  {
    if !Enabled(e, ev) then e
    else match ev
      case Request(device, address, port, fd, body, attempt) =>
        Requested(e, allowed, device, address, port, fd, body, attempt)
      case Data(c, buf) => Received(e, c, buf)
      case Error(c) => ClientErrored(e, c)
      case Stop(from) => Stopped(e, from)
      case StopAll => AllStopped(e)
  }

  function Run(e: Ends, evs: seq<Event>, allowed: seq<int>): Ends
    decreases |evs|
  {
    if evs == [] then e else Run(Step(e, evs[0], allowed), evs[1..], allowed)
  }

  predicate Distinct(list: seq<Endpoint>)
  {
    && (forall i, j :: 0 <= i < j < |list| ==> list[i].key != list[j].key && list[i].client != list[j].client)
    && (forall i :: 0 <= i < |list| ==> list[i].key == list[i].pid + list[i].remoteFd)
  }

  /** No two endpoints share a key or a client, and the clients that exist are those of the endpoints. */
  ghost predicate Inv(e: Ends)
  {
    e.fate.Running? && Distinct(e.list) && e.open == Clients(e.list) && (forall c :: c in e.open ==> c < e.made)
  }

  /** A request that makes an endpoint. */
  predicate Makes(e: Ends, ev: Event, allowed: seq<int>)
  {
    && Enabled(e, ev) && ev.Request? && PortAllowed(allowed, ev.port)
    && First(e.list, ForKey(ev.address + ev.fd)) == |e.list|
  }

  /** The requests that break the list: connect() does not fail, errno is not EINPROGRESS, or the texts do not fit. */
  predicate Breaks(e: Ends, ev: Event, allowed: seq<int>)
  {
    && Makes(e, ev, allowed)
    && (|ev.address + ev.fd| > SNB_MAX || |ev.port| > SNB_MAX
        || (ev.attempt.socket != -1 && ev.attempt.ret != -1 && ev.attempt.errno != EINPROGRESS))
  }

  // ----- one step

  lemma ClientOf(list: seq<Endpoint>, c: nat)
    ensures c in Clients(list) <==> First(list, ForClient(c)) < |list|
    ensures forall i :: 0 <= i < |list| ==> list[i].client in Clients(list)
  {
    hide First;
    if c in Clients(list) {
      var k :| 0 <= k < |list| && list[k].client == c;
      assert Matches(list[k], ForClient(c));
    }
  }

  lemma WithoutKeeps(list: seq<Endpoint>, i: nat)
    requires i < |list| && Distinct(list)
    ensures Distinct(Without(list, i)) && Clients(Without(list, i)) == Clients(list) - {list[i].client}
  {
    var rest := Without(list, i);
    forall c | c in Clients(list) && c != list[i].client
      ensures c in Clients(rest)
    {
      var k :| 0 <= k < |list| && list[k].client == c;
      assert rest[if k < i then k else k - 1] == list[k];
    }
  }

  lemma PrependedKeeps(list: seq<Endpoint>, ent: Endpoint)
    requires Distinct(list) && First(list, ForKey(ent.key)) == |list| && ent.client !in Clients(list)
    requires ent.key == ent.pid + ent.remoteFd
    ensures Distinct([ent] + list) && Clients([ent] + list) == {ent.client} + Clients(list)
    ensures First([ent] + list, ForClient(ent.client)) == 0 && Without([ent] + list, 0) == list
  {
    hide Distinct, Clients, First, Without;
    OthersDiffer(list, ent);
    PrependedDistinct(list, ent);
    PrependedClients(list, ent);
    HeadGone(list, ent);
    FirstIs([ent] + list, ForClient(ent.client), 0);
  }

  lemma OthersDiffer(list: seq<Endpoint>, ent: Endpoint)
    requires First(list, ForKey(ent.key)) == |list| && ent.client !in Clients(list)
    ensures forall i :: 0 <= i < |list| ==> list[i].key != ent.key && list[i].client != ent.client
  {
    hide First;
    forall i | 0 <= i < |list|
      ensures list[i].key != ent.key
    {
      assert !Matches(list[i], ForKey(ent.key));
    }
  }

  lemma PrependedDistinct(list: seq<Endpoint>, ent: Endpoint)
    requires Distinct(list) && ent.key == ent.pid + ent.remoteFd
    requires forall i :: 0 <= i < |list| ==> list[i].key != ent.key && list[i].client != ent.client
    ensures Distinct([ent] + list)
  {
    var longer := [ent] + list;
    assert longer[0] == ent && forall i :: 0 < i < |longer| ==> longer[i] == list[i - 1];
  }

  lemma PrependedClients(list: seq<Endpoint>, ent: Endpoint)
    ensures Clients([ent] + list) == {ent.client} + Clients(list)
  {
    var longer := [ent] + list;
    assert longer[0] == ent && forall i :: 0 <= i < |list| ==> longer[i + 1] == list[i];
  }

  lemma HeadGone(list: seq<Endpoint>, ent: Endpoint)
    ensures Without([ent] + list, 0) == list
  {
  }

  lemma RemovalKeepsInv(e: Ends, i: nat)
    requires Inv(e) && i < |e.list|
    ensures Inv(Close(e, e.list[i].client).(list := Without(e.list, i)))
  {
    hide Without, Clients, Distinct;
    WithoutKeeps(e.list, i);
    ClientOf(e.list, e.list[i].client);
  }

  lemma AddedKeepsInvIff(e: Ends, address: bytes, port: bytes, fd: bytes, body: bytes, attempt: Attempt)
    requires Inv(e) && First(e.list, ForKey(address + fd)) == |e.list|
    ensures Inv(Added(e, address, port, fd, body, attempt)) <==>
      !ClientOutcome(attempt).Dropped? && |address + fd| <= SNB_MAX && |port| <= SNB_MAX
  {
    hide Without, Clients, Distinct, First;
    PrependedKeeps(e.list, Endpoint(address + fd, fd, port, address, e.made));
    assert e.open + {e.made} - {e.made} == e.open;
  }

  lemma ClosedEach(e: Ends, list: seq<Endpoint>)
    requires e.fate.Running? && e.open == Clients(list) && Distinct(list)
    ensures CloseEach(e, list).open == {} && CloseEach(e, list).fate.Running?
    decreases |list|
  {
    if list != [] {
      WithoutKeeps(list, 0);
      assert Without(list, 0) == list[1..];
      ClientOf(list, list[0].client);
      ClosedEach(Close(e, list[0].client), list[1..]);
    }
  }

  /** Every event but a breaking request keeps the endpoints and the clients in step. */
  lemma StepKeepsInvIff(e: Ends, ev: Event, allowed: seq<int>)
    requires Inv(e)
    ensures Inv(Step(e, ev, allowed)) <==> !Breaks(e, ev, allowed)
  {
    hide Without, Clients, Distinct, First, Added, CloseEach;
    match ev
    case Request(device, address, port, fd, body, attempt) =>
      var i := First(e.list, ForKey(address + fd));
      if i < |e.list| {
        ClientOf(e.list, e.list[i].client);
      } else {
        AddedKeepsInvIff(e, address, port, fd, body, attempt);
      }
    case Data(c, _) =>
      ClientOf(e.list, c);
    case Error(c) =>
      ClientOf(e.list, c);
      if c in e.open {
        RemovalKeepsInv(e, First(e.list, ForClient(c)));
      }
    case Stop(from) =>
      var i := First(e.list, ForPid(from));
      if i < |e.list| {
        RemovalKeepsInv(e, i);
      }
    case StopAll =>
      ClosedEach(e, e.list);
      NothingLinked();
  }

  lemma NothingLinked()
    ensures Distinct([]) && Clients([]) == {}
  {
  }

  // ----- whole runs

  /** The invariant before, between and after the events. */
  ghost predicate AlwaysInv(e: Ends, evs: seq<Event>, allowed: seq<int>)
    decreases |evs|
  {
    Inv(e) && (evs != [] ==> AlwaysInv(Step(e, evs[0], allowed), evs[1..], allowed))
  }

  predicate NothingBreaks(e: Ends, evs: seq<Event>, allowed: seq<int>)
    decreases |evs|
  {
    evs != [] ==> !Breaks(e, evs[0], allowed) && NothingBreaks(Step(e, evs[0], allowed), evs[1..], allowed)
  }

  /** Over any interleaving, the invariant holds throughout exactly when no request breaks it. */
  lemma {:induction false} RunKeepsInvIff(e: Ends, evs: seq<Event>, allowed: seq<int>)
    requires Inv(e)
    ensures AlwaysInv(e, evs, allowed) <==> NothingBreaks(e, evs, allowed)
    ensures NothingBreaks(e, evs, allowed) ==> Inv(Run(e, evs, allowed))
    decreases |evs|
  {
    if evs != [] {
      StepKeepsInvIff(e, evs[0], allowed);
      if !Breaks(e, evs[0], allowed) {
        RunKeepsInvIff(Step(e, evs[0], allowed), evs[1..], allowed);
      }
    }
  }

  /** From the start: data from any client that exists goes upstream under its endpoint's name; nothing aborts. */
  lemma RecvNeverAborts(evs: seq<Event>, allowed: seq<int>, c: nat, buf: bytes)
    requires NothingBreaks(NONE, evs, allowed)
    ensures var e := Run(NONE, evs, allowed);
      c in e.open ==>
        var i := First(e.list, ForClient(c));
        && i < |e.list|
        && Received(e, c, buf) ==
             e.(out := e.out + [Parcel(Ascii("device"), e.list[i].pid,
                                       ResponseHeader(e.list[i].backendPort, e.list[i].remoteFd), buf)])
  {
    NothingLinked();
    RunKeepsInvIff(NONE, evs, allowed);
    ClientOf(Run(NONE, evs, allowed).list, c);
  }

  /** After a request that breaks the list, the next payload of its connection goes to a client that is gone. */
  lemma DanglingEndpointUsed(e: Ends, ev: Event, again: Event, allowed: seq<int>)
    requires Inv(e) && Breaks(e, ev, allowed) && |ev.address + ev.fd| <= SNB_MAX && |ev.port| <= SNB_MAX
    requires again.Request? && PortAllowed(allowed, again.port) && again.address + again.fd == ev.address + ev.fd
    ensures var after := Step(e, ev, allowed);
      && after.fate.Running? && e.made !in after.open && First(after.list, ForClient(e.made)) == 0
      && Step(after, again, allowed).fate == Strayed
  {
    var ent := Endpoint(ev.address + ev.fd, ev.fd, ev.port, ev.address, e.made);
    var after := Step(e, ev, allowed);
    assert after.list == [ent] + e.list && e.made !in e.open;
    FirstIs(after.list, ForClient(e.made), 0);
    FirstIs(after.list, ForKey(ent.key), 0);
  }

  /** connect() succeeds at once, errno being 0: the new client is dropped while its endpoint stays. */
  lemma ImmediateConnectBreaks(e: Ends, ev: Event, allowed: seq<int>)
    requires Inv(e) && Makes(e, ev, allowed) && ev.attempt.socket != -1 && ev.attempt.ret == 0 && ev.attempt.errno == 0
    ensures !Inv(Step(e, ev, allowed))
  {
    StepKeepsInvIff(e, ev, allowed);
  }

  /** connect() is refused at once: the client is kept, and its endpoint with it. */
  lemma RefusedConnectKeeps(e: Ends, ev: Event, allowed: seq<int>)
    requires Inv(e) && Makes(e, ev, allowed) && |ev.address + ev.fd| <= SNB_MAX && |ev.port| <= SNB_MAX
    requires ev.attempt.socket != -1 && ev.attempt.ret == -1 && ev.attempt.errno == ECONNREFUSED
    ensures Inv(Step(e, ev, allowed)) && e.made in Step(e, ev, allowed).open
    ensures |Step(e, ev, allowed).list| == |e.list| + 1
  {
    StepKeepsInvIff(e, ev, allowed);
  }

  /** A client's error takes the client and its endpoint, and leaves every other endpoint and its payloads alone. */
  lemma ErrorTakesOne(e: Ends, c: nat, x: Endpoint)
    requires Inv(e) && c in e.open && x in e.list
    ensures var r := ClientErrored(e, c);
      && Inv(r) && c !in r.open && |r.list| == |e.list| - 1
      && (x in r.list <==> x.client != c) && r.queued == e.queued && r.closed == e.closed + 1
  {
    hide First, Clients;
    ClientOf(e.list, c);
    var i := First(e.list, ForClient(c));
    RemovalKeepsInv(e, i);
    var rest := Without(e.list, i);
    var k :| 0 <= k < |e.list| && e.list[k] == x;
    if k != i {
      assert rest[if k < i then k else k - 1] == x;
    }
  }

  // ----- one key, one client

  /** The payloads, in order, of the requests under a key to a port that is allowed. */
  function Bodies(evs: seq<Event>, key: bytes, allowed: seq<int>): (bs: seq<bytes>)
  {
    if evs == [] then []
    else
      var ev := evs[0];
      (if ev.Request? && PortAllowed(allowed, ev.port) && ev.address + ev.fd == key then [ev.body] else [])
        + Bodies(evs[1..], key, allowed)
  }

  /** A client that left the list stays out of it. */
  lemma {:induction false} LeftForGood(e: Ends, evs: seq<Event>, allowed: seq<int>, c: nat)
    requires Inv(e) && NothingBreaks(e, evs, allowed) && c < e.made && c !in Clients(e.list)
    ensures c !in Clients(Run(e, evs, allowed).list)
    decreases |evs|
  {
    if evs != [] {
      var next := Step(e, evs[0], allowed);
      StepKeepsInvIff(e, evs[0], allowed);
      StepOpens(e, evs[0], allowed);
      LeftForGood(next, evs[1..], allowed, c);
    }
  }

  lemma StepOpens(e: Ends, ev: Event, allowed: seq<int>)
    requires Inv(e)
    ensures var next := Step(e, ev, allowed); next.made >= e.made && next.open <= e.open + {e.made}
  {
    hide First, Clients, Distinct, Without;
  }

  function KeyOf(list: seq<Endpoint>, c: nat): bytes
    requires c in Clients(list)
  {
    ClientOf(list, c);
    list[First(list, ForClient(c))].key
  }

  lemma KeyOfEntry(list: seq<Endpoint>, x: Endpoint)
    requires Distinct(list) && x in list
    ensures x.client in Clients(list) && KeyOf(list, x.client) == x.key
    ensures First(list, ForKey(x.key)) < |list| && list[First(list, ForKey(x.key))] == x
  {
    var k :| 0 <= k < |list| && list[k] == x;
    FirstIs(list, ForClient(x.client), k);
    FirstIs(list, ForKey(x.key), k);
    ClientOf(list, x.client);
  }

  lemma StepEntries(e: Ends, ev: Event, allowed: seq<int>)
    requires Inv(e)
    ensures forall x :: x in Step(e, ev, allowed).list ==> x in e.list || x.client == e.made
  {
    hide First, Clients, Distinct, PortAllowed, Added, Queue;
    if Makes(e, ev, allowed) {
      AddedEntries(e, ev.address, ev.port, ev.fd, ev.body, ev.attempt);
    }
  }

  lemma AddedEntries(e: Ends, address: bytes, port: bytes, fd: bytes, body: bytes, attempt: Attempt)
    ensures forall x :: x in Added(e, address, port, fd, body, attempt).list ==> x in e.list || x.client == e.made
  {
    hide First, Queue;
    var ent := Endpoint(address + fd, fd, port, address, e.made);
    FirstIs([ent] + e.list, ForClient(e.made), 0);
    assert Without([ent] + e.list, 0) == e.list;
  }

  /** While client c stays linked its key stays, and it is given the payloads under that key and no others. */
  lemma QueueStep(e: Ends, ev: Event, allowed: seq<int>, c: nat)
    requires Inv(e) && !Breaks(e, ev, allowed) && c in Clients(e.list) && c in Clients(Step(e, ev, allowed).list)
    ensures KeyOf(Step(e, ev, allowed).list, c) == KeyOf(e.list, c)
    ensures Queue(Step(e, ev, allowed), c) == Queue(e, c) + Bodies([ev], KeyOf(e.list, c), allowed)
  {
    hide First, Clients, Distinct, Step, KeyOf, Bodies;
    var next := Step(e, ev, allowed);
    StepKeepsInvIff(e, ev, allowed);
    StepEntries(e, ev, allowed);
    ClientOf(next.list, c);
    var x := next.list[First(next.list, ForClient(c))];
    KeyOfEntry(next.list, x);
    KeyOfEntry(e.list, x);
    QueueGrows(e, ev, allowed, x);
  }

  lemma QueueGrows(e: Ends, ev: Event, allowed: seq<int>, x: Endpoint)
    requires Inv(e) && x in e.list
    ensures Queue(Step(e, ev, allowed), x.client) == Queue(e, x.client) + Bodies([ev], x.key, allowed)
  {
    hide First, Clients, Distinct, Without, PortAllowed, Requested, KeyOf, Queue;
    assert [ev][1..] == [];
    match ev
    case Request(device, address, port, fd, body, attempt) =>
      RequestedQueue(e, allowed, device, address, port, fd, body, attempt, x);
    case _ => SameQueued(e, Step(e, ev, allowed), x.client);
  }

  lemma SameQueued(e: Ends, next: Ends, c: nat)
    requires next.queued == e.queued
    ensures Queue(next, c) == Queue(e, c) + []
  {
  }

  lemma RequestedQueue(e: Ends, allowed: seq<int>, device: bytes, address: bytes, port: bytes, fd: bytes, body: bytes,
                       attempt: Attempt, x: Endpoint)
    requires Inv(e) && x in e.list
    ensures Queue(Requested(e, allowed, device, address, port, fd, body, attempt), x.client) ==
      Queue(e, x.client) + if address + fd == x.key && PortAllowed(allowed, port) then [body] else []
  {
    hide First, Clients, Distinct, Without, PortAllowed;
    KeyOfEntry(e.list, x);
    var i := First(e.list, ForKey(address + fd));
    if i < |e.list| {
      KeyOfEntry(e.list, e.list[i]);
    }
  }

  /**
   * One key, one client: a client linked at the start and at the end of a run was given, in arrival
   * order, the payloads that arrived under its key in between, and nothing else.
   */
  lemma {:induction false} PayloadsStayTogether(e: Ends, evs: seq<Event>, allowed: seq<int>, c: nat)
    requires Inv(e) && NothingBreaks(e, evs, allowed) && c in Clients(e.list) && c in Clients(Run(e, evs, allowed).list)
    ensures KeyOf(Run(e, evs, allowed).list, c) == KeyOf(e.list, c)
    ensures Queue(Run(e, evs, allowed), c) == Queue(e, c) + Bodies(evs, KeyOf(e.list, c), allowed)
    decreases |evs|
  {
    hide Clients, KeyOf, Step, Queue;
    if evs != [] {
      var next := Step(e, evs[0], allowed);
      StepKeepsInvIff(e, evs[0], allowed);
      StepOpens(e, evs[0], allowed);
      if c !in Clients(next.list) {
        LeftForGood(next, evs[1..], allowed, c);
        assert false;
      }
      QueueStep(e, evs[0], allowed, c);
      PayloadsStayTogether(next, evs[1..], allowed, c);
      BodiesSplit(evs, KeyOf(e.list, c), allowed);
    }
  }

  lemma BodiesSplit(evs: seq<Event>, key: bytes, allowed: seq<int>)
    requires evs != []
    ensures forall q: seq<bytes> ::
      q + Bodies([evs[0]], key, allowed) + Bodies(evs[1..], key, allowed) == q + Bodies(evs, key, allowed)
  {
    assert [evs[0]][1..] == [];
  }

  /** A new endpoint's client begins with the payload of the request that made it. */
  lemma FirstPayload(e: Ends, ev: Event, allowed: seq<int>)
    requires Inv(e) && Makes(e, ev, allowed) && !Breaks(e, ev, allowed) && ClientOutcome(ev.attempt).Stays?
    ensures var next := Step(e, ev, allowed);
      && e.made in Clients(next.list) && KeyOf(next.list, e.made) == ev.address + ev.fd
      && Queue(next, e.made) == [ev.body]
  {
    var ent := Endpoint(ev.address + ev.fd, ev.fd, ev.port, ev.address, e.made);
    var next := Step(e, ev, allowed);
    assert next.list == [ent] + e.list;
    StepKeepsInvIff(e, ev, allowed);
    KeyOfEntry(next.list, ent);
  }

  // ----- which connection a key stands for

  predicate AddressesOf(evs: seq<Event>, n: nat)
  {
    forall i :: 0 <= i < |evs| && evs[i].Request? ==> |evs[i].address| == n
  }

  /** The payloads, in order, of the requests from one descriptor at one address. */
  function Payloads(evs: seq<Event>, address: bytes, fd: bytes, allowed: seq<int>): seq<bytes>
  {
    if evs == [] then []
    else
      var ev := evs[0];
      (if ev.Request? && PortAllowed(allowed, ev.port) && ev.address == address && ev.fd == fd then [ev.body] else [])
        + Payloads(evs[1..], address, fd, allowed)
  }

  /** Where addresses have one length, a key stands for one address and one descriptor. */
  lemma KeyDetermines(a: bytes, f: bytes, b: bytes, g: bytes)
    requires |a| == |b|
    ensures a + f == b + g <==> a == b && f == g
  {
    if a + f == b + g {
      assert a == (a + f)[..|a|] && b == (b + g)[..|b|];
      assert f == (a + f)[|a|..] && g == (b + g)[|b|..];
    }
  }

  /**
   * Otherwise not: what descriptor g at address b sends goes to the client of descriptor f at address a, whenever the
   * two read the same one after the other, as "b1" at "a" and "1" at "ab" do.
   */
  lemma StrangerReaches(e: Ends, ev: Event, allowed: seq<int>, x: Endpoint)
    requires Inv(e) && ev.Request? && PortAllowed(allowed, ev.port) && x in e.list
    ensures Queue(Step(e, ev, allowed), x.client) == Queue(e, x.client) + [ev.body]
      <==> ev.address + ev.fd == x.pid + x.remoteFd
  {
    hide First, PortAllowed, Clients;
    KeyOfEntry(e.list, x);
    QueueGrows(e, ev, allowed, x);
    assert [ev][1..] == [];
  }

  lemma ConnectionsShareAKey(allowed: seq<int>, port: bytes, device: bytes, one: bytes, two: bytes, a: Attempt)
    requires PortAllowed(allowed, port) && |port| <= SNB_MAX && ClientOutcome(a).Stays?
    ensures Ascii("ab") + Ascii("1") == Ascii("a") + Ascii("b1") && Ascii("ab") != Ascii("a")
    ensures var s := Step(NONE, Request(device, Ascii("ab"), port, Ascii("1"), one, a), allowed);
      var t := Step(s, Request(device, Ascii("a"), port, Ascii("b1"), two, a), allowed);
      |t.list| == 1 && Queue(t, 0) == [one, two]
  {
    hide PortAllowed, First, Clients;
    assert |Ascii("ab")| == 2 && |Ascii("a")| == 1 && |Ascii("1")| == 1;
    assert Ascii("ab") + Ascii("1") == Ascii("a") + Ascii("b1");
    var first := Request(device, Ascii("ab"), port, Ascii("1"), one, a);
    var second := Request(device, Ascii("a"), port, Ascii("b1"), two, a);
    NothingLinked();
    var s := Step(NONE, first, allowed);
    FirstPayload(NONE, first, allowed);
    StepKeepsInvIff(NONE, first, allowed);
    ReuseIgnoresPort(s, second, allowed, s.list[0]);
  }

  lemma {:induction false} BodiesArePayloads(evs: seq<Event>, address: bytes, fd: bytes, allowed: seq<int>)
    requires AddressesOf(evs, |address|)
    ensures Bodies(evs, address + fd, allowed) == Payloads(evs, address, fd, allowed)
  {
    hide PortAllowed;
    if evs != [] {
      assert AddressesOf(evs[1..], |address|);
      BodiesArePayloads(evs[1..], address, fd, allowed);
      if evs[0].Request? {
        KeyDetermines(evs[0].address, evs[0].fd, address, fd);
      }
    }
  }

  /** With addresses of one length: a client is given what came from its descriptor at its address, in order, and no more. */
  lemma DescriptorIsolated(e: Ends, evs: seq<Event>, allowed: seq<int>, x: Endpoint)
    requires Inv(e) && NothingBreaks(e, evs, allowed) && x in e.list && AddressesOf(evs, |x.pid|)
    requires x.client in Clients(Run(e, evs, allowed).list)
    ensures Queue(Run(e, evs, allowed), x.client) == Queue(e, x.client) + Payloads(evs, x.pid, x.remoteFd, allowed)
  {
    hide Run, NothingBreaks, Queue, Clients, First;
    KeyOfEntry(e.list, x);
    PayloadsStayTogether(e, evs, allowed, x.client);
    BodiesArePayloads(evs, x.pid, x.remoteFd, allowed);
  }

  /** An endpoint is found by its key alone: the port asked for now need not be the one it was connected to. */
  lemma ReuseIgnoresPort(e: Ends, ev: Event, allowed: seq<int>, x: Endpoint)
    requires Inv(e) && ev.Request? && PortAllowed(allowed, ev.port) && x in e.list && x.key == ev.address + ev.fd
    ensures Step(e, ev, allowed).list == e.list
    ensures Queue(Step(e, ev, allowed), x.client) == Queue(e, x.client) + [ev.body]
  {
    hide First, PortAllowed, Distinct;
    KeyOfEntry(e.list, x);
    ClientOf(e.list, x.client);
  }

  // ----- endpoint_stop

  /**
   * endpoint_stop from an address removes the first endpoint of that address and no other, whatever descriptor the
   * notice was about.
   */
  lemma StopRemovesFirst(e: Ends, from: bytes, x: Endpoint)
    requires Inv(e) && x in e.list
    ensures x in Stopped(e, from).list <==> !(x.pid == from && e.list[First(e.list, ForPid(from))] == x)
  {
    hide First;
    var i := First(e.list, ForPid(from));
    var k :| 0 <= k < |e.list| && e.list[k] == x;
    if i < |e.list| {
      var rest := Without(e.list, i);
      assert k != i ==> rest[if k < i then k else k - 1] == x;
      if k < i {
        assert !Matches(e.list[k], ForPid(from));
      }
    } else {
      assert !Matches(e.list[k], ForPid(from));
    }
  }

  /** So the connection that ended is the one stopped exactly when its endpoint is the newest of its address. */
  lemma StopHitsConnectionIff(e: Ends, x: Endpoint)
    requires Inv(e) && x in e.list
    ensures x !in Stopped(e, x.pid).list <==>
      forall i, k :: 0 <= i < k < |e.list| && e.list[k] == x ==> e.list[i].pid != x.pid
  {
    hide First;
    StopRemovesFirst(e, x.pid, x);
    var k :| 0 <= k < |e.list| && e.list[k] == x;
    var i := First(e.list, ForPid(x.pid));
    assert i <= k by {
      assert Matches(e.list[k], ForPid(x.pid));
    }
    assert i < k ==> e.list[i].pid == x.pid && e.list[i] != x;
  }
}
