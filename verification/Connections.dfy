/**
 * Which connections the payloads of a client come from. A key names a descriptor at an address, and descriptors come back:
 * only a request's sender knows which connection it is from. Runs are labelled with that here.
 */
module Connections {
  import opened Bytes
  import opened Endpoints
  import opened Links
  import opened Process
  import opened Proto
  import opened Wrappers

  /** The state before event j. */
  function At(evs: seq<Event>, allowed: seq<int>, j: nat): Ends
    requires j <= |evs|
  {
    Run(NONE, evs[..j], allowed)
  }

  lemma {:induction false} RunSnoc(e: Ends, evs: seq<Event>, ev: Event, allowed: seq<int>)
    ensures Run(e, evs + [ev], allowed) == Step(Run(e, evs, allowed), ev, allowed)
    decreases |evs|
  {
    hide Step;
    if evs == [] {
      assert [] + [ev] == [ev] && [ev][1..] == [];
    } else {
      assert (evs + [ev])[1..] == evs[1..] + [ev];
      RunSnoc(Step(e, evs[0], allowed), evs[1..], ev, allowed);
    }
  }

  lemma Next(evs: seq<Event>, allowed: seq<int>, j: nat)
    requires j < |evs|
    ensures At(evs, allowed, j + 1) == Step(At(evs, allowed, j), evs[j], allowed)
  {
    hide Run, Step;
    assert evs[..j + 1] == evs[..j] + [evs[j]];
    RunSnoc(NONE, evs[..j], evs[j], allowed);
  }

  lemma {:induction false} Unbroken(e: Ends, evs: seq<Event>, allowed: seq<int>, j: nat)
    requires Inv(e) && NothingBreaks(e, evs, allowed) && j <= |evs|
    ensures Inv(Run(e, evs[..j], allowed)) && (j < |evs| ==> !Breaks(Run(e, evs[..j], allowed), evs[j], allowed))
    decreases j
  {
    hide Step, Breaks, Inv;
    if j > 0 {
      StepKeepsInvIff(e, evs[0], allowed);
      Unbroken(Step(e, evs[0], allowed), evs[1..], allowed, j - 1);
      assert evs[..j][1..] == evs[1..][..j - 1];
    }
  }

  lemma Sane(evs: seq<Event>, allowed: seq<int>, j: nat)
    requires NothingBreaks(NONE, evs, allowed) && j <= |evs|
    ensures Inv(At(evs, allowed, j)) && (j < |evs| ==> !Breaks(At(evs, allowed, j), evs[j], allowed))
  {
    hide Run, Breaks, NothingBreaks;
    NothingLinked();
    Unbroken(NONE, evs, allowed, j);
  }

  // ----- who gets a payload

  /** A request to a port that is allowed. */
  predicate Asks(evs: seq<Event>, allowed: seq<int>, j: nat)
  {
    j < |evs| && evs[j].Request? && PortAllowed(allowed, evs[j].port)
  }

  function KeyAt(evs: seq<Event>, allowed: seq<int>, j: nat): bytes
    requires Asks(evs, allowed, j)
  {
    evs[j].address + evs[j].fd
  }

  /** The client that gets the payload of event j. */
  function Receiver(evs: seq<Event>, allowed: seq<int>, j: nat): Option<nat>
    requires j <= |evs|
  {
    if !Asks(evs, allowed, j) then None
    else
      var e := At(evs, allowed, j);
      var i := First(e.list, ForKey(KeyAt(evs, allowed, j)));
      if i < |e.list| then Some(e.list[i].client)
      else if ClientOutcome(evs[j].attempt).Stays? then Some(e.made) else None
  }

  lemma {:induction false} NobodyQueued(evs: seq<Event>, allowed: seq<int>, j: nat)
    requires NothingBreaks(NONE, evs, allowed) && j <= |evs|
    ensures forall c :: c in At(evs, allowed, j).queued ==> c < At(evs, allowed, j).made
  {
    hide NothingBreaks, Run;
    if j > 0 {
      NobodyQueued(evs, allowed, j - 1);
      Sane(evs, allowed, j - 1);
      Next(evs, allowed, j - 1);
      StepQueues(At(evs, allowed, j - 1), evs[j - 1], allowed);
    } else {
      assert evs[..0] == [];
      assert At(evs, allowed, 0) == NONE by { StartIs(allowed); }
    }
  }

  lemma StartIs(allowed: seq<int>)
    ensures Run(NONE, [], allowed) == NONE
  {
  }

  lemma StepQueues(e: Ends, ev: Event, allowed: seq<int>)
    requires Inv(e) && forall c :: c in e.queued ==> c < e.made
    ensures var r := Step(e, ev, allowed); forall c :: c in r.queued ==> c < r.made
  {
    hide First, Clients, Endpoints.Distinct, Without, PortAllowed;
  }

  /** The receiver's queue grows by the payload, and no other client's does. */
  lemma ReceiverGets(evs: seq<Event>, allowed: seq<int>, j: nat, c: nat)
    requires NothingBreaks(NONE, evs, allowed) && j < |evs|
    ensures Queue(At(evs, allowed, j + 1), c)
      == Queue(At(evs, allowed, j), c) + if Receiver(evs, allowed, j) == Some(c) then [evs[j].body] else []
  {
    hide NothingBreaks, Run, At, First, PortAllowed, Without, Clients, Endpoints.Distinct;
    NobodyQueued(evs, allowed, j);
    Sane(evs, allowed, j);
    Next(evs, allowed, j);
    var e := At(evs, allowed, j);
    if Asks(evs, allowed, j) {
      var i := First(e.list, ForKey(KeyAt(evs, allowed, j)));
      if i < |e.list| {
        ClientOf(e.list, e.list[i].client);
      }
    }
    assert Queue(e, c) + [] == Queue(e, c);
  }

  // ----- how long a client is linked

  /** Event j links the client numbered `made`. */
  predicate Opens(evs: seq<Event>, allowed: seq<int>, j: nat)
  {
    && Asks(evs, allowed, j) && ClientOutcome(evs[j].attempt).Stays?
    && First(At(evs, allowed, j).list, ForKey(KeyAt(evs, allowed, j))) == |At(evs, allowed, j).list|
  }

  /** The client's endpoint is the newest of the address. */
  predicate Newest(list: seq<Endpoint>, from: bytes, c: nat)
  {
    exists k: nat :: k < |list| && NewestAt(list, from, c, k)
  }

  predicate NewestAt(list: seq<Endpoint>, from: bytes, c: nat, k: nat)
    requires k < |list|
  {
    list[k].client == c && list[k].pid == from && forall i :: 0 <= i < k ==> list[i].pid != from
  }

  /** The event takes the client's endpoint out: a stop of all, the client's error, or a notice that hits it. */
  predicate Takes(e: Ends, ev: Event, c: nat)
  {
    match ev
    case StopAll => true
    case Error(d) => d == c
    case Stop(from) => Newest(e.list, from, c)
    case _ => false
  }

  lemma NewestIs(list: seq<Endpoint>, from: bytes, x: Endpoint)
    requires Endpoints.Distinct(list) && x in list
    ensures var i := First(list, ForPid(from)); Newest(list, from, x.client) <==> i < |list| && list[i] == x
  {
    hide First, Endpoints.Distinct;
    var i := First(list, ForPid(from));
    assert forall j :: 0 <= j < i ==> !Matches(list[j], ForPid(from));
    if i < |list| && list[i] == x {
      assert Matches(list[i], ForPid(from)) && NewestAt(list, from, x.client, i);
    }
    if Newest(list, from, x.client) {
      var m: nat :| m < |list| && NewestAt(list, from, x.client, m);
      FirstIs(list, ForPid(from), m);
      SameClient(list, x, list[m]);
    }
  }

  /** An endpoint stays, as it is, exactly until an event takes it. */
  lemma StaysIff(e: Ends, ev: Event, allowed: seq<int>, x: Endpoint)
    requires Inv(e) && !Breaks(e, ev, allowed) && x in e.list
    ensures x in Step(e, ev, allowed).list <==> !Takes(e, ev, x.client)
  {
    hide First, Clients, Newest, PortAllowed, CloseEach;
    match ev
    case Request(_, address, _, fd, _, _) =>
      RequestKeeps(e, ev, allowed, x);
    case Data(_, _) =>
    case Error(c) =>
      ClientIsOpen(e, x);
      if c in e.open {
        ErrorTakesOne(e, c, x);
      }
    case Stop(from) =>
      StopRemovesFirst(e, from, x);
      NewestIs(e.list, from, x);
    case StopAll =>
  }

  lemma ClientIsOpen(e: Ends, x: Endpoint)
    requires Inv(e) && x in e.list
    ensures x.client in e.open
  {
    var k :| 0 <= k < |e.list| && e.list[k] == x;
  }

  lemma RequestKeeps(e: Ends, ev: Event, allowed: seq<int>, x: Endpoint)
    requires Inv(e) && !Breaks(e, ev, allowed) && x in e.list && ev.Request?
    ensures x in Step(e, ev, allowed).list
  {
    hide Clients, PortAllowed, First, Endpoints.Distinct;
    if Makes(e, ev, allowed) {
      AddedKeeps(e, ev, allowed, x);
    }
  }

  lemma AddedKeeps(e: Ends, ev: Event, allowed: seq<int>, x: Endpoint)
    requires Inv(e) && Makes(e, ev, allowed) && !Breaks(e, ev, allowed) && x in e.list
    ensures x in Step(e, ev, allowed).list
    ensures ClientOutcome(ev.attempt).NoSocket? ==> Step(e, ev, allowed).list == e.list
  {
    hide Clients, PortAllowed, First, Endpoints.Distinct, Without;
    NotKept(e, ev);
  }

  lemma NotKept(e: Ends, ev: Event)
    requires ev.Request?
    ensures var longer := [Endpoint(ev.address + ev.fd, ev.fd, ev.port, ev.address, e.made)] + e.list;
      Without(longer, First(longer, ForClient(e.made))) == e.list
  {
    var longer := [Endpoint(ev.address + ev.fd, ev.fd, ev.port, ev.address, e.made)] + e.list;
    FirstIs(longer, ForClient(e.made), 0);
    assert Without(longer, 0) == e.list;
  }

  /** Some event between i and j takes the client's endpoint. */
  predicate TakenBetween(evs: seq<Event>, allowed: seq<int>, i: nat, j: nat, c: nat)
    requires j <= |evs|
  {
    exists m: nat {:trigger Takes(At(evs, allowed, m), evs[m], c)} :: i < m < j && Takes(At(evs, allowed, m), evs[m], c)
  }

  lemma Opened(evs: seq<Event>, allowed: seq<int>, i: nat) returns (x: Endpoint)
    requires NothingBreaks(NONE, evs, allowed) && Opens(evs, allowed, i)
    ensures x.client == At(evs, allowed, i).made && x.key == KeyAt(evs, allowed, i)
    ensures x in At(evs, allowed, i + 1).list && At(evs, allowed, i + 1).made > x.client
    ensures Receiver(evs, allowed, i) == Some(x.client)
  {
    hide NothingBreaks, Run, At, First, PortAllowed, Clients, Breaks;
    Sane(evs, allowed, i);
    Next(evs, allowed, i);
    var e, ev := At(evs, allowed, i), evs[i];
    x := Endpoint(ev.address + ev.fd, ev.fd, ev.port, ev.address, e.made);
    StayingIsLinked(e, ev, allowed);
  }

  lemma StayingIsLinked(e: Ends, ev: Event, allowed: seq<int>)
    requires Inv(e) && Makes(e, ev, allowed) && !Breaks(e, ev, allowed) && ClientOutcome(ev.attempt).Stays?
    ensures var r := Step(e, ev, allowed);
      r.list == [Endpoint(ev.address + ev.fd, ev.fd, ev.port, ev.address, e.made)] + e.list && r.made == e.made + 1
  {
    hide First, PortAllowed, Clients, Endpoints.Distinct;
  }

  lemma {:induction false} LinkedUntil(evs: seq<Event>, allowed: seq<int>, i: nat, j: nat, x: Endpoint)
    requires NothingBreaks(NONE, evs, allowed) && i < j <= |evs|
    requires x in At(evs, allowed, i + 1).list && x.client < At(evs, allowed, i + 1).made
    ensures x.client < At(evs, allowed, j).made
    ensures !TakenBetween(evs, allowed, i, j, x.client) ==> x in At(evs, allowed, j).list
    ensures TakenBetween(evs, allowed, i, j, x.client) ==> x.client !in Clients(At(evs, allowed, j).list)
    decreases j
  {
    hide NothingBreaks, Run, At, Takes, Clients, Breaks, Inv, Step;
    if i + 1 < j {
      LinkedUntil(evs, allowed, i, j - 1, x);
      Sane(evs, allowed, j - 1);
      Next(evs, allowed, j - 1);
      var e, ev := At(evs, allowed, j - 1), evs[j - 1];
      Grows(e, ev, allowed);
      if TakenBetween(evs, allowed, i, j - 1, x.client) {
        OutStaysOut(e, ev, allowed, x.client);
      } else {
        StaysIff(e, ev, allowed, x);
        if Takes(e, ev, x.client) {
          OutIfNotIn(e, ev, allowed, x);
        }
        assert TakenBetween(evs, allowed, i, j, x.client) <==> Takes(e, ev, x.client);
      }
    }
  }

  lemma Grows(e: Ends, ev: Event, allowed: seq<int>)
    requires Inv(e)
    ensures Step(e, ev, allowed).made >= e.made
  {
    StepOpens(e, ev, allowed);
  }

  lemma InClients(list: seq<Endpoint>)
    ensures forall x :: x in list ==> x.client in Clients(list)
  {
  }

  lemma FromClients(list: seq<Endpoint>, c: nat) returns (x: Endpoint)
    requires c in Clients(list)
    ensures x in list && x.client == c
  {
    var k :| 0 <= k < |list| && list[k].client == c;
    x := list[k];
  }

  lemma OutStaysOut(e: Ends, ev: Event, allowed: seq<int>, c: nat)
    requires Inv(e) && !Breaks(e, ev, allowed) && c < e.made && c !in Clients(e.list)
    ensures c !in Clients(Step(e, ev, allowed).list)
  {
    hide Step, Clients;
    StepEntries(e, ev, allowed);
    InClients(e.list);
    if c in Clients(Step(e, ev, allowed).list) {
      var x := FromClients(Step(e, ev, allowed).list, c);
      assert false;
    }
  }

  lemma OutIfNotIn(e: Ends, ev: Event, allowed: seq<int>, x: Endpoint)
    requires Inv(e) && !Breaks(e, ev, allowed) && x in e.list && x.client < e.made && x !in Step(e, ev, allowed).list
    ensures x.client !in Clients(Step(e, ev, allowed).list)
  {
    hide Step, Clients;
    StepEntries(e, ev, allowed);
    if x.client in Clients(Step(e, ev, allowed).list) {
      var y := FromClients(Step(e, ev, allowed).list, x.client);
      SameClient(e.list, x, y);
      assert false;
    }
  }

  lemma SameClient(list: seq<Endpoint>, x: Endpoint, y: Endpoint)
    requires Endpoints.Distinct(list) && x in list && y in list && (x.client == y.client || x.key == y.key)
    ensures x == y
  {
    var k :| 0 <= k < |list| && list[k] == x;
    var m :| 0 <= m < |list| && list[m] == y;
  }

  // ----- whom a later request reaches

  /**
   * A request later than the one that opened an endpoint reaches that endpoint's client exactly if it reads the same key
   * and nothing took the endpoint in between, whatever connection it is from.
   */
  lemma LaterReachesIff(evs: seq<Event>, allowed: seq<int>, i: nat, j: nat)
    requires NothingBreaks(NONE, evs, allowed) && Opens(evs, allowed, i) && i < j < |evs|
    ensures Receiver(evs, allowed, j) == Some(At(evs, allowed, i).made) <==>
      Asks(evs, allowed, j) && KeyAt(evs, allowed, j) == KeyAt(evs, allowed, i)
      && !TakenBetween(evs, allowed, i, j, At(evs, allowed, i).made)
  {
    hide NothingBreaks, Run, At, First, TakenBetween, Opens, Breaks, PortAllowed, Clients;
    var x := Opened(evs, allowed, i);
    LinkedUntil(evs, allowed, i, j, x);
    Sane(evs, allowed, j);
    var e := At(evs, allowed, j);
    if Asks(evs, allowed, j) {
      var k := First(e.list, ForKey(KeyAt(evs, allowed, j)));
      if !TakenBetween(evs, allowed, i, j, x.client) {
        KeyOfEntry(e.list, x);
        if k < |e.list| && e.list[k].client == x.client {
          SameClient(e.list, e.list[k], x);
        }
      } else if k < |e.list| && e.list[k].client == x.client {
        ClientOf(e.list, x.client);
      }
    }
  }

  lemma {:induction false} OpenerOf(evs: seq<Event>, allowed: seq<int>, j: nat, c: nat) returns (i: nat)
    requires NothingBreaks(NONE, evs, allowed) && j <= |evs| && c in Clients(At(evs, allowed, j).list)
    ensures i < j && Opens(evs, allowed, i) && At(evs, allowed, i).made == c
    decreases j
  {
    hide NothingBreaks, Run, First, Breaks, PortAllowed, Inv, Step, Opens, At;
    if j == 0 {
      StartHasNobody(evs, allowed);
      assert false;
    } else {
      Sane(evs, allowed, j - 1);
      Next(evs, allowed, j - 1);
      if c in Clients(At(evs, allowed, j - 1).list) {
        i := OpenerOf(evs, allowed, j - 1, c);
      } else {
        i := j - 1;
        NewIsOpened(evs, allowed, j - 1, c);
      }
    }
  }

  lemma StartHasNobody(evs: seq<Event>, allowed: seq<int>)
    ensures Clients(At(evs, allowed, 0).list) == {}
  {
    assert evs[..0] == [];
  }

  lemma NewIsOpened(evs: seq<Event>, allowed: seq<int>, j: nat, c: nat)
    requires j < |evs| && Inv(At(evs, allowed, j)) && !Breaks(At(evs, allowed, j), evs[j], allowed)
    requires c !in Clients(At(evs, allowed, j).list)
    requires c in Clients(Step(At(evs, allowed, j), evs[j], allowed).list)
    ensures Opens(evs, allowed, j) && At(evs, allowed, j).made == c
  {
    hide At, PortAllowed, Step, First, Clients;
    var e, ev := At(evs, allowed, j), evs[j];
    StepEntries(e, ev, allowed);
    InClients(e.list);
    var x := FromClients(Step(e, ev, allowed).list, c);
    if !(Makes(e, ev, allowed) && ClientOutcome(ev.attempt).Stays?) {
      OldOnly(e, ev, allowed);
    }
  }

  /** Only a request whose client stays links anything. */
  lemma OldOnly(e: Ends, ev: Event, allowed: seq<int>)
    requires Inv(e) && !Breaks(e, ev, allowed)
    requires !(Makes(e, ev, allowed) && ClientOutcome(ev.attempt).Stays?)
    ensures forall x :: x in Step(e, ev, allowed).list ==> x in e.list
  {
    hide PortAllowed, Clients, Endpoints.Distinct, CloseEach, First;
    if ev.Request? {
      NotKept(e, ev);
    }
  }

  // ----- one client, one connection

  /** All payloads the client gets in the run are from one connection; who[j] is the one request j is from. */
  ghost predicate OneConnection(evs: seq<Event>, who: seq<nat>, allowed: seq<int>, c: nat)
    requires |who| == |evs|
  {
    forall i: nat, j: nat {:trigger Receiver(evs, allowed, i), Receiver(evs, allowed, j)} ::
      i < |evs| && j < |evs| && Receiver(evs, allowed, i) == Some(c) && Receiver(evs, allowed, j) == Some(c) ==>
        who[i] == who[j]
  }

  /** Request j reads the key of the request i that opened an endpoint, and is from another connection. */
  predicate Returns(evs: seq<Event>, who: seq<nat>, allowed: seq<int>, i: nat, j: nat)
    requires |who| == |evs|
  {
    && i < j < |evs| && Opens(evs, allowed, i) && Asks(evs, allowed, j)
    && KeyAt(evs, allowed, j) == KeyAt(evs, allowed, i) && who[j] != who[i]
  }

  lemma FirstOfClient(evs: seq<Event>, allowed: seq<int>, j: nat, c: nat) returns (i: nat)
    requires NothingBreaks(NONE, evs, allowed) && j < |evs| && Receiver(evs, allowed, j) == Some(c)
    ensures i <= j && Opens(evs, allowed, i) && At(evs, allowed, i).made == c
  {
    hide NothingBreaks, Run, At, PortAllowed, Clients;
    var e := At(evs, allowed, j);
    var k := First(e.list, ForKey(KeyAt(evs, allowed, j)));
    if k < |e.list| {
      ClientOf(e.list, c);
      i := OpenerOf(evs, allowed, j, c);
    } else {
      i := j;
    }
  }

  /** Two payloads for one client from different connections: one of them is not from the connection that opened it. */
  lemma MixedReturns(evs: seq<Event>, who: seq<nat>, allowed: seq<int>, c: nat) returns (i: nat, j: nat)
    requires |who| == |evs| && NothingBreaks(NONE, evs, allowed) && !OneConnection(evs, who, allowed, c)
    ensures Returns(evs, who, allowed, i, j) && !TakenBetween(evs, allowed, i, j, At(evs, allowed, i).made)
  {
    hide NothingBreaks, Run, At, PortAllowed, Clients, Receiver, Opens, TakenBetween, First;
    var a: nat, b: nat :| a < |evs| && b < |evs| && Receiver(evs, allowed, a) == Some(c)
      && Receiver(evs, allowed, b) == Some(c) && who[a] != who[b];
    i := FirstOfClient(evs, allowed, a, c);
    var i' := FirstOfClient(evs, allowed, b, c);
    OneOpener(evs, allowed, i, i');
    j := if who[a] != who[i] then a else b;
    LaterReachesIff(evs, allowed, i, j);
  }

  lemma OneOpener(evs: seq<Event>, allowed: seq<int>, i: nat, j: nat)
    requires NothingBreaks(NONE, evs, allowed) && Opens(evs, allowed, i) && Opens(evs, allowed, j)
    requires i < |evs| && j < |evs| && At(evs, allowed, i).made == At(evs, allowed, j).made
    ensures i == j
  {
    hide NothingBreaks, Run, At, Opens, TakenBetween;
    if i < j {
      LaterIsMore(evs, allowed, i, j);
    } else if j < i {
      LaterIsMore(evs, allowed, j, i);
    }
  }

  lemma LaterIsMore(evs: seq<Event>, allowed: seq<int>, i: nat, j: nat)
    requires NothingBreaks(NONE, evs, allowed) && Opens(evs, allowed, i) && i < j <= |evs|
    ensures At(evs, allowed, i).made < At(evs, allowed, j).made
  {
    hide NothingBreaks, Run, At, Opens, TakenBetween;
    var x := Opened(evs, allowed, i);
    LinkedUntil(evs, allowed, i, j, x);
  }

  /**
   * In every run no client is given payloads of two connections, exactly if, whenever a key comes back with another
   * connection, something took the first one's endpoint before: a notice while it was the newest of its address, an
   * error of its client, or a stop of all.
   */
  lemma ConnectionsApartIff(evs: seq<Event>, who: seq<nat>, allowed: seq<int>)
    requires |who| == |evs| && NothingBreaks(NONE, evs, allowed)
    ensures (forall c :: OneConnection(evs, who, allowed, c)) <==>
      forall i: nat, j: nat :: Returns(evs, who, allowed, i, j) ==>
        TakenBetween(evs, allowed, i, j, At(evs, allowed, i).made)
  {
    hide NothingBreaks, At, Receiver, TakenBetween, Opens, Asks, KeyAt;
    forall c | forall i: nat, j: nat ::
        Returns(evs, who, allowed, i, j) ==> TakenBetween(evs, allowed, i, j, At(evs, allowed, i).made)
      ensures OneConnection(evs, who, allowed, c)
    {
      if !OneConnection(evs, who, allowed, c) {
        var i, j := MixedReturns(evs, who, allowed, c);
        assert false;
      }
    }
    forall i: nat, j: nat | Returns(evs, who, allowed, i, j) && forall c :: OneConnection(evs, who, allowed, c)
      ensures TakenBetween(evs, allowed, i, j, At(evs, allowed, i).made)
    {
      LaterReachesIff(evs, allowed, i, j);
      var x := Opened(evs, allowed, i);
      assert OneConnection(evs, who, allowed, x.client);
    }
  }

  /** What the endpoints are after two connections of one address opened theirs. */
  lemma TwoOpened(address: bytes, port: bytes, device: bytes, a: bytes, b: bytes, attempt: Attempt, allowed: seq<int>)
    requires PortAllowed(allowed, port) && |port| <= SNB_MAX && |address| + 2 <= SNB_MAX && ClientOutcome(attempt).Stays?
    ensures var s := Step(NONE, Request(device, address, port, Ascii("12"), a, attempt), allowed);
      var t := Step(s, Request(device, address, port, Ascii("13"), b, attempt), allowed);
      && t.list == [Endpoint(address + Ascii("13"), Ascii("13"), port, address, 1),
                    Endpoint(address + Ascii("12"), Ascii("12"), port, address, 0)]
      && t.open == {0, 1} && t.made == 2 && t.fate.Running? && Queue(t, 0) == [a]
  {
    hide PortAllowed, First;
    TwoKeys(address);
    var x, y := Endpoint(address + Ascii("12"), Ascii("12"), port, address, 0),
                Endpoint(address + Ascii("13"), Ascii("13"), port, address, 1);
    FirstIs([], ForKey(x.key), 0);
    FirstIs([x], ForKey(y.key), 1);
    assert [y] + [x] == [y, x] && [x] + [] == [x];
  }

  lemma TwoKeys(address: bytes)
    ensures |Ascii("12")| == 2 && |Ascii("13")| == 2 && Ascii("12") != Ascii("13")
    ensures address + Ascii("12") != address + Ascii("13")
  {
    assert Ascii("12")[1] == 50 && Ascii("13")[1] == 51;
    assert (address + Ascii("12"))[|address| + 1] == 50 && (address + Ascii("13"))[|address| + 1] == 51;
  }

  /**
   * Connections 12 and 13 of one address; 12 ends, and its notice takes the endpoint of 13, the newest; then a new
   * connection gets descriptor 12. It writes into the connection of the old one, and 13 is cut off.
   */
  lemma DescriptorComesBack(address: bytes, port: bytes, device: bytes, a: bytes, b: bytes, c: bytes, attempt: Attempt,
                            allowed: seq<int>)
    requires PortAllowed(allowed, port) && |port| <= SNB_MAX && |address| + 2 <= SNB_MAX && ClientOutcome(attempt).Stays?
    ensures var evs := [Request(device, address, port, Ascii("12"), a, attempt),
                        Request(device, address, port, Ascii("13"), b, attempt), Stop(address),
                        Request(device, address, port, Ascii("12"), c, attempt)];
      var e := Run(NONE, evs, allowed);
      && |e.list| == 1 && e.list[0].client == 0 && e.list[0].remoteFd == Ascii("12") && e.open == {0}
      && Queue(e, 0) == [a, c]
  {
    hide PortAllowed, First, Run;
    var one := Request(device, address, port, Ascii("12"), a, attempt);
    var two := Request(device, address, port, Ascii("13"), b, attempt);
    var again := Request(device, address, port, Ascii("12"), c, attempt);
    TwoOpened(address, port, device, a, b, attempt, allowed);
    var t := Step(Step(NONE, one, allowed), two, allowed);
    FourEvents(one, two, Stop(address), again, allowed);
    NoticeAndReturn(t, address, again, allowed);
  }

  lemma FourEvents(a: Event, b: Event, c: Event, d: Event, allowed: seq<int>)
    ensures Run(NONE, [a, b, c, d], allowed) == Step(Step(Step(Step(NONE, a, allowed), b, allowed), c, allowed), d, allowed)
  {
    hide Step;
    assert [a] + [b] == [a, b] && [a, b] + [c] == [a, b, c] && [a, b, c] + [d] == [a, b, c, d] && [] + [a] == [a];
    RunSnoc(NONE, [], a, allowed);
    RunSnoc(NONE, [a], b, allowed);
    RunSnoc(NONE, [a, b], c, allowed);
    RunSnoc(NONE, [a, b, c], d, allowed);
    StartIs(allowed);
  }

  lemma NoticeAndReturn(t: Ends, address: bytes, again: Event, allowed: seq<int>)
    requires |t.list| == 2 && t.list[0].pid == address && t.list[0].client == 1 && t.list[1].client == 0
    requires t.open == {0, 1} && t.fate.Running? && again.Request? && PortAllowed(allowed, again.port)
    requires t.list[1].key == again.address + again.fd
    ensures var e := Step(Step(t, Stop(address), allowed), again, allowed);
      e.list == [t.list[1]] && e.open == {0} && Queue(e, 0) == Queue(t, 0) + [again.body]
  {
    hide PortAllowed, First;
    FirstIs(t.list, ForPid(address), 0);
    var u := Step(t, Stop(address), allowed);
    assert u.list == [t.list[1]] && u.open == {0};
    FirstIs(u.list, ForKey(again.address + again.fd), 0);
  }
}
