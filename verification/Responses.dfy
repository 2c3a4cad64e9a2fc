/** What a tunnel's client is given: which responses reach it over a run, and when they can all leave for its socket. */
module Responses {
  import opened Bytes
  import D = Drain
  import opened HashTable
  import opened Headers
  import opened Locals
  import opened LocalRuns
  import opened Process
  import opened Proto
  import opened Server
  import opened Wrappers

  // ----- the queue is what was given

  ghost predicate Numbered(s: Locals) { forall c, d :: c in s.live && d in s.live && c.id == d.id ==> c == d }

  lemma StepNumbered(s: Locals, ev: Event)
    requires Inv(s) && Numbered(s)
    ensures Numbered(Step(s, ev))
  {
    hide Step, Inv, Enabled;
    StepBrings(s, ev);
    if ev.Accept? {
      OneBrought(s, ev);
    }
    forall c | c in s.live
      ensures c.id < s.made
    {
      KnownClient(s, c);
    }
  }

  lemma OneBrought(s: Locals, ev: Event)
    requires ev.Accept?
    ensures forall c, d :: c in Step(s, ev).live && d in Step(s, ev).live && c !in s.live && d !in s.live ==> c == d
  {
    hide Home, WithClient;
  }

  /** The event gives the client its payload. */
  ghost predicate Gets(s: Locals, ev: Event, c: LocalClient)
  {
    && Enabled(s, ev) && ev.Response? && Indexable(Snprintf(16, ev.fd))
    && ClientFor(s.tunnels, ev.port, Snprintf(16, ev.fd)) == Some(c) && c in s.live
  }

  ghost function Given(s: Locals, evs: seq<Event>, c: LocalClient): seq<bytes>
    decreases |evs|
  {
    if evs == [] then []
    else (if Gets(s, evs[0], c) then [evs[0].body] else []) + Given(Step(s, evs[0]), evs[1..], c)
  }

  lemma QueueStep(s: Locals, ev: Event, c: LocalClient)
    requires Numbered(s) && c in s.live
    ensures Queue(Step(s, ev), c) == Queue(s, c) + if Gets(s, ev, c) then [ev.body] else []
  {
    hide ClientFor, Searched, Home, WithClient, RemShutdown, StopNotice, ServersShut, TunnelNamed, KeyIndex, Snprintf;
    assert Queue(s, c) + [] == Queue(s, c);
  }

  /** Over every run a client's queue grows by the payloads of the responses that find it, in order. */
  lemma {:induction false} QueueIsGiven(s: Locals, evs: seq<Event>, c: LocalClient)
    requires Inv(s) && Numbered(s) && ShortFds(evs) && c in s.live && c in Run(s, evs).live
    ensures Queue(Run(s, evs), c) == Queue(s, c) + Given(s, evs, c)
    decreases |evs|
  {
    hide Step, Inv, Gets, Numbered, Queue;
    if evs == [] {
      assert Queue(s, c) + [] == Queue(s, c);
    } else {
      var next := Step(s, evs[0]);
      KnownClient(s, c);
      StepKeepsInv(s, evs[0]);
      StepBrings(s, evs[0]);
      StepNumbered(s, evs[0]);
      GoneForGood(next, evs[1..], c);
      QueueStep(s, evs[0], c);
      QueueIsGiven(next, evs[1..], c);
      var rest := Given(next, evs[1..], c);
      assert forall b: seq<bytes> :: Queue(s, c) + b + rest == Queue(s, c) + (b + rest);
    }
  }

  // ----- which responses find it

  /** tunnel_client_find does not pass the tunnel. */
  predicate Answers(t: Tunnel, port: bytes, key: bytes)
    requires Indexable(key)
  {
    Searched(t, port) && GetAsWritten(t.clients.value, key).Some?
  }

  lemma {:induction false} FirstAnswer(ts: seq<Tunnel>, port: bytes, key: bytes, j: nat)
    requires Indexable(key) && j <= |ts| && forall i :: 0 <= i < j ==> !Answers(ts[i], port, key)
    ensures ClientFor(ts, port, key) == ClientFor(ts[j..], port, key)
    decreases j
  {
    hide GetAsWritten;
    if j > 0 {
      assert forall i :: 0 <= i < j - 1 ==> ts[1..][i] == ts[i + 1];
      FirstAnswer(ts[1..], port, key, j - 1);
      assert ts[1..][j - 1..] == ts[j..];
    }
  }

  /** Whom a table names under a key that has a bucket. */
  lemma GottenIff(t: ClientTable, live: set<LocalClient>, c: LocalClient, key: bytes)
    requires Kept(t, live, c.home) && FdsDistinct(live) && c in live && c.fd < FD_LIMIT && Indexable(key)
    ensures Indexable(RemKey(c.fd))
    ensures GetAsWritten(t, key) == Some(c) <==>
      Has(t, c) && KeyIndex(key) == KeyIndex(RemKey(c.fd)) && (key == RemKey(c.fd) || |Bucket(t, key)| == 1)
  {
    hide KeyIndex, AddKey, RemKey, Find;
    KeysIndexable(c.fd);
    KeysAgreeIff(c.fd);
    var b := Bucket(t, key);
    if GetAsWritten(t, key) == Some(c) {
      GottenIsEntry(t, key);
      if |b| == 1 {
        EntryHas(t, KeyIndex(key), 0);
      } else {
        FoundAt(b, key);
        var i :| 0 <= i < |b| && b[i].key == key && Find(b, key) == Some(b[i].value);
        EntryHas(t, KeyIndex(key), i);
      }
    }
    if Has(t, c) && KeyIndex(key) == KeyIndex(RemKey(c.fd)) && (key == RemKey(c.fd) || |b| == 1) {
      var i := HasEntry(t, c);
      if key == RemKey(c.fd) {
        GetAgreesIff(t, key);
      }
    }
  }

  /**
   * A response reaches a client whose tunnel is still there exactly if the table has the client, the response is for the
   * tunnel's port, and it names the client's descriptor, or another of the same bucket if the client is alone there; and
   * if no earlier tunnel to that port answers.
   */
  lemma GetsIff(s: Locals, c: LocalClient, j: nat, ev: Event)
    requires Inv(s) && c in s.live && j < |s.tunnels| && s.tunnels[j].id == c.home && s.tunnels[j].clients.Some?
    requires s.fate.Running? && ev.Response? && Indexable(Snprintf(16, ev.fd))
    ensures Indexable(RemKey(c.fd))
    ensures var t, key := s.tunnels[j], Snprintf(16, ev.fd);
      Gets(s, ev, c) <==>
        && t.pair.portRemote == ev.port && Has(t.clients.value, c) && KeyIndex(key) == KeyIndex(RemKey(c.fd))
        && (key == RemKey(c.fd) || |Bucket(t.clients.value, key)| == 1)
        && forall i :: 0 <= i < j ==> !Answers(s.tunnels[i], ev.port, key)
  {
    hide Kept, Has, KeyIndex, RemKey, AddKey, GetAsWritten, Find, Snprintf, IdsDistinct, FdsDistinct, ClientFor, Bucket;
    var ts, t, key := s.tunnels, s.tunnels[j], Snprintf(16, ev.fd);
    KnownClient(s, c);
    assert t in ts && TableKept(t, s.live);
    GottenIff(t.clients.value, s.live, c, key);
    if forall i :: 0 <= i < j ==> !Answers(ts[i], ev.port, key) {
      FirstAnswer(ts, ev.port, key, j);
      AtHome(s, c, j, ev.port, key);
    } else {
      var i := Earliest(ts, ev.port, key, j);
      FirstAnswer(ts, ev.port, key, i);
      NotElsewhere(s, c, i, j, key);
      HeadAnswers(ts[i..], ev.port, key);
    }
  }

  lemma Earliest(ts: seq<Tunnel>, port: bytes, key: bytes, j: nat) returns (i: nat)
    requires Indexable(key) && j <= |ts| && exists m :: 0 <= m < j && Answers(ts[m], port, key)
    ensures i < j && Answers(ts[i], port, key) && forall m :: 0 <= m < i ==> !Answers(ts[m], port, key)
  {
    hide Answers;
    i := 0;
    while !Answers(ts[i], port, key)
      invariant i < j && forall m :: 0 <= m < i ==> !Answers(ts[m], port, key)
      decreases j - i
    {
      assert exists m :: i < m < j && Answers(ts[m], port, key);
      i := i + 1;
    }
  }

  lemma HeadAnswers(ts: seq<Tunnel>, port: bytes, key: bytes)
    requires Indexable(key) && ts != []
    ensures Answers(ts[0], port, key) ==> ClientFor(ts, port, key) == GetAsWritten(ts[0].clients.value, key)
    ensures !Answers(ts[0], port, key) ==> ClientFor(ts, port, key) == ClientFor(ts[1..], port, key)
  {
    hide GetAsWritten;
  }

  /** An earlier tunnel's table does not name the client. */
  lemma NotElsewhere(s: Locals, c: LocalClient, i: nat, j: nat, key: bytes)
    requires Inv(s) && c in s.live && i < j < |s.tunnels| && s.tunnels[j].id == c.home
    requires s.tunnels[i].clients.Some? && Indexable(key)
    ensures GetAsWritten(s.tunnels[i].clients.value, key) != Some(c)
  {
    hide Kept, Has, KeyIndex, GetAsWritten;
    var u := s.tunnels[i];
    KnownClient(s, c);
    assert u in s.tunnels && TableKept(u, s.live) && u.id != c.home;
    ElsewhereGets(u, s.live, c);
    GottenNotHere(u, s.live, key, c);
  }

  /** No later tunnel's table names it either: the search stops at its own or goes on in vain. */
  lemma AtHome(s: Locals, c: LocalClient, j: nat, port: bytes, key: bytes)
    requires Inv(s) && c in s.live && j < |s.tunnels| && s.tunnels[j].id == c.home && s.tunnels[j].clients.Some?
    requires Indexable(key)
    ensures ClientFor(s.tunnels[j..], port, key) == Some(c) <==>
      s.tunnels[j].pair.portRemote == port && GetAsWritten(s.tunnels[j].clients.value, key) == Some(c)
  {
    hide Kept, Has, KeyIndex, GetAsWritten, ClientFor, Inv;
    var ts, rest := s.tunnels[j..], s.tunnels[j + 1..];
    assert ts[0] == s.tunnels[j] && ts[1..] == rest;
    HeadAnswers(ts, port, key);
    LaterVain(s, c, j, port, key);
  }

  lemma LaterVain(s: Locals, c: LocalClient, j: nat, port: bytes, key: bytes)
    requires Inv(s) && c in s.live && j < |s.tunnels| && s.tunnels[j].id == c.home && Indexable(key)
    ensures ClientFor(s.tunnels[j + 1..], port, key) != Some(c)
  {
    hide Kept, Has, KeyIndex, ClientFor, FdsDistinct;
    var rest := s.tunnels[j + 1..];
    KnownClient(s, c);
    AllRegistered(s.tunnels, s.live);
    assert forall t :: t in rest ==> t in s.tunnels && t.id != c.home by {
      assert forall k :: 0 <= k < |rest| ==> rest[k] == s.tunnels[j + 1 + k];
    }
    ClientForIsEntry(rest, port, key);
    forall u | u in rest && u.clients.Some?
      ensures !Has(u.clients.value, c)
    {
      ElsewhereGets(u, s.live, c);
    }
  }

  // ----- exactly its own

  /** A response for the port that names the client's descriptor. */
  predicate Names(ev: Event, port: bytes, c: LocalClient)
  {
    ev.Response? && ev.port == port && Snprintf(16, ev.fd) == RemKey(c.fd)
  }

  function NamedBodies(evs: seq<Event>, port: bytes, c: LocalClient): seq<bytes>
  {
    if evs == [] then [] else (if Names(evs[0], port, c) then [evs[0].body] else []) + NamedBodies(evs[1..], port, c)
  }

  /** The client's tunnel is number j, has the port, and its table has the client. */
  ghost predicate Reachable(s: Locals, c: LocalClient, port: bytes, j: nat)
  {
    && j < |s.tunnels| && s.tunnels[j].id == c.home && s.tunnels[j].clients.Some?
    && s.tunnels[j].pair.portRemote == port && Has(s.tunnels[j].clients.value, c)
  }

  /**
   * What can go wrong at a response for the port: one that names the client meets an earlier tunnel that answers, or one
   * that names another meets the client alone in that one's bucket.
   */
  ghost predicate Fair(s: Locals, ev: Event, c: LocalClient, port: bytes, j: nat)
    requires j < |s.tunnels| && s.tunnels[j].clients.Some?
  {
    ev.Response? && Indexable(Snprintf(16, ev.fd)) && ev.port == port ==>
      var key := Snprintf(16, ev.fd);
      var free := forall i :: 0 <= i < j ==> !Answers(s.tunnels[i], port, key);
      if key == RemKey(c.fd) then free
      else KeyIndex(key) == KeyIndex(RemKey(c.fd)) && free ==> |Bucket(s.tunnels[j].clients.value, key)| != 1
  }

  ghost predicate FairAt(s: Locals, ev: Event, c: LocalClient, port: bytes, j: nat)
  {
    Reachable(s, c, port, j) && Fair(s, ev, c, port, j)
  }

  ghost predicate AlwaysFair(s: Locals, evs: seq<Event>, c: LocalClient, port: bytes)
    decreases |evs|
  {
    evs != [] ==>
      (exists j: nat :: FairAt(s, evs[0], c, port, j)) && s.fate.Running?
      && AlwaysFair(Step(s, evs[0]), evs[1..], c, port)
  }

  lemma FairIff(s: Locals, ev: Event, c: LocalClient, port: bytes, j: nat)
    requires Inv(s) && c in s.live && s.fate.Running? && Reachable(s, c, port, j)
    ensures (Gets(s, ev, c) <==> Names(ev, port, c)) <==> Fair(s, ev, c, port, j)
  {
    hide Kept, Has, KeyIndex, RemKey, AddKey, GetAsWritten, Snprintf, IdsDistinct, FdsDistinct, ClientFor, Bucket, Answers;
    KeysIndexable(c.fd);
    if ev.Response? && Indexable(Snprintf(16, ev.fd)) {
      GetsIff(s, c, j, ev);
    }
  }

  /**
   * Over every run in which a client stays registered and no response for its port goes wrong, it is given exactly the
   * responses that name its descriptor at that port, all of them, in order.
   */
  lemma {:induction false} OwnInOrder(s: Locals, evs: seq<Event>, c: LocalClient, port: bytes)
    requires Inv(s) && Numbered(s) && ShortFds(evs) && c in s.live && c in Run(s, evs).live
    requires AlwaysFair(s, evs, c, port)
    ensures Queue(Run(s, evs), c) == Queue(s, c) + NamedBodies(evs, port, c)
  {
    hide Run, Queue, AlwaysFair, Numbered, Inv;
    QueueIsGiven(s, evs, c);
    GivenIsNamed(s, evs, c, port);
  }

  lemma {:induction false} GivenIsNamed(s: Locals, evs: seq<Event>, c: LocalClient, port: bytes)
    requires Inv(s) && ShortFds(evs) && c in s.live && c in Run(s, evs).live && AlwaysFair(s, evs, c, port)
    ensures Given(s, evs, c) == NamedBodies(evs, port, c)
    decreases |evs|
  {
    hide Step, Inv, Gets, Names, Fair;
    if evs != [] {
      var next := Step(s, evs[0]);
      var j: nat :| FairAt(s, evs[0], c, port, j);
      KnownClient(s, c);
      StepKeepsInv(s, evs[0]);
      StepBrings(s, evs[0]);
      GoneForGood(next, evs[1..], c);
      FairIff(s, evs[0], c, port, j);
      GivenIsNamed(next, evs[1..], c, port);
    }
  }

  // ----- and out again

  /** What a run from the start keeps: numbers are used once, and only clients that were made have queues. */
  ghost predicate Tracked(s: Locals) { Inv(s) && Numbered(s) && forall id :: id in s.queued ==> id < s.made }

  lemma StepTracked(s: Locals, ev: Event)
    requires Tracked(s) && (ev.Accept? ==> ev.descriptor < FD_LIMIT)
    ensures Tracked(Step(s, ev))
  {
    hide Inv, Numbered, Enabled, Step;
    StepKeepsInv(s, ev);
    StepNumbered(s, ev);
    StepQueued(s, ev);
  }

  lemma StepQueued(s: Locals, ev: Event)
    requires Inv(s)
    ensures forall id :: id in Step(s, ev).queued ==> id in s.queued || id < s.made
  {
    hide ClientFor, Searched, Home, WithClient, RemShutdown, StopNotice, ServersShut, TunnelNamed, KeyIndex, Snprintf, Kept;
  }

  lemma {:induction false} RunTracked(s: Locals, evs: seq<Event>)
    requires Tracked(s) && ShortFds(evs)
    ensures Tracked(Run(s, evs))
    decreases |evs|
  {
    hide Tracked, Step;
    if evs != [] {
      StepTracked(s, evs[0]);
      RunTracked(Step(s, evs[0]), evs[1..]);
    }
  }

  /**
   * A client of a tunnel, accepted in any run and then through any run, while its socket is written to in any way: its
   * send queue can be emptied exactly if none of the responses that reached it was empty.
   */
  lemma SocketEmptiesIff(before: seq<Event>, id: nat, fd: nat, evs: seq<Event>, es: seq<D.Event>)
    requires ShortFds(before) && ShortFds(evs) && fd < FD_LIMIT && Enabled(Run(NOBODY, before), Accept(id, fd))
    requires var s := Run(NOBODY, before); var c, next := LocalClient(s.made, fd, id), Step(s, Accept(id, fd));
      c in next.live && c in Run(next, evs).live && D.Bodies(es) == Queue(Run(next, evs), c)
    ensures var s := Run(NOBODY, before); var c, next := LocalClient(s.made, fd, id), Step(s, Accept(id, fd));
      (exists ws :: D.OnlyWrites(ws) && D.Run(D.Run(D.EMPTY, es), ws).queue == []) <==> [] !in Given(next, evs, c)
  {
    hide Run, Given, Inv, D.Run, D.Bodies, Home, WithClient, Numbered;
    var s := Run(NOBODY, before);
    var c, next := LocalClient(s.made, fd, id), Step(s, Accept(id, fd));
    NobodyTracked();
    RunTracked(NOBODY, before);
    StepKeepsInv(s, Accept(id, fd));
    StepNumbered(s, Accept(id, fd));
    QueueIsGiven(next, evs, c);
    assert Queue(next, c) == [] && [] + Given(next, evs, c) == Given(next, evs, c);
    D.QueueEmptiesIff(es);
  }

  lemma NobodyTracked()
    ensures Tracked(NOBODY)
  {
    StartInv();
  }
}
