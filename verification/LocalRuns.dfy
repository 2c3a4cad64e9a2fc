/**
 * Clients of the tunnels' servers over whole runs: how long the table keeps a client, whom a shutdown reaches, and where
 * a response goes.
 */
module LocalRuns {
  import opened Bytes
  import opened HashTable
  import opened Headers
  import opened Locals
  import opened Process
  import opened Proto
  import opened Server
  import opened Tokens
  import opened Wrappers

  // ----- a client and its entry

  /** Its tunnel's table has the client. */
  ghost predicate Holds(ts: seq<Tunnel>, c: LocalClient)
  {
    exists t :: t in ts && t.id == c.home && t.clients.Some? && Has(t.clients.value, c)
  }

  /** Its tunnel is still there. */
  predicate Settled(ts: seq<Tunnel>, c: LocalClient) { exists t :: t in ts && t.id == c.home }

  lemma HoldsIs(ts: seq<Tunnel>, i: nat, c: LocalClient)
    requires IdsDistinct(ts) && i < |ts| && ts[i].id == c.home
    ensures Holds(ts, c) <==> ts[i].clients.Some? && Has(ts[i].clients.value, c)
    ensures Settled(ts, c) && Home(ts, c.home) == i
  {
    hide Has;
    HomeIs(ts, i);
    forall t | t in ts && t.id == c.home
      ensures t == ts[i]
    {
      SameId(ts, t, ts[i]);
    }
  }

  lemma HoldsPart(ts: seq<Tunnel>, left: seq<Tunnel>, c: LocalClient)
    requires IdsDistinct(ts) && (forall t :: t in left ==> t in ts) && Settled(left, c)
    ensures Holds(left, c) <==> Holds(ts, c)
  {
    hide Has;
    var u :| u in left && u.id == c.home;
    forall t | t in ts && t.id == c.home
      ensures t == u
    {
      SameId(ts, t, u);
    }
  }

  lemma HoldsSame(ts: seq<Tunnel>, us: seq<Tunnel>, c: LocalClient)
    requires |ts| == |us| && forall k :: 0 <= k < |ts| ==> ts[k].id == us[k].id && ts[k].clients == us[k].clients
    ensures Holds(us, c) <==> Holds(ts, c)
    ensures Settled(us, c) <==> Settled(ts, c)
  {
    hide Has;
    forall t | t in ts
      ensures exists u :: u in us && u.id == t.id && u.clients == t.clients
    {
      var k :| 0 <= k < |ts| && ts[k] == t;
      assert us[k] in us;
    }
    forall u | u in us
      ensures exists t :: t in ts && u.id == t.id && u.clients == t.clients
    {
      var k :| 0 <= k < |us| && us[k] == u;
      assert ts[k] in ts;
    }
  }

  /** Tunnel i gets another table: only its own clients are concerned. */
  lemma HoldsReplaced(s: Locals, i: nat, t: ClientTable, c: LocalClient)
    requires i < |s.tunnels| && IdsDistinct(s.tunnels)
    ensures var ts := WithTable(s, i, t).tunnels;
      && (s.tunnels[i].id == c.home ==> (Holds(ts, c) <==> Has(t, c)))
      && (s.tunnels[i].id != c.home ==> (Holds(ts, c) <==> Holds(s.tunnels, c)))
      && (Settled(ts, c) <==> Settled(s.tunnels, c))
  {
    hide Has;
    var ts := WithTable(s, i, t).tunnels;
    forall u | u in s.tunnels && u.id != s.tunnels[i].id
      ensures u in ts
    {
      var k :| 0 <= k < |s.tunnels| && s.tunnels[k] == u;
      assert ts[k] == u;
    }
    forall u | u in ts
      ensures u == ts[i] || u in s.tunnels
    {
      var k :| 0 <= k < |ts| && ts[k] == u;
      assert k != i ==> s.tunnels[k] == u;
    }
    if s.tunnels[i].id == c.home {
      HoldsIs(s.tunnels, i, c);
      HoldsIs(ts, i, c);
    }
    assert ts[i] in ts && s.tunnels[i] in s.tunnels;
  }

  /** Another client of the same bucket hangs up, and is found in the table: ht_rem clears the bucket. */
  ghost predicate Clears(s: Locals, ev: Event, c: LocalClient)
  {
    && Enabled(s, ev) && ev.HangUp? && ev.client != c && ev.client.home == c.home
    && Holds(s.tunnels, ev.client) && SameBucket(ev.client, c)
  }

  lemma HangUpHolds(s: Locals, d: LocalClient, c: LocalClient)
    requires Inv(s) && d in s.live && c in s.live && c != d && Settled(s.tunnels, c)
    ensures Settled(HungUp(s, d).tunnels, c)
    ensures Holds(HungUp(s, d).tunnels, c)
      <==> Holds(s.tunnels, c) && !(d.home == c.home && Holds(s.tunnels, d) && SameBucket(d, c))
  {
    hide Kept, Has, RemShutdown, Home, StopNotice, SameBucket;
    var i := Home(s.tunnels, d.home);
    if i < |s.tunnels| && s.tunnels[i].clients.Some? {
      var t := s.tunnels[i].clients.value;
      assert s.tunnels[i] in s.tunnels && TableKept(s.tunnels[i], s.live);
      HoldsIs(s.tunnels, i, d);
      HoldsReplaced(s, i, RemShutdown(t, d), c);
      KeptRem(t, s.live, d);
      if c.home == d.home {
        HoldsIs(s.tunnels, i, c);
      }
    } else {
      NoTable(s.tunnels, d);
    }
  }

  lemma NoTable(ts: seq<Tunnel>, d: LocalClient)
    requires IdsDistinct(ts)
    requires var i := Home(ts, d.home); i == |ts| || ts[i].clients.None?
    ensures !Holds(ts, d)
  {
    hide Has;
    forall t | t in ts && t.id == d.home
      ensures t.clients.None?
    {
      var k :| 0 <= k < |ts| && ts[k] == t;
      HomeIs(ts, k);
    }
  }

  lemma AcceptHolds(s: Locals, id: nat, fd: nat, c: LocalClient)
    requires Inv(s) && fd < FD_LIMIT && forall d :: d in s.live ==> d.fd != fd
    ensures Settled(Accepted(s, id, fd).tunnels, c) <==> Settled(s.tunnels, c)
    ensures c in s.live ==> (Holds(Accepted(s, id, fd).tunnels, c) <==> Holds(s.tunnels, c))
    ensures c in Accepted(s, id, fd).live && c !in s.live ==> Holds(Accepted(s, id, fd).tunnels, c)
  {
    hide Kept, Has, WithClient, Home;
    var i := Home(s.tunnels, id);
    if i < |s.tunnels| && s.tunnels[i].clients.Some? {
      var new_, t := LocalClient(s.made, fd, id), s.tunnels[i].clients.value;
      assert s.tunnels[i] in s.tunnels && TableKept(s.tunnels[i], s.live);
      KeptAdd(t, s.live, new_);
      HoldsReplaced(s, i, WithClient(t, new_), c);
      if c.home == id {
        HoldsIs(s.tunnels, i, c);
      }
    }
  }

  /** While a client and its tunnel last, its entry lasts exactly until one of its bucket hangs up. */
  lemma HoldsStep(s: Locals, ev: Event, c: LocalClient)
    requires Inv(s) && (ev.Accept? ==> ev.descriptor < FD_LIMIT) && c in s.live
    requires c in Step(s, ev).live && Settled(Step(s, ev).tunnels, c)
    ensures Settled(s.tunnels, c)
    ensures Holds(Step(s, ev).tunnels, c) <==> Holds(s.tunnels, c) && !Clears(s, ev, c)
  {
    hide Kept, Has, SameBucket, Home, ServersShut, IdsDistinct, People, TunnelNamed, Named, ClientFor, Searched;
    hide Accepted, HungUp, Holds, Settled;
    if Enabled(s, ev) {
      match ev
      case Open(pair, server) =>
        OpenHolds(s, pair, server, c);
      case StopPid(pid) =>
        PartStays(s.tunnels, WithoutPid(s.tunnels, pid), c);
        HoldsPart(s.tunnels, WithoutPid(s.tunnels, pid), c);
      case StopEvery =>
        PartStays(s.tunnels, [], c);
        HoldsPart(s.tunnels, [], c);
      case Rename(argv) =>
        HoldsSame(s.tunnels, Step(s, ev).tunnels, c);
      case Accept(id, fd) =>
        AcceptHolds(s, id, fd, c);
      case HangUp(d) =>
        HangUpSettled(s, d, c);
        GoneIs(s, d, c);
        HangUpHolds(s, d, c);
      case Data(_, _) =>
      case Response(_, _, _) =>
      case Notice(_) =>
      case Overlong =>
    }
  }

  lemma GoneIs(s: Locals, d: LocalClient, c: LocalClient)
    requires c in HungUp(s, d).live
    ensures c != d
  {
    hide Home, RemShutdown, StopNotice;
  }

  lemma HangUpSettled(s: Locals, d: LocalClient, c: LocalClient)
    requires Inv(s) && Settled(HungUp(s, d).tunnels, c)
    ensures Settled(s.tunnels, c)
  {
    hide Kept, Home, RemShutdown, StopNotice, Has;
    var i := Home(s.tunnels, d.home);
    if i < |s.tunnels| && s.tunnels[i].clients.Some? {
      HoldsReplaced(s, i, RemShutdown(s.tunnels[i].clients.value, d), c);
    }
  }

  lemma PartStays(ts: seq<Tunnel>, left: seq<Tunnel>, c: LocalClient)
    requires (forall t :: t in left ==> t in ts) && Settled(left, c)
    ensures Settled(ts, c)
  {
  }

  lemma OpenHolds(s: Locals, pair: Pair, server: bool, c: LocalClient)
    requires Inv(s) && c in s.live
    ensures Settled(Linked(s, pair, server).tunnels, c) <==> Settled(s.tunnels, c)
    ensures Holds(Linked(s, pair, server).tunnels, c) <==> Holds(s.tunnels, c)
  {
    hide Kept, Has, EmptyTable;
    var ts := Linked(s, pair, server).tunnels;
    assert forall t :: t in ts <==> t == ts[0] || t in s.tunnels;
  }

  // ----- whole runs

  lemma {:induction false} RunAppend(s: Locals, evs: seq<Event>, more: seq<Event>)
    ensures Run(s, evs + more) == Run(Run(s, evs), more)
    decreases |evs|
  {
    hide Step;
    if evs == [] {
      assert evs + more == more;
    } else {
      assert (evs + more)[1..] == evs[1..] + more;
      RunAppend(Step(s, evs[0]), evs[1..], more);
    }
  }

  /** Clients come by accept() only, tunnels by gc_tunnel_add. */
  lemma StepBrings(s: Locals, ev: Event)
    requires Inv(s)
    ensures forall c :: c in Step(s, ev).live && c !in s.live ==> c.id == s.made && Enabled(s, ev) && ev.Accept?
    ensures forall t :: t in Step(s, ev).tunnels && t.id < s.numbered ==> exists u :: u in s.tunnels && u.id == t.id
    ensures Step(s, ev).numbered >= s.numbered
  {
    hide Kept, Home, ServersShut, IdsDistinct, FdsDistinct, TunnelNamed, Named, ClientFor, Searched, WithClient, RemShutdown;
    hide StopNotice, TableKept;
    if ev.StopPid? {
      PartsDistinct(s.tunnels, ev.pid);
      ServersShutFacts(s, WithPid(s.tunnels, ev.pid));
    } else if ev.StopEvery? {
      ServersShutFacts(s, s.tunnels);
    } else if ev.Rename? || ev.Accept? || ev.HangUp? {
      StepIds(s, ev);
    }
  }

  lemma StepIds(s: Locals, ev: Event)
    requires ev.Rename? || ev.Accept? || ev.HangUp?
    ensures forall t :: t in Step(s, ev).tunnels ==> exists u :: u in s.tunnels && u.id == t.id
  {
    hide Home, TunnelNamed, Named, WithClient, RemShutdown, StopNotice;
    var next := Step(s, ev);
    forall t | t in next.tunnels
      ensures exists u :: u in s.tunnels && u.id == t.id
    {
      var k :| 0 <= k < |next.tunnels| && next.tunnels[k] == t;
      assert s.tunnels[k] in s.tunnels;
    }
  }

  /** A client that hung up, and a tunnel that was stopped, do not come back. */
  lemma {:induction false} GoneForGood(s: Locals, evs: seq<Event>, c: LocalClient)
    requires Inv(s) && ShortFds(evs) && c.id < s.made && c.home < s.numbered
    ensures c !in s.live ==> c !in Run(s, evs).live
    ensures !Settled(s.tunnels, c) ==> !Settled(Run(s, evs).tunnels, c)
    decreases |evs|
  {
    hide Step, Inv, Enabled;
    if evs != [] {
      StepBrings(s, evs[0]);
      StepKeepsInv(s, evs[0]);
      GoneForGood(Step(s, evs[0]), evs[1..], c);
    }
  }

  /** No event of the run clears the client's bucket. */
  ghost predicate Spared(s: Locals, evs: seq<Event>, c: LocalClient)
    decreases |evs|
  {
    evs != [] ==> !Clears(s, evs[0], c) && Spared(Step(s, evs[0]), evs[1..], c)
  }

  lemma KnownClient(s: Locals, c: LocalClient)
    requires Inv(s) && c in s.live
    ensures c.id < s.made && c.home < s.numbered && c.fd < FD_LIMIT
  {
  }

  /** Over any run: a client and its tunnel last; its entry does too exactly if its bucket is spared. */
  lemma {:induction false} HoldsIffSpared(s: Locals, evs: seq<Event>, c: LocalClient)
    requires Inv(s) && ShortFds(evs) && c in s.live
    requires c in Run(s, evs).live && Settled(Run(s, evs).tunnels, c)
    ensures Holds(Run(s, evs).tunnels, c) <==> Holds(s.tunnels, c) && Spared(s, evs, c)
    decreases |evs|
  {
    hide Step, Inv, Holds, Settled, Clears;
    if evs != [] {
      var next := Step(s, evs[0]);
      KnownClient(s, c);
      StepKeepsInv(s, evs[0]);
      StepBrings(s, evs[0]);
      GoneForGood(next, evs[1..], c);
      HoldsStep(s, evs[0], c);
      HoldsIffSpared(next, evs[1..], c);
    }
  }

  /** Event k of the run accepted the client, and no later one cleared its bucket. */
  ghost predicate SparedFrom(evs: seq<Event>, k: nat, c: LocalClient)
  {
    && k < |evs| && c !in Run(NOBODY, evs[..k]).live && c in Run(NOBODY, evs[..k + 1]).live
    && Spared(Run(NOBODY, evs[..k + 1]), evs[k + 1..], c)
  }

  lemma {:induction false} AcceptedAt(evs: seq<Event>, c: LocalClient) returns (k: nat)
    requires c in Run(NOBODY, evs).live
    ensures k < |evs| && c !in Run(NOBODY, evs[..k]).live && c in Run(NOBODY, evs[..k + 1]).live
    decreases |evs|
  {
    hide Step;
    if evs == [] {
      assert false;
    }
    var n := |evs| - 1;
    assert evs[..n + 1] == evs;
    if c in Run(NOBODY, evs[..n]).live {
      k := AcceptedAt(evs[..n], c);
      assert evs[..n][..k] == evs[..k] && evs[..n][..k + 1] == evs[..k + 1];
    } else {
      k := n;
    }
  }

  /** The step that brings a client enters it in its tunnel's table. */
  lemma BroughtHolds(s: Locals, ev: Event, c: LocalClient)
    requires Inv(s) && (ev.Accept? ==> ev.descriptor < FD_LIMIT) && c !in s.live && c in Step(s, ev).live
    ensures Holds(Step(s, ev).tunnels, c)
  {
    hide Inv, Holds, Settled, Accepted;
    StepBrings(s, ev);
    AcceptHolds(s, ev.id, ev.descriptor, c);
  }

  lemma RunSplit(evs: seq<Event>, k: nat)
    requires k < |evs| && ShortFds(evs)
    ensures var before, after := Run(NOBODY, evs[..k]), Run(NOBODY, evs[..k + 1]);
      && Inv(before) && Inv(after) && after == Step(before, evs[k]) && Run(after, evs[k + 1..]) == Run(NOBODY, evs)
  {
    hide Step, Inv, Run, ShortFds;
    StartInv();
    ShortParts(evs, k);
    CutTwice(evs, k);
    RunKeepsInv(NOBODY, evs[..k]);
    RunAppend(NOBODY, evs[..k], [evs[k]]);
    RunAppend(NOBODY, evs[..k + 1], evs[k + 1..]);
    RunKeepsInv(NOBODY, evs[..k + 1]);
    RunOne(Run(NOBODY, evs[..k]), evs[k]);
  }

  lemma ShortParts(evs: seq<Event>, k: nat)
    requires k < |evs| && ShortFds(evs)
    ensures ShortFds(evs[..k]) && ShortFds(evs[..k + 1])
  {
  }

  lemma CutTwice<T>(s: seq<T>, k: nat)
    requires k < |s|
    ensures s[..k + 1] == s[..k] + [s[k]] && s == s[..k + 1] + s[k + 1..]
  {
  }

  lemma RunOne(s: Locals, ev: Event)
    ensures Run(s, [ev]) == Step(s, ev)
  {
    hide Step;
    assert [ev][1..] == [];
    assert Run(Step(s, ev), []) == Step(s, ev);
  }

  /**
   * After every run of accepts, hang-ups, requests, responses and tunnels that come and go: an existing client of a
   * tunnel that is still there is in its table exactly if, since it was accepted, no client of its bucket that was in the
   * table has hung up.
   */
  lemma HeldIff(evs: seq<Event>, c: LocalClient)
    requires ShortFds(evs) && c in Run(NOBODY, evs).live && Settled(Run(NOBODY, evs).tunnels, c)
    ensures Holds(Run(NOBODY, evs).tunnels, c) <==> exists k: nat :: SparedFrom(evs, k, c)
  {
    hide Run, Holds, Settled, Spared, Inv, Step;
    if Holds(Run(NOBODY, evs).tunnels, c) {
      var k := AcceptedAt(evs, c);
      RunSplit(evs, k);
      HoldsIffSpared(Run(NOBODY, evs[..k + 1]), evs[k + 1..], c);
      assert SparedFrom(evs, k, c);
    }
    if k: nat :| SparedFrom(evs, k, c) {
      RunSplit(evs, k);
      BroughtHolds(Run(NOBODY, evs[..k]), evs[k], c);
      HoldsIffSpared(Run(NOBODY, evs[..k + 1]), evs[k + 1..], c);
    }
  }

  // ----- shutdown

  /**
   * After every run: shutting a tunnel's server down reaches every existing client of it, each once, exactly if none of
   * them lost its entry and no two share a bucket.
   */
  lemma ShutdownReachesLiveIff(evs: seq<Event>, t: Tunnel)
    requires ShortFds(evs) && t in Run(NOBODY, evs).tunnels && t.clients.Some?
    ensures var mine := Mine(Run(NOBODY, evs).live, t.id);
      multiset(Heads(t.clients.value, HT_MAX)) == multiset(mine) <==>
        (forall c :: c in mine ==> exists k: nat :: SparedFrom(evs, k, c)) && NoneShare(mine)
  {
    hide Run, Kept, Has, Heads, SparedFrom, NoneShare;
    var s := Run(NOBODY, evs);
    StartInv();
    RunKeepsInv(NOBODY, evs);
    assert TableKept(t, s.live);
    ShutdownReachesIff(t.clients.value, s.live, t.id);
    var i :| 0 <= i < |s.tunnels| && s.tunnels[i] == t;
    forall c | c in Mine(s.live, t.id)
      ensures Has(t.clients.value, c) <==> exists k: nat :: SparedFrom(evs, k, c)
    {
      HoldsIs(s.tunnels, i, c);
      HeldIff(evs, c);
    }
  }

  // ----- routing

  /** The bucket of the key holds one client, whoever it is. */
  predicate Lone(t: Tunnel, port: bytes, key: bytes)
    requires Indexable(key)
  {
    Searched(t, port) && |Bucket(t.clients.value, key)| == 1
  }

  /** tunnel_client_find returns what some table on the way has. */
  lemma {:induction false} ClientForIsEntry(ts: seq<Tunnel>, port: bytes, key: bytes)
    requires Indexable(key) && forall t :: t in ts && t.clients.Some? ==> Registered(t.clients.value)
    ensures var r := ClientFor(ts, port, key);
      r.Some? ==> exists t :: t in ts && Searched(t, port) && Has(t.clients.value, r.value)
  {
    hide KeyIndex, AddKey, Registered, Lookup;
    if ts != [] {
      ClientForIsEntry(ts[1..], port, key);
      if Searched(ts[0], port) && GetAsWritten(ts[0].clients.value, key).Some? {
        GottenIsEntry(ts[0].clients.value, key);
        assert ts[0] in ts;
      }
    }
  }

  lemma GottenIsEntry(t: ClientTable, key: bytes)
    requires Registered(t) && Indexable(key) && GetAsWritten(t, key).Some?
    ensures Has(t, GetAsWritten(t, key).value)
  {
    hide KeyIndex, AddKey, Find;
    var c := Bucket(t, key);
    if |c| == 1 {
      EntryHas(t, KeyIndex(key), 0);
    } else {
      FoundAt(c, key);
      var i :| 0 <= i < |c| && c[i].key == key && Find(c, key) == Some(c[i].value);
      EntryHas(t, KeyIndex(key), i);
    }
  }

  lemma {:induction false} FoundAt<V>(c: Chain<V>, key: bytes)
    requires Find(c, key).Some?
    ensures exists i :: 0 <= i < |c| && c[i].key == key && Find(c, key) == Some(c[i].value)
  {
    if c[0].key != key {
      FoundAt(c[1..], key);
      var i :| 0 <= i < |c[1..]| && c[1..][i].key == key && Find(c[1..], key) == Some(c[1..][i].value);
      assert c[i + 1].key == key;
    }
  }

  /** What a table has to say about a client of another tunnel. */
  lemma ElsewhereGets(t: Tunnel, live: set<LocalClient>, c: LocalClient)
    requires TableKept(t, live) && t.clients.Some? && FdsDistinct(live) && c in live && c.fd < FD_LIMIT && t.id != c.home
    ensures Indexable(RemKey(c.fd)) && !Has(t.clients.value, c)
    ensures GetAsWritten(t.clients.value, RemKey(c.fd)).Some? <==> |Bucket(t.clients.value, RemKey(c.fd))| == 1
  {
    hide KeyIndex, AddKey, RemKey, Find;
    KeysAgreeIff(c.fd);
    KeyPresentIff(t.clients.value, live, t.id, c);
    if Has(t.clients.value, c) {
      var i := HasEntry(t.clients.value, c);
      assert false;
    }
    GetAgreesIff(t.clients.value, RemKey(c.fd));
  }

  /**
   * A response under its tunnel's port and its descriptor finds an existing client exactly if its tunnel's table still
   * has it and no earlier tunnel to that port has a bucket of one in the same place.
   */
  lemma {:induction false} FoundIff(s: Locals, ts: seq<Tunnel>, j: nat, c: LocalClient)
    requires FdsDistinct(s.live) && c in s.live && c.fd < FD_LIMIT
    requires j < |ts| && ts[j].id == c.home && ts[j].clients.Some?
    requires forall t :: t in ts ==> TableKept(t, s.live)
    requires IdsDistinct(ts)
    ensures Indexable(RemKey(c.fd))
    ensures ClientFor(ts, ts[j].pair.portRemote, RemKey(c.fd)) == Some(c)
      <==> Has(ts[j].clients.value, c) && forall i :: 0 <= i < j ==> !Lone(ts[i], ts[j].pair.portRemote, RemKey(c.fd))
    decreases j
  {
    hide Kept, Has, KeyIndex, RemKey, AddKey, GetAsWritten, Find, IdsDistinct, FdsDistinct;
    var port, key, t := ts[j].pair.portRemote, RemKey(c.fd), ts[0];
    KeysIndexable(c.fd);
    KeysAgreeIff(c.fd);
    assert t in ts && forall k :: 0 <= k < |ts| - 1 ==> ts[1..][k] == ts[k + 1];
    TailDistinct(ts);
    AllRegistered(ts, s.live);
    if j == 0 {
      OwnTable(ts, s.live, c);
    } else {
      FoundIff(s, ts[1..], j - 1, c);
      OtherHome(ts, j, c);
      if Searched(t, port) {
        ElsewhereGets(t, s.live, c);
        GottenNotHere(t, s.live, key, c);
      }
      assert (forall i :: 0 <= i < j ==> !Lone(ts[i], port, key))
        <==> !Lone(t, port, key) && forall i :: 0 <= i < j - 1 ==> !Lone(ts[1..][i], port, key);
    }
  }

  lemma AllRegistered(ts: seq<Tunnel>, live: set<LocalClient>)
    requires forall t :: t in ts ==> TableKept(t, live)
    ensures forall t :: t in ts && t.clients.Some? ==> Registered(t.clients.value)
  {
    hide Registered;
    forall t | t in ts && t.clients.Some?
      ensures Registered(t.clients.value)
    {
      assert TableKept(t, live);
    }
  }

  lemma OtherHome(ts: seq<Tunnel>, j: nat, c: LocalClient)
    requires 0 < j < |ts| && IdsDistinct(ts) && ts[j].id == c.home
    ensures ts[0].id != c.home
  {
  }

  lemma GottenNotHere(t: Tunnel, live: set<LocalClient>, key: bytes, c: LocalClient)
    requires TableKept(t, live) && t.clients.Some? && Indexable(key) && !Has(t.clients.value, c)
    ensures GetAsWritten(t.clients.value, key) != Some(c)
  {
    hide Has, GetAsWritten, KeyIndex;
    if GetAsWritten(t.clients.value, key).Some? {
      GottenIsEntry(t.clients.value, key);
    }
  }

  /** The search at the client's own tunnel. */
  lemma OwnTable(ts: seq<Tunnel>, live: set<LocalClient>, c: LocalClient)
    requires ts != [] && ts[0].id == c.home && ts[0].clients.Some? && IdsDistinct(ts)
    requires FdsDistinct(live) && c in live && c.fd < FD_LIMIT && forall t :: t in ts ==> TableKept(t, live)
    ensures Indexable(RemKey(c.fd))
    ensures ClientFor(ts, ts[0].pair.portRemote, RemKey(c.fd)) == Some(c) <==> Has(ts[0].clients.value, c)
  {
    hide Kept, Has, KeyIndex, RemKey, AddKey, GetAsWritten, Find, IdsDistinct, FdsDistinct, Registered;
    var port, key, t := ts[0].pair.portRemote, RemKey(c.fd), ts[0];
    KeysIndexable(c.fd);
    KeysAgreeIff(c.fd);
    assert t in ts && TableKept(t, live);
    if Has(t.clients.value, c) {
      OwnGets(t.clients.value, live, c.home, c);
    } else {
      GottenNotHere(t, live, key, c);
      TailDistinct(ts);
      AllRegistered(ts, live);
      ClientForIsEntry(ts[1..], port, key);
      forall u | u in ts[1..] && u.clients.Some?
        ensures !Has(u.clients.value, c)
      {
        ElsewhereGets(u, live, c);
      }
    }
  }

  lemma OwnGets(t: ClientTable, live: set<LocalClient>, home: nat, c: LocalClient)
    requires Kept(t, live, home) && Has(t, c) && c.fd < FD_LIMIT
    ensures Indexable(RemKey(c.fd)) && GetAsWritten(t, RemKey(c.fd)) == Some(c)
  {
    hide KeyIndex, AddKey, RemKey, Find;
    KeysIndexable(c.fd);
    KeysAgreeIff(c.fd);
    GetAgreesIff(t, RemKey(c.fd));
  }

  /**
   * After every run, the response to a request of an existing client whose tunnel is still there, with port and descriptor
   * echoed whole (which FdSurvivesRoundTripIff decides): its header leads back to the client exactly if no client of its
   * bucket that was in the table has hung up since it was accepted, and no earlier tunnel to the same remote port has one
   * single client in that bucket.
   */
  lemma ResponseFindsIff(evs: seq<Event>, c: LocalClient, j: nat)
    requires ShortFds(evs) && c in Run(NOBODY, evs).live
    requires var ts := Run(NOBODY, evs).tunnels;
      j < |ts| && ts[j].id == c.home && ts[j].clients.Some? && Plain(ts[j].pair.portRemote) && Plain(ts[j].pair.portLocal)
    ensures Indexable(RemKey(c.fd))
    ensures var ts := Run(NOBODY, evs).tunnels;
      var p := ts[j].pair;
      Echoed(p.portRemote, c.fd, p.portLocal) ==>
        var back := Split(ResponseHeader(p.portRemote, Decimal(c.fd)), SLASH);
        && back == [RESPONSE, p.portRemote, Decimal(c.fd)] && Snprintf(16, back[2]) == RemKey(c.fd)
        && (ClientFor(ts, back[1], RemKey(c.fd)) == Some(c) <==>
              (exists k: nat :: SparedFrom(evs, k, c))
              && forall i :: 0 <= i < j ==> !Lone(ts[i], p.portRemote, RemKey(c.fd)))
  {
    hide Run, Kept, Has, SparedFrom, Lone, ClientFor, KeyIndex, Decimal, Split, RequestHeader, ResponseHeader, RESPONSE;
    hide IdsDistinct;
    var s := Run(NOBODY, evs);
    var p := s.tunnels[j].pair;
    StartInv();
    RunKeepsInv(NOBODY, evs);
    KnownClient(s, c);
    FoundIff(s, s.tunnels, j, c);
    HoldsIs(s.tunnels, j, c);
    HeldIff(evs, c);
    if Echoed(p.portRemote, c.fd, p.portLocal) {
      FdSurvivesRoundTripIff(p.portRemote, c.fd, p.portLocal);
      DecimalPlain(c.fd);
      ResponseHeaderTokensIff(p.portRemote, Decimal(c.fd));
    }
  }

  // ----- what goes wrong

  /** Two clients of one bucket: when one hangs up the other is forgotten, and the shutdown of its server passes it by. */
  lemma SiblingForgotten(s: Locals, c: LocalClient, d: LocalClient)
    requires Inv(s) && c in s.live && d in s.live && c != d && c.home == d.home && SameBucket(c, d)
    requires Holds(s.tunnels, c) && Settled(s.tunnels, d)
    ensures var next := HungUp(s, c);
      && d in next.live && !Holds(next.tunnels, d)
      && d in EveryStopped(next).live
  {
    hide Kept, Has, SameBucket, RemShutdown, StopNotice, Home, ServersShut;
    var next := HungUp(s, c);
    HangUpKeeps(s, c);
    HangUpHolds(s, c, d);
    ServersShutFacts(next, next.tunnels);
    if Reached(next.tunnels, d) {
      ReachedHolds(next, d);
    }
  }

  /** The shutdown of a server reaches clients that its table has. */
  lemma ReachedHolds(s: Locals, d: LocalClient)
    requires Inv(s) && Reached(s.tunnels, d)
    ensures Holds(s.tunnels, d)
  {
    hide KeyIndex, AddKey, Heads, Lookup;
    var t :| t in s.tunnels && t.clients.Some? && d in Heads(t.clients.value, HT_MAX);
    assert TableKept(t, s.live);
    HeadsAt(t.clients.value, HT_MAX, d);
    var b :| 0 <= b < HT_MAX && t.clients.value[b] != [] && t.clients.value[b][0].value == d;
    EntryHas(t.clients.value, b, 0);
  }

  /** A client whose tunnel is gone: whatever it does next uses the server that was freed. */
  lemma OrphanStrays(s: Locals, d: LocalClient, buf: bytes)
    requires s.fate.Running? && d in s.live && !Settled(s.tunnels, d)
    ensures Step(s, HangUp(d)).fate == Strayed && Step(s, Data(d, buf)).fate == Strayed
  {
    SettledIff(s.tunnels, d);
  }

  lemma SettledIff(ts: seq<Tunnel>, c: LocalClient)
    ensures Settled(ts, c) <==> Home(ts, c.home) < |ts|
  {
    hide Home;
    if Home(ts, c.home) < |ts| {
      assert ts[Home(ts, c.home)] in ts;
    }
  }

  /** Clients 12 and 21 of one tunnel: 12 hangs up, and no shutdown will ever reach 21. */
  lemma TwelveForgetsTwentyOne(pair: Pair)
    ensures var s := Run(NOBODY, [Open(pair, true), Accept(0, 12), Accept(0, 21), HangUp(LocalClient(0, 12, 0))]);
      s.live == {LocalClient(1, 21, 0)} && EveryStopped(s).live == s.live
  {
    hide Kept, Has, WithClient, RemShutdown, StopNotice, SameBucket, EmptyTable, ServersShut, Inv, Step, Settled, Holds;
    hide Home, HungUp, EveryStopped;
    var twelve, twentyOne := LocalClient(0, 12, 0), LocalClient(1, 21, 0);
    var a := Step(NOBODY, Open(pair, true));
    var b := Step(a, Accept(0, 12));
    var c := Step(b, Accept(0, 21));
    StartInv();
    OpenOne(pair);
    AcceptOne(a, 12);
    AcceptOne(b, 21);
    TwelveMeetsTwentyOne();
    SameSums(twelve, twentyOne);
    SiblingForgotten(c, twelve, twentyOne);
    var d := Step(c, HangUp(twelve));
    HangUpOne(c, twelve);
    FourSteps(NOBODY, Open(pair, true), Accept(0, 12), Accept(0, 21), HangUp(twelve));
    StopShrinks(d);
  }

  /** One tunnel, numbered 0, with a server. */
  predicate One(s: Locals)
  {
    s.fate.Running? && |s.tunnels| == 1 && s.tunnels[0].id == 0 && s.tunnels[0].clients.Some?
  }

  lemma OpenOne(pair: Pair)
    ensures var s := Step(NOBODY, Open(pair, true)); One(s) && Inv(s) && s.live == {} && s.made == 0
  {
    hide Inv, EmptyTable;
    StartInv();
    StepKeepsInv(NOBODY, Open(pair, true));
  }

  lemma AcceptOne(s: Locals, fd: nat)
    requires One(s) && Inv(s) && fd < FD_LIMIT && forall c :: c in s.live ==> c.fd != fd
    ensures var next, c := Step(s, Accept(0, fd)), LocalClient(s.made, fd, 0);
      && One(next) && Inv(next) && next.live == s.live + {c} && next.made == s.made + 1
      && Settled(next.tunnels, c) && (c !in s.live ==> Holds(next.tunnels, c))
      && forall d :: d in s.live ==> (Holds(next.tunnels, d) <==> Holds(s.tunnels, d))
  {
    hide Inv, WithClient, Has;
    StepKeepsInv(s, Accept(0, fd));
    var next, c := Step(s, Accept(0, fd)), LocalClient(s.made, fd, 0);
    assert next.tunnels[0] in next.tunnels;
    AcceptHolds(s, 0, fd, c);
    forall d | d in s.live
      ensures Holds(next.tunnels, d) <==> Holds(s.tunnels, d)
    {
      AcceptHolds(s, 0, fd, d);
    }
  }

  lemma HangUpOne(s: Locals, c: LocalClient)
    requires s.fate.Running? && c in s.live
    ensures Step(s, HangUp(c)) == HungUp(s, c) && HungUp(s, c).live == s.live - {c}
  {
    hide RemShutdown, StopNotice, Home;
  }

  lemma SameSums(c: LocalClient, d: LocalClient)
    requires KeyIndex(AddKey(c.fd)) == KeyIndex(AddKey(d.fd))
    ensures SameBucket(c, d)
  {
  }

  lemma FourSteps(s: Locals, a: Event, b: Event, c: Event, d: Event)
    ensures Run(s, [a, b, c, d]) == Step(Step(Step(Step(s, a), b), c), d)
  {
    hide Step;
    RunAppend(s, [a], [b, c, d]);
    RunAppend(Step(s, a), [b], [c, d]);
    RunAppend(Step(Step(s, a), b), [c], [d]);
    RunOne(s, a);
    RunOne(Step(s, a), b);
    RunOne(Step(Step(s, a), b), c);
    RunOne(Step(Step(Step(s, a), b), c), d);
    assert [a] + [b, c, d] == [a, b, c, d] && [b] + [c, d] == [b, c, d] && [c] + [d] == [c, d];
  }

  lemma {:induction false} StopShrinksEach(s: Locals, ts: seq<Tunnel>)
    ensures ServersShut(s, ts).live <= s.live
    decreases |ts|
  {
    hide Heads, Notices;
    if ts != [] {
      StopShrinksEach(ServerShut(s, ts[0]), ts[1..]);
    }
  }

  lemma StopShrinks(s: Locals)
    ensures EveryStopped(s).live <= s.live
  {
    hide ServersShut;
    StopShrinksEach(s, s.tunnels);
  }

  /** A descriptor of eight digits: its entry outlives it, so the shutdown of the server uses a client that was freed. */
  lemma LongDescriptorStrays(s: Locals, id: nat, fd: nat)
    requires s.fate.Running? && fd >= FD_LIMIT && Home(s.tunnels, id) < |s.tunnels|
    requires s.tunnels[Home(s.tunnels, id)].clients == Some(EmptyTable())
    ensures var c := LocalClient(s.made, fd, id);
      var left := HungUp(Accepted(s, id, fd), c);
      && Home(left.tunnels, id) < |left.tunnels|
      && ServerShut(left, left.tunnels[Home(left.tunnels, id)]).fate == Strayed
  {
    hide KeyIndex, AddKey, RemKey, StopNotice, Heads, Notices, Registered;
    var i := Home(s.tunnels, id);
    var c := LocalClient(s.made, fd, id);
    var t := WithClient(EmptyTable(), c);
    KeptEmpty({}, id);
    EmptyRegisters();
    AddRegisters(EmptyTable(), c);
    LongKeyMissing(t, c);
    var next := Accepted(s, id, fd);
    HomeStays(s.tunnels, id, next.tunnels);
    assert next.tunnels[i].clients == Some(t);
    var left := HungUp(next, c);
    HomeStays(next.tunnels, id, left.tunnels);
    assert left.tunnels[i].clients == Some(t) && c !in left.live;
    LoneHead(c);
  }

  lemma HomeStays(ts: seq<Tunnel>, id: nat, us: seq<Tunnel>)
    requires |us| == |ts| && forall k :: 0 <= k < |ts| ==> us[k].id == ts[k].id
    ensures Home(us, id) == Home(ts, id)
  {
  }

  lemma LoneHead(c: LocalClient)
    ensures c in Members(Heads(WithClient(EmptyTable(), c), HT_MAX))
  {
    hide KeyIndex, AddKey, Heads;
    KeysIndexable(c.fd);
    var t, b := WithClient(EmptyTable(), c), KeyIndex(AddKey(c.fd));
    assert t[b] == [Binding(AddKey(c.fd), c)];
    HeadsAt(t, HT_MAX, c);
  }

  /** Two tunnels to one port, client 12 on the newer and client 21 on the older: 12 gets the response meant for 21. */
  lemma TwelveGetsTwentyOnesResponse(p: Pair, twelve: LocalClient, twentyOne: LocalClient)
    requires twelve.fd == 12 && twentyOne.fd == 21
    ensures Indexable(RemKey(21))
    ensures var newer, older := WithClient(EmptyTable(), twelve), WithClient(EmptyTable(), twentyOne);
      ClientFor([Tunnel(1, p, Some(newer)), Tunnel(0, p, Some(older))], p.portRemote, RemKey(21)) == Some(twelve)
  {
    hide KeyIndex, AddKey, RemKey;
    KeysIndexable(21);
    KeysIndexable(12);
    KeysAgreeIff(21);
    TwelveMeetsTwentyOne();
    assert Bucket(WithClient(EmptyTable(), twelve), AddKey(12)) == [Binding(AddKey(12), twelve)];
  }
}
