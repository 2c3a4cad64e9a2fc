/** src/endpoint.c with its list relinked in place, against the functions of module Endpoints. */
module EndpointList {
  import opened Bytes
  import opened Endpoints
  import opened Headers
  import opened Links
  import opened Ports
  import opened Process
  import opened Proto
  import opened Wrappers

  class EndpointList {
    /** The head of the list. */
    var endpoints: Link?<Endpoint>
    ghost var links: seq<Link<Endpoint>>
    /** What the list holds. */
    ghost var list: seq<Endpoint>
    /** config.allowed */
    const allowed: seq<int>
    var open: set<nat>
    var made: nat
    var queued: map<nat, seq<bytes>>
    var out: seq<Parcel>
    var closed: nat
    var fate: Fate

    ghost predicate Valid()
      reads this`endpoints, this`links, this`list, links
    {
      IsList(endpoints, links, list)
    }

    ghost function View(): Ends
      reads this
    {
      Ends(list, open, made, queued, out, closed, fate)
    }

    constructor (allowed: seq<int>)
      ensures Valid() && View() == NONE && this.allowed == allowed && links == []
    {
      this.allowed := allowed;
      endpoints, links, list := null, [], [];
      open, made, queued, out, closed, fate := {}, 0, map[], [], 0, Running;
    }

    /** gc_gen_ev_send */
    method EvSend(c: nat, body: bytes)
      modifies this`queued, this`fate
      ensures View() == Send(old(View()), c, body)
    {
      if c in open {
        queued := queued[c := (if c in queued then queued[c] else []) + [body]];
      } else {
        fate := Worse(fate, Strayed);
      }
    }

    method GcPacketSend(p: Parcel)
      modifies this`out
      ensures View() == old(View()).(out := old(out) + [p])
    {
      out := out + [p];
    }

    /** async_client_shutdown */
    method AsyncClientShutdown(c: nat)
      modifies this`open, this`closed, this`fate
      ensures View() == Close(old(View()), c)
    {
      closed := closed + 1;
      if c in open {
        open := open - {c};
      } else {
        fate := Worse(fate, Strayed);
      }
    }

    /** What a walk along the list sees at node i. */
    lemma WalkAt(i: nat)
      requires Valid()
      ensures |links| == |list| && endpoints == NodeAt(links, 0)
      ensures i < |links| ==> links[i].item == list[i] && links[i].next == NodeAt(links, i + 1)
    {
    }

    /** The three lines that take a node out of the list. */
    method TakeOut(prev: Link?<Endpoint>, ent: Link<Endpoint>, ghost i: nat)
      requires Valid() && i < |links| && ent == links[i] && prev == Before(links, i)
      modifies this`endpoints, this`links, this`list, (if prev == null then {} else {prev})`next
      ensures Valid() && list == Without(old(list), i) && links == Without(old(links), i)
      ensures Members(links) <= Members(old(links))
    {
      hide IsList, Without, NodeAt, Before, Members;
      WalkAt(i);
      MembersWithout(links, i);
      endpoints := Links.Unlink(endpoints, prev, ent, links, list, i);
      links, list := Without(links, i), Without(list, i);
    }

    /** endpoint_stop_client */
    method StopClient(c: nat)
      requires Valid()
      modifies this`endpoints, this`links, this`list, links
      ensures Valid() && View() == Endpoints.Unlink(old(View()), c) && Members(links) <= Members(old(links))
    {
      hide First, Valid, Without, NodeAt, Before, Members;
      var prev: Link?<Endpoint>, ent := null, endpoints;
      ghost var i := 0;
      WalkAt(0);
      WalkEnds(links);
      while ent != null
        invariant 0 <= i <= |links| == |list| && ent == NodeAt(links, i) && prev == Before(links, i)
        invariant Valid() && View() == old(View()) && links == old(links)
        invariant forall j :: 0 <= j < i ==> list[j].client != c
        decreases |links| - i
      {
        WalkAt(i);
        NodeIs(links, i);
        if ent.item.client == c {
          FirstIs(list, ForClient(c), i);
          StillIn(links, links, i);
          TakeOut(prev, ent, i);
          return;
        }
        prev, ent, i := ent, ent.next, i + 1;
      }
      FirstIs(list, ForClient(c), i);
      KeepsAll(list);
    }

    /** port_allowed */
    method PortAllowed(backendPort: bytes) returns (ok: bool)
      ensures ok == Endpoints.PortAllowed(allowed, backendPort)
      ensures ok <==> exists i :: 0 <= i < |allowed| && allowed[i] == SnAtoi(backendPort, 8)
    {
      var port := SnAtoi(backendPort, 8);
      var i := 0;
      while i < |allowed|
        invariant 0 <= i <= |allowed| && forall j :: 0 <= j < i ==> allowed[j] != port
      {
        if allowed[i] == port {
          return true;
        }
        i := i + 1;
      }
      return false;
    }

    /** endpoint_recv */
    method Recv(c: nat, buf: bytes)
      requires Valid()
      modifies this`out, this`fate
      ensures View() == Received(old(View()), c, buf)
    {
      hide First, IsList, ResponseHeader;
      var ent := endpoints;
      ghost var i := 0;
      WalkAt(0);
      while ent != null
        invariant 0 <= i <= |links| == |list| && ent == NodeAt(links, i)
        invariant View() == old(View()) && forall j :: 0 <= j < i ==> list[j].client != c
        decreases |links| - i
      {
        WalkAt(i);
        if ent.item.client == c {
          FirstIs(list, ForClient(c), i);
          var e := ent.item;
          GcPacketSend(Parcel(Ascii("device"), e.pid, ResponseHeader(e.backendPort, e.remoteFd), buf));
          return;
        }
        ent, i := ent.next, i + 1;
      }
      FirstIs(list, ForClient(c), i);
      fate := Worse(fate, Aborted);
    }

    /** endpoint_error */
    method Error(c: nat)
      requires Valid()
      modifies this`endpoints, this`links, this`list, this`open, this`closed, this`fate, links
      ensures Valid() && View() == ClientErrored(old(View()), c) && Members(links) <= Members(old(links))
    {
      StopClient(c);
      AsyncClientShutdown(c);
    }

    /** async_client: no socket, a socket whose connect() did not fail, or one that is kept. */
    method AsyncClient(c: nat, a: Attempt) returns (ok: bool)
      requires Valid()
      modifies this`endpoints, this`links, this`list, this`open, this`closed, this`fate, links
      ensures Valid() && ok == ClientOutcome(a).Stays? && Members(links) <= Members(old(links))
      ensures View() == match ClientOutcome(a)
        case Stays => old(View())
        case NoSocket => ClientErrored(old(View()), c)
        case Dropped => Close(old(View()), c)
    {
      if a.socket == -1 {
        Error(c);
        return false;
      }
      if a.ret != -1 && a.errno != EINPROGRESS {
        AsyncClientShutdown(c);
        return false;
      }
      return true;
    }

    /** endpoint_add */
    method Add(key: bytes, remoteFd: bytes, backendPort: bytes, pid: bytes, a: Attempt, ghost body: bytes)
      returns (ok: bool, c: nat)
      requires Valid() && key == pid + remoteFd
      modifies this`endpoints, this`links, this`list, this`open, this`made, this`queued, this`closed, this`fate, links
      ensures Valid() && fresh(Members(links) - Members(old(links)))
      ensures ok ==> Added(old(View()), pid, backendPort, remoteFd, body, a) == Send(View(), c, body)
      ensures !ok ==> Added(old(View()), pid, backendPort, remoteFd, body, a) == View()
    {
      hide First, IsList, Without;
      c := made;
      if |key| > SNB_MAX || |backendPort| > SNB_MAX {
        fate := Worse(fate, Aborted);
        return false, c;
      }
      var ent := Endpoint(key, remoteFd, backendPort, pid, c);
      open, made, queued := open + {c}, made + 1, queued[c := []];
      var first := Push(endpoints, ent, links, list);
      endpoints, links, list := first, [first] + links, [ent] + list;
      ok := AsyncClient(c, a);
    }

    /** endpoint_find */
    method Find(key: bytes) returns (ep: Link?<Endpoint>)
      requires Valid()
      ensures ep == NodeAt(links, First(list, ForKey(key))) && |links| == |list|
    {
      hide First, IsList;
      ep := endpoints;
      ghost var i := 0;
      WalkAt(0);
      while ep != null
        invariant 0 <= i <= |links| == |list| && ep == NodeAt(links, i)
        invariant forall j :: 0 <= j < i ==> list[j].key != key
        decreases |links| - i
      {
        WalkAt(i);
        if ep.item.key == key {
          break;
        }
        ep, i := ep.next, i + 1;
      }
      FirstIs(list, ForKey(key), i);
    }

    /** gc_endpoints_stop_all */
    method StopAll()
      requires Valid()
      modifies this`endpoints, this`links, this`list, this`open, this`closed, this`fate
      ensures Valid() && View() == AllStopped(old(View())) && links == []
    {
      hide IsList, NodeAt, CloseEach, Close;
      var ent := endpoints;
      ghost var i := 0;
      WalkAt(0);
      WalkEnds(links);
      NextClosed(View(), 0);
      while ent != null
        invariant 0 <= i <= |links| == |list| && ent == NodeAt(links, i)
        invariant Valid() && links == old(links) && list == old(list) && endpoints == old(endpoints)
        invariant CloseEach(View(), list[i..]) == CloseEach(old(View()), old(list))
        decreases |links| - i
      {
        WalkAt(i);
        NodeIs(links, i);
        NextClosed(View(), i);
        AsyncClientShutdown(ent.item.client);
        ent, i := ent.next, i + 1;
      }
      NextClosed(View(), i);
      endpoints, links, list := null, [], [];
      EmptyList();
    }

    lemma EmptyList()
      ensures IsList<Endpoint>(null, [], [])
    {
    }

    /** gc_endpoint_request, with the tokens of a header of four. */
    method Request(device: bytes, address: bytes, port: bytes, fd: bytes, body: bytes, a: Attempt)
      requires Valid()
      modifies this, links
      ensures Valid() && fresh(Members(links) - Members(old(links)))
      ensures View() == Requested(old(View()), allowed, device, address, port, fd, body, a)
    {
      hide First, IsList, Added, DeniedHeader;
      var ok := PortAllowed(port);
      if !ok {
        GcPacketSend(Parcel(device, address, DeniedHeader(port), Ascii("NULL")));
        return;
      }
      var key := address + fd;
      var ep := Find(key);
      if ep == null {
        var c: nat;
        ok, c := Add(key, fd, port, address, a, body);
        if !ok {
          return;
        }
        EvSend(c, body);
      } else {
        WalkAt(First(list, ForKey(key)));
        EvSend(ep.item.client, body);
      }
    }

    /** gc_endpoint_stop */
    method Stop(address: bytes)
      requires Valid()
      modifies this`endpoints, this`links, this`list, this`open, this`closed, this`fate, links
      ensures Valid() && View() == Stopped(old(View()), address) && Members(links) <= Members(old(links))
    {
      hide First, Valid, Without, NodeAt, Before, Members;
      var prev: Link?<Endpoint>, ent := null, endpoints;
      ghost var i := 0;
      WalkAt(0);
      WalkEnds(links);
      while ent != null
        invariant 0 <= i <= |links| == |list| && ent == NodeAt(links, i) && prev == Before(links, i)
        invariant Valid() && View() == old(View()) && links == old(links)
        invariant forall j :: 0 <= j < i ==> list[j].pid != address
        decreases |links| - i
      {
        WalkAt(i);
        NodeIs(links, i);
        if ent.item.pid == address {
          FirstIs(list, ForPid(address), i);
          StillIn(links, links, i);
          AsyncClientShutdown(ent.item.client);
          TakeOut(prev, ent, i);
          return;
        }
        prev, ent, i := ent, ent.next, i + 1;
      }
      FirstIs(list, ForPid(address), i);
    }
  }

  lemma NextClosed(e: Ends, i: nat)
    requires i <= |e.list|
    ensures e.list[0..] == e.list && CloseEach(e, e.list[|e.list|..]) == e
    ensures i < |e.list| ==>
      CloseEach(e, e.list[i..]) == CloseEach(Close(e, e.list[i].client), e.list[i + 1..])
  {
    hide Close;
    assert i < |e.list| ==> e.list[i..][1..] == e.list[i + 1..];
  }

  lemma KeepsAll<T>(items: seq<T>)
    ensures Without(items, |items|) == items
  {
  }
}
