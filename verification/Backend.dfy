/**
 * From the messages of a remote connection to the bytes its backend gets: what module Endpoints queues for a client is
 * what module Drain writes. And the same the other way, for the clients of tunnels.
 */
module Backend {
  import opened Bytes
  import D = Drain
  import E = Endpoints
  import opened Headers
  import L = Locals
  import opened HashTable
  import opened Process
  import opened Server
  import opened Wrappers

  /**
   * A connection from the request that opens it, through any events of the endpoints, while its socket is written to in
   * any way: its send queue can be emptied exactly if none of its messages had an empty body.
   */
  lemma BackendEmptiesIff(e: E.Ends, ev: E.Event, evs: seq<E.Event>, allowed: seq<int>, es: seq<D.Event>)
    requires E.Inv(e) && E.Makes(e, ev, allowed) && E.NothingBreaks(e, [ev] + evs, allowed)
    requires E.ClientOutcome(ev.attempt).Stays?
    requires var r := E.Run(e, [ev] + evs, allowed);
      e.made in E.Clients(r.list) && D.Bodies(es) == E.Queue(r, e.made)
    ensures (exists ws :: D.OnlyWrites(ws) && D.Run(D.Run(D.EMPTY, es), ws).queue == []) <==>
      ev.body != [] && [] !in E.Bodies(evs, ev.address + ev.fd, allowed)
  {
    hide E.Step, E.Clients, E.KeyOf, D.Run, D.Bodies, E.Bodies, E.Breaks, E.First, E.PortAllowed;
    assert ([ev] + evs)[1..] == evs;
    E.FirstPayload(e, ev, allowed);
    E.StepKeepsInvIff(e, ev, allowed);
    var next := E.Step(e, ev, allowed);
    E.PayloadsStayTogether(next, evs, allowed, e.made);
    D.QueueEmptiesIff(es);
    var rest := E.Bodies(evs, ev.address + ev.fd, allowed);
    assert [] in [ev.body] + rest <==> ev.body == [] || [] in rest;
  }

  /** Behind an empty payload that comes first, nothing leaves. */
  lemma NothingLeaves(es: seq<D.Event>, body: bytes)
    requires D.Bodies(es) == [[], body]
    ensures D.Run(D.EMPTY, es).wire == []
  {
    hide D.Run, D.Bodies;
    D.StartKeeps();
    D.RunKeeps(D.EMPTY, es, []);
    assert [] + D.Bodies(es) == D.Bodies(es);
    D.NothingPassesEmpty(D.Run(D.EMPTY, es), [[], body]);
    assert [[], body][0..] == [[], body];
  }

  /** A first request with an empty body: whatever the connection sends next, its backend gets nothing of it. */
  lemma EmptyRequestStalls(e: E.Ends, ev: E.Event, again: E.Event, allowed: seq<int>, es: seq<D.Event>)
    requires E.Inv(e) && E.Makes(e, ev, allowed) && !E.Breaks(e, ev, allowed) && E.ClientOutcome(ev.attempt).Stays?
    requires ev.body == [] && again.Request? && again.port == ev.port && again.address == ev.address && again.fd == ev.fd
    requires D.Bodies(es) == E.Queue(E.Run(e, [ev, again], allowed), e.made)
    ensures D.Bodies(es) == [[], again.body] && D.Run(D.EMPTY, es).wire == []
  {
    hide E.Clients, E.KeyOf, D.Run, D.Bodies, E.Step, E.Queue, E.Inv;
    E.FirstPayload(e, ev, allowed);
    E.StepKeepsInvIff(e, ev, allowed);
    var next := E.Step(e, ev, allowed);
    FirstInList(e, ev, allowed);
    E.ReuseIgnoresPort(next, again, allowed, next.list[0]);
    assert [ev, again][1..] == [again] && [again][1..] == [];
    assert E.Run(next, [again], allowed) == E.Run(E.Step(next, again, allowed), [], allowed);
    assert E.Run(e, [ev, again], allowed) == E.Run(next, [again], allowed);
    NothingLeaves(es, again.body);
  }

  lemma FirstInList(e: E.Ends, ev: E.Event, allowed: seq<int>)
    requires E.Inv(e) && E.Makes(e, ev, allowed) && !E.Breaks(e, ev, allowed) && E.ClientOutcome(ev.attempt).Stays?
    ensures var next := E.Step(e, ev, allowed);
      next.list != [] && next.list[0].client == e.made && next.list[0].key == ev.address + ev.fd
  {
  }

  /** A response with an empty body does the same to the client of a tunnel that gets it. */
  lemma EmptyResponseStalls(s: L.Locals, port: bytes, fd: bytes, body: bytes, c: LocalClient, es: seq<D.Event>)
    requires Indexable(Snprintf(16, fd)) && L.ClientFor(s.tunnels, port, Snprintf(16, fd)) == Some(c)
    requires c in s.live && L.Queue(s, c) == []
    requires D.Bodies(es) == L.Queue(L.Responded(L.Responded(s, port, fd, []), port, fd, body), c)
    ensures D.Bodies(es) == [[], body] && D.Run(D.EMPTY, es).wire == []
  {
    hide D.Run, D.Bodies, L.ClientFor, KeyIndex, Snprintf;
    NothingLeaves(es, body);
  }
}
