/**
 * A send queue under any schedule of partial writes: async_write of src/async_client.c and src/async_server.c for the
 * plain clients, which are given payloads of any length, the empty one included.
 */
module Drain {
  import opened Bytes
  import opened RingBuffer

  /** The queue, whether the write watcher is started, and what the socket took. */
  datatype Out = Out(queue: seq<Entry>, writing: bool, wire: bytes)

  /** A payload is queued; or the socket is ready, and takes 1 + more bytes if it is offered so many. */
  datatype Event = Give(body: bytes) | Take(more: nat)

  const EMPTY := Out([], false, [])

  function Taken(offered: bytes, more: nat): nat { if 1 + more <= |offered| then 1 + more else |offered| }

  function Step(o: Out, e: Event): (r: Out)
    requires WellFormed(o.queue)
    ensures WellFormed(r.queue)
  {
    match e
    case Give(body) => o.(queue := Appended(o.queue, body), writing := true)
    case Take(more) =>
      var offered := Offered(o.queue);
      if !o.writing then o
      else if offered == [] then o.(writing := false)
      else
        var rest := Skipped(o.queue, Taken(offered, more));
        Out(rest, rest != [], o.wire + offered[..Taken(offered, more)])
  }

  function Run(o: Out, es: seq<Event>): (r: Out)
    requires WellFormed(o.queue)
    ensures WellFormed(r.queue)
    decreases |es|
  {
    if es == [] then o else Run(Step(o, es[0]), es[1..])
  }

  function Bodies(es: seq<Event>): seq<bytes>
  {
    if es == [] then [] else (if es[0].Give? then [es[0].body] else []) + Bodies(es[1..])
  }

  predicate OnlyWrites(es: seq<Event>) { forall i :: 0 <= i < |es| ==> es[i].Take? }

  function Concat(bs: seq<bytes>): bytes { if bs == [] then [] else bs[0] + Concat(bs[1..]) }

  lemma {:induction false} ConcatAppend(as_: seq<bytes>, bs: seq<bytes>)
    ensures Concat(as_ + bs) == Concat(as_) + Concat(bs)
  {
    if as_ == [] {
      assert as_ + bs == bs;
    } else {
      assert (as_ + bs)[1..] == as_[1..] + bs;
      ConcatAppend(as_[1..], bs);
    }
  }

  /** The first empty payload, or the end. */
  function FirstEmpty(bs: seq<bytes>): (n: nat)
    ensures n <= |bs| && (n < |bs| ==> bs[n] == []) && forall j :: 0 <= j < n ==> bs[j] != []
  {
    if bs == [] || bs[0] == [] then 0 else 1 + FirstEmpty(bs[1..])
  }

  // ----- what every schedule keeps

  /** The queue holds the last payloads given; all before it were not empty, and went out in order. */
  predicate Inv(o: Out, bs: seq<bytes>)
  {
    var k := |bs| - |o.queue|;
    && WellFormed(o.queue) && 0 <= k
    && (forall i :: 0 <= i < |o.queue| ==> o.queue[i].buf == bs[k + i])
    && (forall j :: 0 <= j < k ==> bs[j] != [])
    && o.wire + Pending(o.queue) == Concat(bs)
    && (Offered(o.queue) != [] ==> o.writing)
  }

  lemma GiveKeeps(o: Out, bs: seq<bytes>, body: bytes)
    requires Inv(o, bs)
    ensures Inv(Step(o, Give(body)), bs + [body])
  {
    hide Pending, Concat, Appended, Offered;
    PendingAppended(o.queue, body);
    BuffersAppended(o.queue, bs, body);
    ConcatOneMore(bs, body);
    Associative(o.wire, Pending(o.queue), body);
  }

  lemma Associative(a: bytes, b: bytes, c: bytes)
    ensures a + (b + c) == (a + b) + c
  {
  }

  lemma ConcatOneMore(bs: seq<bytes>, body: bytes)
    ensures Concat(bs + [body]) == Concat(bs) + body
  {
    hide Concat;
    ConcatAppend(bs, [body]);
    ConcatOne(body);
  }

  lemma ConcatOne(body: bytes)
    ensures Concat([body]) == body
  {
    assert [body][1..] == [];
    assert body + Concat([]) == body;
  }

  lemma BuffersAppended(q: seq<Entry>, bs: seq<bytes>, body: bytes)
    requires |q| <= |bs| && forall i :: 0 <= i < |q| ==> q[i].buf == bs[|bs| - |q| + i]
    ensures |Appended(q, body)| == |q| + 1
    ensures forall i :: 0 <= i < |q| + 1 ==> Appended(q, body)[i].buf == (bs + [body])[|bs| - |q| + i]
  {
  }

  lemma WriteKeeps(o: Out, bs: seq<bytes>, more: nat)
    requires Inv(o, bs)
    ensures Inv(Step(o, Take(more)), bs)
  {
    hide Pending, Concat;
    var offered := Offered(o.queue);
    if o.writing && offered != [] {
      var t := Taken(offered, more);
      PendingSkipped(o.queue, t);
      SkippedKeeps(o.queue, t);
      assert o.wire + (offered[..t] + Pending(Skipped(o.queue, t)))
        == (o.wire + offered[..t]) + Pending(Skipped(o.queue, t));
    }
  }

  /** Taking bytes off the head removes it if they were its last, and touches no other buffer. */
  lemma SkippedKeeps(q: seq<Entry>, t: nat)
    requires WellFormed(q) && 1 <= t <= |Offered(q)|
    ensures var r := Skipped(q, t); var gone := |q| - |r|;
      && 0 <= gone <= 1 && q[0].buf != []
      && (Offered(r) == [] ==> r == [] || r[0].buf == [])
      && forall i :: 0 <= i < |r| ==> r[i].buf == q[gone + i].buf
  {
    hide Advanced, Popped, WellFormed, Offered;
    OfferedSome(q);
    OfferedNone(Skipped(q, t));
    AdvancedKeeps(q, t);
    PoppedKeeps(Advanced(q, t));
  }

  lemma AdvancedKeeps(q: seq<Entry>, t: nat)
    requires q != []
    ensures |Advanced(q, t)| == |q| && forall i :: 0 <= i < |q| ==> Advanced(q, t)[i].buf == q[i].buf
  {
  }

  lemma PoppedKeeps(q: seq<Entry>)
    ensures var r := Popped(q); var gone := |q| - |r|;
      0 <= gone <= 1 && forall i :: 0 <= i < |r| ==> r[i] == q[gone + i]
  {
  }

  lemma OfferedNone(q: seq<Entry>)
    requires WellFormed(q)
    ensures Offered(q) == [] ==> q == [] || q[0].buf == []
  {
  }

  lemma OfferedSome(q: seq<Entry>)
    requires WellFormed(q) && Offered(q) != []
    ensures q != [] && q[0].buf != []
  {
  }

  lemma {:induction false} RunKeeps(o: Out, es: seq<Event>, bs: seq<bytes>)
    requires Inv(o, bs)
    ensures Inv(Run(o, es), bs + Bodies(es))
    decreases |es|
  {
    hide Inv, Step;
    Formed(o, bs);
    if es == [] {
      assert bs + [] == bs;
    } else {
      match es[0]
      case Give(body) =>
        GiveKeeps(o, bs, body);
        RunKeeps(Step(o, es[0]), es[1..], bs + [body]);
        assert bs + ([body] + Bodies(es[1..])) == bs + [body] + Bodies(es[1..]);
      case Take(more) =>
        WriteKeeps(o, bs, more);
        RunKeeps(Step(o, es[0]), es[1..], bs);
        assert [] + Bodies(es[1..]) == Bodies(es[1..]);
    }
  }

  lemma Formed(o: Out, bs: seq<bytes>)
    requires Inv(o, bs)
    ensures WellFormed(o.queue)
  {
  }

  lemma StartKeeps()
    ensures Inv(EMPTY, [])
  {
  }

  lemma {:induction false} NoBodies(es: seq<Event>)
    requires OnlyWrites(es)
    ensures Bodies(es) == []
  {
    if es != [] {
      NoBodies(es[1..]);
    }
  }

  // ----- every schedule drains what can be drained

  predicate NoEmpty(q: seq<Entry>) { forall i :: 0 <= i < |q| ==> q[i].buf != [] }

  /** Nothing is to be sent behind an empty buffer. */
  predicate Tame(q: seq<Entry>) { forall i, j :: 0 <= i < j < |q| && q[i].buf == [] ==> q[j].buf == [] }

  lemma {:induction false} PendingNoneIff(q: seq<Entry>)
    requires WellFormed(q)
    ensures Pending(q) == [] <==> forall i :: 0 <= i < |q| ==> q[i].buf == []
  {
    if q != [] {
      var unsent := q[0].buf[q[0].sent..];
      PendingNoneIff(q[1..]);
      NothingIff(unsent, Pending(q[1..]));
      NoBufferIff(q);
    }
  }

  lemma NothingIff(a: bytes, b: bytes)
    ensures a + b == [] <==> a == [] && b == []
  {
    assert |a + b| == |a| + |b|;
  }

  lemma NoBufferIff(q: seq<Entry>)
    requires q != []
    ensures (forall i :: 0 <= i < |q| ==> q[i].buf == [])
      <==> q[0].buf == [] && forall i :: 0 <= i < |q[1..]| ==> q[1..][i].buf == []
  {
    assert forall i :: 0 < i < |q| ==> q[i] == q[1..][i - 1];
  }

  lemma OneWrite(o: Out, more: nat)
    requires WellFormed(o.queue) && Tame(o.queue) && (Offered(o.queue) != [] ==> o.writing)
    ensures var r := Step(o, Take(more));
      && r.wire + Pending(r.queue) == o.wire + Pending(o.queue)
      && Tame(r.queue) && (Offered(r.queue) != [] ==> r.writing) && (NoEmpty(o.queue) ==> NoEmpty(r.queue))
      && (Pending(o.queue) != [] ==> |Pending(r.queue)| < |Pending(o.queue)|)
      && (Pending(o.queue) == [] ==> Pending(r.queue) == [])
  {
    hide Pending;
    PendingNoneIff(o.queue);
    if Offered(o.queue) != [] {
      var offered := Offered(o.queue);
      var t := Taken(offered, more);
      PendingSkipped(o.queue, t);
      SkippedKeeps(o.queue, t);
      assert o.wire + (offered[..t] + Pending(Skipped(o.queue, t)))
        == (o.wire + offered[..t]) + Pending(Skipped(o.queue, t));
    }
  }

  lemma {:induction false} TameDrains(o: Out, es: seq<Event>)
    requires WellFormed(o.queue) && Tame(o.queue) && OnlyWrites(es)
    requires Offered(o.queue) != [] ==> o.writing
    ensures var r := Run(o, es);
      && r.wire + Pending(r.queue) == o.wire + Pending(o.queue) && (NoEmpty(o.queue) ==> NoEmpty(r.queue))
      && (Pending(r.queue) != [] ==> |Pending(r.queue)| + |es| <= |Pending(o.queue)|)
      && (|es| >= |Pending(o.queue)| ==> Pending(r.queue) == [])
    decreases |es|
  {
    hide Pending, Step, Tame, NoEmpty, Offered;
    if es != [] {
      OneWrite(o, es[0].more);
      TameDrains(Step(o, es[0]), es[1..]);
    }
  }

  /**
   * Without empty buffers, whatever the socket takes each time, at least a byte: what it took and what is pending make up
   * the same bytes throughout, and the queue is empty after at most as many writes as there were bytes pending.
   */
  lemma EveryScheduleEnds(o: Out, es: seq<Event>)
    requires WellFormed(o.queue) && NoEmpty(o.queue) && (o.queue != [] ==> o.writing) && OnlyWrites(es)
    ensures var r := Run(o, es);
      && r.wire + Pending(r.queue) == o.wire + Pending(o.queue)
      && (r.queue != [] ==> |Pending(r.queue)| + |es| <= |Pending(o.queue)|)
      && (|es| >= |Pending(o.queue)| ==> r.queue == [] && r.wire == o.wire + Pending(o.queue))
  {
    hide Pending, Run;
    TameDrains(o, es);
    var r := Run(o, es);
    PendingNoneIff(r.queue);
    assert r.queue != [] ==> r.queue[0].buf != [];
    assert Pending(r.queue) == [] ==> r.wire + Pending(r.queue) == r.wire;
  }

  // ----- empty payloads

  function SomeWrites(n: nat): (es: seq<Event>)
    ensures |es| == n && OnlyWrites(es)
  {
    seq(n, _ => Take(0))
  }

  /** Over every run, the queue can still be emptied exactly if no payload given was empty. */
  lemma QueueEmptiesIff(es: seq<Event>)
    ensures var o := Run(EMPTY, es);
      (exists ws :: OnlyWrites(ws) && Run(o, ws).queue == []) <==> [] !in Bodies(es)
  {
    hide Run, Pending, Bodies;
    var o, bs := Run(EMPTY, es), Bodies(es);
    StartKeeps();
    RunKeeps(EMPTY, es, []);
    assert [] + bs == bs;
    if [] !in bs {
      var ws := SomeWrites(|Pending(o.queue)|);
      EveryScheduleEnds(o, ws);
      assert Run(o, ws).queue == [];
    }
    if ws :| OnlyWrites(ws) && Run(o, ws).queue == [] {
      RunKeeps(o, ws, bs);
      NoBodies(ws);
      assert bs + [] == bs;
    }
  }

  lemma {:induction false} PendingTail(q: seq<Entry>, bs: seq<bytes>, m: nat)
    requires WellFormed(q) && m <= |q| == |bs| && (forall i :: 0 <= i < |q| ==> q[i].buf == bs[i])
    requires m < |q| && m == 0 ==> q[0].sent == 0
    ensures |Pending(q)| >= |Concat(bs[m..])|
    decreases |q|
  {
    hide Pending, Concat, WellFormed;
    if q != [] {
      TailFormed(q);
      PendingHead(q);
      Shifted(bs, m);
      PendingTail(q[1..], bs[1..], if m == 0 then 0 else m - 1);
      if m == 0 {
        ConcatHead(bs);
      }
    } else {
      NothingAfter(bs, m);
    }
  }

  lemma Shifted<T>(s: seq<T>, m: nat)
    requires s != [] && m <= |s|
    ensures m == 0 ==> s[m..] == s && s[1..][0..] == s[1..]
    ensures m > 0 ==> s[m..] == s[1..][m - 1..]
  {
  }

  lemma NothingAfter(bs: seq<bytes>, m: nat)
    requires bs == [] && m == 0
    ensures Concat(bs[m..]) == []
  {
  }

  lemma TailFormed(q: seq<Entry>)
    requires WellFormed(q) && q != []
    ensures WellFormed(q[1..]) && (q[1..] != [] ==> q[1..][0].sent == 0) && 0 <= q[0].sent <= |q[0].buf|
  {
  }

  lemma PendingHead(q: seq<Entry>)
    requires WellFormed(q) && q != []
    ensures |Pending(q)| == |q[0].buf| - q[0].sent + |Pending(q[1..])|
  {
  }

  lemma ConcatHead(bs: seq<bytes>)
    requires bs != []
    ensures |Concat(bs)| == |bs[0]| + |Concat(bs[1..])|
  {
  }

  /** Nothing given after an empty payload ever leaves. */
  lemma NothingPassesEmpty(o: Out, bs: seq<bytes>)
    requires Inv(o, bs)
    ensures |o.wire| + |Concat(bs[FirstEmpty(bs)..])| <= |Concat(bs)| && o.wire <= Concat(bs)
  {
    hide Concat, Pending, FirstEmpty, WellFormed, Offered;
    var k, n := |bs| - |o.queue|, FirstEmpty(bs);
    assert forall i :: 0 <= i < |o.queue| ==> bs[k..][i] == bs[k + i];
    EmptyIsWhole(o, bs);
    PendingTail(o.queue, bs[k..], n - k);
    assert bs[k..][n - k..] == bs[n..];
    Front(o.wire, Pending(o.queue));
  }

  lemma Front(a: bytes, b: bytes)
    ensures a <= a + b
  {
  }

  /** The first empty payload is still in the queue, and nothing of it was sent. */
  lemma EmptyIsWhole(o: Out, bs: seq<bytes>)
    requires Inv(o, bs)
    ensures var k, n := |bs| - |o.queue|, FirstEmpty(bs); k <= n && (n == k < |bs| ==> o.queue[0].sent == 0)
  {
    hide Concat, Pending, FirstEmpty, Offered;
    var k, n := |bs| - |o.queue|, FirstEmpty(bs);
    FirstBehind(bs, k);
    assert n == k < |bs| ==> o.queue[0].buf == bs[k];
  }

  lemma FirstBehind(bs: seq<bytes>, k: nat)
    requires k <= |bs| && forall j :: 0 <= j < k ==> bs[j] != []
    ensures k <= FirstEmpty(bs)
  {
  }

  /** If all payloads after the first empty one are empty, writing on gets all bytes out. */
  lemma AllLeave(o: Out, bs: seq<bytes>) returns (ws: seq<Event>)
    requires Inv(o, bs) && forall i :: FirstEmpty(bs) <= i < |bs| ==> bs[i] == []
    ensures OnlyWrites(ws) && Run(o, ws).wire == Concat(bs)
  {
    hide Run, Pending, Concat;
    assert Tame(o.queue);
    ws := SomeWrites(|Pending(o.queue)|);
    TameDrains(o, ws);
    assert Run(o, ws).wire + [] == Run(o, ws).wire;
  }

  lemma AllLeft(o: Out, bs: seq<bytes>, ws: seq<Event>)
    requires Inv(o, bs) && OnlyWrites(ws) && Run(o, ws).wire == Concat(bs)
    ensures forall i :: FirstEmpty(bs) <= i < |bs| ==> bs[i] == []
  {
    hide Run, Inv, Concat, FirstEmpty;
    Formed(o, bs);
    RunKeeps(o, ws, bs);
    NoBodies(ws);
    assert bs + [] == bs;
    NothingPassesEmpty(Run(o, ws), bs);
    var n := FirstEmpty(bs);
    ConcatNoneIff(bs[n..]);
    assert forall i :: n <= i < |bs| ==> bs[n..][i - n] == bs[i];
  }

  /** Over every run, every byte given can still leave exactly if all payloads after the first empty one are empty. */
  lemma AllLeaveIff(es: seq<Event>)
    ensures var o, bs := Run(EMPTY, es), Bodies(es);
      (exists ws :: OnlyWrites(ws) && Run(o, ws).wire == Concat(bs)) <==>
        forall i :: FirstEmpty(bs) <= i < |bs| ==> bs[i] == []
  {
    hide Run, Inv, Bodies, Concat, FirstEmpty;
    var o, bs := Run(EMPTY, es), Bodies(es);
    StartKeeps();
    RunKeeps(EMPTY, es, []);
    assert [] + bs == bs;
    if forall i :: FirstEmpty(bs) <= i < |bs| ==> bs[i] == [] {
      var ws := AllLeave(o, bs);
    }
    if ws :| OnlyWrites(ws) && Run(o, ws).wire == Concat(bs) {
      AllLeft(o, bs, ws);
    }
  }

  lemma {:induction false} ConcatNoneIff(bs: seq<bytes>)
    ensures Concat(bs) == [] <==> forall i :: 0 <= i < |bs| ==> bs[i] == []
  {
    if bs != [] {
      assert forall i :: 0 <= i < |bs[1..]| ==> bs[1..][i] == bs[i + 1];
      ConcatNoneIff(bs[1..]);
    }
  }
}
