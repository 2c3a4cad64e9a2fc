/**
 * The upstream connection: src/utils.c frames a message and queues it, src/async_client.c writes it out in pieces
 * and puts received pieces together again. The relay in between is not part of this model: the sender's bytes are
 * what the receiver reads, in any pieces.
 */
module Wire {
  import opened Bytes
  import opened Codec
  import opened Drain
  import opened Proto
  import opened RingBuffer
  import opened Wrappers

  const RB_SLOT_SIZE := 32 * 1024

  // ----- framing

  /** A message whose frame, length word included, has an `int` length. */
  predicate Framable(m: Msg<bytes>) { WireLength(m) + 4 <= INT_MAX }

  function Packet(m: Msg<bytes>): (w: bytes)
    requires Framable(m)
    ensures |w| == WireLength(m) + 4 >= 12
  {
    Be32(|Encode(m)|) + Encode(m)
  }

  ghost predicate AllFramable(ms: seq<Msg<bytes>>) { forall m :: m in ms ==> Framable(m) }

  ghost function Packets(ms: seq<Msg<bytes>>): (ps: seq<bytes>)
    requires AllFramable(ms)
    ensures |ps| == |ms|
  {
    seq(|ms|, i requires 0 <= i < |ms| => Packet(ms[i]))
  }

  ghost function Stream(ms: seq<Msg<bytes>>): bytes
    requires AllFramable(ms)
  {
    if ms == [] then [] else Packet(ms[0]) + Stream(ms[1..])
  }

  lemma {:induction false} StreamAppend(ms: seq<Msg<bytes>>, m: Msg<bytes>)
    requires AllFramable(ms) && Framable(m)
    ensures Stream(ms + [m]) == Stream(ms) + Packet(m)
  {
    hide Packet;
    if ms == [] {
      assert (ms + [m])[1..] == [];
      assert Stream(ms + [m]) == Packet(m) + [];
    } else {
      assert (ms + [m])[1..] == ms[1..] + [m];
      StreamAppend(ms[1..], m);
    }
  }

  // ----- reassembly

  datatype Recv = Recv(buf: bytes, target: int32)

  datatype Assembly = Quiet | Deliver(frame: bytes) | Refuse

  /** The target after the length word has been looked at: only with more than eight bytes buffered. */
  function Target(r: Recv): int32
  {
    if r.target == 0 && |r.buf| > 8 then Wrap32(FromBe32(r.buf[..4]) + 4) else r.target
  }

  /** recv_append of src/async_client.c, after the bytes were added. */
  function Reassemble(r: Recv): (Recv, Assembly)
    requires r.target >= 0
  {
    var target := Target(r);
    if r.target == 0 && |r.buf| > 8 && target <= 0 then (r.(target := target), Refuse)
    else if target != 0 && target <= |r.buf| then (Recv([], 0), Deliver(r.buf[..target]))
    else (r.(target := target), Quiet)
  }

  /** Bytes thrown away with a delivered frame: whatever was buffered behind it. */
  function Discarded(r: Recv): nat
    requires r.target >= 0
  {
    match Reassemble(r).1
    case Deliver(frame) => |r.buf| - |frame|
    case _ => 0
  }

  // ----- the two ends and what is between them

  /** `lost` counts the discarded bytes; nothing reads it. */
  datatype Link = Link(queue: seq<Entry>, writing: bool, wire: bytes, recv: Recv, refused: bool,
                       delivered: seq<bytes>, lost: nat)

  datatype Event = Send(m: Msg<bytes>) | Write(t: nat) | Read(k: nat)

  const Start := Link([], false, [], Recv([], 0), false, [], 0)

  ghost predicate Sane(l: Link) { WellFormed(l.queue) && (!l.refused ==> l.recv.target >= 0) }

  function SendStep(l: Link, frame: bytes): Link
  {
    l.(queue := Appended(l.queue, frame), writing := true)
  }

  /** One call of async_write_ssl in which the socket takes t of the offered bytes (0: it would block). */
  function WriteStep(l: Link, t: nat): Link
    requires WellFormed(l.queue) && t <= |Offered(l.queue)|
  {
    if Offered(l.queue) == [] then l.(writing := false)
    else if t == 0 then l
    else
      var rest := Skipped(l.queue, t);
      l.(queue := rest, writing := l.writing && rest != [], wire := l.wire + Offered(l.queue)[..t])
  }

  /** One call of async_read_ssl that gets the chunk. */
  function ReadStep(l: Link, chunk: bytes): Link
    requires !l.refused && l.recv.target >= 0
  {
    var got := Recv(l.recv.buf + chunk, l.recv.target);
    var (recv, out) := Reassemble(got);
    match out
    case Quiet => l.(recv := recv)
    case Deliver(frame) => l.(recv := recv, delivered := l.delivered + [frame], lost := l.lost + Discarded(got))
    case Refuse => l.(recv := recv, refused := true)
  }

  ghost predicate Enabled(l: Link, e: Event)
  {
    Sane(l) &&
    match e
    case Send(m) => Framable(m)
    case Write(t) => t <= |Offered(l.queue)|
    case Read(k) => !l.refused && 1 <= k <= |l.wire| && k <= RB_SLOT_SIZE
  }

  ghost function Step(l: Link, e: Event): (r: Link)
    requires Enabled(l, e)
    ensures Sane(r)
  {
    match e
    case Send(m) => PendingAppended(l.queue, Packet(m)); SendStep(l, Packet(m))
    case Write(t) => WriteStep(l, t)
    case Read(k) => ReadStep(l, l.wire[..k]).(wire := l.wire[k..])
  }

  // ----- runs

  ghost predicate IsRun(es: seq<Event>)
    decreases |es|, 0
  {
    es == [] || (IsRun(Front(es)) && Enabled(Run(Front(es)), Last(es)))
  }

  function Front(es: seq<Event>): seq<Event> requires es != [] { es[..|es| - 1] }

  function Last(es: seq<Event>): Event requires es != [] { es[|es| - 1] }

  ghost function Run(es: seq<Event>): (l: Link)
    requires IsRun(es)
    ensures Sane(l)
    decreases |es|, 1
  {
    if es == [] then Start else Step(Run(Front(es)), Last(es))
  }

  /** The messages given to gc_packet_send, in order. */
  function Sent(es: seq<Event>): seq<Msg<bytes>>
  {
    if es == [] then [] else Sent(Front(es)) + if Last(es).Send? then [Last(es).m] else []
  }

  /** The chunk reaches past the end of the frame being received. */
  ghost predicate Crosses(l: Link, sent: seq<Msg<bytes>>, e: Event)
    requires AllFramable(sent)
  {
    e.Read? && |l.delivered| < |sent| && |l.recv.buf| + e.k > |Packet(sent[|l.delivered|])|
  }

  lemma {:induction false} SentFramable(es: seq<Event>)
    requires IsRun(es)
    ensures AllFramable(Sent(es))
  {
    if es != [] {
      SentFramable(Front(es));
    }
  }

  /** No read chunk crosses a frame boundary. */
  ghost predicate Clean(es: seq<Event>)
    requires IsRun(es)
  {
    es == [] || (
      SentFramable(Front(es));
      Clean(Front(es)) && !Crosses(Run(Front(es)), Sent(Front(es)), Last(es)))
  }

  /** The bytes underway: in the accumulator, on the wire, in the queue. */
  ghost function InFlight(l: Link): bytes
    requires WellFormed(l.queue)
  {
    l.recv.buf + (l.wire + Pending(l.queue))
  }

  /**
   * What every step of a clean run keeps: the frames delivered are the first ones sent, and the bytes of the others
   * are, in order, in the accumulator, on the wire and in the queue. The accumulator holds part of one frame.
   */
  ghost predicate Inv(l: Link, sent: seq<Msg<bytes>>)
    requires AllFramable(sent)
  {
    var n := |l.delivered|;
    && WellFormed(l.queue) && !l.refused && l.lost == 0
    && n <= |sent|
    && l.delivered == Packets(sent[..n])
    && Stream(sent[n..]) == InFlight(l)
    && (n == |sent| ==> l.recv == Recv([], 0))
    && (n < |sent| ==>
          && |l.recv.buf| < |Packet(sent[n])|
          && (l.recv.target == 0 || l.recv.target == |Packet(sent[n])|)
          && (l.recv.target == 0 ==> |l.recv.buf| <= 8))
  }

  /** The length word of a frame gives the frame's length, once more than eight bytes are there. */
  lemma PacketTarget(m: Msg<bytes>, r: Recv)
    requires Framable(m) && r.target == 0 && 8 < |r.buf| && r.buf[..4] == Packet(m)[..4]
    ensures Target(r) == |Packet(m)|
  {
    var n := |Encode(m)|;
    assert Packet(m)[..4] == Be32(n);
    Be32RoundTrip(n, Be32(n));
  }

  lemma InFlightSend(l: Link, m: Msg<bytes>)
    requires Enabled(l, Send(m))
    ensures InFlight(Step(l, Send(m))) == InFlight(l) + Packet(m)
  {
    hide Packet, Pending;
    PendingAppended(l.queue, Packet(m));
    var x, y, z, p := l.recv.buf, l.wire, Pending(l.queue), Packet(m);
    assert x + (y + (z + p)) == (x + (y + z)) + p;
  }

  lemma InFlightWrite(l: Link, t: nat)
    requires Enabled(l, Write(t))
    ensures InFlight(Step(l, Write(t))) == InFlight(l)
  {
    hide Pending;
    if Offered(l.queue) != [] && t > 0 {
      PendingSkipped(l.queue, t);
      var x, rest := Offered(l.queue)[..t], Pending(Skipped(l.queue, t));
      assert l.wire + (x + rest) == (l.wire + x) + rest;
    }
  }

  lemma InFlightRead(l: Link, k: nat)
    requires Enabled(l, Read(k))
    ensures InFlight(l) == (l.recv.buf + l.wire[..k]) + (l.wire[k..] + Pending(l.queue))
  {
    hide Pending;
    var x, y, z, p := l.recv.buf, l.wire[..k], l.wire[k..], Pending(l.queue);
    assert l.wire == y + z;
    assert x + ((y + z) + p) == (x + y) + (z + p);
  }

  lemma InvSend(l: Link, sent: seq<Msg<bytes>>, m: Msg<bytes>)
    requires AllFramable(sent) && Inv(l, sent) && Enabled(l, Send(m))
    ensures Inv(Step(l, Send(m)), sent + [m])
  {
    InFlightSend(l, m);
    hide Packet, InFlight, Appended;
    var n := |l.delivered|;
    assert (sent + [m])[..n] == sent[..n];
    assert (sent + [m])[n..] == sent[n..] + [m];
    StreamAppend(sent[n..], m);
  }

  lemma InvWrite(l: Link, sent: seq<Msg<bytes>>, t: nat)
    requires AllFramable(sent) && Inv(l, sent) && Enabled(l, Write(t))
    ensures Inv(Step(l, Write(t)), sent)
  {
    hide Packet, Packets, Stream, InFlight, Skipped, Offered;
    InFlightWrite(l, t);
  }

  /** Part of a frame stays buffered; the whole frame is delivered and nothing is discarded. */
  lemma ReassemblePart(m: Msg<bytes>, got: Recv)
    requires Framable(m) && got.buf <= Packet(m)
    requires got.target == 0 || got.target == |Packet(m)|
    ensures |got.buf| == |Packet(m)| ==> Reassemble(got) == (Recv([], 0), Deliver(Packet(m))) && Discarded(got) == 0
    ensures |got.buf| < |Packet(m)| ==>
      Reassemble(got) == (Recv(got.buf, if |got.buf| > 8 then |Packet(m)| else got.target), Quiet)
  {
    if got.target == 0 && |got.buf| > 8 {
      assert got.buf[..4] == Packet(m)[..4];
      PacketTarget(m, got);
    }
    if |got.buf| == |Packet(m)| {
      assert got.buf[..|Packet(m)|] == got.buf == Packet(m);
    }
  }

  lemma ReadPart(l: Link, k: nat, m: Msg<bytes>)
    requires Enabled(l, Read(k)) && Framable(m)
    requires l.recv.buf + l.wire[..k] <= Packet(m)
    requires l.recv.target == 0 || l.recv.target == |Packet(m)|
    ensures var got, p := l.recv.buf + l.wire[..k], Packet(m);
      var l' := l.(wire := l.wire[k..]);
      Step(l, Read(k)) ==
        if |got| == |p| then l'.(recv := Recv([], 0), delivered := l.delivered + [p])
        else l'.(recv := Recv(got, if |got| > 8 then |p| else l.recv.target))
  {
    var got := Recv(l.recv.buf + l.wire[..k], l.recv.target);
    ReassemblePart(m, got);
    hide Packet, Reassemble, Discarded;
  }

  /** While bytes are on the wire some frame is not delivered yet; what is buffered begins that frame. */
  lemma ReadBegins(l: Link, sent: seq<Msg<bytes>>, k: nat)
    requires AllFramable(sent) && Inv(l, sent) && Enabled(l, Read(k)) && !Crosses(l, sent, Read(k))
    ensures var n, got := |l.delivered|, l.recv.buf + l.wire[..k];
      && n < |sent| && got <= Packet(sent[n])
      && (got == Packet(sent[n]) ==> Stream(sent[n + 1..]) == l.wire[k..] + Pending(l.queue))
  {
    var n := |l.delivered|;
    InFlightRead(l, k);
    hide Packet, Pending;
    assert sent[n..][1..] == sent[n + 1..];
    PrefixOf(Packet(sent[n]), Stream(sent[n + 1..]), l.recv.buf + l.wire[..k], l.wire[k..] + Pending(l.queue));
  }

  lemma InvRead(l: Link, sent: seq<Msg<bytes>>, k: nat)
    requires AllFramable(sent) && Inv(l, sent) && Enabled(l, Read(k)) && !Crosses(l, sent, Read(k))
    ensures Inv(Step(l, Read(k)), sent)
  {
    ReadBegins(l, sent, k);
    InFlightRead(l, k);
    var n, r := |l.delivered|, Step(l, Read(k));
    ReadPart(l, k, sent[n]);
    hide Packet, Pending, Step, Enabled, Packets, Stream;
    if |l.recv.buf + l.wire[..k]| == |Packet(sent[n])| {
      PacketsAppend(sent, n);
      assert InFlight(r) == r.wire + Pending(r.queue);
    }
  }

  lemma PacketsAppend(sent: seq<Msg<bytes>>, n: nat)
    requires AllFramable(sent) && n < |sent|
    ensures Packets(sent[..n + 1]) == Packets(sent[..n]) + [Packet(sent[n])]
  {
    hide Packet;
  }

  lemma PrefixOf(a: bytes, b: bytes, c: bytes, d: bytes)
    requires a + b == c + d && |c| <= |a|
    ensures c <= a && (c == a ==> b == d)
  {
    assert c == (c + d)[..|c|] == (a + b)[..|c|] == a[..|c|];
    if c == a {
      assert b == (a + b)[|a|..] == (c + d)[|c|..] == d;
    }
  }

  /** Every step of a clean run keeps the invariant. */
  lemma {:induction false} CleanRunKeepsInv(es: seq<Event>)
    requires IsRun(es) && Clean(es)
    ensures AllFramable(Sent(es)) && Inv(Run(es), Sent(es))
  {
    SentFramable(es);
    if es == [] {
      assert Packets([]) == [];
    } else {
      var before, e := Front(es), Last(es);
      CleanRunKeepsInv(before);
      var l := Run(before);
      hide Inv, Run, Packet;
      match e {
        case Send(m) => InvSend(l, Sent(before), m);
        case Write(t) => InvWrite(l, Sent(before), t); assert Sent(before) + [] == Sent(before);
        case Read(k) => InvRead(l, Sent(before), k); assert Sent(before) + [] == Sent(before);
      }
    }
  }

  /** Nothing is queued and nothing is on the wire. */
  ghost predicate Drained(l: Link) { l.queue == [] && l.wire == [] }

  /**
   * End to end: at every point of a clean run the delivered frames are the first ones sent, each once and in order;
   * and when all bytes have arrived all frames were delivered and nothing stays buffered.
   */
  lemma EndToEnd(es: seq<Event>)
    requires IsRun(es) && Clean(es)
    ensures AllFramable(Sent(es))
    ensures var l, ps := Run(es), Packets(Sent(es));
      && !l.refused
      && l.delivered <= ps
      && (Drained(l) ==> l.delivered == ps && l.recv == Recv([], 0))
  {
    CleanRunKeepsInv(es);
    var l, sent := Run(es), Sent(es);
    var n := |l.delivered|;
    PacketsPrefix(sent, n);
    if Drained(l) && n < |sent| {
      InvNotStuck(l, sent);
    }
    assert sent[..|sent|] == sent;
  }

  lemma PacketsPrefix(sent: seq<Msg<bytes>>, n: nat)
    requires AllFramable(sent) && n <= |sent|
    ensures Packets(sent[..n]) == Packets(sent)[..n]
  {
    hide Packet;
  }

  /** A frame that is not delivered has bytes outside the accumulator. */
  lemma InvNotStuck(l: Link, sent: seq<Msg<bytes>>)
    requires AllFramable(sent) && Inv(l, sent) && |l.delivered| < |sent|
    ensures !Drained(l)
  {
    hide Packet;
    var n := |l.delivered|;
    assert |Stream(sent[n..])| >= |Packet(sent[n])| by {
      assert sent[n..][0] == sent[n];
    }
  }

  /** callback_data skips the length word and parses: what it sees in a delivered frame is the message sent. */
  lemma DeliveredFrameParses(m: Msg<bytes>)
    requires Framable(m)
    ensures var body := Packet(m)[4..];
      var r := Parse(body);
      r.Got? && AllInside(body, Fields(r.value)) && Contents(body, r.value) == m
  {
    assert Packet(m)[4..] == Encode(m) + [];
    ParseEncoded(m, []);
  }

  /** What callback_data makes of the frames it is given; None for a frame it cannot use. */
  function Understood(frames: seq<bytes>): (ms: seq<Option<Msg<bytes>>>)
    ensures |ms| == |frames|
  {
    seq(|frames|, i requires 0 <= i < |frames| => UnderstoodFrame(frames[i]))
  }

  function UnderstoodFrame(frame: bytes): Option<Msg<bytes>>
  {
    if |frame| < 4 then None
    else
      var r := Parse(frame[4..]);
      if r.Got? && AllInside(frame[4..], Fields(r.value)) then Some(Contents(frame[4..], r.value)) else None
  }

  /** The messages read at the far end of a clean run are the first of those sent, and all of them once all bytes are. */
  lemma MessagesArrive(es: seq<Event>)
    requires IsRun(es) && Clean(es)
    ensures var l, sent := Run(es), Sent(es);
      && |l.delivered| <= |sent| && (Drained(l) ==> |l.delivered| == |sent|)
      && forall i :: 0 <= i < |l.delivered| ==> Understood(l.delivered)[i] == Some(sent[i])
  {
    hide Clean, Run, Sent, Packet, UnderstoodFrame;
    EndToEnd(es);
    var l, sent := Run(es), Sent(es);
    forall i | 0 <= i < |l.delivered|
      ensures Understood(l.delivered)[i] == Some(sent[i])
    {
      assert sent[i] in sent && l.delivered[i] == Packets(sent)[i];
      FrameUnderstood(sent[i]);
    }
  }

  lemma FrameUnderstood(m: Msg<bytes>)
    requires Framable(m)
    ensures UnderstoodFrame(Packet(m)) == Some(m)
  {
    hide Parse, Encode, Contents, AllInside, Fields;
    DeliveredFrameParses(m);
  }

  // ----- exactly the clean runs lose nothing

  ghost function SumLength(fs: seq<bytes>): nat
  {
    if fs == [] then 0 else SumLength(fs[..|fs| - 1]) + |fs[|fs| - 1]|
  }

  /** Every byte sent is delivered, lost or underway. */
  lemma {:induction false} BytesConserved(es: seq<Event>)
    requires IsRun(es)
    ensures AllFramable(Sent(es))
    ensures |Stream(Sent(es))| == SumLength(Run(es).delivered) + Run(es).lost + |InFlight(Run(es))|
  {
    SentFramable(es);
    if es != [] {
      var before, e := Front(es), Last(es);
      BytesConserved(before);
      var l := Run(before);
      match e {
        case Send(m) =>
          InFlightSend(l, m);
          StreamAppend(Sent(before), m);
        case Write(t) =>
          InFlightWrite(l, t);
          assert Sent(before) + [] == Sent(before);
        case Read(k) =>
          InFlightRead(l, k);
          ReadConserves(l, k);
          assert Sent(before) + [] == Sent(before);
      }
    }
  }

  lemma ReadConserves(l: Link, k: nat)
    requires Enabled(l, Read(k))
    ensures var r := Step(l, Read(k));
      SumLength(r.delivered) + r.lost + |InFlight(r)| == SumLength(l.delivered) + l.lost + |InFlight(l)|
  {
    InFlightRead(l, k);
    hide Pending;
    var got := Recv(l.recv.buf + l.wire[..k], l.recv.target);
    match Reassemble(got).1 {
      case Deliver(frame) =>
        assert (l.delivered + [frame])[..|l.delivered|] == l.delivered;
      case _ =>
    }
  }

  /** A chunk that crosses the end of a frame takes bytes of the next one with it. */
  lemma CrossingLoses(l: Link, sent: seq<Msg<bytes>>, k: nat)
    requires AllFramable(sent) && Inv(l, sent) && Enabled(l, Read(k)) && Crosses(l, sent, Read(k))
    ensures Step(l, Read(k)).lost == |l.recv.buf| + k - |Packet(sent[|l.delivered|])| > 0
  {
    var n := |l.delivered|;
    var p, got := Packet(sent[n]), Recv(l.recv.buf + l.wire[..k], l.recv.target);
    InFlightRead(l, k);
    assert sent[n..][1..] == sent[n + 1..];
    PrefixOf(got.buf, l.wire[k..] + Pending(l.queue), p, Stream(sent[n + 1..]));
    assert got.buf[..4] == p[..4];
    if got.target == 0 {
      PacketTarget(sent[n], got);
    }
  }

  lemma OneMore(es: seq<Event>, e: Event)
    requires IsRun(es) && Enabled(Run(es), e)
    ensures IsRun(es + [e]) && Run(es + [e]) == Step(Run(es), e)
    ensures Sent(es + [e]) == Sent(es) + if e.Send? then [e.m] else []
  {
    assert Front(es + [e]) == es;
  }

  /** The head of the queue written whole. */
  lemma HeadWritten(l: Link, p: bytes, rest: seq<Entry>)
    requires WellFormed(l.queue) && p != [] && l.queue == [Entry(p, 0)] + rest
    ensures |Offered(l.queue)| == |p|
    ensures WriteStep(l, |p|) == l.(queue := rest, writing := l.writing && rest != [], wire := l.wire + p)
  {
    assert l.queue[0].buf[0..] == p && p[..|p|] == p;
    assert Advanced(l.queue, |p|)[1..] == rest;
  }

  /** Two messages sent and written. */
  lemma TwoWritten(m: Msg<bytes>, n: Msg<bytes>)
    requires Framable(m) && Framable(n)
    ensures var es := [Send(m), Send(n), Write(|Packet(m)|), Write(|Packet(n)|)];
      IsRun(es) && Sent(es) == [m, n] && Run(es) == Start.(wire := Packet(m) + Packet(n))
  {
    hide Packet, IsRun, Run, Sent, WriteStep, Offered;
    var p, q := Packet(m), Packet(n);
    var a, b := [Send(m)], [Send(m), Send(n)];
    var c := b + [Write(|p|)];
    NoEvents();
    assert [] + a == a && a + [Send(n)] == b && c + [Write(|q|)] == [Send(m), Send(n), Write(|p|), Write(|q|)];
    OneMore([], Send(m));
    OneMore(a, Send(n));
    assert Run(b).queue == [Entry(p, 0)] + [Entry(q, 0)];
    HeadWritten(Run(b), p, [Entry(q, 0)]);
    OneMore(b, Write(|p|));
    assert [Entry(q, 0)] + [] == [Entry(q, 0)];
    HeadWritten(Run(c), q, []);
    OneMore(c, Write(|q|));
  }

  lemma NoEvents()
    ensures IsRun([]) && Run([]) == Start && Sent([]) == []
  {
  }

  /** Read in one chunk, the first is delivered and the second is lost, whatever they are. */
  lemma TwoAtOnce(m: Msg<bytes>, n: Msg<bytes>)
    requires Framable(m) && Framable(n) && |Packet(m)| + |Packet(n)| <= RB_SLOT_SIZE
    ensures var es := [Send(m), Send(n), Write(|Packet(m)|), Write(|Packet(n)|), Read(|Packet(m)| + |Packet(n)|)];
      && IsRun(es) && Sent(es) == [m, n] && Drained(Run(es))
      && Run(es).delivered == [Packet(m)] && Run(es).lost == |Packet(n)|
  {
    hide Packet, Step, IsRun, Run, Sent;
    TwoWritten(m, n);
    var es := [Send(m), Send(n), Write(|Packet(m)|), Write(|Packet(n)|)];
    OneMore(es, Read(|Packet(m)| + |Packet(n)|));
    BothRead(m, Packet(n));
    assert es + [Read(|Packet(m)| + |Packet(n)|)]
      == [Send(m), Send(n), Write(|Packet(m)|), Write(|Packet(n)|), Read(|Packet(m)| + |Packet(n)|)];
  }

  lemma BothRead(m: Msg<bytes>, rest: bytes)
    requires Framable(m) && |Packet(m)| + |rest| <= RB_SLOT_SIZE
    ensures var l := Start.(wire := Packet(m) + rest);
      && Enabled(l, Read(|Packet(m)| + |rest|))
      && Step(l, Read(|Packet(m)| + |rest|)) == Start.(delivered := [Packet(m)], lost := |rest|)
  {
    hide Packet, Target;
    var w := Packet(m) + rest;
    assert w[..4] == Packet(m)[..4] && w[..|Packet(m)|] == Packet(m);
    PacketTarget(m, Recv(w, 0));
    WholeRead(w, |Packet(m)|);
  }

  lemma WholeRead(w: bytes, n: nat)
    requires Target(Recv(w, 0)) == n && 8 < n <= |w| <= RB_SLOT_SIZE
    ensures var l := Start.(wire := w);
      Enabled(l, Read(|w|)) && Step(l, Read(|w|)) == Start.(delivered := [w[..n]], lost := |w| - n)
  {
    hide Target;
    assert w[..|w|] == w && w[|w|..] == [] && [] + w == w;
  }

  /** So of two pings, read together, one is lost. */
  lemma TwoPingsAtOnce()
    ensures Framable(PingSet) && |Packet(PingSet)| == 12
    ensures var es := [Send(PingSet), Send(PingSet), Write(12), Write(12), Read(24)];
      IsRun(es) && Drained(Run(es)) && Run(es).delivered == [Packet(PingSet)] && Run(es).lost == 12
  {
    hide Run, IsRun;
    assert |EncodeFields([])| == 0;
    TwoAtOnce(PingSet, PingSet);
  }

  lemma {:induction false} DirtyRunLoses(es: seq<Event>)
    requires IsRun(es) && !Clean(es)
    ensures Run(es).lost > 0
  {
    var before, e := Front(es), Last(es);
    if Clean(before) {
      CleanRunKeepsInv(before);
      CrossingLoses(Run(before), Sent(before), e.k);
    } else {
      DirtyRunLoses(before);
      hide Reassemble;
    }
  }

  lemma {:induction false} PacketsLength(ms: seq<Msg<bytes>>)
    requires AllFramable(ms)
    ensures SumLength(Packets(ms)) == |Stream(ms)|
  {
    hide Packet;
    if ms != [] {
      var n := |ms| - 1;
      PacketsLength(ms[..n]);
      PacketsPrefix(ms, n);
      assert ms == ms[..n] + [ms[n]];
      StreamAppend(ms[..n], ms[n]);
    }
  }

  /**
   * recv_append completes one frame per read and gc_ringbuffer_recv_pop then drops all that is buffered. So once
   * everything has been read, what was delivered is what was sent if and only if no chunk crossed a frame boundary.
   */
  lemma ExactIffClean(es: seq<Event>)
    requires IsRun(es) && Drained(Run(es))
    ensures AllFramable(Sent(es))
    ensures Run(es).delivered == Packets(Sent(es)) <==> Clean(es)
  {
    SentFramable(es);
    if Clean(es) {
      EndToEnd(es);
    } else {
      DirtyRunLoses(es);
      BytesConserved(es);
      PacketsLength(Sent(es));
    }
  }

  // ----- draining

  /** In every run no empty buffer is queued, and the write watcher is started while anything is. */
  lemma {:induction false} NeverStalls(es: seq<Event>)
    requires IsRun(es)
    ensures NoEmpty(Run(es).queue) && (Run(es).queue != [] ==> Run(es).writing)
  {
    if es != [] {
      NeverStalls(Front(es));
      StepNeverStalls(Run(Front(es)), Last(es));
    }
  }

  lemma StepNeverStalls(l: Link, e: Event)
    requires Enabled(l, e) && NoEmpty(l.queue) && (l.queue != [] ==> l.writing)
    ensures var r := Step(l, e); NoEmpty(r.queue) && (r.queue != [] ==> r.writing)
  {
    hide Reassemble, Encode, Pending;
    match e
    case Send(m) =>
    case Write(t) =>
      if l.queue != [] && t > 0 {
        SkippedKeeps(l.queue, t);
      }
    case Read(k) =>
  }

  function OutOf(l: Link): Out { Out(l.queue, l.writing, l.wire) }

  /** A write of the upstream that takes something is a step of Drain. */
  lemma WriteIsDrain(l: Link, t: nat)
    requires WellFormed(l.queue) && 1 <= t <= |Offered(l.queue)| && l.writing
    ensures OutOf(WriteStep(l, t)) == Drain.Step(OutOf(l), Drain.Take(t - 1))
  {
  }

  /** After every run, whatever SSL_write takes each time, as many writes as there are bytes pending empty the queue. */
  lemma UpstreamDrains(es: seq<Event>, ws: seq<Drain.Event>)
    requires IsRun(es) && OnlyWrites(ws) && |ws| >= |Pending(Run(es).queue)|
    ensures var l, r := Run(es), Drain.Run(OutOf(Run(es)), ws);
      r.queue == [] && r.wire == l.wire + Pending(l.queue)
  {
    hide IsRun, Run, Pending, Drain.Run;
    NeverStalls(es);
    EveryScheduleEnds(OutOf(Run(es)), ws);
  }
}
