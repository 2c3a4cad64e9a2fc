/**
 * From the bytes of a delivered frame to the handler that gets them: callback_data and message_from of src/gcapi.c. With
 * module Wire before it and module Session behind, messages sent at one end are the messages handled at the other.
 */
module Inbox {
  import opened Bytes
  import opened Headers
  import opened Pairs
  import opened Process
  import opened Locals
  import opened Proto
  import opened Session
  import opened Tokens
  import W = Wire
  import opened Wrappers

  /** What a message brings with it that is not in its bytes: the pairs of its list, and a connect() it leads to. */
  datatype Given = Given(replies: seq<(Pair, Option<bytes>)>, attempt: Attempt)

  /** The C strings argv points to; None where one has no end inside the memory. */
  function Strings(mem: bytes, starts: seq<nat>): (r: Option<seq<bytes>>)
  {
    if starts == [] then Some([])
    else
      var first, rest := CString(mem, starts[0]), Strings(mem, starts[1..]);
      if first.Some? && rest.Some? then Some([first.value] + rest.value) else None
  }

  /** The strings read one after the other. */
  method ReadStrings(mem: array<byte>, starts: seq<nat>) returns (r: Option<seq<bytes>>)
    ensures r == Strings(mem[..], starts)
  {
    hide CString;
    if starts == [] {
      return Some([]);
    }
    var first := ReadString(mem, starts[0]);
    var rest := ReadStrings(mem, starts[1..]);
    return if first.Some? && rest.Some? then Some([first.value] + rest.value) else None;
  }

  function FrameWith(m: Msg<bytes>, argv: seq<bytes>, g: Given): Frame
  {
    if m.AccountLoginReply? then LoginReply(m.error)
    else if m.DevicePairReply? then PairReply(m.error, g.replies)
    else if m.MessageFrom? then Frame.MessageFrom(m.fromDevice, m.fromAddress, argv, m.body, g.attempt)
    else if m.OfflineSet? then Frame.OfflineSet(m.address)
    else if m.TrafficGetReply? || m.AccountSetReply? || m.AccountExistsReply? || m.AccountDataSetReply? then LastReply
    else Other
  }

  /** What callback_data makes of a frame behind its length word; None where it does not parse. */
  function ToFrame(buf: bytes, g: Given): Option<Frame>
  {
    match Parse(buf)
    case Failed(_) => None
    case Stray => Some(Frame.Stray)
    case Got(p) =>
      if !AllInside(buf, Fields(p)) then Some(Frame.Stray)
      else if p.MessageFrom? then
        InsideTp(buf, p);
        match Strings(CutAt(buf, p.tp), Starts(Text(buf, p.tp), SLASH, p.tp.start, p.tp.start))
        case None => Some(Frame.Stray)
        case Some(argv) => Some(FrameWith(Contents(buf, p), argv, g))
      else Some(FrameWith(Contents(buf, p), [], g))
  }

  lemma InsideTp(buf: bytes, p: Msg<Slice>)
    requires p.MessageFrom? && AllInside(buf, Fields(p))
    ensures Inside(buf, p.tp) && Inside(buf, p.body)
  {
    MessageFromFields(p);
    assert Fields(p)[3] == p.tp && Fields(p)[4] == p.body;
  }

  // ----- cutting a header leaves the other fields alone

  predicate InOrder(ss: seq<Slice>)
  {
    forall i, j :: 0 <= i < j < |ss| ==> ss[i].start + ss[i].n < ss[j].start
  }

  lemma {:induction false} SlicesInOrder(buf: bytes, off: int32, k: nat)
    requires |buf| <= INT_MAX && ReadSlices(buf, off, k).Got? && AllInside(buf, ReadSlices(buf, off, k).value)
    ensures var ss := ReadSlices(buf, off, k).value; InOrder(ss) && (ss != [] ==> off < ss[0].start)
    decreases k
  {
    hide InOrder, ReadSlice;
    if k > 0 {
      var s, next := FirstSlice(buf, off, k);
      SliceAfterLength(buf, off);
      SlicesInOrder(buf, next, k - 1);
      AfterFirst(buf, s, ReadSlices(buf, next, k - 1).value);
    } else {
      NoSlices();
    }
  }

  lemma NoSlices()
    ensures InOrder([])
  {
  }

  lemma AfterFirst(buf: bytes, s: Slice, rest: seq<Slice>)
    requires InOrder(rest) && AllInside(buf, rest) && (rest != [] ==> s.start + s.n < rest[0].start)
    ensures InOrder([s] + rest)
  {
    forall j | 0 <= j < |rest|
      ensures s.start + s.n < rest[j].start
    {
      assert j > 0 ==> rest[0].start + rest[0].n < rest[j].start;
    }
  }

  lemma OutsideCut(buf: bytes, tp: Slice, s: Slice)
    requires Inside(buf, tp) && Inside(buf, s) && (s.start + s.n <= tp.start || tp.start + tp.n <= s.start)
    ensures |CutAt(buf, tp)| == |buf| && Text(CutAt(buf, tp), s) == Text(buf, s)
  {
    var cut := CutAt(buf, tp);
    assert forall k :: 0 <= k < tp.start || tp.start + tp.n <= k < |buf| ==> cut[k] == buf[k];
  }

  /** message_from cuts the header; what its handlers read besides it is as it was received. */
  lemma OthersUncut(buf: bytes, p: Msg<Slice>)
    requires |buf| <= INT_MAX && Parse(buf) == Got(p) && p.MessageFrom? && AllInside(buf, Fields(p))
    ensures Inside(buf, p.tp) && Inside(buf, p.fromDevice) && Inside(buf, p.fromAddress) && Inside(buf, p.body)
    ensures var cut := CutAt(buf, p.tp);
      && |cut| == |buf| && Text(cut, p.fromDevice) == Text(buf, p.fromDevice)
      && Text(cut, p.fromAddress) == Text(buf, p.fromAddress) && Text(cut, p.body) == Text(buf, p.body)
  {
    hide CutAt, Text, ReadSlices;
    MessageFromFields(p);
    var ss := ReadSlices(buf, 8, 5).value;
    ParsedFields(buf, p);
    SlicesInOrder(buf, 8, 5);
    OutsideCut(buf, ss[3], ss[1]);
    OutsideCut(buf, ss[3], ss[2]);
    OutsideCut(buf, ss[3], ss[4]);
  }

  lemma ParsedFields(buf: bytes, p: Msg<Slice>)
    requires Parse(buf) == Got(p) && p.MessageFrom?
    ensures ReadSlices(buf, 8, 5) == Got([p.fromCloud, p.fromDevice, p.fromAddress, p.tp, p.body])
  {
    hide ReadSlices;
    MessageFromFields(p);
    var tag := FromBe32(buf[4..8]);
    assert p == Build(tag, ReadSlices(buf, 8, Arity(tag)).value);
  }

  /** What message_from is given. */
  lemma FrameOfMessage(buf: bytes, p: Msg<Slice>, argv: seq<bytes>, g: Given)
    requires p.MessageFrom? && AllInside(buf, Fields(p)) && Inside(buf, p.fromDevice) && Inside(buf, p.fromAddress)
    requires Inside(buf, p.body)
    ensures FrameWith(Contents(buf, p), argv, g)
      == Frame.MessageFrom(Text(buf, p.fromDevice), Text(buf, p.fromAddress), argv, Text(buf, p.body), g.attempt)
  {
    hide Text;
    MessageFromFields(p);
  }

  /**
   * The beginning of message_from: the header is cut in the buffer, its tokens are read where argv points, and the other
   * fields where they are.
   */
  method CutMessage(buffer: array<byte>, p: Msg<Slice>, g: Given) returns (f: Frame)
    requires buffer.Length <= INT_MAX
    requires Parse(buffer[..]) == Got(p) && p.MessageFrom? && AllInside(buffer[..], Fields(p))
    modifies buffer
    ensures Some(f) == ToFrame(old(buffer[..]), g) && (f.MessageFrom? || f == Frame.Stray)
  {
    hide Text, CutAt, Parse, Contents, Starts, Strings, FrameWith, Cut;
    ghost var was := buffer[..];
    OthersUncut(was, p);
    assert buffer[p.tp.start..p.tp.start + p.tp.n] == was[p.tp.start..p.tp.start + p.tp.n];
    var starts := ParseDelimiter(buffer, p.tp.start, p.tp.n, SLASH);
    CutIs(was, buffer[..], p.tp);
    var argv := ReadStrings(buffer, starts);
    if argv.None? {
      return Frame.Stray;
    }
    var device := ReadField(buffer, p.fromDevice);
    var address := ReadField(buffer, p.fromAddress);
    var body := ReadField(buffer, p.body);
    FrameOfMessage(was, p, argv.value, g);
    f := Frame.MessageFrom(device, address, argv.value, body, g.attempt);
  }

  method ReadField(buffer: array<byte>, s: Slice) returns (text: bytes)
    requires Inside(buffer[..], s)
    ensures text == Text(buffer[..], s)
  {
    text := buffer[s.start..s.start + s.n];
  }

  lemma CutIs(was: bytes, now: bytes, tp: Slice)
    requires Inside(was, tp) && now == was[..tp.start] + Cut(was[tp.start..tp.start + tp.n], SLASH) + was[tp.start + tp.n..]
    ensures now == CutAt(was, tp) && Text(was, tp) == was[tp.start..tp.start + tp.n]
  {
  }

  /** What a message is to the process it is for, by its sender's names for the fields. */
  function Meant(m: Msg<bytes>, g: Given): Frame
  {
    match m
    case AccountLoginReply(error, _) => LoginReply(error)
    case DevicePairReply(_, error, _, _) => PairReply(error, g.replies)
    case MessageFrom(_, device, address, tp, body) => Frame.MessageFrom(device, address, Split(tp, SLASH), body, g.attempt)
    case OfflineSet(address, _, _) => Frame.OfflineSet(address)
    case TrafficGetReply(_, _) => LastReply
    case AccountSetReply(_) => LastReply
    case AccountExistsReply(_, _) => LastReply
    case AccountDataSetReply(_) => LastReply
    case _ => Other
  }

  lemma MeantIs(m: Msg<bytes>, g: Given)
    ensures FrameWith(m, if m.MessageFrom? then Split(m.tp, SLASH) else [], g) == Meant(m, g)
  {
    hide Split;
  }

  /** A header without NUL, and a body whose length begins with a zero byte to end it. */
  predicate Legible(m: Msg<bytes>) { m.MessageFrom? ==> 0 !in m.tp && |m.body| < 16777216 }

  lemma ContentsOf(buf: bytes, p: Msg<Slice>)
    requires AllInside(buf, Fields(p))
    ensures Contents(buf, p).MessageFrom? <==> p.MessageFrom?
    ensures p.MessageFrom? ==>
      && Inside(buf, p.tp) && Inside(buf, p.body)
      && Contents(buf, p).tp == Text(buf, p.tp) && Contents(buf, p).body == Text(buf, p.body)
  {
    if p.MessageFrom? {
      InsideTp(buf, p);
    }
  }

  lemma {:induction false} StringsRead(mem: bytes, starts: seq<nat>, texts: seq<bytes>)
    requires |starts| == |texts|
    ensures Reads(mem, starts, texts) <==> Strings(mem, starts) == Some(texts)
  {
    hide CString;
    if starts != [] {
      StringsRead(mem, starts[1..], texts[1..]);
      assert texts == [texts[0]] + texts[1..] && starts == [starts[0]] + starts[1..];
      ReadsBoth(mem, starts, texts);
    }
  }

  lemma ReadsBoth(mem: bytes, starts: seq<nat>, texts: seq<bytes>)
    requires |starts| == |texts| > 0
    ensures Reads(mem, starts, texts) <==> CString(mem, starts[0]) == Some(texts[0]) && Reads(mem, starts[1..], texts[1..])
  {
    hide CString;
    assert forall i :: 0 <= i < |starts| - 1 ==> starts[1..][i] == starts[i + 1] && texts[1..][i] == texts[i + 1];
  }

  /** A legible message is handled as it was meant. */
  lemma LegibleHandled(m: Msg<bytes>, g: Given)
    requires Sendable(m) && Legible(m)
    ensures ToFrame(Encode(m), g) == Some(Meant(m, g))
  {
    hide Parse, Contents, AllInside, Fields, Encode, Strings, CutAt, Starts, Split, Text, Tiles, FrameWith, Meant;
    MeantIs(m, g);
    var buf := Encode(m);
    assert buf + [] == buf;
    ParseEncoded(m, []);
    var p := Parse(buf).value;
    ContentsOf(buf, p);
    if p.MessageFrom? {
      TextHandled(buf, p);
    }
  }

  lemma TextHandled(buf: bytes, p: Msg<Slice>)
    requires |buf| <= INT_MAX && Parse(buf) == Got(p) && AllInside(buf, Fields(p)) && p.MessageFrom? && Inside(buf, p.tp)
    requires Inside(buf, p.body) && 0 !in Text(buf, p.tp) && |Text(buf, p.body)| < 16777216
    ensures Strings(CutAt(buf, p.tp), Starts(Text(buf, p.tp), SLASH, p.tp.start, p.tp.start))
      == Some(Split(Text(buf, p.tp), SLASH))
  {
    hide Parse, Contents, AllInside, Fields, Strings, CutAt, Starts, Split, Text, Reads;
    ReceivedHeaderTokens(buf);
    ReadsLength(CutAt(buf, p.tp), Starts(Text(buf, p.tp), SLASH, p.tp.start, p.tp.start), Split(Text(buf, p.tp), SLASH));
    StringsRead(CutAt(buf, p.tp), Starts(Text(buf, p.tp), SLASH, p.tp.start, p.tp.start), Split(Text(buf, p.tp), SLASH));
  }

  lemma ReadsLength(mem: bytes, starts: seq<nat>, texts: seq<bytes>)
    requires Reads(mem, starts, texts)
    ensures |starts| == |texts|
  {
  }

  // ----- end to end

  /** The process is handed the frames one after the other. */
  ghost function Handed(s: State, frames: seq<bytes>, gs: seq<Given>, config: Config): State
    requires |frames| == |gs|
    decreases |frames|
  {
    if frames == [] then s
    else
      var f := if |frames[0]| < 4 then None else ToFrame(frames[0][4..], gs[0]);
      Handed(if f.Some? then Session.Step(s, Upstream(f.value), config) else s, frames[1..], gs[1..], config)
  }

  /** The process does what the messages mean. */
  ghost function Obeyed(s: State, ms: seq<Msg<bytes>>, gs: seq<Given>, config: Config): State
    requires |ms| == |gs|
    decreases |ms|
  {
    if ms == [] then s else Obeyed(Session.Step(s, Upstream(Meant(ms[0], gs[0])), config), ms[1..], gs[1..], config)
  }

  lemma {:induction false} PacketsObeyed(s: State, ms: seq<Msg<bytes>>, gs: seq<Given>, config: Config)
    requires |ms| == |gs| && W.AllFramable(ms) && forall m :: m in ms ==> Legible(m)
    ensures Handed(s, W.Packets(ms), gs, config) == Obeyed(s, ms, gs, config)
    decreases |ms|
  {
    hide Session.Step, ToFrame, Meant, W.Packet;
    if ms != [] {
      assert ms[0] in ms;
      PacketMeant(ms[0], gs[0]);
      assert W.Packets(ms)[1..] == W.Packets(ms[1..]);
      PacketsObeyed(Session.Step(s, Upstream(Meant(ms[0], gs[0])), config), ms[1..], gs[1..], config);
    }
  }

  lemma PacketMeant(m: Msg<bytes>, g: Given)
    requires W.Framable(m) && Legible(m)
    ensures |W.Packet(m)| >= 4 && ToFrame(W.Packet(m)[4..], g) == Some(Meant(m, g))
  {
    hide ToFrame, Meant, Encode;
    LegibleHandled(m, g);
    assert W.Packet(m)[4..] == Encode(m);
  }

  /**
   * From gc_packet_send at one end to the handlers at the other: after a run of the connection in which no read chunk
   * crosses a frame boundary, when all bytes have arrived, a process handed the delivered frames is where it would be had
   * it done what each message sent means, in order.
   */
  lemma SentIsObeyed(es: seq<W.Event>, s: State, gs: seq<Given>, config: Config)
    requires W.IsRun(es) && W.Clean(es) && W.Drained(W.Run(es)) && |gs| == |W.Sent(es)|
    requires forall m :: m in W.Sent(es) ==> Legible(m)
    ensures |W.Run(es).delivered| == |gs|
    ensures Handed(s, W.Run(es).delivered, gs, config) == Obeyed(s, W.Sent(es), gs, config)
  {
    hide W.IsRun, W.Clean, W.Run, W.Sent, Handed, Obeyed, Session.Step;
    W.EndToEnd(es);
    PacketsObeyed(s, W.Sent(es), gs, config);
  }
}
