/** The message codec of src/proto.c: 24 message types, each a list of big-endian length-prefixed fields. */
module Proto {
  import opened Bytes

  const GCPROTO_VERSION: int32 := 1
  const GCPROTO_ERR := 1
  const GCPROTO_ERR_VERSION := 2

  /** struct proto_s; F is what a field holds: bytes for a sender, a slice of the input for a receiver. */
  datatype Msg<F> =
    | MessageTo(to: F, address: F, tp: F, body: F)
    | MessageToSetReply(error: F)
    | PingSet
    | PongSet
    | AccountList
    | AccountListReply(error: F, list: F)
    | TrafficMi
    | TrafficGet
    | TrafficGetReply(list: F, error: F)
    | MessageFrom(fromCloud: F, fromDevice: F, fromAddress: F, tp: F, body: F)
    | DevicePair(cloud: F, device: F, localPort: F, remotePort: F)
    | DevicePairReply(cloud: F, error: F, list: F, kind: F)
    | OfflineSet(address: F, cloud: F, device: F)
    | AccountSet(email: F, password: F)
    | AccountSetReply(error: F)
    | AccountGet
    | AccountLogin(email: F, password: F, devname: F)
    | AccountLoginReply(error: F, data: F)
    | AccountDataSet(email: F, password: F, data: F)
    | AccountDataSetReply(error: F)
    | AccountExists(email: F, password: F)
    | AccountExistsReply(error: F, data: F)
    | VersionMismatch(master: F, slave: F)
    | ClientStopSet(address: F, cloud: F, device: F)

  /** enum proto_e */
  function Tag<F>(m: Msg<F>): (t: int32)
    ensures 0 <= t < 24
  {
    match m
    case MessageTo(_, _, _, _) => 0
    case MessageToSetReply(_) => 1
    case PingSet => 2
    case PongSet => 3
    case AccountList => 4
    case AccountListReply(_, _) => 5
    case TrafficMi => 6
    case TrafficGet => 7
    case TrafficGetReply(_, _) => 8
    case MessageFrom(_, _, _, _, _) => 9
    case DevicePair(_, _, _, _) => 10
    case DevicePairReply(_, _, _, _) => 11
    case OfflineSet(_, _, _) => 12
    case AccountSet(_, _) => 13
    case AccountSetReply(_) => 14
    case AccountGet => 15
    case AccountLogin(_, _, _) => 16
    case AccountLoginReply(_, _) => 17
    case AccountDataSet(_, _, _) => 18
    case AccountDataSetReply(_) => 19
    case AccountExists(_, _) => 20
    case AccountExistsReply(_, _) => 21
    case VersionMismatch(_, _) => 22
    case ClientStopSet(_, _, _) => 23
  }

  function Arity(tag: int): (k: nat)
    ensures k <= 5
  {
    match tag
    case 0 => 4
    case 1 => 1
    case 2 => 0
    case 3 => 0
    case 4 => 0
    case 5 => 2
    case 6 => 0
    case 7 => 0
    case 8 => 2
    case 9 => 5
    case 10 => 4
    case 11 => 4
    case 12 => 3
    case 13 => 2
    case 14 => 1
    case 15 => 0
    case 16 => 3
    case 17 => 2
    case 18 => 3
    case 19 => 1
    case 20 => 2
    case 21 => 2
    case 22 => 2
    case _ => 3
  }

  /** The fields in wire order. */
  function Fields<F>(m: Msg<F>): (fs: seq<F>)
    ensures |fs| == Arity(Tag(m))
  {
    match m
    case MessageTo(a, b, c, d) => [a, b, c, d]
    case MessageToSetReply(a) => [a]
    case PingSet => []
    case PongSet => []
    case AccountList => []
    case AccountListReply(a, b) => [a, b]
    case TrafficMi => []
    case TrafficGet => []
    case TrafficGetReply(a, b) => [a, b]
    case MessageFrom(a, b, c, d, e) => [a, b, c, d, e]
    case DevicePair(a, b, c, d) => [a, b, c, d]
    case DevicePairReply(a, b, c, d) => [a, b, c, d]
    case OfflineSet(a, b, c) => [a, b, c]
    case AccountSet(a, b) => [a, b]
    case AccountSetReply(a) => [a]
    case AccountGet => []
    case AccountLogin(a, b, c) => [a, b, c]
    case AccountLoginReply(a, b) => [a, b]
    case AccountDataSet(a, b, c) => [a, b, c]
    case AccountDataSetReply(a) => [a]
    case AccountExists(a, b) => [a, b]
    case AccountExistsReply(a, b) => [a, b]
    case VersionMismatch(a, b) => [a, b]
    case ClientStopSet(a, b, c) => [a, b, c]
  }

  /** The one message of a type with the given fields. */
  function Build<F>(tag: int32, fs: seq<F>): (m: Msg<F>)
    requires 0 <= tag < 24 && |fs| == Arity(tag)
    ensures Tag(m) == tag && Fields(m) == fs
  {
    match tag
    case 0 => MessageTo(fs[0], fs[1], fs[2], fs[3])
    case 1 => MessageToSetReply(fs[0])
    case 2 => PingSet
    case 3 => PongSet
    case 4 => AccountList
    case 5 => AccountListReply(fs[0], fs[1])
    case 6 => TrafficMi
    case 7 => TrafficGet
    case 8 => TrafficGetReply(fs[0], fs[1])
    case 9 => MessageFrom(fs[0], fs[1], fs[2], fs[3], fs[4])
    case 10 => DevicePair(fs[0], fs[1], fs[2], fs[3])
    case 11 => DevicePairReply(fs[0], fs[1], fs[2], fs[3])
    case 12 => OfflineSet(fs[0], fs[1], fs[2])
    case 13 => AccountSet(fs[0], fs[1])
    case 14 => AccountSetReply(fs[0])
    case 15 => AccountGet
    case 16 => AccountLogin(fs[0], fs[1], fs[2])
    case 17 => AccountLoginReply(fs[0], fs[1])
    case 18 => AccountDataSet(fs[0], fs[1], fs[2])
    case 19 => AccountDataSetReply(fs[0])
    case 20 => AccountExists(fs[0], fs[1])
    case 21 => AccountExistsReply(fs[0], fs[1])
    case 22 => VersionMismatch(fs[0], fs[1])
    case _ => ClientStopSet(fs[0], fs[1], fs[2])
  }

  /** A message is its type and its fields. */
  lemma BuildFields<F>(m: Msg<F>)
    ensures Build(Tag(m), Fields(m)) == m
  {
    var b := Build(Tag(m), Fields(m));
    SameFields(b, m);
  }

  lemma SameFields<F>(m: Msg<F>, m': Msg<F>)
    requires Tag(m) == Tag(m') && Fields(m) == Fields(m')
    ensures m == m'
  {
    var fs, gs := Fields(m), Fields(m');
    assert forall i :: 0 <= i < |fs| ==> fs[i] == gs[i];
  }

  // ----- the wire format

  predicate Fits(f: bytes) { |f| <= INT_MAX }

  /** add_intern: the length, then the bytes. */
  function Field(f: bytes): (w: bytes)
    requires Fits(f)
    ensures |w| == 4 + |f|
  {
    Be32(|f|) + f
  }

  predicate AllFit(fs: seq<bytes>) { forall f :: f in fs ==> Fits(f) }

  function EncodeFields(fs: seq<bytes>): bytes
    requires AllFit(fs)
  {
    if fs == [] then [] else Field(fs[0]) + EncodeFields(fs[1..])
  }

  function FieldsLength(fs: seq<bytes>): (n: nat)
    ensures n >= 4 * |fs|
  {
    if fs == [] then 0 else 4 + |fs[0]| + FieldsLength(fs[1..])
  }

  function Header(tag: int32): (w: bytes)
    ensures |w| == 8
  {
    Be32(GCPROTO_VERSION) + Be32(tag)
  }

  function WireLength(m: Msg<bytes>): nat { 8 + FieldsLength(Fields(m)) }

  /** The lengths are C ints, so a message on the wire is shorter than 2^31 bytes. */
  predicate Sendable(m: Msg<bytes>) { WireLength(m) <= INT_MAX }

  function Encode(m: Msg<bytes>): (w: bytes)
    requires Sendable(m)
    ensures |w| == WireLength(m)
  {
    ShortFieldsFit(Fields(m));
    EncodeFieldsLength(Fields(m));
    Header(Tag(m)) + EncodeFields(Fields(m))
  }

  lemma {:induction false} ShortFieldsFit(fs: seq<bytes>)
    requires FieldsLength(fs) <= INT_MAX
    ensures AllFit(fs)
  {
    if fs != [] {
      ShortFieldsFit(fs[1..]);
      assert fs == [fs[0]] + fs[1..];
    }
  }

  lemma {:induction false} EncodeFieldsLength(fs: seq<bytes>)
    requires AllFit(fs)
    ensures |EncodeFields(fs)| == FieldsLength(fs)
  {
    if fs != [] {
      EncodeFieldsLength(fs[1..]);
    }
  }

  lemma {:induction false} EncodeFieldsAppend(fs: seq<bytes>, gs: seq<bytes>)
    requires AllFit(fs) && AllFit(gs)
    ensures EncodeFields(fs + gs) == EncodeFields(fs) + EncodeFields(gs)
  {
    if fs == [] {
      assert fs + gs == gs;
    } else {
      assert (fs + gs)[1..] == fs[1..] + gs;
      EncodeFieldsAppend(fs[1..], gs);
    }
  }

  // ----- error strings

  function Ascii(s: string): (b: bytes)
    ensures |b| == |s|
  {
    seq(|s|, i requires 0 <= i < |s| => s[i] as int % 256)
  }

  /**
   * The check before an error field: a disjunction of `sn_memcmp(x, error) == 0`, where sn_memcmp is 1 when
   * the two strings are EQUAL.
   */
  predicate ErrorCheck(allowed: seq<string>, error: bytes) {
    exists i :: 0 <= i < |allowed| && Ascii(allowed[i]) != error
  }

  /** Strings of two lengths on the list are enough to let every error string through. */
  lemma ErrorCheckAcceptsAll(allowed: seq<string>, error: bytes)
    requires |allowed| >= 2 && |allowed[0]| != |allowed[1]|
    ensures ErrorCheck(allowed, error)
  {
    assert Ascii(allowed[0]) != error || Ascii(allowed[1]) != error;
  }

  /** The strings named for each type with an error field. */
  function Allowed(tag: int): (a: seq<string>)
    ensures |a| >= 2 && |a[0]| != |a[1]|
  {
    match tag
    case 1 => ["ok", "ok_registered", "login", "enoexists", "general_failure"]
    case 5 => ["ok", "general_failure"]
    case 8 => ["ok", "ok_partial", "login", "general_failure", "denied", "empty"]
    case 11 => ["ok", "ok_registered", "login", "general_failure"]
    case 14 => ["ok", "denied", "already_exists", "general_failure"]
    case 17 => ["ok", "ok_registered", "version", "try_again", "invalid_login", "general_failure", "already_logged"]
    case 19 => ["ok", "ok_registered", "invalid_login", "version", "general_failure"]
    case _ => ["ok", "invalid_login", "general_failure"]
  }

  predicate HasError<F>(m: Msg<F>) {
    m.MessageToSetReply? || m.AccountListReply? || m.TrafficGetReply? || m.DevicePairReply? ||
    m.AccountSetReply? || m.AccountLoginReply? || m.AccountDataSetReply? || m.AccountExistsReply?
  }

  /** The checks of gc_serialize, type by type. */
  predicate ErrorPasses(m: Msg<bytes>) {
    match m
    case MessageToSetReply(error) => ErrorCheck(Allowed(1), error)
    case AccountListReply(error, _) => ErrorCheck(Allowed(5), error)
    case TrafficGetReply(_, error) => ErrorCheck(Allowed(8), error)
    case DevicePairReply(_, error, _, _) => ErrorCheck(Allowed(11), error)
    case AccountSetReply(error) => ErrorCheck(Allowed(14), error)
    case AccountLoginReply(error, _) => ErrorCheck(Allowed(17), error)
    case AccountDataSetReply(error) => ErrorCheck(Allowed(19), error)
    case AccountExistsReply(error, _) => ErrorCheck(Allowed(21), error)
    case _ => true
  }

  lemma ErrorAlwaysPasses(m: Msg<bytes>)
    ensures ErrorPasses(m)
  {
    forall tag, error: bytes ensures ErrorCheck(Allowed(tag), error) {
      ErrorCheckAcceptsAll(Allowed(tag), error);
    }
  }

  // ----- reading

  /** A field as the parser leaves it: a pointer into the input and a length. Nothing was copied or checked. */
  datatype Slice = Slice(start: int, n: int32)

  /** What a reader returns; Stray marks a read outside the buffer or an overflowing offset: undefined in C. */
  datatype Got<+T> = Got(value: T) | Failed(code: int) | Stray {
    predicate IsFailure() { !Got? }
    function PropagateFailure<U>(): Got<U>
      requires IsFailure()
    {
      if Failed? then Failed(code) else Stray
    }
    function Extract(): T
      requires Got?
    {
      value
    }
  }

  /** get_intern at `off`: the slice and the next offset. The decoded length is not compared with what is left. */
  function ReadSlice(buf: bytes, off: int32): Got<(Slice, int32)>
  {
    if off > INT_MAX - 4 then Stray
    else if off + 4 > |buf| then Failed(GCPROTO_ERR)
    else if off < 0 then Stray
    else
      var n := FromBe32(buf[off..off + 4]);
      Got((Slice(off + 4, n), Wrap32(off + 4 + n)))
  }

  function ReadSlices(buf: bytes, off: int32, k: nat): (r: Got<seq<Slice>>)
    ensures r.Got? ==> |r.value| == k
    decreases k
  {
    if k == 0 then Got([]) else
      var (s, next) :- ReadSlice(buf, off);
      var rest :- ReadSlices(buf, next, k - 1);
      Got([s] + rest)
  }

  /** gc_deserialize */
  function Parse(buf: bytes): Got<Msg<Slice>>
  {
    if |buf| < 4 then Failed(GCPROTO_ERR)
    else if FromBe32(buf[..4]) != GCPROTO_VERSION then Failed(GCPROTO_ERR_VERSION)
    else if |buf| < 8 then Failed(GCPROTO_ERR)
    else
      var tag := FromBe32(buf[4..8]);
      if !(0 <= tag < 24) then Failed(-1)
      else
        ParseFields(buf, tag)
  }

  function ParseFields(buf: bytes, tag: int32): Got<Msg<Slice>>
    requires 0 <= tag < 24
  {
    var slices :- ReadSlices(buf, 8, Arity(tag));
    Got(Build(tag, slices))
  }

  /** The slice lies inside the buffer. */
  predicate Inside(buf: bytes, s: Slice) { 0 <= s.start && 0 <= s.n && s.start + s.n <= |buf| }

  predicate AllInside(buf: bytes, ss: seq<Slice>) { forall i :: 0 <= i < |ss| ==> Inside(buf, ss[i]) }

  function Text(buf: bytes, s: Slice): bytes
    requires Inside(buf, s)
  {
    buf[s.start..s.start + s.n]
  }

  function Texts(buf: bytes, ss: seq<Slice>): (fs: seq<bytes>)
    requires AllInside(buf, ss)
    ensures |fs| == |ss|
  {
    seq(|ss|, i requires 0 <= i < |ss| => Text(buf, ss[i]))
  }

  /** The message a receiver sees through its slices. */
  function Contents(buf: bytes, p: Msg<Slice>): Msg<bytes>
    requires AllInside(buf, Fields(p))
  {
    Build(Tag(p), Texts(buf, Fields(p)))
  }

  /** The slices follow one another from `from` to `to`, four length bytes before each: no overlap, no gap. */
  predicate Tiles(ss: seq<Slice>, from: int, to: int)
  {
    if ss == [] then from == to
    else ss[0].start == from + 4 && Tiles(ss[1..], ss[0].start + ss[0].n, to)
  }

  // ----- parsing inverts encoding

  /** `w` stands in `buf` at `off`. */
  predicate At(buf: bytes, off: int, w: bytes) { 0 <= off && off + |w| <= |buf| && buf[off..off + |w|] == w }

  lemma AtSplits(buf: bytes, off: int, v: bytes, w: bytes)
    ensures At(buf, off, v + w) <==> At(buf, off, v) && At(buf, off + |v|, w)
  {
    if At(buf, off, v + w) {
      assert v == (v + w)[..|v|] == buf[off..off + |v|];
      assert w == (v + w)[|v|..] == buf[off + |v|..off + |v| + |w|];
    }
    if At(buf, off, v) && At(buf, off + |v|, w) {
      assert buf[off..off + |v + w|] == buf[off..off + |v|] + buf[off + |v|..off + |v| + |w|];
    }
  }

  lemma ReadEncodedField(buf: bytes, off: int, f: bytes)
    requires Fits(f) && |buf| <= INT_MAX && At(buf, off, Field(f))
    ensures ReadSlice(buf, off) == Got((Slice(off + 4, |f|), off + 4 + |f|))
    ensures Text(buf, Slice(off + 4, |f|)) == f
  {
    var len := Be32(|f|);
    Be32RoundTrip(|f|, len);
    hide Be32, FromBe32;
    AtSplits(buf, off, len, f);
  }

  lemma ConsTexts(buf: bytes, s: Slice, ss: seq<Slice>)
    requires Inside(buf, s) && AllInside(buf, ss)
    ensures AllInside(buf, [s] + ss)
    ensures Texts(buf, [s] + ss) == [Text(buf, s)] + Texts(buf, ss)
  {
  }

  lemma {:induction false} ReadEncodedFields(buf: bytes, off: int, fs: seq<bytes>)
    requires AllFit(fs) && |buf| <= INT_MAX && At(buf, off, EncodeFields(fs))
    ensures var r := ReadSlices(buf, off, |fs|);
      && r.Got? && AllInside(buf, r.value) && Texts(buf, r.value) == fs
      && Tiles(r.value, off, off + |EncodeFields(fs)|)
    decreases |fs|
  {
    hide ReadSlice, Field, Text;
    if fs != [] {
      var f, w, more := fs[0], Field(fs[0]), EncodeFields(fs[1..]);
      AtSplits(buf, off, w, more);
      ReadEncodedField(buf, off, f);
      ReadEncodedFields(buf, off + |w|, fs[1..]);
      assert |fs[1..]| == |fs| - 1;
      var s, r' := Slice(off + 4, |f|), ReadSlices(buf, off + |w|, |fs| - 1);
      assert r'.Got?;
      var tail := r'.value;
      ConsTexts(buf, s, tail);
      assert ReadSlices(buf, off, |fs|) == Got([s] + tail);
      assert ([s] + tail)[1..] == tail;
      assert |EncodeFields(fs)| == |w| + |more|;
      assert fs == [f] + fs[1..];
    }
  }

  /** What was serialised is parsed back, whatever follows it; the slices tile the message's bytes. */
  lemma ParseEncoded(m: Msg<bytes>, rest: bytes)
    requires Sendable(m) && |Encode(m) + rest| <= INT_MAX
    ensures var buf := Encode(m) + rest;
      var r := Parse(buf);
      && r.Got? && AllInside(buf, Fields(r.value)) && Contents(buf, r.value) == m
      && Tiles(Fields(r.value), 8, |Encode(m)|)
  {
    hide FromBe32, Header, EncodeFields, Fields, Tag, Arity, Build, Texts, Tiles, Parse, ReadSlices;
    var buf := Encode(m) + rest;
    assert At(buf, 0, Encode(m));
    ShortFieldsFit(Fields(m));
    ReadEncodedParts(buf, Tag(m), Fields(m));
    ParseOk(buf, Tag(m), ReadSlices(buf, 8, Arity(Tag(m))).value);
    BuildFields(m);
  }

  lemma ReadEncodedParts(buf: bytes, tag: int32, fs: seq<bytes>)
    requires AllFit(fs) && |buf| <= INT_MAX && At(buf, 0, Header(tag) + EncodeFields(fs))
    ensures |buf| >= 8 && FromBe32(buf[..4]) == GCPROTO_VERSION && FromBe32(buf[4..8]) == tag
    ensures var r := ReadSlices(buf, 8, |fs|);
      && r.Got? && AllInside(buf, r.value) && Texts(buf, r.value) == fs
      && Tiles(r.value, 8, 8 + |EncodeFields(fs)|)
  {
    hide Header, FromBe32, EncodeFields, ReadSlices, Tiles, Texts, AllInside;
    AtSplits(buf, 0, Header(tag), EncodeFields(fs));
    ParseHeader(buf, tag);
    ReadEncodedFields(buf, 8, fs);
  }

  lemma ParseOk(buf: bytes, tag: int32, ss: seq<Slice>)
    requires |buf| >= 8 && 0 <= tag < 24
    requires FromBe32(buf[..4]) == GCPROTO_VERSION && FromBe32(buf[4..8]) == tag
    requires ReadSlices(buf, 8, Arity(tag)) == Got(ss) && AllInside(buf, ss)
    ensures Parse(buf) == Got(Build(tag, ss)) && Fields(Parse(buf).value) == ss
    ensures Contents(buf, Parse(buf).value) == Build(tag, Texts(buf, ss))
  {
    hide FromBe32, ReadSlices, Arity, Build, Texts;
  }

  lemma ParseHeader(buf: bytes, tag: int32)
    requires |buf| >= 8
    ensures At(buf, 0, Header(tag)) <==> FromBe32(buf[..4]) == GCPROTO_VERSION && FromBe32(buf[4..8]) == tag
  {
    var v, t := Be32(GCPROTO_VERSION), Be32(tag);
    Be32RoundTrip(GCPROTO_VERSION, buf[..4]);
    Be32RoundTrip(tag, buf[4..8]);
    AtSplits(buf, 0, v, t);
  }

  /** The slices of a parsed message are the ones read, in order. */
  lemma ParsedSlices(buf: bytes)
    requires Parse(buf).Got?
    ensures var p := Parse(buf).value; ReadSlices(buf, 8, Arity(Tag(p))) == Got(Fields(p))
  {
    hide ReadSlices, Arity, Build, FromBe32, Fields;
  }

  lemma ReencodeField(buf: bytes, off: int32)
    requires |buf| <= INT_MAX
    requires ReadSlice(buf, off).Got? && Inside(buf, ReadSlice(buf, off).value.0)
    ensures var (s, next) := ReadSlice(buf, off).value;
      && Fits(Text(buf, s)) && At(buf, off, Field(Text(buf, s))) && next == off + |Field(Text(buf, s))|
  {
    var (s, next) := ReadSlice(buf, off).value;
    Be32RoundTrip(0, buf[off..off + 4]);
    AtSplits(buf, off, Be32(s.n), Text(buf, s));
  }

  lemma {:induction false} ReadInsideReencodes(buf: bytes, off: int32, k: nat)
    requires |buf| <= INT_MAX && 0 <= off <= |buf|
    requires ReadSlices(buf, off, k).Got? && AllInside(buf, ReadSlices(buf, off, k).value)
    ensures var fs := Texts(buf, ReadSlices(buf, off, k).value);
      AllFit(fs) && At(buf, off, EncodeFields(fs))
    decreases k
  {
    hide ReadSlice, Field, Text;
    if k > 0 {
      var (s, next) := ReadSlice(buf, off).value;
      var tail := ReadSlices(buf, next, k - 1).value;
      var ss := [s] + tail;
      assert ReadSlices(buf, off, k).value == ss;
      assert ss[0] == s && ss[1..] == tail;
      ReencodeField(buf, off);
      ReadInsideReencodes(buf, next, k - 1);
      ConsTexts(buf, s, tail);
      var f, gs := Text(buf, s), Texts(buf, tail);
      AtSplits(buf, off, Field(f), EncodeFields(gs));
      assert ([f] + gs)[1..] == gs;
    }
  }

  /** Conversely, an accepted input whose slices all lie inside it begins with the encoding of what is seen. */
  lemma ParsedInsideReencodes(buf: bytes)
    requires |buf| <= INT_MAX && Parse(buf).Got? && AllInside(buf, Fields(Parse(buf).value))
    ensures var m := Contents(buf, Parse(buf).value); Sendable(m) && Encode(m) <= buf
  {
    var tag, p := FromBe32(buf[4..8]), Parse(buf).value;
    ReadInsideReencodes(buf, 8, Arity(tag));
    ParseHeader(buf, tag);
    var fs := Texts(buf, Fields(p));
    EncodeFieldsLength(fs);
    AtSplits(buf, 0, Header(tag), EncodeFields(fs));
  }

  ghost predicate StartsWithMessage(buf: bytes)
  {
    exists m: Msg<bytes> :: Sendable(m) && Encode(m) <= buf
  }

  /** The parser returns success with every slice inside the input exactly on inputs that begin with an encoding. */
  lemma ParsedInsideIff(buf: bytes)
    requires |buf| <= INT_MAX
    ensures Parse(buf).Got? && AllInside(buf, Fields(Parse(buf).value)) <==> StartsWithMessage(buf)
  {
    hide Parse, AllInside, Encode, Sendable, Fields, Contents;
    if StartsWithMessage(buf) {
      var m: Msg<bytes> :| Sendable(m) && Encode(m) <= buf;
      assert buf == Encode(m) + buf[|Encode(m)|..];
      ParseEncoded(m, buf[|Encode(m)|..]);
    }
    if Parse(buf).Got? && AllInside(buf, Fields(Parse(buf).value)) {
      ParsedInsideReencodes(buf);
    }
  }

  /** Which inputs are refused before any field is read, and with which code. */
  lemma RefusedWith(buf: bytes)
    ensures |buf| >= 4 && buf[..4] != Be32(1) ==> Parse(buf) == Failed(2)
    ensures |buf| < 4 || (|buf| < 8 && buf[..4] == Be32(1)) ==> Parse(buf) == Failed(1)
    ensures |buf| >= 8 && buf[..4] == Be32(1) && !(0 <= FromBe32(buf[4..8]) < 24) ==> Parse(buf) == Failed(-1)
  {
    hide FromBe32, Be32, ParseFields;
    if |buf| >= 4 {
      Be32RoundTrip(1, buf[..4]);
    }
  }

  /** Success alone does not bound the slices: the error field claims 5 bytes, 2 are there. */
  lemma ParseAcceptsOverlongField()
    ensures var buf := Header(14) + Be32(5) + Ascii("ok");
      Parse(buf) == Got(AccountSetReply(Slice(12, 5))) && !StartsWithMessage(buf)
  {
    var buf := Header(14) + Be32(5) + Ascii("ok");
    Be32RoundTrip(GCPROTO_VERSION, Be32(0));
    Be32RoundTrip(14, Be32(0));
    Be32RoundTrip(5, Be32(0));
    assert buf[..4] == Be32(1) && buf[4..8] == Be32(14) && buf[8..12] == Be32(5);
    assert ReadSlices(buf, 8, 1).value == [Slice(12, 5)];
    assert !Inside(buf, Fields(Parse(buf).value)[0]);
    ParsedInsideIff(buf);
  }

  /** Encodings are prefix-free, so distinct messages have distinct bytes and a stream has one reading. */
  lemma EncodePrefixFree(m: Msg<bytes>, m': Msg<bytes>, x: bytes, x': bytes)
    requires Sendable(m) && Sendable(m') && Encode(m) + x == Encode(m') + x'
    requires |Encode(m) + x| <= INT_MAX
    ensures m == m' && x == x'
  {
    ParseEncoded(m, x);
    ParseEncoded(m', x');
    var n := |Encode(m)|;
    assert (Encode(m) + x)[n..] == x && (Encode(m') + x')[n..] == x';
  }
}
