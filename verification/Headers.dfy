/**
 * The tunnel headers: printed by src/tunnel.c and src/endpoint.c, carried in the `tp` field of a message, cut up by
 * message_from of src/gcapi.c.
 */
module Headers {
  import opened Bytes
  import opened Proto
  import opened Tokens
  import opened Wrappers

  // ----- printing

  /** snprintf into a buffer of `size` bytes. */
  function Snprintf(size: nat, text: bytes): (r: bytes)
    requires size >= 1
    ensures |text| < size ==> r == text
  {
    if |text| < size then text else text[..size - 1]
  }

  /** "%d" of a number that is not negative. */
  function Decimal(n: nat): (s: bytes)
    ensures |s| >= 1
  {
    if n < 10 then [48 + n] else Decimal(n / 10) + [48 + n % 10]
  }

  predicate IsDigits(s: bytes) { forall i :: 0 <= i < |s| ==> 48 <= s[i] <= 57 }

  function Pow10(k: nat): (p: nat)
    ensures p >= 1
  {
    if k == 0 then 1 else 10 * Pow10(k - 1)
  }

  lemma {:induction false} DecimalDigits(n: nat)
    ensures IsDigits(Decimal(n))
  {
    if n >= 10 {
      DecimalDigits(n / 10);
    }
  }

  /** k digits are enough exactly below ten to the k. */
  lemma {:induction false} DecimalLength(n: nat, k: nat)
    requires k >= 1
    ensures |Decimal(n)| <= k <==> n < Pow10(k)
  {
    if n < 10 {
      assert Pow10(k) == 10 * Pow10(k - 1);
    } else if k > 1 {
      DecimalLength(n / 10, k - 1);
      assert Pow10(k) == 10 * Pow10(k - 1);
    } else {
      assert Pow10(1) == 10 * Pow10(0) == 10;
    }
  }

  function Value(s: bytes): int
  {
    if s == [] then 0 else 10 * Value(s[..|s| - 1]) + (s[|s| - 1] as int - 48)
  }

  lemma {:induction false} ValueDecimal(n: nat)
    ensures Value(Decimal(n)) == n
  {
    var s := Decimal(n);
    if n >= 10 {
      ValueDecimal(n / 10);
      assert s[..|s| - 1] == Decimal(n / 10);
    } else {
      assert s[..0] == [];
    }
  }

  // ----- the header forms

  const REQUEST: bytes := Ascii("tunnel_request")
  const RESPONSE: bytes := Ascii("tunnel_response")
  const UPDATE: bytes := Ascii("tunnel_update")
  const STOP: bytes := Ascii("endpoint_stop")
  const DENIED: bytes := Ascii("tunnel_denied")

  /** client_data: the descriptor goes through an 8-byte buffer, the header through a 64-byte one. */
  function RequestHeader(portRemote: bytes, fd: nat, portLocal: bytes): bytes
  {
    Snprintf(64, Join([REQUEST, portRemote, Snprintf(8, Decimal(fd)), portLocal], SLASH))
  }

  /** endpoint_recv */
  function ResponseHeader(backendPort: bytes, remoteFd: bytes): bytes
  {
    Snprintf(64, Join([RESPONSE, backendPort, remoteFd], SLASH))
  }

  /** gc_endpoint_request, when the port is not allowed */
  function DeniedHeader(backendPort: bytes): bytes
  {
    Snprintf(64, Join([DENIED, backendPort], SLASH))
  }

  /** Text a port name can be: no delimiter, no NUL. */
  predicate Plain(s: bytes) { SLASH !in s && 0 !in s }

  lemma DecimalPlain(fd: nat)
    ensures Plain(Decimal(fd)) && Plain(Snprintf(8, Decimal(fd)))
  {
    DecimalDigits(fd);
  }

  lemma NamesPlain()
    ensures Plain(REQUEST) && Plain(RESPONSE) && Plain(UPDATE) && Plain(STOP) && Plain(DENIED)
    ensures |REQUEST| == 14 && |RESPONSE| == 15 && |UPDATE| == 13 && |STOP| == 13 && |DENIED| == 13
  {
    hide Plain, REQUEST, RESPONSE, UPDATE, STOP, DENIED;
    RequestPlain();
    ResponsePlain();
    UpdatePlain();
    StopPlain();
    DeniedPlain();
  }

  lemma RequestPlain()
    ensures Plain(REQUEST) && |REQUEST| == 14
  {
  }

  lemma ResponsePlain()
    ensures Plain(RESPONSE) && |RESPONSE| == 15
  {
  }

  lemma UpdatePlain()
    ensures Plain(UPDATE) && |UPDATE| == 13
  {
  }

  lemma StopPlain()
    ensures Plain(STOP) && |STOP| == 13
  {
  }

  lemma DeniedPlain()
    ensures Plain(DENIED) && |DENIED| == 13
  {
  }

  /** The descriptor printed into the header is the client's exactly when it has at most seven digits. */
  lemma FdSurvivesPrint(fd: nat)
    ensures Snprintf(8, Decimal(fd)) == Decimal(fd) <==> fd < 10_000_000
  {
    DecimalLength(fd, 7);
    assert Pow10(7) == 10_000_000;
  }

  lemma JoinLength2(a: bytes, b: bytes)
    ensures |Join([a, b], SLASH)| == |a| + |b| + 1
  {
    assert [a, b][1..] == [b];
  }

  lemma JoinLength3(a: bytes, b: bytes, c: bytes)
    ensures |Join([a, b, c], SLASH)| == |a| + |b| + |c| + 2
  {
    assert [a, b, c][1..] == [b, c];
    JoinLength2(b, c);
  }

  lemma JoinLength4(a: bytes, b: bytes, c: bytes, d: bytes)
    ensures |Join([a, b, c, d], SLASH)| == |a| + |b| + |c| + |d| + 3
  {
    assert [a, b, c, d][1..] == [b, c, d];
    JoinLength3(b, c, d);
  }

  /** Pieces joined and printed into a buffer come apart again exactly if the buffer holds them all. */
  lemma PrintedTokensIff(size: nat, ps: seq<bytes>)
    requires size >= 1 && Pieces(ps, SLASH)
    ensures Split(Snprintf(size, Join(ps, SLASH)), SLASH) == ps <==> |Join(ps, SLASH)| < size
  {
    hide Split, Join, Pieces;
    SplitJoin(ps, SLASH);
    JoinSplit(Snprintf(size, Join(ps, SLASH)), SLASH);
  }

  lemma RequestHeaderTokensIff(portRemote: bytes, fd: nat, portLocal: bytes)
    requires Plain(portRemote) && Plain(portLocal)
    ensures Split(RequestHeader(portRemote, fd, portLocal), SLASH)
      == [REQUEST, portRemote, Snprintf(8, Decimal(fd)), portLocal]
      <==> |portRemote| + |Snprintf(8, Decimal(fd))| + |portLocal| <= 46
  {
    hide Split, Join, Decimal;
    var f := Snprintf(8, Decimal(fd));
    DecimalPlain(fd);
    NamesPlain();
    JoinLength4(REQUEST, portRemote, f, portLocal);
    PrintedTokensIff(64, [REQUEST, portRemote, f, portLocal]);
  }

  lemma ResponseHeaderTokensIff(backendPort: bytes, remoteFd: bytes)
    requires Plain(backendPort) && Plain(remoteFd)
    ensures Split(ResponseHeader(backendPort, remoteFd), SLASH) == [RESPONSE, backendPort, remoteFd]
      <==> |backendPort| + |remoteFd| <= 46
  {
    hide Split, Join;
    NamesPlain();
    JoinLength3(RESPONSE, backendPort, remoteFd);
    PrintedTokensIff(64, [RESPONSE, backendPort, remoteFd]);
  }

  /** A text cut short has no more pieces than before. */
  lemma {:induction false} CutHasFewer(s: bytes, n: nat, d: byte)
    requires n <= |s|
    ensures |Split(s[..n], d)| <= |Split(s, d)|
  {
    if n > 0 {
      assert s[..n][1..] == s[1..][..n - 1];
      CutHasFewer(s[1..], n - 1, d);
    }
  }

  /** The request's header has its four parts, the first three whole, exactly if the third delimiter is printed. */
  lemma RequestHeaderKeepsThree(portRemote: bytes, fd: nat, portLocal: bytes)
    requires Plain(portRemote) && Plain(portLocal)
    ensures var f, argv := Snprintf(8, Decimal(fd)), Split(RequestHeader(portRemote, fd, portLocal), SLASH);
      && (|argv| == 4 <==> |portRemote| + |f| <= 46)
      && (|argv| == 4 ==> argv[0] == REQUEST && argv[1] == portRemote && argv[2] == f)
  {
    hide Split, Join, Decimal, REQUEST;
    var f := Snprintf(8, Decimal(fd));
    var whole := Join([REQUEST, portRemote, f, portLocal], SLASH);
    var three := Join([REQUEST, portRemote, f], SLASH);
    DecimalPlain(fd);
    NamesPlain();
    JoinLength3(REQUEST, portRemote, f);
    JoinLength4(REQUEST, portRemote, f, portLocal);
    ThreeAndOne(REQUEST, portRemote, f, portLocal);
    SplitJoin([REQUEST, portRemote, f], SLASH);
    var header := RequestHeader(portRemote, fd, portLocal);
    if |three| < 63 {
      var q := header[|three| + 1..];
      assert header == three + [SLASH] + q && q <= portLocal;
      ThreeAndOne(REQUEST, portRemote, f, q);
      SplitJoin([REQUEST, portRemote, f, q], SLASH);
    } else {
      assert header == three[..63];
      CutHasFewer(three, 63, SLASH);
    }
  }

  lemma ThreeAndOne(a: bytes, b: bytes, c: bytes, q: bytes)
    ensures Join([a, b, c, q], SLASH) == Join([a, b, c], SLASH) + [SLASH] + q
  {
    assert [a, b, c, q][1..] == [b, c, q] && [b, c, q][1..] == [c, q] && [c, q][1..] == [q];
    assert [a, b, c][1..] == [b, c] && [b, c][1..] == [c];
    assert Join([c, q], SLASH) == c + [SLASH] + q;
    assert Join([b, c, q], SLASH) == b + [SLASH] + (c + [SLASH] + q);
    assert Join([b, c], SLASH) == b + [SLASH] + c;
    assert a + [SLASH] + (b + [SLASH] + (c + [SLASH] + q)) == a + [SLASH] + (b + [SLASH] + c) + [SLASH] + q;
  }

  /** What the client's process reads in the header of the response to a request, where the peer could read that. */
  predicate Echoed(portRemote: bytes, fd: nat, portLocal: bytes)
  {
    var argv := Split(RequestHeader(portRemote, fd, portLocal), SLASH);
    && |argv| == 4
    && Split(ResponseHeader(argv[1], argv[2]), SLASH) == [RESPONSE, portRemote, Decimal(fd)]
  }

  /**
   * There and back: the port and the descriptor of a request, read by the peer, echoed in its response and read again,
   * are the client's exactly if the descriptor has at most seven digits and port and descriptor at most 46 characters.
   */
  lemma FdSurvivesRoundTripIff(portRemote: bytes, fd: nat, portLocal: bytes)
    requires Plain(portRemote) && Plain(portLocal)
    ensures Echoed(portRemote, fd, portLocal) <==> fd < 10_000_000 && |portRemote| + |Decimal(fd)| <= 46
  {
    hide Split, Decimal, RequestHeader, ResponseHeader, RESPONSE;
    var f := Snprintf(8, Decimal(fd));
    RequestHeaderKeepsThree(portRemote, fd, portLocal);
    DecimalPlain(fd);
    FdSurvivesPrint(fd);
    ResponseHeaderTokensIff(portRemote, f);
  }

  // ----- the headers as they stand in a message

  lemma {:induction false} AsciiJoins(a: string, b: string)
    ensures Ascii(a + b) == Ascii(a) + Ascii(b)
  {
  }

  /** What fits its buffer stands there in full, with its parts between slashes. */
  lemma RequestText(portRemote: bytes, fd: nat, portLocal: bytes)
    requires fd < 10_000_000 && |portRemote| + |Decimal(fd)| + |portLocal| <= 46
    ensures RequestHeader(portRemote, fd, portLocal)
      == Ascii("tunnel_request/") + portRemote + Ascii("/") + Decimal(fd) + Ascii("/") + portLocal
  {
    hide Decimal, Join;
    FdSurvivesPrint(fd);
    NamesPlain();
    JoinLength4(REQUEST, portRemote, Decimal(fd), portLocal);
    AsciiJoins("tunnel_request", "/");
    SlashIs();
    JoinedFour(REQUEST, portRemote, Decimal(fd), portLocal);
  }

  lemma ResponseText(backendPort: bytes, remoteFd: bytes)
    requires |backendPort| + |remoteFd| <= 46
    ensures ResponseHeader(backendPort, remoteFd) == Ascii("tunnel_response/") + backendPort + Ascii("/") + remoteFd
  {
    hide Join;
    NamesPlain();
    JoinLength3(RESPONSE, backendPort, remoteFd);
    AsciiJoins("tunnel_response", "/");
    SlashIs();
    JoinedThree(RESPONSE, backendPort, remoteFd);
  }

  lemma SlashIs()
    ensures Ascii("/") == [SLASH]
  {
  }

  lemma JoinedThree(a: bytes, b: bytes, c: bytes)
    ensures Join([a, b, c], SLASH) == a + [SLASH] + b + [SLASH] + c
  {
    assert [a, b, c][1..] == [b, c] && [b, c][1..] == [c];
    assert Join([b, c], SLASH) == b + [SLASH] + c;
    assert a + [SLASH] + (b + [SLASH] + c) == a + [SLASH] + b + [SLASH] + c;
  }

  lemma JoinedFour(a: bytes, b: bytes, c: bytes, d: bytes)
    ensures Join([a, b, c, d], SLASH) == a + [SLASH] + b + [SLASH] + c + [SLASH] + d
  {
    ThreeAndOne(a, b, c, d);
    JoinedThree(a, b, c);
  }

  // ----- dispatch

  datatype Handler = EndpointRequest | TunnelResponse | TunnelUpdate | EndpointStop | Abort

  /** The comparisons of message_from. */
  function Dispatch(kind: bytes): Handler
  {
    if kind == REQUEST then EndpointRequest
    else if kind == RESPONSE then TunnelResponse
    else if kind == UPDATE then TunnelUpdate
    else if kind == STOP then EndpointStop
    else Abort
  }

  /** A refused port is reported with a header that ends the process that reads it. */
  lemma DeniedAborts(backendPort: bytes)
    ensures Dispatch(Split(DeniedHeader(backendPort), SLASH)[0]) == Abort
  {
    NamesPlain();
    var text := Join([DENIED, backendPort], SLASH);
    assert [DENIED, backendPort][1..] == [backendPort];
    var header := DeniedHeader(backendPort);
    assert header == DENIED + [SLASH] + header[14..] by {
      JoinLength2(DENIED, backendPort);
      assert text == DENIED + [SLASH] + backendPort;
    }
    SplitFirst(DENIED, SLASH, header[14..]);
    assert DENIED[7] == 100 && REQUEST[7] == 114 && RESPONSE[7] == 114 && UPDATE[7] == 117 && STOP[7] == 116;
  }

  // ----- tokens of a received header

  /** Between the last two slices stands the length word of the last. */
  lemma {:induction false} LastTwoSlices(buf: bytes, off: int32, k: nat)
    requires k >= 2 && |buf| <= INT_MAX && 0 <= off
    requires ReadSlices(buf, off, k).Got? && AllInside(buf, ReadSlices(buf, off, k).value)
    ensures var ss := ReadSlices(buf, off, k).value;
      var end := ss[k - 2].start + ss[k - 2].n;
      ss[k - 1].start == end + 4 && At(buf, end, Be32(ss[k - 1].n))
    decreases k
  {
    hide ReadSlices, ReadSlice, At, AllInside;
    var s, next := FirstSlice(buf, off, k);
    SliceAfterLength(buf, off);
    if k == 2 {
      var _, _ := FirstSlice(buf, next, 1);
      SliceAfterLength(buf, next);
    } else {
      LastTwoSlices(buf, next, k - 1);
    }
  }

  /** The first slice, and the others behind it. */
  lemma FirstSlice(buf: bytes, off: int32, k: nat) returns (s: Slice, next: int32)
    requires k >= 1 && ReadSlices(buf, off, k).Got? && AllInside(buf, ReadSlices(buf, off, k).value)
    ensures ReadSlice(buf, off) == Got((s, next)) && ReadSlices(buf, next, k - 1).Got?
    ensures ReadSlices(buf, off, k).value == [s] + ReadSlices(buf, next, k - 1).value
    ensures Inside(buf, s) && AllInside(buf, ReadSlices(buf, next, k - 1).value)
  {
    hide ReadSlice, Inside;
    s, next := ReadSlice(buf, off).value.0, ReadSlice(buf, off).value.1;
    var rest := ReadSlices(buf, next, k - 1).value;
    var ss := ReadSlices(buf, off, k).value;
    assert ss == [s] + rest && ss[0] == s && forall i :: 0 <= i < |rest| ==> rest[i] == ss[i + 1];
  }

  lemma MessageFromFields<F>(p: Msg<F>)
    requires p.MessageFrom?
    ensures Arity(Tag(p)) == 5 && Fields(p) == [p.fromCloud, p.fromDevice, p.fromAddress, p.tp, p.body]
  {
  }

  lemma SliceAfterLength(buf: bytes, off: int32)
    requires |buf| <= INT_MAX && ReadSlice(buf, off).Got? && 0 <= ReadSlice(buf, off).value.0.n
    ensures var (s, next) := ReadSlice(buf, off).value;
      && s.start == off + 4 && At(buf, off, Be32(s.n))
      && (Inside(buf, s) ==> next == s.start + s.n)
  {
    Be32RoundTrip(0, buf[off..off + 4]);
  }

  /** The memory after message_from has cut the header. */
  function CutAt(buf: bytes, tp: Slice): bytes
    requires Inside(buf, tp)
  {
    buf[..tp.start] + Cut(Text(buf, tp), SLASH) + buf[tp.start + tp.n..]
  }

  /**
   * The tokens of a received header, read as C strings, are its '/'-separated pieces exactly when the body that
   * follows is shorter than 2^24 bytes: the last token is ended by the high byte of the body's length.
   */
  lemma ReceivedHeaderTokens(buf: bytes)
    requires |buf| <= INT_MAX && Parse(buf).Got? && AllInside(buf, Fields(Parse(buf).value))
    requires Parse(buf).value.MessageFrom? && 0 !in Text(buf, Parse(buf).value.tp)
    ensures var p := Parse(buf).value; var tp := p.tp;
      Reads(CutAt(buf, tp), Starts(Text(buf, tp), SLASH, tp.start, tp.start), Split(Text(buf, tp), SLASH))
      <==> |Text(buf, p.body)| < 16777216
  {
    hide Parse, ReadSlices, Be32, At, Reads, Starts, Split, CutAt, Arity, Tag, Fields;
    var p := Parse(buf).value;
    ParsedSlices(buf);
    MessageFromFields(p);
    LastTwoSlices(buf, 8, 5);
    Be32BigEndian(p.body.n);
    HeaderReads(buf, p.tp, p.body.n);
  }

  lemma HeaderReads(buf: bytes, tp: Slice, n: int32)
    requires Inside(buf, tp) && 0 !in Text(buf, tp) && n >= 0
    requires At(buf, tp.start + tp.n, Be32(n)) && (Be32(n)[0] == 0 <==> n < 16777216)
    ensures Reads(CutAt(buf, tp), Starts(Text(buf, tp), SLASH, tp.start, tp.start), Split(Text(buf, tp), SLASH))
      <==> n < 16777216
  {
    var s, end, cut := Text(buf, tp), tp.start + tp.n, CutAt(buf, tp);
    assert buf[end] == buf[end..end + 4][0] == Be32(n)[0];
    hide Be32, Reads, Starts;
    assert |cut| == |buf| && cut[end] == buf[end];
    assert At(cut, tp.start, Cut(s, SLASH));
    CutReads(cut, s, SLASH, tp.start, tp.start);
    var ps := Split(s, SLASH);
    assert cut[tp.start..tp.start] == [] && [] + ps[0] == ps[0];
    assert Prepend([], ps) == ps;
  }
}
