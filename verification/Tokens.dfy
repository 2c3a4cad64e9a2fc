/** gc_parse_delimiter of src/utils.c: a header is cut in place, and its tokens are then read as C strings. */
module Tokens {
  import opened Bytes
  import opened Proto
  import opened Wrappers

  const SLASH: byte := 47

  // ----- splitting

  /** The pieces between delimiters; one more piece than there are delimiters. */
  function Split(s: bytes, d: byte): (ps: seq<bytes>)
    ensures |ps| >= 1
  {
    if s == [] then [[]]
    else
      var rest := Split(s[1..], d);
      if s[0] == d then [[]] + rest else [[s[0]] + rest[0]] + rest[1..]
  }

  function Join(ps: seq<bytes>, d: byte): bytes
    requires |ps| >= 1
  {
    if |ps| == 1 then ps[0] else ps[0] + [d] + Join(ps[1..], d)
  }

  ghost predicate Pieces(ps: seq<bytes>, d: byte) { |ps| >= 1 && forall i :: 0 <= i < |ps| ==> d !in ps[i] }

  lemma {:induction false} JoinSplit(s: bytes, d: byte)
    ensures Pieces(Split(s, d), d) && Join(Split(s, d), d) == s
  {
    if s != [] {
      JoinSplit(s[1..], d);
      hide Join, Pieces;
      assert [s[0]] + s[1..] == s;
      if s[0] == d {
        JoinOpened(Split(s[1..], d), d);
      } else {
        JoinLonger(s[0], Split(s[1..], d), d);
      }
    } else {
      hide Join;
      JoinOne([], d);
    }
  }

  lemma JoinOne(p: bytes, d: byte)
    ensures Join([p], d) == p
  {
  }

  lemma JoinOpened(ps: seq<bytes>, d: byte)
    requires Pieces(ps, d)
    ensures Pieces([[]] + ps, d) && Join([[]] + ps, d) == [d] + Join(ps, d)
  {
    assert ([[]] + ps)[1..] == ps;
    assert [] + [d] == [d];
  }

  lemma JoinLonger(x: byte, ps: seq<bytes>, d: byte)
    requires Pieces(ps, d) && x != d
    ensures Pieces([[x] + ps[0]] + ps[1..], d) && Join([[x] + ps[0]] + ps[1..], d) == [x] + Join(ps, d)
  {
    assert ([[x] + ps[0]] + ps[1..])[1..] == ps[1..];
    if |ps| > 1 {
      assert ([x] + ps[0]) + [d] + Join(ps[1..], d) == [x] + (ps[0] + [d] + Join(ps[1..], d));
    }
  }

  /** Splitting is the only way to undo joining: what was joined comes back piece by piece. */
  lemma {:induction false} SplitJoin(ps: seq<bytes>, d: byte)
    requires Pieces(ps, d)
    ensures Split(Join(ps, d), d) == ps
    decreases |ps|
  {
    if |ps| == 1 {
      SplitNone(ps[0], d);
    } else {
      assert Pieces(ps[1..], d);
      SplitJoin(ps[1..], d);
      SplitFirst(ps[0], d, Join(ps[1..], d));
    }
  }

  lemma {:induction false} SplitNone(p: bytes, d: byte)
    requires d !in p
    ensures Split(p, d) == [p]
  {
    if p != [] {
      SplitNone(p[1..], d);
      assert [p[0]] + p[1..] == p;
    }
  }

  lemma {:induction false} SplitFirst(p: bytes, d: byte, s: bytes)
    requires d !in p
    ensures Split(p + [d] + s, d) == [p] + Split(s, d)
  {
    var w := p + [d] + s;
    if p == [] {
      assert w[1..] == s;
    } else {
      assert w[1..] == p[1..] + [d] + s;
      SplitFirst(p[1..], d, s);
      assert ([p[1..]] + Split(s, d))[1..] == Split(s, d);
      assert [p[0]] + p[1..] == p;
    }
  }

  // ----- cutting in place

  /** Where the tokens of `s` begin when `s` lies at `at` and a token begun at `start` is still open. */
  function Starts(s: bytes, d: byte, at: nat, start: nat): seq<nat>
  {
    if s == [] then [start]
    else if s[0] == d then [start] + Starts(s[1..], d, at + 1, at + 1)
    else Starts(s[1..], d, at + 1, start)
  }

  function Cut(s: bytes, d: byte): (r: bytes)
    ensures |r| == |s|
  {
    seq(|s|, i requires 0 <= i < |s| => if s[i] == d then 0 else s[i])
  }

  /** gc_parse_delimiter on the n bytes at `at`; argv holds the offsets the C pointers point to. */
  method ParseDelimiter(buf: array<byte>, at: nat, n: nat, d: byte) returns (argv: seq<nat>)
    requires at + n <= buf.Length
    modifies buf
    ensures argv == Starts(old(buf[at..at + n]), d, at, at)
    ensures buf[..] == old(buf[..at]) + Cut(old(buf[at..at + n]), d) + old(buf[at + n..])
  {
    hide Starts, Cut;
    ghost var was, s := buf[..], buf[at..at + n];
    var start, tmp := at, at;
    argv := [];
    while tmp < at + n
      invariant at <= start <= tmp <= at + n
      invariant argv + Starts(s[tmp - at..], d, tmp, start) == Starts(s, d, at, at)
      invariant CutTo(was, buf[..], d, at, tmp)
    {
      StartsStep(s, d, at, tmp, start);
      CutStep(was, buf[..], d, at, tmp);
      if buf[tmp] == d {
        Associative(argv, [start], Starts(s[tmp + 1 - at..], d, tmp + 1, tmp + 1));
        argv := argv + [start];
        start := tmp + 1;
        buf[tmp] := 0;
      }
      tmp := tmp + 1;
    }
    StartsNone(s[n..], d, at + n, start);
    CutAll(was, buf[..], d, at, n);
    argv := argv + [start];
  }

  /** The bytes `now` are the bytes `was` but for the delimiters from `at` to `tmp`, which became NUL. */
  ghost predicate CutTo(was: bytes, now: bytes, d: byte, at: nat, tmp: nat) {
    |now| == |was| && forall k :: 0 <= k < |was| ==> now[k] == if at <= k < tmp && was[k] == d then 0 else was[k]
  }

  lemma CutStep(was: bytes, now: bytes, d: byte, at: nat, tmp: nat)
    requires CutTo(was, now, d, at, tmp) && at <= tmp < |was|
    ensures now[tmp] == was[tmp] && CutTo(was, if was[tmp] == d then now[tmp := 0] else now, d, at, tmp + 1)
  {
  }

  lemma CutAll(was: bytes, now: bytes, d: byte, at: nat, n: nat)
    requires CutTo(was, now, d, at, at + n) && at + n <= |was|
    ensures now == was[..at] + Cut(was[at..at + n], d) + was[at + n..]
  {
  }

  lemma StartsNone(s: bytes, d: byte, at: nat, start: nat)
    requires s == []
    ensures Starts(s, d, at, start) == [start]
  {
  }

  lemma Associative<T>(a: seq<T>, b: seq<T>, c: seq<T>)
    ensures a + (b + c) == (a + b) + c
  {
  }

  lemma StartsStep(s: bytes, d: byte, at: nat, tmp: nat, start: nat)
    requires at <= tmp < at + |s|
    ensures Starts(s[tmp - at..], d, tmp, start) ==
      if s[tmp - at] == d then [start] + Starts(s[tmp + 1 - at..], d, tmp + 1, tmp + 1)
      else Starts(s[tmp + 1 - at..], d, tmp + 1, start)
  {
    assert s[tmp - at..][1..] == s[tmp + 1 - at..];
  }

  // ----- C strings

  /** What strlen-bounded reading from p yields; None when no NUL comes before the end of the memory. */
  function CString(buf: bytes, p: nat): Option<bytes>
    decreases |buf| - p
  {
    if p >= |buf| then None
    else if buf[p] == 0 then Some([])
    else match CString(buf, p + 1)
      case None => None
      case Some(rest) => Some([buf[p]] + rest)
  }

  /** What a C string at p is to those who read it: the loop of strlen; None where it leaves the memory. */
  method ReadString(mem: array<byte>, p: nat) returns (r: Option<bytes>)
    ensures r == CString(mem[..], p)
  {
    hide CString;
    var i, text := p, [];
    StringEnds(mem[..], p, []);
    while i < mem.Length && mem[i] != 0
      invariant i >= p && CString(mem[..], p) == Prefixed(text, CString(mem[..], i))
      decreases mem.Length - i
    {
      StringStep(mem[..], i, text);
      text := text + [mem[i]];
      i := i + 1;
    }
    StringEnds(mem[..], i, text);
    return if i < mem.Length then Some(text) else None;
  }

  lemma StringEnds(mem: bytes, i: nat, text: bytes)
    ensures Prefixed([], CString(mem, i)) == CString(mem, i)
    ensures i >= |mem| ==> Prefixed(text, CString(mem, i)) == None
    ensures i < |mem| && mem[i] == 0 ==> Prefixed(text, CString(mem, i)) == Some(text)
  {
    assert text + [] == text;
    if CString(mem, i).Some? {
      assert [] + CString(mem, i).value == CString(mem, i).value;
    }
  }

  function Prefixed(text: bytes, rest: Option<bytes>): Option<bytes>
  {
    if rest.Some? then Some(text + rest.value) else None
  }

  lemma StringStep(mem: bytes, i: nat, text: bytes)
    requires i < |mem| && mem[i] != 0
    ensures Prefixed(text, CString(mem, i)) == Prefixed(text + [mem[i]], CString(mem, i + 1))
  {
    if CString(mem, i + 1).Some? {
      var rest := CString(mem, i + 1).value;
      assert text + ([mem[i]] + rest) == (text + [mem[i]]) + rest;
    }
  }

  predicate NoNul(buf: bytes, from: nat, to: nat)
  {
    from <= to <= |buf| && forall k :: from <= k < to ==> buf[k] != 0
  }

  lemma {:induction false} CStringEndsAt(buf: bytes, p: nat, end: nat)
    requires end < |buf| && buf[end] == 0 && NoNul(buf, p, end)
    ensures CString(buf, p) == Some(buf[p..end])
    decreases end - p
  {
    if p < end {
      assert buf[p..end] == [buf[p]] + buf[p + 1..end];
      CStringEndsAt(buf, p + 1, end);
    } else {
      assert buf[p..end] == [];
    }
  }

  /** A string that runs over `end` is not the text before `end`. */
  lemma {:induction false} CStringOverruns(buf: bytes, p: nat, end: nat)
    requires p <= end <= |buf| && (end < |buf| ==> buf[end] != 0)
    ensures CString(buf, p) != Some(buf[p..end])
    decreases end - p
  {
    if p < end {
      CStringOverruns(buf, p + 1, end);
      if buf[p] != 0 {
        assert buf[p..end][1..] == buf[p + 1..end];
        assert buf[p..end] == [buf[p]] + buf[p + 1..end];
      } else {
        assert |buf[p..end]| > 0;
      }
    } else {
      assert buf[p..end] == [];
    }
  }

  /** The open token, and then each further piece, read back from the cut memory. */
  ghost predicate Reads(buf: bytes, starts: seq<nat>, texts: seq<bytes>)
  {
    |starts| == |texts| && forall i :: 0 <= i < |starts| ==> CString(buf, starts[i]) == Some(texts[i])
  }

  function Prepend(open: bytes, ps: seq<bytes>): (r: seq<bytes>)
    requires |ps| >= 1
    ensures |r| == |ps|
  {
    [open + ps[0]] + ps[1..]
  }

  /**
   * In cut memory every token reads as its piece exactly when a NUL follows the header: only the last token has no
   * delimiter of its own to end it.
   */
  lemma {:induction false} CutReads(buf: bytes, s: bytes, d: byte, at: nat, start: nat)
    requires 0 !in s && At(buf, at, Cut(s, d)) && NoNul(buf, start, at)
    ensures Reads(buf, Starts(s, d, at, start), Prepend(buf[start..at], Split(s, d)))
      <==> at + |s| < |buf| && buf[at + |s|] == 0
    decreases |s|
  {
    hide Reads, CString, Cut, Prepend, Split, At;
    if s == [] {
      LastReads(buf, d, at, start);
    } else {
      CutHead(buf, s, d, at);
      assert 0 !in s[1..];
      if s[0] == d {
        CutReads(buf, s[1..], d, at + 1, at + 1);
        DelimiterReads(buf, s, d, at, start);
      } else {
        assert buf[start..at + 1] == buf[start..at] + [s[0]];
        CutReads(buf, s[1..], d, at + 1, start);
        PrependOne(buf[start..at], s, d);
      }
    }
  }

  lemma LastReads(buf: bytes, d: byte, at: nat, start: nat)
    requires NoNul(buf, start, at)
    ensures Reads(buf, Starts([], d, at, start), Prepend(buf[start..at], Split([], d))) <==> at < |buf| && buf[at] == 0
  {
    assert buf[start..at] + [] == buf[start..at];
    assert Prepend(buf[start..at], Split([], d)) == [buf[start..at]];
    if at < |buf| && buf[at] == 0 {
      CStringEndsAt(buf, start, at);
    } else {
      CStringOverruns(buf, start, at);
      assert [start][0] == start;
    }
  }

  lemma CutHead(buf: bytes, s: bytes, d: byte, at: nat)
    requires s != [] && At(buf, at, Cut(s, d))
    ensures buf[at] == if s[0] == d then 0 else s[0]
    ensures At(buf, at + 1, Cut(s[1..], d))
  {
    assert Cut(s, d) == [Cut(s, d)[0]] + Cut(s[1..], d);
    AtSplits(buf, at, [Cut(s, d)[0]], Cut(s[1..], d));
  }

  lemma DelimiterReads(buf: bytes, s: bytes, d: byte, at: nat, start: nat)
    requires s != [] && s[0] == d && at < |buf| && buf[at] == 0 && NoNul(buf, start, at)
    ensures Reads(buf, Starts(s, d, at, start), Prepend(buf[start..at], Split(s, d))) <==>
      Reads(buf, Starts(s[1..], d, at + 1, at + 1), Prepend(buf[at + 1..at + 1], Split(s[1..], d)))
  {
    var open, rest := buf[start..at], Split(s[1..], d);
    CStringEndsAt(buf, start, at);
    ReadsCons(buf, start, open, Starts(s[1..], d, at + 1, at + 1), rest);
    assert [] + rest[0] == rest[0] && open + [] == open && buf[at + 1..at + 1] == [];
    assert Prepend([], rest) == rest;
    assert ([[]] + rest)[1..] == rest;
    assert Prepend(open, [[]] + rest) == [open] + rest;
  }

  lemma PrependOne(open: bytes, s: bytes, d: byte)
    requires s != [] && s[0] != d
    ensures Prepend(open + [s[0]], Split(s[1..], d)) == Prepend(open, Split(s, d))
  {
    var rest := Split(s[1..], d);
    assert open + ([s[0]] + rest[0]) == (open + [s[0]]) + rest[0];
  }

  lemma ReadsCons(buf: bytes, start: nat, text: bytes, starts: seq<nat>, texts: seq<bytes>)
    requires CString(buf, start) == Some(text)
    ensures Reads(buf, [start] + starts, [text] + texts) <==> Reads(buf, starts, texts)
  {
    if Reads(buf, [start] + starts, [text] + texts) {
      forall i | 0 <= i < |starts| ensures CString(buf, starts[i]) == Some(texts[i]) {
        assert ([start] + starts)[i + 1] == starts[i] && ([text] + texts)[i + 1] == texts[i];
      }
    }
  }
}
