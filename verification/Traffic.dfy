/** parse_traffic of src/gcapi.c: the list field of a TRAFFIC_GET_REPLY, five length-prefixed fields a record. */
module Traffic {
  import opened Bytes
  import opened Proto
  import opened Wrappers

  datatype Record = Record(kind: bytes, cloud: bytes, device: bytes, upload: bytes, download: bytes)

  const EMPTY := Record([], [], [], [], [])

  /** The complete records of a field list; fields left over at the end make none. */
  function Groups(fs: seq<bytes>): seq<Record>
  {
    if |fs| < 5 then [] else [Record(fs[0], fs[1], fs[2], fs[3], fs[4])] + Groups(fs[5..])
  }

  function Flat(rs: seq<Record>): seq<bytes>
  {
    if rs == [] then []
    else [rs[0].kind, rs[0].cloud, rs[0].device, rs[0].upload, rs[0].download] + Flat(rs[1..])
  }

  lemma {:induction false} GroupsFlat(rs: seq<Record>)
    ensures Groups(Flat(rs)) == rs
  {
    if rs != [] {
      GroupsFlat(rs[1..]);
      assert Flat(rs)[5..] == Flat(rs[1..]);
    }
  }

  // ----- which lists there are

  /** The fields of a list; Stray where a length has no room in it. */
  function FieldsOf(list: bytes): Got<seq<bytes>>
  {
    if list == [] then Got([])
    else if |list| < 4 then Stray
    else
      var n := FromBe32(list[..4]);
      if n < 0 || 4 + n > |list| then Stray
      else
        var rest :- FieldsOf(list[4 + n..]);
        Got([list[4..4 + n]] + rest)
  }

  lemma {:induction false} FieldsOfEncoded(fs: seq<bytes>)
    requires AllFit(fs)
    ensures FieldsOf(EncodeFields(fs)) == Got(fs)
  {
    hide FromBe32, Be32;
    if fs != [] {
      var list := EncodeFields(fs);
      assert fs[0] in fs && AllFit(fs[1..]);
      FieldsOfEncoded(fs[1..]);
      Be32RoundTrip(|fs[0]|, Be32(0));
      assert list[..4] == Be32(|fs[0]|) && list[4..4 + |fs[0]|] == fs[0];
      assert list[4 + |fs[0]|..] == EncodeFields(fs[1..]);
      assert fs == [fs[0]] + fs[1..];
    }
  }

  lemma {:induction false} FieldsOfDecoded(list: bytes)
    requires FieldsOf(list).Got? && |list| <= INT_MAX
    ensures AllFit(FieldsOf(list).value) && list == EncodeFields(FieldsOf(list).value)
    decreases |list|
  {
    hide FromBe32, Be32, EncodeFields, AllFit, FieldsOf;
    EncodedNone();
    NoFields();
    if list != [] {
      FirstField(list);
      var n := FromBe32(list[..4]);
      var f, rest := list[4..4 + n], list[4 + n..];
      FieldsOfDecoded(rest);
      Be32RoundTrip(0, list[..4]);
      EncodedCons(f, FieldsOf(rest).value);
      assert list == list[..4] + f + rest;
    }
  }

  lemma FirstField(list: bytes)
    requires list != [] && FieldsOf(list).Got?
    ensures |list| >= 4 && 0 <= FromBe32(list[..4]) <= |list| - 4
    ensures var n := FromBe32(list[..4]);
      FieldsOf(list[4 + n..]).Got? && FieldsOf(list).value == [list[4..4 + n]] + FieldsOf(list[4 + n..]).value
  {
    hide FromBe32;
  }

  lemma EncodedNone()
    ensures AllFit([]) && EncodeFields([]) == []
  {
  }

  lemma EncodedCons(f: bytes, fs: seq<bytes>)
    requires AllFit(fs) && Fits(f)
    ensures AllFit([f] + fs) && EncodeFields([f] + fs) == Be32(|f|) + f + EncodeFields(fs)
  {
    hide Be32;
    assert ([f] + fs)[1..] == fs;
  }

  /** Reading stays inside a list exactly if it is the encoding of some fields. */
  lemma StaysInsideIff(list: bytes)
    requires |list| <= INT_MAX
    ensures FieldsOf(list).Got? <==> exists fs :: AllFit(fs) && list == EncodeFields(fs)
  {
    if FieldsOf(list).Got? {
      FieldsOfDecoded(list);
    }
    if fs :| AllFit(fs) && list == EncodeFields(fs) {
      FieldsOfEncoded(fs);
    }
  }

  /** A field that claims five bytes where one is left: the loop goes past the list's end. */
  lemma OverlongFieldStrays()
    ensures FieldsOf([0, 0, 0, 5, 1]) == Stray
    ensures !exists fs :: AllFit(fs) && [0, 0, 0, 5, 1] == EncodeFields(fs)
  {
    var list: bytes := [0, 0, 0, 5, 1];
    assert list[..4] == [0, 0, 0, 5];
    Be32RoundTrip(5, [0, 0, 0, 5]);
    FromBe32Small();
    StaysInsideIff(list);
  }

  lemma FromBe32Small()
    ensures FromBe32([0, 0, 0, 5]) == 5
  {
    assert Reversed([0, 0, 0, 5]) == [5, 0, 0, 0];
  }

  // ----- the loop

  /** The fields read so far, and at i what is left of the list. */
  ghost predicate ReadTo(list: bytes, fs: seq<bytes>, i: int)
  {
    && 0 <= i <= |list|
    && FieldsOf(list) == match FieldsOf(list[i..])
       case Got(rest) => Got(fs + rest)
       case _ => Stray
  }

  /** The PT macro: one field, and the index behind it; None where the length leads out of the list. */
  method TakeField(list: bytes, i: int, ghost fs: seq<bytes>) returns (text: Option<bytes>, next: int)
    requires |list| <= INT_MAX && ReadTo(list, fs, i) && i < |list|
    ensures text.None? ==> FieldsOf(list) == Stray
    ensures text.Some? ==> i < next && ReadTo(list, fs + [text.value], next)
  {
    hide FromBe32;
    var rest := list[i..];
    if |rest| < 4 {
      return None, i;
    }
    var n := FromBe32(rest[..4]);
    if n < 0 || 4 + n > |rest| {
      return None, i;
    }
    text, next := Some(rest[4..4 + n]), i + 4 + n;
    assert list[next..] == rest[4 + n..];
    if FieldsOf(list[next..]).Got? {
      var more := FieldsOf(list[next..]).value;
      assert fs + ([text.value] + more) == (fs + [text.value]) + more;
    }
  }

  lemma {:induction false} GroupsAppend(fs: seq<bytes>, part: seq<bytes>)
    requires |fs| % 5 == 0
    ensures Groups(fs + part) == Groups(fs) + Groups(part)
    decreases |fs|
  {
    if fs == [] {
      assert fs + part == part;
    } else {
      assert (fs + part)[5..] == fs[5..] + part;
      GroupsAppend(fs[5..], part);
    }
  }

  lemma GroupsMore(fs: seq<bytes>, r: Record)
    requires |fs| % 5 == 0
    ensures Groups(fs + [r.kind, r.cloud, r.device, r.upload, r.download]) == Groups(fs) + [r]
  {
    hide Groups;
    GroupsAppend(fs, [r.kind, r.cloud, r.device, r.upload, r.download]);
    OneGroup(r);
  }

  lemma OneGroup(r: Record)
    ensures Groups([r.kind, r.cloud, r.device, r.upload, r.download]) == [r]
  {
    assert [r.kind, r.cloud, r.device, r.upload, r.download][5..] == [];
  }

  lemma ReadNone(list: bytes)
    ensures ReadTo(list, [], 0) && Groups([]) == []
  {
    assert list[0..] == list;
    if list != [] {
      SomeFields(list);
    }
    if FieldsOf(list).Got? {
      assert [] + FieldsOf(list).value == FieldsOf(list).value;
    }
  }

  /** At the end of the list the fields are all there are; those behind the last complete record make none. */
  lemma ReadAll(list: bytes, fs: seq<bytes>, all: seq<bytes>, i: int)
    requires ReadTo(list, all, i) && fs <= all && |fs| % 5 == 0 && |all| < |fs| + 5
    ensures i >= |list| ==> FieldsOf(list) == Got(all) && Groups(all) == Groups(fs)
  {
    if i >= |list| {
      assert list[i..] == [] && all + [] == all;
      GroupsAppend(fs, all[|fs|..]);
      assert fs + all[|fs|..] == all && Groups(fs) + [] == Groups(fs);
    }
  }

  lemma SomeFields(list: bytes)
    requires list != []
    ensures FieldsOf(list).Got? ==> FieldsOf(list).value != []
    ensures !FieldsOf(list).Got? ==> FieldsOf(list) == Stray
  {
  }

  lemma NoFields()
    ensures FieldsOf([]) == Got([])
  {
  }

  /**
   * On every list: if it is an encoding of fields, the loop ends at its end and has reported each complete record once,
   * in order; if not, reading leaves the list.
   */
  method ParseTraffic(list: bytes) returns (reports: Got<seq<Record>>)
    requires |list| <= INT_MAX
    ensures reports == match FieldsOf(list)
      case Got(fs) => Got(if fs == [] then [EMPTY] else Groups(fs))
      case _ => Stray
  {
    hide FieldsOf, Groups;
    NoFields();
    if |list| == 0 {
      return Got([EMPTY]);
    }
    SomeFields(list);
    var i, rs := 0, [];
    ghost var fs: seq<bytes> := [];
    ReadNone(list);
    while true
      invariant ReadTo(list, fs, i) && |fs| % 5 == 0 && rs == Groups(fs)
      decreases |list| - i
    {
      ReadAll(list, fs, fs, i);
      if i >= |list| { break; }
      var kind, cloud, device, upload, download;
      ghost var five := fs;
      kind, i := TakeField(list, i, five);
      if kind.None? { return Stray; }
      five := five + [kind.value];
      ReadAll(list, fs, five, i);
      if i >= |list| { break; }
      cloud, i := TakeField(list, i, five);
      if cloud.None? { return Stray; }
      five := five + [cloud.value];
      ReadAll(list, fs, five, i);
      if i >= |list| { break; }
      device, i := TakeField(list, i, five);
      if device.None? { return Stray; }
      five := five + [device.value];
      ReadAll(list, fs, five, i);
      if i >= |list| { break; }
      upload, i := TakeField(list, i, five);
      if upload.None? { return Stray; }
      five := five + [upload.value];
      ReadAll(list, fs, five, i);
      if i >= |list| { break; }
      download, i := TakeField(list, i, five);
      if download.None? { return Stray; }
      five := five + [download.value];
      var r := Record(kind.value, cloud.value, device.value, upload.value, download.value);
      assert five == fs + [r.kind, r.cloud, r.device, r.upload, r.download];
      GroupsMore(fs, r);
      rs, fs := rs + [r], five;
    }
    return Got(rs);
  }
}
