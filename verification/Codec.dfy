/** gc_serialize and gc_deserialize as they run: a growing buffer, and a moving offset into a received one. */
module Codec {
  import opened Bytes
  import opened Proto

  /** The `sn` structure of src/include/utils.h: memory, its size, and an offset into it. */
  class Sn {
    var s: array<byte>
    var n: int
    var offset: int32

    predicate Valid()
      reads this
    {
      n == s.Length <= INT_MAX
    }

    constructor ()
      ensures Valid() && fresh(s) && s[..] == [] && offset == 0
    {
      s := new byte[0];
      n, offset := 0, 0;
    }

    constructor Over(buffer: array<byte>)
      requires buffer.Length <= INT_MAX
      ensures Valid() && s == buffer && offset == 0
    {
      s, n, offset := buffer, buffer.Length, 0;
    }

    /** A block of the given size, to be filled from the front. */
    constructor Room(size: int)
      requires 0 <= size <= INT_MAX
      ensures Valid() && fresh(s) && n == size && offset == 0
    {
      s, n, offset := new byte[size], size, 0;
    }

    /** memory_append of src/utils.c */
    method MemoryAppend(src: bytes)
      requires Valid() && 0 <= offset && offset + |src| <= n
      modifies this`offset, s
      ensures Valid() && offset == old(offset) + |src|
      ensures s[..] == old(s[..offset]) + src + old(s[offset + |src|..])
      ensures s[..offset] == old(s[..offset]) + src
    {
      Copy(s, offset, src);
      offset := offset + |src|;
    }

    /** hm_prealloc to a larger size: a new block that starts with the old bytes. */
    method Grow(size: int)
      requires Valid() && n <= size <= INT_MAX
      modifies this`s, this`n
      ensures Valid() && n == size && fresh(s)
      ensures s[..old(n)] == old(s[..])
    {
      var block := new byte[size];
      Copy(block, 0, s[..]);
      s, n := block, size;
    }

    method AddIntern(src: bytes)
      requires Valid() && n + 4 + |src| <= INT_MAX
      modifies this`s, this`n
      ensures Valid() && fresh(s)
      ensures s[..] == old(s[..]) + Field(src)
    {
      hide Le32, Reversed, Swapped;
      var offset0, offset1 := n, n + 4;
      ghost var was := s[..];
      Grow(n + |src| + 4);
      Copy(s, offset0, Le32(|src|));
      ghost var room := s[offset1..];
      assert s[..] == was + Le32(|src|) + room;
      SwappedMiddle(was, Le32(|src|), room);
      SwapMemory(s, offset0, 4);
      Copy(s, offset1, src);
      assert s[..] == was + Be32(|src|) + src;
    }

    // Runs of fields, as gc_serialize adds them: one add_intern after another.

    method AddOne(a: bytes)
      requires Valid() && n + FieldsLength([a]) <= INT_MAX
      modifies this`s, this`n
      ensures Valid() && fresh(s) && Fits(a) && n == old(n) + FieldsLength([a])
      ensures s[..] == old(s[..]) + EncodeFields([a])
    {
      hide Field;
      AddIntern(a);
      assert EncodeFields([a]) == Field(a) + EncodeFields([]) == Field(a);
    }

    method AddTwo(a: bytes, b: bytes)
      requires Valid() && n + FieldsLength([a, b]) <= INT_MAX
      modifies this`s, this`n
      ensures Valid() && fresh(s) && Fits(a) && Fits(b) && n == old(n) + FieldsLength([a, b])
      ensures s[..] == old(s[..]) + EncodeFields([a, b])
    {
      hide Field;
      assert [a, b][1..] == [b];
      AddIntern(a);
      AddOne(b);
      assert EncodeFields([a, b]) == Field(a) + EncodeFields([b]);
    }

    method AddThree(a: bytes, b: bytes, c: bytes)
      requires Valid() && n + FieldsLength([a, b, c]) <= INT_MAX
      modifies this`s, this`n
      ensures Valid() && fresh(s) && Fits(a) && Fits(b) && Fits(c) && n == old(n) + FieldsLength([a, b, c])
      ensures s[..] == old(s[..]) + EncodeFields([a, b, c])
    {
      hide Field;
      assert [a, b, c][1..] == [b, c];
      AddIntern(a);
      AddTwo(b, c);
      assert EncodeFields([a, b, c]) == Field(a) + EncodeFields([b, c]);
    }

    method AddFour(a: bytes, b: bytes, c: bytes, d: bytes)
      requires Valid() && n + FieldsLength([a, b, c, d]) <= INT_MAX
      modifies this`s, this`n
      ensures Valid() && fresh(s) && AllFit([a, b, c, d]) && n == old(n) + FieldsLength([a, b, c, d])
      ensures s[..] == old(s[..]) + EncodeFields([a, b, c, d])
    {
      hide Field;
      assert [a, b, c, d][1..] == [b, c, d];
      AddIntern(a);
      AddThree(b, c, d);
      assert EncodeFields([a, b, c, d]) == Field(a) + EncodeFields([b, c, d]);
    }

    method AddFive(a: bytes, b: bytes, c: bytes, d: bytes, e: bytes)
      requires Valid() && n + FieldsLength([a, b, c, d, e]) <= INT_MAX
      modifies this`s, this`n
      ensures Valid() && fresh(s) && AllFit([a, b, c, d, e]) && n == old(n) + FieldsLength([a, b, c, d, e])
      ensures s[..] == old(s[..]) + EncodeFields([a, b, c, d, e])
    {
      hide Field;
      assert [a, b, c, d, e][1..] == [b, c, d, e];
      AddIntern(a);
      AddFour(b, c, d, e);
      assert EncodeFields([a, b, c, d, e]) == Field(a) + EncodeFields([b, c, d, e]);
    }

    method AddIntIntern(v: int32)
      requires Valid() && n + 4 <= INT_MAX
      modifies this`s, this`n
      ensures Valid() && fresh(s)
      ensures s[..] == old(s[..]) + Be32(v)
    {
      hide Le32, Reversed, Swapped;
      var offset0 := n;
      ghost var was := s[..];
      Grow(n + 4);
      Copy(s, offset0, Le32(v));
      assert s[..] == was + Le32(v) + [];
      SwappedMiddle(was, Le32(v), []);
      SwapMemory(s, offset0, 4);
      assert s[..] == was + Be32(v);
    }

    /** Loads the int at `offset` and swaps it, in the loaded copy. */
    method LoadSwapped() returns (v: int32)
      requires Valid() && 0 <= offset && offset + 4 <= n
      ensures v == FromBe32(s[offset..offset + 4])
    {
      hide FromLe32, Reversed, Swapped;
      var local := new byte[4];
      ghost var word := s[offset..offset + 4];
      Copy(local, 0, s[offset..offset + 4]);
      assert local[..] == word;
      SwapMemory(local, 0, 4);
      SwappedWhole(word);
      v := FromLe32(local[..]);
    }

    method GetIntIntern() returns (r: Got<int32>)
      requires Valid() && 0 <= offset <= INT_MAX - 4
      modifies this`offset
      ensures r == if old(offset) + 4 > n then Failed(GCPROTO_ERR) else Got(FromBe32(s[old(offset)..old(offset) + 4]))
      ensures offset == if r.Got? then old(offset) + 4 else old(offset)
    {
      if offset + 4 > n {
        return Failed(GCPROTO_ERR);
      }
      var v := LoadSwapped();
      offset := offset + 4;
      return Got(v);
    }

    method GetIntern() returns (r: Got<Slice>)
      requires Valid()
      modifies this`offset
      ensures match ReadSlice(s[..], old(offset))
        case Got((slice, next)) => r == Got(slice) && offset == next
        case Failed(code) => r == Failed(code)
        case Stray => r == Stray
    {
      if offset > INT_MAX - 4 {
        return Stray;
      } else if offset + 4 > n {
        return Failed(GCPROTO_ERR);
      } else if offset < 0 {
        return Stray;
      }
      var len := LoadSwapped();
      r := Got(Slice(offset + 4, len));
      offset := Wrap32(offset + 4 + len);
    }

    // Runs of get_intern calls, each returning at the first that fails.

    method GetOne() returns (r: Got<seq<Slice>>)
      requires Valid()
      modifies this`offset
      ensures r == ReadSlices(s[..], old(offset), 1)
    {
      hide ReadSlice;
      var a :- GetIntern();
      assert [a] + [] == [a];
      return Got([a]);
    }

    method GetTwo() returns (r: Got<seq<Slice>>)
      requires Valid()
      modifies this`offset
      ensures r == ReadSlices(s[..], old(offset), 2)
    {
      hide ReadSlice;
      var a :- GetIntern();
      var rest :- GetOne();
      return Got([a] + rest);
    }

    method GetThree() returns (r: Got<seq<Slice>>)
      requires Valid()
      modifies this`offset
      ensures r == ReadSlices(s[..], old(offset), 3)
    {
      hide ReadSlice;
      var a :- GetIntern();
      var rest :- GetTwo();
      return Got([a] + rest);
    }

    method GetFour() returns (r: Got<seq<Slice>>)
      requires Valid()
      modifies this`offset
      ensures r == ReadSlices(s[..], old(offset), 4)
    {
      hide ReadSlice;
      var a :- GetIntern();
      var rest :- GetThree();
      return Got([a] + rest);
    }

    method GetFive() returns (r: Got<seq<Slice>>)
      requires Valid()
      modifies this`offset
      ensures r == ReadSlices(s[..], old(offset), 5)
    {
      hide ReadSlice;
      var a :- GetIntern();
      var rest :- GetFour();
      return Got([a] + rest);
    }
  }

  /** gc_serialize. No error string fails its check, so it always returns 0. */
  method Serialize(m: Msg<bytes>) returns (code: int, dst: Sn)
    requires Sendable(m)
    ensures code == 0 && fresh(dst) && fresh(dst.s) && dst.Valid()
    ensures dst.s[..] == Encode(m)
  {
    dst := new Sn();
    dst.AddIntIntern(GCPROTO_VERSION);
    dst.AddIntIntern(Tag(m));
    ShortFieldsFit(Fields(m));
    assert dst.s[..] == Header(Tag(m));
    ErrorAlwaysPasses(m);
    code := SerializeFields(dst, m);
  }

  /** The `switch` of gc_serialize, split by kind of message: routed, about an account, answered with an error. */
  method SerializeFields(dst: Sn, m: Msg<bytes>) returns (code: int)
    requires dst.Valid() && dst.n + FieldsLength(Fields(m)) <= INT_MAX
    modifies dst`s, dst`n
    ensures code == if ErrorPasses(m) then 0 else -1
    ensures code == 0 ==> dst.Valid() && (dst.s == old(dst.s) || fresh(dst.s)) && AllFit(Fields(m))
    ensures code == 0 ==> dst.s[..] == old(dst.s[..]) + EncodeFields(Fields(m))
  {
    assert EncodeFields([]) == [];
    hide EncodeFields, FieldsLength, ErrorCheck, Allowed;
    code := 0;
    if HasError(m) {
      code := SerializeReply(dst, m);
    } else if IsRouted(m) {
      SerializeRouted(dst, m);
    } else if IsAccount(m) {
      SerializeAccount(dst, m);
    } else {
      assert Fields(m) == [];
    }
  }

  predicate IsRouted<F>(m: Msg<F>) {
    m.MessageTo? || m.MessageFrom? || m.DevicePair? || m.OfflineSet? || m.ClientStopSet?
  }

  predicate IsAccount<F>(m: Msg<F>) {
    m.AccountSet? || m.AccountLogin? || m.AccountDataSet? || m.AccountExists? || m.VersionMismatch?
  }

  method SerializeRouted(dst: Sn, m: Msg<bytes>)
    requires IsRouted(m)
    requires dst.Valid() && dst.n + FieldsLength(Fields(m)) <= INT_MAX
    modifies dst`s, dst`n
    ensures dst.Valid() && fresh(dst.s) && AllFit(Fields(m))
    ensures dst.s[..] == old(dst.s[..]) + EncodeFields(Fields(m))
  {
    hide EncodeFields, FieldsLength;
    match m {
      case MessageTo(to, address, tp, body) => dst.AddFour(to, address, tp, body);
      case MessageFrom(cloud, device, address, tp, body) => dst.AddFive(cloud, device, address, tp, body);
      case DevicePair(cloud, device, localPort, remotePort) => dst.AddFour(cloud, device, localPort, remotePort);
      case OfflineSet(address, cloud, device) => dst.AddThree(address, cloud, device);
      case ClientStopSet(address, cloud, device) => dst.AddThree(address, cloud, device);
    }
  }

  method SerializeAccount(dst: Sn, m: Msg<bytes>)
    requires IsAccount(m)
    requires dst.Valid() && dst.n + FieldsLength(Fields(m)) <= INT_MAX
    modifies dst`s, dst`n
    ensures dst.Valid() && fresh(dst.s) && AllFit(Fields(m))
    ensures dst.s[..] == old(dst.s[..]) + EncodeFields(Fields(m))
  {
    hide EncodeFields, FieldsLength;
    match m {
      case AccountSet(email, password) => dst.AddTwo(email, password);
      case AccountLogin(email, password, devname) => dst.AddThree(email, password, devname);
      case AccountDataSet(email, password, data) => dst.AddThree(email, password, data);
      case AccountExists(email, password) => dst.AddTwo(email, password);
      case VersionMismatch(master, slave) => dst.AddTwo(master, slave);
    }
  }

  method SerializeReply(dst: Sn, m: Msg<bytes>) returns (code: int)
    requires HasError(m)
    requires dst.Valid() && dst.n + FieldsLength(Fields(m)) <= INT_MAX
    modifies dst`s, dst`n
    ensures code == if ErrorPasses(m) then 0 else -1
    ensures code == 0 ==> dst.Valid() && fresh(dst.s) && AllFit(Fields(m))
    ensures code == 0 ==> dst.s[..] == old(dst.s[..]) + EncodeFields(Fields(m))
  {
    hide EncodeFields, FieldsLength, ErrorCheck, Allowed;
    match m {
      case MessageToSetReply(error) =>
        if !ErrorCheck(Allowed(1), error) { return -1; }
        dst.AddOne(error);
      case AccountListReply(error, list) =>
        if !ErrorCheck(Allowed(5), error) { return -1; }
        dst.AddTwo(error, list);
      case TrafficGetReply(list, error) =>
        if !ErrorCheck(Allowed(8), error) { return -1; }
        dst.AddTwo(list, error);
      case DevicePairReply(cloud, error, list, kind) =>
        if !ErrorCheck(Allowed(11), error) { return -1; }
        dst.AddFour(cloud, error, list, kind);
      case AccountSetReply(error) =>
        if !ErrorCheck(Allowed(14), error) { return -1; }
        dst.AddOne(error);
      case AccountLoginReply(error, data) =>
        if !ErrorCheck(Allowed(17), error) { return -1; }
        dst.AddTwo(error, data);
      case AccountDataSetReply(error) =>
        if !ErrorCheck(Allowed(19), error) { return -1; }
        dst.AddOne(error);
      case AccountExistsReply(error, data) =>
        if !ErrorCheck(Allowed(21), error) { return -1; }
        dst.AddTwo(error, data);
    }
    code := 0;
  }

  /** gc_deserialize */
  method Deserialize(src: Sn) returns (r: Got<Msg<Slice>>)
    requires src.Valid()
    modifies src`offset
    ensures r == Parse(src.s[..])
  {
    src.offset := 0;
    var version :- src.GetIntIntern();
    if version != GCPROTO_VERSION {
      return Failed(GCPROTO_ERR_VERSION);
    }
    var tag :- src.GetIntIntern();
    if !(0 <= tag < 24) {
      return Failed(-1);
    }
    r := DeserializeFields(src, tag);
  }

  /** The `switch` of gc_deserialize. */
  method DeserializeFields(src: Sn, tag: int32) returns (r: Got<Msg<Slice>>)
    requires src.Valid() && src.offset == 8 && 0 <= tag < 24
    modifies src`offset
    ensures r == ParseFields(src.s[..], tag)
  {
    assert ReadSlices(src.s[..], 8, 0) == Got([]);
    hide ReadSlices;
    match tag {
      case 0 =>
        var f :- src.GetFour();
        return Got(MessageTo(f[0], f[1], f[2], f[3]));
      case 1 =>
        var f :- src.GetOne();
        return Got(MessageToSetReply(f[0]));
      case 2 => return Got(PingSet);
      case 3 => return Got(PongSet);
      case 4 => return Got(AccountList);
      case 5 =>
        var f :- src.GetTwo();
        return Got(AccountListReply(f[0], f[1]));
      case 6 => return Got(TrafficMi);
      case 7 => return Got(TrafficGet);
      case 8 =>
        var f :- src.GetTwo();
        return Got(TrafficGetReply(f[0], f[1]));
      case 9 =>
        var f :- src.GetFive();
        return Got(MessageFrom(f[0], f[1], f[2], f[3], f[4]));
      case 10 =>
        var f :- src.GetFour();
        return Got(DevicePair(f[0], f[1], f[2], f[3]));
      case 11 =>
        var f :- src.GetFour();
        return Got(DevicePairReply(f[0], f[1], f[2], f[3]));
      case 12 =>
        var f :- src.GetThree();
        return Got(OfflineSet(f[0], f[1], f[2]));
      case 13 =>
        var f :- src.GetTwo();
        return Got(AccountSet(f[0], f[1]));
      case 14 =>
        var f :- src.GetOne();
        return Got(AccountSetReply(f[0]));
      case 15 => return Got(AccountGet);
      case 16 =>
        var f :- src.GetThree();
        return Got(AccountLogin(f[0], f[1], f[2]));
      case 17 =>
        var f :- src.GetTwo();
        return Got(AccountLoginReply(f[0], f[1]));
      case 18 =>
        var f :- src.GetThree();
        return Got(AccountDataSet(f[0], f[1], f[2]));
      case 19 =>
        var f :- src.GetOne();
        return Got(AccountDataSetReply(f[0]));
      case 20 =>
        var f :- src.GetTwo();
        return Got(AccountExists(f[0], f[1]));
      case 21 =>
        var f :- src.GetTwo();
        return Got(AccountExistsReply(f[0], f[1]));
      case 22 =>
        var f :- src.GetTwo();
        return Got(VersionMismatch(f[0], f[1]));
      case _ =>
        var f :- src.GetThree();
        return Got(ClientStopSet(f[0], f[1], f[2]));
    }
  }
}
