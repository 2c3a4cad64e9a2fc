/** src/hashtable.c: the chained table that maps a client's descriptor, printed in decimal, to the client. */
module HashTable {
  import opened Bytes
  import opened Headers
  import opened Wrappers

  const HT_MAX := 4096

  // ----- the bucket of a key

  function SignedChar(b: byte): int { if b < 128 then b else b - 256 }

  function KeySum(key: bytes): int
  {
    if key == [] then 0 else KeySum(key[..|key| - 1]) + SignedChar(key[|key| - 1])
  }

  /** C's `%`: the sign of the dividend. */
  function CRem(a: int, b: int): int
    requires b > 0
  {
    if a >= 0 then a % b else -((-a) % b)
  }

  function KeyIndex(key: bytes): int { CRem(KeySum(key), HT_MAX) }

  /** ht_key, from `*dst` 0. */
  method HtKey(key: bytes) returns (dst: int)
    ensures dst == KeyIndex(key)
  {
    dst := 0;
    var i := 0;
    while i < |key|
      invariant 0 <= i <= |key| && dst == KeySum(key[..i])
    {
      assert key[..i + 1][..i] == key[..i];
      dst := dst + SignedChar(key[i]);
      i := i + 1;
    }
    assert key[..|key|] == key;
    dst := CRem(dst, HT_MAX);
  }

  /** `ht[index]` is inside the table. */
  predicate Indexable(key: bytes) { 0 <= KeyIndex(key) < HT_MAX }

  lemma {:induction false} DigitSumBounds(key: bytes)
    requires IsDigits(key)
    ensures 48 * |key| <= KeySum(key) <= 57 * |key|
  {
    if key != [] {
      DigitSumBounds(key[..|key| - 1]);
    }
  }

  /** Keys made of decimal digits always are. */
  lemma DigitsIndexable(key: bytes)
    requires IsDigits(key)
    ensures Indexable(key)
  {
    DigitSumBounds(key);
  }

  // ----- what the chains mean

  datatype Binding<V> = Binding(key: bytes, value: V)

  type Chain<V> = seq<Binding<V>>
  type Table<V> = seq<Chain<V>>

  predicate HasKey<V>(c: Chain<V>, key: bytes) { exists i :: 0 <= i < |c| && c[i].key == key }

  /** The value at the first entry with the key. */
  function Find<V>(c: Chain<V>, key: bytes): (r: Option<V>)
    ensures r.Some? <==> HasKey(c, key)
  {
    if c == [] then None
    else if c[0].key == key then Some(c[0].value)
    else
      assert HasKey(c[1..], key) ==> HasKey(c, key) by {
        if i :| 0 <= i < |c[1..]| && c[1..][i].key == key { assert c[i + 1].key == key; }
      }
      assert HasKey(c, key) ==> HasKey(c[1..], key) by {
        if i :| 0 <= i < |c| && c[i].key == key { assert c[1..][i - 1].key == key; }
      }
      Find(c[1..], key)
  }

  /** ht_add on its bucket: a present key keeps its place and gets the new value, a new one goes to the front. */
  function Replaced<V>(c: Chain<V>, key: bytes, value: V): (r: Chain<V>)
    ensures |r| == |c|
  {
    if c == [] then []
    else if c[0].key == key then [Binding(key, value)] + c[1..]
    else [c[0]] + Replaced(c[1..], key, value)
  }

  function Added<V>(c: Chain<V>, key: bytes, value: V): Chain<V>
  {
    if HasKey(c, key) then Replaced(c, key, value) else [Binding(key, value)] + c
  }

  /** The chain without the first entry for the key. */
  function Unlinked<V>(c: Chain<V>, key: bytes): Chain<V>
  {
    if c == [] then [] else if c[0].key == key then c[1..] else [c[0]] + Unlinked(c[1..], key)
  }

  ghost predicate Distinct<V>(c: Chain<V>) { forall i, j :: 0 <= i < j < |c| ==> c[i].key != c[j].key }

  /** No chain has a key twice, and each key is in its own bucket. */
  ghost predicate WellFormed<V>(t: Table<V>)
  {
    && |t| == HT_MAX
    && (forall b :: 0 <= b < HT_MAX ==> Distinct(t[b]))
    && (forall b, i :: 0 <= b < HT_MAX && 0 <= i < |t[b]| ==> KeyIndex(t[b][i].key) == b)
  }

  function Bucket<V>(t: Table<V>, key: bytes): Chain<V>
    requires |t| == HT_MAX && Indexable(key)
  {
    t[KeyIndex(key)]
  }

  function WithBucket<V>(t: Table<V>, key: bytes, c: Chain<V>): (r: Table<V>)
    requires |t| == HT_MAX && Indexable(key)
    ensures |r| == HT_MAX
  {
    t[KeyIndex(key) := c]
  }

  /** The map a table stands for: what comparing every key in the bucket finds. */
  function Lookup<V>(t: Table<V>, key: bytes): Option<V>
    requires |t| == HT_MAX
  {
    if Indexable(key) then Find(Bucket(t, key), key) else None
  }

  /** ht_get as written: the only entry of a bucket is returned without a comparison. */
  function GetAsWritten<V>(t: Table<V>, key: bytes): Option<V>
    requires |t| == HT_MAX && Indexable(key)
  {
    var c := Bucket(t, key);
    if c == [] then None else if |c| == 1 then Some(c[0].value) else Find(c, key)
  }

  /** ht_add */
  function AddAsWritten<V>(t: Table<V>, key: bytes, value: V): Table<V>
    requires |t| == HT_MAX && Indexable(key)
  {
    WithBucket(t, key, Added(Bucket(t, key), key, value))
  }

  /** ht_rem as written: the entry is unlinked, and then the whole bucket is cleared. */
  function RemAsWritten<V>(t: Table<V>, key: bytes): Table<V>
    requires |t| == HT_MAX && Indexable(key)
  {
    if HasKey(Bucket(t, key), key) then WithBucket(t, key, []) else t
  }

  /** ht_rem without the clearing. */
  function RemIntended<V>(t: Table<V>, key: bytes): Table<V>
    requires |t| == HT_MAX && Indexable(key)
  {
    WithBucket(t, key, Unlinked(Bucket(t, key), key))
  }

  // ----- chains

  lemma {:induction false} FindReplaced<V>(c: Chain<V>, key: bytes, value: V, k: bytes)
    ensures Find(Replaced(c, key, value), k) == if k == key && HasKey(c, key) then Some(value) else Find(c, k)
  {
    if c != [] {
      FindReplaced(c[1..], key, value, k);
      var r := Replaced(c, key, value);
      assert r[1..] == if c[0].key == key then c[1..] else Replaced(c[1..], key, value);
      assert HasKey(c, key) <==> Find(c, key).Some?;
      assert HasKey(c[1..], key) <==> Find(c[1..], key).Some?;
    }
  }

  lemma FindAdded<V>(c: Chain<V>, key: bytes, value: V, k: bytes)
    ensures Find(Added(c, key, value), k) == if k == key then Some(value) else Find(c, k)
  {
    FindReplaced(c, key, value, k);
    if !HasKey(c, key) {
      assert Added(c, key, value)[1..] == c;
    }
  }

  lemma {:induction false} FindUnlinked<V>(c: Chain<V>, key: bytes, k: bytes)
    requires Distinct(c)
    ensures Find(Unlinked(c, key), k) == if k == key then None else Find(c, k)
  {
    if c != [] {
      assert Distinct(c[1..]);
      FindUnlinked(c[1..], key, k);
      if c[0].key == key {
        assert forall i :: 0 <= i < |c[1..]| ==> c[1..][i].key != key;
      } else {
        assert Unlinked(c, key)[1..] == Unlinked(c[1..], key);
      }
    }
  }

  lemma {:induction false} ReplacedKeys<V>(c: Chain<V>, key: bytes, value: V)
    ensures forall i :: 0 <= i < |c| ==> Replaced(c, key, value)[i].key == c[i].key
  {
    if c != [] && c[0].key != key {
      ReplacedKeys(c[1..], key, value);
    }
  }

  /** A value is replaced where the key first stands. */
  lemma {:induction false} ReplacedAt<V>(c: Chain<V>, key: bytes, value: V, at: nat)
    requires at < |c| && c[at].key == key && forall i :: 0 <= i < at ==> c[i].key != key
    ensures Replaced(c, key, value) == c[at := Binding(key, value)]
    decreases at
  {
    if at > 0 {
      ReplacedAt(c[1..], key, value, at - 1);
      assert c[at := Binding(key, value)] == [c[0]] + c[1..][at - 1 := Binding(key, value)];
    } else {
      assert c[0 := Binding(key, value)] == [Binding(key, value)] + c[1..];
    }
  }

  /** Unlinking keeps the others, in order. */
  lemma {:induction false} UnlinkedAt<V>(c: Chain<V>, key: bytes, at: nat)
    requires at < |c| && c[at].key == key && forall i :: 0 <= i < at ==> c[i].key != key
    ensures Unlinked(c, key) == c[..at] + c[at + 1..]
    decreases at
  {
    if at > 0 {
      UnlinkedAt(c[1..], key, at - 1);
      assert c[..at] == [c[0]] + c[1..][..at - 1];
      assert c[1..][at..] == c[at + 1..];
    }
  }

  lemma {:induction false} UnlinkedAbsent<V>(c: Chain<V>, key: bytes)
    requires !HasKey(c, key)
    ensures Unlinked(c, key) == c
  {
    if c != [] {
      assert c[0].key != key;
      assert !HasKey(c[1..], key) by {
        assert forall i :: 0 <= i < |c[1..]| ==> c[1..][i] == c[i + 1];
      }
      UnlinkedAbsent(c[1..], key);
      assert c == [c[0]] + c[1..];
    }
  }

  lemma UnlinkedSub<V>(c: Chain<V>, key: bytes)
    requires Distinct(c)
    ensures Distinct(Unlinked(c, key))
    ensures forall i :: 0 <= i < |Unlinked(c, key)| ==> Unlinked(c, key)[i] in c
  {
    hide Unlinked;
    if HasKey(c, key) {
      var at :| 0 <= at < |c| && c[at].key == key;
      UnlinkedAt(c, key, at);
      OneLess(c, at, Unlinked(c, key));
    } else {
      UnlinkedAbsent(c, key);
    }
  }

  lemma OneLess<V>(c: Chain<V>, at: nat, r: Chain<V>)
    requires Distinct(c) && at < |c| && r == c[..at] + c[at + 1..]
    ensures Distinct(r) && forall i :: 0 <= i < |r| ==> r[i] in c
  {
    forall i | 0 <= i < |r|
      ensures r[i] == c[if i < at then i else i + 1]
    {
    }
  }

  // ----- tables

  lemma LookupOther<V>(t: Table<V>, key: bytes, c: Chain<V>, k: bytes)
    requires |t| == HT_MAX && Indexable(key)
    ensures Indexable(k) && KeyIndex(k) != KeyIndex(key) ==> Lookup(WithBucket(t, key, c), k) == Lookup(t, k)
  {
  }

  lemma WithBucketWellFormed<V>(t: Table<V>, key: bytes, c: Chain<V>)
    requires WellFormed(t) && Indexable(key) && Distinct(c)
    requires forall i :: 0 <= i < |c| ==> KeyIndex(c[i].key) == KeyIndex(key)
    ensures WellFormed(WithBucket(t, key, c))
  {
  }

  /** ht_add refines the map update. */
  lemma AddRefines<V>(t: Table<V>, key: bytes, value: V, k: bytes)
    requires WellFormed(t) && Indexable(key)
    ensures WellFormed(AddAsWritten(t, key, value))
    ensures Lookup(AddAsWritten(t, key, value), k) == if k == key then Some(value) else Lookup(t, k)
  {
    var c := Bucket(t, key);
    var r := Added(c, key, value);
    FindAdded(c, key, value, k);
    ReplacedKeys(c, key, value);
    hide KeyIndex, Find, Replaced;
    assert Distinct(r);
    WithBucketWellFormed(t, key, r);
    LookupOther(t, key, r, k);
  }

  /** ht_add of a new key, and of one that stands at i. */
  lemma AddShapes<V>(t: Table<V>, key: bytes, value: V, index: int, i: nat)
    requires WellFormed(t) && Indexable(key) && index == KeyIndex(key)
    ensures WellFormed(AddAsWritten(t, key, value))
    ensures !HasKey(t[index], key) ==> AddAsWritten(t, key, value) == t[index := [Binding(key, value)] + t[index]]
    ensures i < |t[index]| && t[index][i].key == key && (forall j :: 0 <= j < i ==> t[index][j].key != key) ==>
      AddAsWritten(t, key, value) == t[index := t[index][i := Binding(key, value)]]
  {
    AddRefines(t, key, value, key);
    if i < |t[index]| && t[index][i].key == key && (forall j :: 0 <= j < i ==> t[index][j].key != key) {
      ReplacedAt(t[index], key, value, i);
      assert HasKey(t[index], key);
    }
  }

  lemma RemShape<V>(t: Table<V>, key: bytes, index: int)
    requires WellFormed(t) && Indexable(key) && index == KeyIndex(key)
    ensures WellFormed(RemAsWritten(t, key))
    ensures HasKey(t[index], key) ==> RemAsWritten(t, key) == t[index := []]
  {
    RemAgreesIff(t, key);
  }

  /** Removal without clearing refines the map's. */
  lemma RemIntendedRefines<V>(t: Table<V>, key: bytes, k: bytes)
    requires WellFormed(t) && Indexable(key)
    ensures WellFormed(RemIntended(t, key))
    ensures Lookup(RemIntended(t, key), k) == if k == key then None else Lookup(t, k)
  {
    var c := Bucket(t, key);
    FindUnlinked(c, key, k);
    UnlinkedSub(c, key);
    hide KeyIndex, Find, Unlinked;
    forall i | 0 <= i < |Unlinked(c, key)| ensures KeyIndex(Unlinked(c, key)[i].key) == KeyIndex(key) {
      var j :| 0 <= j < |c| && c[j] == Unlinked(c, key)[i];
    }
    WithBucketWellFormed(t, key, Unlinked(c, key));
    LookupOther(t, key, Unlinked(c, key), k);
  }

  /** ht_get finds what the map holds exactly if the key is present or its bucket does not hold a single other key. */
  lemma GetAgreesIff<V>(t: Table<V>, key: bytes)
    requires WellFormed(t) && Indexable(key)
    ensures GetAsWritten(t, key) == Lookup(t, key) <==> Lookup(t, key).Some? || |Bucket(t, key)| != 1
  {
    var c := Bucket(t, key);
    if |c| == 1 {
      assert Find(c, key) == if c[0].key == key then Some(c[0].value) else None;
    }
  }

  /** ht_rem removes the key and nothing else exactly if the key is absent or alone in its bucket. */
  lemma RemAgreesIff<V>(t: Table<V>, key: bytes)
    requires WellFormed(t) && Indexable(key)
    ensures WellFormed(RemAsWritten(t, key))
    ensures (forall k :: Lookup(RemAsWritten(t, key), k) == if k == key then None else Lookup(t, k))
      <==> Lookup(t, key) == None || |Bucket(t, key)| == 1
  {
    var c, r := Bucket(t, key), RemAsWritten(t, key);
    if HasKey(c, key) {
      WithBucketWellFormed(t, key, []);
      var at :| 0 <= at < |c| && c[at].key == key;
      if |c| == 1 {
        forall k ensures Lookup(r, k) == if k == key then None else Lookup(t, k) {
          LookupOther(t, key, [], k);
          assert HasKey(c, k) <==> k == key;
        }
      } else {
        var sibling := if at == 0 then 1 else 0;
        var k := c[sibling].key;
        assert HasKey(c, k) && k != key;
        assert Lookup(r, k) == None && Lookup(t, k).Some?;
      }
    }
  }

  // ----- runs

  datatype Op<V> = Add(key: bytes, value: V) | Rem(key: bytes)

  predicate Keyed<V>(ops: seq<Op<V>>) { forall i :: 0 <= i < |ops| ==> Indexable(ops[i].key) }

  function EmptyTable<V>(): (t: Table<V>)
    ensures |t| == HT_MAX
  {
    seq(HT_MAX, _ => [])
  }

  function RunMap<V>(ops: seq<Op<V>>): map<bytes, V>
  {
    if ops == [] then map[]
    else
      var m := RunMap(ops[..|ops| - 1]);
      match ops[|ops| - 1]
      case Add(key, value) => m[key := value]
      case Rem(key) => m - {key}
  }

  function RunIntended<V>(ops: seq<Op<V>>): (t: Table<V>)
    requires Keyed(ops)
    ensures |t| == HT_MAX
  {
    if ops == [] then EmptyTable()
    else
      var t := RunIntended(ops[..|ops| - 1]);
      match ops[|ops| - 1]
      case Add(key, value) => AddAsWritten(t, key, value)
      case Rem(key) => RemIntended(t, key)
  }

  function RunAsWritten<V>(ops: seq<Op<V>>): (t: Table<V>)
    requires Keyed(ops)
    ensures |t| == HT_MAX
  {
    if ops == [] then EmptyTable()
    else
      var t := RunAsWritten(ops[..|ops| - 1]);
      match ops[|ops| - 1]
      case Add(key, value) => AddAsWritten(t, key, value)
      case Rem(key) => RemAsWritten(t, key)
  }

  ghost predicate Refines<V>(t: Table<V>, m: map<bytes, V>)
    requires |t| == HT_MAX
  {
    && WellFormed(t)
    && forall k :: Lookup(t, k) == if k in m then Some(m[k]) else None
  }

  /** After any run the table without the clearing is the map. */
  lemma {:induction false} IntendedRefines<V>(ops: seq<Op<V>>)
    requires Keyed(ops)
    ensures Refines(RunIntended(ops), RunMap(ops))
  {
    if ops == [] {
      EmptyRefines<V>();
    } else {
      var before := ops[..|ops| - 1];
      IntendedRefines(before);
      var t, m := RunIntended(before), RunMap(before);
      hide Lookup, WellFormed, AddAsWritten, RemIntended;
      match ops[|ops| - 1] {
        case Add(key, value) =>
          AddRefines(t, key, value, key);
          forall k ensures Lookup(AddAsWritten(t, key, value), k) == if k == key then Some(value) else Lookup(t, k) {
            AddRefines(t, key, value, k);
          }
        case Rem(key) =>
          RemIntendedRefines(t, key, key);
          forall k ensures Lookup(RemIntended(t, key), k) == if k == key then None else Lookup(t, k) {
            RemIntendedRefines(t, key, k);
          }
      }
    }
  }

  lemma EmptyRefines<V>()
    ensures Refines(EmptyTable<V>(), map[])
  {
    hide KeyIndex;
  }

  /** Every removal finds its key alone in the bucket, or not there. */
  ghost predicate Undisturbed<V>(ops: seq<Op<V>>)
    requires Keyed(ops)
  {
    ops == [] || (
      var before, op := ops[..|ops| - 1], ops[|ops| - 1];
      && Undisturbed(before)
      && (op.Rem? && op.key in RunMap(before) ==> |Bucket(RunAsWritten(before), op.key)| == 1))
  }

  /** The table as written is the map over all such runs. */
  lemma {:induction false} AsWrittenRefines<V>(ops: seq<Op<V>>)
    requires Keyed(ops) && Undisturbed(ops)
    ensures Refines(RunAsWritten(ops), RunMap(ops))
  {
    if ops == [] {
      EmptyRefines<V>();
    } else {
      var before := ops[..|ops| - 1];
      AsWrittenRefines(before);
      var t, m := RunAsWritten(before), RunMap(before);
      hide Lookup, WellFormed, AddAsWritten, RemAsWritten, Bucket;
      match ops[|ops| - 1] {
        case Add(key, value) =>
          AddRefines(t, key, value, key);
          forall k ensures Lookup(AddAsWritten(t, key, value), k) == if k == key then Some(value) else Lookup(t, k) {
            AddRefines(t, key, value, k);
          }
        case Rem(key) =>
          RemAgreesIff(t, key);
      }
    }
  }

  /** At the first removal that finds a sibling the table stops being the map. */
  lemma FirstDisturbance<V>(ops: seq<Op<V>>)
    requires ops != [] && Keyed(ops) && Undisturbed(ops[..|ops| - 1]) && !Undisturbed(ops)
    ensures !Refines(RunAsWritten(ops), RunMap(ops))
  {
    var before, op := ops[..|ops| - 1], ops[|ops| - 1];
    AsWrittenRefines(before);
    RemAgreesIff(RunAsWritten(before), op.key);
  }

  ghost predicate AlwaysRefines<V>(ops: seq<Op<V>>)
    requires Keyed(ops)
  {
    Refines(RunAsWritten(ops), RunMap(ops)) && (ops != [] ==> AlwaysRefines(ops[..|ops| - 1]))
  }

  /** The table as written is the map at every step of a run exactly if no removal ever finds a sibling. */
  lemma {:induction false} AlwaysRefinesIff<V>(ops: seq<Op<V>>)
    requires Keyed(ops)
    ensures AlwaysRefines(ops) <==> Undisturbed(ops)
  {
    if ops == [] {
      EmptyRefines<V>();
    } else {
      AlwaysRefinesIff(ops[..|ops| - 1]);
      if Undisturbed(ops) {
        AsWrittenRefines(ops);
      } else if Undisturbed(ops[..|ops| - 1]) {
        FirstDisturbance(ops);
      }
    }
  }
}
