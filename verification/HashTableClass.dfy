/** The table of src/hashtable.c itself: an array of linked chains, changed in place. */
module HashTableClass {
  import opened Bytes
  import opened HashTable
  import opened Wrappers

  class HtNode<V> {
    const k: bytes
    var s: V
    var next: HtNode?<V>

    constructor (k: bytes, s: V, next: HtNode?<V>)
      ensures this.k == k && this.s == s && this.next == next
    {
      this.k, this.s, this.next := k, s, next;
    }
  }

  class Ht<V> {
    const ht: array<HtNode?<V>>
    ghost var chains: seq<seq<HtNode<V>>>
    ghost var nodes: set<HtNode<V>>
    /** What the chains hold. */
    ghost var view: Table<V>

    ghost predicate Sized()
      reads this
    {
      ht.Length == |chains| == |view| == HT_MAX
    }

    /** The list at `ht[b]` is chain b and holds view[b]. */
    ghost predicate Chained(b: int)
      requires Sized() && 0 <= b < HT_MAX
      reads this, ht, nodes
    {
      var c := chains[b];
      && |c| == |view[b]|
      && ht[b] == (if c == [] then null else c[0])
      && (forall i {:trigger c[i]} :: 0 <= i < |c| ==>
            && c[i] in nodes
            && c[i].k == view[b][i].key
            && c[i].s == view[b][i].value)
      && (forall i, j {:trigger c[i], c[j]} :: 0 <= i && j == i + 1 && j < |c| ==> c[i].next == c[j])
      && (c != [] ==> c[|c| - 1].next == null)
    }

    ghost predicate Valid()
      reads this, ht, nodes
    {
      && Sized()
      && WellFormed(view)
      && (forall b :: 0 <= b < HT_MAX ==> Chained(b))
    }

    /** ht_init */
    constructor ()
      ensures Valid() && fresh(ht) && nodes == {} && view == EmptyTable()
    {
      ht := new HtNode?<V>[HT_MAX](_ => null);
      chains, nodes, view := seq(HT_MAX, _ => []), {}, EmptyTable();
      new;
      EmptyRefines<V>();
    }

    /** ht_get */
    method Get(key: bytes) returns (r: Option<V>)
      requires Valid() && Indexable(key)
      ensures r == GetAsWritten(view, key)
    {
      var index := HtKey(key);
      ghost var c, v := chains[index], view[index];
      assert Chained(index);
      if ht[index] != null {
        assert |c| > 1 ==> c[0].next == c[1];
        if ht[index].next == null {
          return Some(ht[index].s);
        }
        r := Search(index, key);
      } else {
        return None;
      }
    }

    /** The loop of ht_get over the bucket's chain. */
    method Search(index: int, key: bytes) returns (r: Option<V>)
      requires Sized() && 0 <= index < HT_MAX && Chained(index)
      ensures r == Find(view[index], key)
    {
      ghost var c, v := chains[index], view[index];
      var h := ht[index];
      ghost var i := 0;
      while h != null
        invariant 0 <= i <= |c| && h == (if i < |c| then c[i] else null)
        invariant Find(v[i..], key) == Find(v, key)
        decreases |c| - i
      {
        assert v[i..][0] == v[i] && v[i..][1..] == v[i + 1..];
        if h.k == key {
          return Some(h.s);
        }
        h := h.next;
        i := i + 1;
      }
      return None;
    }

    /** Nodes of two places in the table are two nodes: each key is in its own bucket, and there once. */
    lemma Apart(b: int, i: int, d: int, j: int)
      requires Valid() && 0 <= b < HT_MAX && 0 <= d < HT_MAX
      requires 0 <= i < |chains[b]| && 0 <= j < |chains[d]| && (b, i) != (d, j)
      ensures chains[b][i] != chains[d][j]
    {
      assert Chained(b) && Chained(d);
      assert KeyIndex(view[b][i].key) == b && KeyIndex(view[d][j].key) == d;
      if b == d {
        assert Distinct(view[b]);
      }
    }

    /** The node is in no other chain. */
    ghost predicate OnlyIn(index: int, n: HtNode?<V>)
      requires Sized()
      reads this
    {
      forall b, j :: 0 <= b < HT_MAX && b != index && 0 <= j < |chains[b]| ==> chains[b][j] != n
    }

    lemma NodeOnlyIn(index: int, i: int)
      requires Valid() && 0 <= index < HT_MAX && 0 <= i < |chains[index]|
      ensures OnlyIn(index, chains[index][i])
    {
      forall b, j | 0 <= b < HT_MAX && b != index && 0 <= j < |chains[b]| ensures chains[b][j] != chains[index][i] {
        Apart(b, j, index, i);
      }
    }

    /** ht_add without a copy of the value, as HT_ADD_WA calls it. */
    method Add(key: bytes, value: V)
      requires Valid() && Indexable(key)
      modifies this`chains, this`nodes, this`view, ht, nodes
      ensures Valid() && view == AddAsWritten(old(view), key, value)
      ensures fresh(nodes - old(nodes))
    {
      var index := HtKey(key);
      assert 0 <= index < HT_MAX;
      hide AddAsWritten, WellFormed, Indexable;
      var h := ht[index];
      ghost var i := 0;
      assert Chained(index);
      while h != null
        invariant 0 <= i <= |chains[index]| && h == (if i < |chains[index]| then chains[index][i] else null)
        invariant forall k :: 0 <= k < i ==> view[index][k].key != key
        decreases |chains[index]| - i
      {
        if h.k == key {
          SetValue(h, index, i, key, value);
          return;
        }
        h := h.next;
        i := i + 1;
      }
      PushFront(index, key, value);
    }

    method SetValue(h: HtNode<V>, ghost index: int, ghost i: int, ghost key: bytes, value: V)
      requires Valid() && Indexable(key) && index == KeyIndex(key) && 0 <= index < HT_MAX
      requires 0 <= i < |chains[index]| && i < |view[index]| && h == chains[index][i]
      requires view[index][i].key == key && forall k :: 0 <= k < i ==> view[index][k].key != key
      modifies this`view, h`s
      ensures Valid() && view == AddAsWritten(old(view), key, value)
    {
      hide Indexable, WellFormed, AddAsWritten, HasKey;
      AddShapes(view, key, value, index, i);
      NodeOnlyIn(index, i);
      forall j | 0 <= j < |chains[index]| && j != i ensures chains[index][j] != h {
        Apart(index, j, index, i);
      }
      assert Chained(index);
      h.s := value;
      view := AddAsWritten(view, key, value);
      assert Chained(index);
      forall b | 0 <= b < HT_MAX && b != index ensures Chained(b) {
        assert old(Chained(b));
      }
    }

    method PushFront(index: int, key: bytes, value: V)
      requires Valid() && Indexable(key) && index == KeyIndex(key) && 0 <= index < HT_MAX && !HasKey(view[index], key)
      modifies this`chains, this`nodes, this`view, ht
      ensures Valid() && view == AddAsWritten(old(view), key, value)
      ensures fresh(nodes - old(nodes))
    {
      hide Indexable, WellFormed, AddAsWritten, HasKey;
      AddShapes(view, key, value, index, 0);
      var h := new HtNode(key, value, ht[index]);
      Insert(index, h);
    }

    method Insert(index: int, h: HtNode<V>)
      requires Sized() && 0 <= index < HT_MAX && h.next == ht[index]
      requires forall b :: 0 <= b < HT_MAX ==> Chained(b)
      modifies this`chains, this`nodes, this`view, ht
      ensures Sized() && view == old(view)[index := [Binding(h.k, h.s)] + old(view)[index]] && nodes == old(nodes) + {h}
      ensures forall b :: 0 <= b < HT_MAX ==> Chained(b)
    {
      assert Chained(index);
      ht[index] := h;
      chains := chains[index := [h] + chains[index]];
      view := view[index := [Binding(h.k, h.s)] + view[index]];
      nodes := nodes + {h};
      assert Chained(index);
      forall b | 0 <= b < HT_MAX && b != index ensures Chained(b) {
        assert old(Chained(b));
      }
    }

    /** ht_rem: 0 if the key was there, -1 if not. */
    method Remove(key: bytes) returns (code: int)
      requires Valid() && Indexable(key)
      modifies this`chains, this`view, ht, nodes
      ensures Valid() && view == RemAsWritten(old(view), key)
      ensures code == if HasKey(Bucket(old(view), key), key) then 0 else -1
    {
      var index := HtKey(key);
      assert 0 <= index < HT_MAX;
      hide WellFormed, Indexable;
      var h, prev: HtNode?<V> := ht[index], null;
      ghost var i := 0;
      assert Chained(index);
      while h != null
        invariant 0 <= i <= |chains[index]| && h == (if i < |chains[index]| then chains[index][i] else null)
        invariant prev == if i == 0 then null else chains[index][i - 1]
        invariant forall k :: 0 <= k < i ==> view[index][k].key != key
        decreases |chains[index]| - i
      {
        if h.k == key {
          assert view[index][i].key == key;
          if prev == null {
            UnlinkHead(index, h, key);
          } else {
            UnlinkInner(index, h, prev, i, key);
          }
          return 0;
        }
        prev, h := h, h.next;
        i := i + 1;
      }
      return -1;
    }

    /** The entry is unlinked from its predecessor; then `ht[index]` is set to NULL, and its siblings go with it. */
    method UnlinkInner(index: int, h: HtNode<V>, prev: HtNode<V>, ghost i: int, ghost key: bytes)
      requires Valid() && Indexable(key) && index == KeyIndex(key) && 0 <= index < HT_MAX
      requires 0 < i < |chains[index]| && i < |view[index]| && h == chains[index][i] && prev == chains[index][i - 1]
      requires view[index][i].key == key
      modifies this`chains, this`view, ht, prev`next
      ensures Valid() && view == RemAsWritten(old(view), key)
    {
      NodeOnlyIn(index, i - 1);
      assert HasKey(view[index], key);
      hide Indexable, WellFormed, RemAsWritten, HasKey;
      RemShape(view, key, index);
      prev.next := h.next;
      forall b | 0 <= b < HT_MAX && b != index ensures Chained(b) {
        assert old(Chained(b));
      }
      Clear(index);
    }

    method UnlinkHead(index: int, h: HtNode<V>, ghost key: bytes)
      requires Valid() && Indexable(key) && index == KeyIndex(key) && 0 <= index < HT_MAX
      requires ht[index] == h && view[index] != [] && view[index][0].key == key
      modifies this`chains, this`view, ht
      ensures Valid() && view == RemAsWritten(old(view), key)
    {
      assert HasKey(view[index], key);
      hide Indexable, WellFormed, RemAsWritten, HasKey;
      RemShape(view, key, index);
      ht[index] := h.next;
      forall b | 0 <= b < HT_MAX && b != index ensures Chained(b) {
        assert old(Chained(b));
      }
      Clear(index);
    }

    method Clear(index: int)
      requires Sized() && 0 <= index < HT_MAX
      requires forall b :: 0 <= b < HT_MAX && b != index ==> Chained(b)
      modifies this`chains, this`view, ht
      ensures Sized() && view == old(view)[index := []]
      ensures forall b :: 0 <= b < HT_MAX ==> Chained(b)
    {
      ht[index] := null;
      chains := chains[index := []];
      view := view[index := []];
      assert Chained(index);
      forall b | 0 <= b < HT_MAX && b != index ensures Chained(b) {
        assert old(Chained(b));
      }
    }
  }
}
