/** hm_palloc, hm_pfree and hm_prealloc of src/pool.c over the list of size classes. */
module Allocator {
  import opened Bytes
  import opened Pool

  /**
   * The classes cs, by size, together hold nodes ns in regions rs, of which ls are with callers and ss were at least
   * once: each class is sound by itself, and a node handed out belongs to the class of its size.
   */
  ghost predicate Sound(cs: set<SizeClass>, at: map<int, SizeClass>, ns: set<PoolNode>, rs: set<array<Cell>>,
                        ls: set<PoolNode>, ss: set<PoolNode>)
    reads cs`used, cs`freenode, cs`nodes, cs`regions, cs`free, cs`live, cs`issued, ns, rs
  {
    && (forall c :: c in cs ==> c.size in at && at[c.size] == c)
    && (forall c :: c in cs ==> c.nodes <= ns && c.regions <= rs && c.live <= ls && c.issued <= ss && c.Valid())
    && (forall n :: n in ls ==> n.size in at && at[n.size] in cs && n in at[n.size].live)
    && (forall n :: n in ss ==> n.size in at && at[n.size] in cs && n in at[n.size].issued)
  }

  /** What the other classes hold is apart from what c holds. */
  lemma SoundApart(c: SizeClass, cs: set<SizeClass>, at: map<int, SizeClass>, ns: set<PoolNode>, rs: set<array<Cell>>,
                   ls: set<PoolNode>, ss: set<PoolNode>)
    requires Sound(cs, at, ns, rs, ls, ss) && c in cs
    ensures Sound(cs - {c}, at, ns - c.nodes, rs - c.regions, ls - c.live, ss - c.issued)
    ensures c.size in at && at[c.size] == c && c.Valid()
    ensures c.nodes <= ns && c.regions <= rs && c.live <= ls && c.issued <= ss
    ensures forall n :: n in c.nodes ==> n.size == c.size && (n in c.live <==> n in ls) && (n in c.issued <==> n in ss)
    ensures forall n :: n in ls && n.size == c.size ==> n in c.live
  {
    hide SizeClass.Lists, PoolNode.LaidOut;
  }

  lemma SoundTogether(c: SizeClass, cs: set<SizeClass>, at: map<int, SizeClass>, ns: set<PoolNode>, rs: set<array<Cell>>,
                      ls: set<PoolNode>, ss: set<PoolNode>)
    requires Sound(cs, at, ns, rs, ls, ss) && c.Valid() && c.size in at && at[c.size] == c
    ensures Sound(cs + {c}, at, ns + c.nodes, rs + c.regions, ls + c.live, ss + c.issued)
  {
    hide SizeClass.Valid;
    c.NodeSizes();
  }

  lemma SoundAlone(c: SizeClass)
    requires c.Valid() && c.nodes == {} && c.regions == {} && c.live == {} && c.issued == {}
    ensures Sound({c}, map[c.size := c], {}, {}, {}, {})
  {
    hide SizeClass.Valid;
  }

  lemma SoundExtended(c: SizeClass, cs: set<SizeClass>, at: map<int, SizeClass>, ns: set<PoolNode>, rs: set<array<Cell>>,
                      ls: set<PoolNode>, ss: set<PoolNode>)
    requires Sound(cs, at, ns, rs, ls, ss) && c.size !in at
    ensures Sound(cs, at[c.size := c], ns, rs, ls, ss)
  {
    hide SizeClass.Valid;
  }

  /** The size on record after hm_prealloc is asked for `size` bytes. */
  function RealAfter(had: int, size: int): int { if size == Round16(had) then had else size }

  /** How many bytes that call carries over. */
  function Carried(had: int, size: int): int { if size == Round16(had) || size <= had then size else had }

  /** The first k bytes of block r are those of block s. */
  ghost predicate Keeps(r: seq<Cell>, s: seq<Cell>, k: int) { 0 <= k <= |r| && k <= |s| && r[..k] == s[..k] }

  /** The first i cells copied. */
  ghost function Copied<T>(from: seq<T>, was: seq<T>, i: nat): (r: seq<T>)
    requires i <= |from| && i <= |was|
    ensures |r| == |was|
  {
    from[..i] + was[i..]
  }

  lemma CopiedOne<T>(from: seq<T>, was: seq<T>, i: nat)
    requires i <= |from| && i <= |was|
    ensures Copied(from, was, 0) == was && Copied(from, was, i) == from[..i] + was[i..]
    ensures i < |from| && i < |was| ==> Copied(from, was, i)[i := from[i]] == Copied(from, was, i + 1)
  {
  }

  lemma Exchange<T>(whole: set<T>, part: set<T>, grown: set<T>)
    requires part <= whole && part <= grown
    ensures whole - part + grown == whole + grown && whole + grown - whole <= grown - part
  {
  }

  lemma ExchangeOne<T>(whole: set<T>, part: set<T>, x: T)
    requires part <= whole
    ensures whole - part + (part + {x}) == whole + {x}
  {
  }

  lemma ExchangeLess<T>(whole: set<T>, part: set<T>, x: T)
    requires part <= whole && x in part
    ensures whole - part + (part - {x}) == whole - {x}
  {
  }

  lemma Restore<T>(whole: set<T>, part: set<T>)
    requires part <= whole
    ensures whole - part + part == whole
  {
  }

  /** pool_get_node on class c beside the classes cs. */
  method FetchBeside(c: SizeClass, size: int, ghost cs: set<SizeClass>, ghost at: map<int, SizeClass>,
                     ghost ns: set<PoolNode>, ghost rs: set<array<Cell>>, ghost ls: set<PoolNode>, ghost ss: set<PoolNode>)
    returns (p: Ptr, ghost node: PoolNode)
    requires Sound(cs, at, ns, rs, ls, ss) && c.Valid() && c !in cs && c.nodes !! ns && c.size in at && at[c.size] == c
    requires 0 < size && c.size == Round16(size)
    modifies c`used, c`freenode, c`nodes, c`regions, c`free, c`live, c`issued, c.freenode`used, c.freenode`realsize
    ensures Sound(cs + {c}, at, ns + c.nodes, rs + c.regions, ls + c.live, ss + c.issued)
    ensures p == node.Pointer() && node.realsize == size && node.size == c.size && node in old(c.nodes)
    ensures c.live == old(c.live) + {node} && node !in old(c.live) && c.issued == old(c.issued) + {node}
    ensures old(c.nodes) <= c.nodes && old(c.regions) <= c.regions
    ensures fresh(c.nodes - old(c.nodes)) && fresh(c.regions - old(c.regions))
  {
    c.FreeNode();
    c.NodeSizes();
    hide Sound, SizeClass.Valid;
    p, node := c.GetNode(size);
    SoundTogether(c, cs, at, ns, rs, ls, ss);
  }

  /** pool_get_node on class c, one of the classes cs. */
  method Fetch(c: SizeClass, size: int, ghost cs: set<SizeClass>, ghost at: map<int, SizeClass>, ghost ns: set<PoolNode>,
               ghost rs: set<array<Cell>>, ghost ls: set<PoolNode>, ghost ss: set<PoolNode>)
    returns (p: Ptr, ghost node: PoolNode)
    requires Sound(cs, at, ns, rs, ls, ss) && c in cs && 0 < size && c.size == Round16(size)
    modifies c`used, c`freenode, c`nodes, c`regions, c`free, c`live, c`issued, c.freenode`used, c.freenode`realsize
    ensures Sound(cs, at, ns + c.nodes, rs + c.regions, ls + {node}, ss + {node})
    ensures p == node.Pointer() && node.realsize == size && node.size == c.size && node in ns && node !in ls
    ensures fresh(ns + c.nodes - ns) && fresh(rs + c.regions - rs)
  {
    hide Sound, SizeClass.Valid;
    SoundApart(c, cs, at, ns, rs, ls, ss);
    c.FreeNode();
    ghost var ns0, rs0, ls0, ss0 := c.nodes, c.regions, c.live, c.issued;
    p, node := FetchBeside(c, size, cs - {c}, at, ns - ns0, rs - rs0, ls - ls0, ss - ss0);
    Exchange(ns, ns0, c.nodes);
    Exchange(rs, rs0, c.regions);
    ExchangeOne(ls, ls0, node);
    ExchangeOne(ss, ss0, node);
    Restore(cs, {c});
  }

  /** The push in hm_pfree on class c, one of the classes cs. */
  method Release(c: SizeClass, node: PoolNode, ghost cs: set<SizeClass>, ghost at: map<int, SizeClass>,
                 ghost ns: set<PoolNode>, ghost rs: set<array<Cell>>, ghost ls: set<PoolNode>, ghost ss: set<PoolNode>)
    requires Sound(cs, at, ns, rs, ls, ss) && c in cs && node in ls && node.size == c.size
    modifies c`used, c`freenode, c`free, c`live, node`used, node`next
    ensures Sound(cs, at, ns, rs, ls - {node}, ss)
    ensures c.free == [node] + old(c.free) && c.live == old(c.live) - {node} && node in old(c.live)
  {
    hide Sound, SizeClass.Valid;
    SoundApart(c, cs, at, ns, rs, ls, ss);
    c.NodeSizes();
    ghost var ls0 := c.live;
    c.PutBack(node);
    SoundTogether(c, cs - {c}, at, ns - c.nodes, rs - c.regions, ls - ls0, ss - c.issued);
    Restore(ns, c.nodes);
    Restore(rs, c.regions);
    Restore(ss, c.issued);
    Restore(cs, {c});
    ExchangeLess(ls, ls0, node);
  }

  method Put(p: Ptr, k: int, v: Cell, ghost node: PoolNode, ghost c: SizeClass, ghost cs: set<SizeClass>,
             ghost at: map<int, SizeClass>, ghost ns: set<PoolNode>, ghost rs: set<array<Cell>>, ghost ls: set<PoolNode>,
             ghost ss: set<PoolNode>)
    requires Sound(cs, at, ns, rs, ls, ss) && c in cs && node in ls && node.size == c.size && 0 <= k < node.size
    requires p == node.Pointer() && node.LaidOut()
    modifies node.region
    ensures Sound(cs, at, ns, rs, ls, ss)
    ensures node.region[..] == old(node.region[..])[node.Start() + k := v]
  {
    hide Sound, SizeClass.Valid;
    SoundApart(c, cs, at, ns, rs, ls, ss);
    SizeClass.Store(p, k, v, c, node);
    SoundTogether(c, cs - {c}, at, ns - c.nodes, rs - c.regions, ls - c.live, ss - c.issued);
    Restore(ns, c.nodes);
    Restore(rs, c.regions);
    Restore(ls, c.live);
    Restore(ss, c.issued);
    Restore(cs, {c});
  }

  method Record(ghost c: SizeClass, node: PoolNode, size: int, ghost cs: set<SizeClass>, ghost at: map<int, SizeClass>,
                ghost ns: set<PoolNode>, ghost rs: set<array<Cell>>, ghost ls: set<PoolNode>, ghost ss: set<PoolNode>)
    requires Sound(cs, at, ns, rs, ls, ss) && c in cs && node in ls && node.size == c.size
    requires 0 < size && Round16(size) == node.size
    modifies node`realsize
    ensures Sound(cs, at, ns, rs, ls, ss) && node.realsize == size
  {
    hide Sound, SizeClass.Valid, Round16;
    SoundApart(c, cs, at, ns, rs, ls, ss);
    c.NodeSizes();
    SizeClass.Record(c, node, size);
    SoundTogether(c, cs - {c}, at, ns - c.nodes, rs - c.regions, ls - c.live, ss - c.issued);
    Restore(ns, c.nodes);
    Restore(rs, c.regions);
    Restore(ls, c.live);
    Restore(ss, c.issued);
    Restore(cs, {c});
  }

  /** The list ps holds the classes cs, each once under its size, and all but the first have sizes in steps of 16. */
  ghost predicate Indexed(ps: seq<SizeClass>, cs: set<SizeClass>, at: map<int, SizeClass>) {
    && (forall c :: c in cs ==> c in ps && c.size in at && at[c.size] == c)
    && (forall c :: c in ps ==> c in cs)
    && (forall s :: s in at ==> at[s] in cs && at[s].size == s)
    && (forall i :: 0 < i < |ps| ==> ps[i].size > 0 && ps[i].size % 16 == 0)
  }

  lemma IndexedMore(ps: seq<SizeClass>, cs: set<SizeClass>, at: map<int, SizeClass>, c: SizeClass)
    requires Indexed(ps, cs, at) && c !in cs && c.size > 0 && c.size % 16 == 0 && c.size !in at
    ensures Indexed(ps + [c], cs + {c}, at[c.size := c]) && forall d :: d in ps ==> d in cs
  {
  }

  class Allocator {
    /** hm_create_pool: a holder of size 0 that never has nodes. */
    const root: SizeClass
    /** The list from `root`. */
    ghost var pools: seq<SizeClass>
    ghost var poolSet: set<SizeClass>
    ghost var at: map<int, SizeClass>
    ghost var nodes: set<PoolNode>
    ghost var regions: set<array<Cell>>
    /** The nodes whose blocks are with callers. */
    ghost var live: set<PoolNode>
    /** The nodes whose blocks were with callers at least once. */
    ghost var issued: set<PoolNode>

    /** The list: the holder first, then classes of distinct sizes, all positive multiples of 16. */
    ghost predicate Linked()
      reads this`pools, this`poolSet, this`at, poolSet`next
    {
      && pools != [] && pools[0] == root && root.size == 0
      && Indexed(pools, poolSet, at)
      && (forall i, j {:trigger pools[i], pools[j]} :: 0 <= i && j == i + 1 && j < |pools| ==> pools[i].next == pools[j])
      && pools[|pools| - 1].next == null
    }

    ghost predicate Valid()
      reads this, poolSet, nodes, regions
    {
      Linked() && Sound(poolSet, at, nodes, regions, live, issued)
    }

    constructor ()
      ensures Valid() && live == {} && fresh(poolSet) && fresh(nodes) && fresh(regions)
    {
      hide SizeClass.Valid, Linked, Sound, SizeClass.Lists, SizeClass.Memory, SizeClass.Flags;
      root := new SizeClass(0);
      new;
      pools, poolSet, at := [root], {root}, map[0 := root];
      nodes, regions, live, issued := {}, {}, {}, {};
      LinkedAlone();
      SoundAlone(root);
    }

    lemma LinkedAlone()
      requires pools == [root] && poolSet == {root} && at == map[0 := root] && root.size == 0 && root.next == null
      ensures Linked()
    {
    }

    /** pool_get_node on the class that fits. */
    method Serve(c: SizeClass, size: int) returns (p: Ptr, ghost node: PoolNode)
      requires Valid() && c in poolSet && c.size == Round16(size) && size > 0
      modifies this`nodes, this`regions, this`live, this`issued
      modifies c`used, c`freenode, c`nodes, c`regions, c`free, c`live, c`issued, c.freenode`used, c.freenode`realsize
      ensures Valid() && p == node.Pointer() && node.size == Round16(size) && node.realsize == size
      ensures node !in old(live) && live == old(live) + {node} && issued == old(issued) + {node}
      ensures fresh(nodes - old(nodes)) && fresh(regions - old(regions))
      ensures old(nodes) <= nodes && old(regions) <= regions && node in old(nodes)
    {
      hide Linked, Sound, SizeClass.Valid;
      p, node := Fetch(c, size, poolSet, at, nodes, regions, live, issued);
      nodes, regions, live, issued := nodes + c.nodes, regions + c.regions, live + {node}, issued + {node};
    }

    /** The walk to the tail in pool_create_append. */
    method Tail() returns (tp: SizeClass)
      requires Linked()
      ensures tp == pools[|pools| - 1] && tp in poolSet && tp.next == null
      ensures forall j :: 0 <= j < |pools| - 1 ==> pools[j] != tp
    {
      tp := root;
      ghost var i := 0;
      while tp.next != null
        invariant 0 <= i < |pools| && tp == pools[i]
        decreases |pools| - i
      {
        tp, i := tp.next, i + 1;
      }
      forall j | 0 <= j < |pools| - 1
        ensures pools[j] != tp
      {
        assert pools[j].next == pools[j + 1];
      }
    }

    method Link(c: SizeClass)
      requires Linked() && c !in poolSet && c.next == null && c.size > 0 && c.size % 16 == 0 && c.size !in at
      modifies this`pools, this`poolSet, this`at, poolSet`next
      ensures Linked() && pools == old(pools) + [c] && poolSet == old(poolSet) + {c} && at == old(at)[c.size := c]
    {
      IndexedMore(pools, poolSet, at, c);
      var tp := Tail();
      hide Indexed;
      tp.next := c;
      pools, poolSet, at := pools + [c], poolSet + {c}, at[c.size := c];
    }

    /** pool_create_append: a new class with one bucket, at the end of the list. */
    method CreateAppend(size: int) returns (c: SizeClass)
      requires Valid() && size > 0 && size % 16 == 0 && size !in at
      modifies this`pools, this`poolSet, this`at, this`nodes, this`regions, poolSet`next
      ensures Valid() && c.size == size && fresh(c) && pools == old(pools) + [c] && poolSet == old(poolSet) + {c}
      ensures nodes == old(nodes) + c.nodes && regions == old(regions) + c.regions
      ensures fresh(c.nodes) && fresh(c.regions)
    {
      hide Linked, Sound, SizeClass.Valid;
      c := NewClass(size);
      Link(c);
      SoundExtended(c, old(poolSet), old(at), nodes, regions, live, issued);
      SoundTogether(c, old(poolSet), at, nodes, regions, live, issued);
      nodes, regions := nodes + c.nodes, regions + c.regions;
      assert live + c.live == live && issued + c.issued == issued;
    }

    /** The class that holder p is has free nodes, if its size is the one asked for. */
    lemma Served(c: SizeClass)
      requires Valid() && c in poolSet && c.size > 0
      ensures c.freenode != null && c.freenode in nodes && c.freenode !in live && c.Valid()
    {
      c.FreeNode();
      SoundApart(c, poolSet, at, nodes, regions, live, issued);
    }

    /** The search in hm_palloc: the class of a size. */
    method Find(size: int) returns (r: SizeClass?)
      requires Linked()
      ensures r != null ==> r in poolSet && r.size == size
      ensures r == (if size in at then at[size] else null)
    {
      r := root;
      ghost var i := 0;
      while r != null
        invariant 0 <= i <= |pools| && r == (if i < |pools| then pools[i] else null)
        invariant forall j :: 0 <= j < i ==> pools[j].size != size
        decreases |pools| - i
      {
        if size == r.size {
          return;
        }
        r, i := r.next, i + 1;
      }
    }

    /** The first half of hm_palloc: the class that fits, made if there is none yet. */
    method Fitting(size: int) returns (c: SizeClass)
      requires Valid() && size > 0 && size % 16 == 0
      modifies this`pools, this`poolSet, this`at, this`nodes, this`regions, poolSet`next
      ensures Valid() && c in poolSet && c.size == size && (c in old(poolSet) || fresh(c))
      ensures c.freenode != null && c.freenode in nodes && c.freenode !in live
      ensures fresh(nodes - old(nodes)) && fresh(regions - old(regions)) && fresh(poolSet - old(poolSet))
      ensures old(nodes) <= nodes && old(regions) <= regions
    {
      hide Linked, Sound, SizeClass.Valid;
      var r := Find(size);
      if r == null {
        c := CreateAppend(size);
      } else {
        c := r;
      }
      Served(c);
    }

    /** hm_palloc */
    method Palloc(size: int) returns (p: Ptr, ghost node: PoolNode)
      requires Valid() && 0 < size && size + 15 <= INT_MAX
      modifies this, poolSet, nodes`used, nodes`realsize
      ensures Valid() && p == node.Pointer() && node.size == Round16(size) && node.realsize == size
      ensures node !in old(live) && live == old(live) + {node} && issued == old(issued) + {node}
      ensures fresh(nodes - old(nodes)) && fresh(regions - old(regions)) && fresh(poolSet - old(poolSet))
      ensures old(nodes) <= nodes && old(regions) <= regions
      ensures forall n :: n in old(live) ==> n.realsize == old(n.realsize)
    {
      hide Linked, Sound, SizeClass.Valid;
      var c := Fitting(Round16(size));
      p, node := Serve(c, size);
    }

    /** The search in hm_pfree: the class of a node, if the node is in use. */
    method Owner(node: PoolNode) returns (r: SizeClass?)
      requires Linked()
      ensures r != null ==> r in poolSet && r.size == node.size
      ensures r == (if node.used && node.size in at then at[node.size] else null)
    {
      r := root;
      ghost var i := 0;
      while r != null
        invariant 0 <= i <= |pools| && r == (if i < |pools| then pools[i] else null)
        invariant forall j :: 0 <= j < i ==> !(node.used && pools[j].size == node.size)
        decreases |pools| - i
      {
        if node.used && node.size == r.size {
          return;
        }
        r, i := r.next, i + 1;
      }
    }

    lemma IssuedFacts(n: PoolNode)
      requires Valid() && (n in issued || n in live)
      ensures n in nodes && n.size in at && n.LaidOut() && n.region in regions && (n in live <==> n.used)
      ensures n in live ==> 0 < n.realsize <= n.size && n.size == Round16(n.realsize)
      ensures n in issued && at[n.size] in poolSet && at[n.size].size == n.size && at[n.size].Valid()
      ensures n in at[n.size].nodes
    {
      hide SizeClass.Lists;
    }

    /** The body of the loop in hm_pfree once the class is found. */
    method Give(c: SizeClass, node: PoolNode)
      requires Valid() && c in poolSet && node in live && node.size == c.size
      modifies this`live, c`used, c`freenode, c`free, c`live, node`used, node`next
      ensures Valid() && live == old(live) - {node} && c.free == [node] + old(c.free)
    {
      hide Linked, Sound, SizeClass.Valid;
      Release(c, node, poolSet, at, nodes, regions, live, issued);
      live := live - {node};
    }

    /** hm_pfree: a block that is with a caller goes to the head of its class's free list; any other is refused. */
    method Pfree(p: Ptr, ghost node: PoolNode?) returns (ret: int)
      requires Valid()
      requires p != Null ==> node != null && node in issued && p == node.Pointer()
      modifies this`live, poolSet`used, poolSet`freenode, poolSet`free, poolSet`live, nodes`used, nodes`next
      ensures Valid() && ret == (if p != Null && node in old(live) then 0 else -1)
      ensures ret == 0 ==> live == old(live) - {node} && at[node.size].free == [node] + old(at[node.size].free)
      ensures ret == -1 ==> unchanged(this) && unchanged(poolSet) && unchanged(nodes)
    {
      hide Linked, Sound, SizeClass.Valid, PoolNode.LaidOut;
      if p == Null {
        return -1;
      }
      IssuedFacts(node);
      MetaNamesNode(node);
      var n := GetMeta(p);
      var r := Owner(n);
      if r == null {
        return -1;
      }
      Give(r, n);
      return 0;
    }

    /** Two blocks that are with callers do not share a byte, and neither covers a metadata word. */
    lemma NoOverlap(m: PoolNode, n: PoolNode)
      requires Valid() && m in live && n in live
      ensures m.realsize <= m.size && 0 <= m.Base() && m.Start() + m.size <= m.region.Length
      ensures m == n || m.region != n.region || m.Start() + m.size <= n.Base() || n.Start() + n.size <= m.Base()
    {
      hide SizeClass.Lists;
      IssuedFacts(m);
      IssuedFacts(n);
      if m.size != n.size {
        assert m.region.Length != n.region.Length;
      }
    }

    /** A caller writes one byte of the block it was given. */
    method Store(p: Ptr, k: int, v: Cell, ghost node: PoolNode)
      requires Valid() && node in live && p == node.Pointer() && 0 <= k < node.size
      modifies node.region
      ensures Valid() && |old(node.Payload())| == node.size && node.Payload() == old(node.Payload())[k := v]
      ensures forall n :: n in live && n != node ==> n.Payload() == old(n.Payload())
    {
      hide Linked, Sound, SizeClass.Valid, PoolNode.LaidOut;
      IssuedFacts(node);
      Apart(node);
      Put(p, k, v, node, at[node.size], poolSet, at, nodes, regions, live, issued);
    }

    /** NoOverlap for one block and all the others. */
    lemma Apart(m: PoolNode)
      requires Valid() && m in live
      ensures 0 <= m.Base() && m.Start() + m.size <= m.region.Length
      ensures forall n :: n in live && n != m ==>
        m.region != n.region || m.Start() + m.size <= n.Base() || n.Start() + n.size <= m.Base()
    {
      NoOverlap(m, m);
      forall n | n in live && n != m
        ensures m.region != n.region || m.Start() + m.size <= n.Base() || n.Start() + n.size <= m.Base()
      {
        NoOverlap(m, n);
      }
    }

    /** memcpy from one block to the start of another. */
    method Memcpy(to: Ptr, p: Ptr, len: int, ghost dst: PoolNode, ghost src: PoolNode)
      requires Valid() && dst in live && src in live && dst != src && to == dst.Pointer() && p == src.Pointer()
      requires 0 <= len <= dst.size && len <= src.size
      modifies dst.region
      ensures Valid() && |old(src.Payload())| == src.size && |old(dst.Payload())| == dst.size
      ensures dst.Payload() == old(src.Payload())[..len] + old(dst.Payload())[len..]
      ensures forall n :: n in live && n != dst ==> n.Payload() == old(n.Payload())
    {
      hide Valid, PoolNode.Payload, PoolNode.Pointer, Copied;
      Sized(dst);
      Sized(src);
      ghost var was, from := dst.Payload(), src.Payload();
      var i := 0;
      CopiedOne(from, was, 0);
      while i < len
        invariant 0 <= i <= len && Valid()
        invariant dst.Payload() == Copied(from, was, i)
        invariant forall n :: n in live && n != dst ==> n.Payload() == old(n.Payload())
      {
        var v := Load(p, i, src);
        Store(to, i, v, dst);
        CopiedOne(from, was, i);
        i := i + 1;
      }
      CopiedOne(from, was, len);
    }

    method Load(p: Ptr, k: int, ghost node: PoolNode) returns (v: Cell)
      requires Valid() && node in live && p == node.Pointer() && 0 <= k < node.size
      ensures |node.Payload()| == node.size && v == node.Payload()[k]
    {
      Sized(node);
      v := p.region[p.off + k];
    }

    lemma Sized(node: PoolNode)
      requires Valid() && node in live
      ensures node in issued && node in nodes && node.region in regions
      ensures |node.Payload()| == node.size && 0 <= node.Start() && node.Start() + node.size <= node.region.Length
    {
      Apart(node);
      IssuedFacts(node);
    }

    /** get_meta of a block that is with a caller. */
    method Meta(p: Ptr, ghost node: PoolNode) returns (n: PoolNode)
      requires Valid() && node in live && p == node.Pointer()
      ensures p.At? && n == node && 0 < n.realsize <= n.size && n.size == Round16(n.realsize)
    {
      IssuedFacts(node);
      MetaNamesNode(node);
      n := GetMeta(p);
    }

    /** A new block with the bytes that hm_prealloc carries over. */
    method Duplicate(p: Ptr, size: int, ghost node: PoolNode) returns (q: Ptr, ghost dst: PoolNode)
      requires Valid() && node in live && p == node.Pointer() && node.size != size && 0 < size && size + 15 <= INT_MAX
      modifies this, poolSet, nodes`used, nodes`realsize, regions
      ensures Valid() && p.At? && q == dst.Pointer() && dst.size == Round16(size) && dst.realsize == size
      ensures dst !in old(live) && live == old(live) + {dst}
      ensures fresh(nodes - old(nodes)) && fresh(regions - old(regions)) && fresh(poolSet - old(poolSet))
      ensures Keeps(dst.Payload(), old(node.Payload()), Carried(old(node.realsize), size))
      ensures forall n :: n in old(live) ==> n.realsize == old(n.realsize) && n.Payload() == old(n.Payload())
    {
      hide Valid, PoolNode.Payload, PoolNode.Pointer;
      var n := Meta(p, node);
      Sized(node);
      q, dst := Palloc(size);
      Sized(dst);
      Memcpy(q, p, if n.realsize <= size then n.realsize else size, dst, node);
    }

    /** hm_pfree of a block that is with a caller. */
    method Free(p: Ptr, ghost node: PoolNode)
      requires Valid() && node in live && p == node.Pointer()
      modifies this`live, poolSet`used, poolSet`freenode, poolSet`free, poolSet`live, nodes`used, nodes`next
      ensures Valid() && live == old(live) - {node}
    {
      IssuedFacts(node);
      hide Valid;
      var _ := Pfree(p, node);
    }

    /** A new block for the old one, with the bytes that carry over. */
    method Replace(p: Ptr, size: int, ghost node: PoolNode) returns (q: Ptr, ghost dst: PoolNode)
      requires Valid() && node in live && p == node.Pointer() && node.size != size && 0 < size && size + 15 <= INT_MAX
      modifies this, poolSet, nodes, regions
      ensures Valid() && p.At? && q == dst.Pointer() && dst.size == Round16(size) && dst.realsize == size
      ensures dst !in old(live) && live == old(live) - {node} + {dst}
      ensures fresh(nodes - old(nodes)) && fresh(regions - old(regions)) && fresh(poolSet - old(poolSet))
      ensures Keeps(dst.Payload(), old(node.Payload()), Carried(old(node.realsize), size))
      ensures forall n :: n in old(live) && n != node ==> n.realsize == old(n.realsize) && n.Payload() == old(n.Payload())
    {
      hide Valid, PoolNode.Payload, PoolNode.Pointer, Round16;
      q, dst := Duplicate(p, size, node);
      Free(p, node);
    }

    /** hm_prealloc. A request for exactly the size of the block's class leaves the size on record alone. */
    method Prealloc(p: Ptr, size: int, ghost node: PoolNode?) returns (q: Ptr, ghost dst: PoolNode?)
      requires Valid() && size + 15 <= INT_MAX && (p == Null ==> size >= 0)
      requires p != Null ==> node != null && node in live && p == node.Pointer()
      modifies this, poolSet, nodes, regions
      ensures Valid() && (size > 0 <==> dst != null) && q == (if dst == null then Null else dst.Pointer())
      ensures size < 0 ==> live == old(live)
      ensures size == 0 ==> live == old(live) - (if p == Null then {} else {node})
      ensures size > 0 && p == Null ==> dst !in old(live) && live == old(live) + {dst} && dst.realsize == size
      ensures size > 0 && p != Null && node.size == size ==> dst == node && q == p && live == old(live)
      ensures size > 0 && p != Null && node.size != size ==> dst !in old(live) && live == old(live) - {node} + {dst}
      ensures fresh(nodes - old(nodes)) && fresh(regions - old(regions)) && fresh(poolSet - old(poolSet))
      ensures size > 0 && p != Null ==>
        && dst.realsize == RealAfter(old(node.realsize), size)
        && Keeps(dst.Payload(), old(node.Payload()), Carried(old(node.realsize), size))
      ensures forall n :: n in old(live) && n != node ==> n.realsize == old(n.realsize) && n.Payload() == old(n.Payload())
    {
      hide Valid, PoolNode.Payload, PoolNode.Pointer, Round16;
      dst := null;
      if p == Null && size == 0 {
        q := Null;
      } else if p == Null {
        q, dst := Palloc(size);
      } else {
        var n := Meta(p, node);
        Sized(node);
        if size == 0 {
          Free(p, node);
          q := Null;
        } else if n.size == size {
          q, dst := p, node;
        } else if size > 0 {
          q, dst := Replace(p, size, node);
        } else {
          q := Null;
        }
      }
    }

    /** hm_prealloc with the size on record brought up to date in every branch. */
    method PreallocRecorded(p: Ptr, size: int, ghost node: PoolNode) returns (q: Ptr, ghost dst: PoolNode)
      requires Valid() && 0 < size && size + 15 <= INT_MAX && node in live && p == node.Pointer()
      modifies this, poolSet, nodes, regions
      ensures Valid() && q == dst.Pointer() && dst.realsize == size && dst.size == Round16(size)
      ensures live == old(live) - {node} + {dst} && (dst == node || dst !in old(live))
      ensures Keeps(dst.Payload(), old(node.Payload()), if old(node.realsize) <= size then old(node.realsize) else size)
      ensures forall n :: n in old(live) && n != node ==> n.realsize == old(n.realsize) && n.Payload() == old(n.Payload())
    {
      hide Linked, Sound, SizeClass.Valid, PoolNode.Payload, PoolNode.Pointer, Round16;
      var n := Meta(p, node);
      Sized(node);
      if n.size == size {
        RoundsUp(n.realsize);
        IssuedFacts(node);
        Record(at[n.size], n, size, poolSet, at, nodes, regions, live, issued);
        return p, node;
      }
      q, dst := Replace(p, size, node);
    }
  }

  method NewClass(size: int) returns (c: SizeClass)
    requires size > 0
    ensures c.Valid() && c.size == size && fresh(c) && c.next == null && fresh(c.nodes) && fresh(c.regions)
    ensures c.live == {} && c.issued == {}
  {
    hide SizeClass.Lists, SizeClass.Memory;
    c := new SizeClass(size);
    c.CreateBucket();
  }
}
