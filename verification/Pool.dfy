/**
 * One size class of the pool allocator (src/pool.c): its nodes, its free list, and the memory its nodes describe.
 *
 * The shipped build defines POOL_STDLIB (src/include/pool.h:24), under which hm_palloc, hm_prealloc and hm_pfree are
 * malloc, realloc and free and none of this runs. The model is of the allocator behind that switch.
 */
module Pool {
  import opened Bytes

  const BUCKET_MAX := 2
  /** sizeof(void *) */
  const WORD := 8

  /** ROUND16 */
  function Round16(n: int): int { (n + 15) / 16 * 16 }

  lemma RoundsUp(n: int)
    ensures n <= Round16(n) < n + 16 && Round16(n) % 16 == 0 && Round16(Round16(n)) == Round16(n)
  {
  }

  /** A byte of memory: data, or byte k of the pointer that names a node. */
  datatype Cell = Data(b: byte) | Meta(node: PoolNode, k: nat)

  /** A pointer handed to a caller. */
  datatype Ptr = Null | At(region: array<Cell>, off: int)

  class PoolNode {
    const region: array<Cell>
    /** Which of the bucket's two blocks. */
    const slot: nat
    const size: int
    var realsize: int
    var used: bool
    var next: PoolNode?

    /** pool_create_bucket leaves `used` as malloc found it. */
    constructor (region: array<Cell>, slot: nat, size: int)
      ensures this.region == region && this.slot == slot && this.size == size && realsize == 0 && next == null
    {
      this.region, this.slot, this.size := region, slot, size;
      realsize, next := 0, null;
    }

    /** node->ptr: the metadata word, and behind it the block. */
    function Base(): int { if slot == 0 then 0 else WORD + size }

    function Start(): int { Base() + WORD }

    /** The bytes of the block. */
    function Payload(): seq<Cell>
      reads region
    {
      if 0 <= Start() <= Start() + size <= region.Length then region[Start()..Start() + size] else []
    }

    function Pointer(): Ptr { At(region, Start()) }

    /** The block lies in its region, and the word before it names the node. */
    ghost predicate LaidOut()
      reads region
    {
      && slot < BUCKET_MAX && size >= 0
      && region.Length == BUCKET_MAX * (WORD + size)
      && forall k :: Base() <= k < Base() + WORD ==> region[k] == Meta(this, k - Base())
    }
  }

  /** get_meta */
  function GetMeta(p: Ptr): PoolNode
    requires p.At? && WORD <= p.off <= p.region.Length && p.region[p.off - WORD].Meta?
    reads p.region
  {
    p.region[p.off - WORD].node
  }

  lemma MetaNamesNode(n: PoolNode)
    requires n.LaidOut()
    ensures var p := n.Pointer();
      WORD <= p.off <= p.region.Length && p.region[p.off - WORD].Meta? && GetMeta(p) == n
  {
  }

  class SizeClass {
    const size: int
    var used: int
    var freenode: PoolNode?
    var next: SizeClass?

    ghost var nodes: set<PoolNode>
    ghost var regions: set<array<Cell>>
    /** The free list, from `freenode`. */
    ghost var free: seq<PoolNode>
    ghost var live: set<PoolNode>
    /** Nodes that were handed out at least once. */
    ghost var issued: set<PoolNode>

    constructor (size: int)
      requires size >= 0
      ensures this.size == size && next == null && Lists() && Memory() && Flags()
      ensures size == 0 ==> Valid()
      ensures nodes == {} && regions == {} && free == [] && live == {} && issued == {} && used == 0
    {
      this.size, used, freenode, next := size, 0, null, null;
      nodes, regions, free, live, issued := {}, {}, [], {}, {};
    }

    /** The free list is acyclic, and every node is on it or live, not both. */
    ghost predicate Lists()
      reads this`freenode, this`nodes, this`free, this`live, nodes`next
    {
      FreeList(freenode, nodes, free, live)
    }

    static ghost predicate FreeList(freenode: PoolNode?, nodes: set<PoolNode>, free: seq<PoolNode>, live: set<PoolNode>)
      reads nodes`next
    {
      && live <= nodes
      && (forall n :: n in nodes ==> n in live || n in free)
      && (forall n :: n in free ==> n in nodes && n !in live)
      && (forall i, j :: 0 <= i < j < |free| ==> free[i] != free[j])
      && (forall i, j {:trigger free[i], free[j]} :: 0 <= i && j == i + 1 && j < |free| ==> free[i].next == free[j])
      && (free != [] ==> free[|free| - 1].next == null)
      && freenode == (if free == [] then null else free[0])
    }

    /** Every node has a block of this class in one of the regions, and no two nodes have the same. */
    ghost predicate Memory()
      reads this`nodes, this`regions, regions
    {
      && (forall n :: n in nodes ==> n.size == size && n.region in regions && n.LaidOut())
      && (forall r :: r in regions ==> r.Length == BUCKET_MAX * (WORD + size))
      && (forall m, n :: m in nodes && n in nodes && m != n ==> m.region != n.region || m.slot != n.slot)
    }

    /** A live node is marked used; one that was handed out and came back is not. `used` counts the live ones. */
    ghost predicate Flags()
      reads this`used, this`nodes, this`live, this`issued, nodes`used, nodes`realsize
    {
      && used == |live| && live <= issued <= nodes
      && (forall n :: n in live ==> n.used && 0 < n.realsize <= size && size == Round16(n.realsize))
      && (forall n :: n in issued && n !in live ==> !n.used)
    }

    /** The same while n is being handed out. */
    ghost predicate FlagsBut(n: PoolNode)
      reads this`used, this`nodes, this`live, this`issued, nodes`used, nodes`realsize
    {
      && n in live && n in nodes && used + 1 == |live| && live <= issued + {n} && issued <= nodes
      && (forall m :: m in live && m != n ==> m.used && 0 < m.realsize <= size && size == Round16(m.realsize))
      && (forall m :: m in issued && m !in live ==> !m.used)
    }

    ghost predicate Valid()
      reads this`used, this`freenode, this`nodes, this`regions, this`free, this`live, this`issued
      reads nodes`next, nodes`used, nodes`realsize, regions
    {
      && size >= 0 && Lists() && Memory() && Flags()
      && (size == 0 ==> nodes == {} && regions == {})
      && (size > 0 ==> free != [])
    }

    lemma FreeNode()
      requires Valid() && size > 0
      ensures freenode != null && free != [] && freenode == free[0] && freenode in nodes && freenode !in live
    {
    }

    lemma NodeSizes()
      requires Valid()
      ensures live <= issued <= nodes
      ensures forall n :: n in nodes ==> n.size == size && n.region in regions
    {
    }

    /** The body of the loop in pool_create_bucket: block i of the region gets its word and goes to the free list. */
    method Carve(region: array<Cell>, i: nat)
      requires i < BUCKET_MAX && size > 0 && region.Length == BUCKET_MAX * (WORD + size)
      requires Lists() && Memory() && region in regions
      requires forall n :: n in nodes && n.region == region ==> n.slot < i
      modifies this`freenode, this`nodes, this`free, region
      ensures Lists() && Memory()
      ensures |free| == |old(free)| + 1 && free[1..] == old(free)
      ensures fresh(free[0]) && free[0].region == region && free[0].slot == i
      ensures nodes == old(nodes) + {free[0]}
    {
      var node := new PoolNode(region, i, size);
      WriteMeta(node);
      node.next := freenode;
      freenode := node;
      free := [node] + free;
      nodes := nodes + {node};
    }

    /** pool_create_bucket: a region for two more blocks. */
    method CreateBucket()
      requires size > 0 && Lists() && Memory()
      modifies this`freenode, this`nodes, this`free, this`regions
      ensures Lists() && Memory() && free != []
      ensures old(nodes) <= nodes && old(regions) <= regions
      ensures fresh(nodes - old(nodes)) && fresh(regions - old(regions))
    {
      hide SizeClass.Lists;
      var region := new Cell[BUCKET_MAX * (WORD + size)](_ => Data(0));
      regions := regions + {region};
      var i := 0;
      while BUCKET_MAX > i
        invariant 0 <= i <= BUCKET_MAX && (i > 0 ==> free != [])
        invariant Lists() && Memory() && regions == old(regions) + {region}
        invariant old(nodes) <= nodes && fresh(nodes - old(nodes))
        invariant forall n :: n in nodes && n.region == region ==> n.slot < i
      {
        Carve(region, i);
        i := i + 1;
      }
    }

    /** pool_get_node: the first free node, for a request of `realsize` bytes. The list is refilled when it runs out. */
    method GetNode(realsize: int) returns (p: Ptr, ghost node: PoolNode)
      requires Valid() && freenode != null && 0 < realsize && size == Round16(realsize)
      modifies this`used, this`freenode, this`nodes, this`regions, this`free, this`live, this`issued
      modifies freenode`used, freenode`realsize
      ensures Valid() && node == old(free[0]) && p == node.Pointer() && node.realsize == realsize
      ensures live == old(live) + {node} && node !in old(live) && issued == old(issued) + {node}
      ensures old(nodes) <= nodes && old(regions) <= regions
      ensures fresh(nodes - old(nodes)) && fresh(regions - old(regions))
    {
      hide SizeClass.Lists, SizeClass.Memory, SizeClass.Flags, SizeClass.FlagsBut, PoolNode.LaidOut;
      var n := Take();
      node := n;
      Mark(n, realsize);
      p := At(n.region, n.Start());
    }

    method Take() returns (n: PoolNode)
      requires size > 0 && Lists() && Memory() && Flags() && free != []
      modifies this`freenode, this`nodes, this`regions, this`free, this`live
      ensures Lists() && Memory() && FlagsBut(n) && n == old(freenode) == old(free[0]) && free != []
      ensures live == old(live) + {n} && n !in old(live)
      ensures old(nodes) <= nodes && old(regions) <= regions
      ensures fresh(nodes - old(nodes)) && fresh(regions - old(regions))
    {
      hide SizeClass.Lists, SizeClass.Memory, SizeClass.Flags, SizeClass.FlagsBut, PoolNode.LaidOut;
      n := Pop();
      Refill(n);
    }

    /** A new bucket if the node taken was the last free one. */
    method Refill(n: PoolNode)
      requires size > 0 && Lists() && Memory() && FlagsBut(n) && (n.next != null ==> free != [])
      modifies this`freenode, this`nodes, this`free, this`regions
      ensures Lists() && Memory() && FlagsBut(n) && free != []
      ensures old(nodes) <= nodes && old(regions) <= regions
      ensures fresh(nodes - old(nodes)) && fresh(regions - old(regions))
    {
      if n.next == null {
        CreateBucket();
      }
    }

    static lemma HeadTaken(freenode: PoolNode?, nodes: set<PoolNode>, free: seq<PoolNode>, live: set<PoolNode>)
      requires FreeList(freenode, nodes, free, live) && free != []
      ensures freenode == free[0] && free[0] in nodes && free[0] !in live
      ensures FreeList(free[0].next, nodes, free[1..], live + {free[0]})
      ensures free[0].next == null <==> free[1..] == []
    {
      var rest := free[1..];
      assert rest != [] ==> rest[|rest| - 1] == free[|free| - 1] && free[0].next == free[1];
      assert forall i :: 0 <= i < |rest| ==> rest[i] == free[i + 1];
      forall i, j {:trigger rest[i], rest[j]} | 0 <= i && j == i + 1 && j < |rest|
        ensures rest[i].next == rest[j]
      {
        assert free[i + 1].next == free[j + 1];
      }
    }

    method Pop() returns (n: PoolNode)
      requires Lists() && Memory() && Flags() && free != []
      modifies this`freenode, this`free, this`live
      ensures Lists() && Memory() && FlagsBut(n) && n == old(freenode) == old(free[0])
      ensures free == old(free)[1..] && live == old(live) + {n} && n !in old(live)
      ensures n.next == null ==> free == []
      ensures n.next != null ==> free != []
    {
      hide SizeClass.Memory, SizeClass.FreeList;
      HeadTaken(freenode, nodes, free, live);
      n := freenode;
      freenode := n.next;
      free, live := free[1..], live + {n};
    }

    method Mark(n: PoolNode, realsize: int)
      requires Lists() && Memory() && FlagsBut(n) && 0 < realsize && size == Round16(realsize)
      modifies this`used, this`issued, n`realsize, n`used
      ensures Lists() && Memory() && Flags() && n.realsize == realsize && issued == old(issued) + {n}
    {
      hide SizeClass.Memory, SizeClass.Lists;
      used := used + 1;
      n.realsize := realsize;
      n.used := true;
      issued := issued + {n};
    }

    /** The record of a live node's size, kept up to date. */
    static method Record(ghost c: SizeClass, node: PoolNode, realsize: int)
      requires c.Valid() && node in c.live && 0 < realsize && c.size == Round16(realsize)
      modifies node`realsize
      ensures c.Valid() && node.realsize == realsize
    {
      hide SizeClass.Lists, SizeClass.Memory, Round16;
      RoundsUp(realsize);
      node.realsize := realsize;
    }

    /** A caller writes one byte of the block it was given. */
    static method Store(p: Ptr, k: int, v: Cell, ghost c: SizeClass, ghost node: PoolNode)
      requires p == node.Pointer() && c.Valid() && node in c.live && node.LaidOut() && 0 <= k < node.size
      modifies node.region
      ensures c.Valid() && node.region in c.regions
      ensures node.region[..] == old(node.region[..])[node.Start() + k := v]
    {
      c.NodeSizes();
      hide SizeClass.Lists, SizeClass.Flags;
      p.region[p.off + k] := v;
    }

    /** The push in hm_pfree. */
    method PutBack(node: PoolNode)
      requires Valid() && node in live
      modifies this`used, this`freenode, this`free, this`live, node`used, node`next
      ensures Valid() && live == old(live) - {node} && free == [node] + old(free)
    {
      hide SizeClass.Memory;
      node.used := false;
      used := used - 1;
      Push(node);
    }

    method Push(node: PoolNode)
      requires Lists() && Memory() && node in live
      modifies this`freenode, this`free, this`live, node`next
      ensures Lists() && Memory() && live == old(live) - {node} && free == [node] + old(free)
    {
      hide SizeClass.Memory;
      node.next := freenode;
      freenode := node;
      free, live := [node] + free, live - {node};
    }
  }

  /** memcpy of the node's address to the start of its block. */
  method WriteMeta(node: PoolNode)
    requires node.slot < BUCKET_MAX && node.size >= 0 && node.region.Length == BUCKET_MAX * (WORD + node.size)
    modifies node.region
    ensures node.LaidOut()
    ensures forall k :: 0 <= k < node.region.Length && !(node.Base() <= k < node.Base() + WORD) ==>
      node.region[k] == old(node.region[k])
  {
    var base := node.Base();
    forall k | base <= k < base + WORD {
      node.region[k] := Meta(node, k - base);
    }
  }
}
