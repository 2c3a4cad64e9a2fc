/** The singly linked lists of src/endpoint.c and src/tunnel.c, which are walked with a pointer to the node before. */
module Links {
  import opened Wrappers

  class Link<T> {
    var item: T
    var next: Link?<T>

    constructor (item: T, next: Link?<T>)
      ensures this.item == item && this.next == next
    {
      this.item, this.next := item, next;
    }
  }

  ghost predicate Distinct<T>(links: seq<Link<T>>) { forall i, j :: 0 <= i < j < |links| ==> links[i] != links[j] }

  ghost predicate Chained<T>(links: seq<Link<T>>)
    reads links`next
  {
    && (forall i, j {:trigger links[i], links[j]} :: 0 <= i && j == i + 1 && j < |links| ==> links[i].next == links[j])
    && (links != [] ==> links[|links| - 1].next == null)
  }

  ghost predicate Holding<T>(links: seq<Link<T>>, items: seq<T>)
    reads links`item
  {
    |links| == |items| && forall i {:trigger links[i]} :: 0 <= i < |links| ==> links[i].item == items[i]
  }

  /** The list from `head` is acyclic, has these nodes, and holds these items. */
  ghost predicate IsList<T>(head: Link?<T>, links: seq<Link<T>>, items: seq<T>)
    reads links`next, links`item
  {
    head == NodeAt(links, 0) && Distinct(links) && Chained(links) && Holding(links, items)
  }

  /** Node i of a list, or its end. */
  ghost function NodeAt<T>(links: seq<Link<T>>, i: nat): Link?<T> { if i < |links| then links[i] else null }

  ghost function Before<T>(links: seq<Link<T>>, i: nat): Link?<T> { if 0 < i <= |links| then links[i - 1] else null }

  lemma ListAt<T>(head: Link?<T>, links: seq<Link<T>>, items: seq<T>, i: nat)
    requires IsList(head, links, items) && i < |links|
    ensures links[i].item == items[i] && links[i].next == NodeAt(links, i + 1)
    ensures head == NodeAt(links, 0)
  {
  }

  function Without<T>(items: seq<T>, i: nat): (r: seq<T>)
    requires i <= |items|
  {
    if i < |items| then items[..i] + items[i + 1..] else items
  }

  lemma MembersWithout<T>(links: seq<T>, i: nat)
    requires i < |links|
    ensures Members(Without(links, i)) <= Members(links)
  {
  }

  /** Of a list that only lost nodes, node i and the one before it were there. */
  lemma StillIn<T>(links: seq<Link<T>>, was: seq<Link<T>>, i: nat)
    requires Members(links) <= Members(was) && i < |links|
    ensures links[i] in was && (Before(links, i) != null ==> Before(links, i) in was)
  {
    assert links[i] in Members(links);
    if i > 0 {
      assert links[i - 1] in Members(links);
    }
  }

  lemma WithoutAt<T>(links: seq<T>, i: nat)
    requires i < |links|
    ensures |Without(links, i)| == |links| - 1
    ensures forall k :: 0 <= k < |links| - 1 ==> Without(links, i)[k] == links[if k < i then k else k + 1]
  {
  }

  lemma WithoutHolds<T>(links: seq<Link<T>>, items: seq<T>, i: nat)
    requires Holding(links, items) && Distinct(links) && i < |links|
    ensures Holding(Without(links, i), Without(items, i)) && Distinct(Without(links, i))
  {
    hide Without;
    WithoutAt(links, i);
    WithoutAt(items, i);
  }

  lemma WalkEnds<T>(links: seq<Link<T>>)
    ensures Before(links, 0) == null && forall i: nat :: i <= |links| ==> (NodeAt(links, i) == null <==> i == |links|)
  {
  }

  /** A walk at node i, and where it is when that node is taken out. */
  lemma NodeIs<T>(links: seq<Link<T>>, i: nat)
    requires i < |links|
    ensures NodeAt(links, i) == links[i] && Before(links, i + 1) == links[i]
    ensures NodeAt(Without(links, i), i) == NodeAt(links, i + 1) && Before(Without(links, i), i) == Before(links, i)
  {
  }

  /** Node i is taken out: the node before it, or the head, skips it. */
  method Unlink<T>(head: Link?<T>, prev: Link?<T>, ent: Link<T>, ghost links: seq<Link<T>>, ghost items: seq<T>,
                   ghost i: nat)
    returns (first: Link?<T>)
    requires IsList(head, links, items) && i < |links| && ent == links[i] && prev == Before(links, i)
    modifies (if prev == null then {} else {prev})`next
    ensures IsList(first, Without(links, i), Without(items, i))
  {
    hide Holding, Without;
    WithoutHolds(links, items, i);
    WithoutAt(links, i);
    ListAt(head, links, items, i);
    if prev != null {
      prev.next := ent.next;
      first := head;
    } else {
      first := ent.next;
    }
  }

  /** A new node before the others. */
  method Push<T>(head: Link?<T>, item: T, ghost links: seq<Link<T>>, ghost items: seq<T>)
    returns (first: Link<T>)
    requires IsList(head, links, items)
    ensures fresh(first) && IsList(first, [first] + links, [item] + items)
  {
    first := new Link(item, head);
  }

  /** An item changed in its node. */
  method Change<T>(ent: Link<T>, item: T, ghost head: Link?<T>, ghost links: seq<Link<T>>, ghost items: seq<T>, ghost i: nat)
    requires IsList(head, links, items) && i < |links| && ent == links[i]
    modifies ent`item
    ensures IsList(head, links, items[i := item])
  {
    ent.item := item;
  }
}
