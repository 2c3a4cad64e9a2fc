/** src/ringbuffer.c: the list of slots waiting to be sent, and the buffer that accumulates received bytes. */
module RingBuffer {
  import opened Bytes

  // ----- what the send queue means

  /** A queued buffer and how many of its bytes went out already. */
  datatype Entry = Entry(buf: bytes, sent: nat)

  predicate WellFormed(q: seq<Entry>) {
    forall i :: 0 <= i < |q| ==>
      && (q[i].sent == 0 || q[i].sent < |q[i].buf|)
      && (i > 0 ==> q[i].sent == 0)
  }

  /** The bytes gc_ringbuffer_send_next offers. */
  function Offered(q: seq<Entry>): bytes
    requires WellFormed(q)
  {
    if q == [] then [] else q[0].buf[q[0].sent..]
  }

  function Appended(q: seq<Entry>, buf: bytes): seq<Entry> { q + [Entry(buf, 0)] }

  /** `t` more bytes of the head are sent. */
  function Advanced(q: seq<Entry>, t: nat): seq<Entry>
    requires q != []
  {
    q[0 := q[0].(sent := q[0].sent + t)]
  }

  /** A head that is used up goes. */
  function Popped(q: seq<Entry>): seq<Entry>
  {
    if q != [] && q[0].sent == |q[0].buf| then q[1..] else q
  }

  function Skipped(q: seq<Entry>, t: nat): (r: seq<Entry>)
    requires WellFormed(q) && q != [] && t <= |Offered(q)|
    ensures WellFormed(r)
  {
    Popped(Advanced(q, t))
  }

  /** Everything still to be sent, in order. */
  function Pending(q: seq<Entry>): bytes
    requires WellFormed(q)
  {
    if q == [] then [] else q[0].buf[q[0].sent..] + Pending(q[1..])
  }

  lemma {:induction false} PendingAppended(q: seq<Entry>, buf: bytes)
    requires WellFormed(q)
    ensures WellFormed(Appended(q, buf))
    ensures Pending(Appended(q, buf)) == Pending(q) + buf
  {
    var r := Appended(q, buf);
    if q == [] {
      assert r[1..] == [];
      assert Pending(r) == r[0].buf[r[0].sent..] + Pending([]);
    } else {
      assert r[1..] == Appended(q[1..], buf);
      PendingAppended(q[1..], buf);
    }
  }

  /** Skipping takes exactly the first bytes offered off the front. */
  lemma PendingSkipped(q: seq<Entry>, t: nat)
    requires WellFormed(q) && q != [] && t <= |Offered(q)|
    ensures Pending(q) == Offered(q)[..t] + Pending(Skipped(q, t))
  {
    var r, o := Skipped(q, t), Offered(q);
    if q[0].sent + t == |q[0].buf| {
      assert o[..t] == o;
    } else {
      assert r[1..] == q[1..] && Offered(r) == o[t..];
      SplitAt(o, t, Pending(q[1..]));
    }
  }

  lemma SplitAt(o: bytes, t: nat, rest: bytes)
    requires t <= |o|
    ensures o + rest == o[..t] + (o[t..] + rest)
  {
    assert o == o[..t] + o[t..];
  }

  /** What was appended is what was skipped and what is pending. */
  predicate Fifo(appended: bytes, skipped: bytes, q: seq<Entry>) {
    WellFormed(q) && appended == skipped + Pending(q)
  }

  lemma FifoSkipped(appended: bytes, skipped: bytes, q: seq<Entry>, t: nat)
    requires Fifo(appended, skipped, q) && q != [] && t <= |Offered(q)|
    ensures Fifo(appended, skipped + Offered(q)[..t], Skipped(q, t))
  {
    PendingSkipped(q, t);
    hide Pending, Offered, Skipped;
    var x, y := Offered(q)[..t], Pending(Skipped(q, t));
    assert skipped + (x + y) == (skipped + x) + y;
  }

  lemma FifoAppended(appended: bytes, skipped: bytes, q: seq<Entry>, buf: bytes)
    requires Fifo(appended, skipped, q)
    ensures Fifo(appended + buf, skipped, Appended(q, buf))
  {
    PendingAppended(q, buf);
    hide Pending, Appended;
    assert skipped + (Pending(q) + buf) == (skipped + Pending(q)) + buf;
  }

  /** The queue offers nothing while bytes wait exactly when an empty buffer stands at its head. */
  predicate Stalled(q: seq<Entry>) { q != [] && q[0].buf == [] }

  lemma StalledIffNothingOffered(q: seq<Entry>)
    requires WellFormed(q)
    ensures Stalled(q) <==> q != [] && Offered(q) == []
  {
  }

  // ----- the linked list

  class Slot {
    var buf: bytes
    var len: int
    var sent: int
    var next: Slot?

    constructor (data: bytes)
      ensures buf == data && len == |data| && sent == 0 && next == null
    {
      buf, len, sent, next := data, |data|, 0, null;
    }
  }

  class SendQueue {
    var send: Slot?
    var tail: Slot?
    ghost var slots: seq<Slot>
    /** What the slots hold. */
    ghost var queue: seq<Entry>
    /** The slots returned to the pool. */
    ghost var freed: set<Slot>
    /** All bytes ever appended, and all bytes ever skipped. */
    ghost var appended: bytes
    ghost var skipped: bytes

    /** An acyclic list from `send` to `tail`. */
    ghost predicate Linked()
      reads this`send, this`tail, this`slots, slots`next
    {
      && (forall i, j :: 0 <= i < j < |slots| ==> slots[i] != slots[j])
      && (forall i, j {:trigger slots[i], slots[j]} :: 0 <= i && j == i + 1 && j < |slots| ==> slots[i].next == slots[j])
      && (slots != [] ==> slots[|slots| - 1].next == null)
      && send == (if slots == [] then null else slots[0])
      && tail == (if slots == [] then null else slots[|slots| - 1])
    }

    ghost predicate Holds()
      reads this`slots, this`queue, this`freed, slots`buf, slots`len, slots`sent
    {
      && |slots| == |queue|
      && (forall i {:trigger slots[i]} :: 0 <= i < |slots| ==>
            && slots[i] !in freed
            && slots[i].buf == queue[i].buf
            && slots[i].len == |queue[i].buf|
            && slots[i].sent == queue[i].sent)
    }

    /** A FIFO: what went in is what came out and what is pending. */
    ghost predicate Valid()
      reads this, slots
    {
      Linked() && Holds() && WellFormed(queue) && Fifo(appended, skipped, queue)
    }

    lemma HeadFacts()
      requires Valid()
      ensures send == null <==> queue == []
      ensures send != null ==> slots != [] && send == slots[0]
    {
    }

    constructor ()
      ensures Valid() && queue == [] && appended == skipped == []
    {
      send, tail, slots, queue, freed := null, null, [], [], {};
      appended, skipped := [], [];
    }

    /** gc_ringbuffer_send_next */
    method SendNext() returns (next: bytes, size: int)
      requires Valid()
      ensures size == |next| && next == Offered(queue)
    {
      if send == null {
        return [], 0;
      }
      return send.buf[send.sent..], send.len - send.sent;
    }

    /** gc_ringbuffer_send_skip */
    method SendSkip(offset: int)
      requires Valid() && queue != [] && 0 <= offset <= |Offered(queue)|
      modifies this, send
      ensures Valid() && queue == Skipped(old(queue), offset)
      ensures slots == old(slots) || slots == old(slots)[1..]
      ensures appended == old(appended) && skipped == old(skipped) + Offered(old(queue))[..offset]
    {
      hide Fifo, Offered, WellFormed, Advanced, Popped, SendQueue.Linked, SendQueue.Holds;
      HeadFacts();
      FifoSkipped(appended, skipped, queue, offset);
      skipped := skipped + Offered(queue)[..offset];
      AdvanceHead(offset);
      Next();
    }

    method AdvanceHead(offset: nat)
      requires Linked() && Holds() && queue != []
      modifies this`queue, send
      ensures Linked() && Holds() && queue == Advanced(old(queue), offset)
    {
      queue := Advanced(queue, offset);
      send.sent := send.sent + offset;
    }

    /** gc_ringbuffer_next */
    method Next()
      requires Linked() && Holds()
      modifies this`send, this`tail, this`slots, this`queue, this`freed
      ensures Linked() && Holds() && queue == Popped(old(queue))
      ensures slots == old(slots) || slots == old(slots)[1..]
    {
      if send != null && send.sent == send.len {
        var next := send.next;
        freed := freed + {send};
        send := next;
        if send == null {
          tail := null;
        }
        slots, queue := slots[1..], queue[1..];
      }
    }

    /** gc_ringbuffer_send_is_empty */
    method SendIsEmpty() returns (empty: bool)
      requires Valid()
      ensures empty <==> queue == []
    {
      empty := send == null;
    }

    /** gc_ringbuffer_send_size: the lengths of the queued buffers, bytes already sent included. */
    method SendSize() returns (size: int)
      requires Valid()
      ensures size == TotalLength(queue)
    {
      size := 0;
      var r := send;
      ghost var i := 0;
      while r != null
        invariant 0 <= i <= |slots|
        invariant r == if i < |slots| then slots[i] else null
        invariant size + TotalLength(queue[i..]) == TotalLength(queue)
        decreases |slots| - i
      {
        assert queue[i..][0] == queue[i] && queue[i..][1..] == queue[i + 1..];
        size := size + r.len;
        r := r.next;
        i := i + 1;
      }
    }

    /** gc_ringbuffer_send_append */
    method SendAppend(buf: bytes)
      requires Valid()
      modifies this, tail
      ensures Valid() && queue == Appended(old(queue), buf)
      ensures appended == old(appended) + buf && skipped == old(skipped)
    {
      FifoAppended(appended, skipped, queue, buf);
      hide Fifo, WellFormed;
      var slot := new Slot(buf);
      appended := appended + buf;
      queue := Appended(queue, buf);
      if send == null && tail == null {
        send, tail := slot, slot;
      } else {
        tail.next := slot;
        tail := slot;
      }
      slots := slots + [slot];
      assert Linked();
      assert Holds();
    }

    /**
     * gc_ringbuffer_send_pop_all: every slot goes back to the pool, `send` and `tail` keep pointing at them.
     * So the queue can be used again exactly if it was empty.
     */
    method SendPopAll()
      requires Linked() && Holds()
      modifies this`freed
      ensures forall i :: 0 <= i < |slots| ==> slots[i] in freed
      ensures Linked()
      ensures Holds() <==> queue == []
    {
      var r := send;
      ghost var i := 0;
      while r != null
        invariant 0 <= i <= |slots|
        invariant r == if i < |slots| then slots[i] else null
        invariant i == 0 ==> freed == old(freed)
        invariant forall k :: 0 <= k < i ==> slots[k] in freed
        decreases |slots| - i
      {
        freed := freed + {r};
        r := r.next;
        i := i + 1;
      }
    }
  }

  function TotalLength(q: seq<Entry>): nat
  {
    if q == [] then 0 else |q[0].buf| + TotalLength(q[1..])
  }

  /** The reported size exceeds what is left to send by what the head has already sent. */
  lemma {:induction false} TotalLengthOverPending(q: seq<Entry>)
    requires WellFormed(q)
    ensures TotalLength(q) == |Pending(q)| + if q == [] then 0 else q[0].sent
  {
    if q != [] {
      TotalLengthOverPending(q[1..]);
    }
  }

  // ----- the accumulator

  class RecvBuffer {
    var buf: array?<byte>
    var len: int
    var target: int32

    ghost predicate Valid()
      reads this, buf
    {
      0 <= len && (buf == null ==> len == 0) && (buf != null ==> buf.Length == len)
    }

    ghost function Data(): bytes
      requires Valid()
      reads this, buf
    {
      if buf == null then [] else buf[..len]
    }

    constructor ()
      ensures Valid() && Data() == [] && target == 0
    {
      buf, len, target := null, 0, 0;
    }

    /** gc_ringbuffer_recv_append of the first |tmp| bytes of the read buffer. */
    method RecvAppend(tmp: bytes)
      requires Valid()
      modifies this
      ensures Valid() && fresh(buf) && Data() == old(Data()) + tmp && target == old(target)
    {
      var block := new byte[len + |tmp|];
      if buf != null {
        Copy(block, 0, buf[..len]);
      }
      Copy(block, len, tmp);
      assert block[..len] == Data();
      buf := block;
      len := len + |tmp|;
    }

    /** gc_ringbuffer_recv_pop: everything buffered goes, used or not. */
    method RecvPop()
      requires Valid()
      modifies this
      ensures Valid() && Data() == [] && target == 0
    {
      len, target := 0, 0;
      if buf != null {
        buf := null;
      }
    }
  }
}
