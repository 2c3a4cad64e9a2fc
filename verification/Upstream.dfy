/** The upstream client's methods, each tied to the step of Wire.Link it performs. */
module Upstream {
  import opened Bytes
  import opened Codec
  import opened Drain
  import opened Process
  import opened Proto
  import opened RingBuffer
  import opened Wire

  /** enum gcerr_e, as far as this client reports it. */
  datatype Gcerr = WantShutdown | ReadZero | ReadFailed | WriteFailed | PacketExpected

  const GC_WRITE_ERR := 5

  class UpstreamClient {
    const rb: SendQueue
    const recv: RecvBuffer
    /** The write watcher is started. */
    var writing: bool
    /** What the socket took so far, what callback.data was given so far, and whether callback.error was called. */
    var wire: bytes
    var delivered: seq<bytes>
    var refused: bool
    ghost var lost: nat
    /** gc_sigterm, and the flag GC_WANT_SHUTDOWN */
    var sigterm: bool
    var wantShutdown: bool
    /** callback.terminate is set. */
    var terminates: bool
    /** The calls of callback.error and of callback.terminate, in order. */
    var errors: seq<Gcerr>
    var terminations: seq<int>

    ghost predicate Valid()
      reads this, rb, rb.slots, recv, recv.buf
    {
      rb.Valid() && recv.Valid() && (!refused ==> recv.target >= 0)
    }

    ghost function View(): (l: Link)
      requires Valid()
      reads this, rb, rb.slots, recv, recv.buf
      ensures WellFormed(l.queue)
    {
      Link(rb.queue, writing, wire, Accumulated(), refused, delivered, lost)
    }

    constructor ()
      ensures Valid() && View() == Start
    {
      rb := new SendQueue();
      recv := new RecvBuffer();
      writing, wire, delivered, refused, lost := false, [], [], false, 0;
      sigterm, wantShutdown, terminates, errors, terminations := false, false, false, [], [];
    }

    /** ev_send, through gc_ssl_ev_send */
    method EvSend(buf: bytes)
      requires Valid()
      modifies this`writing, rb, rb.tail
      ensures Valid() && View() == SendStep(old(View()), buf)
    {
      rb.SendAppend(buf);
      writing := true;
    }

    /** net_send */
    method NetSend(buffer: bytes)
      requires Valid() && |buffer| + 4 <= INT_MAX
      modifies this`writing, rb, rb.tail
      ensures Valid() && View() == SendStep(old(View()), Be32(|buffer|) + buffer)
    {
      var m := FrameOf(buffer);
      EvSend(m.s[..]);
    }

    /** gc_packet_send: serialised, framed and queued. */
    method PacketSend(m: Msg<bytes>) returns (code: int)
      requires Valid() && Framable(m)
      modifies this`writing, rb, rb.tail
      ensures code == 0 && Valid() && View() == Wire.Step(old(View()), Send(m))
    {
      var dst;
      code, dst := Serialize(m);
      if code == 0 {
        NetSend(dst.s[..]);
      }
    }

    /** The errno values after which the socket is only not ready. */
    static predicate Retries(errno: int) { errno == EAGAIN || errno == EINTR }

    /** The branch of async_write_ssl after bytes were taken. */
    method Took(bs: bytes) returns (empty: bool)
      requires Valid() && bs != [] && bs <= Offered(rb.queue)
      modifies this`writing, this`wire, rb, rb.send
      ensures Valid() && View() == WriteStep(old(View()), |bs|) && (empty <==> rb.queue == [])
    {
      hide Fifo, SendQueue.Linked, SendQueue.Holds, Skipped;
      wire := wire + bs;
      rb.SendSkip(|bs|);
      empty := rb.SendIsEmpty();
      if empty {
        writing := false;
      }
    }

    /** async_write_ssl; `ret` is what SSL_write returns and `errno` what it leaves, if it is called. */
    method AsyncWrite(ret: int, errno: int)
      requires Valid() && ret <= |Offered(rb.queue)|
      modifies this`writing, this`wire, this`errors, this`terminations, this`terminates, rb, rb.send
      ensures Valid()
      ensures old(sigterm || wantShutdown) ==> View() == old(View())
      ensures !old(sigterm || wantShutdown) ==> View() == WriteStep(old(View()), if ret > 0 then ret else 0)
      ensures errors == old(errors)
        + if old(sigterm) then []
          else if old(wantShutdown) then [WantShutdown]
          else if Offered(old(rb.queue)) == [] || ret > 0 || (ret == -1 && errno in {EAGAIN, EINTR}) then []
          else if old(terminates) then []
          else [WriteFailed]
      ensures terminations == old(terminations)
        + if old(sigterm || wantShutdown || !terminates) || Offered(old(rb.queue)) == [] then []
          else if ret > 0 then (if rb.queue == [] then [0] else [])
          else if ret == -1 && errno in {EAGAIN, EINTR} then []
          else [GC_WRITE_ERR]
      ensures terminates == (old(terminates) && terminations == old(terminations))
    {
      hide Fifo, SendQueue.Linked, SendQueue.Holds, Skipped;
      if sigterm {
        return;
      }
      if wantShutdown {
        errors := errors + [WantShutdown];
        return;
      }
      var next, size := rb.SendNext();
      if size == 0 {
        writing := false;
        return;
      }
      if ret > 0 {
        var empty := Took(next[..ret]);
        if empty && terminates {
          terminations := terminations + [0];
          terminates := false;
        }
      } else if ret == -1 && Retries(errno) {
      } else if terminates {
        terminations := terminations + [GC_WRITE_ERR];
        terminates := false;
      } else {
        errors := errors + [WriteFailed];
      }
    }

    /** async_read_ssl; `ret` is what SSL_read returns, and `tmp` what it read into the buffer. */
    method AsyncRead(ret: int, errno: int, tmp: bytes)
      requires Valid() && !refused && |tmp| == (if ret > 0 then ret else 0)
      modifies this`delivered, this`refused, this`lost, this`errors, recv
      ensures Valid()
      ensures old(sigterm || wantShutdown) || ret <= 0 ==> View() == old(View())
      ensures !old(sigterm || wantShutdown) && ret > 0 ==> View() == ReadStep(old(View()), tmp)
      ensures errors == old(errors)
        + if old(sigterm) then []
          else if old(wantShutdown) then [WantShutdown]
          else if ret > 0 then (if refused then [PacketExpected] else [])
          else if ret == 0 then [ReadZero]
          else if ret == -1 && errno in {EAGAIN, EINTR} then []
          else [ReadFailed]
    {
      hide Fifo, SendQueue.Linked, SendQueue.Holds, Reassemble;
      if sigterm {
        return;
      }
      if wantShutdown {
        errors := errors + [WantShutdown];
        return;
      }
      if ret > 0 {
        recv.RecvAppend(tmp);
        assert Accumulated() == Recv(old(View().recv.buf) + tmp, old(recv.target));
        RecvAppend();
      } else if ret == 0 {
        errors := errors + [ReadZero];
      } else if ret == -1 && Retries(errno) {
      } else {
        errors := errors + [ReadFailed];
      }
    }

    ghost function Accumulated(): Recv
      requires recv.Valid()
      reads this, recv, recv.buf
    {
      Recv(recv.Data(), recv.target)
    }

    /** recv_append of src/async_client.c */
    method RecvAppend()
      requires recv.Valid() && recv.target >= 0 && !refused
      modifies this`delivered, this`refused, this`lost, this`errors, recv
      ensures errors == old(errors) + if refused then [PacketExpected] else []
      ensures recv.Valid() && Accumulated() == Reassemble(old(Accumulated())).0
      ensures refused == Reassemble(old(Accumulated())).1.Refuse? && (!refused ==> recv.target >= 0)
      ensures lost == old(lost) + Discarded(old(Accumulated()))
      ensures delivered == match Reassemble(old(Accumulated())).1 {
        case Deliver(frame) => old(delivered) + [frame]
        case _ => old(delivered)
      }
    {
      hide FromBe32, Wrap32, Target;
      ghost var got := Accumulated();
      lost := lost + Discarded(got);
      var valid := FindTarget();
      if !valid {
        refused := true;
        errors := errors + [PacketExpected];
        return;
      }
      Complete(got);
    }

    /** The first half of recv_append: once more than two words are there the target is read from the first. */
    method FindTarget() returns (valid: bool)
      requires recv.Valid() && recv.target >= 0
      modifies recv`target
      ensures recv.Valid() && recv.Data() == old(recv.Data()) && recv.target == Target(old(Accumulated()))
      ensures valid == !(old(recv.target) == 0 && |recv.Data()| > 8 && recv.target <= 0)
      ensures valid ==> recv.target >= 0
    {
      if recv.target == 0 && recv.len > 2 * 4 {
        var value := LoadTarget();
        recv.target := Wrap32(value as int + 4);
        return recv.target > 0;
      }
      return true;
    }

    /** The second half of recv_append: the frame is handed over once it is whole, and the accumulator emptied. */
    method Complete(ghost got: Recv)
      requires recv.Valid() && recv.Data() == got.buf && recv.target >= 0
      modifies this`delivered, recv
      ensures recv.Valid()
      ensures if old(recv.target) != 0 && old(recv.target) <= |got.buf|
        then recv.Data() == [] && recv.target == 0 && delivered == old(delivered) + [got.buf[..old(recv.target)]]
        else recv.Data() == got.buf && recv.target == old(recv.target) && delivered == old(delivered)
    {
      if recv.target != 0 && recv.target <= recv.len {
        var net := recv.buf[..recv.target];
        assert net == got.buf[..recv.target];
        recv.RecvPop();
        delivered := delivered + [net];
      }
    }

    method LoadTarget() returns (value: int32)
      requires recv.Valid() && recv.len >= 4
      ensures value == FromBe32(recv.Data()[..4])
    {
      hide FromLe32, Reversed, Swapped;
      var local := new byte[4];
      Copy(local, 0, recv.buf[..4]);
      ghost var word := recv.Data()[..4];
      assert local[..] == word;
      SwapMemory(local, 0, 4);
      SwappedWhole(word);
      value := FromLe32(local[..]);
    }
  }

  /** The buffer net_send makes: the length, swapped, then the bytes. */
  method FrameOf(buffer: bytes) returns (m: Sn)
    requires |buffer| + 4 <= INT_MAX
    ensures fresh(m) && fresh(m.s) && m.s[..] == Be32(|buffer|) + buffer
  {
    m := new Sn.Room(|buffer| + 4);
    var len := SwappedLength(|buffer|);
    m.MemoryAppend(len[..]);
    m.MemoryAppend(buffer);
    assert m.s[..] == m.s[..m.offset];
  }

  method SwappedLength(n: int32) returns (len: array<byte>)
    ensures fresh(len) && len[..] == Be32(n)
  {
    hide Le32, Reversed, Swapped;
    len := new byte[4];
    Copy(len, 0, Le32(n));
    assert len[..] == Le32(n);
    SwapMemory(len, 0, 4);
    SwappedWhole(Le32(n));
  }

  function Half(size: int): int { if size > 1 then size / 2 else 1 }

  /** The send loop of test/rb/main.c: half of what is offered goes out each time, until the queue is empty. */
  method DrainByHalves(rb: SendQueue)
    requires rb.Valid() && NoEmpty(rb.queue)
    modifies rb, rb.slots
    ensures rb.Valid() && rb.queue == []
    ensures rb.skipped == rb.appended == old(rb.appended)
  {
    hide Fifo, SendQueue.Linked, SendQueue.Holds, Skipped, Pending;
    ghost var slots := rb.slots;
    var empty := rb.SendIsEmpty();
    while !empty
      invariant rb.Valid() && NoEmpty(rb.queue)
      invariant empty <==> rb.queue == []
      invariant rb.appended == old(rb.appended)
      invariant |rb.slots| <= |slots| && rb.slots == slots[|slots| - |rb.slots|..]
      decreases |Pending(rb.queue)|
    {
      rb.HeadFacts();
      ghost var q := rb.queue;
      var _, size := rb.SendNext();
      size := Half(size);
      HeadOffers(q, size);
      rb.SendSkip(size);
      empty := rb.SendIsEmpty();
    }
    FifoDrained(rb.appended, rb.skipped);
  }

  lemma FifoDrained(appended: bytes, skipped: bytes)
    requires Fifo(appended, skipped, [])
    ensures appended == skipped
  {
  }

  lemma HeadOffers(q: seq<Entry>, t: int)
    requires WellFormed(q) && NoEmpty(q) && q != [] && t == Half(|Offered(q)|)
    ensures 1 <= t <= |Offered(q)|
    ensures NoEmpty(Skipped(q, t)) && |Pending(Skipped(q, t))| < |Pending(q)|
  {
    PendingSkipped(q, t);
  }
}
