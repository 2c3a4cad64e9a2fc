/**
 * Which slot a pair reply is for, by what the configuration says of the slots, and that asking and being answered ends:
 * devices_pair and device_pair_reply of src/gcapi.c, port_update of src/tunnel.c.
 */
module Pairing {
  import opened Bytes
  import opened Headers
  import opened Locals
  import opened Pairs
  import opened Ports
  import opened Process
  import opened Proto
  import opened Wrappers

  /** What a slot goes by: cloud, device, remote port and local port as printed. */
  function NamesOf(s: Slot): (bytes, bytes, bytes, bytes) { (s.cloud, s.device, SnItoa(s.port), SnItoa(s.portLocal)) }

  /** What a pair is for. */
  function NamesIn(p: Pair): (bytes, bytes, bytes, bytes) { (p.cloud, p.device, p.portRemote, p.portLocal) }

  /** Slot k has the names, and no slot before it has them. */
  predicate FirstNamed(slots: seq<Slot>, names: (bytes, bytes, bytes, bytes), k: int)
  {
    0 <= k < |slots| && NamesOf(slots[k]) == names && forall j :: 0 <= j < k ==> NamesOf(slots[j]) != names
  }

  /** The slots after the first of that name was given a pid. */
  function PidGiven(slots: seq<Slot>, names: (bytes, bytes, bytes, bytes), pid: bytes): (r: seq<Slot>)
    ensures |r| == |slots|
  {
    seq(|slots|, k requires 0 <= k < |slots| => if FirstNamed(slots, names, k) then slots[k].(pid := pid) else slots[k])
  }

  function PortGiven(slots: seq<Slot>, names: (bytes, bytes, bytes, bytes), port: int): (r: seq<Slot>)
    ensures |r| == |slots|
  {
    seq(|slots|, k requires 0 <= k < |slots| =>
      if FirstNamed(slots, names, k) then slots[k].(portLocal := port) else slots[k])
  }

  // ----- the search

  lemma SearchIs(slots: seq<Slot>, pair: Pair)
    ensures forall k :: 0 <= k < |slots| ==> (k == SlotFor(slots, pair) <==> FirstNamed(slots, NamesIn(pair), k))
  {
    hide SlotFor, SnItoa;
    var i := SlotFor(slots, pair);
    forall k | 0 <= k < |slots|
      ensures k == i <==> FirstNamed(slots, NamesIn(pair), k)
    {
      WantedIs(slots, pair);
      if FirstNamed(slots, NamesIn(pair), k) {
        SlotForIs(slots, pair, k);
      }
    }
  }

  lemma WantedIs(slots: seq<Slot>, pair: Pair)
    ensures forall k :: 0 <= k < |slots| ==> (Wanted(slots[k], pair) <==> NamesOf(slots[k]) == NamesIn(pair))
  {
    hide SnItoa;
  }

  lemma PortUpdatedIs(slots: seq<Slot>, pair: Pair, newLocal: bytes)
    ensures PortUpdated(slots, pair, newLocal) == PortGiven(slots, NamesIn(pair), SnAtoi(newLocal, 8))
    ensures PairUpdated(slots, pair, newLocal)
      == if exists k :: FirstNamed(slots, NamesIn(pair), k) then pair.(portLocal := newLocal) else pair
  {
    hide SlotFor, FirstNamed, SnAtoi;
    SearchIs(slots, pair);
    InRange(slots, NamesIn(pair));
    var i := SlotFor(slots, pair);
    assert i < |slots| ==> FirstNamed(slots, NamesIn(pair), i);
  }

  lemma InRange(slots: seq<Slot>, names: (bytes, bytes, bytes, bytes))
    ensures forall k :: FirstNamed(slots, names, k) ==> 0 <= k < |slots|
  {
  }

  /**
   * A reply whose pair names a local port: the pid of a slot changes exactly if the slot has the four names of the pair
   * and no slot before it has them.
   */
  lemma PidGoesToFirst(ps: Pairs, pair: Pair, local: bytes, device: bytes)
    requires pair.kind != FORCED && SnAtoi(pair.portLocal, 32) != 0 && PairFits(pair)
    ensures Replied(ps, pair, local, device).slots == PidGiven(ps.slots, NamesIn(pair), pair.pid)
  {
    hide SlotFor, FirstNamed, SnAtoi, FORCED, PairFits, Linked;
    SearchIs(ps.slots, pair);
  }

  /**
   * A reply whose pair takes any local port: the first slot of its names learns the port the server got, and the pair
   * then goes by that port; the pid goes to the first slot of these names.
   */
  lemma PortThenPid(ps: Pairs, pair: Pair, local: bytes, device: bytes) returns (asked: Pair)
    requires pair.kind != FORCED && SnAtoi(pair.portLocal, 32) == 0 && PairFits(pair) && |local| <= SNB_MAX
    ensures asked == if exists k :: FirstNamed(ps.slots, NamesIn(pair), k) then pair.(portLocal := local) else pair
    ensures Replied(ps, pair, local, device).slots
      == PidGiven(PortGiven(ps.slots, NamesIn(pair), SnAtoi(local, 8)), NamesIn(asked), pair.pid)
  {
    hide SlotFor, FirstNamed, SnAtoi, FORCED, Linked, PortUpdated, PairUpdated, UpdateHeader;
    PortUpdatedIs(ps.slots, pair, local);
    asked := PairUpdated(ps.slots, pair, local);
    SearchIs(PortUpdated(ps.slots, pair, local), asked);
  }

  /** A reply that names its local port aborts the process exactly if one of the pair's texts has no room in a tunnel. */
  lemma OverlongAborts(ps: Pairs, pair: Pair, local: bytes, device: bytes)
    requires ps.locals.fate.Running? && (pair.kind == FORCED || SnAtoi(pair.portLocal, 32) != 0)
    ensures var f := Replied(ps, pair, local, device).locals.fate;
      && (f.Aborted? <==> |pair.cloud| > 256 || |pair.pid| > 256 || |pair.device| > 256 || |pair.portLocal| > 256
                          || |pair.portRemote| > 256 || |pair.kind| > 256)
      && (f.Aborted? || f.Running?)
  {
    hide SnAtoi, FORCED, SlotFor, Linked;
    LinkedRuns(ps.locals.(out := ps.locals.out + []), pair, pair.kind != FORCED);
  }

  lemma LinkedRuns(s: Locals, pair: Pair, server: bool)
    ensures Linked(s, pair, server).fate == s.fate
  {
  }

  /** A forced pair is for no slot. */
  lemma ForcedPairsNothing(ps: Pairs, pair: Pair, local: bytes, device: bytes)
    requires pair.kind == FORCED
    ensures Replied(ps, pair, local, device).slots == ps.slots
  {
    hide FORCED, SlotFor, Linked;
  }

  // ----- the port zero

  lemma {:induction false} LeadingDigit(n: nat)
    requires n > 0
    ensures 48 < Decimal(n)[0] <= 57
  {
    if n >= 10 {
      LeadingDigit(n / 10);
    }
  }

  lemma {:induction false} ValuePositive(s: bytes)
    requires IsDigits(s) && s != [] && s[0] > 48
    ensures Value(s) > 0
  {
    if |s| > 1 {
      ValuePositive(s[..|s| - 1]);
    }
  }

  /** The digits a buffer of seven characters holds of a number that is not 0. */
  lemma SomeDigits(m: nat, k: nat)
    requires m > 0 && k >= 1
    ensures var d := if |Decimal(m)| <= k then Decimal(m) else Decimal(m)[..k];
      Value(Digits(d)) > 0 && d != [] && 48 < d[0] <= 57 && Digits(d) == d
  {
    hide Decimal, Value, Digits;
    var d := if |Decimal(m)| <= k then Decimal(m) else Decimal(m)[..k];
    LeadingDigit(m);
    DecimalDigits(m);
    assert d[0] == Decimal(m)[0];
    AllDigits(d);
    ValuePositive(d);
  }

  lemma AboveZero(n: int)
    requires n > 0
    ensures SnAtoi(SnItoa(n), 32) > 0
  {
    hide Decimal, Value, Digits;
    SomeDigits(n, 7);
    assert SnItoa(n) == if |Decimal(n)| <= 7 then Decimal(n) else Decimal(n)[..7];
  }

  lemma BelowZero(n: int)
    requires n < 0
    ensures SnAtoi(SnItoa(n), 32) < 0
  {
    hide Decimal, Value, Digits;
    SomeDigits(-n, 6);
    var d := if |Decimal(-n)| <= 6 then Decimal(-n) else Decimal(-n)[..6];
    assert SnItoa(n) == [MINUS] + d;
    assert SnItoa(n)[1..] == d;
  }

  lemma AtZero()
    ensures SnAtoi(SnItoa(0), 32) == 0
  {
    AtoiItoa(0);
  }

  /** However many of its digits the buffer holds, a port reads as 0 only if it is 0. */
  lemma PortIsZeroIff(n: int)
    ensures SnAtoi(SnItoa(n), 32) == 0 <==> n == 0
  {
    hide SnAtoi, SnItoa;
    if n > 0 {
      AboveZero(n);
    } else if n < 0 {
      BelowZero(n);
    } else {
      AtZero();
    }
  }

  // ----- asking and being answered

  predicate NamesDistinct(slots: seq<Slot>)
  {
    forall i, j :: 0 <= i < j < |slots| ==> NamesOf(slots[i]) != NamesOf(slots[j])
  }

  /** The pair with which a request is granted: its own names, and the pid of the device that is to be reached. */
  function Granted(m: Msg<bytes>, pid: bytes, kind: bytes): Pair
    requires m.DevicePair?
  {
    Pair(m.cloud, pid, m.device, m.localPort, m.remotePort, kind)
  }

  lemma {:induction false} RequestsAt(slots: seq<Slot>, i: nat)
    requires i < |slots| && slots[i].pid == []
    ensures PairRequests(slots)
      == PairRequests(slots[..i]) + [PairRequest(slots[i])] + PairRequests(slots[i + 1..])
    decreases i
  {
    hide PairRequest;
    if i > 0 {
      RequestsAt(slots[1..], i - 1);
      assert slots[1..][..i - 1] == slots[..i][1..] && slots[1..][i..] == slots[i + 1..];
      assert slots[..i][0] == slots[0] && slots[1..][i - 1] == slots[i];
      var first := if slots[0].pid == [] then [PairRequest(slots[0])] else [];
      var a, b, c := PairRequests(slots[..i][1..]), [PairRequest(slots[i])], PairRequests(slots[i + 1..]);
      assert first + (a + b + c) == (first + a) + b + c;
    } else {
      assert slots[..0] == [];
    }
  }

  lemma {:induction false} NoRequestAt(slots: seq<Slot>, i: nat)
    requires i < |slots| && slots[i].pid != []
    ensures PairRequests(slots) == PairRequests(slots[..i]) + PairRequests(slots[i + 1..])
    decreases i
  {
    hide PairRequest;
    if i > 0 {
      NoRequestAt(slots[1..], i - 1);
      assert slots[1..][..i - 1] == slots[..i][1..] && slots[1..][i..] == slots[i + 1..];
      assert slots[..i][0] == slots[0] && slots[1..][i - 1] == slots[i];
      var first := if slots[0].pid == [] then [PairRequest(slots[0])] else [];
      assert first + (PairRequests(slots[..i][1..]) + PairRequests(slots[i + 1..]))
        == (first + PairRequests(slots[..i][1..])) + PairRequests(slots[i + 1..]);
    } else {
      assert slots[..0] == [];
    }
  }

  lemma RequestNames(s: Slot, pid: bytes, kind: bytes)
    ensures NamesIn(Granted(PairRequest(s), pid, kind)) == NamesOf(s)
  {
    hide SnItoa;
  }

  lemma OnlyNamed(slots: seq<Slot>, i: nat)
    requires NamesDistinct(slots) && i < |slots|
    ensures forall k :: FirstNamed(slots, NamesOf(slots[i]), k) <==> k == i
  {
    hide NamesOf;
  }

  /**
   * The request that devices_pair sends for a slot without a pid, granted with the names it carries, gives that slot the
   * pid and leaves every other as it was; the tunnel to that pid is opened, and the next devices_pair does not ask for the
   * slot again.
   */
  lemma RequestIsAnswered(ps: Pairs, i: nat, pid: bytes, kind: bytes, local: bytes, device: bytes)
    requires NamesDistinct(ps.slots) && i < |ps.slots| && ps.slots[i].pid == [] && pid != [] && kind != FORCED
    requires ps.slots[i].portLocal != 0
    requires |ps.slots[i].cloud| <= SNB_MAX && |ps.slots[i].device| <= SNB_MAX && |pid| <= SNB_MAX && |kind| <= SNB_MAX
    ensures var before, after := PairRequests(ps.slots[..i]), PairRequests(ps.slots[i + 1..]);
      && |PairRequests(ps.slots)| == |before| + 1 + |after| && PairRequests(ps.slots)[|before|].DevicePair?
      && var pair := Granted(PairRequests(ps.slots)[|before|], pid, kind);
         var r := Replied(ps, pair, local, device);
         && r.slots == ps.slots[i := ps.slots[i].(pid := pid)]
         && r.locals.fate == ps.locals.fate && r.locals.out == ps.locals.out && r.locals.closed == ps.locals.closed
         && |r.locals.tunnels| == |ps.locals.tunnels| + 1
         && r.locals.tunnels[0].pair == pair && r.locals.tunnels[0].clients.Some?
         && PairRequests(r.slots) == before + after
  {
    hide SnItoa, SnAtoi, FORCED, FirstNamed, SlotFor, PairRequests, NamesOf;
    var slot := ps.slots[i];
    RequestsAt(ps.slots, i);
    var pair := Granted(PairRequest(slot), pid, kind);
    ShortPort(slot.port);
    ShortPort(slot.portLocal);
    PortIsZeroIff(slot.portLocal);
    assert ps.locals.out + [] == ps.locals.out;
    RequestNames(slot, pid, kind);
    OnlyNamed(ps.slots, i);
    PidGoesToFirst(ps, pair, local, device);
    var after := ps.slots[i := slot.(pid := pid)];
    NoRequestAt(after, i);
    assert after[..i] == ps.slots[..i] && after[i + 1..] == ps.slots[i + 1..];
    assert PidGiven(ps.slots, NamesOf(slot), pid) == after;
  }
}
