/** A block asked for once with hm_palloc and then resized by hm_prealloc any number of times. */
module Chain {
  import opened Pool
  import opened Allocator

  /** Every request of the chain is positive. */
  predicate Requests(s: seq<int>) { s != [] && forall i :: 0 <= i < |s| ==> s[i] > 0 }

  /** The size on record after the requests s, the first of them to hm_palloc. */
  function OnRecord(s: seq<int>): int
    requires Requests(s)
  {
    if |s| == 1 then s[0] else RealAfter(OnRecord(s[..|s| - 1]), s[|s| - 1])
  }

  /** How many bytes the last request carries over. */
  function LastCarried(s: seq<int>): int
    requires Requests(s) && |s| > 1
  {
    Carried(OnRecord(s[..|s| - 1]), s[|s| - 1])
  }

  /** What realloc promises: the smaller of the last two sizes. */
  function Promised(s: seq<int>): int
    requires |s| > 1
  {
    var a, b := s[|s| - 2], s[|s| - 1];
    if a <= b then a else b
  }

  /** The last request that set the size on record. */
  function Origin(s: seq<int>): (i: nat)
    requires Requests(s)
    ensures i < |s| && OnRecord(s) == s[i]
    ensures forall k :: i < k < |s| ==> s[k] == Round16(s[i])
  {
    if |s| == 1 then 0
    else
      var t := s[..|s| - 1];
      if s[|s| - 1] == Round16(OnRecord(t)) then Origin(t) else |s| - 1
  }

  /**
   * A request from i on that was no multiple of 16 was followed by requests for exactly the size of its class, and the
   * last request is for more than s[i] and for another size.
   */
  predicate ForgottenSince(s: seq<int>, i: nat)
  {
    && i < |s| - 2 && s[i] % 16 != 0
    && (forall k :: i < k < |s| - 1 ==> s[k] == Round16(s[i]))
    && s[|s| - 1] > s[i] && s[|s| - 1] != Round16(s[i])
  }

  /** Requests for the class size leave the record at the request before them. */
  lemma {:induction false} OnRecordSince(s: seq<int>, i: nat)
    requires Requests(s) && i < |s| && s[i] % 16 != 0 && forall k :: i < k < |s| ==> s[k] == Round16(s[i])
    ensures OnRecord(s) == s[i]
  {
    var t := s[..|s| - 1];
    if i < |s| - 1 {
      OnRecordSince(t, i);
    } else if |s| > 1 {
      RoundsUp(OnRecord(t));
    }
  }

  /** A promise broken: the record is older than the last request but one. */
  lemma LosesForgotten(s: seq<int>) returns (i: nat)
    requires Requests(s) && |s| > 1 && LastCarried(s) < Promised(s)
    ensures ForgottenSince(s, i)
  {
    hide OnRecord, Round16;
    var t := s[..|s| - 1];
    i := Origin(t);
    RoundsUp(s[i]);
    assert t[|t| - 1] == s[|s| - 2] && t[i] == s[i];
  }

  lemma ForgottenLoses(s: seq<int>, i: nat)
    requires Requests(s) && |s| > 1 && ForgottenSince(s, i)
    ensures LastCarried(s) < Promised(s)
  {
    hide OnRecord, Round16;
    var t := s[..|s| - 1];
    RoundsUp(s[i]);
    OnRecordSince(t, i);
    assert s[|s| - 2] == Round16(s[i]);
  }

  /** hm_prealloc as written breaks its promise exactly on these chains. */
  lemma LosesIff(s: seq<int>)
    requires Requests(s) && |s| > 1
    ensures LastCarried(s) < Promised(s) <==> exists i: nat :: ForgottenSince(s, i)
  {
    hide LastCarried, Promised, ForgottenSince;
    if LastCarried(s) < Promised(s) {
      var i := LosesForgotten(s);
    }
    if i: nat :| ForgottenSince(s, i) {
      ForgottenLoses(s, i);
    }
  }

  /** 10 bytes, then 16, then 32: the third call carries over 10 bytes of 16. */
  lemma TenSixteenThirtyTwo()
    ensures LastCarried([10, 16, 32]) == 10 && Promised([10, 16, 32]) == 16
  {
    assert [10, 16, 32][..2] == [10, 16] && [10, 16][..1] == [10];
    assert OnRecord([10, 16]) == 10;
  }
}
