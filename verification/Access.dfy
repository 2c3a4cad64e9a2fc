/** Which ports a peer may reach: port_allowed of src/endpoint.c, judged by the numbers in the configuration. */
module Access {
  import opened Bytes
  import opened Endpoints
  import opened Headers
  import opened Links
  import opened Ports
  import opened Process
  import opened Proto
  import opened Tokens

  /** What a refusal is: one message back to the sender. */
  function Refusal(device: bytes, address: bytes, port: bytes): Parcel
  {
    Parcel(device, address, Snprintf(64, Join([DENIED, port], SLASH)), Ascii("NULL"))
  }

  /** A port reads as a number of the configuration, or the request is refused and nothing else happens. */
  lemma RefusedIff(e: Ends, device: bytes, address: bytes, port: bytes, fd: bytes, body: bytes, attempt: Attempt,
                   allowed: seq<int>)
    requires e.fate.Running?
    ensures var r := Step(e, Request(device, address, port, fd, body, attempt), allowed);
      && (SnAtoi(port, 8) !in allowed ==> r == e.(out := e.out + [Refusal(device, address, port)]))
      && (SnAtoi(port, 8) in allowed ==> r.out == e.out)
  {
    hide SnAtoi, Join, First, Without;
  }

  lemma PrintedReads(n: int)
    requires |Itoa(n)| <= 7
    ensures SnAtoi(Itoa(n), 8) == n
  {
    hide Itoa, Atoi;
    AtoiItoa(n);
  }

  /** A request for the port n, printed in at most seven characters, is refused exactly if n is not configured. */
  lemma PrintedRefusedIff(e: Ends, device: bytes, address: bytes, n: int, fd: bytes, body: bytes, attempt: Attempt,
                          allowed: seq<int>)
    requires e.fate.Running? && |Itoa(n)| <= 7
    ensures var r := Step(e, Request(device, address, Itoa(n), fd, body, attempt), allowed);
      && (r.out == e.out + [Refusal(device, address, Itoa(n))] <==> n !in allowed)
      && (n !in allowed ==> r == e.(out := r.out))
      && (n in allowed ==> r.out == e.out)
  {
    hide Step, SnAtoi, Itoa;
    PrintedReads(n);
    RefusedIff(e, device, address, Itoa(n), fd, body, attempt, allowed);
  }

  // ----- over every run

  /** Every endpoint was made for a port that reads as a number of the configuration. */
  predicate Configured(list: seq<Endpoint>, allowed: seq<int>)
  {
    forall i :: 0 <= i < |list| ==> SnAtoi(list[i].backendPort, 8) in allowed
  }

  lemma AddedConfigured(e: Ends, address: bytes, port: bytes, fd: bytes, body: bytes, attempt: Attempt, allowed: seq<int>)
    requires Configured(e.list, allowed) && SnAtoi(port, 8) in allowed
    ensures Configured(Added(e, address, port, fd, body, attempt).list, allowed)
  {
    hide SnAtoi, First;
    var ent := Endpoint(address + fd, fd, port, address, e.made);
    FirstIs([ent] + e.list, ForClient(e.made), 0);
    assert Without([ent] + e.list, 0) == e.list;
    assert forall i :: 0 < i <= |e.list| ==> ([ent] + e.list)[i] == e.list[i - 1];
  }

  lemma StepConfigured(e: Ends, ev: Event, allowed: seq<int>)
    requires Configured(e.list, allowed)
    ensures Configured(Step(e, ev, allowed).list, allowed)
  {
    hide SnAtoi, First, Added, CloseEach, Configured, Enabled;
    LessConfigured(e.list, allowed);
    if Enabled(e, ev) && ev.Request? {
      RequestConfigured(e, ev.device, ev.address, ev.port, ev.fd, ev.body, ev.attempt, allowed);
    }
  }

  lemma RequestConfigured(e: Ends, device: bytes, address: bytes, port: bytes, fd: bytes, body: bytes, attempt: Attempt,
                          allowed: seq<int>)
    requires Configured(e.list, allowed)
    ensures Configured(Requested(e, allowed, device, address, port, fd, body, attempt).list, allowed)
  {
    hide SnAtoi, First, Added, Configured;
    if SnAtoi(port, 8) in allowed {
      AddedConfigured(e, address, port, fd, body, attempt, allowed);
    }
  }

  lemma LessConfigured(list: seq<Endpoint>, allowed: seq<int>)
    requires Configured(list, allowed)
    ensures Configured([], allowed) && forall i: nat :: i <= |list| ==> Configured(Without(list, i), allowed)
  {
    hide SnAtoi;
  }

  lemma {:induction false} RunConfigured(e: Ends, evs: seq<Event>, allowed: seq<int>)
    requires Configured(e.list, allowed)
    ensures Configured(Run(e, evs, allowed).list, allowed)
    decreases |evs|
  {
    hide Step, Configured;
    if evs != [] {
      StepConfigured(e, evs[0], allowed);
      RunConfigured(Step(e, evs[0], allowed), evs[1..], allowed);
    }
  }

  /** Over every run: an endpoint whose port is the number n was opened because n is configured. */
  lemma OnlyConfigured(evs: seq<Event>, allowed: seq<int>, x: Endpoint, n: int)
    requires x in Run(NONE, evs, allowed).list
    ensures SnAtoi(x.backendPort, 8) in allowed
    ensures x.backendPort == Itoa(n) && |Itoa(n)| <= 7 ==> n in allowed
  {
    hide SnAtoi, Itoa, Run;
    RunConfigured(NONE, evs, allowed);
    if x.backendPort == Itoa(n) && |Itoa(n)| <= 7 {
      PrintedReads(n);
    }
  }

  // ----- and no configured port is refused

  predicate NoneRefused(out: seq<Parcel>, n: int)
  {
    forall i :: 0 <= i < |out| ==> out[i].tp != DeniedHeader(Itoa(n))
  }

  /** What the header has room for. */
  function Shown(port: bytes): (s: bytes)
    ensures |s| < 49 ==> s == port
  {
    if |port| < 50 then port else port[..49]
  }

  lemma HeaderIs(port: bytes)
    ensures DeniedHeader(port) == DENIED + [SLASH] + Shown(port)
  {
    hide DENIED;
    NamesPlain();
    assert [DENIED, port][1..] == [port];
    var whole := DENIED + [SLASH] + port;
    assert Join([port], SLASH) == port && Join([DENIED, port], SLASH) == whole;
    assert |port| >= 50 ==> whole[..63] == DENIED + [SLASH] + port[..49];
  }

  lemma SameEnd(front: bytes, a: bytes, b: bytes)
    requires front + a == front + b
    ensures a == b
  {
    assert (front + a)[|front|..] == a && (front + b)[|front|..] == b;
  }

  lemma RefusalReads(port: bytes, n: int)
    requires DeniedHeader(port) == DeniedHeader(Itoa(n)) && |Itoa(n)| <= 7
    ensures port == Itoa(n)
  {
    hide Itoa, DENIED, DeniedHeader;
    HeaderIs(port);
    HeaderIs(Itoa(n));
    SameEnd(DENIED + [SLASH], Shown(port), Shown(Itoa(n)));
  }

  lemma ResponseIsNoRefusal(port: bytes, fd: bytes, n: int)
    ensures ResponseHeader(port, fd) != DeniedHeader(Itoa(n))
  {
    hide Itoa;
    NamesPlain();
    HeaderIs(Itoa(n));
    assert [RESPONSE, port, fd][1..] == [port, fd];
    assert DENIED[7] == 100 && RESPONSE[7] == 114;
    assert ResponseHeader(port, fd)[7] == RESPONSE[7];
  }

  lemma StepRefusesNone(e: Ends, ev: Event, allowed: seq<int>, n: int)
    requires NoneRefused(e.out, n) && n in allowed && |Itoa(n)| <= 7
    ensures NoneRefused(Step(e, ev, allowed).out, n)
  {
    hide SnAtoi, Itoa, First, Added, CloseEach, DeniedHeader, ResponseHeader;
    if Enabled(e, ev) {
      match ev
      case Request(device, address, port, fd, body, attempt) =>
        RefusedIff(e, device, address, port, fd, body, attempt, allowed);
        PrintedReads(n);
        RefusalIs(device, address, port);
        if DeniedHeader(port) == DeniedHeader(Itoa(n)) {
          RefusalReads(port, n);
        }
      case Data(c, _) =>
        var i := First(e.list, ForClient(c));
        if i < |e.list| {
          ResponseIsNoRefusal(e.list[i].backendPort, e.list[i].remoteFd, n);
        }
      case Error(_) =>
      case Stop(_) =>
      case StopAll =>
    }
  }

  lemma RefusalIs(device: bytes, address: bytes, port: bytes)
    ensures Refusal(device, address, port).tp == DeniedHeader(port)
  {
  }

  lemma {:induction false} RunRefusesNone(e: Ends, evs: seq<Event>, allowed: seq<int>, n: int)
    requires NoneRefused(e.out, n) && n in allowed && |Itoa(n)| <= 7
    ensures NoneRefused(Run(e, evs, allowed).out, n)
    decreases |evs|
  {
    hide Step, NoneRefused, Itoa;
    if evs != [] {
      StepRefusesNone(e, evs[0], allowed, n);
      RunRefusesNone(Step(e, evs[0], allowed), evs[1..], allowed, n);
    }
  }

  /** Over every run: no request for a configured port is answered with a refusal of it. */
  lemma ConfiguredNeverRefused(evs: seq<Event>, allowed: seq<int>, n: int, p: Parcel)
    requires n in allowed && |Itoa(n)| <= 7 && p in Run(NONE, evs, allowed).out
    ensures p.tp != DeniedHeader(Itoa(n))
  {
    hide Run, Itoa, DeniedHeader;
    RunRefusesNone(NONE, evs, allowed, n);
  }

  // ----- what a first request comes to

  /**
   * A first request for a configured port, by what socket(), connect() and errno were: no endpoint and one client shut
   * down; an endpoint whose client is shut down; or an endpoint with a client that has the payload. Texts that do not fit
   * abort the process.
   */
  lemma FirstRequest(e: Ends, device: bytes, address: bytes, port: bytes, fd: bytes, body: bytes, attempt: Attempt,
                     allowed: seq<int>)
    requires Inv(e) && SnAtoi(port, 8) in allowed
    requires forall i :: 0 <= i < |e.list| ==> e.list[i].key != address + fd
    ensures var r := Step(e, Request(device, address, port, fd, body, attempt), allowed);
      var longer := [Endpoint(address + fd, fd, port, address, e.made)] + e.list;
      if |address + fd| > 256 || |port| > 256 then r == e.(fate := Aborted)
      else
        && r.out == e.out && r.made == e.made + 1 && r.fate.Running?
        && (attempt.socket == -1 ==> r.list == e.list && r.open == e.open && r.closed == e.closed + 1)
        && (attempt.socket != -1 && attempt.ret != -1 && attempt.errno != 115 ==>
              r.list == longer && r.open == e.open && r.closed == e.closed + 1)
        && (attempt.socket != -1 && (attempt.ret == -1 || attempt.errno == 115) ==>
              r.list == longer && r.open == e.open + {e.made} && r.closed == e.closed && Queue(r, e.made) == [body])
  {
    hide SnAtoi, First, Clients, Endpoints.Distinct, Without;
    FirstIs(e.list, ForKey(address + fd), |e.list|);
    var ent := Endpoint(address + fd, fd, port, address, e.made);
    FirstIs([ent] + e.list, ForClient(e.made), 0);
    HeadGone(e.list, ent);
    assert e.open + {e.made} - {e.made} == e.open;
  }
}
