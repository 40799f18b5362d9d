/** Retried reads and the busy/idle waits of the serve client (wevibe_bench/serve_client.py),
    over an arbitrary server and clock. */
module ServeWait {
  import opened Folds
  import opened RealArith
  import opened Wrappers

  const READ_RETRY_ATTEMPTS := 4
  const READ_RETRY_BACKOFF_S := 0.5

  /** A session's entry in the status map: falsy, an object with or without a type, or anything else. */
  datatype Entry = Falsy | Record(kind: Option<string>) | NotARecord

  datatype Payload = NotADict | Sessions(entries: map<string, Entry>)

  /** What one GET does: answers, fails in a retryable way, fails for good, or sends a body that is not JSON. */
  datatype Outcome = Answer(payload: Payload) | TransientFault | FatalFault | Malformed

  /** What a retried read does: returns, raises ServeClientError, or raises something else. */
  datatype Reading = Value(payload: Payload) | ClientError | OtherError

  /** session_busy: its result, or the same two ways of raising. */
  datatype Probe = Busy | NotBusy | ProbeFailed | ProbeRaised

  datatype Waited = True | False | Raised

  function ParseBusyStatus(entries: map<string, Entry>, sid: string): Probe {
    if sid !in entries then NotBusy
    else match entries[sid]
      case Falsy => NotBusy
      case Record(kind) => if kind == Some("busy") then Busy else NotBusy
      case NotARecord => ProbeRaised
  }

  function ProbeOf(o: Outcome, sid: string): Probe {
    match o
    case Answer(NotADict) => NotBusy
    case Answer(Sessions(entries)) => ParseBusyStatus(entries, sid)
    case Malformed => ProbeRaised
    case _ => ProbeFailed
  }

  /** Only an entry of type busy reads as busy; no entry, an empty one, one of another type, and an answer that
      is no map of sessions all read as not busy; a fault is neither. */
  lemma ProbeMeans(o: Outcome, sid: string)
    ensures ProbeOf(o, sid) == Busy <==>
      o.Answer? && o.payload.Sessions? && sid in o.payload.entries && o.payload.entries[sid] == Record(Some("busy"))
    ensures ProbeOf(o, sid) == NotBusy <==>
      o.Answer?
      && (o.payload.NotADict? || sid !in o.payload.entries || o.payload.entries[sid] == Falsy
          || (o.payload.entries[sid].Record? && o.payload.entries[sid].kind != Some("busy")))
    ensures ProbeOf(o, sid) == ProbeFailed <==> o == TransientFault || o == FatalFault
  {
  }

  // ----- retries -----

  /** The number of transient faults before the first other outcome, within the attempts. */
  function Faults(answers: nat -> Outcome, from: nat, attempts: nat): (r: nat)
    ensures r <= attempts
    decreases attempts
  {
    if attempts == 0 || answers(from) != TransientFault then 0 else 1 + Faults(answers, from + 1, attempts - 1)
  }

  lemma {:induction false} FaultsAre(answers: nat -> Outcome, from: nat, attempts: nat)
    ensures forall i :: from <= i < from + Faults(answers, from, attempts) ==> answers(i) == TransientFault
    ensures Faults(answers, from, attempts) < attempts ==> answers(from + Faults(answers, from, attempts)) != TransientFault
    decreases attempts
  {
    if attempts > 0 && answers(from) == TransientFault {
      FaultsAre(answers, from + 1, attempts - 1);
    }
  }

  function ReadingOf(o: Outcome): Reading {
    match o
    case Answer(p) => Value(p)
    case Malformed => OtherError
    case _ => ClientError
  }

  /** Linear backoff after each of n failed attempts. */
  function Naps(backoff: real, n: nat): seq<real> {
    if n == 0 then [] else Naps(backoff, n - 1) + [Mul(backoff, n as real)]
  }

  lemma {:induction false} NapsSum(backoff: real, n: nat)
    ensures 2.0 * Sum(Naps(backoff, n)) == Mul(backoff, (n * (n + 1)) as real)
  {
    if n > 0 {
      NapsSum(backoff, n - 1);
      assert n * (n + 1) == (n - 1) * n + 2 * n;
      assert (n * (n + 1)) as real == ((n - 1) * n) as real + (n as real + n as real);
      MulAdd(((n - 1) * n) as real, n as real + n as real, backoff);
      MulAdd(n as real, n as real, backoff);
    }
  }

  /** The clock passes every deadline for good. */
  ghost predicate Past(clock: nat -> real, n: nat, t: real) { forall m: nat :: m >= n ==> clock(m) >= t }
  ghost predicate EventuallyPast(clock: nat -> real, t: real) { exists n: nat :: Past(clock, n, t) }
  ghost predicate Advances(clock: nat -> real) { forall t: real :: EventuallyPast(clock, t) }

  class ServeClient {
    // the server and the clock as the client meets them: the k-th request, the k-th reading
    const answers: nat -> Outcome
    const clock: nat -> real
    const pollInterval: real
    var requests: nat
    var ticks: nat
    var naps: seq<real>

    constructor (answers: nat -> Outcome, clock: nat -> real, pollInterval: real)
      ensures requests == 0 && ticks == 0 && naps == []
      ensures this.answers == answers && this.clock == clock && this.pollInterval == pollInterval
    {
      this.answers, this.clock, this.pollInterval := answers, clock, pollInterval;
      requests, ticks, naps := 0, 0, [];
    }

    method Get() returns (o: Outcome)
      modifies `requests
      ensures requests == old(requests) + 1 && o == answers(old(requests))
    {
      o := answers(requests);
      requests := requests + 1;
    }

    method Sleep(seconds: real)
      modifies `naps
      ensures naps == old(naps) + [seconds]
    {
      naps := naps + [seconds];
    }

    method Now() returns (t: real)
      modifies `ticks
      ensures ticks == old(ticks) + 1 && t == clock(old(ticks))
    {
      t := clock(ticks);
      ticks := ticks + 1;
    }

    /** At most attempts requests, stopping at the first success or lasting failure, with a nap
        after every fault but a last one. */
    method RetryRead(attempts: nat, backoff: real) returns (r: Reading)
      modifies `requests, `naps
      ensures
        var faults := Faults(answers, old(requests), attempts);
        if faults == attempts then
          r == ClientError && requests == old(requests) + attempts
          && naps == old(naps) + Naps(backoff, if attempts == 0 then 0 else attempts - 1)
        else
          r == ReadingOf(answers(old(requests) + faults)) && requests == old(requests) + faults + 1
          && naps == old(naps) + Naps(backoff, faults)
    {
      ghost var start, rested := requests, naps;
      for attempt := 1 to attempts + 1
        invariant requests == start + attempt - 1
        invariant Faults(answers, start, attempts) == attempt - 1 + Faults(answers, requests, attempts + 1 - attempt)
        invariant naps == rested + Naps(backoff, if attempt == attempts + 1 && attempts > 0 then attempts - 1 else attempt - 1)
      {
        var o := Get();
        if o != TransientFault {
          return ReadingOf(o);
        }
        if attempt < attempts {
          Sleep(Mul(backoff, attempt as real));
        }
      }
      return ClientError;
    }

    ghost predicate AnsweredBusy(sid: string, k: nat) { ProbeOf(answers(k), sid) == Busy }
    ghost predicate AnsweredIdle(sid: string, k: nat) { ProbeOf(answers(k), sid) == NotBusy }

    /** The probe says what the last of its requests said; the ones before it were faults. */
    method SessionBusy(sid: string) returns (p: Probe)
      modifies `requests, `naps
      ensures old(requests) < requests <= old(requests) + READ_RETRY_ATTEMPTS
      ensures p == ProbeOf(answers(requests - 1), sid)
      ensures forall k :: old(requests) <= k < requests - 1 ==> answers(k) == TransientFault
    {
      FaultsAre(answers, requests, READ_RETRY_ATTEMPTS);
      var r := RetryRead(READ_RETRY_ATTEMPTS, READ_RETRY_BACKOFF_S);
      p := match r
        case Value(NotADict) => NotBusy
        case Value(Sessions(entries)) => ParseBusyStatus(entries, sid)
        case ClientError => ProbeFailed
        case OtherError => ProbeRaised;
    }

    /** True exactly when a request was answered busy, which is then the last one made. */
    method WaitBusy(sid: string, timeout: real) returns (r: Waited)
      requires Advances(clock)
      modifies this
      ensures old(requests) <= requests && old(ticks) < ticks
      ensures r == True ==> old(requests) < requests && AnsweredBusy(sid, requests - 1)
      ensures r == Raised ==> old(requests) < requests && ProbeOf(answers(requests - 1), sid) == ProbeRaised
      ensures r == False ==> clock(ticks - 1) >= clock(old(ticks)) + timeout
      ensures forall t :: old(ticks) < t < (if r == False then ticks - 1 else ticks) ==> clock(t) < clock(old(ticks)) + timeout
      ensures forall k :: old(requests) <= k < requests - 1 ==> !AnsweredBusy(sid, k)
      ensures r == False ==> forall k :: old(requests) <= k < requests ==> !AnsweredBusy(sid, k)
    {
      ghost var start, first := requests, ticks;
      var now := Now();
      var deadline := now + timeout;
      assert EventuallyPast(clock, deadline);
      ghost var stop: nat :| Past(clock, stop, deadline);
      now := Now();
      while now < deadline
        invariant start <= requests && first + 1 < ticks && now == clock(ticks - 1)
        invariant forall t :: first < t < ticks - 1 ==> clock(t) < deadline
        invariant forall k :: start <= k < requests ==> !AnsweredBusy(sid, k)
        decreases stop - ticks
      {
        assert ticks - 1 < stop;
        var p := SessionBusy(sid);
        if p == ProbeRaised {
          return Raised;
        }
        if p == Busy {
          return True;
        }
        Sleep(pollInterval);
        now := Now();
      }
      return False;
    }

    /** True exactly when a request was answered not busy; a failed probe never counts as idle. */
    method WaitIdle(sid: string, timeout: real) returns (r: Waited)
      requires Advances(clock)
      modifies this
      ensures old(requests) <= requests && old(ticks) < ticks
      ensures r == True ==> old(requests) < requests && AnsweredIdle(sid, requests - 1)
      ensures r == Raised ==> old(requests) < requests && ProbeOf(answers(requests - 1), sid) == ProbeRaised
      ensures r == False ==> clock(ticks - 1) >= clock(old(ticks)) + timeout
      ensures forall t :: old(ticks) < t < (if r == False then ticks - 1 else ticks) ==> clock(t) < clock(old(ticks)) + timeout
      ensures forall k :: old(requests) <= k < requests - 1 ==> !AnsweredIdle(sid, k)
      ensures r == False ==> forall k :: old(requests) <= k < requests ==> !AnsweredIdle(sid, k)
    {
      ghost var start, first := requests, ticks;
      var now := Now();
      var deadline := now + timeout;
      assert EventuallyPast(clock, deadline);
      ghost var stop: nat :| Past(clock, stop, deadline);
      now := Now();
      while now < deadline
        invariant start <= requests && first + 1 < ticks && now == clock(ticks - 1)
        invariant forall t :: first < t < ticks - 1 ==> clock(t) < deadline
        invariant forall k :: start <= k < requests ==> !AnsweredIdle(sid, k)
        decreases stop - ticks
      {
        assert ticks - 1 < stop;
        var p := SessionBusy(sid);
        if p == ProbeRaised {
          return Raised;
        }
        var busy := p == Busy || p == ProbeFailed;
        if !busy {
          return True;
        }
        Sleep(pollInterval);
        now := Now();
      }
      return False;
    }

    /** The order the waits are documented for: when both waits return True, some request was answered busy
        and the last request, made later, was answered not busy. */
    method ConfirmThenWait(sid: string, grace: real, timeout: real) returns (busy: Waited, idle: Waited)
      requires Advances(clock)
      modifies this
      ensures old(requests) <= requests
      ensures busy == True && idle == True ==>
        exists k :: old(requests) <= k < requests - 1 && AnsweredBusy(sid, k) && AnsweredIdle(sid, requests - 1)
                    && forall j :: k < j < requests - 1 ==> !AnsweredIdle(sid, j)
    {
      busy := WaitBusy(sid, grace);
      ghost var k := requests - 1;
      if busy == True {
        idle := WaitIdle(sid, timeout);
        assert idle == True ==> AnsweredBusy(sid, k) && AnsweredIdle(sid, requests - 1);
      } else {
        idle := False;
      }
    }
  }

  /** The client tries four times, with naps of half a second, a second and one and a half between them. */
  lemma RetrySettings()
    ensures READ_RETRY_ATTEMPTS == 4 && Naps(READ_RETRY_BACKOFF_S, 3) == [0.5, 1.0, 1.5]
  {
    assert Naps(READ_RETRY_BACKOFF_S, 0) == [] && Naps(READ_RETRY_BACKOFF_S, 1) == [0.5];
    assert Naps(READ_RETRY_BACKOFF_S, 2) == [0.5, 1.0];
  }

  /** A retried read with the client's settings sleeps at most three seconds. */
  lemma RetryNapsBounded(answers: nat -> Outcome, from: nat)
    ensures
      var faults := Faults(answers, from, READ_RETRY_ATTEMPTS);
      var naps := if faults == READ_RETRY_ATTEMPTS then READ_RETRY_ATTEMPTS - 1 else faults;
      Sum(Naps(READ_RETRY_BACKOFF_S, naps)) <= 3.0
  {
    var faults := Faults(answers, from, READ_RETRY_ATTEMPTS);
    var n: nat := if faults == READ_RETRY_ATTEMPTS then READ_RETRY_ATTEMPTS - 1 else faults;
    NapsSum(READ_RETRY_BACKOFF_S, n);
    assert n * (n + 1) <= 12;
  }
}
