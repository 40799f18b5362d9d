/** Session schedules (wevibe_bench/cumulative/ordering.py). */
module Ordering {
  import opened Wrappers

  datatype Entry = Entry(model: string, providerPin: string)
  datatype Mode = Off | On

  /** memory_mode and phase_group always agree, so one field stands for both. */
  datatype Session = Session(sequenceIndex: int, model: string, providerPin: string, mode: Mode, rosterIndex: nat)

  /** The generator seeded from (seed, roster_hash): its k-th draw below a size. */
  type Rng = (int, string, nat, nat) -> nat

  ghost predicate DrawsBelow(rng: Rng) {
    forall seed, hash, size, k :: 0 < size ==> rng(seed, hash, size, k) < size
  }

  function SessionOf(roster: seq<Entry>, index: int, mode: Mode, rosterIndex: nat): Session
    requires rosterIndex < |roster|
  {
    Session(index, roster[rosterIndex].model, roster[rosterIndex].providerPin, mode, rosterIndex)
  }

  // ----- OFF -----

  function OffSessions(roster: seq<Entry>): seq<Session> {
    seq(|roster|, i requires 0 <= i < |roster| => SessionOf(roster, i, Off, i))
  }

  function BuildOffOrder(roster: seq<Entry>): Result<seq<Session>> {
    if |roster| == 0 then ValueError else Ok(OffSessions(roster))
  }

  // ----- ON -----

  /** {entry.model: index}: the last index of a model. */
  function LastIndex(roster: seq<Entry>, model: string): (r: Option<nat>)
    ensures r.None? <==> forall e <- roster :: e.model != model
    ensures r.Some? ==>
      r.value < |roster| && roster[r.value].model == model && forall i :: r.value < i < |roster| ==> roster[i].model != model
  {
    if |roster| == 0 then None
    else
      assert roster == roster[..|roster| - 1] + [roster[|roster| - 1]];
      if roster[|roster| - 1].model == model then Some(|roster| - 1)
      else LastIndex(roster[..|roster| - 1], model)
  }

  /** The sessions of an explicit order up to a model outside the roster. */
  function ExplicitSessions(roster: seq<Entry>, start: int, order: seq<string>): Result<seq<Session>> {
    if |order| == 0 then Ok([])
    else
      var before := ExplicitSessions(roster, start, order[..|order| - 1]);
      var index := LastIndex(roster, order[|order| - 1]);
      if before.Ok? && index.Some? then Ok(before.value + [SessionOf(roster, start + |order| - 1, On, index.value)])
      else ValueError
  }

  function DrawnSessions(roster: seq<Entry>, rng: Rng, seed: int, hash: string, start: int, budget: nat): seq<Session>
    requires |roster| > 0 && DrawsBelow(rng)
  {
    if budget == 0 then []
    else
      DrawnSessions(roster, rng, seed, hash, start, budget - 1)
      + [SessionOf(roster, start + budget - 1, On, rng(seed, hash, |roster|, budget - 1))]
  }

  function OnOrder(roster: seq<Entry>, rng: Rng, seed: int, hash: string, budget: int, start: int,
                   explicitOrder: Option<seq<string>>): Result<seq<Session>>
    requires DrawsBelow(rng)
  {
    if |roster| == 0 || budget < 0 then ValueError
    else match explicitOrder
      case Some(order) => ExplicitSessions(roster, start, order)
      case None => Ok(DrawnSessions(roster, rng, seed, hash, start, budget))
  }

  method BuildOnOrder(roster: seq<Entry>, rng: Rng, seed: int, hash: string, budget: int, start: int,
                      explicitOrder: Option<seq<string>>) returns (r: Result<seq<Session>>)
    requires DrawsBelow(rng)
    ensures r == OnOrder(roster, rng, seed, hash, budget, start, explicitOrder)
  {
    if |roster| == 0 || budget < 0 {
      return ValueError;
    }
    var sessions: seq<Session> := [];
    match explicitOrder
    case Some(order) =>
      for slot := 0 to |order|
        invariant ExplicitSessions(roster, start, order[..slot]) == Ok(sessions)
      {
        assert order[..slot + 1][..slot] == order[..slot];
        var index := LastIndex(roster, order[slot]);
        if index.None? {
          ExplicitFails(roster, start, order, slot);
          return ValueError;
        }
        sessions := sessions + [SessionOf(roster, start + slot, On, index.value)];
      }
      assert order[..|order|] == order;
      r := Ok(sessions);
    case None =>
      for slot := 0 to budget
        invariant sessions == DrawnSessions(roster, rng, seed, hash, start, slot)
      {
        var rosterIndex := rng(seed, hash, |roster|, slot);
        sessions := sessions + [SessionOf(roster, start + slot, On, rosterIndex)];
      }
      r := Ok(sessions);
  }

  lemma {:induction false} ExplicitFails(roster: seq<Entry>, start: int, order: seq<string>, slot: nat)
    requires slot < |order| && LastIndex(roster, order[slot]).None?
    ensures ExplicitSessions(roster, start, order).ValueError?
  {
    if slot < |order| - 1 {
      ExplicitFails(roster, start, order[..|order| - 1], slot);
    }
  }

  function BuildSchedule(roster: seq<Entry>, rng: Rng, seed: int, hash: string, onBudget: int): Result<seq<Session>>
    requires DrawsBelow(rng)
  {
    if |roster| == 0 || onBudget < 0 then ValueError
    else
      var off := BuildOffOrder(roster);
      var on := OnOrder(roster, rng, seed, hash, onBudget, |off.value|, None);
      if on.Ok? then Ok(off.value + on.value) else ValueError
  }

  // ----- properties -----

  lemma {:induction false} DrawnAt(roster: seq<Entry>, rng: Rng, seed: int, hash: string, start: int, budget: nat)
    requires |roster| > 0 && DrawsBelow(rng)
    ensures |DrawnSessions(roster, rng, seed, hash, start, budget)| == budget
    ensures forall k :: 0 <= k < budget ==>
      DrawnSessions(roster, rng, seed, hash, start, budget)[k]
      == SessionOf(roster, start + k, On, rng(seed, hash, |roster|, k))
  {
    if budget > 0 {
      DrawnAt(roster, rng, seed, hash, start, budget - 1);
    }
  }

  /** For a fixed roster, seed and hash a smaller budget gives a prefix. */
  lemma SchedulesGrow(roster: seq<Entry>, rng: Rng, seed: int, hash: string, m: int, n: int)
    requires DrawsBelow(rng) && |roster| > 0 && 0 <= m <= n
    ensures
      var shorter, longer := BuildSchedule(roster, rng, seed, hash, m), BuildSchedule(roster, rng, seed, hash, n);
      shorter.Ok? && longer.Ok? && shorter.value <= longer.value && |longer.value| == |shorter.value| + n - m
  {
    DrawnAt(roster, rng, seed, hash, |roster|, m);
    DrawnAt(roster, rng, seed, hash, |roster|, n);
    assert DrawnSessions(roster, rng, seed, hash, |roster|, m) <= DrawnSessions(roster, rng, seed, hash, |roster|, n);
  }

  /** sequence_index is the position; the first sessions are the roster once each, in order, with
      memory off; every later session is, with memory on, the roster entry the generator of this seed and
      hash draws next; it fails only on an empty
      roster or a negative budget. */
  lemma ScheduleShape(roster: seq<Entry>, rng: Rng, seed: int, hash: string, budget: int)
    requires DrawsBelow(rng)
    ensures
      var r := BuildSchedule(roster, rng, seed, hash, budget);
      && (r.Ok? <==> |roster| > 0 && budget >= 0)
      && (r.Ok? ==>
           && |r.value| == |roster| + budget
           && (forall i :: 0 <= i < |r.value| ==>
                 && r.value[i].sequenceIndex == i
                 && r.value[i].rosterIndex < |roster|
                 && r.value[i].model == roster[r.value[i].rosterIndex].model
                 && r.value[i].providerPin == roster[r.value[i].rosterIndex].providerPin
                 && (r.value[i].mode == Off <==> i < |roster|))
           && (forall i :: 0 <= i < |roster| ==> r.value[i].rosterIndex == i)
           && (forall i :: |roster| <= i < |roster| + budget ==>
                 r.value[i].rosterIndex == rng(seed, hash, |roster|, i - |roster|)))
  {
    if |roster| > 0 && budget >= 0 {
      DrawnAt(roster, rng, seed, hash, |roster|, budget);
    }
  }

  /** An explicit order is followed name by name, whatever the budget; it fails exactly when some
      name is not in the roster. A repeated model takes the pin of its last roster entry. */
  lemma {:induction false} ExplicitFollowed(roster: seq<Entry>, start: int, order: seq<string>)
    ensures
      var r := ExplicitSessions(roster, start, order);
      && (r.Ok? <==> forall k :: 0 <= k < |order| ==> exists e <- roster :: e.model == order[k])
      && (r.Ok? ==> |r.value| == |order| && forall k :: 0 <= k < |order| ==>
           && LastIndex(roster, order[k]).Some?
           && r.value[k] == SessionOf(roster, start + k, On, LastIndex(roster, order[k]).value))
  {
    if |order| > 0 {
      var front := order[..|order| - 1];
      ExplicitFollowed(roster, start, front);
      assert forall k :: 0 <= k < |front| ==> front[k] == order[k];
    }
  }
}
