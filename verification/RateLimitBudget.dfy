/**
  The admission controller of src/tta/llm/rate_limiter.py.

  One tier's share of the controller is a `TierBudget`: the value of the tier's
  semaphore, its FIFO queue and its `_active` counter. The functions say what each
  piece of code between two awaits does to it; the class performs the same pieces on
  fields updated in place.
  */
module RateLimitBudget {
  import opened Wrappers

  datatype TaskPriority = Critical | High | Low | BestEffort

  /** A queue entry is known by a number, the identity of its `_QueueEntry` object. */
  datatype TierBudget = TierBudget(permits: nat, queue: seq<nat>, active: int)

  datatype Outcome = Admitted | Dropped | Queued

  // ---------------------------------------------------------------- one tier

  predicate Locked(b: TierBudget) {
    b.permits == 0
  }

  predicate OverBackpressure(b: TierBudget, limit: Option<int>) {
    limit.Some? && |b.queue| >= limit.value
  }

  /** Everything `admit_or_queue` does before it first waits. */
  function AdmitOrQueue(b: TierBudget, limit: Option<int>, entry: nat): (TierBudget, Outcome) {
    if !Locked(b) then (b.(permits := b.permits - 1, active := b.active + 1), Admitted)
    else if OverBackpressure(b, limit) then (b, Dropped)
    else (b.(queue := b.queue + [entry]), Queued)
  }

  /** The rest of `admit_or_queue` once the entry's event has been set. */
  function ResumeGranted(b: TierBudget): TierBudget {
    b.(active := b.active + 1)
  }

  /** What becomes of an arrival, in the source's own terms: it is admitted exactly when a permit
      is free; dropped exactly when none is, the tier has a limit, and at least that many wait;
      and queued, at the end, exactly in the remaining case. */
  lemma ArrivalOutcome(b: TierBudget, limit: Option<int>, entry: nat)
    ensures var (b', outcome) := AdmitOrQueue(b, limit, entry);
      && (outcome == Admitted <==> b.permits > 0)
      && (outcome == Dropped <==> b.permits == 0 && limit.Some? && limit.value <= |b.queue|)
      && (outcome == Queued <==> b.permits == 0 && (limit.Some? ==> |b.queue| < limit.value))
      && b'.permits == b.permits - (if b.permits > 0 then 1 else 0)
      && b'.active == b.active + (if b.permits > 0 then 1 else 0)
      && b'.queue == b.queue + (if outcome == Queued then [entry] else [])
  {
  }

  function RemoveFirst(q: seq<nat>, entry: nat): seq<nat> {
    if q == [] then []
    else if q[0] == entry then q[1..]
    else [q[0]] + RemoveFirst(q[1..], entry)
  }

  /** The timeout branch: an entry that `release` already took out is simply not found. */
  function TimeOut(b: TierBudget, entry: nat): TierBudget {
    b.(queue := RemoveFirst(b.queue, entry))
  }

  /** `release`: the slot goes to the head of the queue, or back to the semaphore. */
  function Release(b: TierBudget): (TierBudget, Option<nat>) {
    if b.queue == [] then (b.(active := b.active - 1, permits := b.permits + 1), None)
    else (b.(active := b.active - 1, queue := b.queue[1..]), Some(b.queue[0]))
  }

  // ---------------------------------------------------------------- all tiers

  class Budget {
    const backpressure: int

    var highSem: nat
    var lowSem: nat
    var bestEffortSem: nat
    var queues: map<TaskPriority, seq<nat>>
    var active: map<TaskPriority, int>
    var setEvents: set<nat>

    ghost predicate Valid()
      reads this
    {
      && queues.Keys == {High, Low, BestEffort}
      && active.Keys == {Critical, High, Low, BestEffort}
    }

    function Permits(t: TaskPriority): nat
      requires t != Critical
      reads this
    {
      match t
      case High => highSem
      case Low => lowSem
      case BestEffort => bestEffortSem
    }

    function Limit(t: TaskPriority): Option<int> {
      if t == BestEffort then Some(backpressure) else None
    }

    ghost function Tier(t: TaskPriority): TierBudget
      requires Valid() && t != Critical
      reads this
    {
      TierBudget(Permits(t), queues[t], active[t])
    }

    /** Nothing outside tier `t` is different from the old state. */
    twostate predicate OnlyTier(t: TaskPriority)
      requires old(Valid()) && Valid()
      reads this
    {
      && (forall u | u != t && u != Critical :: Tier(u) == old(Tier(u)))
      && (t != Critical ==> active[Critical] == old(active[Critical]))
    }

    constructor (high: nat, low: nat, backpressure: int)
      ensures Valid() && this.backpressure == backpressure
      ensures Tier(High) == TierBudget(high, [], 0)
      ensures Tier(Low) == TierBudget(low, [], 0)
      ensures Tier(BestEffort) == TierBudget(1, [], 0)
      ensures active[Critical] == 0 && setEvents == {}
    {
      this.backpressure := backpressure;
      highSem, lowSem, bestEffortSem := high, low, 1;
      queues := map[High := [], Low := [], BestEffort := []];
      active := map[Critical := 0, High := 0, Low := 0, BestEffort := 0];
      setEvents := {};
    }

    method SetPermits(t: TaskPriority, n: nat)
      requires Valid() && t != Critical
      modifies this`highSem, this`lowSem, this`bestEffortSem
      ensures Valid() && OnlyTier(t) && Tier(t) == old(Tier(t)).(permits := n)
    {
      match t
      case High => highSem := n;
      case Low => lowSem := n;
      case BestEffort => bestEffortSem := n;
    }

    method Admit(t: TaskPriority) returns (ok: bool)
      requires Valid()
      modifies this
      ensures Valid() && OnlyTier(t) && setEvents == old(setEvents)
      ensures t == Critical ==> ok && active[Critical] == old(active[Critical]) + 1
      ensures t != Critical ==> ok == !Locked(old(Tier(t)))
      ensures t != Critical && ok ==>
        && Tier(t).permits == old(Tier(t)).permits - 1
        && Tier(t).active == old(Tier(t)).active + 1
        && Tier(t).queue == old(Tier(t)).queue
      ensures t != Critical && !ok ==> Tier(t) == old(Tier(t))
    {
      if t == Critical {
        active := active[Critical := active[Critical] + 1];
        return true;
      }
      ok := Permits(t) != 0;
      if ok {
        SetPermits(t, Permits(t) - 1);
        active := active[t := active[t] + 1];
      }
    }

    method AdmitOrQueueCall(t: TaskPriority, entry: nat) returns (outcome: Outcome)
      requires Valid()
      modifies this
      ensures Valid() && OnlyTier(t) && setEvents == old(setEvents)
      ensures t == Critical ==> outcome == Admitted && active[Critical] == old(active[Critical]) + 1
      ensures t != Critical ==> (Tier(t), outcome) == AdmitOrQueue(old(Tier(t)), Limit(t), entry)
      ensures t != Critical ==> (outcome == Admitted <==> old(Tier(t).permits) > 0)
      ensures t != Critical ==> (outcome == Dropped <==>
        t == BestEffort && old(Tier(t).permits) == 0 && |old(Tier(t).queue)| >= backpressure)
      ensures t != Critical ==> (outcome == Queued <==> outcome != Dropped && old(Tier(t).permits) == 0)
      ensures t != Critical ==> Tier(t).queue == old(Tier(t).queue) + (if outcome == Queued then [entry] else [])
    {
      var ok := Admit(t);
      if ok {
        return Admitted;
      }
      if t == BestEffort && |queues[t]| >= backpressure {
        return Dropped;
      }
      queues := queues[t := queues[t] + [entry]];
      return Queued;
    }

    method Resume(t: TaskPriority, entry: nat)
      requires Valid() && t != Critical && entry in setEvents
      modifies this
      ensures Valid() && OnlyTier(t) && setEvents == old(setEvents)
      ensures Tier(t) == ResumeGranted(old(Tier(t)))
    {
      active := active[t := active[t] + 1];
    }

    method RemoveFromQueue(t: TaskPriority, entry: nat)
      requires Valid() && t != Critical
      modifies this
      ensures Valid() && OnlyTier(t) && setEvents == old(setEvents)
      ensures Tier(t) == TimeOut(old(Tier(t)), entry)
    {
      queues := queues[t := RemoveFirst(queues[t], entry)];
    }

    /** `woken` is the entry whose event this release sets. */
    method ReleaseSlot(t: TaskPriority) returns (woken: Option<nat>)
      requires Valid()
      modifies this
      ensures Valid() && OnlyTier(t)
      ensures t == Critical ==> woken == None && active[Critical] == old(active[Critical]) - 1
      ensures t != Critical ==> (Tier(t), woken) == Release(old(Tier(t)))
      ensures t != Critical && old(Tier(t).queue) != [] ==>
        && woken == Some(old(Tier(t).queue)[0])
        && Tier(t) == TierBudget(old(Tier(t).permits), old(Tier(t).queue)[1..], old(Tier(t).active) - 1)
      ensures t != Critical && old(Tier(t).queue) == [] ==>
        woken == None && Tier(t) == TierBudget(old(Tier(t).permits) + 1, [], old(Tier(t).active) - 1)
      ensures setEvents == old(setEvents) + (if woken.Some? then {woken.value} else {})
    {
      active := active[t := active[t] - 1];
      if t == Critical {
        return None;
      }
      if queues[t] != [] {
        var head := queues[t][0];
        queues := queues[t := queues[t][1..]];
        setEvents := setEvents + {head};
        return Some(head);
      }
      SetPermits(t, Permits(t) + 1);
      return None;
    }
  }

  /** `RateLimitedLLMClient.generate` and `stream`, cut at their awaits. */
  class Client {
    const budget: Budget

    constructor (budget: Budget)
      ensures this.budget == budget
    {
      this.budget := budget;
    }

    /** `_enforce`: the call reaches the inner client at once unless it is queued;
        the Boolean that `admit_or_queue` returned is not looked at. */
    method Begin(t: TaskPriority, entry: nat) returns (reachesInner: bool)
      requires budget.Valid()
      modifies budget
      ensures budget.Valid() && budget.OnlyTier(t) && budget.setEvents == old(budget.setEvents)
      ensures t == Critical ==> reachesInner && budget.active == old(budget.active)
      ensures t != Critical ==>
        var (b, outcome) := AdmitOrQueue(old(budget.Tier(t)), budget.Limit(t), entry);
        budget.Tier(t) == b && reachesInner == (outcome != Queued)
      ensures t != Critical ==> (reachesInner <==>
        old(budget.Tier(t).permits) > 0 || (t == BestEffort && |old(budget.Tier(t).queue)| >= budget.backpressure))
    {
      if t == Critical {
        return true;
      }
      var outcome := budget.AdmitOrQueueCall(t, entry);
      return outcome != Queued;
    }

    /** The `finally` block around the inner call. */
    method End(t: TaskPriority) returns (woken: Option<nat>)
      requires budget.Valid()
      modifies budget
      ensures budget.Valid() && budget.OnlyTier(t)
      ensures t == Critical ==> woken == None && budget.active == old(budget.active)
      ensures t != Critical ==> (budget.Tier(t), woken) == Release(old(budget.Tier(t)))
    {
      if t == Critical {
        return None;
      }
      woken := budget.ReleaseSlot(t);
    }
  }
}
