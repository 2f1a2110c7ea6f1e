/**
  Whole runs of one admission tier: any number of calls to `RateLimitedLLMClient`,
  interleaved at their awaits in any order.

  A call is known by the number of its queue entry. An event that is not possible in a
  state leaves the state alone, so a run is an arbitrary sequence of events.
  */
module RateLimitRuns {
  import opened Wrappers
  import opened RateLimitBudget

  /** Where a call is. An abandoned call was cancelled while its entry stayed queued; an
      unadmitted call reached the inner client although `admit_or_queue` returned False. */
  datatype Phase = Waiting | Granted | Running | Unadmitted | Abandoned | Finished

  datatype Event =
    | Arrive(call: nat)
    | Resume(call: nat)   // a granted waiter runs on
    | Expire(call: nat)   // the queue timeout fires, possibly after the grant
    | Cancel(call: nat)   // the waiting task is cancelled
    | Finish(call: nat)   // the inner call returns or raises, and the slot is released

  datatype System = System(budget: TierBudget, calls: map<nat, Phase>)

  /** `enforcesDrops` is false for the client as written; true for one that lets a dropped
      call go no further. */
  datatype Config = Config(limit: Option<int>, enforcesDrops: bool)

  function Init(cap: nat): System {
    System(TierBudget(cap, [], 0), map[])
  }

  predicate In(s: System, c: nat, p: Phase) {
    c in s.calls && s.calls[c] == p
  }

  predicate Enabled(s: System, ev: Event) {
    match ev
    case Arrive(c) => c !in s.calls
    case Resume(c) => In(s, c, Granted)
    case Expire(c) => In(s, c, Waiting) || In(s, c, Granted)
    case Cancel(c) => In(s, c, Waiting) || In(s, c, Granted)
    case Finish(c) => In(s, c, Running) || In(s, c, Unadmitted)
  }

  function Arrival(s: System, cfg: Config, c: nat): System {
    var (b, outcome) := AdmitOrQueue(s.budget, cfg.limit, c);
    var phase := match outcome
      case Admitted => Running
      case Queued => Waiting
      case Dropped => if cfg.enforcesDrops then Finished else Unadmitted;
    System(b, s.calls[c := phase])
  }

  function Completion(s: System, c: nat): System {
    var (b, woken) := Release(s.budget);
    var calls := s.calls[c := Finished];
    match woken
    case None => System(b, calls)
    case Some(h) =>
      System(b, calls[h := if h in calls && calls[h] == Waiting then Granted else Finished])
  }

  function Step(s: System, cfg: Config, ev: Event): System {
    if !Enabled(s, ev) then s else
    match ev
    case Arrive(c) => Arrival(s, cfg, c)
    case Resume(c) => System(ResumeGranted(s.budget), s.calls[c := Running])
    case Expire(c) => System(TimeOut(s.budget, c), s.calls[c := Finished])
    case Cancel(c) =>
      s.(calls := s.calls[c := if s.calls[c] == Waiting then Abandoned else Finished])
    case Finish(c) => Completion(s, c)
  }

  function Run(s: System, cfg: Config, evs: seq<Event>): System
    decreases |evs|
  {
    if evs == [] then s else Run(Step(s, cfg, evs[0]), cfg, evs[1..])
  }

  // ------------------------------------------- what happens along a run

  /** The event throws a slot away: a granted waiter leaves without running, or the slot
      is handed to an entry nobody waits on. */
  predicate Loses(s: System, ev: Event) {
    Enabled(s, ev) &&
    match ev
    case Expire(c) => s.calls[c] == Granted
    case Cancel(c) => s.calls[c] == Granted
    case Finish(c) => s.budget.queue != [] && In(s, s.budget.queue[0], Abandoned)
    case _ => false
  }

  /** The event releases a slot that no admission had taken. */
  predicate Overreleases(s: System, ev: Event) {
    Enabled(s, ev) && ev.Finish? && s.calls[ev.call] == Unadmitted
  }

  /** The guard under which `admit_or_queue` returns False. */
  predicate Drops(s: System, cfg: Config, ev: Event) {
    Enabled(s, ev) && ev.Arrive? && Locked(s.budget) && OverBackpressure(s.budget, cfg.limit)
  }

  predicate Queues(s: System, cfg: Config, ev: Event) {
    Enabled(s, ev) && ev.Arrive? && Locked(s.budget) && !OverBackpressure(s.budget, cfg.limit)
  }

  predicate HandsOver(s: System, ev: Event) {
    Enabled(s, ev) && ev.Finish? && s.budget.queue != []
  }

  function QueuedByStep(s: System, cfg: Config, ev: Event): seq<nat> {
    if Queues(s, cfg, ev) then [ev.call] else []
  }

  function HandedByStep(s: System, ev: Event): seq<nat> {
    if HandsOver(s, ev) then [s.budget.queue[0]] else []
  }

  function ExpiredByStep(s: System, ev: Event): set<nat> {
    if ev.Expire? && In(s, ev.call, Waiting) then {ev.call} else {}
  }

  function Losses(s: System, cfg: Config, evs: seq<Event>): nat
    decreases |evs|
  {
    if evs == [] then 0
    else (if Loses(s, evs[0]) then 1 else 0) + Losses(Step(s, cfg, evs[0]), cfg, evs[1..])
  }

  function Overreleased(s: System, cfg: Config, evs: seq<Event>): nat
    decreases |evs|
  {
    if evs == [] then 0
    else (if Overreleases(s, evs[0]) then 1 else 0) + Overreleased(Step(s, cfg, evs[0]), cfg, evs[1..])
  }

  function Dropped(s: System, cfg: Config, evs: seq<Event>): nat
    decreases |evs|
  {
    if evs == [] then 0
    else (if Drops(s, cfg, evs[0]) then 1 else 0) + Dropped(Step(s, cfg, evs[0]), cfg, evs[1..])
  }

  /** The entries queued during the run, in queueing order. */
  function Enqueued(s: System, cfg: Config, evs: seq<Event>): seq<nat>
    decreases |evs|
  {
    if evs == [] then []
    else QueuedByStep(s, cfg, evs[0]) + Enqueued(Step(s, cfg, evs[0]), cfg, evs[1..])
  }

  /** The entries handed a slot during the run, in the order of the hand-overs. */
  function HandedOver(s: System, cfg: Config, evs: seq<Event>): seq<nat>
    decreases |evs|
  {
    if evs == [] then []
    else HandedByStep(s, evs[0]) + HandedOver(Step(s, cfg, evs[0]), cfg, evs[1..])
  }

  /** The entries whose timeout fired while they were still queued. */
  function Expired(s: System, cfg: Config, evs: seq<Event>): set<nat>
    decreases |evs|
  {
    if evs == [] then {}
    else ExpiredByStep(s, evs[0]) + Expired(Step(s, cfg, evs[0]), cfg, evs[1..])
  }

  // ------------------------------------------- counting calls

  function CallsIn(calls: map<nat, Phase>, p: Phase): set<nat> {
    set c | c in calls && calls[c] == p
  }

  function Count(s: System, p: Phase): nat {
    |CallsIn(s.calls, p)|
  }

  lemma CallsInAfterUpdate(calls: map<nat, Phase>, c: nat, p: Phase, q: Phase)
    ensures CallsIn(calls[c := p], q) == if p == q then CallsIn(calls, q) + {c} else CallsIn(calls, q) - {c}
  {
  }

  lemma CountAfterUpdate(calls: map<nat, Phase>, c: nat, p: Phase, q: Phase)
    ensures |CallsIn(calls[c := p], q)|
      == |CallsIn(calls, q)| - (if c in calls && calls[c] == q then 1 else 0) + (if p == q then 1 else 0)
  {
    CallsInAfterUpdate(calls, c, p, q);
    assert c in CallsIn(calls, q) <==> c in calls && calls[c] == q;
  }

  /** Slots that exist: free, in use, or handed over and not yet taken up. */
  function Slots(s: System): nat {
    s.budget.permits + Count(s, Running) + Count(s, Granted)
  }

  /** Inner calls in flight, admitted or not. */
  function InFlight(s: System): nat {
    Count(s, Running) + Count(s, Unadmitted)
  }

  // ------------------------------------------- what every step keeps

  predicate Distinct(q: seq<nat>) {
    forall i, j :: 0 <= i < j < |q| ==> q[i] != q[j]
  }

  /** The queue holds exactly the entries of waiting and abandoned calls, once each, and it
      is empty whenever a permit is free. */
  ghost predicate Inv(s: System) {
    && Distinct(s.budget.queue)
    && (forall c :: c in s.budget.queue <==> In(s, c, Waiting) || In(s, c, Abandoned))
    && (s.budget.queue != [] ==> Locked(s.budget))
  }

  lemma RemoveFirstIsRemoval(q: seq<nat>, c: nat)
    requires Distinct(q)
    ensures Distinct(RemoveFirst(q, c))
    ensures forall x :: x in RemoveFirst(q, c) <==> x in q && x != c
  {
    if q != [] && q[0] != c {
      RemoveFirstIsRemoval(q[1..], c);
      assert forall x :: x in q <==> x == q[0] || x in q[1..];
      assert q[0] !in RemoveFirst(q[1..], c);
    } else if q != [] {
      assert forall x :: x in q <==> x == q[0] || x in q[1..];
    }
  }

  lemma TailIsDistinct(q: seq<nat>)
    requires q != [] && Distinct(q)
    ensures Distinct(q[1..]) && q[0] !in q[1..]
    ensures forall x :: x in q <==> x == q[0] || x in q[1..]
  {
  }

  lemma ArrivalKeepsInv(s: System, cfg: Config, c: nat)
    requires Inv(s) && c !in s.calls
    ensures Inv(Arrival(s, cfg, c))
  {
    var q := s.budget.queue;
    assert c !in q;
    assert forall x :: x in q + [c] <==> x in q || x == c;
  }

  lemma CompletionKeepsInv(s: System, c: nat)
    requires Inv(s) && Enabled(s, Finish(c))
    ensures Inv(Completion(s, c))
  {
    if s.budget.queue != [] {
      TailIsDistinct(s.budget.queue);
      assert s.budget.queue[0] in s.budget.queue;
    }
  }

  lemma StepKeepsInv(s: System, cfg: Config, ev: Event)
    requires Inv(s)
    ensures Inv(Step(s, cfg, ev))
  {
    if Enabled(s, ev) {
      match ev
      case Arrive(c) => ArrivalKeepsInv(s, cfg, c);
      case Resume(c) =>
      case Expire(c) => RemoveFirstIsRemoval(s.budget.queue, c);
      case Cancel(c) =>
      case Finish(c) => CompletionKeepsInv(s, c);
    }
  }

  lemma {:induction false} RunKeepsInv(s: System, cfg: Config, evs: seq<Event>)
    decreases |evs|
    requires Inv(s)
    ensures Inv(Run(s, cfg, evs))
  {
    if evs != [] {
      StepKeepsInv(s, cfg, evs[0]);
      RunKeepsInv(Step(s, cfg, evs[0]), cfg, evs[1..]);
    }
  }

  // ------------------------------------------- slot conservation

  lemma StepMovesSlots(s: System, cfg: Config, ev: Event)
    requires Inv(s)
    ensures Slots(Step(s, cfg, ev)) + (if Loses(s, ev) then 1 else 0)
      == Slots(s) + (if Overreleases(s, ev) then 1 else 0)
    ensures Step(s, cfg, ev).budget.active - Count(Step(s, cfg, ev), Running)
      == s.budget.active - Count(s, Running) - (if Overreleases(s, ev) then 1 else 0)
    ensures Count(Step(s, cfg, ev), Unadmitted) + (if Overreleases(s, ev) then 1 else 0)
      == Count(s, Unadmitted) + (if Drops(s, cfg, ev) && !cfg.enforcesDrops then 1 else 0)
  {
    if Enabled(s, ev) {
      var s' := Step(s, cfg, ev);
      var c := ev.call;
      if ev.Finish? {
        var mid := s.calls[c := Finished];
        CountAfterUpdates(s.calls, c, Finished);
        if s.budget.queue != [] {
          var h := s.budget.queue[0];
          assert h in s.budget.queue;
          CountAfterUpdates(mid, h, s'.calls[h]);
        }
      } else {
        CountAfterUpdates(s.calls, c, s'.calls[c]);
      }
    }
  }

  lemma CountAfterUpdates(calls: map<nat, Phase>, c: nat, p: Phase)
    ensures forall q | q in {Running, Granted, Unadmitted} ::
      (|CallsIn(calls[c := p], q)|
      == |CallsIn(calls, q)| - (if c in calls && calls[c] == q then 1 else 0) + (if p == q then 1 else 0))
  {
    CountAfterUpdate(calls, c, p, Running);
    CountAfterUpdate(calls, c, p, Granted);
    CountAfterUpdate(calls, c, p, Unadmitted);
  }

  lemma {:induction false} RunMovesSlots(s: System, cfg: Config, evs: seq<Event>)
    decreases |evs|
    requires Inv(s)
    ensures Slots(Run(s, cfg, evs)) + Losses(s, cfg, evs) == Slots(s) + Overreleased(s, cfg, evs)
    ensures Run(s, cfg, evs).budget.active - Count(Run(s, cfg, evs), Running)
      == s.budget.active - Count(s, Running) - Overreleased(s, cfg, evs)
    ensures Count(Run(s, cfg, evs), Unadmitted) + Overreleased(s, cfg, evs)
      == Count(s, Unadmitted) + (if cfg.enforcesDrops then 0 else Dropped(s, cfg, evs))
  {
    if evs != [] {
      StepKeepsInv(s, cfg, evs[0]);
      StepMovesSlots(s, cfg, evs[0]);
      RunMovesSlots(Step(s, cfg, evs[0]), cfg, evs[1..]);
    }
  }

  /** Slot conservation for every interleaving: free permits, running calls and granted
      calls add up to the cap, less the slots thrown away, plus the releases that matched
      no admission; `_active` is off by the same unmatched releases. */
  lemma SlotConservation(cap: nat, cfg: Config, evs: seq<Event>)
    ensures var s := Run(Init(cap), cfg, evs);
      && s.budget.permits + Count(s, Running) + Count(s, Granted) + Losses(Init(cap), cfg, evs)
         == cap + Overreleased(Init(cap), cfg, evs)
      && s.budget.active == Count(s, Running) - Overreleased(Init(cap), cfg, evs)
  {
    NothingAtFirst(cap);
    RunMovesSlots(Init(cap), cfg, evs);
  }

  lemma NothingAtFirst(cap: nat)
    ensures Inv(Init(cap)) && Slots(Init(cap)) == cap && InFlight(Init(cap)) == 0
  {
    assert forall p :: CallsIn(Init(cap).calls, p) == {};
  }

  /** Every inner call in flight holds a slot, and every slot released had been taken. */
  predicate Matched(s: System, cfg: Config, start: System, evs: seq<Event>) {
    Count(s, Unadmitted) == 0 && Overreleased(start, cfg, evs) == 0
  }

  /** A client that acts on the False of `admit_or_queue` never has more than `cap` inner
      calls in flight, in any interleaving, and each of its releases matches an admission. */
  lemma EnforcingClientHoldsCap(cap: nat, limit: Option<int>, evs: seq<Event>)
    ensures var cfg := Config(limit, true);
      var s := Run(Init(cap), cfg, evs);
      InFlight(s) <= cap && Matched(s, cfg, Init(cap), evs) && s.budget.active == Count(s, Running)
  {
    NothingAtFirst(cap);
    RunMovesSlots(Init(cap), Config(limit, true), evs);
  }

  /** The client as written: its calls and releases match exactly in the runs in which no
      arrival meets the drop guard. In every run the calls in flight, with the free, granted
      and lost slots, come to the cap and the drops together, so that at most `cap` calls are
      in flight if and only if free, granted and lost slots make up for the drops. */
  lemma ClientMatchesIffNothingDropped(cap: nat, limit: Option<int>, evs: seq<Event>)
    ensures var cfg := Config(limit, false);
      var s, dropped := Run(Init(cap), cfg, evs), Dropped(Init(cap), cfg, evs);
      var idle := s.budget.permits + Count(s, Granted) + Losses(Init(cap), cfg, evs);
      && (Matched(s, cfg, Init(cap), evs) <==> dropped == 0)
      && InFlight(s) + idle == cap + dropped
      && (InFlight(s) <= cap <==> dropped <= idle)
  {
    NothingAtFirst(cap);
    RunMovesSlots(Init(cap), Config(limit, false), evs);
  }

  /** HIGH and LOW have no drop guard, so for them the bound needs no condition. */
  lemma {:induction false} WithoutLimitNothingDrops(s: System, cfg: Config, evs: seq<Event>)
    decreases |evs|
    requires cfg.limit == None
    ensures Dropped(s, cfg, evs) == 0
  {
    if evs != [] {
      WithoutLimitNothingDrops(Step(s, cfg, evs[0]), cfg, evs[1..]);
    }
  }

  lemma HighAndLowHoldCap(cap: nat, evs: seq<Event>)
    ensures InFlight(Run(Init(cap), Config(None, false), evs)) <= cap
  {
    WithoutLimitNothingDrops(Init(cap), Config(None, false), evs);
    ClientMatchesIffNothingDropped(cap, None, evs);
  }

  /** One call running, one waiting, and one that was dropped and runs all the same. */
  const ONE_TOO_MANY := System(TierBudget(0, [1], 1), map[0 := Running, 1 := Waiting, 2 := Unadmitted])

  /** The same after the dropped call's release, which the waiting call took for its own. */
  const TWO_ON_ONE_SLOT := System(TierBudget(0, [], 1), map[0 := Running, 1 := Running, 2 := Finished])

  lemma DropLeavesOneTooMany()
    ensures Run(Init(1), Config(Some(1), false), [Arrive(0), Arrive(1), Arrive(2)]) == ONE_TOO_MANY
  {
    var cfg := Config(Some(1), false);
    RunOf3(Init(1), cfg, Arrive(0), Arrive(1), Arrive(2));
    var s0 := Step(Init(1), cfg, Arrive(0));
    assert s0 == System(TierBudget(0, [], 1), map[0 := Running]);
    var s1 := Step(s0, cfg, Arrive(1));
    assert s1 == System(TierBudget(0, [1], 1), map[0 := Running, 1 := Waiting]);
  }

  lemma UnmatchedReleaseDoublesSlot()
    ensures Run(ONE_TOO_MANY, Config(Some(1), false), [Finish(2), Resume(1)]) == TWO_ON_ONE_SLOT
  {
    var cfg := Config(Some(1), false);
    var s := Step(ONE_TOO_MANY, cfg, Finish(2));
    assert s == System(TierBudget(0, [], 0), map[0 := Running, 1 := Granted, 2 := Finished]);
    assert Step(s, cfg, Resume(1)) == TWO_ON_ONE_SLOT;
    assert Run(s, cfg, [Resume(1)]) == TWO_ON_ONE_SLOT;
    assert [Finish(2), Resume(1)][1..] == [Resume(1)];
  }

  lemma CountOneTooMany()
    ensures InFlight(ONE_TOO_MANY) == 2
  {
    assert CallsIn(ONE_TOO_MANY.calls, Running) == {0} && CallsIn(ONE_TOO_MANY.calls, Unadmitted) == {2};
  }

  lemma CountTwoOnOneSlot()
    ensures Count(TWO_ON_ONE_SLOT, Running) == 2 && TWO_ON_ONE_SLOT.budget.active == 1
  {
    assert CallsIn(TWO_ON_ONE_SLOT.calls, Running) == {0, 1};
  }

  /** A BEST_EFFORT run as written that breaks the cap of one, first through the dropped
      call itself and then through its unmatched release, which also drives `_active`
      below the number of running calls. */
  lemma DroppedCallBreaksCap()
    ensures var cfg := Config(Some(1), false);
      var s := Run(Init(1), cfg, [Arrive(0), Arrive(1), Arrive(2)]);
      var t := Run(Init(1), cfg, [Arrive(0), Arrive(1), Arrive(2)] + [Finish(2), Resume(1)]);
      InFlight(s) == 2 && Count(t, Running) == 2 && t.budget.active == 1
  {
    DropLeavesOneTooMany();
    UnmatchedReleaseDoublesSlot();
    RunConcat(Init(1), Config(Some(1), false), [Arrive(0), Arrive(1), Arrive(2)], [Finish(2), Resume(1)]);
    CountOneTooMany();
    CountTwoOnOneSlot();
  }

  lemma RunOf3(s: System, cfg: Config, a: Event, b: Event, c: Event)
    ensures Run(s, cfg, [a, b, c]) == Step(Step(Step(s, cfg, a), cfg, b), cfg, c)
  {
    var s1 := Step(s, cfg, a);
    assert [a, b, c][1..] == [b, c] && [b, c][1..] == [c];
    assert Run(s, cfg, [a, b, c]) == Run(s1, cfg, [b, c]);
    assert Run(s1, cfg, [b, c]) == Run(Step(s1, cfg, b), cfg, [c]);
  }

  lemma {:induction false} RunConcat(s: System, cfg: Config, evs: seq<Event>, more: seq<Event>)
    decreases |evs|
    ensures Run(s, cfg, evs + more) == Run(Run(s, cfg, evs), cfg, more)
    ensures Losses(s, cfg, evs + more) == Losses(s, cfg, evs) + Losses(Run(s, cfg, evs), cfg, more)
  {
    if evs == [] {
      assert evs + more == more;
    } else {
      assert (evs + more)[1..] == evs[1..] + more;
      RunConcat(Step(s, cfg, evs[0]), cfg, evs[1..], more);
    }
  }

  // ------------------------------------------- backpressure

  /** Over every run, what becomes of a new call: it runs at once exactly when a permit is free;
      it waits exactly when none is free and the tier has no limit or fewer wait than that; and
      otherwise it is dropped, which for the client as written means that it runs unadmitted. */
  lemma ArrivalIsPlaced(cap: nat, cfg: Config, evs: seq<Event>, c: nat)
    requires c !in Run(Init(cap), cfg, evs).calls
    ensures var s, s' := Run(Init(cap), cfg, evs), Step(Run(Init(cap), cfg, evs), cfg, Arrive(c));
      && (In(s', c, Running) <==> s.budget.permits > 0)
      && (In(s', c, Waiting) <==> s.budget.permits == 0 && (cfg.limit.Some? ==> |s.budget.queue| < cfg.limit.value))
      && (In(s', c, if cfg.enforcesDrops then Finished else Unadmitted)
          <==> s.budget.permits == 0 && cfg.limit.Some? && cfg.limit.value <= |s.budget.queue|)
      && (Drops(s, cfg, Arrive(c)) <==> s.budget.permits == 0 && cfg.limit.Some? && cfg.limit.value <= |s.budget.queue|)
  {
    ArrivalOutcome(Run(Init(cap), cfg, evs).budget, cfg.limit, c);
  }

  lemma {:induction false} RemoveFirstShrinks(q: seq<nat>, c: nat)
    ensures |RemoveFirst(q, c)| <= |q|
  {
    if q != [] {
      RemoveFirstShrinks(q[1..], c);
    }
  }

  lemma {:induction false} QueueStaysShort(s: System, cfg: Config, evs: seq<Event>)
    requires cfg.limit.Some? && |s.budget.queue| <= cfg.limit.value
    ensures |Run(s, cfg, evs).budget.queue| <= cfg.limit.value
    decreases |evs|
  {
    if evs != [] {
      if evs[0].Arrive? {
        ArrivalOutcome(s.budget, cfg.limit, evs[0].call);
      } else if evs[0].Expire? {
        RemoveFirstShrinks(s.budget.queue, evs[0].call);
      }
      QueueStaysShort(Step(s, cfg, evs[0]), cfg, evs[1..]);
    }
  }

  /** Over every run of a tier with a limit, no more calls wait than that, and an arrival is
      dropped exactly when no permit is free and precisely as many wait. A tier without a limit
      drops none. */
  lemma DropsOnlyWhenFull(cap: nat, cfg: Config, evs: seq<Event>, c: nat)
    requires cfg.limit.Some? ==> cfg.limit.value >= 0
    ensures var s := Run(Init(cap), cfg, evs);
      && (cfg.limit.Some? ==> |s.budget.queue| <= cfg.limit.value)
      && (Drops(s, cfg, Arrive(c)) <==>
           c !in s.calls && s.budget.permits == 0 && cfg.limit.Some? && |s.budget.queue| == cfg.limit.value)
      && (cfg.limit.None? ==> Dropped(Init(cap), cfg, evs) == 0)
  {
    if cfg.limit.Some? {
      QueueStaysShort(Init(cap), cfg, evs);
    } else {
      WithoutLimitNothingDrops(Init(cap), cfg, evs);
    }
    ArrivalOutcome(Run(Init(cap), cfg, evs).budget, cfg.limit, c);
    if c !in Run(Init(cap), cfg, evs).calls {
      ArrivalIsPlaced(cap, cfg, evs, c);
    }
  }

  /** So in runs over all tiers HIGH and LOW never drop, and BEST_EFFORT drops just the arrivals
      that find no free permit and `backpressure` calls waiting. */
  lemma OnlyFullBestEffortDrops(st: Settings, evs: seq<(TaskPriority, Event)>, t: TaskPriority, c: nat)
    requires t != Critical && st.backpressure >= 0
    ensures t in RunTiers(InitTiers(st), st, evs)
    ensures var s := RunTiers(InitTiers(st), st, evs)[t];
      Drops(s, ConfigOf(st, t), Arrive(c)) <==>
        && t == BestEffort && c !in s.calls
        && s.budget.permits == 0 && |s.budget.queue| == st.backpressure
  {
    TiersRunIndependently(InitTiers(st), st, evs, t);
    DropsOnlyWhenFull(CapOf(st, t), ConfigOf(st, t), EventsOf(evs, t), c);
  }

  // ------------------------------------------- lost slots are lost for good

  /** Behind a standing queue every slot there still is has a call running or about to run on
      it: with any client, as many as the cap and the unmatched releases less the losses. So a
      queue is served until all slots are lost. */
  lemma QueueIsServed(cap: nat, cfg: Config, evs: seq<Event>)
    requires Run(Init(cap), cfg, evs).budget.queue != []
    ensures var s := Run(Init(cap), cfg, evs);
      var slots := cap + Overreleased(Init(cap), cfg, evs) - Losses(Init(cap), cfg, evs);
      && Count(s, Running) + Count(s, Granted) == slots
      && (Count(s, Running) + Count(s, Granted) > 0 <==> slots > 0)
  {
    NothingAtFirst(cap);
    RunKeepsInv(Init(cap), cfg, evs);
    RunMovesSlots(Init(cap), cfg, evs);
  }

  /** With any client, a tier has its whole capacity exactly when losses and unmatched releases
      are equal in number. */
  lemma CapacityKeptIffBalanced(cap: nat, cfg: Config, evs: seq<Event>)
    ensures Slots(Run(Init(cap), cfg, evs)) == cap
      <==> Losses(Init(cap), cfg, evs) == Overreleased(Init(cap), cfg, evs)
  {
    NothingAtFirst(cap);
    RunMovesSlots(Init(cap), cfg, evs);
  }

  lemma WithoutDropsNothingOverreleased(cap: nat, cfg: Config, evs: seq<Event>)
    requires cfg.enforcesDrops || cfg.limit == None
    ensures Overreleased(Init(cap), cfg, evs) == 0
  {
    NothingAtFirst(cap);
    RunMovesSlots(Init(cap), cfg, evs);
    if cfg.limit == None {
      WithoutLimitNothingDrops(Init(cap), cfg, evs);
    }
  }

  /** HIGH and LOW of the client as written, and every tier of one that enforces drops, keep
      their capacity exactly in the runs that lose no slot, and serve their queue until they
      have lost `cap` of them. */
  lemma CapacityKeptIffNothingLost(cap: nat, cfg: Config, evs: seq<Event>)
    requires cfg.enforcesDrops || cfg.limit == None
    ensures var s, lost := Run(Init(cap), cfg, evs), Losses(Init(cap), cfg, evs);
      && (Slots(s) == cap <==> lost == 0)
      && (s.budget.queue != [] ==> (Count(s, Running) + Count(s, Granted) > 0 <==> lost < cap))
  {
    WithoutDropsNothingOverreleased(cap, cfg, evs);
    CapacityKeptIffBalanced(cap, cfg, evs);
    if Run(Init(cap), cfg, evs).budget.queue != [] {
      QueueIsServed(cap, cfg, evs);
    }
  }

  /** A timeout that fires between the grant and the waiter's next step loses the slot. */
  lemma RacedTimeoutLosesSlot()
    ensures Losses(Init(1), Config(None, true), [Arrive(0), Arrive(1), Finish(0), Expire(1)]) == 1
  {
    assert [Arrive(0), Arrive(1), Finish(0), Expire(1)][1..] == [Arrive(1), Finish(0), Expire(1)];
    assert [Arrive(1), Finish(0), Expire(1)][1..] == [Finish(0), Expire(1)];
    assert [Finish(0), Expire(1)][1..] == [Expire(1)];
  }

  /** Once `cap` slots have been lost, no call of a HIGH or LOW tier ever runs again. */
  lemma TierDiesWhenAllSlotsLost(cap: nat, evs: seq<Event>, more: seq<Event>)
    requires Losses(Init(cap), Config(None, false), evs) == cap
    ensures var s := Run(Init(cap), Config(None, false), evs + more);
      InFlight(s) == 0 && Locked(s.budget)
  {
    var cfg := Config(None, false);
    NothingAtFirst(cap);
    WithoutLimitNothingDrops(Init(cap), cfg, evs + more);
    RunConcat(Init(cap), cfg, evs, more);
    RunMovesSlots(Init(cap), cfg, evs + more);
  }

  // ------------------------------------------- first in, first out

  function Without(q: seq<nat>, gone: set<nat>): seq<nat> {
    if q == [] then []
    else (if q[0] in gone then [] else [q[0]]) + Without(q[1..], gone)
  }

  lemma WithoutStep(q: seq<nat>, more: seq<nat>, gone: set<nat>)
    requires q != []
    ensures Without(q + more, gone) == (if q[0] in gone then [] else [q[0]]) + Without(q[1..] + more, gone)
  {
    assert (q + more)[1..] == q[1..] + more;
  }

  lemma {:induction false} WithoutOfFirst(q: seq<nat>, more: seq<nat>, c: nat, gone: set<nat>)
    requires Distinct(q) && c !in more && c !in gone
    ensures Without(q + more, gone + {c}) == Without(RemoveFirst(q, c) + more, gone)
  {
    if q == [] {
      WithoutIrrelevant(q + more, c, gone);
    } else {
      TailIsDistinct(q);
      WithoutStep(q, more, gone + {c});
      if q[0] == c {
        WithoutIrrelevant(q[1..] + more, c, gone);
      } else {
        var removed := RemoveFirst(q, c);
        assert removed[0] == q[0] && removed[1..] == RemoveFirst(q[1..], c);
        WithoutOfFirst(q[1..], more, c, gone);
        WithoutStep(removed, more, gone);
      }
    }
  }

  lemma {:induction false} WithoutIrrelevant(q: seq<nat>, c: nat, gone: set<nat>)
    requires c !in q
    ensures Without(q, gone + {c}) == Without(q, gone)
  {
    if q != [] {
      WithoutIrrelevant(q[1..], c, gone);
    }
  }

  /** A call that has left `Waiting` is neither queued nor timed out in the queue again. */
  lemma {:induction false} NeverQueuedAgain(s: System, cfg: Config, evs: seq<Event>, c: nat)
    decreases |evs|
    requires Inv(s) && c in s.calls
    ensures c !in Enqueued(s, cfg, evs)
    ensures s.calls[c] != Waiting ==> c !in Expired(s, cfg, evs)
  {
    if evs != [] {
      StepKeepsInv(s, cfg, evs[0]);
      var s' := Step(s, cfg, evs[0]);
      assert c in s'.calls && (s.calls[c] != Waiting ==> s'.calls[c] != Waiting);
      NeverQueuedAgain(s', cfg, evs[1..], c);
    }
  }

  /** One event, seen together with what is queued (`enq`) and what times out (`gone`) later. */
  lemma StepIsOrderly(s: System, cfg: Config, ev: Event, enq: seq<nat>, gone: set<nat>)
    requires Inv(s)
    requires forall c | c in Step(s, cfg, ev).calls :: c !in enq
    requires forall c | c in Step(s, cfg, ev).calls && Step(s, cfg, ev).calls[c] != Waiting :: c !in gone
    ensures HandedByStep(s, ev) + Without(Step(s, cfg, ev).budget.queue + enq, gone)
      == Without(s.budget.queue + (QueuedByStep(s, cfg, ev) + enq), ExpiredByStep(s, ev) + gone)
  {
    var q, s' := s.budget.queue, Step(s, cfg, ev);
    assert [] + enq == enq && {} + gone == gone;
    if Queues(s, cfg, ev) {
      Assoc(q, [ev.call], enq);
    } else if HandsOver(s, ev) {
      HandOverEndsWaiting(s, cfg, ev);
      WithoutHead(q, enq, gone);
    } else if ev.Expire? && In(s, ev.call, Waiting) {
      ExpiryIsOrderly(s, cfg, ev.call, enq, gone);
    } else {
      QueueUntouched(s, cfg, ev);
    }
  }

  lemma ExpiryIsOrderly(s: System, cfg: Config, c: nat, enq: seq<nat>, gone: set<nat>)
    requires Inv(s) && In(s, c, Waiting) && c !in enq && c !in gone
    ensures Without(Step(s, cfg, Expire(c)).budget.queue + enq, gone) == Without(s.budget.queue + enq, {c} + gone)
  {
    WithoutOfFirst(s.budget.queue, enq, c, gone);
    assert {c} + gone == gone + {c};
  }

  lemma HandOverEndsWaiting(s: System, cfg: Config, ev: Event)
    requires Inv(s) && HandsOver(s, ev)
    ensures var h, s' := s.budget.queue[0], Step(s, cfg, ev);
      h in s'.calls && s'.calls[h] != Waiting && s'.budget.queue == s.budget.queue[1..]
  {
    assert s.budget.queue[0] in s.budget.queue;
  }

  lemma QueueUntouched(s: System, cfg: Config, ev: Event)
    requires Inv(s) && !Queues(s, cfg, ev) && !HandsOver(s, ev) && !(ev.Expire? && In(s, ev.call, Waiting))
    ensures Step(s, cfg, ev).budget.queue == s.budget.queue
  {
    if ev.Expire? && Enabled(s, ev) {
      RemoveAbsent(s.budget.queue, ev.call);
    }
  }

  lemma WithoutHead(q: seq<nat>, more: seq<nat>, gone: set<nat>)
    requires q != [] && q[0] !in gone
    ensures Without(q + more, gone) == [q[0]] + Without(q[1..] + more, gone)
  {
    WithoutStep(q, more, gone);
  }

  lemma {:induction false} QueueIsOrderlyFrom(s: System, cfg: Config, evs: seq<Event>)
    requires Inv(s)
    ensures HandedOver(s, cfg, evs) + Run(s, cfg, evs).budget.queue
      == Without(s.budget.queue + Enqueued(s, cfg, evs), Expired(s, cfg, evs))
    decreases |evs|
  {
    var q := s.budget.queue;
    if evs == [] {
      assert q + [] == q;
      WithoutNothing(q);
    } else {
      var ev, s', rest := evs[0], Step(s, cfg, evs[0]), evs[1..];
      var enq, gone := Enqueued(s', cfg, rest), Expired(s', cfg, rest);
      StepKeepsInv(s, cfg, ev);
      QueueIsOrderlyFrom(s', cfg, rest);
      forall c | c in s'.calls
        ensures c !in enq && (s'.calls[c] != Waiting ==> c !in gone)
      {
        NeverQueuedAgain(s', cfg, rest, c);
      }
      StepIsOrderly(s, cfg, ev, enq, gone);
      Assoc(HandedByStep(s, ev), HandedOver(s', cfg, rest), Run(s', cfg, rest).budget.queue);
    }
  }

  lemma Assoc(a: seq<nat>, b: seq<nat>, c: seq<nat>)
    ensures (a + b) + c == a + (b + c)
  {
  }

  lemma {:induction false} WithoutNothing(q: seq<nat>)
    ensures Without(q, {}) == q
  {
    if q != [] {
      WithoutNothing(q[1..]);
    }
  }

  lemma {:induction false} RemoveAbsent(q: seq<nat>, c: nat)
    requires c !in q
    ensures RemoveFirst(q, c) == q
  {
    if q != [] {
      RemoveAbsent(q[1..], c);
    }
  }

  /** First in, first out over every run: the entries handed a slot, followed by those still
      queued, are the entries in the order they queued, less those that timed out there. */
  lemma GrantsFollowQueueingOrder(cap: nat, cfg: Config, evs: seq<Event>)
    ensures HandedOver(Init(cap), cfg, evs) + Run(Init(cap), cfg, evs).budget.queue
      == Without(Enqueued(Init(cap), cfg, evs), Expired(Init(cap), cfg, evs))
  {
    NothingAtFirst(cap);
    QueueIsOrderlyFrom(Init(cap), cfg, evs);
    assert [] + Enqueued(Init(cap), cfg, evs) == Enqueued(Init(cap), cfg, evs);
  }

  /** No barging: when an arrival is admitted at once, every entry queued before it has
      already been handed a slot or has timed out. */
  lemma NoBarging(cap: nat, cfg: Config, evs: seq<Event>, c: nat)
    requires var s := Run(Init(cap), cfg, evs);
      c !in s.calls && In(Step(s, cfg, Arrive(c)), c, Running)
    ensures HandedOver(Init(cap), cfg, evs)
      == Without(Enqueued(Init(cap), cfg, evs), Expired(Init(cap), cfg, evs))
  {
    NothingAtFirst(cap);
    RunKeepsInv(Init(cap), cfg, evs);
    GrantsFollowQueueingOrder(cap, cfg, evs);
    var h := HandedOver(Init(cap), cfg, evs);
    assert h + [] == h;
  }

  // ------------------------------------------- all tiers together

  type Tiers = map<TaskPriority, System>

  datatype Settings = Settings(high: nat, low: nat, backpressure: int, enforcesDrops: bool)

  function ConfigOf(st: Settings, t: TaskPriority): Config {
    Config(if t == BestEffort then Some(st.backpressure) else None, st.enforcesDrops)
  }

  function CapOf(st: Settings, t: TaskPriority): nat {
    match t
    case High => st.high
    case Low => st.low
    case _ => 1
  }

  function InitTiers(st: Settings): Tiers {
    map t | t in {High, Low, BestEffort} :: Init(CapOf(st, t))
  }

  /** CRITICAL calls have no tier here: the client sends them straight to the inner client. */
  function RunTiers(m: Tiers, st: Settings, evs: seq<(TaskPriority, Event)>): Tiers {
    if evs == [] then m
    else
      var (t, ev) := evs[0];
      RunTiers(if t in m then m[t := Step(m[t], ConfigOf(st, t), ev)] else m, st, evs[1..])
  }

  function EventsOf(evs: seq<(TaskPriority, Event)>, t: TaskPriority): seq<Event> {
    if evs == [] then []
    else (if evs[0].0 == t then [evs[0].1] else []) + EventsOf(evs[1..], t)
  }

  lemma {:induction false} TiersRunIndependently(m: Tiers, st: Settings, evs: seq<(TaskPriority, Event)>,
                                                 t: TaskPriority)
    requires t in m
    ensures t in RunTiers(m, st, evs)
    ensures RunTiers(m, st, evs)[t] == Run(m[t], ConfigOf(st, t), EventsOf(evs, t))
    decreases |evs|
  {
    if evs != [] {
      var (u, ev) := evs[0];
      var m' := if u in m then m[u := Step(m[u], ConfigOf(st, u), ev)] else m;
      TiersRunIndependently(m', st, evs[1..], t);
      if u == t {
        assert EventsOf(evs, t)[1..] == EventsOf(evs[1..], t);
      } else {
        assert EventsOf(evs, t) == EventsOf(evs[1..], t);
      }
    }
  }

  /** The composed bound for every interleaving of calls over all tiers, whatever the
      CRITICAL calls do: the cap holds for HIGH and LOW always and for BEST_EFFORT when drops
      are enforced; as written it holds if and only if the tier's free, granted and lost slots
      make up for its drops. */
  lemma ComposedCap(st: Settings, evs: seq<(TaskPriority, Event)>, t: TaskPriority)
    requires t != Critical
    ensures t in RunTiers(InitTiers(st), st, evs)
    ensures var s, cap, cfg := RunTiers(InitTiers(st), st, evs)[t], CapOf(st, t), ConfigOf(st, t);
      var mine := EventsOf(evs, t);
      && (t == High ==> InFlight(s) <= st.high) && (t == Low ==> InFlight(s) <= st.low)
      && (t == BestEffort && st.enforcesDrops ==> InFlight(s) <= 1)
      && (!st.enforcesDrops ==>
           (InFlight(s) <= cap <==>
             Dropped(Init(cap), cfg, mine) <= s.budget.permits + Count(s, Granted) + Losses(Init(cap), cfg, mine)))
  {
    var mine := EventsOf(evs, t);
    TiersRunIndependently(InitTiers(st), st, evs, t);
    if st.enforcesDrops {
      EnforcingClientHoldsCap(CapOf(st, t), ConfigOf(st, t).limit, mine);
    } else {
      ClientMatchesIffNothingDropped(CapOf(st, t), ConfigOf(st, t).limit, mine);
    }
    if t != BestEffort {
      WithoutLimitNothingDrops(Init(CapOf(st, t)), ConfigOf(st, t), mine);
    }
  }
}
