/**
  `InMemoryTurnResultStore` of src/tta/api/turn_results.py.

  `Store` holds the two dictionaries; an event is known by the turn it was created for and
  a serial number, and `signalled` says which events have been set. The functions are the
  pieces of code between awaits; the class performs them in place. Below it, runs of any
  number of waiters on any turns.
  */
module MemoryTurnResults {
  import opened Wrappers

  type Turn = string
  type Payload = string

  datatype Signal = Signal(turn: Turn, serial: nat)

  datatype Store = Store(
    results: map<Turn, Payload>,
    events: map<Turn, Signal>,
    signalled: set<Signal>,
    next: nat)

  function Publish(s: Store, t: Turn, r: Payload): Store {
    s.(results := s.results[t := r],
       signalled := s.signalled + if t in s.events then {s.events[t]} else {})
  }

  /** `wait_for_result` up to its await: an answer, or the event to wait on. */
  datatype Begun = Answer(result: Payload) | Wait(event: Signal)

  function BeginWait(s: Store, t: Turn): (Store, Begun) {
    if t in s.results then (s, Answer(s.results[t]))
    else if t in s.events then (s, Wait(s.events[t]))
    else (s.(events := s.events[t := Signal(t, s.next)], next := s.next + 1), Wait(Signal(t, s.next)))
  }

  /** The `finally` block, which runs on every way out of the wait. */
  function PopEvent(s: Store, t: Turn): Store {
    s.(events := s.events - {t})
  }

  function Stored(s: Store, t: Turn): Option<Payload> {
    if t in s.results then Some(s.results[t]) else None
  }

  class InMemoryStore {
    var results: map<Turn, Payload>
    var events: map<Turn, Signal>
    var signalled: set<Signal>
    var next: nat

    function Contents(): Store
      reads this
    {
      Store(results, events, signalled, next)
    }

    constructor ()
      ensures Contents() == Store(map[], map[], {}, 0)
    {
      results, events, signalled, next := map[], map[], {}, 0;
    }

    method PublishResult(t: Turn, r: Payload)
      modifies this
      ensures Contents() == Publish(old(Contents()), t, r)
      ensures t in results && results[t] == r && events == old(events)
      ensures forall u | u != t :: (u in results <==> u in old(results)) && (u in results ==> results[u] == old(results)[u])
      ensures forall e :: e in signalled <==> e in old(signalled) || (t in events && e == events[t])
    {
      results := results[t := r];
      if t in events {
        signalled := signalled + {events[t]};
      }
    }

    method Enter(t: Turn) returns (begun: Begun)
      modifies this
      ensures (Contents(), begun) == BeginWait(old(Contents()), t)
      ensures results == old(results) && signalled == old(signalled)
      ensures t in results ==> begun == Answer(results[t]) && events == old(events)
      ensures t !in results ==> t in events && begun == Wait(events[t])
      ensures t !in results && t in old(events) ==> events == old(events)
      ensures forall u | u != t :: (u in events <==> u in old(events)) && (u in events ==> events[u] == old(events)[u])
    {
      if t in results {
        return Answer(results[t]);
      }
      if t !in events {
        events := events[t := Signal(t, next)];
        next := next + 1;
      }
      return Wait(events[t]);
    }

    /** The wait ends because the event was set. */
    method Wake(t: Turn) returns (answer: Option<Payload>)
      modifies this
      ensures Contents() == PopEvent(old(Contents()), t)
      ensures answer == Stored(old(Contents()), t)
      ensures answer == (if t in results then Some(results[t]) else None)
      ensures results == old(results) && signalled == old(signalled) && events == old(events) - {t}
    {
      events := events - {t};
      answer := if t in results then Some(results[t]) else None;
    }

    /** The wait ends because its timeout fired. */
    method GiveUp(t: Turn) returns (answer: Option<Payload>)
      modifies this
      ensures Contents() == PopEvent(old(Contents()), t)
      ensures answer == None
      ensures results == old(results) && signalled == old(signalled) && events == old(events) - {t}
    {
      events := events - {t};
      answer := None;
    }
  }

  // ------------------------------------------- runs

  datatype Waiter =
    | Blocked(turn: Turn, event: Signal)
    | Returned(turn: Turn, answer: Option<Payload>)

  datatype Event =
    | Publication(turn: Turn)
    | Start(waiter: nat, turn: Turn)
    | WakeUp(waiter: nat)
    | LeaveEarly(waiter: nat)   // timeout or cancellation, even after the event was set

  datatype System = System(store: Store, waiters: map<nat, Waiter>)

  const INIT := System(Store(map[], map[], {}, 0), map[])

  predicate IsBlocked(s: System, w: nat) {
    w in s.waiters && s.waiters[w].Blocked?
  }

  predicate Enabled(s: System, ev: Event) {
    match ev
    case Publication(t) => true
    case Start(w, t) => w !in s.waiters
    case WakeUp(w) => IsBlocked(s, w) && s.waiters[w].event in s.store.signalled
    case LeaveEarly(w) => IsBlocked(s, w)
  }

  /** `outcome` gives the one result each turn ends with. */
  function Step(s: System, outcome: Turn -> Payload, ev: Event): System {
    if !Enabled(s, ev) then s else
    match ev
    case Publication(t) => s.(store := Publish(s.store, t, outcome(t)))
    case Start(w, t) =>
      var (store, begun) := BeginWait(s.store, t);
      System(store, s.waiters[w := match begun
        case Answer(r) => Returned(t, Some(r))
        case Wait(e) => Blocked(t, e)])
    case WakeUp(w) =>
      var t := s.waiters[w].turn;
      System(PopEvent(s.store, t), s.waiters[w := Returned(t, Stored(s.store, t))])
    case LeaveEarly(w) =>
      var t := s.waiters[w].turn;
      System(PopEvent(s.store, t), s.waiters[w := Returned(t, None)])
  }

  function Run(s: System, outcome: Turn -> Payload, evs: seq<Event>): System
    decreases |evs|
  {
    if evs == [] then s else Run(Step(s, outcome, evs[0]), outcome, evs[1..])
  }

  // ------------------------------------------- what every step keeps

  ghost predicate StoreInv(s: Store, outcome: Turn -> Payload) {
    && (forall t <- s.results :: s.results[t] == outcome(t))
    && (forall t <- s.events :: s.events[t].turn == t && s.events[t].serial < s.next)
    // only publication sets events
    && (forall e <- s.signalled :: e.turn in s.results)
    && (forall t <- s.events :: t in s.results ==> s.events[t] in s.signalled)
  }

  ghost predicate WaiterInv(s: System, w: nat, outcome: Turn -> Payload)
    requires w in s.waiters
  {
    match s.waiters[w]
    case Blocked(t, e) => e.turn == t && e.serial < s.store.next
    case Returned(t, answer) => answer.Some? ==> answer.value == outcome(t)
  }

  ghost predicate Inv(s: System, outcome: Turn -> Payload) {
    StoreInv(s.store, outcome) && forall w <- s.waiters :: WaiterInv(s, w, outcome)
  }

  lemma StepKeepsInv(s: System, outcome: Turn -> Payload, ev: Event)
    requires Inv(s, outcome)
    ensures Inv(Step(s, outcome, ev), outcome)
  {
  }

  lemma {:induction false} RunKeepsInv(s: System, outcome: Turn -> Payload, evs: seq<Event>)
    requires Inv(s, outcome)
    ensures Inv(Run(s, outcome, evs), outcome)
    decreases |evs|
  {
    if evs != [] {
      StepKeepsInv(s, outcome, evs[0]);
      RunKeepsInv(Step(s, outcome, evs[0]), outcome, evs[1..]);
    }
  }

  // ------------------------------------------- delivery

  /** The event takes the shared event of turn `t` away before the result is published,
      and it is another waiter than `w` that leaves. */
  predicate Deserts(s: System, ev: Event, w: nat) {
    && IsBlocked(s, w) && Enabled(s, ev)
    && ev.LeaveEarly? && ev.waiter != w
    && s.waiters[ev.waiter].turn == s.waiters[w].turn
    && s.waiters[w].turn !in s.store.results
  }

  /** Some co-waiter left early while `w` was blocked and the turn was unpublished. */
  predicate Deserted(s: System, outcome: Turn -> Payload, evs: seq<Event>, w: nat)
    decreases |evs|
  {
    evs != [] && (Deserts(s, evs[0], w) || Deserted(Step(s, outcome, evs[0]), outcome, evs[1..], w))
  }

  /** The waiter's event is the one a publication would set, or has been set. */
  predicate Reachable(s: System, w: nat)
    requires IsBlocked(s, w)
  {
    var t := s.waiters[w].turn;
    if t in s.store.results then s.waiters[w].event in s.store.signalled
    else t in s.store.events && s.store.events[t] == s.waiters[w].event
  }

  lemma StepKeepsReachable(s: System, outcome: Turn -> Payload, ev: Event, w: nat)
    requires Inv(s, outcome) && IsBlocked(s, w) && IsBlocked(Step(s, outcome, ev), w)
    ensures Step(s, outcome, ev).waiters[w] == s.waiters[w]
    ensures Reachable(Step(s, outcome, ev), w) <==> Reachable(s, w) && !Deserts(s, ev, w)
  {
  }

  lemma StartIsReachable(s: System, outcome: Turn -> Payload, ev: Event, w: nat)
    requires Inv(s, outcome) && w !in s.waiters && IsBlocked(Step(s, outcome, ev), w)
    ensures Reachable(Step(s, outcome, ev), w)
  {
  }

  /** A waiter that has returned keeps its answer. */
  lemma {:induction false} OnceReturned(s: System, outcome: Turn -> Payload, evs: seq<Event>, w: nat)
    requires w in s.waiters && s.waiters[w].Returned?
    ensures w in Run(s, outcome, evs).waiters && Run(s, outcome, evs).waiters[w] == s.waiters[w]
    decreases |evs|
  {
    if evs != [] {
      OnceReturned(Step(s, outcome, evs[0]), outcome, evs[1..], w);
    }
  }

  lemma {:induction false} RunKeepsReachable(s: System, outcome: Turn -> Payload, evs: seq<Event>, w: nat)
    requires Inv(s, outcome) && IsBlocked(Run(s, outcome, evs), w)
    ensures Reachable(Run(s, outcome, evs), w) <==>
      (w in s.waiters ==> IsBlocked(s, w) && Reachable(s, w)) && !Deserted(s, outcome, evs, w)
    decreases |evs|
  {
    if w in s.waiters && s.waiters[w].Returned? {
      OnceReturned(s, outcome, evs, w);
    } else if evs != [] {
      var s' := Step(s, outcome, evs[0]);
      StepKeepsInv(s, outcome, evs[0]);
      RunKeepsReachable(s', outcome, evs[1..], w);
      if w in s'.waiters && s'.waiters[w].Returned? {
        OnceReturned(s', outcome, evs[1..], w);
      } else if IsBlocked(s, w) {
        StepKeepsReachable(s, outcome, evs[0], w);
      } else if w in s'.waiters {
        StartIsReachable(s, outcome, evs[0], w);
      }
    }
  }

  /** Delivery, for every interleaving of publications and waiters on any turns: after its
      turn has been published, a waiter still blocked can return exactly when no other waiter
      on the turn left early while it was blocked and the turn unpublished; and what it then
      returns is the result of its own turn. */
  lemma BlockedWaiterIsAnsweredIffNotDeserted(outcome: Turn -> Payload, evs: seq<Event>, w: nat)
    requires var s := Run(INIT, outcome, evs);
      IsBlocked(s, w) && s.waiters[w].turn in s.store.results
    ensures var s := Run(INIT, outcome, evs);
      && (Enabled(s, WakeUp(w)) <==> !Deserted(INIT, outcome, evs, w))
      && (Enabled(s, WakeUp(w)) ==>
           Step(s, outcome, WakeUp(w)).waiters[w]
             == Returned(s.waiters[w].turn, Some(outcome(s.waiters[w].turn))))
  {
    RunKeepsInv(INIT, outcome, evs);
    RunKeepsReachable(INIT, outcome, evs, w);
  }

  /** A deserted waiter is never answered, although the result is stored: in every
      continuation it stays blocked or comes away with None. */
  lemma DesertedWaiterIsNeverAnswered(outcome: Turn -> Payload, evs: seq<Event>, more: seq<Event>, w: nat)
    requires IsBlocked(Run(INIT, outcome, evs), w) && Deserted(INIT, outcome, evs, w)
    ensures var s := Run(Run(INIT, outcome, evs), outcome, more);
      IsBlocked(s, w) || (w in s.waiters && s.waiters[w].Returned? && s.waiters[w].answer == None)
  {
    RunKeepsInv(INIT, outcome, evs);
    RunKeepsReachable(INIT, outcome, evs, w);
    UnreachableStays(Run(INIT, outcome, evs), outcome, more, w);
  }

  lemma {:induction false} UnreachableStays(s: System, outcome: Turn -> Payload, evs: seq<Event>, w: nat)
    requires Inv(s, outcome) && IsBlocked(s, w) && !Reachable(s, w)
    ensures var s' := Run(s, outcome, evs);
      IsBlocked(s', w) || (w in s'.waiters && s'.waiters[w].Returned? && s'.waiters[w].answer == None)
    decreases |evs|
  {
    if evs != [] {
      var s' := Step(s, outcome, evs[0]);
      StepKeepsInv(s, outcome, evs[0]);
      if IsBlocked(s', w) {
        StepKeepsReachable(s, outcome, evs[0], w);
        UnreachableStays(s', outcome, evs[1..], w);
      } else {
        assert s'.waiters[w] == Returned(s.waiters[w].turn, None);
        OnceReturned(s', outcome, evs[1..], w);
      }
    }
  }

  /** Over every run: a turn's result is stored if and only if it was published, whether or not
      anybody waited then; and it is that turn's result. */
  lemma {:induction false} StoredIffPublished(s: System, outcome: Turn -> Payload, evs: seq<Event>, t: Turn)
    requires t in s.store.results ==> s.store.results[t] == outcome(t)
    ensures var results := Run(s, outcome, evs).store.results;
      && (t in results <==> t in s.store.results || Publication(t) in evs)
      && (t in results ==> results[t] == outcome(t))
    decreases |evs|
  {
    if evs != [] {
      StoredIffPublished(Step(s, outcome, evs[0]), outcome, evs[1..], t);
      assert Publication(t) in evs <==> Publication(t) == evs[0] || Publication(t) in evs[1..];
    }
  }

  /** So a request that comes after the publication, in any run, is answered at once, and one
      that comes before it waits for the event that all waiters of the turn share. */
  lemma AskedIffPublished(outcome: Turn -> Payload, evs: seq<Event>, w: nat, t: Turn)
    requires w !in Run(INIT, outcome, evs).waiters
    ensures var s, s' := Run(INIT, outcome, evs), Step(Run(INIT, outcome, evs), outcome, Start(w, t));
      && (Publication(t) in evs ==> s'.waiters == s.waiters[w := Returned(t, Some(outcome(t)))])
      && (Publication(t) !in evs ==>
           && t in s'.store.events && s'.waiters == s.waiters[w := Blocked(t, s'.store.events[t])]
           && (t in s.store.events ==> s'.store.events == s.store.events))
  {
    StoredIffPublished(INIT, outcome, evs, t);
  }

  /** Whoever asks after the publication is answered at once, a waiter that wakes up always
      has an answer, and no answer is ever the result of another turn. */
  lemma AnswersAreRight(outcome: Turn -> Payload, evs: seq<Event>, w: nat, t: Turn)
    ensures var s := Run(INIT, outcome, evs);
      && (t in s.store.results && w !in s.waiters ==>
           Step(s, outcome, Start(w, t)).waiters[w] == Returned(t, Some(outcome(t))))
      && (Enabled(s, WakeUp(w)) ==>
           Step(s, outcome, WakeUp(w)).waiters[w]
             == Returned(s.waiters[w].turn, Some(outcome(s.waiters[w].turn))))
      && (w in s.waiters && s.waiters[w].Returned? && s.waiters[w].answer.Some? ==>
           s.waiters[w].answer.value == outcome(s.waiters[w].turn))
  {
    RunKeepsInv(INIT, outcome, evs);
  }

  /** Two waiters share an event; the first times out, and the publication that follows does
      not reach the second. */
  lemma CoWaiterTimeoutLosesResult(outcome: Turn -> Payload, t: Turn)
    ensures var s := Run(INIT, outcome, [Start(0, t), Start(1, t), LeaveEarly(0), Publication(t)]);
      && t in s.store.results && IsBlocked(s, 1) && s.waiters[1].turn == t
      && !Enabled(s, WakeUp(1))
  {
    var s1 := Step(INIT, outcome, Start(0, t));
    var s2 := Step(s1, outcome, Start(1, t));
    var s3 := Step(s2, outcome, LeaveEarly(0));
    var s4 := Step(s3, outcome, Publication(t));
    var a, b, c, d := Start(0, t), Start(1, t), LeaveEarly(0), Publication(t);
    assert [a, b, c, d][1..] == [b, c, d] && [b, c, d][1..] == [c, d] && [c, d][1..] == [d];
    assert Run(s3, outcome, [d]) == s4;
    assert Run(s2, outcome, [c, d]) == s4;
    assert Run(s1, outcome, [b, c, d]) == s4;
  }
}
