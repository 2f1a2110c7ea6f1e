/**
  `RedisTurnResultStore` of src/tta/api/turn_results.py.

  `Server` is the part of Redis the store uses: one key and one channel per turn. Every
  command is atomic, and the commands of different clients interleave in any order.
  */
module RedisTurnResults {
  import opened Wrappers

  type Turn = string
  type Payload = string

  datatype Subscription = Subscription(channel: Turn, inbox: seq<Payload>)

  datatype Server = Server(keys: map<Turn, Payload>, subscriptions: map<nat, Subscription>)

  function SetKey(s: Server, t: Turn, r: Payload): Server {
    s.(keys := s.keys[t := r])
  }

  function ExpireKey(s: Server, t: Turn): Server {
    s.(keys := s.keys - {t})
  }

  function Publish(s: Server, t: Turn, r: Payload): Server {
    s.(subscriptions := map w | w in s.subscriptions ::
      var sub := s.subscriptions[w];
      if sub.channel == t then sub.(inbox := sub.inbox + [r]) else sub)
  }

  function Subscribe(s: Server, w: nat, t: Turn): Server {
    s.(subscriptions := s.subscriptions[w := Subscription(t, [])])
  }

  function Unsubscribe(s: Server, w: nat): Server {
    s.(subscriptions := s.subscriptions - {w})
  }

  function GetKey(s: Server, t: Turn): Option<Payload> {
    if t in s.keys then Some(s.keys[t]) else None
  }

  /** `get_message`: the oldest message, if there is one. */
  function GetMessage(s: Server, w: nat): (Server, Option<Payload>)
    requires w in s.subscriptions
  {
    var sub := s.subscriptions[w];
    if sub.inbox == [] then (s, None)
    else (s.(subscriptions := s.subscriptions[w := sub.(inbox := sub.inbox[1..])]), Some(sub.inbox[0]))
  }

  // ------------------------------------------- the store's commands, on a server in place

  class RedisStore {
    var keys: map<Turn, Payload>
    var subscriptions: map<nat, Subscription>

    function Contents(): Server
      reads this
    {
      Server(keys, subscriptions)
    }

    constructor ()
      ensures Contents() == Server(map[], map[])
    {
      keys, subscriptions := map[], map[];
    }

    /** First half of `publish`. */
    method StoreResult(t: Turn, r: Payload)
      modifies this
      ensures Contents() == SetKey(old(Contents()), t, r)
      ensures t in keys && keys[t] == r && subscriptions == old(subscriptions)
      ensures forall u | u != t :: (u in keys <==> u in old(keys)) && (u in keys ==> keys[u] == old(keys)[u])
    {
      keys := keys[t := r];
    }

    /** Second half of `publish`. */
    method Notify(t: Turn, r: Payload)
      modifies this
      ensures Contents() == Publish(old(Contents()), t, r)
      ensures keys == old(keys) && subscriptions.Keys == old(subscriptions).Keys
      ensures forall w <- subscriptions ::
        && subscriptions[w].channel == old(subscriptions)[w].channel
        && subscriptions[w].inbox == old(subscriptions)[w].inbox + (if subscriptions[w].channel == t then [r] else [])
    {
      subscriptions := map w | w in subscriptions ::
        if subscriptions[w].channel == t
        then Subscription(t, subscriptions[w].inbox + [r])
        else subscriptions[w];
    }

    /** First command of `wait_for_result`. */
    method Open(w: nat, t: Turn)
      requires w !in subscriptions
      modifies this
      ensures Contents() == Subscribe(old(Contents()), w, t)
      ensures keys == old(keys) && subscriptions.Keys == old(subscriptions).Keys + {w}
      ensures subscriptions[w] == Subscription(t, [])
      ensures forall v <- old(subscriptions) :: subscriptions[v] == old(subscriptions)[v]
    {
      subscriptions := subscriptions[w := Subscription(t, [])];
    }

    /** Second command of `wait_for_result`; a hit ends the wait. */
    method CheckKey(w: nat, t: Turn) returns (stored: Option<Payload>)
      requires w in subscriptions
      modifies this
      ensures stored == GetKey(old(Contents()), t)
      ensures Contents() ==
        if stored.Some? then Unsubscribe(old(Contents()), w) else old(Contents())
      ensures keys == old(keys) && (stored.Some? <==> t in keys) && (t in keys ==> stored == Some(keys[t]))
      ensures subscriptions.Keys == old(subscriptions).Keys - (if t in keys then {w} else {})
      ensures forall v <- subscriptions :: subscriptions[v] == old(subscriptions)[v]
    {
      stored := if t in keys then Some(keys[t]) else None;
      if stored.Some? {
        subscriptions := subscriptions - {w};
      }
    }

    /** One turn of the polling loop; a message ends the wait. */
    method Poll(w: nat) returns (message: Option<Payload>)
      requires w in subscriptions
      modifies this
      ensures message == GetMessage(old(Contents()), w).1
      ensures Contents() ==
        if message.Some? then Unsubscribe(old(Contents()), w) else old(Contents())
      ensures message == if old(subscriptions)[w].inbox == [] then None else Some(old(subscriptions)[w].inbox[0])
      ensures keys == old(keys)
      ensures subscriptions.Keys == old(subscriptions).Keys - (if message.Some? then {w} else {})
      ensures forall v <- subscriptions :: subscriptions[v] == old(subscriptions)[v]
    {
      var inbox := subscriptions[w].inbox;
      if inbox == [] {
        return None;
      }
      message := Some(inbox[0]);
      subscriptions := subscriptions - {w};
    }
  }

  // ------------------------------------------- runs

  datatype Waiter =
    | Subscribed(turn: Turn)                         // GET still ahead
    | Listening(turn: Turn)                          // GET found nothing
    | Returned(turn: Turn, answer: Option<Payload>)

  datatype Publisher = Stored | Published | Broken

  datatype Event =
    | Store(turn: Turn)
    | Notify(turn: Turn)
    | Break(turn: Turn)       // SET or PUBLISH raises
    | KeyExpires(turn: Turn)
    | Open(waiter: nat, turn: Turn)
    | Get(waiter: nat)
    | Poll(waiter: nat)
    | GiveUp(waiter: nat)     // timeout or error

  datatype System = System(server: Server, publishers: map<Turn, Publisher>, waiters: map<nat, Waiter>)

  const INIT := System(Server(map[], map[]), map[], map[])

  predicate Waits(s: System, w: nat) {
    w in s.waiters && !s.waiters[w].Returned?
  }

  predicate IsPublished(s: System, t: Turn) {
    t in s.publishers && s.publishers[t] == Published
  }

  predicate Enabled(s: System, ev: Event) {
    match ev
    case Store(t) => t !in s.publishers
    case Notify(t) => t in s.publishers && s.publishers[t] == Stored
    case Break(t) => t !in s.publishers || s.publishers[t] == Stored
    case KeyExpires(t) => t in s.server.keys
    case Open(w, t) => w !in s.waiters
    case Get(w) => w in s.waiters && s.waiters[w].Subscribed?
    case Poll(w) => w in s.waiters && s.waiters[w].Listening?
    case GiveUp(w) => Waits(s, w)
  }

  /** The waiter leaves with an answer and its subscription is closed. */
  function Return(s: System, w: nat, answer: Option<Payload>): System
    requires w in s.waiters
  {
    s.(server := Unsubscribe(s.server, w), waiters := s.waiters[w := Returned(s.waiters[w].turn, answer)])
  }

  function Step(s: System, outcome: Turn -> Payload, ev: Event): System {
    if !Enabled(s, ev) then s else
    match ev
    case Store(t) =>
      s.(server := SetKey(s.server, t, outcome(t)), publishers := s.publishers[t := Stored])
    case Notify(t) =>
      s.(server := Publish(s.server, t, outcome(t)), publishers := s.publishers[t := Published])
    case Break(t) => s.(publishers := s.publishers[t := Broken])
    case KeyExpires(t) => s.(server := ExpireKey(s.server, t))
    case Open(w, t) =>
      s.(server := Subscribe(s.server, w, t), waiters := s.waiters[w := Subscribed(t)])
    case Get(w) =>
      var t := s.waiters[w].turn;
      var stored := GetKey(s.server, t);
      if stored.Some? then Return(s, w, stored) else s.(waiters := s.waiters[w := Listening(t)])
    case Poll(w) =>
      if w !in s.server.subscriptions then s else
      var message := GetMessage(s.server, w).1;
      if message.Some? then Return(s, w, message) else s
    case GiveUp(w) => Return(s, w, None)
  }

  function Run(s: System, outcome: Turn -> Payload, evs: seq<Event>): System
    decreases |evs|
  {
    if evs == [] then s else Run(Step(s, outcome, evs[0]), outcome, evs[1..])
  }

  // ------------------------------------------- what every step keeps

  ghost predicate ServerInv(s: Server, outcome: Turn -> Payload) {
    && (forall t <- s.keys :: s.keys[t] == outcome(t))
    && (forall w <- s.subscriptions :: forall m <- s.subscriptions[w].inbox ::
          m == outcome(s.subscriptions[w].channel))
  }

  ghost predicate WaiterInv(s: System, w: nat, outcome: Turn -> Payload)
    requires w in s.waiters
  {
    if s.waiters[w].Returned?
    then s.waiters[w].answer.Some? ==> s.waiters[w].answer.value == outcome(s.waiters[w].turn)
    else w in s.server.subscriptions && s.server.subscriptions[w].channel == s.waiters[w].turn
  }

  /** Keys and messages carry their own turn's outcome, keys are only ever set by publishers
      and messages only sent by those that came to the end, and whoever waits is subscribed to
      its own turn. */
  ghost predicate Inv(s: System, outcome: Turn -> Payload) {
    && ServerInv(s.server, outcome)
    && (forall t <- s.server.keys :: t in s.publishers)
    && (forall w <- s.waiters :: WaiterInv(s, w, outcome))
    && (forall w <- s.server.subscriptions :: w in s.waiters)
    && OnlyPublishedArrives(s)
  }

  ghost predicate OnlyPublishedArrives(s: System) {
    forall w <- s.server.subscriptions ::
      s.server.subscriptions[w].inbox != [] ==> IsPublished(s, s.server.subscriptions[w].channel)
  }

  lemma StepKeepsArrivals(s: System, outcome: Turn -> Payload, ev: Event)
    requires OnlyPublishedArrives(s)
    ensures OnlyPublishedArrives(Step(s, outcome, ev))
  {
  }

  lemma StepKeepsInv(s: System, outcome: Turn -> Payload, ev: Event)
    requires Inv(s, outcome)
    ensures Inv(Step(s, outcome, ev), outcome)
  {
    StepKeepsArrivals(s, outcome, ev);
    StepKeepsOutcomes(s, outcome, ev);
  }

  lemma StepKeepsOutcomes(s: System, outcome: Turn -> Payload, ev: Event)
    requires Inv(s, outcome)
    ensures var s' := Step(s, outcome, ev);
      && ServerInv(s'.server, outcome)
      && (forall t <- s'.server.keys :: t in s'.publishers)
      && (forall w <- s'.waiters :: WaiterInv(s', w, outcome))
      && (forall w <- s'.server.subscriptions :: w in s'.waiters)
  {
    if ev.Poll? && Enabled(s, ev) && Inbox(s, ev.waiter) != [] {
      assert Inbox(s, ev.waiter)[0] in s.server.subscriptions[ev.waiter].inbox;
    }
  }

  lemma {:induction false} RunKeepsInv(s: System, outcome: Turn -> Payload, evs: seq<Event>)
    requires Inv(s, outcome)
    ensures Inv(Run(s, outcome, evs), outcome)
    decreases |evs|
  {
    if evs != [] {
      StepKeepsInv(s, outcome, evs[0]);
      RunKeepsInv(Step(s, outcome, evs[0]), outcome, evs[1..]);
    }
  }

  // ------------------------------------------- delivery

  function Inbox(s: System, w: nat): seq<Payload> {
    if w in s.server.subscriptions then s.server.subscriptions[w].inbox else []
  }

  /** The waiter's GET runs when its turn has been published, but it subscribed after that
      and the key has expired. */
  predicate GetsTooLate(s: System, ev: Event, w: nat) {
    && ev == Get(w) && Enabled(s, ev)
    && IsPublished(s, s.waiters[w].turn)
    && s.waiters[w].turn !in s.server.keys && Inbox(s, w) == []
  }

  predicate TooLate(s: System, outcome: Turn -> Payload, evs: seq<Event>, w: nat)
    decreases |evs|
  {
    evs != [] && (GetsTooLate(s, evs[0], w) || TooLate(Step(s, outcome, evs[0]), outcome, evs[1..], w))
  }

  /** What holds of a waiter past its GET unless that GET was too late: its turn is not yet
      published, or the message is in its inbox. */
  predicate Served(s: System, w: nat)
    requires w in s.waiters
  {
    s.waiters[w].Listening? ==> (IsPublished(s, s.waiters[w].turn) ==> Inbox(s, w) != [])
  }

  lemma StepKeepsServed(s: System, outcome: Turn -> Payload, ev: Event, w: nat)
    requires Inv(s, outcome) && Waits(s, w) && Waits(Step(s, outcome, ev), w)
    ensures Served(Step(s, outcome, ev), w) <==> Served(s, w) && !GetsTooLate(s, ev, w)
  {
  }

  lemma {:induction false} OnceReturned(s: System, outcome: Turn -> Payload, evs: seq<Event>, w: nat)
    requires w in s.waiters && s.waiters[w].Returned?
    ensures w in Run(s, outcome, evs).waiters && Run(s, outcome, evs).waiters[w] == s.waiters[w]
    decreases |evs|
  {
    if evs != [] {
      OnceReturned(Step(s, outcome, evs[0]), outcome, evs[1..], w);
    }
  }

  lemma {:induction false} RunKeepsServed(s: System, outcome: Turn -> Payload, evs: seq<Event>, w: nat)
    requires Inv(s, outcome) && Waits(Run(s, outcome, evs), w)
    ensures Served(Run(s, outcome, evs), w) <==>
      (w in s.waiters ==> Served(s, w)) && !TooLate(s, outcome, evs, w)
    decreases |evs|
  {
    if w in s.waiters && s.waiters[w].Returned? {
      OnceReturned(s, outcome, evs, w);
    } else if evs != [] {
      var s' := Step(s, outcome, evs[0]);
      StepKeepsInv(s, outcome, evs[0]);
      RunKeepsServed(s', outcome, evs[1..], w);
      if w in s'.waiters && s'.waiters[w].Returned? {
        OnceReturned(s', outcome, evs[1..], w);
      } else if w in s.waiters {
        StepKeepsServed(s, outcome, evs[0], w);
      }
    }
  }

  /** The waiter's next poll returns the result of its turn. */
  predicate PollAnswers(s: System, outcome: Turn -> Payload, w: nat)
    requires w in s.waiters
  {
    var s' := Step(s, outcome, Poll(w));
    w in s'.waiters && s'.waiters[w] == Returned(s.waiters[w].turn, Some(outcome(s.waiters[w].turn)))
  }

  /** Delivery, for every interleaving of publishers, broken or not, waiters and expiry on any
      turns: the next poll of a waiter past its GET returns the result exactly when PUBLISH has
      run and the GET was not too late, and does nothing otherwise. */
  lemma ListenerIsAnsweredIffGetInTime(outcome: Turn -> Payload, evs: seq<Event>, w: nat)
    requires w in Run(INIT, outcome, evs).waiters && Run(INIT, outcome, evs).waiters[w].Listening?
    ensures var s := Run(INIT, outcome, evs);
      && (PollAnswers(s, outcome, w) <==> IsPublished(s, s.waiters[w].turn) && !TooLate(INIT, outcome, evs, w))
      && (!PollAnswers(s, outcome, w) ==> Step(s, outcome, Poll(w)) == s)
  {
    RunKeepsInv(INIT, outcome, evs);
    RunKeepsServed(INIT, outcome, evs, w);
    var s := Run(INIT, outcome, evs);
    if Inbox(s, w) != [] {
      assert Inbox(s, w)[0] in s.server.subscriptions[w].inbox;
    }
  }

  /** Nothing will ever be put into the waiter's inbox: its turn's publisher is broken. */
  predicate Stranded(s: System, w: nat) {
    && w in s.waiters && s.waiters[w].Listening? && Inbox(s, w) == []
    && s.waiters[w].turn in s.publishers && s.publishers[s.waiters[w].turn] == Broken
  }

  lemma StrandedStep(s: System, outcome: Turn -> Payload, ev: Event, w: nat)
    requires Inv(s, outcome) && Stranded(s, w)
    ensures var s' := Step(s, outcome, ev);
      Stranded(s', w) || (w in s'.waiters && s'.waiters[w] == Returned(s.waiters[w].turn, None))
  {
  }

  /** A stranded waiter stays so, whatever happens, until it gives up and returns None. */
  lemma {:induction false} StrandedForGood(s: System, outcome: Turn -> Payload, evs: seq<Event>, w: nat)
    requires Inv(s, outcome) && Stranded(s, w)
    ensures var s' := Run(s, outcome, evs);
      Stranded(s', w) || (w in s'.waiters && s'.waiters[w] == Returned(s.waiters[w].turn, None))
    decreases |evs|
  {
    if evs != [] {
      var s' := Step(s, outcome, evs[0]);
      StepKeepsInv(s, outcome, evs[0]);
      StrandedStep(s, outcome, evs[0], w);
      if Stranded(s', w) {
        StrandedForGood(s', outcome, evs[1..], w);
      } else {
        OnceReturned(s', outcome, evs[1..], w);
      }
    }
  }

  /** Once a turn's publisher has broken, in any run, a waiter past its GET on that turn is
      stranded: no continuation answers it. */
  lemma BrokenPublisherNeverAnswers(outcome: Turn -> Payload, evs: seq<Event>, more: seq<Event>, w: nat)
    requires var s := Run(INIT, outcome, evs);
      && w in s.waiters && s.waiters[w].Listening?
      && s.waiters[w].turn in s.publishers && s.publishers[s.waiters[w].turn] == Broken
    ensures var s, s' := Run(INIT, outcome, evs), Run(Run(INIT, outcome, evs), outcome, more);
      Stranded(s', w) || (w in s'.waiters && s'.waiters[w] == Returned(s.waiters[w].turn, None))
  {
    RunKeepsInv(INIT, outcome, evs);
    StrandedForGood(Run(INIT, outcome, evs), outcome, more, w);
  }

  /** A waiter whose GET is still ahead returns the result by that GET while the key lives,
      and otherwise by the poll after it if it had subscribed before PUBLISH. */
  lemma SubscriberIsAnswered(outcome: Turn -> Payload, evs: seq<Event>, w: nat)
    requires var s := Run(INIT, outcome, evs);
      w in s.waiters && s.waiters[w].Subscribed? && IsPublished(s, s.waiters[w].turn)
    ensures var s := Run(INIT, outcome, evs);
      var t := s.waiters[w].turn;
      var afterGet := Step(s, outcome, Get(w));
      var afterPoll := Step(afterGet, outcome, Poll(w));
      && (afterGet.waiters[w] == Returned(t, Some(outcome(t))) <==> t in s.server.keys)
      && (afterPoll.waiters[w] == Returned(t, Some(outcome(t))) <==> t in s.server.keys || Inbox(s, w) != [])
  {
    RunKeepsInv(INIT, outcome, evs);
    var s := Run(INIT, outcome, evs);
    if Inbox(s, w) != [] {
      assert Inbox(s, w)[0] in s.server.subscriptions[w].inbox;
    }
  }

  /** No waiter ever returns the result of another turn, and a waiter returns without an
      answer only by giving up. */
  lemma AnswersAreRight(outcome: Turn -> Payload, evs: seq<Event>, w: nat, ev: Event)
    ensures var s := Run(INIT, outcome, evs);
      && (w in s.waiters && s.waiters[w].Returned? && s.waiters[w].answer.Some? ==>
           s.waiters[w].answer.value == outcome(s.waiters[w].turn))
      && (Waits(s, w) && ev != GiveUp(w) && !Waits(Step(s, outcome, ev), w) ==>
           Step(s, outcome, ev).waiters[w] == Returned(s.waiters[w].turn, Some(outcome(s.waiters[w].turn))))
  {
    RunKeepsInv(INIT, outcome, evs);
    StepKeepsInv(Run(INIT, outcome, evs), outcome, ev);
  }

  // ------------------------------------------- keys, publication and inboxes by the events alone

  /** How far the turn's publisher has come, going by the list of events. */
  function PublisherBy(evs: seq<Event>, t: Turn): Option<Publisher>
    decreases |evs|
  {
    if evs == [] then None
    else
      var before, last := PublisherBy(evs[..|evs| - 1], t), evs[|evs| - 1];
      if last == Store(t) && before.None? then Some(Stored)
      else if last == Notify(t) && before == Some(Stored) then Some(Published)
      else if last == Break(t) && (before.None? || before == Some(Stored)) then Some(Broken)
      else before
  }

  /** Event `i` stores the turn's result: no SET and no failure on the turn came before it. */
  predicate StoredAt(evs: seq<Event>, t: Turn, i: int) {
    0 <= i < |evs| && evs[i] == Store(t) && forall k :: 0 <= k < i ==> evs[k] != Store(t) && evs[k] != Break(t)
  }

  /** The turn's result has been stored and its key has not expired since. */
  ghost predicate KeyLives(evs: seq<Event>, t: Turn) {
    exists i :: StoredAt(evs, t, i) && forall k :: i < k < |evs| ==> evs[k] != KeyExpires(t)
  }

  lemma {:induction false} RunOneMore(s: System, outcome: Turn -> Payload, evs: seq<Event>, ev: Event)
    ensures Run(s, outcome, evs + [ev]) == Step(Run(s, outcome, evs), outcome, ev)
    decreases |evs|
  {
    if evs == [] {
      assert evs + [ev] == [ev] && [ev][1..] == [];
      assert Run(s, outcome, [ev]) == Run(Step(s, outcome, ev), outcome, []);
    } else {
      assert (evs + [ev])[1..] == evs[1..] + [ev];
      RunOneMore(Step(s, outcome, evs[0]), outcome, evs[1..], ev);
    }
  }

  lemma LastStep(outcome: Turn -> Payload, evs: seq<Event>)
    requires evs != []
    ensures Run(INIT, outcome, evs) == Step(Run(INIT, outcome, evs[..|evs| - 1]), outcome, evs[|evs| - 1])
  {
    RunOneMore(INIT, outcome, evs[..|evs| - 1], evs[|evs| - 1]);
    assert evs[..|evs| - 1] + [evs[|evs| - 1]] == evs;
  }

  predicate PublisherIs(s: System, t: Turn, p: Option<Publisher>) {
    if t in s.publishers then p == Some(s.publishers[t]) else p == None
  }

  lemma {:induction false} PublisherByEvents(outcome: Turn -> Payload, evs: seq<Event>, t: Turn)
    ensures PublisherIs(Run(INIT, outcome, evs), t, PublisherBy(evs, t))
    decreases |evs|
  {
    if evs != [] {
      PublisherByEvents(outcome, evs[..|evs| - 1], t);
      LastStep(outcome, evs);
    }
  }

  lemma {:induction false} NobodyPublishedYet(evs: seq<Event>, t: Turn)
    ensures PublisherBy(evs, t).None? <==> forall k :: 0 <= k < |evs| ==> evs[k] != Store(t) && evs[k] != Break(t)
    decreases |evs|
  {
    if evs != [] {
      NobodyPublishedYet(evs[..|evs| - 1], t);
      var n := |evs| - 1;
      assert forall k :: 0 <= k < n ==> evs[k] == evs[..n][k];
    }
  }

  /** What one more event does to the life of the key. */
  lemma KeyLivesOn(evs: seq<Event>, t: Turn)
    requires evs != []
    ensures var before, last := evs[..|evs| - 1], evs[|evs| - 1];
      KeyLives(evs, t) <==>
        (last == Store(t) && PublisherBy(before, t).None?) || (last != KeyExpires(t) && KeyLives(before, t))
  {
    var n := |evs| - 1;
    var before, last := evs[..n], evs[n];
    NobodyPublishedYet(before, t);
    if last == Store(t) && PublisherBy(before, t).None? {
      assert StoredAt(evs, t, n);
    }
    if last != KeyExpires(t) && KeyLives(before, t) {
      var i :| StoredAt(before, t, i) && forall k :: i < k < n ==> before[k] != KeyExpires(t);
      assert StoredAt(evs, t, i);
    }
    if KeyLives(evs, t) {
      var i :| StoredAt(evs, t, i) && forall k :: i < k < |evs| ==> evs[k] != KeyExpires(t);
      if i < n {
        assert StoredAt(before, t, i);
        assert forall k :: i < k < n ==> before[k] == evs[k];
      }
    }
  }

  /** Over every run: a turn's key is held if and only if its result has been stored and its own
      key has not expired since, whatever happens to other turns; and it holds that result. */
  lemma {:induction false} KeyHeldIffAlive(outcome: Turn -> Payload, evs: seq<Event>, t: Turn)
    ensures var keys := Run(INIT, outcome, evs).server.keys;
      (t in keys <==> KeyLives(evs, t)) && (t in keys ==> keys[t] == outcome(t))
    decreases |evs|
  {
    if evs != [] {
      var before := evs[..|evs| - 1];
      KeyHeldIffAlive(outcome, before, t);
      PublisherByEvents(outcome, before, t);
      KeyLivesOn(evs, t);
      LastStep(outcome, evs);
    }
  }

  /** The waiter's subscription has been open since before the turn's notification. */
  predicate ToldBy(evs: seq<Event>, w: nat, t: Turn)
    decreases |evs|
  {
    evs != [] &&
    var before, last := evs[..|evs| - 1], evs[|evs| - 1];
    ToldBy(before, w, t)
    || (last == Notify(t) && PublisherBy(before, t) == Some(Stored) && OpenedBy(before, w) == Some(t))
  }

  /** The turn that the waiter asked for first. */
  function OpenedBy(evs: seq<Event>, w: nat): Option<Turn>
    decreases |evs|
  {
    if evs == [] then None
    else
      var before, last := OpenedBy(evs[..|evs| - 1], w), evs[|evs| - 1];
      if before.None? && last.Open? && last.waiter == w then Some(last.turn) else before
  }

  lemma {:induction false} TurnByEvents(outcome: Turn -> Payload, evs: seq<Event>, w: nat)
    ensures var waiters := Run(INIT, outcome, evs).waiters;
      OpenedBy(evs, w) == if w in waiters then Some(waiters[w].turn) else None
    decreases |evs|
  {
    if evs != [] {
      TurnByEvents(outcome, evs[..|evs| - 1], w);
      LastStep(outcome, evs);
    }
  }

  lemma ToldOnce(outcome: Turn -> Payload, evs: seq<Event>, w: nat, t: Turn)
    requires evs != []
    ensures var s, last := Run(INIT, outcome, evs[..|evs| - 1]), evs[|evs| - 1];
      ToldBy(evs, w, t) <==>
        || ToldBy(evs[..|evs| - 1], w, t)
        || (last == Notify(t) && t in s.publishers && s.publishers[t] == Stored && w in s.waiters && s.waiters[w].turn == t)
  {
    PublisherByEvents(outcome, evs[..|evs| - 1], t);
    TurnByEvents(outcome, evs[..|evs| - 1], w);
  }

  lemma OpensEmpty(s: System, outcome: Turn -> Payload, ev: Event, w: nat)
    requires Inv(s, outcome) && w !in s.waiters && Waits(Step(s, outcome, ev), w)
    ensures Inbox(Step(s, outcome, ev), w) == []
  {
  }

  lemma NeverWaitsAgain(s: System, outcome: Turn -> Payload, ev: Event, w: nat)
    requires w in s.waiters && !Waits(s, w)
    ensures !Waits(Step(s, outcome, ev), w)
  {
  }

  lemma {:induction false} InboxByEvents(outcome: Turn -> Payload, evs: seq<Event>, w: nat)
    requires Waits(Run(INIT, outcome, evs), w)
    ensures var s := Run(INIT, outcome, evs);
      Inbox(s, w) != [] <==> ToldBy(evs, w, s.waiters[w].turn)
    decreases |evs|
  {
    var before, last := evs[..|evs| - 1], evs[|evs| - 1];
    var s := Run(INIT, outcome, before);
    LastStep(outcome, evs);
    RunKeepsInv(INIT, outcome, before);
    ToldOnce(outcome, evs, w, Run(INIT, outcome, evs).waiters[w].turn);
    if Waits(s, w) {
      InboxByEvents(outcome, before, w);
      InboxStep(s, outcome, last, w);
    } else if w !in s.waiters {
      NotToldYet(outcome, before, w, Run(INIT, outcome, evs).waiters[w].turn);
      OpensEmpty(s, outcome, last, w);
    } else {
      NeverWaitsAgain(s, outcome, last, w);
    }
  }

  lemma InboxStep(s: System, outcome: Turn -> Payload, ev: Event, w: nat)
    requires Inv(s, outcome) && Waits(s, w) && Waits(Step(s, outcome, ev), w)
    ensures var s', t := Step(s, outcome, ev), s.waiters[w].turn;
      && s'.waiters[w].turn == t
      && (Inbox(s', w) != [] <==> Inbox(s, w) != [] || (ev == Notify(t) && t in s.publishers && s.publishers[t] == Stored))
  {
  }

  lemma {:induction false} NotToldYet(outcome: Turn -> Payload, evs: seq<Event>, w: nat, t: Turn)
    requires w !in Run(INIT, outcome, evs).waiters
    ensures !ToldBy(evs, w, t)
    decreases |evs|
  {
    if evs != [] {
      LastStep(outcome, evs);
      TurnByEvents(outcome, evs[..|evs| - 1], w);
      NotToldYet(outcome, evs[..|evs| - 1], w, t);
    }
  }

  /** Delivery by the events alone, over every run: the GET of a waiter that has opened its
      subscription returns its turn's result if and only if the result was stored and the turn's
      own key has not expired; and if not, the poll after it does if and only if the turn was
      notified after the waiter subscribed. So only expiry can make a GET too late. */
  lemma GetIsAnsweredIffKeyAlive(outcome: Turn -> Payload, evs: seq<Event>, w: nat)
    requires w in Run(INIT, outcome, evs).waiters && Run(INIT, outcome, evs).waiters[w].Subscribed?
    ensures var s := Run(INIT, outcome, evs);
      var t := s.waiters[w].turn;
      var afterGet := Step(s, outcome, Get(w));
      var afterPoll := Step(afterGet, outcome, Poll(w));
      && (afterGet.waiters[w] == Returned(t, Some(outcome(t))) <==> KeyLives(evs, t))
      && (afterPoll.waiters[w] == Returned(t, Some(outcome(t))) <==> KeyLives(evs, t) || ToldBy(evs, w, t))
      && (GetsTooLate(s, Get(w), w) <==>
           PublisherBy(evs, t) == Some(Published) && !KeyLives(evs, t) && !ToldBy(evs, w, t))
  {
    var s := Run(INIT, outcome, evs);
    KeyHeldIffAlive(outcome, evs, s.waiters[w].turn);
    PublisherByEvents(outcome, evs, s.waiters[w].turn);
    InboxByEvents(outcome, evs, w);
    RunKeepsInv(INIT, outcome, evs);
    if Inbox(s, w) != [] {
      assert Inbox(s, w)[0] in s.server.subscriptions[w].inbox;
    }
  }

  /** A broken publisher: the key is stored, yet a waiter that looked before is never told. */
  lemma BrokenPublisherStrandsListener(outcome: Turn -> Payload, t: Turn)
    ensures var s := Run(INIT, outcome, [Open(0, t), Get(0), Store(t), Break(t)]);
      && t in s.server.keys && 0 in s.waiters && s.waiters[0] == Listening(t)
      && Step(s, outcome, Poll(0)) == s
  {
    var a, b, c, d := Open(0, t), Get(0), Store(t), Break(t);
    var s1 := Step(INIT, outcome, a);
    var s2 := Step(s1, outcome, b);
    var s3 := Step(s2, outcome, c);
    var s4 := Step(s3, outcome, d);
    assert [a, b, c, d][1..] == [b, c, d] && [b, c, d][1..] == [c, d] && [c, d][1..] == [d];
    assert Run(s3, outcome, [d]) == s4;
    assert Run(s2, outcome, [c, d]) == s4;
    assert Run(s1, outcome, [b, c, d]) == s4;
  }
}
