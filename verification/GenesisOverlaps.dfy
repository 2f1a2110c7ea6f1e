/**
  Requests to genesis sessions that overlap in time: `advance` loads the state, waits for the
  language model, and saves the whole state, and nothing keeps another request from doing the
  same in between.
  */
module GenesisOverlaps {
  import opened Wrappers
  import opened GenesisState
  import opened Genesis
  import opened GenesisRuns

  /** A request between its load and its save. */
  datatype Flight = Flight(sid: SessionId, loaded: State, call: Call)

  datatype Traffic = Traffic(rows: Rows, flights: map<nat, Flight>)

  datatype Event =
    | Load(request: nat, sid: SessionId, call: Call)
    | Save(request: nat)

  /** A row that cannot be read raises at once. */
  function LoadDone(s: Traffic, q: nat, sid: SessionId, call: Call): Traffic {
    match Loaded(s.rows, sid)
    case None => s
    case Some(state) => s.(flights := s.flights[q := Flight(sid, state, call)])
  }

  function SaveDone(s: Traffic, harmful: string -> bool, q: nat): Traffic
    requires q in s.flights
  {
    var f := s.flights[q];
    var rows := match Offered(f.loaded, harmful, f.call)
      case None => s.rows
      case Some(state) => Saved(s.rows, f.sid, state, f.call.written);
    Traffic(rows, s.flights - {q})
  }

  function Step(s: Traffic, harmful: string -> bool, ev: Event): Traffic {
    match ev
    case Load(q, sid, call) => if q in s.flights then s else LoadDone(s, q, sid, call)
    case Save(q) => if q in s.flights then SaveDone(s, harmful, q) else s
  }

  /** The events in the order they take place. */
  function Run(rows: Rows, harmful: string -> bool, events: seq<Event>): Traffic
    decreases |events|
  {
    if events == [] then Traffic(rows, map[])
    else Step(Run(rows, harmful, events[..|events| - 1]), harmful, events[|events| - 1])
  }

  /** A load with its save right after it is the request in one step. */
  lemma AloneIsOneStep(s: Traffic, harmful: string -> bool, q: nat, sid: SessionId, call: Call)
    requires q !in s.flights
    ensures Step(Step(s, harmful, Load(q, sid, call)), harmful, Save(q))
      == Traffic(Advanced(s.rows, sid, harmful, call), s.flights)
  {
    if Loaded(s.rows, sid).Some? {
      assert s.flights[q := Flight(sid, Loaded(s.rows, sid).value, call)] - {q} == s.flights;
    }
  }

  // ------------------------------------------- the transcript that is stored

  function Transcribed(s: State): seq<string> {
    Lines(Player, s.interactions)
  }

  /** The state is the one its own transcript calls for. */
  predicate Consistent(s: State) {
    Stage(s, Transcribed(s))
  }

  ghost predicate Inv(s: Traffic, sid: SessionId) {
    && sid in s.rows && Loaded(s.rows, sid).Some? && Consistent(Loaded(s.rows, sid).value)
    && forall q <- s.flights :: s.flights[q].sid == sid ==> Consistent(s.flights[q].loaded)
  }

  /** What the player says in a request that plays on a state, and does not say otherwise. */
  function Adds(s: State, harmful: string -> bool, call: Call): seq<string> {
    if !s.completed && !harmful(call.input) && call.reply.Success? then [call.input] else []
  }

  lemma OfferedIsConsistent(s: State, harmful: string -> bool, call: Call)
    requires Consistent(s)
    ensures Offered(s, harmful, call).Some? ==>
      && Consistent(Offered(s, harmful, call).value)
      && Transcribed(Offered(s, harmful, call).value) == Transcribed(s) + Adds(s, harmful, call)
  {
    OfferKeepsStage(s, harmful, call, Transcribed(s));
    assert Transcribed(s) + [] == Transcribed(s);
  }

  /** The state stored in the session that a step is about. */
  lemma StepStores(s: Traffic, harmful: string -> bool, ev: Event, sid: SessionId)
    requires Inv(s, sid)
    ensures Inv(Step(s, harmful, ev), sid)
    ensures var before, after := Loaded(s.rows, sid).value, Loaded(Step(s, harmful, ev).rows, sid).value;
      if Writes(s, harmful, ev, sid) then
        var f := s.flights[ev.request];
        after == Offered(f.loaded, harmful, f.call).value
        && Transcribed(after) == Transcribed(f.loaded) + Adds(f.loaded, harmful, f.call)
      else after == before
  {
    if ev.Save? && ev.request in s.flights {
      var f := s.flights[ev.request];
      if f.sid == sid {
        OfferedIsConsistent(f.loaded, harmful, f.call);
      }
      var offered := Offered(f.loaded, harmful, f.call);
      if offered.Some? && f.call.written && f.sid == sid {
        SaveThenLoad(s.rows, sid, offered.value);
      }
    }
  }

  /** The event is a save that changes the session's row. */
  predicate Writes(s: Traffic, harmful: string -> bool, ev: Event, sid: SessionId) {
    && ev.Save? && ev.request in s.flights && s.flights[ev.request].sid == sid
    && s.flights[ev.request].call.written
    && Offered(s.flights[ev.request].loaded, harmful, s.flights[ev.request].call).Some?
  }

  lemma {:induction false} RunKeepsInv(rows: Rows, harmful: string -> bool, events: seq<Event>, sid: SessionId)
    requires Reached(rows, sid, [])
    ensures Inv(Run(rows, harmful, events), sid)
    decreases |events|
  {
    if events != [] {
      RunKeepsInv(rows, harmful, events[..|events| - 1], sid);
      StepStores(Run(rows, harmful, events[..|events| - 1]), harmful, events[|events| - 1], sid);
    }
  }

  /** However requests overlap, the stored state is always the one that its own transcript calls
      for: phase, counters and recorded facts agree with the player's lines in it. */
  lemma StateFollowsTranscript(rows: Rows, harmful: string -> bool, events: seq<Event>, sid: SessionId)
    requires Reached(rows, sid, [])
    ensures Loaded(Run(rows, harmful, events).rows, sid).Some?
    ensures var s := Loaded(Run(rows, harmful, events).rows, sid).value;
      Stage(s, Transcribed(s)) && |Transcribed(s)| <= TOTAL
  {
    RunKeepsInv(rows, harmful, events, sid);
  }

  // ------------------------------------------- when no input is lost

  /** What the player says in the fruitful requests to the session, in the order of their saves. */
  function SaidBy(rows: Rows, harmful: string -> bool, events: seq<Event>, sid: SessionId): seq<string>
    decreases |events|
  {
    if events == [] then []
    else
      var before, last := events[..|events| - 1], events[|events| - 1];
      var s := Run(rows, harmful, before);
      SaidBy(rows, harmful, before, sid) + SaidNow(s, harmful, last, sid)
  }

  /** The stored transcript is that of all the inputs saved so far, up to completion. */
  predicate InStep(rows: Rows, harmful: string -> bool, events: seq<Event>, sid: SessionId) {
    var s := Run(rows, harmful, events);
    && Loaded(s.rows, sid).Some?
    && Transcribed(Loaded(s.rows, sid).value) == Take(SaidBy(rows, harmful, events, sid), TOTAL)
  }

  predicate AlwaysInStep(rows: Rows, harmful: string -> bool, events: seq<Event>, sid: SessionId)
    decreases |events|
  {
    InStep(rows, harmful, events, sid)
    && (events == [] || AlwaysInStep(rows, harmful, events[..|events| - 1], sid))
  }

  /** The save finds the player's lines that its load found; or it writes again the very lines
      that have completed the session meanwhile. */
  predicate Undisturbed(s: Traffic, harmful: string -> bool, ev: Event, sid: SessionId)
    requires Loaded(s.rows, sid).Some?
  {
    Writes(s, harmful, ev, sid) ==>
      var f, stored := s.flights[ev.request], Transcribed(Loaded(s.rows, sid).value);
      || Transcribed(f.loaded) == stored
      || (|stored| == TOTAL && Transcribed(f.loaded) + Adds(f.loaded, harmful, f.call) == stored)
  }

  predicate NeverDisturbed(rows: Rows, harmful: string -> bool, events: seq<Event>, sid: SessionId)
    decreases |events|
  {
    events == [] ||
    (var s := Run(rows, harmful, events[..|events| - 1]);
     && NeverDisturbed(rows, harmful, events[..|events| - 1], sid)
     && Loaded(s.rows, sid).Some?
     && Undisturbed(s, harmful, events[|events| - 1], sid))
  }

  /** While nothing is lost, every request under way has loaded a beginning of what is stored. */
  ghost predicate Prefixes(s: Traffic, said: seq<string>, sid: SessionId) {
    forall q <- s.flights :: s.flights[q].sid == sid ==> Transcribed(s.flights[q].loaded) <= Take(said, TOTAL)
  }

  lemma TakeGrows(said: seq<string>, more: seq<string>)
    ensures Take(said, TOTAL) <= Take(said + more, TOTAL)
  {
  }

  /** One save: the transcript stays in step exactly if the save is undisturbed. */
  lemma SaveInStep(loaded: seq<string>, adds: seq<string>, said: seq<string>)
    requires loaded <= Take(said, TOTAL) && |adds| <= 1
    requires |adds| == 1 ==> |loaded| < TOTAL
    ensures loaded + adds == Take(said + adds, TOTAL)
      <==> loaded == Take(said, TOTAL) || (|Take(said, TOTAL)| == TOTAL && loaded + adds == Take(said, TOTAL))
  {
    if adds == [] {
      assert loaded + adds == loaded && said + adds == said;
    } else if |said| < TOTAL {
      assert Take(said + adds, TOTAL) == said + adds;
      if loaded + adds == said + adds {
        assert |loaded| == |said|;
      }
    } else {
      assert Take(said + adds, TOTAL) == Take(said, TOTAL);
    }
  }

  lemma SaidOneMore(rows: Rows, harmful: string -> bool, events: seq<Event>, sid: SessionId)
    requires events != []
    ensures var before := events[..|events| - 1];
      && SaidBy(rows, harmful, before, sid) <= SaidBy(rows, harmful, events, sid)
      && (!events[|events| - 1].Save? ==> SaidBy(rows, harmful, events, sid) == SaidBy(rows, harmful, before, sid))
  {
  }

  lemma {:induction false} LoadsArePrefixes(rows: Rows, harmful: string -> bool, events: seq<Event>, sid: SessionId)
    requires Reached(rows, sid, []) && AlwaysInStep(rows, harmful, events, sid)
    ensures Prefixes(Run(rows, harmful, events), SaidBy(rows, harmful, events, sid), sid)
    decreases |events|
  {
    if events != [] {
      var before, last := events[..|events| - 1], events[|events| - 1];
      LoadsArePrefixes(rows, harmful, before, sid);
      SaidOneMore(rows, harmful, events, sid);
      StepKeepsPrefixes(Run(rows, harmful, before), harmful, last, sid,
        SaidBy(rows, harmful, before, sid), SaidBy(rows, harmful, events, sid));
    }
  }

  lemma StepKeepsPrefixes(s: Traffic, harmful: string -> bool, ev: Event, sid: SessionId,
                          said: seq<string>, more: seq<string>)
    requires Prefixes(s, said, sid) && Loaded(s.rows, sid).Some? && said <= more
    requires Transcribed(Loaded(s.rows, sid).value) == Take(said, TOTAL)
    ensures Prefixes(Step(s, harmful, ev), more, sid)
  {
    assert more == said + more[|said|..];
    TakeGrows(said, more[|said|..]);
  }

  /** A request that finds the session complete adds nothing, and all inputs that count have
      been said. */
  lemma CompleteSaysNothing(s: Traffic, f: Flight, said: seq<string>, more: seq<string>)
    requires Consistent(f.loaded) && f.loaded.completed && Transcribed(f.loaded) <= Take(said, TOTAL)
    ensures Take(said + more, TOTAL) == Take(said, TOTAL)
  {
    assert |Transcribed(f.loaded)| == TOTAL;
  }

  /** What the event adds to what has been said. */
  function SaidNow(s: Traffic, harmful: string -> bool, ev: Event, sid: SessionId): seq<string> {
    if ev.Save? && ev.request in s.flights && s.flights[ev.request].sid == sid
      && Fruitful(harmful, s.flights[ev.request].call)
    then [s.flights[ev.request].call.input] else []
  }

  lemma StepInStep(s: Traffic, harmful: string -> bool, ev: Event, sid: SessionId, said: seq<string>)
    requires Inv(s, sid) && Prefixes(s, said, sid)
    requires Transcribed(Loaded(s.rows, sid).value) == Take(said, TOTAL)
    ensures Loaded(Step(s, harmful, ev).rows, sid).Some?
    ensures Transcribed(Loaded(Step(s, harmful, ev).rows, sid).value) == Take(said + SaidNow(s, harmful, ev, sid), TOTAL)
      <==> Undisturbed(s, harmful, ev, sid)
  {
    StepStores(s, harmful, ev, sid);
    var now := SaidNow(s, harmful, ev, sid);
    if Writes(s, harmful, ev, sid) {
      var f := s.flights[ev.request];
      assert now == Adds(f.loaded, harmful, f.call);
      SaveInStep(Transcribed(f.loaded), now, said);
    } else if now != [] {
      CompleteSaysNothing(s, s.flights[ev.request], said, now);
    } else {
      assert said + now == said;
    }
  }

  lemma EventInStep(rows: Rows, harmful: string -> bool, events: seq<Event>, sid: SessionId)
    requires Reached(rows, sid, []) && events != [] && AlwaysInStep(rows, harmful, events[..|events| - 1], sid)
    ensures InStep(rows, harmful, events, sid)
      <==> Undisturbed(Run(rows, harmful, events[..|events| - 1]), harmful, events[|events| - 1], sid)
  {
    var before := events[..|events| - 1];
    RunKeepsInv(rows, harmful, before, sid);
    LoadsArePrefixes(rows, harmful, before, sid);
    StepInStep(Run(rows, harmful, before), harmful, events[|events| - 1], sid, SaidBy(rows, harmful, before, sid));
  }

  /** The exact condition: the stored transcript is in every moment of the run that of all the
      inputs saved so far, and with it phase, counters and facts are those of one request after
      the other, if and only if no save was disturbed. */
  lemma {:induction false} NothingLostIffUndisturbed(
      rows: Rows, harmful: string -> bool, events: seq<Event>, sid: SessionId)
    requires Reached(rows, sid, [])
    ensures AlwaysInStep(rows, harmful, events, sid) <==> NeverDisturbed(rows, harmful, events, sid)
    decreases |events|
  {
    RunKeepsInv(rows, harmful, events, sid);
    if events != [] {
      var before := events[..|events| - 1];
      RunKeepsInv(rows, harmful, before, sid);
      NothingLostIffUndisturbed(rows, harmful, before, sid);
      if AlwaysInStep(rows, harmful, before, sid) {
        EventInStep(rows, harmful, events, sid);
      }
    }
  }

  /** In such a run the counter is refined as by requests one after the other. */
  lemma OverlapsRefineCounter(rows: Rows, harmful: string -> bool, events: seq<Event>, sid: SessionId)
    requires Reached(rows, sid, []) && NeverDisturbed(rows, harmful, events, sid)
    ensures Loaded(Run(rows, harmful, events).rows, sid).Some?
    ensures var s, n := Loaded(Run(rows, harmful, events).rows, sid).value, |SaidBy(rows, harmful, events, sid)|;
      && IndexOf(s.phase) == (if n / 2 < 7 then n / 2 else 7)
      && s.count == (if n < TOTAL then n % 2 else 0)
      && (s.completed <==> n >= TOTAL)
  {
    NothingLostIffUndisturbed(rows, harmful, events, sid);
    StateFollowsTranscript(rows, harmful, events, sid);
  }

  /** Two requests that load the same fresh state: the one that saves last wins, and the other's
      input is lost although both were answered. */
  lemma OverlapLosesInput(rows: Rows, harmful: string -> bool, sid: SessionId, a: Call, b: Call)
    requires Reached(rows, sid, []) && Fruitful(harmful, a) && Fruitful(harmful, b)
    ensures var events := [Load(0, sid, a), Load(1, sid, b), Save(0), Save(1)];
      && Loaded(Run(rows, harmful, events).rows, sid).Some?
      && Transcribed(Loaded(Run(rows, harmful, events).rows, sid).value) == [b.input]
      && SaidBy(rows, harmful, events, sid) == [a.input, b.input]
  {
    var saves := [Load(0, sid, a), Load(1, sid, b), Save(0)];
    AfterFirstSave(rows, harmful, sid, a, b);
    OneMore(rows, harmful, saves, Save(1), sid);
    assert saves + [Save(1)] == [Load(0, sid, a), Load(1, sid, b), Save(0), Save(1)];
    RunKeepsInv(rows, harmful, saves, sid);
    SecondSaves(Run(rows, harmful, saves), harmful, sid, Flight(sid, Loaded(rows, sid).value, b));
  }

  lemma AfterFirstSave(rows: Rows, harmful: string -> bool, sid: SessionId, a: Call, b: Call)
    requires Reached(rows, sid, []) && Fruitful(harmful, a) && Fruitful(harmful, b)
    ensures var saves := [Load(0, sid, a), Load(1, sid, b), Save(0)];
      var s, g := Run(rows, harmful, saves), Flight(sid, Loaded(rows, sid).value, b);
      && s.flights == map[1 := g] && Writes(s, harmful, Save(1), sid)
      && Adds(g.loaded, harmful, b) == [b.input] && Transcribed(g.loaded) == []
      && SaidBy(rows, harmful, saves, sid) == [a.input]
  {
    var state, loads := Loaded(rows, sid).value, [Load(0, sid, a), Load(1, sid, b)];
    BothLoad(rows, harmful, sid, a, b);
    OneMore(rows, harmful, loads, Save(0), sid);
    assert loads + [Save(0)] == [Load(0, sid, a), Load(1, sid, b), Save(0)];
    FirstSaves(rows, harmful, sid, Flight(sid, state, a), Flight(sid, state, b));
  }

  lemma SecondSaves(s: Traffic, harmful: string -> bool, sid: SessionId, g: Flight)
    requires Inv(s, sid) && s.flights == map[1 := g] && Transcribed(g.loaded) == []
    requires Writes(s, harmful, Save(1), sid) && Adds(g.loaded, harmful, g.call) == [g.call.input]
    ensures var s' := Step(s, harmful, Save(1));
      Loaded(s'.rows, sid).Some? && Transcribed(Loaded(s'.rows, sid).value) == [g.call.input]
    ensures SaidNow(s, harmful, Save(1), sid) == [g.call.input]
  {
    StepStores(s, harmful, Save(1), sid);
  }

  lemma OneMore(rows: Rows, harmful: string -> bool, events: seq<Event>, ev: Event, sid: SessionId)
    ensures var s := Run(rows, harmful, events);
      && Run(rows, harmful, events + [ev]) == Step(s, harmful, ev)
      && SaidBy(rows, harmful, events + [ev], sid) == SaidBy(rows, harmful, events, sid) + SaidNow(s, harmful, ev, sid)
  {
    assert (events + [ev])[..|events|] == events;
  }

  lemma BothLoad(rows: Rows, harmful: string -> bool, sid: SessionId, a: Call, b: Call)
    requires Loaded(rows, sid).Some?
    ensures var state, events := Loaded(rows, sid).value, [Load(0, sid, a), Load(1, sid, b)];
      && Run(rows, harmful, events) == Traffic(rows, map[0 := Flight(sid, state, a), 1 := Flight(sid, state, b)])
      && SaidBy(rows, harmful, events, sid) == []
  {
    var one: seq<Event> := [Load(0, sid, a)];
    FirstLoads(rows, harmful, sid, a);
    OneMore(rows, harmful, one, Load(1, sid, b), sid);
    assert one + [Load(1, sid, b)] == [Load(0, sid, a), Load(1, sid, b)];
  }

  lemma FirstLoads(rows: Rows, harmful: string -> bool, sid: SessionId, a: Call)
    requires Loaded(rows, sid).Some?
    ensures Run(rows, harmful, [Load(0, sid, a)]) == Traffic(rows, map[0 := Flight(sid, Loaded(rows, sid).value, a)])
    ensures SaidBy(rows, harmful, [Load(0, sid, a)], sid) == []
  {
    OneMore(rows, harmful, [], Load(0, sid, a), sid);
    assert [] + [Load(0, sid, a)] == [Load(0, sid, a)];
    assert Run(rows, harmful, []) == Traffic(rows, map[]);
  }

  lemma FirstSaves(rows: Rows, harmful: string -> bool, sid: SessionId, f: Flight, g: Flight)
    requires Reached(rows, sid, []) && f.sid == g.sid == sid && f.loaded == g.loaded == Loaded(rows, sid).value
    requires Fruitful(harmful, f.call) && Fruitful(harmful, g.call)
    ensures var s := Step(Traffic(rows, map[0 := f, 1 := g]), harmful, Save(0));
      && s.flights == map[1 := g] && Writes(s, harmful, Save(1), sid) && Adds(g.loaded, harmful, g.call) == [g.call.input]
      && Transcribed(g.loaded) == []
      && SaidNow(Traffic(rows, map[0 := f, 1 := g]), harmful, Save(0), sid) == [f.call.input]
  {
    assert map[0 := f, 1 := g] - {0} == map[1 := g];
    OfferKeepsStage(g.loaded, harmful, g.call, []);
  }
}
