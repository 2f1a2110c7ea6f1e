/** What a session's genesis state is after any run of requests. */
module GenesisRuns {
  import opened Wrappers
  import opened GenesisState
  import opened Genesis
  import AuditCursor

  type Request = (SessionId, Call)

  /** Requests to any sessions, in the order they are served. */
  function Run(rows: Rows, harmful: string -> bool, requests: seq<Request>): Rows
    decreases |requests|
  {
    if requests == [] then rows
    else
      var last := requests[|requests| - 1];
      Advanced(Run(rows, harmful, requests[..|requests| - 1]), last.0, harmful, last.1)
  }

  /** Neither redirected nor broken off. */
  predicate Fruitful(harmful: string -> bool, call: Call) {
    !harmful(call.input) && call.reply.Success? && call.written
  }

  /** What the player says in the fruitful requests of one session. */
  function Inputs(harmful: string -> bool, requests: seq<Request>, sid: SessionId): seq<string>
    decreases |requests|
  {
    if requests == [] then []
    else
      var last := requests[|requests| - 1];
      Inputs(harmful, requests[..|requests| - 1], sid)
      + if last.0 == sid && Fruitful(harmful, last.1) then [last.1.input] else []
  }

  /** What one party says in an exchange. */
  function Lines(role: Role, turns: seq<Interaction>): seq<string> {
    if turns == [] then []
    else
      var last := turns[|turns| - 1];
      Lines(role, turns[..|turns| - 1]) + if last.role == role then [last.content] else []
  }

  lemma LinesOfSaid(role: Role, s: State, speaker: Role, content: string)
    ensures Lines(role, Said(s, speaker, content).interactions)
      == Lines(role, s.interactions) + if speaker == role then [content] else []
  {
    assert Said(s, speaker, content).interactions[..|s.interactions|] == s.interactions;
  }

  // ------------------------------------------- the state as a function of the inputs

  const TOTAL: nat := 14

  predicate Position(s: State, n: nat) {
    && n <= TOTAL
    && IndexOf(s.phase) == n / 2
    && s.count == n % 2
    && (s.completed <==> n == TOTAL)
  }

  function SlipOf(lines: seq<string>): Option<string> {
    if |lines| < 5 then None
    else if |lines| == 5 || lines[4] != "" then Some(Take(lines[4], 200))
    else Some(Take(lines[5], 200))
  }

  function NameOf(lines: seq<string>): Option<string> {
    if |lines| < 11 then None
    else if |lines| == 11 || ChosenName(lines[10]) != "" then Some(ChosenName(lines[10]))
    else Some(ChosenName(lines[11]))
  }

  predicate Story(s: State, lines: seq<string>) {
    var n := |lines|;
    && s.slipEvent == SlipOf(lines)
    && (n < 8 ==> s.inferredTraits == [])
    && |s.inferredTraits| <= 3
    && s.confirmedTraits == (if n < 9 then [] else Take(s.inferredTraits, 2))
    && s.narratorFormHint == (if n < 9 then None else Some(HINT))
    && s.characterName == NameOf(lines)
    && s.firstTurnSeed == (if n < 13 then None else Some(Summary(s)))
  }

  predicate Transcript(s: State, lines: seq<string>) {
    && Lines(Player, s.interactions) == lines
    && (s.compositionCommitted ==> |lines| >= 4)
    && |Lines(System, s.interactions)| == if s.compositionCommitted then 1 else 0
  }

  predicate Stage(s: State, lines: seq<string>) {
    Position(s, |lines|) && Story(s, lines) && Transcript(s, lines)
  }

  // ------------------------------------------- one request

  lemma PositionAfter(s: State, n: nat, call: Call)
    requires Position(s, n) && n < TOTAL && Response(s, call).Success?
    ensures Position(Played(s, call), n + 1)
  {
    var s1 := Said(Handled(Counted(s, call.input), call), Narrator, Response(s, call).value);
    assert s1.phase == s.phase && s1.count == s.count + 1 && s1.completed == s.completed;
  }

  lemma SameParts(s: State, s': State)
    requires s'.characterName == s.characterName && s'.confirmedTraits == s.confirmedTraits
    requires s'.narratorFormHint == s.narratorFormHint && s'.slipEvent == s.slipEvent
    ensures Summary(s') == Summary(s)
  {
  }

  lemma EarlyStory(s: State, lines: seq<string>, call: Call)
    requires Position(s, |lines|) && Story(s, lines) && |lines| < 8
    ensures Story(Handled(Counted(s, call.input), call), lines + [call.input])
  {
  }

  lemma LateStory(s: State, lines: seq<string>, call: Call)
    requires Position(s, |lines|) && Story(s, lines) && 8 <= |lines| < TOTAL
    ensures Story(Handled(Counted(s, call.input), call), lines + [call.input])
  {
    var s1 := Counted(s, call.input);
    var lines' := lines + [call.input];
    assert SlipOf(lines') == SlipOf(lines);
    if s.phase == Threshold {
      assert NameOf(lines') == NameOf(lines);
      SameParts(s1, Handled(s1, call));
      SameParts(s, Handled(s1, call));
    }
  }

  lemma StoryAfter(s: State, lines: seq<string>, call: Call)
    requires Position(s, |lines|) && Story(s, lines) && |lines| < TOTAL
    ensures Story(Handled(Counted(s, call.input), call), lines + [call.input])
  {
    if |lines| < 8 {
      EarlyStory(s, lines, call);
    } else {
      LateStory(s, lines, call);
    }
  }

  lemma StorySurvives(s: State, s': State, lines: seq<string>)
    requires Story(s, lines)
    requires s'.(interactions := s.interactions, phase := s.phase, count := s.count, completed := s.completed) == s
    ensures Story(s', lines)
  {
    SameParts(s, s');
  }

  lemma LinesAfterHandling(s: State, call: Call)
    ensures var s' := Handled(s, call);
      && Lines(Player, s'.interactions) == Lines(Player, s.interactions)
      && (s'.compositionCommitted == s.compositionCommitted ==>
           Lines(System, s'.interactions) == Lines(System, s.interactions))
      && (s'.compositionCommitted != s.compositionCommitted ==>
           && s'.compositionCommitted && s.phase == BuildingWorld && s.count >= MIN_INTERACTIONS_PER_PHASE
           && |Lines(System, s'.interactions)| == |Lines(System, s.interactions)| + 1)
  {
    if call.composition.Some? {
      var committed := s.(compositionCommitted := true);
      LinesOfSaid(Player, committed, System, "composition_extract:" + call.composition.value);
      LinesOfSaid(System, committed, System, "composition_extract:" + call.composition.value);
    }
  }

  lemma TranscriptAfter(s: State, lines: seq<string>, call: Call)
    requires Position(s, |lines|) && Transcript(s, lines) && |lines| < TOTAL && Response(s, call).Success?
    ensures Transcript(Played(s, call), lines + [call.input])
  {
    var s1 := Counted(s, call.input);
    LinesOfSaid(Player, s, Player, call.input);
    LinesOfSaid(System, s, Player, call.input);
    LinesAfterHandling(s1, call);
    var s2 := Handled(s1, call);
    LinesOfSaid(Player, s2, Narrator, Response(s, call).value);
    LinesOfSaid(System, s2, Narrator, Response(s, call).value);
    SettledSays(Said(s2, Narrator, Response(s, call).value));
  }

  lemma SettledSays(s: State)
    ensures Settled(s).interactions == s.interactions && Settled(s).compositionCommitted == s.compositionCommitted
  {
  }

  lemma StoryOfPlayed(s: State, lines: seq<string>, call: Call)
    requires Position(s, |lines|) && Story(s, lines) && |lines| < TOTAL && Response(s, call).Success?
    ensures Story(Played(s, call), lines + [call.input])
  {
    StoryAfter(s, lines, call);
    StorySurvives(Handled(Counted(s, call.input), call), Played(s, call), lines + [call.input]);
  }

  lemma StageAfter(s: State, lines: seq<string>, call: Call)
    requires Stage(s, lines) && |lines| < TOTAL && call.reply.Success?
    ensures Response(s, call).Success? && Stage(Played(s, call), lines + [call.input])
  {
    PositionAfter(s, |lines|, call);
    StoryOfPlayed(s, lines, call);
    TranscriptAfter(s, lines, call);
  }

  lemma StageAfterRedirect(s: State, lines: seq<string>)
    requires Stage(s, lines)
    ensures Stage(Said(s, Narrator, REDIRECT), lines)
  {
    LinesOfSaid(Player, s, Narrator, REDIRECT);
    LinesOfSaid(System, s, Narrator, REDIRECT);
    StorySurvives(s, Said(s, Narrator, REDIRECT), lines);
  }

  /** What is saved is what is loaded next. */
  lemma SaveThenLoad(rows: Rows, sid: SessionId, s: State)
    requires sid in rows
    ensures Loaded(Saved(rows, sid, s, true), sid) == Some(s)
    ensures Saved(rows, sid, s, true).Keys == rows.Keys
  {
    DictRoundTrip(s);
  }

  lemma OfferKeepsStage(s: State, harmful: string -> bool, call: Call, lines: seq<string>)
    requires Stage(s, lines)
    ensures Offered(s, harmful, call).None? <==> |lines| == TOTAL || (!harmful(call.input) && call.reply.Failure?)
    ensures Offered(s, harmful, call).Some? ==>
      Stage(Offered(s, harmful, call).value, if harmful(call.input) then lines else lines + [call.input])
  {
    if harmful(call.input) {
      StageAfterRedirect(s, lines);
    } else if !s.completed && call.reply.Success? {
      StageAfter(s, lines, call);
    }
  }

  lemma RequestKeepsStage(rows: Rows, sid: SessionId, harmful: string -> bool, call: Call, lines: seq<string>)
    requires sid in rows && Loaded(rows, sid).Some? && Stage(Loaded(rows, sid).value, lines)
    ensures var rows' := Advanced(rows, sid, harmful, call);
      && sid in rows' && Loaded(rows', sid).Some?
      && Stage(Loaded(rows', sid).value,
           if Fruitful(harmful, call) && |lines| < TOTAL then lines + [call.input] else lines)
  {
    OfferKeepsStage(Loaded(rows, sid).value, harmful, call, lines);
    AdvanceLoads(rows, sid, harmful, call);
  }

  /** What the next request to the session will load. */
  lemma AdvanceLoads(rows: Rows, sid: SessionId, harmful: string -> bool, call: Call)
    requires sid in rows && Loaded(rows, sid).Some?
    ensures var s := Loaded(rows, sid).value;
      var offered := Offered(s, harmful, call);
      Loaded(Advanced(rows, sid, harmful, call), sid) == if offered.Some? && call.written then offered else Some(s)
    ensures sid in Advanced(rows, sid, harmful, call)
  {
    var offered := Offered(Loaded(rows, sid).value, harmful, call);
    if offered.Some? {
      SaveThenLoad(rows, sid, offered.value);
    }
  }

  lemma OtherRowsStay(rows: Rows, sid: SessionId, harmful: string -> bool, call: Call, other: SessionId)
    requires other != sid
    ensures Loaded(Advanced(rows, sid, harmful, call), other) == Loaded(rows, other)
    ensures other in Advanced(rows, sid, harmful, call) <==> other in rows
  {
  }

  // ------------------------------------------- whole runs

  lemma OpeningKeepsStage(s: State, opening: string, lines: seq<string>)
    requires Stage(s, lines)
    ensures Stage(Said(s, Narrator, opening), lines)
  {
    LinesOfSaid(Player, s, Narrator, opening);
    LinesOfSaid(System, s, Narrator, opening);
  }

  /** A session is ready after `start`, even if the second of its two writes fails. */
  lemma StartIsReady(rows: Rows, sid: SessionId, universe: AuditCursor.Uuid, second: bool)
    requires sid in rows
    ensures var rows' := Started(rows, sid, universe, true, second);
      && Reached(rows', sid, []) && Loaded(rows', sid).value.universeId == Some(universe)
      && Lines(Narrator, Loaded(rows', sid).value.interactions) ==
           if second then ["You find yourself in a moment of quiet. Tell me \U{2014} what does your ordinary world look like right now?"] else []
  {
    LinesOfSaid(Narrator, Begun(universe), Narrator, OPENING);
    OpeningKeepsStage(Begun(universe), OPENING, []);
    SaveThenLoad(rows, sid, Begun(universe));
    SaveThenLoad(Saved(rows, sid, Begun(universe), true), sid, Said(Begun(universe), Narrator, OPENING));
  }

  predicate Reached(rows: Rows, sid: SessionId, lines: seq<string>) {
    sid in rows && Loaded(rows, sid).Some? && Stage(Loaded(rows, sid).value, lines)
  }

  lemma RequestReaches(
      rows: Rows, harmful: string -> bool, request: Request, sid: SessionId, said: seq<string>)
    ensures var next := if request.0 == sid && Fruitful(harmful, request.1) then [request.1.input] else [];
      Reached(rows, sid, Take(said, TOTAL)) ==>
        Reached(Advanced(rows, request.0, harmful, request.1), sid, Take(said + next, TOTAL))
  {
    if Reached(rows, sid, Take(said, TOTAL)) {
      if request.0 == sid {
        RequestKeepsStage(rows, sid, harmful, request.1, Take(said, TOTAL));
        TakeAppend(said, request.1.input, TOTAL);
      } else {
        OtherRowsStay(rows, request.0, harmful, request.1, sid);
      }
      assert said + [] == said;
    }
  }

  /** The persisted state is that of the first fourteen things the player said in fruitful
      requests to this session, whatever redirects, failures and requests to other sessions
      came between. */
  lemma {:induction false} StateFollowsInputs(
      rows: Rows, harmful: string -> bool, requests: seq<Request>, sid: SessionId)
    requires Reached(rows, sid, [])
    ensures Reached(Run(rows, harmful, requests), sid, Take(Inputs(harmful, requests, sid), TOTAL))
    decreases |requests|
  {
    if requests != [] {
      var before, last := requests[..|requests| - 1], requests[|requests| - 1];
      StateFollowsInputs(rows, harmful, before, sid);
      RequestReaches(Run(rows, harmful, before), harmful, last, sid, Inputs(harmful, before, sid));
    }
  }

  lemma TakeAppend(s: seq<string>, x: string, n: nat)
    ensures Take(s + [x], n) == if |s| < n then Take(s, n) + [x] else Take(s, n)
  {
  }

  /** Genesis refines a counter: `n` fruitful requests put the session in phase `n / 2`, with
      `n % 2` interactions counted in it, until it completes at fourteen and stays there. */
  lemma GenesisRefinesCounter(rows: Rows, harmful: string -> bool, requests: seq<Request>, sid: SessionId)
    requires Reached(rows, sid, [])
    ensures Loaded(Run(rows, harmful, requests), sid).Some?
    ensures var s, n := Loaded(Run(rows, harmful, requests), sid).value, |Inputs(harmful, requests, sid)|;
      && IndexOf(s.phase) == (if n / 2 < 7 then n / 2 else 7)
      && s.count == (if n < TOTAL then n % 2 else 0)
      && (s.completed <==> n >= TOTAL)
      && Lines(Player, s.interactions) == Take(Inputs(harmful, requests, sid), TOTAL)
      && |Lines(System, s.interactions)| <= 1
  {
    StateFollowsInputs(rows, harmful, requests, sid);
  }

  /** Once genesis is complete, every request leaves every row alone and says so. */
  lemma CompleteIsFinal(rows: Rows, sid: SessionId, harmful: string -> bool, call: Call)
    requires Loaded(rows, sid).Some? && Loaded(rows, sid).value.completed
    ensures Advanced(rows, sid, harmful, call) == rows
    ensures Outcome(rows, sid, harmful, call) == Success(ALREADY_COMPLETE)
  {
  }

  /** So a completed session stays as it is, whatever is asked of it or of others. */
  lemma {:induction false} CompleteStays(rows: Rows, harmful: string -> bool, requests: seq<Request>, sid: SessionId)
    requires Loaded(rows, sid).Some? && Loaded(rows, sid).value.completed
    ensures Loaded(Run(rows, harmful, requests), sid) == Loaded(rows, sid)
    decreases |requests|
  {
    if requests != [] {
      var before, last := requests[..|requests| - 1], requests[|requests| - 1];
      CompleteStays(rows, harmful, before, sid);
      if last.0 == sid {
        CompleteIsFinal(Run(rows, harmful, before), sid, harmful, last.1);
      } else {
        OtherRowsStay(Run(rows, harmful, before), last.0, harmful, last.1, sid);
      }
    }
  }

  /** A request that raises changes no row. */
  lemma FailureChangesNothing(rows: Rows, sid: SessionId, harmful: string -> bool, call: Call)
    requires Outcome(rows, sid, harmful, call).Failure?
    ensures Advanced(rows, sid, harmful, call) == rows
  {
  }

  /** The requests of a run that do not raise. */
  function Succeeding(rows: Rows, harmful: string -> bool, requests: seq<Request>): seq<Request>
    decreases |requests|
  {
    if requests == [] then []
    else
      var before, last := requests[..|requests| - 1], requests[|requests| - 1];
      Succeeding(rows, harmful, before)
      + if Outcome(Run(rows, harmful, before), last.0, harmful, last.1).Failure? then [] else [last]
  }

  /** A run comes to the same rows without its failed requests. */
  lemma {:induction false} FailuresCanBeErased(rows: Rows, harmful: string -> bool, requests: seq<Request>)
    ensures Run(rows, harmful, Succeeding(rows, harmful, requests)) == Run(rows, harmful, requests)
    decreases |requests|
  {
    if requests != [] {
      var before, last := requests[..|requests| - 1], requests[|requests| - 1];
      FailuresCanBeErased(rows, harmful, before);
      var kept := Succeeding(rows, harmful, before);
      if Outcome(Run(rows, harmful, before), last.0, harmful, last.1).Failure? {
        FailureChangesNothing(Run(rows, harmful, before), last.0, harmful, last.1);
        assert Succeeding(rows, harmful, requests) == kept + [] == kept;
      } else {
        RunOneMore(rows, harmful, kept, last);
      }
    }
  }

  lemma RunOneMore(rows: Rows, harmful: string -> bool, requests: seq<Request>, last: Request)
    ensures Run(rows, harmful, requests + [last])
      == Advanced(Run(rows, harmful, requests), last.0, harmful, last.1)
  {
    assert (requests + [last])[..|requests|] == requests;
  }

  // ------------------------------------------- what one request does

  /** The phases in their order. */
  predicate Follows(p: Phase, q: Phase) {
    match p
    case Void => q == BuildingWorld
    case BuildingWorld => q == Slip
    case Slip => q == BuildingCharacter
    case BuildingCharacter => q == FirstLight
    case FirstLight => q == Becoming
    case Becoming => q == Threshold
    case Threshold => q == Complete
    case Complete => false
  }

  /** One request to a session that has not completed and whose write succeeds: a harmful input
      only adds the narrator's redirection; without the model's reply nothing changes; and
      otherwise the transcript gains the player's input and the stripped reply, and the second
      interaction of a phase moves on to the next. */
  lemma RequestTells(rows: Rows, sid: SessionId, harmful: string -> bool, call: Call)
    requires sid in rows && Loaded(rows, sid).Some? && call.written
    requires !Loaded(rows, sid).value.completed && Loaded(rows, sid).value.phase != Complete
    ensures Loaded(Advanced(rows, sid, harmful, call), sid).Some?
    ensures var s, s' := Loaded(rows, sid).value, Loaded(Advanced(rows, sid, harmful, call), sid).value;
      var out := Outcome(rows, sid, harmful, call);
      if harmful(call.input) then
        && out.Success? && s' == s.(interactions := s.interactions + [Interaction(Narrator, out.value)])
      else if call.reply.Failure? then s' == s && out.Failure?
      else
        && out == Success(Strip(call.reply.value))
        && Lines(Player, s'.interactions) == Lines(Player, s.interactions) + [call.input]
        && Lines(Narrator, s'.interactions) == Lines(Narrator, s.interactions) + [Strip(call.reply.value)]
        && (if s.count + 1 >= 2 then Follows(s.phase, s'.phase) && s'.count == 0 else s'.phase == s.phase && s'.count == s.count + 1)
        && (s'.completed <==> s'.phase == Complete)
  {
    AdvanceLoads(rows, sid, harmful, call);
    if !harmful(call.input) && call.reply.Success? {
      PlayTells(Loaded(rows, sid).value, call);
    }
  }

  lemma PlayTells(s: State, call: Call)
    requires !s.completed && s.phase != Complete && call.reply.Success?
    ensures var s' := Played(s, call);
      && Lines(Player, s'.interactions) == Lines(Player, s.interactions) + [call.input]
      && Lines(Narrator, s'.interactions) == Lines(Narrator, s.interactions) + [Strip(call.reply.value)]
      && (if s.count + 1 >= 2 then Follows(s.phase, s'.phase) && s'.count == 0 else s'.phase == s.phase && s'.count == s.count + 1)
      && (s'.completed <==> s'.phase == Complete)
  {
    var s1 := Counted(s, call.input);
    var s2 := Handled(s1, call);
    SpokenByHandler(s1, call);
    LinesOfSaid(Player, s, Player, call.input);
    LinesOfSaid(Narrator, s, Player, call.input);
    LinesOfSaid(Player, s2, Narrator, Strip(call.reply.value));
    LinesOfSaid(Narrator, s2, Narrator, Strip(call.reply.value));
    HandledKeeps(s1, call);
    MovesOn(Said(s2, Narrator, Strip(call.reply.value)));
  }

  lemma SpokenByHandler(s: State, call: Call)
    ensures Lines(Narrator, Handled(s, call).interactions) == Lines(Narrator, s.interactions)
    ensures Lines(Player, Handled(s, call).interactions) == Lines(Player, s.interactions)
    ensures Handled(s, call).count == s.count
  {
    LinesAfterHandling(s, call);
    if call.composition.Some? {
      LinesOfSaid(Narrator, s.(compositionCommitted := true), System, "composition_extract:" + call.composition.value);
    }
  }

  lemma MovesOn(s: State)
    requires s.phase != Complete && !s.completed
    ensures Settled(s).interactions == s.interactions
    ensures if s.count >= 2 then Follows(s.phase, Settled(s).phase) && Settled(s).count == 0
      else Settled(s) == s
    ensures Settled(s).completed <==> Settled(s).phase == Complete
  {
  }

  /** What is inferred from the exchange comes from the model: traits, at most three, on the
      second interaction of their phase and if none are known; and a composition on the second
      of its phase, noted in the transcript. Neither changes otherwise. */
  lemma ExtractionsTell(s: State, call: Call)
    requires Response(s, call).Success?
    ensures var s' := Played(s, call);
      var traits := s.phase == BuildingCharacter && s.count + 1 >= 2 && s.inferredTraits == [] && call.traits.Some?;
      var world := s.phase == BuildingWorld && s.count + 1 >= 2 && !s.compositionCommitted;
      && (traits ==> s'.inferredTraits <= call.traits.value)
      && (traits ==> |s'.inferredTraits| == if |call.traits.value| <= 3 then |call.traits.value| else 3)
      && (!traits ==> s'.inferredTraits == s.inferredTraits)
      && (world ==> (s'.compositionCommitted <==> call.composition.Some?))
      && (!world ==> s'.compositionCommitted == s.compositionCommitted)
      && (world && call.composition.Some? ==>
            Lines(System, s'.interactions) == Lines(System, s.interactions) + ["composition_extract:" + call.composition.value])
      && (!world || call.composition.None? ==> Lines(System, s'.interactions) == Lines(System, s.interactions))
  {
    var s1 := Counted(s, call.input);
    var s2 := Handled(s1, call);
    LinesOfSaid(System, s, Player, call.input);
    if call.composition.Some? {
      LinesOfSaid(System, s1.(compositionCommitted := true), System, "composition_extract:" + call.composition.value);
    }
    LinesOfSaid(System, s2, Narrator, Response(s, call).value);
    SettledKeepsFacts(Said(s2, Narrator, Response(s, call).value));
    ExtractionsOfHandler(s1, call);
  }

  lemma SettledKeepsFacts(s: State)
    ensures Settled(s).(phase := s.phase, count := s.count, completed := s.completed) == s
  {
  }

  lemma ExtractionsOfHandler(s: State, call: Call)
    ensures var s' := Handled(s, call);
      var traits := s.phase == BuildingCharacter && s.count >= 2 && s.inferredTraits == [] && call.traits.Some?;
      var world := s.phase == BuildingWorld && s.count >= 2 && !s.compositionCommitted;
      && s'.inferredTraits == (if traits then Take(call.traits.value, 3) else s.inferredTraits)
      && (world ==> s' == WithComposition(s, call.composition))
      && (!world ==> s'.compositionCommitted == s.compositionCommitted && s'.interactions == s.interactions)
  {
  }

  /** A request touches no row but its session's, and makes none; a session without a state
      starts in the first phase; and a start whose first write fails leaves no trace. */
  lemma OnlyItsOwnRow(rows: Rows, sid: SessionId, harmful: string -> bool, call: Call, universe: AuditCursor.Uuid, second: bool)
    ensures Advanced(rows, sid, harmful, call).Keys == rows.Keys
    ensures forall other <- rows | other != sid :: Advanced(rows, sid, harmful, call)[other] == rows[other]
    ensures sid !in rows ==> Advanced(rows, sid, harmful, call) == rows
    ensures sid !in rows || rows[sid].None? ==>
      Loaded(rows, sid) == Some(State(Void, 0, [], None, None, [], [], None, None, None, false, None, false, None))
    ensures Started(rows, sid, universe, false, second) == rows
  {
  }

  /** The texts that are always the same. */
  lemma StockTexts(rows: Rows, sid: SessionId, harmful: string -> bool, call: Call)
    requires Loaded(rows, sid).Some?
    ensures Loaded(rows, sid).value.completed ==>
      Outcome(rows, sid, harmful, call) == Success("Genesis is already complete.")
    ensures !Loaded(rows, sid).value.completed && call.written && harmful(call.input) ==>
      Outcome(rows, sid, harmful, call) == Success("I hear something difficult in your words. Let's keep our journey on a gentler path. Tell me \U{2014} what draws you to this world?")
    ensures !Loaded(rows, sid).value.completed && !call.written ==>
      Outcome(rows, sid, harmful, call).Failure?
  {
  }

  // ------------------------------------------- what is never undone

  predicate Fixed(before: Option<string>, after: Option<string>) {
    Truthy(before) ==> after == before
  }

  /** The transcript only grows, and what has once been recorded stays. */
  predicate Extends(s: State, s': State) {
    && Keeps(s, s')
    && (s.completed ==> s' == s)
    && IndexOf(s.phase) <= IndexOf(s'.phase) <= IndexOf(s.phase) + 1
  }

  predicate Keeps(s: State, s': State) {
    && s.interactions <= s'.interactions
    && Fixed(s.slipEvent, s'.slipEvent)
    && (s.inferredTraits != [] ==> s'.inferredTraits == s.inferredTraits)
    && (s.confirmedTraits != [] ==> s'.confirmedTraits == s.confirmedTraits)
    && Fixed(s.narratorFormHint, s'.narratorFormHint)
    && Fixed(s.characterName, s'.characterName)
    && Fixed(s.firstTurnSeed, s'.firstTurnSeed)
    && (s.compositionCommitted ==> s'.compositionCommitted)
    && s'.universeId == s.universeId
  }

  lemma HandledKeeps(s: State, call: Call)
    ensures Keeps(s, Handled(s, call))
    ensures Handled(s, call).phase == s.phase && Handled(s, call).completed == s.completed
  {
    var s' := Handled(s, call);
    if s.phase == Threshold {
      assert s'.slipEvent == s.slipEvent && s'.characterName == s.characterName;
    } else if s.phase == Becoming {
      assert s'.slipEvent == s.slipEvent && s'.firstTurnSeed == s.firstTurnSeed;
    }
  }

  lemma SettledExtends(s: State)
    requires !s.completed
    ensures Extends(s, Settled(s))
  {
  }

  lemma PlayedExtends(s: State, call: Call)
    requires !s.completed && Response(s, call).Success?
    ensures Extends(s, Played(s, call))
  {
    var s1 := Counted(s, call.input);
    HandledKeeps(s1, call);
    var s3 := Said(Handled(s1, call), Narrator, Response(s, call).value);
    assert s3.phase == s.phase && !s3.completed;
    SettledExtends(s3);
  }

  /** A request extends the state it finds, whether or not `start` ever ran, as long as the
      stored dictionary can be read. */
  lemma RequestExtends(rows: Rows, sid: SessionId, harmful: string -> bool, call: Call)
    requires Loaded(rows, sid).Some?
    ensures Loaded(Advanced(rows, sid, harmful, call), sid).Some?
    ensures Extends(Loaded(rows, sid).value, Loaded(Advanced(rows, sid, harmful, call), sid).value)
  {
    var s := Loaded(rows, sid).value;
    if sid in rows {
      AdvanceLoads(rows, sid, harmful, call);
      if Offered(s, harmful, call).Some? && !harmful(call.input) {
        PlayedExtends(s, call);
      }
    }
  }

  // ------------------------------------------- the outcome of genesis

  /** A completed session has a name, a slip and a first-turn seed; the seed sums up the final
      state, names the narrator's form, and is never the stock sentence. */
  lemma SeedTellsTheStory(rows: Rows, harmful: string -> bool, requests: seq<Request>, sid: SessionId)
    requires Reached(rows, sid, [])
    requires |Inputs(harmful, requests, sid)| >= TOTAL
    ensures Loaded(Run(rows, harmful, requests), sid).Some?
    ensures var s, said := Loaded(Run(rows, harmful, requests), sid).value, Inputs(harmful, requests, sid);
      && s.completed
      && s.firstTurnSeed == Some(Join(" | ", SeedParts(s)))
      && "Narrator form: " + "a voice between memory and shadow" in SeedParts(s)
      && s.slipEvent == Some(Take(if said[4] != "" then said[4] else said[5], 200))
      && s.characterName == Some(ChosenName(if ChosenName(said[10]) != "" then said[10] else said[11]))
      && s.confirmedTraits == Take(s.inferredTraits, 2)
  {
    StateFollowsInputs(rows, harmful, requests, sid);
    StoryIsTold(Loaded(Run(rows, harmful, requests), sid).value, Take(Inputs(harmful, requests, sid), TOTAL));
  }

  lemma StoryIsTold(s: State, said: seq<string>)
    requires Story(s, said) && |said| == TOTAL
    ensures s.firstTurnSeed == Some(Join(" | ", SeedParts(s)))
    ensures "Narrator form: " + HINT in SeedParts(s)
    ensures s.slipEvent == Some(Take(if said[4] != "" then said[4] else said[5], 200))
    ensures s.characterName == Some(ChosenName(if ChosenName(said[10]) != "" then said[10] else said[11]))
  {
    HintIsAPart(s);
  }

  lemma HintIsAPart(s: State)
    requires s.narratorFormHint == Some(HINT)
    ensures "Narrator form: " + HINT in SeedParts(s)
  {
    assert HINT[0] == 'a';
  }

  /** At least two letters, of which the first is a capital. */
  predicate IsName(word: string) {
    |Clean(word)| >= 2 && 'A' <= Clean(word)[0] <= 'Z'
  }

  predicate FirstAt(words: seq<string>, i: int) {
    0 <= i < |words| && IsName(words[i]) && forall j :: 0 <= j < i ==> !IsName(words[j])
  }

  /** The first proper word, cleaned, or none if no word is proper. */
  ghost predicate IsFirstProper(words: seq<string>, found: Option<string>) {
    match found
    case None => forall w <- words :: !IsName(w)
    case Some(name) => exists i :: FirstAt(words, i) && name == Clean(words[i])
  }

  /** The name chosen from an input is its first proper word, cleaned, or else the first forty
      characters of the stripped input. */
  lemma NameIsFirstProperWord(input: string)
    ensures var found := FirstProper(Words(Strip(input)));
      && IsFirstProper(Words(Strip(input)), found)
      && ChosenName(input) == if found.Some? then found.value else Take(Strip(input), 40)
  {
    FirstProperIsFirst(Words(Strip(input)));
  }

  lemma {:induction false} FirstProperIsFirst(words: seq<string>)
    ensures IsFirstProper(words, FirstProper(words))
  {
    if words == [] {
    } else if Proper(words[0]) {
      assert FirstAt(words, 0);
    } else {
      FirstProperIsFirst(words[1..]);
      if FirstProper(words).Some? {
        var i :| FirstAt(words[1..], i) && FirstProper(words).value == Clean(words[1..][i]);
        forall j | 0 <= j < i + 1 ensures !IsName(words[j]) {
          if j > 0 {
            assert words[j] == words[1..][j - 1];
          }
        }
        assert FirstAt(words, i + 1);
      }
    }
  }
}
