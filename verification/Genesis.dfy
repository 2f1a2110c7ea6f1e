/** `GenesisOrchestrator` of src/tta/genesis/genesis_v2.py: one call, from load to save. */
module Genesis {
  import opened Wrappers
  import opened GenesisState
  import AuditCursor

  const MIN_INTERACTIONS_PER_PHASE: nat := 2

  const HINT := "a voice between memory and shadow"

  const REDIRECT := "I hear something difficult in your words. Let's keep our journey on a gentler path. Tell me \U{2014} what draws you to this world?"

  const OPENING := "You find yourself in a moment of quiet. Tell me \U{2014} what does your ordinary world look like right now?"

  const ALREADY_COMPLETE := "Genesis is already complete."

  /** One request, and how the model and the database behave while it is served: the composition
      and the traits the model extracts (None when that fails), its reply (Failure when the
      call raises), and whether the final write succeeds. */
  datatype Call = Call(
    input: string,
    composition: Option<string>,
    traits: Option<seq<string>>,
    reply: Result<string>,
    written: bool)

  // ------------------------------------------- text

  function Take<T>(s: seq<T>, n: nat): seq<T> {
    if |s| <= n then s else s[..n]
  }

  predicate IsSpace(c: char) {
    var n := c as int;
    || 9 <= n <= 13 || 28 <= n <= 32 || n in {0x85, 0xA0, 0x1680}
    || 0x2000 <= n <= 0x200A || n in {0x2028, 0x2029, 0x202F, 0x205F, 0x3000}
  }

  function StripLeft(s: string): string {
    if s != "" && IsSpace(s[0]) then StripLeft(s[1..]) else s
  }

  function StripRight(s: string): string {
    if s != "" && IsSpace(s[|s| - 1]) then StripRight(s[..|s| - 1]) else s
  }

  function Strip(s: string): string {
    StripRight(StripLeft(s))
  }

  /** The maximal runs of characters that are not spaces. */
  function Words(s: string): seq<string>
    decreases |s|
  {
    if s == "" then []
    else if IsSpace(s[0]) then Words(s[1..])
    else
      var n := WordLength(s);
      [s[..n]] + Words(s[n..])
  }

  function WordLength(s: string): (n: nat)
    ensures n <= |s|
    ensures s != "" && !IsSpace(s[0]) ==> n > 0
  {
    if s == "" || IsSpace(s[0]) then 0 else 1 + WordLength(s[1..])
  }

  predicate Capital(c: char) { 'A' <= c <= 'Z' }

  predicate Letter(c: char) { Capital(c) || 'a' <= c <= 'z' || c == '\'' }

  function Clean(word: string): string {
    if word == "" then "" else (if Letter(word[0]) then [word[0]] else "") + Clean(word[1..])
  }

  predicate Proper(word: string) {
    var clean := Clean(word);
    clean != "" && Capital(clean[0]) && |clean| > 1
  }

  function FirstProper(words: seq<string>): Option<string> {
    if words == [] then None
    else if Proper(words[0]) then Some(Clean(words[0]))
    else FirstProper(words[1..])
  }

  function ChosenName(input: string): string {
    match FirstProper(Words(Strip(input)))
    case Some(name) => name
    case None => Take(Strip(input), 40)
  }

  /** None and the empty text are both false. */
  predicate Truthy(t: Option<string>) {
    t.Some? && t.value != ""
  }

  function Join(sep: string, parts: seq<string>): string {
    if parts == [] then "" else if |parts| == 1 then parts[0] else parts[0] + sep + Join(sep, parts[1..])
  }

  function SeedParts(s: State): seq<string> {
    (if Truthy(s.characterName) then ["Character: " + s.characterName.value] else [])
    + (if s.confirmedTraits != [] then ["Traits: " + Join(", ", s.confirmedTraits)] else [])
    + (if Truthy(s.narratorFormHint) then ["Narrator form: " + s.narratorFormHint.value] else [])
    + (if Truthy(s.slipEvent) then ["The slip: " + s.slipEvent.value] else [])
  }

  /** The seed of the first turn. */
  function Summary(s: State): string {
    if SeedParts(s) == [] then "A traveller steps through." else Join(" | ", SeedParts(s))
  }

  // ------------------------------------------- what these texts are

  lemma TakeIsPrefix<T>(s: seq<T>, n: nat)
    ensures Take(s, n) <= s && |Take(s, n)| == if |s| <= n then |s| else n
  {
  }

  /** Stripping takes away spaces at both ends and no more. */
  lemma StripTakesSpaces(s: string)
    ensures exists a, b ::
      && s == a + Strip(s) + b && (forall c <- a :: IsSpace(c)) && (forall c <- b :: IsSpace(c))
    ensures Strip(s) != "" ==> !IsSpace(Strip(s)[0]) && !IsSpace(Strip(s)[|Strip(s)| - 1])
  {
    var a := LeftSpaces(s);
    var b := RightSpaces(StripLeft(s));
    assert s == a + Strip(s) + b;
  }

  lemma {:induction false} LeftSpaces(s: string) returns (a: string)
    ensures s == a + StripLeft(s) && forall c <- a :: IsSpace(c)
    ensures StripLeft(s) != "" ==> !IsSpace(StripLeft(s)[0])
  {
    a := "";
    if s != "" && IsSpace(s[0]) {
      a := LeftSpaces(s[1..]);
      a := [s[0]] + a;
    }
  }

  lemma {:induction false} RightSpaces(s: string) returns (b: string)
    requires s != "" ==> !IsSpace(s[0])
    ensures s == StripRight(s) + b && forall c <- b :: IsSpace(c)
    ensures StripRight(s) != "" ==> !IsSpace(StripRight(s)[0]) && !IsSpace(StripRight(s)[|StripRight(s)| - 1])
  {
    b := "";
    if s != "" && IsSpace(s[|s| - 1]) {
      b := RightSpaces(s[..|s| - 1]);
      b := b + [s[|s| - 1]];
    }
  }

  /** A word ends where the next space is; spaces between words are passed over. */
  lemma WordsAreParted(word: string, space: char, rest: string)
    requires word != "" && forall c <- word :: !IsSpace(c)
    requires IsSpace(space)
    ensures Words("") == [] && Words([space] + rest) == Words(rest)
    ensures Words(word) == [word] && Words(word + [space] + rest) == [word] + Words(rest)
  {
    assert ([space] + rest)[1..] == rest;
    WholeWord(word, "");
    WholeWord(word, [space] + rest);
    assert word + "" == word && word + ([space] + rest) == word + [space] + rest;
    assert (word + [space] + rest)[|word|..] == [space] + rest && (word + [space] + rest)[..|word|] == word;
  }

  lemma {:induction false} WholeWord(word: string, rest: string)
    requires (forall c <- word :: !IsSpace(c)) && (rest == "" || IsSpace(rest[0]))
    ensures WordLength(word + rest) == |word|
  {
    if word == "" {
      assert word + rest == rest;
    } else {
      assert (word + rest)[1..] == word[1..] + rest;
      WholeWord(word[1..], rest);
    }
  }

  lemma SpacesAreSpaces()
    ensures IsSpace(' ') && IsSpace('\t') && IsSpace('\n') && IsSpace('\r')
    ensures forall c | '!' <= c <= '~' :: !IsSpace(c)
  {
  }

  /** Cleaning goes character by character and keeps letters and apostrophes. */
  lemma CleaningKeepsLetters(c: char, word: string)
    ensures Clean("") == ""
    ensures Clean([c] + word)
      == (if 'a' <= c <= 'z' || 'A' <= c <= 'Z' || c == '\'' then [c] else "") + Clean(word)
  {
    assert ([c] + word)[1..] == word;
  }

  /** The parts of the first turn's seed, of which those that are not known are left out. */
  lemma SeedReads(s: State, name: string, hint: string, slip: string)
    requires name != "" && hint != "" && slip != ""
    requires s.characterName == Some(name) && s.narratorFormHint == Some(hint) && s.slipEvent == Some(slip)
    ensures Summary(s) == Join(" | ", SeedParts(s))
    ensures s.confirmedTraits == [] ==>
      SeedParts(s) == ["Character: " + name, "Narrator form: " + hint, "The slip: " + slip]
    ensures s.confirmedTraits != [] ==>
      SeedParts(s) == ["Character: " + name, "Traits: " + Join(", ", s.confirmedTraits),
                       "Narrator form: " + hint, "The slip: " + slip]
  {
  }

  lemma JoinTwo(sep: string, a: string, b: string)
    ensures Join(sep, [a, b]) == a + sep + b
  {
    assert [a, b][1..] == [b];
  }

  lemma JoinFirst(sep: string, a: string, rest: seq<string>)
    requires rest != []
    ensures Join(sep, [a] + rest) == a + sep + Join(sep, rest)
  {
    assert ([a] + rest)[1..] == rest;
  }

  // ------------------------------------------- what each step does to the state

  function Said(s: State, role: Role, content: string): State {
    s.(interactions := s.interactions + [Interaction(role, content)])
  }

  function WithComposition(s: State, composition: Option<string>): State {
    match composition
    case None => s.(compositionCommitted := false)
    case Some(blob) => Said(s.(compositionCommitted := true), System, "composition_extract:" + blob)
  }

  /** The state as a phase handler leaves it when it gets to its reply. */
  function Handled(s: State, call: Call): State {
    match s.phase
    case BuildingWorld =>
      if s.count >= MIN_INTERACTIONS_PER_PHASE && !s.compositionCommitted
      then WithComposition(s, call.composition) else s
    case Slip =>
      if Truthy(s.slipEvent) then s else s.(slipEvent := Some(Take(call.input, 200)))
    case BuildingCharacter =>
      if s.count >= MIN_INTERACTIONS_PER_PHASE && s.inferredTraits == [] && call.traits.Some?
      then s.(inferredTraits := Take(call.traits.value, 3)) else s
    case FirstLight =>
      s.(confirmedTraits :=
           if s.inferredTraits != [] && s.confirmedTraits == [] then Take(s.inferredTraits, 2) else s.confirmedTraits,
         narratorFormHint := if Truthy(s.narratorFormHint) then s.narratorFormHint else Some(HINT))
    case Becoming =>
      if Truthy(s.characterName) then s else s.(characterName := Some(ChosenName(call.input)))
    case Threshold =>
      if Truthy(s.firstTurnSeed) then s else s.(firstTurnSeed := Some(Summary(s)))
    case _ => s
  }

  function Response(s: State, call: Call): Result<string> {
    if s.phase == Complete then Success("The journey continues\U{2026}")
    else if call.reply.Success? then Success(Strip(call.reply.value))
    else Failure
  }

  function IndexOf(p: Phase): (i: nat)
    ensures i < |PHASE_ORDER| && PHASE_ORDER[i] == p
  {
    match p
    case Void => 0 case BuildingWorld => 1 case Slip => 2 case BuildingCharacter => 3
    case FirstLight => 4 case Becoming => 5 case Threshold => 6 case Complete => 7
  }

  function NextPhase(s: State): State {
    var i := IndexOf(s.phase) + 1;
    if i >= |PHASE_ORDER| then s
    else s.(phase := PHASE_ORDER[i], count := 0, completed := s.completed || PHASE_ORDER[i] == Complete)
  }

  function Settled(s: State): State {
    if s.count >= MIN_INTERACTIONS_PER_PHASE && s.phase != Complete then NextPhase(s) else s
  }

  function Counted(s: State, input: string): State {
    Said(s, Player, input).(count := s.count + 1)
  }

  function Played(s: State, call: Call): State
    requires Response(s, call).Success?
  {
    Settled(Said(Handled(Counted(s, call.input), call), Narrator, Response(s, call).value))
  }

  /** The state that a call offers for saving, if it gets that far. */
  function Offered(s: State, harmful: string -> bool, call: Call): Option<State> {
    if s.completed then None
    else if harmful(call.input) then Some(Said(s, Narrator, REDIRECT))
    else if Response(s, call).Success? then Some(Played(s, call))
    else None
  }

  // ------------------------------------------- rows

  type SessionId = nat

  /** `game_sessions.genesis_state` by session; None is NULL. */
  type Rows = map<SessionId, Option<Dict>>

  function Loaded(rows: Rows, sid: SessionId): Option<State> {
    if sid !in rows || rows[sid].None? then Some(FRESH) else FromDict(rows[sid].value)
  }

  function Saved(rows: Rows, sid: SessionId, s: State, written: bool): Rows {
    if written && sid in rows then rows[sid := Some(ToDict(s))] else rows
  }

  function Advanced(rows: Rows, sid: SessionId, harmful: string -> bool, call: Call): Rows {
    match Loaded(rows, sid)
    case None => rows
    case Some(s) =>
      match Offered(s, harmful, call)
      case None => rows
      case Some(s') => Saved(rows, sid, s', call.written)
  }

  function Outcome(rows: Rows, sid: SessionId, harmful: string -> bool, call: Call): Result<string> {
    match Loaded(rows, sid)
    case None => Failure
    case Some(s) =>
      if s.completed then Success(ALREADY_COMPLETE)
      else if !call.written then Failure
      else if harmful(call.input) then Success(REDIRECT)
      else Response(s, call)
  }

  function Begun(universe: AuditCursor.Uuid): State {
    FRESH.(universeId := Some(universe))
  }

  function Started(rows: Rows, sid: SessionId, universe: AuditCursor.Uuid, first: bool, second: bool): Rows {
    var rows1 := Saved(rows, sid, Begun(universe), first);
    Saved(rows1, sid, Said(Begun(universe), Narrator, OPENING), first && second)
  }

  // ------------------------------------------- the objects

  class Genesis {
    var phase: Phase
    var count: int
    var interactions: seq<Interaction>
    var seedPhrase: Option<string>
    var slipEvent: Option<string>
    var inferredTraits: seq<string>
    var confirmedTraits: seq<string>
    var narratorFormHint: Option<string>
    var characterName: Option<string>
    var startingLocation: Option<string>
    var compositionCommitted: bool
    var firstTurnSeed: Option<string>
    var completed: bool
    var universeId: Option<AuditCursor.Uuid>

    function Value(): State
      reads this
    {
      State(phase, count, interactions, seedPhrase, slipEvent, inferredTraits, confirmedTraits, narratorFormHint,
        characterName, startingLocation, compositionCommitted, firstTurnSeed, completed, universeId)
    }

    constructor (s: State)
      ensures Value() == s
    {
      phase, count, interactions := s.phase, s.count, s.interactions;
      seedPhrase, slipEvent := s.seedPhrase, s.slipEvent;
      inferredTraits, confirmedTraits := s.inferredTraits, s.confirmedTraits;
      narratorFormHint, characterName := s.narratorFormHint, s.characterName;
      startingLocation, compositionCommitted := s.startingLocation, s.compositionCommitted;
      firstTurnSeed, completed, universeId := s.firstTurnSeed, s.completed, s.universeId;
    }

    method Append(role: Role, content: string)
      modifies this
      ensures Value() == Said(old(Value()), role, content)
    {
      interactions := interactions + [Interaction(role, content)];
    }

    method ExtractComposition(call: Call)
      modifies this
      ensures Value() == WithComposition(old(Value()), call.composition)
    {
      if call.composition.Some? {
        compositionCommitted := true;
        Append(System, "composition_extract:" + call.composition.value);
      } else {
        compositionCommitted := false;
      }
    }

    /** The first word that looks like a name, or the start of the input. */
    method ChooseName(input: string)
      requires !Truthy(characterName)
      modifies this
      ensures Value() == old(Value()).(characterName := Some(ChosenName(input)))
    {
      var words := Words(Strip(input));
      var i := 0;
      while i < |words| && !Proper(words[i])
        invariant 0 <= i <= |words|
        invariant FirstProper(words) == FirstProper(words[i..])
        invariant Value() == old(Value())
      {
        assert words[i..][1..] == words[i + 1..];
        i := i + 1;
      }
      if i < |words| {
        assert words[i..][0] == words[i];
        characterName := Some(Clean(words[i]));
      }
      if !Truthy(characterName) {
        characterName := Some(Take(Strip(input), 40));
      }
    }

    method BuildSeed()
      modifies this
      ensures Value() == old(Value()).(firstTurnSeed := Some(Summary(old(Value()))))
    {
      var parts: seq<string> := [];
      if Truthy(characterName) {
        parts := parts + ["Character: " + characterName.value];
      }
      if confirmedTraits != [] {
        parts := parts + ["Traits: " + Join(", ", confirmedTraits)];
      }
      if Truthy(narratorFormHint) {
        parts := parts + ["Narrator form: " + narratorFormHint.value];
      }
      if Truthy(slipEvent) {
        parts := parts + ["The slip: " + slipEvent.value];
      }
      assert parts == SeedParts(Value());
      firstTurnSeed := Some(if parts == [] then "A traveller steps through." else Join(" | ", parts));
    }

    method ProcessPhase(call: Call) returns (response: Result<string>)
      modifies this
      ensures Value() == Handled(old(Value()), call)
      ensures response == Response(old(Value()), call)
    {
      response := Response(Value(), call);
      match phase {
        case BuildingWorld =>
          if count >= MIN_INTERACTIONS_PER_PHASE && !compositionCommitted {
            ExtractComposition(call);
          }
        case Slip =>
          if !Truthy(slipEvent) {
            slipEvent := Some(Take(call.input, 200));
          }
        case BuildingCharacter =>
          if count >= MIN_INTERACTIONS_PER_PHASE && inferredTraits == [] && call.traits.Some? {
            inferredTraits := Take(call.traits.value, 3);
          }
        case FirstLight =>
          if inferredTraits != [] && confirmedTraits == [] {
            confirmedTraits := Take(inferredTraits, 2);
          }
          if !Truthy(narratorFormHint) {
            narratorFormHint := Some(HINT);
          }
        case Becoming =>
          if !Truthy(characterName) {
            ChooseName(call.input);
          }
        case Threshold =>
          if !Truthy(firstTurnSeed) {
            BuildSeed();
          }
        case Void =>
        case Complete =>
      }
    }

    method MaybeAdvancePhase()
      modifies this
      ensures Value() == NextPhase(old(Value()))
    {
      var i := IndexOf(phase);
      if i + 1 >= |PHASE_ORDER| {
        return;
      }
      phase, count := PHASE_ORDER[i + 1], 0;
      if phase == Complete {
        completed := true;
      }
    }

    /** One accepted input: both sides of the exchange, the phase's own work, the next phase. */
    method Play(call: Call) returns (r: Result<string>)
      modifies this
      ensures r == Response(old(Value()), call)
      ensures r.Success? ==> Value() == Played(old(Value()), call)
    {
      Append(Player, call.input);
      count := count + 1;
      assert Value() == Counted(old(Value()), call.input);
      r := ProcessPhase(call);
      if r.Success? {
        Append(Narrator, r.value);
        if count >= MIN_INTERACTIONS_PER_PHASE && phase != Complete {
          MaybeAdvancePhase();
        }
      }
    }
  }

  class Orchestrator {
    var rows: Rows

    constructor (rows: Rows)
      ensures this.rows == rows
    {
      this.rows := rows;
    }

    method SaveState(sid: SessionId, state: Genesis, written: bool)
      modifies this
      ensures rows == Saved(old(rows), sid, state.Value(), written)
    {
      if written && sid in rows {
        rows := rows[sid := Some(ToDict(state.Value()))];
      }
    }

    method Start(sid: SessionId, universe: AuditCursor.Uuid, first: bool, second: bool) returns (r: Result<string>)
      modifies this
      ensures rows == Started(old(rows), sid, universe, first, second)
      ensures r == if first && second then Success(OPENING) else Failure
    {
      var state := new Genesis(FRESH);
      state.universeId := Some(universe);
      SaveState(sid, state, first);
      if !first {
        return Failure;
      }
      state.Append(Narrator, OPENING);
      SaveState(sid, state, second);
      r := if second then Success(OPENING) else Failure;
    }

    method Advance(sid: SessionId, harmful: string -> bool, call: Call) returns (r: Result<string>)
      modifies this
      ensures rows == Advanced(old(rows), sid, harmful, call)
      ensures r == Outcome(old(rows), sid, harmful, call)
    {
      var loaded := Loaded(rows, sid);
      if loaded.None? {
        return Failure;
      }
      var state := new Genesis(loaded.value);
      if state.completed {
        return Success(ALREADY_COMPLETE);
      }
      if harmful(call.input) {
        state.Append(Narrator, REDIRECT);
        SaveState(sid, state, call.written);
        return if call.written then Success(REDIRECT) else Failure;
      }
      r := state.Play(call);
      if r.Failure? {
        return;
      }
      SaveState(sid, state, call.written);
      r := if call.written then r else Failure;
    }
  }
}
