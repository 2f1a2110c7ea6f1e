/** `GenesisState` of src/tta/genesis/genesis_v2.py: the record, and the dictionary it is stored as. */
module GenesisState {
  import opened Wrappers
  import opened AuditCursor

  datatype Phase =
    | Void | BuildingWorld | Slip | BuildingCharacter | FirstLight | Becoming | Threshold | Complete

  datatype Role = Narrator | Player | System

  datatype Interaction = Interaction(role: Role, content: string)

  datatype State = State(
    phase: Phase,
    count: int,
    interactions: seq<Interaction>,
    seedPhrase: Option<string>,
    slipEvent: Option<string>,
    inferredTraits: seq<string>,
    confirmedTraits: seq<string>,
    narratorFormHint: Option<string>,
    characterName: Option<string>,
    startingLocation: Option<string>,
    compositionCommitted: bool,
    firstTurnSeed: Option<string>,
    completed: bool,
    universeId: Option<Uuid>)

  /** A decoded JSON value. */
  datatype Json =
    | Null
    | Bool(b: bool)
    | Number(n: int)
    | Text(s: string)
    | List(items: seq<Json>)
    | Object(fields: map<string, Json>)

  type Dict = map<string, Json>

  const PHASE_ORDER: seq<Phase> :=
    [Void, BuildingWorld, Slip, BuildingCharacter, FirstLight, Becoming, Threshold, Complete]

  const FRESH: State :=
    State(Void, 0, [], None, None, [], [], None, None, None, false, None, false, None)

  // ------------------------------------------- writing

  function PhaseText(p: Phase): string {
    match p
    case Void => "void"
    case BuildingWorld => "building_world"
    case Slip => "slip"
    case BuildingCharacter => "building_character"
    case FirstLight => "first_light"
    case Becoming => "becoming"
    case Threshold => "threshold"
    case Complete => "COMPLETE"
  }

  function RoleText(r: Role): string {
    match r
    case Narrator => "narrator"
    case Player => "player"
    case System => "system"
  }

  function Optional(t: Option<string>): Json {
    if t.None? then Null else Text(t.value)
  }

  function Texts(ts: seq<string>): Json {
    List(seq(|ts|, i requires 0 <= i < |ts| => Text(ts[i])))
  }

  function InteractionDict(i: Interaction): Json {
    Object(map["role" := Text(RoleText(i.role)), "content" := Text(i.content)])
  }

  function Interactions(turns: seq<Interaction>): Json {
    List(seq(|turns|, k requires 0 <= k < |turns| => InteractionDict(turns[k])))
  }

  function ToDict(s: State): Dict {
    map[
      "current_phase" := Text(PhaseText(s.phase)),
      "phase_interaction_count" := Number(s.count),
      "interactions" := Interactions(s.interactions),
      "seed_phrase" := Optional(s.seedPhrase),
      "slip_event" := Optional(s.slipEvent),
      "inferred_traits" := Texts(s.inferredTraits),
      "confirmed_traits" := Texts(s.confirmedTraits),
      "narrator_form_hint" := Optional(s.narratorFormHint),
      "character_name" := Optional(s.characterName),
      "starting_location" := Optional(s.startingLocation),
      "composition_committed" := Bool(s.compositionCommitted),
      "first_turn_seed" := Optional(s.firstTurnSeed),
      "completed" := Bool(s.completed),
      "universe_id" := if s.universeId.None? then Null else Text(UuidText(s.universeId.value))
    ]
  }

  // ------------------------------------------- reading

  function Get(d: Dict, key: string, default: Json): Json {
    if key in d then d[key] else default
  }

  function ReadPhase(j: Json): Option<Phase> {
    match j
    case Text("void") => Some(Void)
    case Text("building_world") => Some(BuildingWorld)
    case Text("slip") => Some(Slip)
    case Text("building_character") => Some(BuildingCharacter)
    case Text("first_light") => Some(FirstLight)
    case Text("becoming") => Some(Becoming)
    case Text("threshold") => Some(Threshold)
    case Text("COMPLETE") => Some(Complete)
    case _ => None
  }

  function ReadRole(j: Json): Option<Role> {
    match j
    case Text("narrator") => Some(Narrator)
    case Text("player") => Some(Player)
    case Text("system") => Some(System)
    case _ => None
  }

  function ReadOptional(j: Json): Option<Option<string>> {
    match j
    case Null => Some(None)
    case Text(t) => Some(Some(t))
    case _ => None
  }

  function ReadTexts(items: seq<Json>): Option<seq<string>> {
    if items == [] then Some([])
    else
      match (items[0], ReadTexts(items[1..]))
      case (Text(t), Some(rest)) => Some([t] + rest)
      case _ => None
  }

  function ReadInteraction(j: Json): Option<Interaction> {
    if !j.Object? then None
    else
      match (ReadRole(Get(j.fields, "role", Null)), Get(j.fields, "content", Null))
      case (Some(role), Text(content)) => Some(Interaction(role, content))
      case _ => None
  }

  function ReadInteractions(items: seq<Json>): Option<seq<Interaction>> {
    if items == [] then Some([])
    else
      match (ReadInteraction(items[0]), ReadInteractions(items[1..]))
      case (Some(i), Some(rest)) => Some([i] + rest)
      case _ => None
  }

  function ReadTextList(j: Json): Option<seq<string>> {
    if j.List? then ReadTexts(j.items) else None
  }

  function ReadInteractionList(j: Json): Option<seq<Interaction>> {
    if j.List? then ReadInteractions(j.items) else None
  }

  function ReadInt(j: Json): Option<int> {
    if j.Number? then Some(j.n) else None
  }

  function ReadBool(j: Json): Option<bool> {
    if j.Bool? then Some(j.b) else None
  }

  /** Null and the empty text both stand for no universe. */
  function ReadUniverse(j: Json): Option<Option<Uuid>> {
    match j
    case Null => Some(None)
    case Text(t) =>
      if t == "" then Some(None)
      else if ParseUuid(t).Some? then Some(ParseUuid(t)) else None
    case _ => None
  }

  function ReadText(d: Dict, key: string): Option<Option<string>> {
    ReadOptional(Get(d, key, Null))
  }

  /** Missing keys take their defaults; an unknown phase, a malformed identifier or a value of
      another shape is an error. */
  function FromDict(d: Dict): Option<State> {
    var phase := ReadPhase(Get(d, "current_phase", Text("void")));
    var count := ReadInt(Get(d, "phase_interaction_count", Number(0)));
    var interactions := ReadInteractionList(Get(d, "interactions", List([])));
    var seed, slip := ReadText(d, "seed_phrase"), ReadText(d, "slip_event");
    var inferred := ReadTextList(Get(d, "inferred_traits", List([])));
    var confirmed := ReadTextList(Get(d, "confirmed_traits", List([])));
    var hint, name := ReadText(d, "narrator_form_hint"), ReadText(d, "character_name");
    var location := ReadText(d, "starting_location");
    var committed := ReadBool(Get(d, "composition_committed", Bool(false)));
    var first := ReadText(d, "first_turn_seed");
    var completed := ReadBool(Get(d, "completed", Bool(false)));
    var universe := ReadUniverse(Get(d, "universe_id", Null));
    if phase.None? || count.None? || interactions.None? || seed.None? || slip.None? || inferred.None?
      || confirmed.None? || hint.None? || name.None? || location.None? || committed.None? || first.None?
      || completed.None? || universe.None?
    then None
    else Some(State(phase.value, count.value, interactions.value, seed.value, slip.value, inferred.value,
      confirmed.value, hint.value, name.value, location.value, committed.value, first.value,
      completed.value, universe.value))
  }

  // ------------------------------------------- round trip

  lemma PhaseRoundTrip(p: Phase)
    ensures ReadPhase(Text(PhaseText(p))) == Some(p)
  {
    assert PhaseText(p)[0] in "vbsftC";
  }

  lemma InteractionRoundTrip(i: Interaction)
    ensures ReadInteraction(InteractionDict(i)) == Some(i)
  {
    assert "role" != "content";
    assert ReadRole(Text(RoleText(i.role))) == Some(i.role);
  }

  lemma {:induction false} TextsRoundTrip(ts: seq<string>)
    ensures ReadTextList(Texts(ts)) == Some(ts)
  {
    if ts != [] {
      TextsRoundTrip(ts[1..]);
      assert Texts(ts).items[1..] == Texts(ts[1..]).items;
      assert ts == [ts[0]] + ts[1..];
    }
  }

  lemma {:induction false} InteractionsRoundTrip(turns: seq<Interaction>)
    ensures ReadInteractionList(Interactions(turns)) == Some(turns)
  {
    if turns != [] {
      InteractionRoundTrip(turns[0]);
      InteractionsRoundTrip(turns[1..]);
      assert Interactions(turns).items[1..] == Interactions(turns[1..]).items;
      assert turns == [turns[0]] + turns[1..];
    }
  }

  lemma UniverseRoundTrip(u: Option<Uuid>)
    ensures ReadUniverse(if u.None? then Null else Text(UuidText(u.value))) == Some(u)
  {
    if u.Some? {
      UuidRoundTrip(u.value);
    }
  }

  /** What a dictionary must hold under each key to be read as `s`. */
  predicate Holds1(d: Dict, s: State) {
    && Get(d, "current_phase", Text("void")) == Text(PhaseText(s.phase))
    && Get(d, "phase_interaction_count", Number(0)) == Number(s.count)
    && Get(d, "interactions", List([])) == Interactions(s.interactions)
    && Get(d, "seed_phrase", Null) == Optional(s.seedPhrase)
    && Get(d, "slip_event", Null) == Optional(s.slipEvent)
  }

  predicate Holds2(d: Dict, s: State) {
    && Get(d, "inferred_traits", List([])) == Texts(s.inferredTraits)
    && Get(d, "confirmed_traits", List([])) == Texts(s.confirmedTraits)
    && Get(d, "narrator_form_hint", Null) == Optional(s.narratorFormHint)
    && Get(d, "character_name", Null) == Optional(s.characterName)
    && Get(d, "starting_location", Null) == Optional(s.startingLocation)
    && Get(d, "composition_committed", Bool(false)) == Bool(s.compositionCommitted)
    && Get(d, "first_turn_seed", Null) == Optional(s.firstTurnSeed)
    && Get(d, "completed", Bool(false)) == Bool(s.completed)
    && Get(d, "universe_id", Null) == if s.universeId.None? then Null else Text(UuidText(s.universeId.value))
  }

  lemma ReadsBack(d: Dict, s: State)
    requires Holds1(d, s) && Holds2(d, s)
    ensures FromDict(d) == Some(s)
  {
    assert forall t :: ReadOptional(Optional(t)) == Some(t);
    PhaseRoundTrip(s.phase);
    InteractionsRoundTrip(s.interactions);
    TextsRoundTrip(s.inferredTraits);
    TextsRoundTrip(s.confirmedTraits);
    UniverseRoundTrip(s.universeId);
  }

  lemma WritesAll1(s: State)
    ensures Holds1(ToDict(s), s)
  {
  }

  lemma WritesAll2(s: State)
    ensures Holds2(ToDict(s), s)
  {
  }

  /** `from_dict` undoes `to_dict`. */
  lemma DictRoundTrip(s: State)
    ensures FromDict(ToDict(s)) == Some(s)
  {
    WritesAll1(s);
    WritesAll2(s);
    ReadsBack(ToDict(s), s);
  }

  // ------------------------------------------- the stored form

  /** The keys of the dictionary, and the names of phases and roles in it. */
  lemma DictShape(s: State)
    ensures ToDict(s).Keys == {"current_phase", "phase_interaction_count", "interactions", "seed_phrase",
      "slip_event", "inferred_traits", "confirmed_traits", "narrator_form_hint", "character_name",
      "starting_location", "composition_committed", "first_turn_seed", "completed", "universe_id"}
    ensures Holds1(ToDict(s), s) && Holds2(ToDict(s), s)
  {
    WritesAll1(s);
    WritesAll2(s);
  }

  /** A row from before genesis had a state is read as a fresh one; an empty text stands for no
      universe; and a phase that does not exist is an error. */
  lemma OldDicts(name: string)
    ensures FromDict(map[]) == Some(State(Void, 0, [], None, None, [], [], None, None, None, false, None, false, None))
    ensures FromDict(map["universe_id" := Text("")]) == FromDict(map[])
    ensures name !in ["void", "building_world", "slip", "building_character", "first_light", "becoming", "threshold", "COMPLETE"]
      ==> FromDict(map["current_phase" := Text(name)]).None?
  {
    var d: Dict := map["universe_id" := Text("")];
    assert forall k | k in {"current_phase", "phase_interaction_count", "interactions", "seed_phrase",
      "slip_event", "inferred_traits", "confirmed_traits", "narrator_form_hint", "character_name",
      "starting_location", "composition_committed", "first_turn_seed", "completed"} :: k !in d;
    var e: Dict := map["current_phase" := Text(name)];
    assert Get(e, "current_phase", Text("void")) == Text(name);
  }

  /** How the narrator's and the player's lines are stored. */
  lemma LinesAreNamed(content: string)
    ensures InteractionDict(Interaction(Narrator, content)) == Object(map["role" := Text("narrator"), "content" := Text(content)])
    ensures InteractionDict(Interaction(Player, content)) == Object(map["role" := Text("player"), "content" := Text(content)])
    ensures InteractionDict(Interaction(System, content)) == Object(map["role" := Text("system"), "content" := Text(content)])
  {
  }
}
