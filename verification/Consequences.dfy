/**
  Consequence chains: the records of src/tta/models/consequence.py and what each operation
  of `InMemoryConsequenceService` (src/tta/choices/consequence_service.py) does to them.
  */
module Consequences {
  import opened Wrappers
  import opened StableSort

  // ------------------------------------------- records

  datatype Timescale = Immediate | ShortTerm | LongTerm
  datatype Visibility = Visible | Foreshadowed | Hidden
  datatype Status = Pending | Active | Resolved | Dormant | Pruned
  datatype Impact = Cosmetic | Atmospheric | Consequential | Pivotal | Defining
  datatype Reversibility = Trivial | Moderate | Significant | Permanent

  datatype Entry = Entry(
    id: nat,
    chainId: nat,
    effect: string,
    visibility: Visibility,
    status: Status,
    timescale: Timescale,
    hook: string,
    turnCreated: int,
    turnResolved: Option<int>)

  datatype Chain = Chain(
    id: nat,
    trigger: string,
    entries: seq<Entry>,
    impact: Impact,
    reversibility: Reversibility,
    turnCreated: int,
    lastActiveTurn: int,
    isDormant: bool)

  predicate IsResolved(c: Chain) {
    |c.entries| > 0 && forall e <- c.entries :: e.status in {Resolved, Pruned}
  }

  predicate IsActive(c: Chain) {
    !IsResolved(c) && !c.isDormant
  }

  // ------------------------------------------- evaluate

  datatype WorldChange = WorldChange(entryId: nat, chainId: nat, effect: string, timescale: Timescale)

  predicate InWindow(e: Entry, turn: int) {
    var elapsed := turn - e.turnCreated;
    match e.timescale
    case Immediate => elapsed == 0
    case ShortTerm => 1 <= elapsed <= 10
    case LongTerm => elapsed > 10
  }

  /** The entry turns active on this turn. */
  predicate Fires(e: Entry, turn: int) {
    e.status == Pending && InWindow(e, turn) && e.visibility != Hidden
  }

  /** The entry hints on this turn. */
  predicate Hints(e: Entry, turn: int) {
    && e.status == Pending && e.hook != "" && !Fires(e, turn)
    && (e.visibility == Foreshadowed || (e.visibility == Hidden && InWindow(e, turn)))
  }

  function EvaluateEntry(e: Entry, turn: int): Entry {
    if Fires(e, turn) then e.(status := Active) else e
  }

  function EvaluateEntries(es: seq<Entry>, turn: int): seq<Entry> {
    if es == [] then []
    else EvaluateEntries(es[..|es| - 1], turn) + [EvaluateEntry(es[|es| - 1], turn)]
  }

  function Changes(es: seq<Entry>, turn: int): seq<WorldChange> {
    if es == [] then []
    else
      var e := es[|es| - 1];
      Changes(es[..|es| - 1], turn)
      + if Fires(e, turn) then [WorldChange(e.id, e.chainId, e.effect, e.timescale)] else []
  }

  function HintsOf(es: seq<Entry>, turn: int): seq<string> {
    if es == [] then []
    else
      HintsOf(es[..|es| - 1], turn) + if Hints(es[|es| - 1], turn) then [es[|es| - 1].hook] else []
  }

  function EvaluateChain(c: Chain, turn: int): Chain {
    if !IsActive(c) then c
    else c.(entries := EvaluateEntries(c.entries, turn),
            lastActiveTurn := if Changes(c.entries, turn) != [] then turn else c.lastActiveTurn)
  }

  function EvaluateChains(cs: seq<Chain>, turn: int): seq<Chain> {
    if cs == [] then []
    else EvaluateChains(cs[..|cs| - 1], turn) + [EvaluateChain(cs[|cs| - 1], turn)]
  }

  function AllChanges(cs: seq<Chain>, turn: int): seq<WorldChange> {
    if cs == [] then []
    else
      AllChanges(cs[..|cs| - 1], turn)
      + if IsActive(cs[|cs| - 1]) then Changes(cs[|cs| - 1].entries, turn) else []
  }

  function AllHints(cs: seq<Chain>, turn: int): seq<string> {
    if cs == [] then []
    else
      AllHints(cs[..|cs| - 1], turn)
      + if IsActive(cs[|cs| - 1]) then HintsOf(cs[|cs| - 1].entries, turn) else []
  }

  function Updated(cs: seq<Chain>, turn: int): seq<Chain> {
    if cs == [] then []
    else
      var c := cs[|cs| - 1];
      Updated(cs[..|cs| - 1], turn)
      + if IsActive(c) && Changes(c.entries, turn) != [] then [EvaluateChain(c, turn)] else []
  }

  // ------------------------------------------- resolve and reveal

  function ResolveEntry(e: Entry, turn: int): Entry {
    if e.status in {Pending, Active} then e.(status := Resolved, turnResolved := Some(turn)) else e
  }

  function MapEntries(c: Chain, f: Entry -> Entry): Chain {
    c.(entries := seq(|c.entries|, i requires 0 <= i < |c.entries| => f(c.entries[i])))
  }

  function ResolveChain(c: Chain, turn: int): Chain {
    MapEntries(c, e => ResolveEntry(e, turn))
  }

  /** The place of the first chain with this id, or the number of chains. */
  function FindChain(cs: seq<Chain>, id: nat): (k: nat)
    ensures k <= |cs|
    ensures k < |cs| ==> cs[k].id == id
    ensures forall i :: 0 <= i < k ==> cs[i].id != id
  {
    if cs == [] || cs[0].id == id then 0 else 1 + FindChain(cs[1..], id)
  }

  /** The place of the first hidden entry with this id, or the number of entries. */
  function FindHidden(es: seq<Entry>, id: nat): (k: nat)
    ensures k <= |es|
    ensures k < |es| ==> es[k].id == id && es[k].visibility == Hidden
    ensures forall i :: 0 <= i < k ==> es[i].id != id || es[i].visibility != Hidden
  {
    if es == [] || (es[0].id == id && es[0].visibility == Hidden) then 0 else 1 + FindHidden(es[1..], id)
  }

  predicate HasHidden(c: Chain, id: nat) {
    FindHidden(c.entries, id) < |c.entries|
  }

  function FindHiding(cs: seq<Chain>, id: nat): (k: nat)
    ensures k <= |cs|
    ensures k < |cs| ==> HasHidden(cs[k], id)
    ensures forall i :: 0 <= i < k ==> !HasHidden(cs[i], id)
  {
    if cs == [] || HasHidden(cs[0], id) then 0 else 1 + FindHiding(cs[1..], id)
  }

  function RevealChain(c: Chain, id: nat, turn: Option<int>): Chain
    requires HasHidden(c, id)
  {
    var k := FindHidden(c.entries, id);
    c.(entries := c.entries[k := RevealedIn(c, id)],
       lastActiveTurn := if turn.Some? then turn.value else c.lastActiveTurn)
  }

  // ------------------------------------------- prune

  /** `_PRUNE_PRIORITY`. */
  function Priority(s: Status): int {
    match s
    case Resolved => 0
    case Dormant => 1
    case Pruned => -1
    case Active => 3
    case Pending => 4
  }

  /** `max(..., default=0)`. */
  function MaxPriority(es: seq<Entry>): int {
    if es == [] then 0
    else if |es| == 1 then Priority(es[0].status)
    else
      var rest := MaxPriority(es[1..]);
      if Priority(es[0].status) > rest then Priority(es[0].status) else rest
  }

  predicate PendingLongTerm(c: Chain) {
    exists e <- c.entries :: e.timescale == LongTerm && e.status == Pending
  }

  /** `_chain_prune_score`. */
  function PruneScore(c: Chain): int {
    if IsResolved(c) then 0
    else
      MaxPriority(c.entries)
      + (if PendingLongTerm(c) then 10 else 0)
      + (if c.impact in {Defining, Pivotal} then 10 else 0)
      + (if c.reversibility == Permanent then 5 else 0)
  }

  predicate Lapses(c: Chain, turn: int) {
    IsActive(c) && turn - c.lastActiveTurn >= 50
  }

  function LapseEntry(e: Entry): Entry {
    if e.status in {Pending, Active} then e.(status := Dormant) else e
  }

  function LapseChain(c: Chain, turn: int): Chain {
    if Lapses(c, turn) then MapEntries(c, LapseEntry).(isDormant := true) else c
  }

  function LapseChains(cs: seq<Chain>, turn: int): seq<Chain> {
    if cs == [] then [] else LapseChains(cs[..|cs| - 1], turn) + [LapseChain(cs[|cs| - 1], turn)]
  }

  function LapsedTriggers(cs: seq<Chain>, turn: int): seq<string> {
    if cs == [] then []
    else
      LapsedTriggers(cs[..|cs| - 1], turn)
      + if Lapses(cs[|cs| - 1], turn) then [cs[|cs| - 1].trigger] else []
  }

  /** The active chains by place, each with its score. */
  function Scored(cs: seq<Chain>): seq<Keyed<nat>> {
    if cs == [] then []
    else
      Scored(cs[..|cs| - 1])
      + if IsActive(cs[|cs| - 1]) then [Keyed(PruneScore(cs[|cs| - 1]), |cs| - 1)] else []
  }

  /** How many chains `scored[:to_prune]` takes when `active` chains are active. */
  function Excess(active: nat, max: int): nat {
    if active <= max then 0 else if max < 0 then active else active - max
  }

  /** The places of the chains that are pruned, lowest score first. */
  function Victims(cs: seq<Chain>, max: int): seq<Keyed<nat>> {
    SortKeepsLength(Scored(cs));
    Sort(Scored(cs))[..Excess(|Scored(cs)|, max)]
  }

  lemma SortKeepsLength<T>(s: seq<Keyed<T>>)
    ensures |Sort(s)| == |s|
  {
    SortSorts(s);
  }

  function PruneChain(c: Chain): Chain {
    MapEntries(c, (e: Entry) => e.(status := Pruned))
  }

  function PruneAt(cs: seq<Chain>, victims: seq<Keyed<nat>>): seq<Chain> {
    if victims == [] then cs
    else
      var rest := PruneAt(cs, victims[..|victims| - 1]);
      var k := victims[|victims| - 1].item;
      if k < |rest| then rest[k := PruneChain(rest[k])] else rest
  }

  function IdsOf(cs: seq<Chain>, victims: seq<Keyed<nat>>): seq<nat> {
    if victims == [] then []
    else
      var k := victims[|victims| - 1].item;
      IdsOf(cs, victims[..|victims| - 1]) + if k < |cs| then [cs[k].id] else []
  }

  function TriggersOf(cs: seq<Chain>, victims: seq<Keyed<nat>>): seq<string> {
    if victims == [] then []
    else
      var k := victims[|victims| - 1].item;
      TriggersOf(cs, victims[..|victims| - 1]) + if k < |cs| then [cs[k].trigger] else []
  }

  function PruneChains(cs: seq<Chain>, turn: int, max: int): seq<Chain> {
    var ds := LapseChains(cs, turn);
    PruneAt(ds, Victims(ds, max))
  }

  // ------------------------------------------- the whole service

  type Session = string

  /** `order` is the insertion order of the dictionary of chains. */
  datatype Service = Service(order: seq<Session>, chains: map<Session, seq<Chain>>)

  function ChainsOf(s: Service, session: Session): seq<Chain> {
    if session in s.chains then s.chains[session] else []
  }

  function WithChains(s: Service, session: Session, cs: seq<Chain>): Service {
    if session in s.chains then s.(chains := s.chains[session := cs]) else s
  }

  /** A new chain, whose entries are made to point to it. */
  function NewChain(id: nat, trigger: string, entries: seq<Entry>, impact: Impact,
                    reversibility: Reversibility, turn: int): Chain {
    MapEntries(Chain(id, trigger, entries, impact, reversibility, turn, turn, false),
      (e: Entry) => e.(chainId := id, turnCreated := turn))
  }

  function AddChain(s: Service, session: Session, c: Chain): Service {
    if session in s.chains then s.(chains := s.chains[session := s.chains[session] + [c]])
    else Service(s.order + [session], s.chains[session := [c]])
  }

  function Evaluate(s: Service, session: Session, turn: int): Service {
    WithChains(s, session, EvaluateChains(ChainsOf(s, session), turn))
  }

  function Prune(s: Service, session: Session, turn: int, max: int): Service {
    WithChains(s, session, PruneChains(ChainsOf(s, session), turn, max))
  }

  function ResolveFrom(s: Service, id: nat, turn: int, k: nat): Service
    requires k <= |s.order|
    decreases |s.order| - k
  {
    if k == |s.order| then s
    else
      var cs := ChainsOf(s, s.order[k]);
      var i := FindChain(cs, id);
      if i < |cs| then WithChains(s, s.order[k], cs[i := ResolveChain(cs[i], turn)])
      else ResolveFrom(s, id, turn, k + 1)
  }

  function Resolve(s: Service, id: nat, turn: int): Service {
    ResolveFrom(s, id, turn, 0)
  }

  /** The first chain with this id, resolved. */
  function ResolvedChain(s: Service, id: nat, turn: int, k: nat): Option<Chain>
    requires k <= |s.order|
    decreases |s.order| - k
  {
    if k == |s.order| then None
    else
      var cs := ChainsOf(s, s.order[k]);
      var i := FindChain(cs, id);
      if i < |cs| then Some(ResolveChain(cs[i], turn)) else ResolvedChain(s, id, turn, k + 1)
  }

  function RevealFrom(s: Service, id: nat, turn: Option<int>, k: nat): Service
    requires k <= |s.order|
    decreases |s.order| - k
  {
    if k == |s.order| then s
    else
      var cs := ChainsOf(s, s.order[k]);
      var i := FindHiding(cs, id);
      if i < |cs| then WithChains(s, s.order[k], cs[i := RevealChain(cs[i], id, turn)])
      else RevealFrom(s, id, turn, k + 1)
  }

  function Reveal(s: Service, id: nat, turn: Option<int>): Service {
    RevealFrom(s, id, turn, 0)
  }

  /** The first hidden entry with this id, revealed. */
  function RevealedEntry(s: Service, id: nat, k: nat): Option<Entry>
    requires k <= |s.order|
    decreases |s.order| - k
  {
    if k == |s.order| then None
    else
      var cs := ChainsOf(s, s.order[k]);
      var i := FindHiding(cs, id);
      if i < |cs| then Some(RevealedIn(cs[i], id)) else RevealedEntry(s, id, k + 1)
  }

  function RevealedIn(c: Chain, id: nat): Entry
    requires HasHidden(c, id)
  {
    c.entries[FindHidden(c.entries, id)].(visibility := Visible, status := Active)
  }
}
