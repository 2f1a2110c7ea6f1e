/** Whole runs of the consequence service: any sequence of its operations on any sessions. */
module ConsequenceRuns {
  import opened Wrappers
  import C = Consequences
  import opened Consequences
  import opened ConsequenceLaws
  import opened StableSort

  datatype Op =
    | Create(session: Session, id: nat, trigger: string, entries: seq<Entry>, impact: Impact,
             reversibility: Reversibility, turn: int)
    | Evaluate(session: Session, turn: int)
    | Resolve(id: nat, turn: int)
    | Prune(session: Session, turn: int, max: int)
    | Reveal(id: nat, atTurn: Option<int>)

  const INIT := Service([], map[])

  function Step(s: Service, op: Op): Service {
    match op
    case Create(session, id, trigger, entries, impact, reversibility, turn) =>
      AddChain(s, session, NewChain(id, trigger, entries, impact, reversibility, turn))
    case Evaluate(session, turn) => C.Evaluate(s, session, turn)
    case Resolve(id, turn) => C.Resolve(s, id, turn)
    case Prune(session, turn, max) => C.Prune(s, session, turn, max)
    case Reveal(id, turn) => C.Reveal(s, id, turn)
  }

  function Run(s: Service, ops: seq<Op>): Service
    decreases |ops|
  {
    if ops == [] then s else Run(Step(s, ops[0]), ops[1..])
  }

  // ------------------------------------------- how entries and chains may change

  predicate EntryEvolves(e: Entry, e': Entry) {
    && e'.id == e.id && e'.chainId == e.chainId && e'.effect == e.effect
    && e'.timescale == e.timescale && e'.turnCreated == e.turnCreated
    && (e'.status == Pending ==> e.status == Pending)
    && (e'.visibility == e.visibility
        || (e.visibility == Hidden && e'.visibility == Visible && e'.status != Pending))
  }

  predicate ChainEvolves(c: Chain, c': Chain) {
    && c'.id == c.id && c'.impact == c.impact && c'.reversibility == c.reversibility
    && (c.isDormant ==> c'.isDormant)
    && |c'.entries| == |c.entries|
    && forall j :: 0 <= j < |c.entries| ==> EntryEvolves(c.entries[j], c'.entries[j])
  }

  predicate ChainsEvolve(cs: seq<Chain>, cs': seq<Chain>) {
    |cs| <= |cs'| && forall i :: 0 <= i < |cs| ==> ChainEvolves(cs[i], cs'[i])
  }

  predicate Evolves(s: Service, s': Service) {
    forall session <- s.chains :: session in s'.chains && ChainsEvolve(s.chains[session], s'.chains[session])
  }

  lemma EvaluateEvolves(cs: seq<Chain>, turn: int)
    ensures ChainsEvolve(cs, EvaluateChains(cs, turn))
  {
    EvaluateChainsAt(cs, turn);
    forall i | 0 <= i < |cs| ensures ChainEvolves(cs[i], EvaluateChain(cs[i], turn)) {
      EvaluateEntriesAt(cs[i].entries, turn);
    }
  }

  lemma LapsingEvolves(c: Chain, turn: int)
    ensures ChainEvolves(c, LapseChain(c, turn))
  {
    if Lapses(c, turn) {
      forall j | 0 <= j < |c.entries| ensures EntryEvolves(c.entries[j], LapseChain(c, turn).entries[j]) {
        assert LapseChain(c, turn).entries[j] == LapseEntry(c.entries[j]);
      }
    }
  }

  lemma PruningEvolves(c: Chain, d: Chain)
    requires ChainEvolves(c, d)
    ensures ChainEvolves(c, PruneChain(d))
  {
  }

  lemma PruneEvolves(cs: seq<Chain>, turn: int, max: int)
    ensures ChainsEvolve(cs, PruneChains(cs, turn, max))
  {
    var ds, out := LapseChains(cs, turn), PruneChains(cs, turn, max);
    PruneChainsAt(cs, turn, max);
    LapseChainsAt(cs, turn);
    forall i | 0 <= i < |cs| ensures ChainEvolves(cs[i], out[i]) {
      LapsingEvolves(cs[i], turn);
      PruningEvolves(cs[i], ds[i]);
    }
  }

  lemma {:induction false} ResolveEvolves(s: Service, id: nat, turn: int, k: nat)
    requires k <= |s.order|
    ensures Evolves(s, ResolveFrom(s, id, turn, k))
    decreases |s.order| - k
  {
    if k < |s.order| && FindChain(ChainsOf(s, s.order[k]), id) == |ChainsOf(s, s.order[k])| {
      ResolveEvolves(s, id, turn, k + 1);
    }
  }

  lemma {:induction false} RevealEvolves(s: Service, id: nat, turn: Option<int>, k: nat)
    requires k <= |s.order|
    ensures Evolves(s, RevealFrom(s, id, turn, k))
    decreases |s.order| - k
  {
    if k < |s.order| && FindHiding(ChainsOf(s, s.order[k]), id) == |ChainsOf(s, s.order[k])| {
      RevealEvolves(s, id, turn, k + 1);
    }
  }

  lemma StepEvolves(s: Service, op: Op)
    ensures Evolves(s, Step(s, op))
  {
    match op
    case Create(session, id, trigger, entries, impact, reversibility, turn) =>
    case Evaluate(session, turn) => EvaluateEvolves(ChainsOf(s, session), turn);
    case Resolve(id, turn) => ResolveEvolves(s, id, turn, 0);
    case Prune(session, turn, max) => PruneEvolves(ChainsOf(s, session), turn, max);
    case Reveal(id, turn) => RevealEvolves(s, id, turn, 0);
  }

  lemma EvolvesTransitively(s: Service, t: Service, u: Service)
    requires Evolves(s, t) && Evolves(t, u)
    ensures Evolves(s, u)
  {
    forall session | session in s.chains
      ensures session in u.chains && ChainsEvolve(s.chains[session], u.chains[session])
    {
      var a, b, c := s.chains[session], t.chains[session], u.chains[session];
      forall i | 0 <= i < |a| ensures ChainEvolves(a[i], c[i]) {
        assert ChainEvolves(a[i], b[i]) && ChainEvolves(b[i], c[i]);
      }
    }
  }

  /** Over any run, no entry returns to PENDING, a dormant chain stays dormant, and no chain
      or entry is lost, moved or relabelled. */
  lemma {:induction false} RunEvolves(s: Service, ops: seq<Op>)
    ensures Evolves(s, Run(s, ops))
    decreases |ops|
  {
    if ops != [] {
      StepEvolves(s, ops[0]);
      RunEvolves(Step(s, ops[0]), ops[1..]);
      EvolvesTransitively(s, Step(s, ops[0]), Run(s, ops));
    }
  }

  // ------------------------------------------- what single operations do

  /** On the turn of creation; within the ten turns after it; later than that. */
  predicate Timely(e: Entry, turn: int) {
    || (e.timescale == Immediate && turn == e.turnCreated)
    || (e.timescale == ShortTerm && e.turnCreated < turn <= e.turnCreated + 10)
    || (e.timescale == LongTerm && turn > e.turnCreated + 10)
  }

  /** An entry comes due in an evaluation: pending, in time, and not hidden. */
  predicate ComesDue(c: Chain, j: int, turn: int) {
    && 0 <= j < |c.entries| && !c.isDormant
    && c.entries[j].status == Pending && c.entries[j].visibility != Hidden && Timely(c.entries[j], turn)
  }

  lemma {:induction false} ChangesIffDue(es: seq<Entry>, turn: int)
    ensures Changes(es, turn) != [] <==> exists j :: 0 <= j < |es| && Fires(es[j], turn)
  {
    if es != [] {
      ChangesIffDue(es[..|es| - 1], turn);
    }
  }

  /** What an evaluation does to a chain: exactly the entries that come due turn active, and the
      chain was last active on this turn if there are any. */
  lemma EvaluationTouches(cs: seq<Chain>, turn: int, i: nat)
    requires i < |cs|
    ensures i < |EvaluateChains(cs, turn)|
    ensures var c, d := cs[i], EvaluateChains(cs, turn)[i];
      && OnlyStatuses(c.(lastActiveTurn := d.lastActiveTurn), d) && d.isDormant == c.isDormant
      && (forall j :: 0 <= j < |c.entries| ==>
            d.entries[j].status == if ComesDue(c, j, turn) then Active else c.entries[j].status)
      && d.lastActiveTurn == if exists j :: ComesDue(c, j, turn) then turn else c.lastActiveTurn
  {
    var c := cs[i];
    EvaluateChainsAt(cs, turn);
    EvaluateEntriesAt(c.entries, turn);
    ChangesIffDue(c.entries, turn);
    forall j | 0 <= j < |c.entries|
      ensures ComesDue(c, j, turn) <==> IsActive(c) && Fires(c.entries[j], turn)
    {
      assert c.entries[j] in c.entries;
    }
  }

  /** Resolving a chain leaves nothing open in it, dates what was, and touches nothing else; it
      is resolved then unless it has no entries or dormant ones. */
  lemma ResolvingCloses(c: Chain, turn: int)
    ensures var d := ResolveChain(c, turn);
      && d == c.(entries := d.entries) && |d.entries| == |c.entries|
      && (forall j :: 0 <= j < |c.entries| ==>
            d.entries[j] ==
              if c.entries[j].status == Pending || c.entries[j].status == Active
              then c.entries[j].(status := Status.Resolved, turnResolved := Some(turn)) else c.entries[j])
      && !Has(d, Pending) && !Has(d, Active)
      && (IsResolved(d) <==> c.entries != [] && !Has(c, Dormant))
  {
    var d := ResolveChain(c, turn);
    forall e | e in d.entries ensures e.status != Pending && e.status != Active {
      var j :| 0 <= j < |d.entries| && d.entries[j] == e;
    }
    if Has(c, Dormant) {
      var j :| 0 <= j < |c.entries| && c.entries[j].status == Dormant;
      assert d.entries[j] in d.entries;
    } else {
      forall e | e in d.entries ensures e.status in {Status.Resolved, Pruned} {
        var j :| 0 <= j < |d.entries| && d.entries[j] == e;
        assert c.entries[j] in c.entries;
      }
    }
  }

  /** Revealing touches one entry of one chain, which becomes visible and active, and dates the
      chain's activity if a turn is given. */
  lemma RevealingTouches(c: Chain, id: nat, turn: Option<int>)
    requires Hides(c, id)
    ensures HasHidden(c, id)
    ensures var d := RevealChain(c, id, turn);
      && d == c.(entries := d.entries, lastActiveTurn := d.lastActiveTurn) && |d.entries| == |c.entries|
      && d.lastActiveTurn == (if turn.Some? then turn.value else c.lastActiveTurn)
      && exists k :: 0 <= k < |c.entries| && c.entries[k].id == id && c.entries[k].visibility == Hidden
          && (forall j :: 0 <= j < k ==> c.entries[j].id != id || c.entries[j].visibility != Hidden)
          && d.entries == c.entries[k := c.entries[k].(visibility := Visible, status := Active)]
  {
    var j :| 0 <= j < |c.entries| && c.entries[j].id == id && c.entries[j].visibility == Hidden;
    var k := FindHidden(c.entries, id);
    assert k <= j;
  }

  /** A new chain is awake, active as of its turn, and its entries differ from those given just
      in pointing to it and to that turn. */
  lemma NewChainOwnsEntries(id: nat, trigger: string, entries: seq<Entry>, impact: Impact,
                            reversibility: Reversibility, turn: int)
    ensures var c := NewChain(id, trigger, entries, impact, reversibility, turn);
      && c.id == id && c.trigger == trigger && c.impact == impact && c.reversibility == reversibility
      && c.turnCreated == c.lastActiveTurn == turn && !c.isDormant && |c.entries| == |entries|
      && forall j :: 0 <= j < |entries| ==> c.entries[j] == entries[j].(chainId := id, turnCreated := turn)
  {
  }

  ghost predicate SomethingDue(c: Chain, turn: int) {
    exists j :: ComesDue(c, j, turn)
  }

  lemma ChangesIffComesDue(c: Chain, turn: int)
    ensures IsActive(c) && Changes(c.entries, turn) != [] <==> SomethingDue(c, turn)
  {
    ChangesIffDue(c.entries, turn);
    if SomethingDue(c, turn) {
      var j :| ComesDue(c, j, turn);
      assert c.entries[j] in c.entries && Fires(c.entries[j], turn);
    }
    if IsActive(c) && Changes(c.entries, turn) != [] {
      var j :| 0 <= j < |c.entries| && Fires(c.entries[j], turn);
      assert ComesDue(c, j, turn);
    }
  }

  /** The chains an evaluation reports as updated are those in which an entry came due. */
  lemma {:induction false} UpdatedIffDue(cs: seq<Chain>, turn: int, d: Chain)
    ensures d in Updated(cs, turn) <==>
      exists i :: 0 <= i < |cs| && SomethingDue(cs[i], turn) && d == EvaluateChain(cs[i], turn)
  {
    if cs != [] {
      var init, last := cs[..|cs| - 1], cs[|cs| - 1];
      UpdatedIffDue(init, turn, d);
      ChangesIffComesDue(last, turn);
      assert d in Updated(cs, turn) <==>
        d in Updated(init, turn) || (SomethingDue(last, turn) && d == EvaluateChain(last, turn));
    }
  }

  /** The closures of the first pass of pruning are the triggers of the idle chains. */
  lemma {:induction false} LapsedTriggersTell(cs: seq<Chain>, turn: int, trigger: string)
    ensures trigger in LapsedTriggers(cs, turn) <==> exists i :: 0 <= i < |cs| && Idle(cs[i], turn) && cs[i].trigger == trigger
  {
    if cs != [] {
      LapsedTriggersTell(cs[..|cs| - 1], turn, trigger);
      LapsesIffIdle(cs[|cs| - 1], turn);
    }
  }

  /** Chain `i` of session `m` is the first with the id, among the sessions from `k` on. */
  predicate FirstWithId(s: Service, id: nat, k: nat, m: nat, i: nat) {
    && k <= m < |s.order| && s.order[m] in s.chains && i < |s.chains[s.order[m]]|
    && s.chains[s.order[m]][i].id == id
    && (forall l :: 0 <= l < i ==> s.chains[s.order[m]][l].id != id)
    && (forall n :: k <= n < m ==> NoneWithId(ChainsOf(s, s.order[n]), id))
  }

  predicate NoneWithId(cs: seq<Chain>, id: nat) {
    forall l :: 0 <= l < |cs| ==> cs[l].id != id
  }

  /** `resolve_chain` touches one chain, the first with the id, and returns it. */
  lemma {:induction false} ResolvesTheFirst(s: Service, id: nat, turn: int, k: nat, m: nat, i: nat)
    requires FirstWithId(s, id, k, m, i)
    ensures var cs := s.chains[s.order[m]];
      && ResolveFrom(s, id, turn, k) == s.(chains := s.chains[s.order[m] := cs[i := ResolveChain(cs[i], turn)]])
      && ResolvedChain(s, id, turn, k) == Some(ResolveChain(cs[i], turn))
    decreases |s.order| - k
  {
    if k < m {
      assert NoneWithId(ChainsOf(s, s.order[k]), id);
      ResolvesTheFirst(s, id, turn, k + 1, m, i);
    }
  }

  /** Where no chain has the id, nothing is touched and nothing returned. */
  lemma {:induction false} ResolvesNothing(s: Service, id: nat, turn: int, k: nat)
    requires k <= |s.order| && forall n :: k <= n < |s.order| ==> NoneWithId(ChainsOf(s, s.order[n]), id)
    ensures ResolveFrom(s, id, turn, k) == s && ResolvedChain(s, id, turn, k).None?
    decreases |s.order| - k
  {
    if k < |s.order| {
      ResolvesNothing(s, id, turn, k + 1);
    }
  }

  predicate Hides(c: Chain, id: nat) {
    exists j :: 0 <= j < |c.entries| && c.entries[j].id == id && c.entries[j].visibility == Hidden
  }

  lemma HidesIffHasHidden(c: Chain, id: nat)
    ensures Hides(c, id) <==> HasHidden(c, id)
  {
  }

  predicate FirstHiding(s: Service, id: nat, k: nat, m: nat, i: nat) {
    && k <= m < |s.order| && s.order[m] in s.chains && i < |s.chains[s.order[m]]|
    && Hides(s.chains[s.order[m]][i], id)
    && (forall l :: 0 <= l < i ==> !Hides(s.chains[s.order[m]][l], id))
    && (forall n :: k <= n < m ==> NoneHides(ChainsOf(s, s.order[n]), id))
  }

  predicate NoneHides(cs: seq<Chain>, id: nat) {
    forall l :: 0 <= l < |cs| ==> !Hides(cs[l], id)
  }

  lemma FindsFirstHiding(cs: seq<Chain>, id: nat, i: nat)
    requires i <= |cs| && (forall l :: 0 <= l < i ==> !Hides(cs[l], id)) && (i < |cs| ==> Hides(cs[i], id))
    ensures FindHiding(cs, id) == i
  {
    forall l | 0 <= l < |cs| ensures HasHidden(cs[l], id) <==> Hides(cs[l], id) {
      HidesIffHasHidden(cs[l], id);
    }
  }

  /** `reveal_hidden_entry` touches one chain, the first that hides an entry with the id, and
      returns that entry. */
  lemma {:induction false} RevealsTheFirst(s: Service, id: nat, turn: Option<int>, k: nat, m: nat, i: nat)
    requires FirstHiding(s, id, k, m, i)
    ensures var cs := s.chains[s.order[m]];
      && HasHidden(cs[i], id)
      && RevealFrom(s, id, turn, k) == s.(chains := s.chains[s.order[m] := cs[i := RevealChain(cs[i], id, turn)]])
      && RevealedEntry(s, id, k) == Some(RevealedIn(cs[i], id))
    decreases |s.order| - k
  {
    if k < m {
      var cs := ChainsOf(s, s.order[k]);
      assert NoneHides(cs, id);
      FindsFirstHiding(cs, id, |cs|);
      RevealsTheFirst(s, id, turn, k + 1, m, i);
    } else {
      FindsFirstHiding(s.chains[s.order[m]], id, i);
    }
  }

  /** Where no chain hides one, nothing is touched and nothing returned. */
  lemma {:induction false} RevealsNothing(s: Service, id: nat, turn: Option<int>, k: nat)
    requires k <= |s.order| && forall n :: k <= n < |s.order| ==> NoneHides(ChainsOf(s, s.order[n]), id)
    ensures RevealFrom(s, id, turn, k) == s && RevealedEntry(s, id, k).None?
    decreases |s.order| - k
  {
    if k < |s.order| {
      var cs := ChainsOf(s, s.order[k]);
      FindsFirstHiding(cs, id, |cs|);
      RevealsNothing(s, id, turn, k + 1);
    }
  }

  // ------------------------------------------- an entry fires at most once

  /** An entry is known by its session, the place of its chain and its place in the chain. */
  datatype Place = Place(session: Session, chain: nat, entry: nat)

  predicate Exists(s: Service, p: Place) {
    && p.session in s.chains && p.chain < |s.chains[p.session]|
    && p.entry < |s.chains[p.session][p.chain].entries|
  }

  function ChainAt(s: Service, p: Place): Chain
    requires Exists(s, p)
  {
    s.chains[p.session][p.chain]
  }

  function EntryAt(s: Service, p: Place): Entry
    requires Exists(s, p)
  {
    ChainAt(s, p).entries[p.entry]
  }

  /** The operation emits the world change of the entry at `p`. */
  predicate Emits(s: Service, op: Op, p: Place) {
    && op.Evaluate? && p.session == op.session && Exists(s, p)
    && IsActive(ChainAt(s, p)) && Fires(EntryAt(s, p), op.turn)
  }

  function TimesEmitted(s: Service, ops: seq<Op>, p: Place): nat
    decreases |ops|
  {
    if ops == [] then 0
    else (if Emits(s, ops[0], p) then 1 else 0) + TimesEmitted(Step(s, ops[0]), ops[1..], p)
  }

  lemma EmittingEndsPending(s: Service, op: Op, p: Place)
    requires Emits(s, op, p)
    ensures Exists(Step(s, op), p) && EntryAt(Step(s, op), p).status == Active
  {
    var cs := s.chains[p.session];
    EvaluateChainsAt(cs, op.turn);
    EvaluateEntriesAt(cs[p.chain].entries, op.turn);
  }

  lemma {:induction false} SettledNeverEmits(s: Service, ops: seq<Op>, p: Place)
    requires Exists(s, p) && EntryAt(s, p).status != Pending
    ensures TimesEmitted(s, ops, p) == 0
    decreases |ops|
  {
    if ops != [] {
      StepEvolves(s, ops[0]);
      assert ChainEvolves(ChainAt(s, p), Step(s, ops[0]).chains[p.session][p.chain]);
      SettledNeverEmits(Step(s, ops[0]), ops[1..], p);
    }
  }

  /** Consequences fire at most once: over any run, whatever is revealed, resolved, pruned or
      evaluated again, no entry has its world change emitted twice. */
  lemma {:induction false} EmittedAtMostOnce(s: Service, ops: seq<Op>, p: Place)
    ensures TimesEmitted(s, ops, p) <= 1
    decreases |ops|
  {
    if ops != [] {
      if Emits(s, ops[0], p) {
        EmittingEndsPending(s, ops[0], p);
        SettledNeverEmits(Step(s, ops[0]), ops[1..], p);
      } else {
        EmittedAtMostOnce(Step(s, ops[0]), ops[1..], p);
      }
    }
  }

  /** A chain that has been resolved, pruned, or put to sleep never emits again, whatever is
      done to it later. */
  lemma ClosedChainsAreSilent(s: Service, ops: seq<Op>, p: Place, c: Chain, turn: int)
    requires Exists(s, p)
    requires ChainAt(s, p) == ResolveChain(c, turn) || ChainAt(s, p) == PruneChain(c)
      || (Lapses(c, turn) && ChainAt(s, p) == LapseChain(c, turn))
    ensures TimesEmitted(s, ops, p) == 0
  {
    var e := c.entries[p.entry];
    assert EntryAt(s, p) in {ResolveEntry(e, turn), e.(status := Pruned), LapseEntry(e)};
    assert EntryAt(s, p) == LapseEntry(e) ==> EntryAt(s, p).status != Pending;
    SettledNeverEmits(s, ops, p);
  }

  /** An entry that is hidden now never emits, whether it is revealed or not: revealing makes it
      active at once, and only pending entries fire. */
  lemma {:induction false} HiddenNeverEmits(s: Service, ops: seq<Op>, p: Place)
    requires Exists(s, p) && EntryAt(s, p).visibility == Hidden
    ensures TimesEmitted(s, ops, p) == 0
    decreases |ops|
  {
    if ops != [] {
      var s' := Step(s, ops[0]);
      StepEvolves(s, ops[0]);
      assert ChainEvolves(ChainAt(s, p), s'.chains[p.session][p.chain]);
      assert EntryEvolves(EntryAt(s, p), EntryAt(s', p));
      if EntryAt(s', p).visibility == Hidden {
        HiddenNeverEmits(s', ops[1..], p);
      } else {
        SettledNeverEmits(s', ops[1..], p);
      }
    }
  }

  // ------------------------------------------- the list of changes is the list of firings

  function ChangeOf(e: Entry): WorldChange {
    WorldChange(e.id, e.chainId, e.effect, e.timescale)
  }

  /** The places of the entries that fire, in order. */
  function FiringIn(es: seq<Entry>, turn: int): seq<nat> {
    if es == [] then []
    else FiringIn(es[..|es| - 1], turn) + if Fires(es[|es| - 1], turn) then [|es| - 1] else []
  }

  function FiringPlaces(cs: seq<Chain>, turn: int): seq<(nat, nat)> {
    if cs == [] then []
    else
      var n, js := |cs| - 1, FiringIn(cs[|cs| - 1].entries, turn);
      FiringPlaces(cs[..n], turn)
      + if IsActive(cs[n]) then seq(|js|, k requires 0 <= k < |js| => (n, js[k])) else []
  }

  predicate FiresAt(cs: seq<Chain>, turn: int, place: (nat, nat)) {
    && place.0 < |cs| && place.1 < |cs[place.0].entries|
    && IsActive(cs[place.0]) && Fires(cs[place.0].entries[place.1], turn)
  }

  lemma {:induction false} FiringInOrder(es: seq<Entry>, turn: int)
    ensures var js, ws := FiringIn(es, turn), Changes(es, turn);
      && |js| == |ws|
      && (forall k :: 0 <= k < |js| ==> js[k] < |es| && Fires(es[js[k]], turn) && ws[k] == ChangeOf(es[js[k]]))
      && (forall k, l :: 0 <= k < l < |js| ==> js[k] < js[l])
  {
    if es != [] {
      FiringInOrder(es[..|es| - 1], turn);
    }
  }

  lemma {:induction false} FiringInCovers(es: seq<Entry>, turn: int, j: nat)
    requires j < |es| && Fires(es[j], turn)
    ensures j in FiringIn(es, turn)
  {
    if j < |es| - 1 {
      FiringInCovers(es[..|es| - 1], turn, j);
    }
  }

  lemma {:induction false} FiringPlacesInOrder(cs: seq<Chain>, turn: int)
    ensures var ps, ws := FiringPlaces(cs, turn), AllChanges(cs, turn);
      && |ps| == |ws|
      && (forall k :: 0 <= k < |ps| ==>
           FiresAt(cs, turn, ps[k]) && ws[k] == ChangeOf(cs[ps[k].0].entries[ps[k].1]))
      && (forall k, l :: 0 <= k < l < |ps| ==> ps[k] != ps[l])
  {
    if cs != [] {
      FiringPlacesInOrder(cs[..|cs| - 1], turn);
      FiringInOrder(cs[|cs| - 1].entries, turn);
    }
  }

  lemma {:induction false} FiringPlacesCover(cs: seq<Chain>, turn: int, place: (nat, nat))
    requires FiresAt(cs, turn, place)
    ensures place in FiringPlaces(cs, turn)
  {
    var n := |cs| - 1;
    if place.0 < n {
      FiringPlacesCover(cs[..n], turn, place);
    } else {
      var js := FiringIn(cs[n].entries, turn);
      FiringInCovers(cs[n].entries, turn, place.1);
      var k :| 0 <= k < |js| && js[k] == place.1;
      assert FiringPlaces(cs, turn)[|FiringPlaces(cs[..n], turn)| + k] == place;
    }
  }

  /** The world changes an evaluation returns are those of the entries that fire, one for
      each, and every one of them is in its timescale window and not hidden. */
  lemma ChangesAreFirings(s: Service, session: Session, turn: int)
    ensures var cs := ChainsOf(s, session);
      var ps, ws := FiringPlaces(cs, turn), AllChanges(cs, turn);
      && |ps| == |ws|
      && (forall k, l :: 0 <= k < l < |ps| ==> ps[k] != ps[l])
      && (forall i: nat, j: nat :: (i, j) in ps <==> Emits(s, Op.Evaluate(session, turn), Place(session, i, j)))
      && (forall k :: 0 <= k < |ps| ==>
           && FiresAt(cs, turn, ps[k])
           && ws[k] == ChangeOf(cs[ps[k].0].entries[ps[k].1])
           && Timely(cs[ps[k].0].entries[ps[k].1], turn)
           && cs[ps[k].0].entries[ps[k].1].visibility != Hidden)
  {
    var cs := ChainsOf(s, session);
    var ps := FiringPlaces(cs, turn);
    FiringPlacesInOrder(cs, turn);
    forall i: nat, j: nat
      ensures (i, j) in ps <==> Emits(s, Op.Evaluate(session, turn), Place(session, i, j))
    {
      if FiresAt(cs, turn, (i, j)) {
        FiringPlacesCover(cs, turn, (i, j));
      }
    }
  }

  // ------------------------------------------- hints

  /** The entry is still pending after the evaluation and alludes to what is to come. */
  predicate Alludes(e: Entry, after: Entry, turn: int, hint: string) {
    && after.status == Pending && e.hook == hint != ""
    && (e.visibility == Foreshadowed || (e.visibility == Hidden && Timely(e, turn)))
  }

  predicate SomeAllude(es: seq<Entry>, after: seq<Entry>, turn: int, hint: string) {
    exists j :: 0 <= j < |es| && j < |after| && Alludes(es[j], after[j], turn, hint)
  }

  lemma {:induction false} HintsInEntries(es: seq<Entry>, turn: int, hint: string)
    ensures hint in HintsOf(es, turn) <==> SomeAllude(es, EvaluateEntries(es, turn), turn, hint)
  {
    EvaluateEntriesAt(es, turn);
    if es != [] {
      var init := es[..|es| - 1];
      HintsInEntries(init, turn, hint);
      EvaluateEntriesAt(init, turn);
      assert forall j :: 0 <= j < |init| ==> es[j] == init[j];
    }
  }

  lemma {:induction false} HintsInChains(cs: seq<Chain>, turn: int, hint: string)
    ensures hint in AllHints(cs, turn) <==>
      exists i :: 0 <= i < |cs| && IsActive(cs[i]) && hint in HintsOf(cs[i].entries, turn)
  {
    if cs != [] {
      HintsInChains(cs[..|cs| - 1], turn, hint);
    }
  }

  predicate AlludesAt(cs: seq<Chain>, after: seq<Chain>, turn: int, hint: string, i: int) {
    && 0 <= i < |cs| && i < |after|
    && IsActive(cs[i]) && SomeAllude(cs[i].entries, after[i].entries, turn, hint)
  }

  /** A text is a hint of an evaluation exactly when it is the hook of an entry of an active
      chain that the evaluation leaves pending, foreshadowed or hidden in its window. */
  lemma HintsAreOfPendingEntries(cs: seq<Chain>, turn: int, hint: string)
    ensures hint in AllHints(cs, turn) <==> exists i :: AlludesAt(cs, EvaluateChains(cs, turn), turn, hint, i)
  {
    HintsInChains(cs, turn, hint);
    EvaluateChainsAt(cs, turn);
    forall i | 0 <= i < |cs|
      ensures AlludesAt(cs, EvaluateChains(cs, turn), turn, hint, i)
        <==> IsActive(cs[i]) && hint in HintsOf(cs[i].entries, turn)
    {
      HintsInEntries(cs[i].entries, turn, hint);
    }
  }

  // ------------------------------------------- evaluating a turn twice

  lemma {:induction false} EntriesSettle(es: seq<Entry>, turn: int)
    ensures EvaluateEntries(EvaluateEntries(es, turn), turn) == EvaluateEntries(es, turn)
    ensures Changes(EvaluateEntries(es, turn), turn) == []
    ensures HintsOf(EvaluateEntries(es, turn), turn) == HintsOf(es, turn)
  {
    if es != [] {
      EntriesSettle(es[..|es| - 1], turn);
      var out := EvaluateEntries(es, turn);
      assert out[..|out| - 1] == EvaluateEntries(es[..|es| - 1], turn);
    }
  }

  lemma ActivityIsKept(c: Chain, turn: int)
    ensures IsActive(EvaluateChain(c, turn)) <==> IsActive(c)
  {
    EvaluateEntriesAt(c.entries, turn);
    if IsActive(c) && c.entries != [] {
      var j :| 0 <= j < |c.entries| && c.entries[j].status !in {Resolved, Pruned};
      assert EvaluateChain(c, turn).entries[j].status !in {Resolved, Pruned};
      assert EvaluateChain(c, turn).entries[j] in EvaluateChain(c, turn).entries;
    }
  }

  lemma ChainSettles(c: Chain, turn: int)
    ensures var d := EvaluateChain(c, turn);
      && EvaluateChain(d, turn) == d
      && (IsActive(d) ==> Changes(d.entries, turn) == [] && HintsOf(d.entries, turn) == HintsOf(c.entries, turn))
  {
    EntriesSettle(c.entries, turn);
    ActivityIsKept(c, turn);
  }

  /** A second evaluation of the same turn changes nothing, emits nothing and hints the same. */
  lemma {:induction false} SecondEvaluationIsIdle(cs: seq<Chain>, turn: int)
    ensures EvaluateChains(EvaluateChains(cs, turn), turn) == EvaluateChains(cs, turn)
    ensures AllChanges(EvaluateChains(cs, turn), turn) == []
    ensures Updated(EvaluateChains(cs, turn), turn) == []
    ensures AllHints(EvaluateChains(cs, turn), turn) == AllHints(cs, turn)
  {
    if cs != [] {
      var out := EvaluateChains(cs, turn);
      SecondEvaluationIsIdle(cs[..|cs| - 1], turn);
      ChainSettles(cs[|cs| - 1], turn);
      ActivityIsKept(cs[|cs| - 1], turn);
      assert out[..|out| - 1] == EvaluateChains(cs[..|cs| - 1], turn);
    }
  }
}
