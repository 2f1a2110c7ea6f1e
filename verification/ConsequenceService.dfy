/**
  `InMemoryConsequenceService` of src/tta/choices/consequence_service.py: the loops, on the
  dictionary of chains changed in place. Each method is proved against the function of the
  same name in `Consequences`.
  */
module ConsequenceService {
  import opened Wrappers
  import opened StableSort
  import C = Consequences
  import opened Consequences

  class InMemoryService {
    var order: seq<Session>
    var chains: map<Session, seq<Chain>>

    function Contents(): Service
      reads this
    {
      Service(order, chains)
    }

    constructor ()
      ensures Contents() == Service([], map[])
    {
      order, chains := [], map[];
    }

    /** `id` is the fresh identifier drawn for the chain. */
    method CreateChain(session: Session, id: nat, trigger: string, entries: seq<Entry>, impact: Impact,
                       reversibility: Reversibility, turn: int) returns (chain: Chain)
      modifies this
      ensures chain == NewChain(id, trigger, entries, impact, reversibility, turn)
      ensures Contents() == AddChain(old(Contents()), session, chain)
      ensures chain == Chain(id, trigger, chain.entries, impact, reversibility, turn, turn, false)
      ensures session in chains
        && chains[session] == (if session in old(chains) then old(chains)[session] else []) + [chain]
      ensures forall other | other != session ::
        (other in chains <==> other in old(chains)) && (other in chains ==> chains[other] == old(chains)[other])
    {
      var fixed: seq<Entry> := [];
      for i := 0 to |entries|
        invariant |fixed| == i
        invariant forall k :: 0 <= k < i ==> fixed[k] == entries[k].(chainId := id, turnCreated := turn)
      {
        fixed := fixed + [entries[i].(chainId := id, turnCreated := turn)];
      }
      chain := Chain(id, trigger, fixed, impact, reversibility, turn, turn, false);
      assert chain.entries == NewChain(id, trigger, entries, impact, reversibility, turn).entries;
      if session in chains {
        chains := chains[session := chains[session] + [chain]];
      } else {
        order := order + [session];
        chains := chains[session := [chain]];
      }
    }

    /** The inner loop of `evaluate`. */
    static method EvaluateEntriesOf(chain: Chain, turn: int)
      returns (out: Chain, changed: bool, changes: seq<WorldChange>, hints: seq<string>)
      ensures out == chain.(entries := EvaluateEntries(chain.entries, turn),
                            lastActiveTurn := if changed then turn else chain.lastActiveTurn)
      ensures changed <==> Changes(chain.entries, turn) != []
      ensures changes == Changes(chain.entries, turn) && hints == HintsOf(chain.entries, turn)
    {
      var es := chain.entries;
      var done: seq<Entry> := [];
      var last := chain.lastActiveTurn;
      changed, changes, hints := false, [], [];
      for i := 0 to |es|
        invariant done == EvaluateEntries(es[..i], turn)
        invariant changes == Changes(es[..i], turn) && hints == HintsOf(es[..i], turn)
        invariant changed <==> changes != []
        invariant last == if changed then turn else chain.lastActiveTurn
      {
        assert es[..i + 1][..i] == es[..i];
        var e := es[i];
        if e.status == Pending {
          var elapsed := turn - e.turnCreated;
          var should := match e.timescale
            case Immediate => elapsed == 0
            case ShortTerm => 1 <= elapsed <= 10
            case LongTerm => elapsed > 10;
          if should && e.visibility == Hidden {
            if e.hook != "" {
              hints := hints + [e.hook];
            }
          } else {
            if should {
              e := e.(status := Active);
              last, changed := turn, true;
              changes := changes + [WorldChange(e.id, e.chainId, e.effect, e.timescale)];
            }
            if e.visibility == Foreshadowed && e.hook != "" && e.status == Pending {
              hints := hints + [e.hook];
            }
          }
        }
        done := done + [e];
      }
      assert es[..|es|] == es;
      out := chain.(entries := done, lastActiveTurn := last);
    }

    method Evaluate(session: Session, turn: int)
      returns (updated: seq<Chain>, changes: seq<WorldChange>, hints: seq<string>)
      modifies this`chains
      ensures Contents() == C.Evaluate(old(Contents()), session, turn)
      ensures chains.Keys == old(chains).Keys && forall other <- chains | other != session :: chains[other] == old(chains)[other]
      ensures updated == Updated(ChainsOf(old(Contents()), session), turn)
      ensures changes == AllChanges(ChainsOf(old(Contents()), session), turn)
      ensures hints == AllHints(ChainsOf(old(Contents()), session), turn)
    {
      updated, changes, hints := [], [], [];
      if session !in chains {
        return;
      }
      var cs := chains[session];
      var done: seq<Chain> := [];
      for i := 0 to |cs|
        invariant chains == old(chains)
        invariant done == EvaluateChains(cs[..i], turn)
        invariant updated == Updated(cs[..i], turn)
        invariant changes == AllChanges(cs[..i], turn) && hints == AllHints(cs[..i], turn)
      {
        assert cs[..i + 1][..i] == cs[..i];
        var chain := cs[i];
        if IsActive(chain) {
          var changed, ch, h;
          chain, changed, ch, h := EvaluateEntriesOf(chain, turn);
          changes, hints := changes + ch, hints + h;
          if changed {
            updated := updated + [chain];
          }
        }
        done := done + [chain];
      }
      assert cs[..|cs|] == cs && done == EvaluateChains(cs, turn);
      chains := chains[session := done];
    }

    /** The innermost loop of `resolve_chain`. */
    static method ResolveEntries(chain: Chain, turn: int) returns (out: Chain)
      ensures out == C.ResolveChain(chain, turn)
    {
      var es: seq<Entry> := [];
      for j := 0 to |chain.entries|
        invariant |es| == j
        invariant forall m :: 0 <= m < j ==> es[m] == ResolveEntry(chain.entries[m], turn)
      {
        var e := chain.entries[j];
        if e.status == Pending || e.status == Active {
          e := e.(status := Resolved, turnResolved := Some(turn));
        }
        es := es + [e];
      }
      out := chain.(entries := es);
      assert es == C.ResolveChain(chain, turn).entries;
    }

    method ResolveChain(id: nat, turn: int) returns (found: Option<Chain>)
      requires forall s :: s in order ==> s in chains
      modifies this`chains
      ensures Contents() == C.Resolve(old(Contents()), id, turn)
      ensures found == C.ResolvedChain(old(Contents()), id, turn, 0)
    {
      for k := 0 to |order|
        invariant chains == old(chains)
        invariant ResolveFrom(Contents(), id, turn, 0) == ResolveFrom(Contents(), id, turn, k)
        invariant C.ResolvedChain(Contents(), id, turn, 0) == C.ResolvedChain(Contents(), id, turn, k)
      {
        var cs := chains[order[k]];
        for i := 0 to |cs|
          invariant i <= FindChain(cs, id)
        {
          if cs[i].id == id {
            assert i == FindChain(cs, id);
            var chain := ResolveEntries(cs[i], turn);
            chains := chains[order[k] := cs[i := chain]];
            return Some(chain);
          }
        }
      }
      return None;
    }

    /** The innermost loop of `reveal_hidden_entry`. */
    static method RevealIn(chain: Chain, id: nat, turn: Option<int>)
      returns (out: Chain, found: Option<Entry>)
      ensures found.Some? <==> HasHidden(chain, id)
      ensures found.None? ==> out == chain
      ensures found.Some? ==> out == RevealChain(chain, id, turn) && found.value == RevealedIn(chain, id)
    {
      var es := chain.entries;
      for j := 0 to |es|
        invariant j <= FindHidden(es, id)
      {
        if es[j].id == id && es[j].visibility == Hidden {
          var e := es[j].(visibility := Visible, status := Active);
          out := chain.(entries := es[j := e]);
          if turn.Some? {
            out := out.(lastActiveTurn := turn.value);
          }
          return out, Some(e);
        }
      }
      return chain, None;
    }

    method RevealHiddenEntry(id: nat, turn: Option<int>) returns (found: Option<Entry>)
      requires forall s :: s in order ==> s in chains
      modifies this`chains
      ensures Contents() == C.Reveal(old(Contents()), id, turn)
      ensures found == RevealedEntry(old(Contents()), id, 0)
    {
      for k := 0 to |order|
        invariant chains == old(chains)
        invariant RevealFrom(Contents(), id, turn, 0) == RevealFrom(Contents(), id, turn, k)
        invariant RevealedEntry(Contents(), id, 0) == RevealedEntry(Contents(), id, k)
      {
        var cs := chains[order[k]];
        for i := 0 to |cs|
          invariant chains == old(chains) && i <= FindHiding(cs, id)
        {
          var chain;
          chain, found := RevealIn(cs[i], id, turn);
          if found.Some? {
            assert i == FindHiding(cs, id);
            chains := chains[order[k] := cs[i := chain]];
            return;
          }
        }
      }
      return None;
    }

    /** The first loop of `prune_chains`. */
    static method Lapse(cs: seq<Chain>, turn: int) returns (ds: seq<Chain>, closures: seq<string>)
      ensures ds == LapseChains(cs, turn) && closures == LapsedTriggers(cs, turn)
    {
      ds, closures := [], [];
      for i := 0 to |cs|
        invariant ds == LapseChains(cs[..i], turn)
        invariant closures == LapsedTriggers(cs[..i], turn)
      {
        assert cs[..i + 1][..i] == cs[..i];
        var chain := cs[i];
        if !IsResolved(chain) && !chain.isDormant && turn - chain.lastActiveTurn >= 50 {
          chain := MapEntries(chain, LapseEntry).(isDormant := true);
          closures := closures + [chain.trigger];
        }
        ds := ds + [chain];
      }
      assert cs[..|cs|] == cs;
    }

    /** The second loop of `prune_chains`. */
    static method PruneExcess(ds: seq<Chain>, max: int)
      returns (out: seq<Chain>, ids: seq<nat>, closures: seq<string>)
      ensures out == PruneAt(ds, Victims(ds, max))
      ensures ids == IdsOf(ds, Victims(ds, max)) && closures == TriggersOf(ds, Victims(ds, max))
    {
      var active := Scored(ds);
      var toPrune := Excess(|active|, max);
      var scored := Sort(active);
      SortKeepsLength(active);
      ScoredItems(ds);
      SortedItems(active, |ds|);
      out, ids, closures := ds, [], [];
      for i := 0 to toPrune
        invariant |out| == |ds| && out == PruneAt(ds, scored[..i])
        invariant ids == IdsOf(ds, scored[..i]) && closures == TriggersOf(ds, scored[..i])
      {
        assert scored[..i + 1][..i] == scored[..i];
        var k := scored[i].item;
        out := out[k := PruneChain(out[k])];
        ids := ids + [ds[k].id];
        closures := closures + [ds[k].trigger];
      }
    }

    method PruneChains(session: Session, turn: int, max: int) returns (prunedIds: seq<nat>, closures: seq<string>)
      modifies this`chains
      ensures Contents() == C.Prune(old(Contents()), session, turn, max)
      ensures chains.Keys == old(chains).Keys && forall other <- chains | other != session :: chains[other] == old(chains)[other]
      ensures var cs := ChainsOf(old(Contents()), session);
        var ds := LapseChains(cs, turn);
        && prunedIds == IdsOf(ds, Victims(ds, max))
        && closures == LapsedTriggers(cs, turn) + TriggersOf(ds, Victims(ds, max))
    {
      var cs := if session in chains then chains[session] else [];
      var ds, out, more;
      ds, closures := Lapse(cs, turn);
      out, prunedIds, more := PruneExcess(ds, max);
      closures := closures + more;
      if session in chains {
        chains := chains[session := out];
      }
    }
  }

  lemma {:induction false} ScoredItems(cs: seq<Chain>)
    ensures forall x <- Scored(cs) :: x.item < |cs|
  {
    if cs != [] {
      ScoredItems(cs[..|cs| - 1]);
    }
  }

  lemma SortedItems(s: seq<Keyed<nat>>, bound: nat)
    requires forall x <- s :: x.item < bound
    ensures forall x <- Sort(s) :: x.item < bound
  {
    SortSorts(s);
    forall x | x in Sort(s) ensures x.item < bound {
      assert x in multiset(Sort(s));
    }
  }
}
