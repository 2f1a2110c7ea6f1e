/** What the consequence service promises: pruning, and whole runs of its operations. */
module ConsequenceLaws {
  import opened Wrappers
  import opened StableSort
  import opened Consequences

  // ------------------------------------------- places

  lemma {:induction false} EvaluateEntriesAt(es: seq<Entry>, turn: int)
    ensures |EvaluateEntries(es, turn)| == |es|
    ensures forall j :: 0 <= j < |es| ==> EvaluateEntries(es, turn)[j] == EvaluateEntry(es[j], turn)
  {
    if es != [] {
      EvaluateEntriesAt(es[..|es| - 1], turn);
    }
  }

  lemma {:induction false} EvaluateChainsAt(cs: seq<Chain>, turn: int)
    ensures |EvaluateChains(cs, turn)| == |cs|
    ensures forall i :: 0 <= i < |cs| ==> EvaluateChains(cs, turn)[i] == EvaluateChain(cs[i], turn)
  {
    if cs != [] {
      EvaluateChainsAt(cs[..|cs| - 1], turn);
    }
  }

  lemma {:induction false} LapseChainsAt(cs: seq<Chain>, turn: int)
    ensures |LapseChains(cs, turn)| == |cs|
    ensures forall i :: 0 <= i < |cs| ==> LapseChains(cs, turn)[i] == LapseChain(cs[i], turn)
  {
    if cs != [] {
      LapseChainsAt(cs[..|cs| - 1], turn);
    }
  }

  // ------------------------------------------- the score separates protected chains

  /** Pending long-term, defining or pivotal, or permanent. */
  predicate Protected(c: Chain) {
    PendingLongTerm(c) || c.impact in {Defining, Pivotal} || c.reversibility == Permanent
  }

  lemma {:induction false} MaxPriorityBounds(es: seq<Entry>)
    ensures -1 <= MaxPriority(es) <= 4
    ensures forall e <- es :: Priority(e.status) <= MaxPriority(es)
  {
    if |es| > 1 {
      MaxPriorityBounds(es[1..]);
      assert forall e <- es :: e == es[0] || e in es[1..];
    }
  }

  lemma ScoreSeparates(c: Chain)
    requires IsActive(c)
    ensures if Protected(c) then PruneScore(c) >= 5 else 0 <= PruneScore(c) <= 4
  {
    MaxPriorityBounds(c.entries);
    if c.entries != [] {
      var e :| e in c.entries && e.status !in {Resolved, Pruned};
      assert Priority(e.status) >= 1;
    }
  }

  // ------------------------------------------- pruning

  function ActiveSet(cs: seq<Chain>): set<nat> {
    set i | 0 <= i < |cs| && IsActive(cs[i])
  }

  function VictimSet(cs: seq<Chain>, max: int): set<nat> {
    set x | x in Victims(cs, max) :: x.item
  }

  lemma ActiveSetStep(cs: seq<Chain>)
    requires cs != []
    ensures ActiveSet(cs) == ActiveSet(cs[..|cs| - 1]) + (if IsActive(cs[|cs| - 1]) then {|cs| - 1} else {})
    ensures |cs| - 1 !in ActiveSet(cs[..|cs| - 1])
  {
  }

  lemma {:induction false} ScoredAreScores(cs: seq<Chain>)
    ensures forall i :: 0 <= i < |Scored(cs)| ==>
      && Scored(cs)[i].item in ActiveSet(cs)
      && Scored(cs)[i].key == PruneScore(cs[Scored(cs)[i].item])
    ensures |Scored(cs)| == |ActiveSet(cs)|
  {
    if cs == [] {
      assert ActiveSet(cs) == {};
    } else {
      ActiveSetStep(cs);
      ScoredAreScores(cs[..|cs| - 1]);
    }
  }

  lemma {:induction false} ScoredIncreases(cs: seq<Chain>)
    ensures forall i :: 0 <= i < |Scored(cs)| ==> Scored(cs)[i].item < |cs|
    ensures forall i, j :: 0 <= i < j < |Scored(cs)| ==> Scored(cs)[i].item < Scored(cs)[j].item
  {
    if cs != [] {
      ScoredIncreases(cs[..|cs| - 1]);
    }
  }

  lemma {:induction false} ScoredCovers(cs: seq<Chain>, k: nat)
    requires k in ActiveSet(cs)
    ensures Keyed(PruneScore(cs[k]), k) in Scored(cs)
  {
    if k < |cs| - 1 {
      ScoredCovers(cs[..|cs| - 1], k);
    }
  }

  lemma ScoredAreActive(cs: seq<Chain>)
    ensures forall i :: 0 <= i < |Scored(cs)| ==>
      && Scored(cs)[i].item in ActiveSet(cs)
      && Scored(cs)[i].key == PruneScore(cs[Scored(cs)[i].item])
    ensures forall i, j :: 0 <= i < j < |Scored(cs)| ==> Scored(cs)[i].item < Scored(cs)[j].item
    ensures forall k <- ActiveSet(cs) :: Keyed(PruneScore(cs[k]), k) in Scored(cs)
    ensures |Scored(cs)| == |ActiveSet(cs)|
  {
    ScoredAreScores(cs);
    ScoredIncreases(cs);
    forall k | k in ActiveSet(cs) ensures Keyed(PruneScore(cs[k]), k) in Scored(cs) {
      ScoredCovers(cs, k);
    }
  }

  lemma {:induction false} DistinctMultiplicity<T>(s: seq<Keyed<T>>, x: Keyed<T>)
    requires forall i, j :: 0 <= i < j < |s| ==> s[i] != s[j]
    ensures multiset(s)[x] <= 1
  {
    if s != [] {
      var init, last := s[..|s| - 1], s[|s| - 1];
      assert s == init + [last];
      DistinctMultiplicity(init, x);
      if x == last {
        assert x !in init;
        assert x !in multiset(init);
      }
    }
  }

  lemma TwiceCounts<T>(t: seq<Keyed<T>>, i: nat, j: nat)
    requires i < j < |t|
    ensures t[i] == t[j] ==> multiset(t)[t[i]] >= 2
  {
    assert t == t[..j] + t[j..];
    assert t[..j][i] == t[i] && t[j..][0] == t[j];
    assert t[i] in multiset(t[..j]) && t[j] in multiset(t[j..]);
  }

  lemma SameMultisetDistinct<T>(s: seq<Keyed<T>>, t: seq<Keyed<T>>)
    requires forall i, j :: 0 <= i < j < |s| ==> s[i] != s[j]
    requires multiset(s) == multiset(t)
    ensures forall i, j :: 0 <= i < j < |t| ==> t[i] != t[j]
  {
    forall i, j | 0 <= i < j < |t| ensures t[i] != t[j] {
      DistinctMultiplicity(s, t[i]);
      TwiceCounts(t, i, j);
    }
  }

  lemma {:induction false} PrefixItems(s: seq<Keyed<nat>>)
    requires forall i, j :: 0 <= i < j < |s| ==> s[i].item != s[j].item
    ensures |set x | x in s :: x.item| == |s|
  {
    if s == [] {
      assert (set x | x in s :: x.item) == {};
    } else {
      var init, last := s[..|s| - 1], s[|s| - 1];
      PrefixItems(init);
      assert s == init + [last];
      assert (set x | x in s :: x.item) == (set x | x in init :: x.item) + {last.item};
      assert last.item !in (set x | x in init :: x.item);
    }
  }

  predicate DistinctItems(s: seq<Keyed<nat>>) {
    forall i, j :: 0 <= i < j < |s| ==> s[i].item != s[j].item
  }

  lemma SortKeepsMembers(s: seq<Keyed<nat>>)
    ensures |Sort(s)| == |s| && forall x :: x in Sort(s) <==> x in s
  {
    SortSorts(s);
    assert forall x :: x in s <==> x in multiset(s);
    assert forall x :: x in Sort(s) <==> x in multiset(Sort(s));
  }

  lemma DifferentItems(s: seq<Keyed<nat>>, x: Keyed<nat>, y: Keyed<nat>)
    requires DistinctItems(s) && x in s && y in s && x != y
    ensures x.item != y.item
  {
    var a :| 0 <= a < |s| && s[a] == x;
    var b :| 0 <= b < |s| && s[b] == y;
    assert a < b || b < a;
  }

  lemma SortKeepsDistinct(s: seq<Keyed<nat>>)
    requires DistinctItems(s)
    ensures DistinctItems(Sort(s))
  {
    var t := Sort(s);
    SortSorts(s);
    SameMultisetDistinct(s, t);
    forall i, j | 0 <= i < j < |t| ensures t[i].item != t[j].item {
      SortedMember(s, i);
      SortedMember(s, j);
      DifferentItems(s, t[i], t[j]);
    }
  }

  lemma SortedMember(s: seq<Keyed<nat>>, i: nat)
    requires i < |Sort(s)|
    ensures Sort(s)[i] in s
  {
    SortSorts(s);
    assert Sort(s)[i] in multiset(Sort(s));
  }

  /** The victims in pruning order: places of active chains, each once. */
  lemma SortedScores(cs: seq<Chain>)
    ensures var s := Sort(Scored(cs));
      && |s| == |ActiveSet(cs)| && Sorted(s)
      && (forall i :: 0 <= i < |s| ==> s[i].item in ActiveSet(cs) && s[i].key == PruneScore(cs[s[i].item]))
      && (forall i, j :: 0 <= i < j < |s| ==> s[i].item != s[j].item)
      && (forall k <- ActiveSet(cs) :: Keyed(PruneScore(cs[k]), k) in s)
  {
    ScoredAreActive(cs);
    SortSorts(Scored(cs));
    SortKeepsMembers(Scored(cs));
    SortKeepsDistinct(Scored(cs));
    var s := Sort(Scored(cs));
    forall i | 0 <= i < |s| ensures s[i].item in ActiveSet(cs) && s[i].key == PruneScore(cs[s[i].item]) {
      SortedMember(Scored(cs), i);
    }
  }

  /** Exactly the excess is chosen, from the active chains. */
  lemma VictimsAreTheExcess(cs: seq<Chain>, max: int)
    ensures VictimSet(cs, max) <= ActiveSet(cs)
    ensures |VictimSet(cs, max)| == Excess(|ActiveSet(cs)|, max)
  {
    SortedScores(cs);
    ScoredAreActive(cs);
    PrefixItems(Victims(cs, max));
  }

  /** Nobody chosen outscores a survivor. */
  lemma VictimsAreLowest(cs: seq<Chain>, max: int, i: nat, j: nat)
    requires i in ActiveSet(cs) - VictimSet(cs, max) && j in VictimSet(cs, max) && j in ActiveSet(cs)
    ensures PruneScore(cs[j]) <= PruneScore(cs[i])
  {
    var s, v := Sort(Scored(cs)), Victims(cs, max);
    SortedScores(cs);
    var a :| 0 <= a < |s| && s[a] == Keyed(PruneScore(cs[i]), i);
    var b :| 0 <= b < |v| && v[b].item == j;
    assert forall k :: 0 <= k < |v| ==> v[k] == s[k] && v[k].item in VictimSet(cs, max);
    assert b < a;
  }

  /** A protected chain is chosen only when every unprotected active chain is. */
  lemma ProtectedGoLast(cs: seq<Chain>, max: int, i: nat, j: nat)
    requires i in ActiveSet(cs) && j in VictimSet(cs, max) && j in ActiveSet(cs)
    requires Protected(cs[j]) && !Protected(cs[i])
    ensures i in VictimSet(cs, max)
  {
    VictimsAreTheExcess(cs, max);
    ScoreSeparates(cs[i]);
    ScoreSeparates(cs[j]);
    if i !in VictimSet(cs, max) {
      VictimsAreLowest(cs, max, i, j);
    }
  }

  predicate ItemsIncrease(s: seq<Keyed<nat>>) {
    forall i, j :: 0 <= i < j < |s| ==> s[i].item < s[j].item
  }

  lemma {:induction false} SelectMembers<T>(s: seq<Keyed<T>>, k: int)
    ensures forall x :: x in Select(s, k) <==> x in s && x.key == k
  {
    if s != [] {
      assert s == s[..|s| - 1] + [s[|s| - 1]];
      SelectMembers(s[..|s| - 1], k);
    }
  }

  lemma {:induction false} SelectKeepsIncrease(s: seq<Keyed<nat>>, k: int)
    requires ItemsIncrease(s)
    ensures ItemsIncrease(Select(s, k))
  {
    if s != [] {
      var init := s[..|s| - 1];
      SelectKeepsIncrease(init, k);
      SelectMembers(init, k);
    }
  }

  lemma {:induction false} IncreaseWithinKey(s: seq<Keyed<nat>>, a: nat, b: nat)
    requires a < b < |s| && s[a].key == s[b].key && ItemsIncrease(Select(s, s[a].key))
    ensures s[a].item < s[b].item
  {
    var k, init := s[a].key, s[..|s| - 1];
    if b < |s| - 1 {
      assert forall i, j :: 0 <= i < j < |Select(init, k)| ==>
        Select(init, k)[i] == Select(s, k)[i] && Select(init, k)[j] == Select(s, k)[j];
      IncreaseWithinKey(init, a, b);
    } else {
      SelectMembers(init, k);
      assert init[a] in init;
      var i :| 0 <= i < |Select(init, k)| && Select(init, k)[i] == s[a];
      assert Select(s, k)[i] == s[a] && Select(s, k)[|Select(init, k)|] == s[b];
    }
  }

  lemma SortedTies(cs: seq<Chain>, a: nat, b: nat)
    requires a < b < |Sort(Scored(cs))| && Sort(Scored(cs))[a].key == Sort(Scored(cs))[b].key
    ensures Sort(Scored(cs))[a].item < Sort(Scored(cs))[b].item
  {
    var k := Sort(Scored(cs))[a].key;
    ScoredIncreases(cs);
    SelectKeepsIncrease(Scored(cs), k);
    SortIsStable(Scored(cs), k);
    IncreaseWithinKey(Sort(Scored(cs)), a, b);
  }

  /** Among equal scores the chain created first is pruned first. */
  lemma TiesGoOldestFirst(cs: seq<Chain>, max: int, i: nat, j: nat)
    requires i < j && i in ActiveSet(cs) && j in ActiveSet(cs) && j in VictimSet(cs, max)
    requires PruneScore(cs[i]) == PruneScore(cs[j])
    ensures i in VictimSet(cs, max)
  {
    var s, v, k := Sort(Scored(cs)), Victims(cs, max), PruneScore(cs[i]);
    SortedScores(cs);
    assert Keyed(k, i) in s;
    var a :| 0 <= a < |s| && s[a] == Keyed(k, i);
    var b :| 0 <= b < |v| && v[b].item == j;
    SortKeepsLength(Scored(cs));
    assert v == s[..Excess(|Scored(cs)|, max)];
    assert s[b] == v[b] == Keyed(k, j);
    if b < a {
      SortedTies(cs, b, a);
    }
    assert v[a] == s[a] && v[a] in v;
  }

  // ------------------------------------------- the order of pruning, without the scores

  predicate Has(c: Chain, status: Status) {
    exists e <- c.entries :: e.status == status
  }

  /** How many of two grounds protect the chain: a pending long-term entry, and its impact. */
  function Grounds(c: Chain): nat {
    (if exists e <- c.entries :: e.timescale == LongTerm && e.status == Pending then 1 else 0)
    + (if c.impact == Pivotal || c.impact == Defining then 1 else 0)
  }

  /** Pending outlives active, active outlives dormant, and a chain without any of these is the
      first to go. */
  function Life(c: Chain): nat {
    if Has(c, Pending) then 3 else if Has(c, Active) then 2 else if Has(c, Dormant) then 1 else 0
  }

  /** The grounds count first, permanence next, and life last. */
  predicate GoesBefore(a: Chain, b: Chain) {
    || Grounds(a) < Grounds(b)
    || (Grounds(a) == Grounds(b) && a.reversibility != Permanent && b.reversibility == Permanent)
    || (Grounds(a) == Grounds(b) && (a.reversibility == Permanent <==> b.reversibility == Permanent)
        && Life(a) < Life(b))
  }

  lemma MaxPriorityOfLife(c: Chain)
    requires IsActive(c)
    ensures MaxPriority(c.entries) == if Life(c) == 3 then 4 else if Life(c) == 2 then 3 else Life(c)
  {
    MaxPriorityBounds(c.entries);
    if c.entries != [] {
      var top := TopEntry(c.entries);
      var e :| e in c.entries && e.status !in {Resolved, Pruned};
      assert Priority(e.status) <= MaxPriority(c.entries);
      assert Has(c, top.status) && Has(c, e.status);
    }
  }

  lemma {:induction false} TopEntry(es: seq<Entry>) returns (top: Entry)
    requires es != []
    ensures top in es && Priority(top.status) == MaxPriority(es)
  {
    if |es| == 1 {
      top := es[0];
    } else {
      top := TopEntry(es[1..]);
      if Priority(es[0].status) > MaxPriority(es[1..]) {
        top := es[0];
      }
    }
  }

  lemma ScoreParts(c: Chain)
    requires IsActive(c)
    ensures PruneScore(c) == 10 * Grounds(c) + (if c.reversibility == Permanent then 5 else 0)
      + (if Life(c) == 3 then 4 else if Life(c) == 2 then 3 else Life(c))
  {
    MaxPriorityOfLife(c);
  }

  /** The scores order chains just so. */
  lemma ScoresFollowOrder(a: Chain, b: Chain)
    requires IsActive(a) && IsActive(b)
    ensures PruneScore(a) < PruneScore(b) <==> GoesBefore(a, b)
  {
    ScoreParts(a);
    ScoreParts(b);
  }

  /** The order of pruning is complete: a chain that goes before a victim, or is equal to it and
      older, is a victim too. */
  lemma VictimsInOrder(cs: seq<Chain>, max: int, i: nat, j: nat)
    requires i in ActiveSet(cs) && j in ActiveSet(cs) && j in VictimSet(cs, max)
    requires GoesBefore(cs[i], cs[j]) || (!GoesBefore(cs[j], cs[i]) && i < j)
    ensures i in VictimSet(cs, max)
  {
    ScoresFollowOrder(cs[i], cs[j]);
    ScoresFollowOrder(cs[j], cs[i]);
    if i !in VictimSet(cs, max) {
      VictimsAreLowest(cs, max, i, j);
      TiesGoOldestFirst(cs, max, i, j);
    }
  }

  /** Which chains compete, and how many of them go. */
  lemma WhoCompetes(cs: seq<Chain>, max: int, k: nat)
    ensures k in ActiveSet(cs) <==>
      && k < |cs| && !cs[k].isDormant
      && (cs[k].entries == [] || Has(cs[k], Pending) || Has(cs[k], Active) || Has(cs[k], Dormant))
    ensures |VictimSet(cs, max)|
      == if |ActiveSet(cs)| <= max then 0 else if max <= 0 then |ActiveSet(cs)| else |ActiveSet(cs)| - max
  {
    VictimsAreTheExcess(cs, max);
    if k < |cs| && cs[k].entries != [] && !IsResolved(cs[k]) {
      var e :| e in cs[k].entries && e.status !in {Resolved, Pruned};
      assert Has(cs[k], e.status);
    }
  }

  function ItemsOf(s: seq<Keyed<nat>>): set<nat> {
    set x | x in s :: x.item
  }

  lemma ItemsStep(s: seq<Keyed<nat>>)
    requires s != []
    ensures ItemsOf(s) == ItemsOf(s[..|s| - 1]) + {s[|s| - 1].item}
  {
    assert s == s[..|s| - 1] + [s[|s| - 1]];
  }

  lemma {:induction false} PruneAtAt(cs: seq<Chain>, victims: seq<Keyed<nat>>)
    requires forall x <- victims :: x.item < |cs|
    requires DistinctItems(victims)
    ensures |PruneAt(cs, victims)| == |cs|
    ensures forall k :: 0 <= k < |cs| ==>
      PruneAt(cs, victims)[k] == if k in ItemsOf(victims) then PruneChain(cs[k]) else cs[k]
  {
    if victims != [] {
      var init, last := victims[..|victims| - 1], victims[|victims| - 1];
      PruneAtAt(cs, init);
      ItemsStep(victims);
      assert last.item !in ItemsOf(init);
    }
  }

  /** Chains among the victims that have no entry: pruning does not touch them. */
  function EmptyVictims(cs: seq<Chain>, max: int): set<nat> {
    set k | k in VictimSet(cs, max) && k < |cs| && cs[k].entries == []
  }

  lemma VictimsAreDistinct(cs: seq<Chain>, max: int)
    ensures DistinctItems(Victims(cs, max)) && forall x <- Victims(cs, max) :: x.item < |cs|
  {
    SortedScores(cs);
    SortKeepsLength(Scored(cs));
    var victims, s := Victims(cs, max), Sort(Scored(cs));
    assert forall i :: 0 <= i < |victims| ==> victims[i] == s[i];
  }

  lemma PruneChainsAt(cs: seq<Chain>, turn: int, max: int)
    ensures var ds, out := LapseChains(cs, turn), PruneChains(cs, turn, max);
      && |out| == |cs| == |ds|
      && (forall k :: 0 <= k < |cs| ==> out[k] == if k in VictimSet(ds, max) then PruneChain(ds[k]) else ds[k])
  {
    var ds := LapseChains(cs, turn);
    LapseChainsAt(cs, turn);
    VictimsAreDistinct(ds, max);
    PruneAtAt(ds, Victims(ds, max));
    assert VictimSet(ds, max) == ItemsOf(Victims(ds, max));
  }

  lemma PrunedIsActiveIffEmpty(c: Chain)
    requires IsActive(c)
    ensures IsActive(PruneChain(c)) <==> c.entries == []
  {
    assert forall e <- PruneChain(c).entries :: e.status == Pruned;
  }

  lemma CountWithout(a: set<nat>, v: set<nat>, e: set<nat>)
    requires e <= v <= a
    ensures |a - (v - e)| == |a| - |v| + |e|
  {
    assert |a - (v - e)| == |a| - |v - e| && |v - e| == |v| - |e|;
  }

  /** The chains still active when the victims' entries have been pruned. */
  lemma ActiveAfterPruning(ds: seq<Chain>, out: seq<Chain>, max: int)
    requires |out| == |ds|
    requires forall k :: 0 <= k < |ds| ==> out[k] == if k in VictimSet(ds, max) then PruneChain(ds[k]) else ds[k]
    requires VictimSet(ds, max) <= ActiveSet(ds)
    ensures ActiveSet(out) == ActiveSet(ds) - (VictimSet(ds, max) - EmptyVictims(ds, max))
  {
    forall k | 0 <= k < |ds|
      ensures IsActive(out[k]) <==>
        IsActive(ds[k]) && !(k in VictimSet(ds, max) && k !in EmptyVictims(ds, max))
    {
      if k in VictimSet(ds, max) {
        PrunedIsActiveIffEmpty(ds[k]);
      }
    }
  }

  /** The outcome of `prune_chains`, whatever the chains: every victim but those without
      entries stops being active, and nothing else does. */
  lemma PruneOutcome(cs: seq<Chain>, turn: int, max: int)
    ensures var ds, out := LapseChains(cs, turn), PruneChains(cs, turn, max);
      && ActiveSet(out) == ActiveSet(ds) - (VictimSet(ds, max) - EmptyVictims(ds, max))
      && |ActiveSet(out)| == |ActiveSet(ds)| - Excess(|ActiveSet(ds)|, max) + |EmptyVictims(ds, max)|
  {
    var ds := LapseChains(cs, turn);
    PruneChainsAt(cs, turn, max);
    VictimsAreTheExcess(ds, max);
    ActiveAfterPruning(ds, PruneChains(cs, turn, max), max);
    CountWithout(ActiveSet(ds), VictimSet(ds, max), EmptyVictims(ds, max));
  }

  /** The chain has been idle for fifty turns and is still going. */
  predicate Idle(c: Chain, turn: int) {
    && !c.isDormant && turn >= c.lastActiveTurn + 50
    && (c.entries == [] || Has(c, Pending) || Has(c, Active) || Has(c, Dormant))
  }

  predicate OnlyStatuses(c: Chain, d: Chain) {
    && d == c.(entries := d.entries, isDormant := d.isDormant) && |d.entries| == |c.entries|
    && forall j :: 0 <= j < |c.entries| ==> d.entries[j] == c.entries[j].(status := d.entries[j].status)
  }

  /** What `prune_chains` does to each chain: an idle one goes dormant with its open entries; of
      the others each victim has all its entries pruned; the rest stay as they are. Nothing but
      statuses and dormancy is ever changed. */
  lemma PruningTouches(cs: seq<Chain>, turn: int, max: int, k: nat)
    requires k < |cs|
    ensures k < |PruneChains(cs, turn, max)|
    ensures var c, d, victims := cs[k], PruneChains(cs, turn, max)[k], VictimSet(LapseChains(cs, turn), max);
      && OnlyStatuses(c, d)
      && d.isDormant == (c.isDormant || Idle(c, turn))
      && (Idle(c, turn) ==> k !in victims)
      && forall j :: 0 <= j < |c.entries| ==>
          d.entries[j].status ==
            if Idle(c, turn) && c.entries[j].status in {Pending, Active} then Dormant
            else if k in victims then Pruned
            else c.entries[j].status
  {
    LapsedChain(cs[k], turn);
    PrunedChain(LapseChain(cs[k], turn));
    LapseChainsAt(cs, turn);
    PruneChainsAt(cs, turn, max);
    var ds := LapseChains(cs, turn);
    VictimsAreTheExcess(ds, max);
    assert ds[k] == LapseChain(cs[k], turn);
    assert k in VictimSet(ds, max) ==> k in ActiveSet(ds) && IsActive(ds[k]);
    LapsesIffIdle(cs[k], turn);
  }

  /** The entries keep their places and all but their statuses, which go by `f`. */
  lemma MappedStatuses(c: Chain, f: Entry -> Entry, dormant: bool)
    requires forall e <- c.entries :: f(e) == e.(status := f(e).status)
    ensures var d := MapEntries(c, f).(isDormant := dormant);
      OnlyStatuses(c, d) && forall j :: 0 <= j < |c.entries| ==> d.entries[j] == f(c.entries[j])
  {
    var d := MapEntries(c, f).(isDormant := dormant);
    forall j | 0 <= j < |c.entries| ensures d.entries[j] == c.entries[j].(status := d.entries[j].status) {
      assert c.entries[j] in c.entries && d.entries[j] == f(c.entries[j]);
    }
  }

  lemma LapsedChain(c: Chain, turn: int)
    ensures var d := LapseChain(c, turn);
      && OnlyStatuses(c, d) && d.isDormant == (c.isDormant || Idle(c, turn))
      && forall j :: 0 <= j < |c.entries| ==>
          d.entries[j].status ==
            if Idle(c, turn) && c.entries[j].status in {Pending, Active} then Dormant else c.entries[j].status
  {
    LapsesIffIdle(c, turn);
    if Idle(c, turn) {
      MappedStatuses(c, LapseEntry, true);
    } else {
      assert LapseChain(c, turn) == c;
    }
  }

  lemma PrunedChain(c: Chain)
    ensures OnlyStatuses(c, PruneChain(c)) && PruneChain(c).isDormant == c.isDormant
    ensures forall j :: 0 <= j < |c.entries| ==> PruneChain(c).entries[j].status == Pruned
  {
  }

  lemma LapsesIffIdle(c: Chain, turn: int)
    ensures Lapses(c, turn) <==> Idle(c, turn)
  {
    if c.entries != [] && !IsResolved(c) {
      var e :| e in c.entries && e.status !in {Resolved, Pruned};
      assert Has(c, e.status);
    }
  }

  /** What `prune_chains` returns: the victims' ids and triggers in pruning order. */
  lemma {:induction false} NamesInOrder(cs: seq<Chain>, victims: seq<Keyed<nat>>)
    requires forall k :: 0 <= k < |victims| ==> victims[k].item < |cs|
    ensures |IdsOf(cs, victims)| == |TriggersOf(cs, victims)| == |victims|
    ensures forall k :: 0 <= k < |victims| ==>
      IdsOf(cs, victims)[k] == cs[victims[k].item].id && TriggersOf(cs, victims)[k] == cs[victims[k].item].trigger
  {
    if victims != [] {
      var init, last := victims[..|victims| - 1], victims[|victims| - 1];
      NamesInOrder(cs, init);
      assert IdsOf(cs, victims) == IdsOf(cs, init) + [cs[last.item].id];
      assert TriggersOf(cs, victims) == TriggersOf(cs, init) + [cs[last.item].trigger];
    }
  }

  /** The cap is met exactly when no chain without entries is among the lowest-scored excess. */
  lemma CapHoldsIffVictimsHaveEntries(cs: seq<Chain>, turn: int, max: nat)
    ensures |ActiveSet(PruneChains(cs, turn, max))| <= max <==> EmptyVictims(LapseChains(cs, turn), max) == {}
  {
    PruneOutcome(cs, turn, max);
    var ds := LapseChains(cs, turn);
    var E := EmptyVictims(ds, max);
    VictimsAreTheExcess(ds, max);
    assert |E| == 0 <==> E == {};
    assert E <= VictimSet(ds, max);
    assert |VictimSet(ds, max)| == 0 ==> VictimSet(ds, max) == {};
  }

  /** When every chain has an entry, as many chains stay active as fit. */
  lemma CapHolds(cs: seq<Chain>, turn: int, max: nat)
    requires forall c <- cs :: c.entries != []
    ensures var ds := LapseChains(cs, turn);
      |ActiveSet(PruneChains(cs, turn, max))|
      == if |ActiveSet(ds)| <= max then |ActiveSet(ds)| else max
  {
    PruneOutcome(cs, turn, max);
    LapseChainsAt(cs, turn);
    assert EmptyVictims(LapseChains(cs, turn), max) == {};
  }

  lemma EmptyPairStaysActive(c: Chain, turn: int, max: int)
    requires c.entries == [] && IsActive(c) && !Lapses(c, turn)
    ensures ActiveSet(PruneChains([c, c], turn, max)) == {0, 1}
  {
    var out := PruneChains([c, c], turn, max);
    PruneChainsAt([c, c], turn, max);
    LapseChainsAt([c, c], turn);
    assert PruneChain(c) == c;
    assert |out| == 2 && out[0] == c && out[1] == c;
  }

  /** Two fresh chains without entries both stay active under a cap of one. */
  lemma EmptyChainEscapesCap()
    ensures var c := Chain(0, "", [], Atmospheric, Moderate, 0, 0, false);
      ActiveSet(PruneChains([c, c], 0, 1)) == {0, 1}
  {
    EmptyPairStaysActive(Chain(0, "", [], Atmospheric, Moderate, 0, 0, false), 0, 1);
  }
}
