/** `fit_chunks_to_budget` of src/tta/llm/context_budget.py. */
module ContextBudget {
  import opened StableSort

  datatype Priority = P0 | P1 | P2 | P3

  datatype Chunk = Chunk(name: string, length: nat, priority: Priority, tokenCount: int)

  datatype BudgetResult = BudgetResult(chunks: seq<Chunk>, totalTokens: int, dropped: seq<string>)

  function Level(p: Priority): int {
    match p case P0 => 0 case P1 => 1 case P2 => 2 case P3 => 3
  }

  /** `length` stands for the length of the chunk's content. */
  function CountTokens(length: nat): int {
    if length / 2 < 1 then 1 else length / 2
  }

  /** Half the length, rounded down, but at least one. */
  lemma TokensAreHalfTheLength(length: nat)
    ensures CountTokens(length) >= 1
    ensures length <= 3 ==> CountTokens(length) == 1
    ensures length >= 2 ==> 2 * CountTokens(length) <= length < 2 * CountTokens(length) + 2
  {
  }

  function Counted(c: Chunk): Chunk {
    if c.tokenCount <= 0 then c.(tokenCount := CountTokens(c.length)) else c
  }

  function Tokens(cs: seq<Chunk>): int {
    if cs == [] then 0 else Tokens(cs[..|cs| - 1]) + cs[|cs| - 1].tokenCount
  }

  // ------------------------------------------- the simple form

  function WithPriority(cs: seq<Chunk>, p: Priority): seq<Chunk> {
    if cs == [] then []
    else WithPriority(cs[..|cs| - 1], p) + if cs[|cs| - 1].priority == p then [cs[|cs| - 1]] else []
  }

  /** The four priority classes one after the other, each in the order given. */
  function ByPriority(cs: seq<Chunk>): seq<Chunk> {
    WithPriority(cs, P0) + WithPriority(cs, P1) + WithPriority(cs, P2) + WithPriority(cs, P3)
  }

  /** How many chunks may never be dropped. */
  function Pinned(cs: seq<Chunk>): nat {
    |WithPriority(cs, P0)| + |WithPriority(cs, P1)|
  }

  /** A number of leading chunks that may be kept: all pinned ones, and no more than those
      unless they fit. */
  predicate MayKeep(ordered: seq<Chunk>, pinned: nat, budget: int, n: nat) {
    pinned <= n <= |ordered| && (n == pinned || Tokens(ordered[..n]) <= budget)
  }

  /** The longest prefix that may be kept. */
  predicate IsLongestFit(ordered: seq<Chunk>, pinned: nat, budget: int, n: nat) {
    MayKeep(ordered, pinned, budget, n)
    && forall m :: n < m <= |ordered| ==> !MayKeep(ordered, pinned, budget, m)
  }

  function Names(cs: seq<Chunk>): seq<string> {
    seq(|cs|, i requires 0 <= i < |cs| => cs[i].name)
  }

  function Reversed(cs: seq<Chunk>): seq<Chunk> {
    seq(|cs|, i requires 0 <= i < |cs| => cs[|cs| - 1 - i])
  }

  // ------------------------------------------- sorting by priority

  function Tagged(cs: seq<Chunk>): seq<Keyed<Chunk>> {
    seq(|cs|, i requires 0 <= i < |cs| => Keyed(Level(cs[i].priority), cs[i]))
  }

  function Untagged(ks: seq<Keyed<Chunk>>): seq<Chunk> {
    seq(|ks|, i requires 0 <= i < |ks| => ks[i].item)
  }

  /** `sorted(chunks, key=lambda c: c.priority)`. */
  function SortedByPriority(cs: seq<Chunk>): seq<Chunk> {
    Untagged(Sort(Tagged(cs)))
  }

  lemma {:induction false} SelectTagged(cs: seq<Chunk>, p: Priority)
    ensures Select(Tagged(cs), Level(p)) == Tagged(WithPriority(cs, p))
  {
    if cs != [] {
      var init, last := cs[..|cs| - 1], cs[|cs| - 1];
      SelectTagged(init, p);
      assert Tagged(cs)[..|cs| - 1] == Tagged(init);
    }
  }

  lemma TaggedConcat(a: seq<Chunk>, b: seq<Chunk>)
    ensures Tagged(a + b) == Tagged(a) + Tagged(b)
  {
  }

  lemma ClassesTagged(cs: seq<Chunk>)
    ensures Classes(Tagged(cs), 3) == Tagged(ByPriority(cs))
  {
    var t := Tagged(cs);
    var a, b, c, d := WithPriority(cs, P0), WithPriority(cs, P1), WithPriority(cs, P2), WithPriority(cs, P3);
    SelectTagged(cs, P0); SelectTagged(cs, P1); SelectTagged(cs, P2); SelectTagged(cs, P3);
    TaggedConcat(a, b);
    TaggedConcat(a + b, c);
    TaggedConcat(a + b + c, d);
    assert Classes(t, -1) == [];
    assert Classes(t, 0) == Tagged(a);
    assert Classes(t, 1) == Tagged(a + b);
    assert Classes(t, 2) == Tagged(a + b + c);
  }

  /** Sorting stably by priority lists the priority classes one after the other. */
  lemma SortingListsClasses(cs: seq<Chunk>)
    ensures SortedByPriority(cs) == ByPriority(cs)
  {
    SortListsClasses(Tagged(cs), 3);
    ClassesTagged(cs);
    assert Untagged(Tagged(ByPriority(cs))) == ByPriority(cs);
  }

  lemma {:induction false} ClassHasPriority(cs: seq<Chunk>, p: Priority)
    ensures forall i :: 0 <= i < |WithPriority(cs, p)| ==> WithPriority(cs, p)[i].priority == p
  {
    if cs != [] {
      ClassHasPriority(cs[..|cs| - 1], p);
    }
  }

  predicate Ascending(cs: seq<Chunk>) {
    forall i, j :: 0 <= i < j < |cs| ==> Level(cs[i].priority) <= Level(cs[j].priority)
  }

  lemma ByPriorityShape(cs: seq<Chunk>)
    ensures var o := ByPriority(cs);
      && Ascending(o) && Pinned(cs) <= |o|
      && (forall i :: 0 <= i < |o| ==> (Level(o[i].priority) < 2 <==> i < Pinned(cs)))
  {
    ClassHasPriority(cs, P0); ClassHasPriority(cs, P1); ClassHasPriority(cs, P2); ClassHasPriority(cs, P3);
  }

  // ------------------------------------------- the deletion loop

  /** What holds of the loop's variables throughout: `kept` is a prefix of the sorted chunks,
      `dropped` names the rest from the end, and every longer prefix is over the budget. */
  ghost predicate Progress(ordered: seq<Chunk>, pinned: nat, budget: int,
                           kept: seq<Chunk>, used: int, dropped: seq<string>) {
    && pinned <= |kept| <= |ordered| && kept == ordered[..|kept|]
    && used == Tokens(kept)
    && dropped == Names(Reversed(ordered[|kept|..]))
    && (forall m :: |kept| < m <= |ordered| ==> Tokens(ordered[..m]) > budget)
  }

  lemma DropLast(ordered: seq<Chunk>, pinned: nat, budget: int, kept: seq<Chunk>, used: int, dropped: seq<string>)
    requires Progress(ordered, pinned, budget, kept, used, dropped) && used > budget && |kept| > pinned
    ensures var last := kept[|kept| - 1];
      Progress(ordered, pinned, budget, kept[..|kept| - 1], used - last.tokenCount, dropped + [last.name])
  {
    var n := |kept| - 1;
    assert ordered[n..] == [kept[n]] + ordered[n + 1..];
    assert Reversed(ordered[n..]) == Reversed(ordered[n + 1..]) + [kept[n]];
    assert Names(Reversed(ordered[n..])) == dropped + [kept[n].name];
    assert kept[..n] == ordered[..n];
  }

  /** One pass of the outer loop, for one priority. */
  method DropPass(ordered: seq<Chunk>, ghost pinned: nat, budget: int, p: Priority,
                  kept0: seq<Chunk>, used0: int, dropped0: seq<string>)
    returns (kept: seq<Chunk>, used: int, dropped: seq<string>)
    requires p == P2 || p == P3
    requires Ascending(ordered) && pinned <= |ordered|
    requires forall i :: 0 <= i < |ordered| ==> (Level(ordered[i].priority) < 2 <==> i < pinned)
    requires Progress(ordered, pinned, budget, kept0, used0, dropped0)
    requires used0 > budget ==> forall i :: 0 <= i < |kept0| ==> Level(kept0[i].priority) <= Level(p)
    ensures Progress(ordered, pinned, budget, kept, used, dropped)
    ensures used > budget ==> forall i :: 0 <= i < |kept| ==> Level(kept[i].priority) < Level(p)
  {
    kept, used, dropped := kept0, used0, dropped0;
    var idx := |kept| - 1;
    while used > budget && idx >= 0
      invariant -1 <= idx < |kept|
      invariant Progress(ordered, pinned, budget, kept, used, dropped)
      invariant used > budget ==> forall i :: 0 <= i < |kept| ==> Level(kept[i].priority) <= Level(p)
      invariant forall i :: idx < i < |kept| ==> Level(kept[i].priority) < Level(p)
      decreases idx
    {
      var chunk := kept[idx];
      assert forall i :: idx < i < |kept| ==> Level(chunk.priority) <= Level(kept[i].priority);
      if chunk.priority == p {
        assert idx == |kept| - 1;
        DropLast(ordered, pinned, budget, kept, used, dropped);
        used := used - chunk.tokenCount;
        dropped := dropped + [chunk.name];
        kept := kept[..idx] + kept[idx + 1..];
      }
      idx := idx - 1;
    }
  }

  /** The first loop: the chunks are counted in place, where the caller sees it. */
  method CountChunks(chunks: array<Chunk>)
    modifies chunks
    ensures forall i :: 0 <= i < chunks.Length ==> chunks[i] == Counted(old(chunks[i]))
    ensures forall i :: 0 <= i < chunks.Length ==>
      && chunks[i] == old(chunks[i]).(tokenCount := chunks[i].tokenCount)
      && chunks[i].tokenCount >= 1
      && (old(chunks[i]).tokenCount > 0 ==> chunks[i] == old(chunks[i]))
      && (old(chunks[i]).tokenCount <= 0 && chunks[i].length >= 2 ==>
           2 * chunks[i].tokenCount <= chunks[i].length < 2 * chunks[i].tokenCount + 2)
      && (old(chunks[i]).tokenCount <= 0 && chunks[i].length < 2 ==> chunks[i].tokenCount == 1)
  {
    for i := 0 to chunks.Length
      invariant forall k :: 0 <= k < i ==> chunks[k] == Counted(old(chunks[k]))
      invariant forall k :: i <= k < chunks.Length ==> chunks[k] == old(chunks[k])
    {
      if chunks[i].tokenCount <= 0 {
        chunks[i] := chunks[i].(tokenCount := CountTokens(chunks[i].length));
      }
    }
  }

  /** The result keeps the longest prefix of the stable priority order that fits, but always
      every P0 and P1, and names what it drops from the end backwards. */
  ghost predicate Fits(cs: seq<Chunk>, budget: int, result: BudgetResult) {
    var ordered, n := ByPriority(cs), |result.chunks|;
    && IsLongestFit(ordered, Pinned(cs), budget, n)
    && result.chunks == ordered[..n]
    && result.totalTokens == Tokens(result.chunks)
    && result.dropped == Names(Reversed(ordered[n..]))
  }

  lemma FinishFit(ordered: seq<Chunk>, pinned: nat, budget: int, kept: seq<Chunk>, used: int, dropped: seq<string>)
    requires pinned <= |ordered|
    requires forall i :: 0 <= i < |ordered| ==> (Level(ordered[i].priority) < 2 <==> i < pinned)
    requires Progress(ordered, pinned, budget, kept, used, dropped)
    requires used > budget ==> forall i :: 0 <= i < |kept| ==> Level(kept[i].priority) < 2
    ensures IsLongestFit(ordered, pinned, budget, |kept|)
  {
    assert |kept| <= pinned || Level(kept[|kept| - 1].priority) >= 2;
  }

  /** The rest, on the counted chunks. */
  method FitCounted(cs: seq<Chunk>, budget: int) returns (result: BudgetResult)
    ensures Fits(cs, budget, result)
  {
    var ordered := SortedByPriority(cs);
    SortingListsClasses(cs);
    ByPriorityShape(cs);
    ghost var pinned := Pinned(cs);
    var kept, used, dropped := ordered, Tokens(ordered), [];
    assert ordered[..|ordered|] == ordered && Names(Reversed(ordered[|ordered|..])) == [];
    kept, used, dropped := DropPass(ordered, pinned, budget, P3, kept, used, dropped);
    kept, used, dropped := DropPass(ordered, pinned, budget, P2, kept, used, dropped);
    FinishFit(ordered, pinned, budget, kept, used, dropped);
    result := BudgetResult(kept, used, dropped);
  }

  method FitChunksToBudget(chunks: array<Chunk>, budget: int) returns (result: BudgetResult)
    modifies chunks
    ensures forall i :: 0 <= i < chunks.Length ==> chunks[i] == Counted(old(chunks[i]))
    ensures Fits(chunks[..], budget, result)
  {
    CountChunks(chunks);
    result := FitCounted(chunks[..], budget);
  }

  /** No P2 chunk is dropped while a P3 chunk is kept, and no P0 or P1 chunk is dropped. */
  lemma DropsFlavourFirst(cs: seq<Chunk>, budget: int, n: nat, kept: nat, gone: nat)
    requires IsLongestFit(ByPriority(cs), Pinned(cs), budget, n)
    requires kept < n <= gone < |ByPriority(cs)|
    ensures var o := ByPriority(cs);
      Level(o[kept].priority) <= Level(o[gone].priority) && o[gone].priority in {P2, P3}
  {
    ByPriorityShape(cs);
  }

  lemma {:induction false} ClassCount(cs: seq<Chunk>, p: Priority, c: Chunk)
    ensures multiset(WithPriority(cs, p))[c] == if c.priority == p then multiset(cs)[c] else 0
  {
    if cs != [] {
      ClassCount(cs[..|cs| - 1], p, c);
      assert cs == cs[..|cs| - 1] + [cs[|cs| - 1]];
    }
  }

  lemma ClassesPermute(cs: seq<Chunk>)
    ensures multiset(ByPriority(cs)) == multiset(cs)
  {
    forall c ensures multiset(ByPriority(cs))[c] == multiset(cs)[c] {
      ClassCount(cs, P0, c); ClassCount(cs, P1, c); ClassCount(cs, P2, c); ClassCount(cs, P3, c);
    }
  }

  lemma FitIsUnique(cs: seq<Chunk>, budget: int, a: BudgetResult, b: BudgetResult)
    requires Fits(cs, budget, a) && Fits(cs, budget, b)
    ensures a == b
  {
    assert |a.chunks| == |b.chunks|;
  }

  lemma OnlyPinnedOverBudget(cs: seq<Chunk>, budget: int, a: BudgetResult)
    requires Fits(cs, budget, a) && a.totalTokens > budget
    ensures forall c <- a.chunks :: c.priority in {P0, P1}
  {
    ByPriorityShape(cs);
    var n := |a.chunks|;
    assert n == Pinned(cs);
    forall c | c in a.chunks ensures c.priority in {P0, P1} {
      var i :| 0 <= i < n && a.chunks[i] == c;
      assert ByPriority(cs)[i] == c;
    }
  }

  lemma NoChunkIsLost(cs: seq<Chunk>, budget: int, a: BudgetResult)
    requires Fits(cs, budget, a)
    ensures exists rest :: a.dropped == Names(Reversed(rest)) && multiset(a.chunks) + multiset(rest) == multiset(cs)
  {
    var ordered, n := ByPriority(cs), |a.chunks|;
    ClassesPermute(cs);
    assert ordered == ordered[..n] + ordered[n..];
    assert a.dropped == Names(Reversed(ordered[n..]))
      && multiset(a.chunks) + multiset(ordered[n..]) == multiset(cs);
  }

  /** The result is determined by the chunks and the budget; it is over the budget only when
      nothing but P0 and P1 is left; and no chunk is lost or made up: those kept and those
      named as dropped are together the chunks given. */
  lemma FitIsUniqueAndComplete(cs: seq<Chunk>, budget: int, a: BudgetResult, b: BudgetResult)
    requires Fits(cs, budget, a) && Fits(cs, budget, b)
    ensures a == b
    ensures a.totalTokens > budget ==> forall c <- a.chunks :: c.priority in {P0, P1}
    ensures exists rest :: a.dropped == Names(Reversed(rest)) && multiset(a.chunks) + multiset(rest) == multiset(cs)
  {
    FitIsUnique(cs, budget, a, b);
    if a.totalTokens > budget {
      OnlyPinnedOverBudget(cs, budget, a);
    }
    NoChunkIsLost(cs, budget, a);
  }

  /** The result keeps within the budget unless nothing but P0 and P1 is kept, and keeps as much
      as that allows: with the last chunk dropped, P2 or P3, it would be over. What is kept lies
      in order of priority, and everything dropped comes after it in that order. */
  lemma FitIsTight(cs: seq<Chunk>, budget: int, a: BudgetResult)
    requires Fits(cs, budget, a)
    ensures a.totalTokens > budget ==> forall c <- a.chunks :: c.priority == P0 || c.priority == P1
    ensures a.dropped != [] ==> exists next: Chunk ::
      && next in cs && next.name == a.dropped[|a.dropped| - 1]
      && (next.priority == P2 || next.priority == P3)
      && a.totalTokens + next.tokenCount > budget
      && forall c <- a.chunks :: Level(c.priority) <= Level(next.priority)
  {
    if a.totalTokens > budget {
      OnlyPinnedOverBudget(cs, budget, a);
    }
    if a.dropped != [] {
      NextIsOver(cs, budget, a);
    }
  }

  lemma NextIsOver(cs: seq<Chunk>, budget: int, a: BudgetResult)
    requires Fits(cs, budget, a) && a.dropped != []
    ensures |a.chunks| < |ByPriority(cs)|
    ensures var next := ByPriority(cs)[|a.chunks|];
      && next in cs && next.name == a.dropped[|a.dropped| - 1]
      && (next.priority == P2 || next.priority == P3)
      && a.totalTokens + next.tokenCount > budget
      && forall c <- a.chunks :: Level(c.priority) <= Level(next.priority)
  {
    var ordered, n := ByPriority(cs), |a.chunks|;
    ByPriorityShape(cs);
    ListedIsGiven(cs, n);
    OneMoreToken(ordered, n);
    assert !MayKeep(ordered, Pinned(cs), budget, n + 1);
    forall c | c in a.chunks ensures Level(c.priority) <= Level(ordered[n].priority) {
      var i :| 0 <= i < n && a.chunks[i] == c;
      assert ordered[i] == c;
    }
  }

  lemma ListedIsGiven(cs: seq<Chunk>, i: nat)
    requires i < |ByPriority(cs)|
    ensures ByPriority(cs)[i] in cs
  {
    ClassesPermute(cs);
    assert ByPriority(cs)[i] in multiset(ByPriority(cs));
  }

  lemma OneMoreToken(cs: seq<Chunk>, n: nat)
    requires n < |cs|
    ensures Tokens(cs[..n + 1]) == Tokens(cs[..n]) + cs[n].tokenCount
  {
    assert cs[..n + 1][..n] == cs[..n];
  }
}
