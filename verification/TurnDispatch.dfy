/**
  How `dispatch_pipeline` of src/tta/pipeline/orchestrator.py records a turn, when any of
  its writes may fail, and what src/tta/api/routes/games_turns.py does to the same rows
  meanwhile: the recovery of the turn count and the clearing of a stuck turn, each a query
  followed by an update that does not look again.
  */
module TurnDispatch {

  type Turn = nat

  datatype Status = Processing | Complete | Moderated | Failed

  /** The turns of one game, its counters, and the turns publication was attempted for. */
  datatype Db = Db(turns: map<Turn, Status>, turnCount: int, needsRecovery: bool, attempts: seq<Turn>)

  predicate IsDone(s: Status) {
    s == Complete || s == Moderated
  }

  /** `_get_turn_count`. */
  function DoneTurns(db: Db): set<Turn> {
    set t | t in db.turns && IsDone(db.turns[t])
  }

  /** UPDATE turns SET status; no row, no effect. */
  function SetStatus(db: Db, t: Turn, s: Status): Db {
    if t in db.turns then db.(turns := db.turns[t := s]) else db
  }

  // ------------------------------------------- one write after the other

  /** Where a dispatch stands: which write it attempts next. */
  datatype Phase = First | Moderating | Failsafe | Counting | Flagging | Publishing | Over

  /** A recovery that has found the flag set; has counted the finished turns; is done. */
  datatype Recovery = Due | Read(finished: set<Turn>) | Written

  /** A submission that has found this turn processing, and whether it has failed it since. */
  datatype Clearing = Clearing(turn: Turn, written: bool)

  datatype Step =
    | Submit(turn: Turn)
    | FirstWrite(turn: Turn, outcome: Status, hasNarrative: bool, fails: bool)
    | ModerateWrite(turn: Turn, fails: bool)
    | FailsafeWrite(turn: Turn, fails: bool)
    | CountWrite(turn: Turn, fails: bool)
    | FlagWrite(turn: Turn, fails: bool)
    | Publish(turn: Turn)
    | SeeStuck(clearing: nat, stuck: Turn)
    | FailStuck(clearing: nat)
    | SeeFlag(recovery: nat)
    | ReadCount(recovery: nat)
    | WriteCount(recovery: nat)

  /** Since the last recovery: the turns the count stands for, and how often it counts one of
      them twice because its own count write came after the recovery had counted it. Finished
      turns the count will not get to know of: those for which a write and its fallback both
      failed, and those that a recovery's update left out because they finished after its
      query. */
  datatype Books = Books(counted: set<Turn>, doubled: nat, lost: set<Turn>, overlooked: set<Turn>)

  datatype System = System(
    db: Db,
    phases: map<Turn, Phase>,
    recoveries: map<nat, Recovery>,
    clearings: map<nat, Clearing>,
    books: Books)

  const INIT := System(Db(map[], 0, false, []), map[], map[], map[], Books({}, 0, {}, {}))

  predicate At(s: System, t: Turn, p: Phase) {
    t in s.phases && s.phases[t] == p
  }

  predicate Settled(s: System, t: Turn) {
    t in s.phases && s.phases[t] in {Publishing, Over}
  }

  /** Finished turns whose writes are behind them. */
  function SettledDone(s: System): set<Turn> {
    set t | t in DoneTurns(s.db) && Settled(s, t)
  }

  predicate Enabled(s: System, step: Step) {
    match step
    case Submit(t) => t !in s.phases && t !in s.db.turns
    case FirstWrite(t, _, _, _) => At(s, t, First)
    case ModerateWrite(t, _) => At(s, t, Moderating)
    case FailsafeWrite(t, _) => At(s, t, Failsafe)
    case CountWrite(t, _) => At(s, t, Counting)
    case FlagWrite(t, _) => At(s, t, Flagging)
    case Publish(t) => At(s, t, Publishing)
    case SeeStuck(c, t) => c !in s.clearings && t in s.db.turns && s.db.turns[t] == Processing
    case FailStuck(c) => c in s.clearings && !s.clearings[c].written
    case SeeFlag(r) => r !in s.recoveries && s.db.needsRecovery
    case ReadCount(r) => r in s.recoveries && s.recoveries[r].Due?
    case WriteCount(r) => r in s.recoveries && s.recoveries[r].Read?
  }

  function Goto(s: System, t: Turn, p: Phase): System {
    s.(phases := s.phases[t := p])
  }

  function FirstWriteDone(s: System, t: Turn, outcome: Status, hasNarrative: bool, fails: bool): System {
    if fails then Goto(s, t, Failsafe)
    else if IsDone(outcome) && hasNarrative then
      Goto(s.(db := SetStatus(s.db, t, Complete)), t, if outcome == Moderated then Moderating else Counting)
    else Goto(s.(db := SetStatus(s.db, t, Failed)), t, Publishing)
  }

  function Lose(s: System, t: Turn): System {
    if t in DoneTurns(s.db) && t !in s.books.counted
    then s.(books := s.books.(lost := s.books.lost + {t})) else s
  }

  /** If this fails too, a turn already stored as complete stays so but is never counted. */
  function FailsafeDone(s: System, t: Turn, fails: bool): System {
    if !fails then Goto(s.(db := SetStatus(s.db, t, Failed)), t, Publishing)
    else Goto(Lose(s, t), t, Publishing)
  }

  function Counted(s: System, t: Turn): System {
    var b := s.books;
    s.(db := s.db.(turnCount := s.db.turnCount + 1),
       books := b.(counted := b.counted + {t}, doubled := b.doubled + if t in b.counted then 1 else 0))
  }

  /** The update looks neither at the flag nor at the turns again. */
  function Recovered(s: System, r: nat): System
    requires r in s.recoveries && s.recoveries[r].Read?
  {
    var n := |s.recoveries[r].finished|;
    var counted := if n == |SettledDone(s)| then SettledDone(s) else s.recoveries[r].finished;
    var lost := s.books.lost - counted;
    var left := SettledDone(s) - counted - lost;
    s.(db := s.db.(turnCount := n, needsRecovery := false),
       recoveries := s.recoveries[r := Written],
       books := Books(counted, 0, lost, left))
  }

  /** The update looks at the identifier only, not at the status. */
  function Cleared(s: System, c: nat): System
    requires c in s.clearings
  {
    var t, b := s.clearings[c].turn, s.books;
    s.(db := SetStatus(s.db, t, Failed),
       clearings := s.clearings[c := Clearing(t, true)],
       books := b.(lost := b.lost - {t}, overlooked := b.overlooked - {t}))
  }

  function Next(s: System, step: Step): System {
    if !Enabled(s, step) then s else
    match step
    case Submit(t) => Goto(s.(db := s.db.(turns := s.db.turns[t := Processing])), t, First)
    case FirstWrite(t, outcome, hasNarrative, fails) => FirstWriteDone(s, t, outcome, hasNarrative, fails)
    case ModerateWrite(t, fails) =>
      if fails then Goto(s, t, Failsafe) else Goto(s.(db := SetStatus(s.db, t, Moderated)), t, Counting)
    case FailsafeWrite(t, fails) => FailsafeDone(s, t, fails)
    case CountWrite(t, fails) => if fails then Goto(s, t, Flagging) else Goto(Counted(s, t), t, Publishing)
    case FlagWrite(t, fails) =>
      if fails then Goto(Lose(s, t), t, Publishing)
      else Goto(s.(db := s.db.(needsRecovery := true)), t, Publishing)
    case Publish(t) => Goto(s.(db := s.db.(attempts := s.db.attempts + [t])), t, Over)
    case SeeStuck(c, t) => s.(clearings := s.clearings[c := Clearing(t, false)])
    case FailStuck(c) => Cleared(s, c)
    case SeeFlag(r) => s.(recoveries := s.recoveries[r := Due])
    case ReadCount(r) => s.(recoveries := s.recoveries[r := Read(DoneTurns(s.db))])
    case WriteCount(r) => Recovered(s, r)
  }

  function Run(s: System, steps: seq<Step>): System
    decreases |steps|
  {
    if steps == [] then s else Run(Next(s, steps[0]), steps[1..])
  }

  // ------------------------------------------- one dispatch from start to end

  /** Which writes of one dispatch fail, if they are reached. */
  datatype Faults = Faults(first: bool, moderate: bool, failsafe: bool, count: bool, flag: bool)

  /** The steps of a dispatch in program order; those not reached do nothing. */
  function DispatchSteps(t: Turn, outcome: Status, hasNarrative: bool, f: Faults): seq<Step> {
    [FirstWrite(t, outcome, hasNarrative, f.first), ModerateWrite(t, f.moderate),
     FailsafeWrite(t, f.failsafe), CountWrite(t, f.count), FlagWrite(t, f.flag), Publish(t)]
  }

  function After(s: System, t: Turn, outcome: Status, hasNarrative: bool, f: Faults): System {
    Next(Next(Next(Next(Next(Next(s, FirstWrite(t, outcome, hasNarrative, f.first)),
      ModerateWrite(t, f.moderate)), FailsafeWrite(t, f.failsafe)), CountWrite(t, f.count)),
      FlagWrite(t, f.flag)), Publish(t))
  }

  lemma {:induction false} RunDispatch(s: System, t: Turn, outcome: Status, hasNarrative: bool, f: Faults)
    ensures Run(s, DispatchSteps(t, outcome, hasNarrative, f)) == After(s, t, outcome, hasNarrative, f)
  {
    var steps := DispatchSteps(t, outcome, hasNarrative, f);
    var s1 := Next(s, steps[0]);
    var s2 := Next(s1, steps[1]);
    var s3 := Next(s2, steps[2]);
    var s4 := Next(s3, steps[3]);
    var s5 := Next(s4, steps[4]);
    assert steps[1..][1..] == steps[2..] && steps[2..][1..] == steps[3..] && steps[3..][1..] == steps[4..];
    assert steps[4..][1..] == steps[5..] && steps[5..][1..] == [];
    assert Run(s5, steps[5..]) == Next(s5, steps[5]);
    assert Run(s4, steps[4..]) == Run(s5, steps[5..]);
    assert Run(s3, steps[3..]) == Run(s4, steps[4..]);
    assert Run(s2, steps[2..]) == Run(s3, steps[3..]);
    assert Run(s1, steps[1..]) == Run(s2, steps[2..]);
  }

  lemma SetTwice(db: Db, t: Turn, a: Status, b: Status)
    ensures SetStatus(SetStatus(db, t, a), t, b) == SetStatus(db, t, b)
  {
    if t in db.turns {
      assert db.turns[t := a][t := b] == db.turns[t := b];
    }
  }

  /** The turn's row after the first write, the moderation write and the failsafe, and whether
      the turn counts as persisted. */
  function Persist(db: Db, t: Turn, outcome: Status, hasNarrative: bool, f: Faults): (Db, bool) {
    var good := IsDone(outcome) && hasNarrative;
    var stuck := if f.failsafe then db else SetStatus(db, t, Failed);
    if f.first then (stuck, false)
    else if !good then (SetStatus(db, t, Failed), false)
    else if outcome == Complete then (SetStatus(db, t, Complete), true)
    else if !f.moderate then (SetStatus(db, t, Moderated), true)
    else (SetStatus(db, t, if f.failsafe then Complete else Failed), false)
  }

  function Account(db: Db, f: Faults): Db {
    if !f.count then db.(turnCount := db.turnCount + 1)
    else if !f.flag then db.(needsRecovery := true)
    else db
  }

  function Dispatched(db: Db, t: Turn, outcome: Status, hasNarrative: bool, f: Faults): Db {
    var (db1, persisted) := Persist(db, t, outcome, hasNarrative, f);
    var db2 := if persisted then Account(db1, f) else db1;
    db2.(attempts := db2.attempts + [t])
  }

  lemma PersistSteps(s: System, t: Turn, outcome: Status, hasNarrative: bool, f: Faults)
    requires At(s, t, First)
    ensures var s3 := Next(Next(Next(s, FirstWrite(t, outcome, hasNarrative, f.first)),
                     ModerateWrite(t, f.moderate)), FailsafeWrite(t, f.failsafe));
      var (db, persisted) := Persist(s.db, t, outcome, hasNarrative, f);
      s3.db == db && At(s3, t, if persisted then Counting else Publishing)
  {
    var s1 := Next(s, FirstWrite(t, outcome, hasNarrative, f.first));
    var s2 := Next(s1, ModerateWrite(t, f.moderate));
    if f.first {
      assert s2 == s1 && At(s2, t, Failsafe) && s2.db == s.db;
    } else if IsDone(outcome) && hasNarrative {
      assert s1.db == SetStatus(s.db, t, Complete);
    } else {
      assert s2 == s1 && At(s2, t, Publishing);
    }
  }

  lemma AccountSteps(s: System, t: Turn, f: Faults, persisted: bool)
    requires At(s, t, if persisted then Counting else Publishing)
    ensures var s6 := Next(Next(Next(s, CountWrite(t, f.count)), FlagWrite(t, f.flag)), Publish(t));
      var db := if persisted then Account(s.db, f) else s.db;
      s6.db == db.(attempts := db.attempts + [t]) && At(s6, t, Over)
  {
    var s4 := Next(s, CountWrite(t, f.count));
    var s5 := Next(s4, FlagWrite(t, f.flag));
    assert At(s5, t, Publishing);
  }

  /** The steps of a dispatch, run one after the other, come to this. */
  lemma DispatchInOneGo(s: System, t: Turn, outcome: Status, hasNarrative: bool, f: Faults)
    requires At(s, t, First)
    ensures var s' := Run(s, DispatchSteps(t, outcome, hasNarrative, f));
      s'.db == Dispatched(s.db, t, outcome, hasNarrative, f) && At(s', t, Over)
  {
    RunDispatch(s, t, outcome, hasNarrative, f);
    PersistSteps(s, t, outcome, hasNarrative, f);
    var s3 := Next(Next(Next(s, FirstWrite(t, outcome, hasNarrative, f.first)),
                   ModerateWrite(t, f.moderate)), FailsafeWrite(t, f.failsafe));
    AccountSteps(s3, t, f, Persist(s.db, t, outcome, hasNarrative, f).1);
  }

  /** A game in which nothing but the dispatch of `t` is going on. */
  function Alone(db: Db, t: Turn): System {
    System(db, map[t := First], map[], map[], Books({}, 0, {}, {}))
  }

  /** A game in which nothing but one recovery is going on. */
  function RecoveredAlone(db: Db): Db {
    var s := System(db, map[], map[], map[], Books({}, 0, {}, {}));
    Next(Next(Next(s, SeeFlag(0)), ReadCount(0)), WriteCount(0)).db
  }

  lemma RecoverInOneGo(db: Db)
    ensures RecoveredAlone(db)
      == if db.needsRecovery then db.(turnCount := |DoneTurns(db)|, needsRecovery := false) else db
  {
    var s := System(db, map[], map[], map[], Books({}, 0, {}, {}));
    var s1 := Next(s, SeeFlag(0));
    assert db.needsRecovery ==> s1.recoveries == map[0 := Due] && s1.db == db;
    var s2 := Next(s1, ReadCount(0));
    assert db.needsRecovery ==> s2.recoveries == map[0 := Read(DoneTurns(db))] && s2.db == db;
  }

  class Game {
    var turns: map<Turn, Status>
    var turnCount: int
    var needsRecovery: bool
    var attempts: seq<Turn>

    function Contents(): Db
      reads this
    {
      Db(turns, turnCount, needsRecovery, attempts)
    }

    constructor ()
      ensures Contents() == INIT.db
    {
      turns, turnCount, needsRecovery, attempts := map[], 0, false, [];
    }

    /** A write to one turn's row; it fails without effect. */
    method Write(t: Turn, s: Status, fails: bool) returns (ok: bool)
      modifies this
      ensures ok == !fails
      ensures Contents() == if fails then old(Contents()) else SetStatus(old(Contents()), t, s)
    {
      if !fails && t in turns {
        turns := turns[t := s];
      }
      return !fails;
    }

    /** "Persist turn result via repository", with its two `except` blocks. */
    method PersistTurn(t: Turn, outcome: Status, hasNarrative: bool, f: Faults) returns (turnPersisted: bool)
      modifies this
      ensures (Contents(), turnPersisted) == Persist(old(Contents()), t, outcome, hasNarrative, f)
      ensures turnPersisted <==> hasNarrative && !f.first && (outcome == Complete || (outcome == Moderated && !f.moderate))
      ensures t in turns && turnPersisted ==> turns[t] == outcome
      ensures turns.Keys == old(turns).Keys && turnCount == old(turnCount) && needsRecovery == old(needsRecovery)
    {
      var ok;
      turnPersisted := false;
      if (outcome == Complete || outcome == Moderated) && hasNarrative {
        ok := Write(t, Complete, f.first);
        if ok && outcome == Moderated {
          SetTwice(old(Contents()), t, Complete, Moderated);
          SetTwice(old(Contents()), t, Complete, Failed);
          ok := Write(t, Moderated, f.moderate);
        }
        turnPersisted := ok;
      } else {
        ok := Write(t, Failed, f.first);
      }
      if !ok {
        var _ := Write(t, Failed, f.failsafe);
      }
    }

    /** The part of `dispatch_pipeline` after the pipeline has run. */
    method Dispatch(t: Turn, outcome: Status, hasNarrative: bool, f: Faults)
      modifies this
      ensures Contents() ==
        Run(Alone(old(Contents()), t), DispatchSteps(t, outcome, hasNarrative, f)).db
      ensures var counts := hasNarrative && !f.first && (outcome == Complete || (outcome == Moderated && !f.moderate));
        && turnCount == old(turnCount) + (if counts && !f.count then 1 else 0)
        && (needsRecovery <==> old(needsRecovery) || (counts && f.count && !f.flag))
        && attempts == old(attempts) + [t]
    {
      DispatchInOneGo(Alone(Contents(), t), t, outcome, hasNarrative, f);
      var turnPersisted := PersistTurn(t, outcome, hasNarrative, f);
      if turnPersisted {
        if !f.count {
          turnCount := turnCount + 1;
        } else if !f.flag {
          needsRecovery := true;
        }
      }
      attempts := attempts + [t];
    }

    /** `_get_turn_count`: a row at a time. */
    method ReadFinished() returns (n: nat)
      ensures n == |DoneTurns(Contents())|
      ensures n == |set t | t in turns && (turns[t] == Complete || turns[t] == Moderated)|
    {
      n := 0;
      var rest := turns.Keys;
      ghost var seen: set<Turn> := {};
      while rest != {}
        invariant rest <= turns.Keys
        invariant seen == set t | t in turns && t !in rest && IsDone(turns[t])
        invariant n == |seen|
        decreases rest
      {
        var t :| t in rest;
        rest := rest - {t};
        if IsDone(turns[t]) {
          seen, n := seen + {t}, n + 1;
        }
      }
      assert seen == DoneTurns(Contents()) == set t | t in turns && (turns[t] == Complete || turns[t] == Moderated);
    }

    /** A recovery that nothing interrupts. */
    method Recover()
      modifies this
      ensures Contents() == RecoveredAlone(old(Contents()))
      ensures turns == old(turns) && attempts == old(attempts) && !needsRecovery
      ensures turnCount == if old(needsRecovery)
        then |set t | t in turns && (turns[t] == Complete || turns[t] == Moderated)| else old(turnCount)
    {
      if needsRecovery {
        var n := ReadFinished();
        RecoverInOneGo(Contents());
        turnCount, needsRecovery := n, false;
      }
    }
  }

  /** Exactly which outcomes, narratives and failing writes leave a turn at each status after a
      dispatch that nothing interrupts, and when that moves the count or asks for recovery. */
  lemma DispatchStores(s: System, t: Turn, outcome: Status, hasNarrative: bool, f: Faults)
    requires At(s, t, First) && t in s.db.turns && s.db.turns[t] == Processing
    ensures var s' := Run(s, DispatchSteps(t, outcome, hasNarrative, f));
      var whole := hasNarrative && !f.first;
      var counts := whole && (outcome == Complete || (outcome == Moderated && !f.moderate));
      && t in s'.db.turns
      && (s'.db.turns[t] == Complete <==>
           whole && (outcome == Complete || (outcome == Moderated && f.moderate && f.failsafe)))
      && (s'.db.turns[t] == Moderated <==> whole && outcome == Moderated && !f.moderate)
      && (s'.db.turns[t] == Processing <==> f.first && f.failsafe)
      && (s'.db.turns[t] == Failed <==>
           || (f.first && !f.failsafe)
           || (!f.first && (!hasNarrative || outcome == Failed || outcome == Processing))
           || (whole && outcome == Moderated && f.moderate && !f.failsafe))
      && (forall u | u != t :: (u in s'.db.turns <==> u in s.db.turns) && (u in s.db.turns ==> s'.db.turns[u] == s.db.turns[u]))
      && s'.db.turnCount == s.db.turnCount + (if counts && !f.count then 1 else 0)
      && (s'.db.needsRecovery <==> s.db.needsRecovery || (counts && f.count && !f.flag))
      && s'.db.attempts == s.db.attempts + [t]
  {
    DispatchInOneGo(s, t, outcome, hasNarrative, f);
  }

  /** A dispatch that nothing interrupts leaves its turn in `processing` exactly if its first
      write and the failsafe both fail, and attempts one publication. */
  lemma DispatchLeavesProcessing(s: System, t: Turn, outcome: Status, hasNarrative: bool, f: Faults)
    requires At(s, t, First) && t in s.db.turns && s.db.turns[t] == Processing
    ensures var s' := Run(s, DispatchSteps(t, outcome, hasNarrative, f));
      && t in s'.db.turns
      && (s'.db.turns[t] == Processing <==> f.first && f.failsafe)
      && s'.db.attempts == s.db.attempts + [t] && At(s', t, Over)
  {
    DispatchInOneGo(s, t, outcome, hasNarrative, f);
  }
}
