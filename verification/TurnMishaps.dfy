/** Runs in which a recovery or a clearing writes what is no longer so. */
module TurnMishaps {
  import opened TurnDispatch
  import opened TurnAccounting

  /** Turn 0 is stored as complete and its count write failed, so recovery is due; a recovery
      has seen the flag. */
  const ONE_OWED := System(
    Db(map[0 := Complete], 0, true, []), map[0 := Publishing], map[0 := Due], map[], Books({}, 0, {}, {}))

  const FAILED_COUNT := [Submit(0), FirstWrite(0, Complete, true, false), CountWrite(0, true), FlagWrite(0, false)]

  lemma FailedCountLeavesOneOwed(more: seq<Step>)
    ensures Run(INIT, FAILED_COUNT + ([SeeFlag(0)] + more)) == Run(ONE_OWED, more)
  {
    var a := FAILED_COUNT;
    var s1 := Next(INIT, a[0]);
    var s2 := Next(s1, a[1]);
    var s3 := Next(s2, a[2]);
    assert s1.db == Db(map[0 := Processing], 0, false, []) && s1.phases == map[0 := First];
    assert s2.db == Db(map[0 := Complete], 0, false, []) && s2.phases == map[0 := Counting];
    assert s3.db == s2.db && s3.phases == map[0 := Flagging];
    assert Next(Next(s3, a[3]), SeeFlag(0)) == ONE_OWED;
    RunOf4(INIT, a[0], a[1], a[2], a[3], [SeeFlag(0)] + more);
    RunStep(Next(s3, a[3]), SeeFlag(0), more, [SeeFlag(0)] + more);
    assert [a[0], a[1], a[2], a[3]] == a;
  }

  /** Both turns finished; the recovery has counted as many as it found. */
  function TwoDone(count: int, flag: bool, phase: Phase, recovery: Recovery, books: Books): System {
    System(Db(map[0 := Complete, 1 := Complete], count, flag, []), map[0 := Publishing, 1 := phase],
      map[0 := recovery], map[], books)
  }

  lemma DoneOfTwo(count: int, flag: bool)
    ensures DoneTurns(Db(map[0 := Complete, 1 := Complete], count, flag, [])) == {0, 1}
  {
  }

  lemma SecondTurnFinishes()
    ensures Next(Next(ONE_OWED, Submit(1)), FirstWrite(1, Complete, true, false))
      == TwoDone(0, true, Counting, Due, Books({}, 0, {}, {}))
  {
  }

  lemma RecoveryCountsBoth()
    ensures var s := Next(Next(TwoDone(0, true, Counting, Due, Books({}, 0, {}, {})), ReadCount(0)), WriteCount(0));
      s.db == Db(map[0 := Complete, 1 := Complete], 2, false, []) && At(s, 1, Counting)
  {
    DoneOfTwo(0, true);
    var s := Next(TwoDone(0, true, Counting, Due, Books({}, 0, {}, {})), ReadCount(0));
    assert s == TwoDone(0, true, Counting, Read({0, 1}), Books({}, 0, {}, {}));
  }

  const UNQUIET_RECOVERY := [Submit(1), FirstWrite(1, Complete, true, false), ReadCount(0), WriteCount(0)]

  /** A recovery that counts a finished turn still waiting for its own count write makes the
      count take that turn in twice. */
  lemma UnquietRecoveryOvercounts()
    ensures var s := Run(INIT, FAILED_COUNT + ([SeeFlag(0)] + (UNQUIET_RECOVERY + [CountWrite(1, false)])));
      s.db.turnCount == 3 && |DoneTurns(s.db)| == 2
  {
    var b := UNQUIET_RECOVERY;
    SecondTurnFinishes();
    RecoveryCountsBoth();
    var s4 := Next(Next(Next(Next(ONE_OWED, b[0]), b[1]), b[2]), b[3]);
    DoneOfTwo(3, false);
    RunOf4(ONE_OWED, b[0], b[1], b[2], b[3], [CountWrite(1, false)]);
    assert [b[0], b[1], b[2], b[3]] == b;
    RunStep(s4, CountWrite(1, false), [], [CountWrite(1, false)]);
    FailedCountLeavesOneOwed(b + [CountWrite(1, false)]);
  }

  lemma SecondTurnOvertakes()
    ensures Next(Next(Next(ONE_OWED, Submit(1)), ReadCount(0)), FirstWrite(1, Complete, true, false))
      == TwoDone(0, true, Counting, Read({0}), Books({}, 0, {}, {}))
  {
    var s1 := Next(ONE_OWED, Submit(1));
    assert s1.db.turns == map[0 := Complete, 1 := Processing] && s1.phases == map[0 := Publishing, 1 := First];
    assert DoneTurns(s1.db) == {0};
  }

  const OVERTAKEN_RECOVERY := [Submit(1), ReadCount(0), FirstWrite(1, Complete, true, false), CountWrite(1, false)]

  /** A turn that finishes and is counted between a recovery's query and its update is written
      over: the count stays one short with no recovery due and no write lost, although the
      states at the query and at the update are both quiet. */
  lemma OvertakenRecoveryUndercounts()
    ensures var s := Run(INIT, FAILED_COUNT + ([SeeFlag(0)] + (OVERTAKEN_RECOVERY + [WriteCount(0)])));
      && s.db.turnCount == 1 && |DoneTurns(s.db)| == 2
      && Quiet(s) && !s.db.needsRecovery && s.books.lost == {} && s.books.overlooked == {1}
  {
    var b := OVERTAKEN_RECOVERY;
    SecondTurnOvertakes();
    var s3 := Next(Next(Next(ONE_OWED, b[0]), b[1]), b[2]);
    var s4 := Next(s3, b[3]);
    assert s4 == TwoDone(1, true, Publishing, Read({0}), Books({1}, 0, {}, {}));
    OvertakenUpdate(s4);
    RunOf4(ONE_OWED, b[0], b[1], b[2], b[3], [WriteCount(0)]);
    assert [b[0], b[1], b[2], b[3]] == b;
    RunStep(s4, WriteCount(0), [], [WriteCount(0)]);
    FailedCountLeavesOneOwed(b + [WriteCount(0)]);
  }

  lemma OvertakenUpdate(s: System)
    requires s == TwoDone(1, true, Publishing, Read({0}), Books({1}, 0, {}, {}))
    ensures var s' := Next(s, WriteCount(0));
      && s'.db == Db(map[0 := Complete, 1 := Complete], 1, false, []) && |DoneTurns(s'.db)| == 2
      && Quiet(s') && s'.books == Books({0}, 0, {}, {1})
  {
    DoneOfTwo(1, true);
    DoneOfTwo(1, false);
    var s' := Next(s, WriteCount(0));
    assert SettledDone(s) == {0, 1};
    assert s'.books.counted == {0} && s'.books.overlooked == {1};
  }

  const LATE_CLEARING := [Submit(0), SeeStuck(0, 0), FirstWrite(0, Complete, true, false), CountWrite(0, false)]

  /** A turn that finishes between the query for stuck turns and the update is counted and then
      failed: the count exceeds the finished turns although no recovery takes place at all. */
  lemma LateClearingOvercounts()
    ensures var s := Run(INIT, LATE_CLEARING + [FailStuck(0)]);
      s.db.turnCount == 1 && DoneTurns(s.db) == {}
  {
    var b := LATE_CLEARING;
    var s2 := Next(Next(INIT, b[0]), b[1]);
    assert s2.db == Db(map[0 := Processing], 0, false, []) && s2.clearings == map[0 := Clearing(0, false)];
    var s4 := Next(Next(s2, b[2]), b[3]);
    assert s4.db == Db(map[0 := Complete], 1, false, []) && s4.clearings == s2.clearings;
    RunOf4(INIT, b[0], b[1], b[2], b[3], [FailStuck(0)]);
    assert [b[0], b[1], b[2], b[3]] == b;
    RunStep(s4, FailStuck(0), [], [FailStuck(0)]);
  }

  lemma RunOf4(s: System, a: Step, b: Step, c: Step, d: Step, rest: seq<Step>)
    ensures Run(s, [a, b, c, d] + rest) == Run(Next(Next(Next(Next(s, a), b), c), d), rest)
  {
    RunStep(s, a, [b, c, d] + rest, [a, b, c, d] + rest);
    RunStep(Next(s, a), b, [c, d] + rest, [b, c, d] + rest);
    RunStep(Next(Next(s, a), b), c, [d] + rest, [c, d] + rest);
    RunStep(Next(Next(Next(s, a), b), c), d, rest, [d] + rest);
  }

  lemma RunStep(s: System, a: Step, rest: seq<Step>, all: seq<Step>)
    requires all == [a] + rest
    ensures Run(s, all) == Run(Next(s, a), rest)
  {
    assert all[1..] == rest;
  }
}
