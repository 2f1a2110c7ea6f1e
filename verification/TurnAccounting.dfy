/** The turn count against the turns stored as finished, over any run. */
module TurnAccounting {
  import opened TurnDispatch

  /** No dispatch is between its first write and its publication. */
  predicate Quiet(s: System) {
    forall t <- s.phases :: s.phases[t] in {First, Publishing, Over}
  }

  /** What a turn's row and its place in the books look like at each phase. */
  predicate TurnInv(s: System, t: Turn)
    requires t in s.phases
  {
    var b := s.books;
    && t in s.db.turns
    && (t in b.lost || t in b.overlooked ==> t !in b.counted && IsDone(s.db.turns[t]) && Settled(s, t))
    && (s.phases[t] == First ==> !IsDone(s.db.turns[t]))
    && (Settled(s, t) && IsDone(s.db.turns[t]) ==>
         t in b.counted || t in b.lost || t in b.overlooked || s.db.needsRecovery)
  }

  ghost predicate Inv(s: System) {
    && (forall t <- s.phases :: TurnInv(s, t))
    && (forall t <- s.db.turns :: t in s.phases)
    && (forall t <- s.books.lost :: t in s.phases && t !in s.books.overlooked)
    && (forall t <- s.books.overlooked :: t in s.phases)
    && s.db.turnCount == |s.books.counted| + s.books.doubled
  }

  lemma SubmitKeepsInv(s: System, t: Turn)
    requires Inv(s)
    ensures Inv(Next(s, Submit(t)))
  {
  }

  lemma FirstWriteKeepsInv(s: System, step: Step)
    requires Inv(s) && step.FirstWrite?
    ensures Inv(Next(s, step))
  {
    var s' := Next(s, step);
    if Enabled(s, step) {
      assert TurnInv(s, step.turn);
      forall u | u in s'.phases ensures TurnInv(s', u) {
        assert u != step.turn ==> TurnInv(s, u);
      }
    }
  }

  lemma ModerateKeepsInv(s: System, t: Turn, fails: bool)
    requires Inv(s)
    ensures Inv(Next(s, ModerateWrite(t, fails)))
  {
    var s' := Next(s, ModerateWrite(t, fails));
    if At(s, t, Moderating) {
      assert TurnInv(s, t);
      forall u | u in s'.phases ensures TurnInv(s', u) {
        assert u != t ==> TurnInv(s, u);
      }
    }
  }

  lemma FailsafeKeepsInv(s: System, t: Turn, fails: bool)
    requires Inv(s)
    ensures Inv(Next(s, FailsafeWrite(t, fails)))
  {
    var s' := Next(s, FailsafeWrite(t, fails));
    if At(s, t, Failsafe) {
      assert TurnInv(s, t);
      forall u | u in s'.phases ensures TurnInv(s', u) {
        assert u != t ==> TurnInv(s, u);
      }
    }
  }

  lemma CountKeepsInv(s: System, t: Turn, fails: bool)
    requires Inv(s)
    ensures Inv(Next(s, CountWrite(t, fails)))
  {
    var s' := Next(s, CountWrite(t, fails));
    if At(s, t, Counting) {
      assert TurnInv(s, t);
      assert t in s.books.counted ==> s.books.counted + {t} == s.books.counted;
      forall u | u in s'.phases ensures TurnInv(s', u) {
        assert u != t ==> TurnInv(s, u);
      }
    }
  }

  lemma FlagKeepsInv(s: System, t: Turn, fails: bool)
    requires Inv(s)
    ensures Inv(Next(s, FlagWrite(t, fails)))
  {
    var s' := Next(s, FlagWrite(t, fails));
    if At(s, t, Flagging) {
      assert TurnInv(s, t);
      forall u | u in s'.phases ensures TurnInv(s', u) {
        assert u != t ==> TurnInv(s, u);
      }
    }
  }

  lemma ClearKeepsInv(s: System, c: nat)
    requires Inv(s)
    ensures Inv(Next(s, FailStuck(c)))
  {
    var s' := Next(s, FailStuck(c));
    if Enabled(s, FailStuck(c)) {
      forall u | u in s'.phases ensures TurnInv(s', u) {
        assert TurnInv(s, u);
      }
    }
  }

  lemma RecoverKeepsInv(s: System, r: nat)
    requires Inv(s)
    ensures Inv(Next(s, WriteCount(r)))
  {
    var s' := Next(s, WriteCount(r));
    if Enabled(s, WriteCount(r)) {
      forall u | u in s'.phases ensures TurnInv(s', u) {
        assert TurnInv(s, u);
      }
    }
  }

  lemma StepKeepsInv(s: System, step: Step)
    requires Inv(s)
    ensures Inv(Next(s, step))
  {
    match step
    case Submit(t) => SubmitKeepsInv(s, t);
    case FirstWrite(_, _, _, _) => FirstWriteKeepsInv(s, step);
    case ModerateWrite(t, fails) => ModerateKeepsInv(s, t, fails);
    case FailsafeWrite(t, fails) => FailsafeKeepsInv(s, t, fails);
    case CountWrite(t, fails) => CountKeepsInv(s, t, fails);
    case FlagWrite(t, fails) => FlagKeepsInv(s, t, fails);
    case SeeStuck(_, _) =>
    case FailStuck(c) => ClearKeepsInv(s, c);
    case SeeFlag(_) =>
    case ReadCount(_) =>
    case WriteCount(r) => RecoverKeepsInv(s, r);
    case Publish(_) =>
  }

  lemma {:induction false} RunKeepsInv(s: System, steps: seq<Step>)
    requires Inv(s)
    ensures Inv(Run(s, steps))
    decreases |steps|
  {
    if steps != [] {
      StepKeepsInv(s, steps[0]);
      RunKeepsInv(Next(s, steps[0]), steps[1..]);
    }
  }

  /** The books of every run, with any failing writes and with recoveries and clearings whose
      updates come at any moment after their queries. In every state the count exceeds the
      finished turns exactly as far as turns counted twice or counted without being finished
      outnumber the finished turns not counted. In a quiet state that owes no recovery it
      differs from them by just the turns lost, overlooked, doubled, and counted but not
      finished, so that it is right if and only if these balance. */
  lemma TurnCountBalances(steps: seq<Step>)
    ensures var s := Run(INIT, steps);
      var b, done := s.books, DoneTurns(s.db);
      && (s.db.turnCount <= |done| <==> b.doubled + |b.counted - done| <= |done - b.counted|)
      && (Quiet(s) && !s.db.needsRecovery ==>
           && done - b.counted == b.lost + b.overlooked && b.lost !! b.overlooked
           && s.db.turnCount + |b.lost| + |b.overlooked| == |done| + b.doubled + |b.counted - done|
           && (s.db.turnCount == |done| <==> b.doubled + |b.counted - done| == |b.lost| + |b.overlooked|))
  {
    RunKeepsInv(INIT, steps);
    var s := Run(INIT, steps);
    Overlap(DoneTurns(s.db), s.books.counted);
    if Quiet(s) && !s.db.needsRecovery {
      AllDoneAreBooked(s);
    }
  }

  lemma Overlap(done: set<Turn>, counted: set<Turn>)
    ensures |counted| + |done - counted| == |done| + |counted - done|
  {
    assert counted == counted * done + (counted - done);
    assert done == counted * done + (done - counted);
  }

  lemma AllDoneAreBooked(s: System)
    requires Inv(s) && Quiet(s) && !s.db.needsRecovery
    ensures var b := s.books;
      && DoneTurns(s.db) - b.counted == b.lost + b.overlooked && b.lost !! b.overlooked
      && |DoneTurns(s.db) - b.counted| == |b.lost| + |b.overlooked|
  {
    var b := s.books;
    forall t | t in DoneTurns(s.db) - b.counted ensures t in b.lost + b.overlooked {
      assert TurnInv(s, t);
    }
    forall t | t in b.lost + b.overlooked ensures t in DoneTurns(s.db) - b.counted {
      assert TurnInv(s, t);
    }
  }

  // ------------------------------------------- when updates find what their queries found

  lemma {:induction false} RunConcat(s: System, a: seq<Step>, b: seq<Step>)
    ensures Run(s, a + b) == Run(Run(s, a), b)
    decreases |a|
  {
    if a == [] {
      assert a + b == b;
    } else {
      assert (a + b)[1..] == a[1..] + b;
      RunConcat(Next(s, a[0]), a[1..], b);
    }
  }

  lemma RunOneMore(steps: seq<Step>)
    requires steps != []
    ensures Run(INIT, steps) == Next(Run(INIT, steps[..|steps| - 1]), steps[|steps| - 1])
  {
    var last := [steps[|steps| - 1]];
    assert steps == steps[..|steps| - 1] + last;
    RunConcat(INIT, steps[..|steps| - 1], last);
    assert last[1..] == [];
    assert Run(Run(INIT, steps[..|steps| - 1]), last) == Run(Next(Run(INIT, steps[..|steps| - 1]), last[0]), []);
  }

  /** Finished turns still between their own writes. */
  function UnderWay(s: System): set<Turn> {
    DoneTurns(s.db) - SettledDone(s)
  }

  /** The step settles a finished turn, or unsettles one by failing it. */
  function Settles(s: System, step: Step): int {
    if !Enabled(s, step) then 0 else
    match step
    case CountWrite(t, fails) => if !fails && t in DoneTurns(s.db) then 1 else 0
    case FlagWrite(t, _) => if t in DoneTurns(s.db) then 1 else 0
    case FailsafeWrite(t, fails) => if fails && t in DoneTurns(s.db) then 1 else 0
    case FailStuck(c) => if s.clearings[c].turn in SettledDone(s) then -1 else 0
    case _ => 0
  }

  function Tally(s: System, steps: seq<Step>): int
    decreases |steps|
  {
    if steps == [] then 0 else Settles(s, steps[0]) + Tally(Next(s, steps[0]), steps[1..])
  }

  lemma WriteSettles(s: System, step: Step)
    requires step.Submit? || step.FirstWrite? || step.ModerateWrite? || step.Publish?
    ensures SettledDone(Next(s, step)) == SettledDone(s)
  {
  }

  lemma FailsafeSettles(s: System, t: Turn, fails: bool)
    ensures SettledDone(Next(s, FailsafeWrite(t, fails)))
      == SettledDone(s) + if Settles(s, FailsafeWrite(t, fails)) == 1 then {t} else {}
  {
  }

  lemma CounterSettles(s: System, step: Step)
    requires step.CountWrite? || step.FlagWrite?
    ensures SettledDone(Next(s, step)) == SettledDone(s) + if Settles(s, step) == 1 then {step.turn} else {}
  {
  }

  lemma ClearingSettles(s: System, c: nat)
    ensures SettledDone(Next(s, FailStuck(c)))
      == SettledDone(s) - if Settles(s, FailStuck(c)) == -1 then {s.clearings[c].turn} else {}
  {
    if Enabled(s, FailStuck(c)) {
      var t := s.clearings[c].turn;
      assert DoneTurns(Next(s, FailStuck(c)).db) == DoneTurns(s.db) - {t};
    }
  }

  lemma RequestSettles(s: System, step: Step)
    requires step.SeeStuck? || step.SeeFlag? || step.ReadCount? || step.WriteCount?
    ensures SettledDone(Next(s, step)) == SettledDone(s)
  {
  }

  lemma NotYetSettled(s: System, step: Step)
    requires Settles(s, step) == 1
    ensures step.CountWrite? || step.FlagWrite? || step.FailsafeWrite?
    ensures step.turn !in SettledDone(s)
  {
  }

  lemma StepSettles(s: System, step: Step)
    ensures |SettledDone(Next(s, step))| == |SettledDone(s)| + Settles(s, step)
  {
    if Settles(s, step) == 1 {
      NotYetSettled(s, step);
    }
    match step
    case FailsafeWrite(t, fails) => FailsafeSettles(s, t, fails);
    case CountWrite(_, _) => CounterSettles(s, step);
    case FlagWrite(_, _) => CounterSettles(s, step);
    case FailStuck(c) => ClearingSettles(s, c);
    case SeeStuck(_, _) => RequestSettles(s, step);
    case SeeFlag(_) => RequestSettles(s, step);
    case ReadCount(_) => RequestSettles(s, step);
    case WriteCount(_) => RequestSettles(s, step);
    case _ => WriteSettles(s, step);
  }

  lemma {:induction false} TallyIsChange(s: System, steps: seq<Step>)
    ensures |SettledDone(Run(s, steps))| == |SettledDone(s)| + Tally(s, steps)
    decreases |steps|
  {
    if steps != [] {
      StepSettles(s, steps[0]);
      TallyIsChange(Next(s, steps[0]), steps[1..]);
    }
  }

  /** The recovery's query is step `j` of the run. */
  predicate Queries(steps: seq<Step>, j: int, r: nat) {
    0 <= j < |steps| && steps[j] == ReadCount(r) && Enabled(Run(INIT, steps[..j]), steps[j])
  }

  /** After `steps`, the next step writes what is still so. For a recovery: between its query
      and its update, as many turns have settled as finished, less those failed afterwards, as
      the query found finished but still under way. For a clearing: the turn is not finished,
      or is still before its count. */
  ghost predicate Clean(steps: seq<Step>, step: Step) {
    var s := Run(INIT, steps);
    Enabled(s, step) ==>
    match step
    case WriteCount(r) =>
      forall j :: Queries(steps, j, r) ==>
        |UnderWay(Run(INIT, steps[..j]))| == Tally(Run(INIT, steps[..j]), steps[j..])
    case FailStuck(c) =>
      var t := s.clearings[c].turn;
      t in DoneTurns(s.db) ==> t in s.phases && s.phases[t] in {Moderating, Failsafe}
    case _ => true
  }

  ghost predicate CleanRun(steps: seq<Step>) {
    forall i :: 0 <= i < |steps| ==> Clean(steps[..i], steps[i])
  }

  /** What that comes to in the state that the update finds. */
  predicate Fits(s: System, step: Step) {
    Enabled(s, step) ==>
    match step
    case WriteCount(r) => |s.recoveries[r].finished| == |SettledDone(s)|
    case FailStuck(c) =>
      var t := s.clearings[c].turn;
      t in DoneTurns(s.db) ==> t in s.phases && s.phases[t] in {Moderating, Failsafe}
    case _ => true
  }

  lemma {:induction false} ReadStays(s: System, steps: seq<Step>, r: nat)
    requires r in s.recoveries && !s.recoveries[r].Due?
    ensures var s' := Run(s, steps);
      r in s'.recoveries && (s'.recoveries[r] == s.recoveries[r] || s'.recoveries[r].Written?)
    decreases |steps|
  {
    if steps != [] {
      ReadStays(Next(s, steps[0]), steps[1..], r);
    }
  }

  lemma QueryTells(steps: seq<Step>, j: int, r: nat)
    requires Queries(steps, j, r) && Enabled(Run(INIT, steps), WriteCount(r))
    ensures Run(INIT, steps).recoveries[r] == Read(DoneTurns(Run(INIT, steps[..j]).db))
  {
    var s := Run(INIT, steps[..j]);
    SplitRun(steps, j);
    assert Run(s, steps[j..]) == Run(Next(s, steps[j]), steps[j..][1..]);
    ReadStays(Next(s, steps[j]), steps[j..][1..], r);
  }

  lemma {:induction false} SomeQuery(steps: seq<Step>, r: nat) returns (j: int)
    requires r in Run(INIT, steps).recoveries && Run(INIT, steps).recoveries[r].Read?
    ensures Queries(steps, j, r)
    decreases |steps|
  {
    RunOneMore(steps);
    var n := |steps| - 1;
    var s := Run(INIT, steps[..n]);
    if r in s.recoveries && s.recoveries[r].Read? {
      j := SomeQuery(steps[..n], r);
      assert steps[..n][..j] == steps[..j];
    } else {
      j := n;
    }
  }

  /** The condition on what happens between query and update is the condition on what the
      update finds. */
  lemma CleanIffFits(steps: seq<Step>, step: Step)
    ensures Clean(steps, step) <==> Fits(Run(INIT, steps), step)
  {
    var s := Run(INIT, steps);
    if step.WriteCount? && Enabled(s, step) {
      var r := step.recovery;
      forall j | Queries(steps, j, r)
        ensures |UnderWay(Run(INIT, steps[..j]))| == Tally(Run(INIT, steps[..j]), steps[j..])
          <==> |s.recoveries[r].finished| == |SettledDone(s)|
      {
        QueryTells(steps, j, r);
        TalliesFrom(steps, j);
      }
      var j := SomeQuery(steps, r);
    }
  }

  lemma DoneParts(s: System)
    ensures |DoneTurns(s.db)| == |SettledDone(s)| + |UnderWay(s)|
  {
    assert SettledDone(s) <= DoneTurns(s.db);
    assert DoneTurns(s.db) == SettledDone(s) + UnderWay(s);
  }

  lemma SplitRun(steps: seq<Step>, j: int)
    requires 0 <= j <= |steps|
    ensures Run(INIT, steps) == Run(Run(INIT, steps[..j]), steps[j..])
  {
    RunConcat(INIT, steps[..j], steps[j..]);
    assert steps[..j] + steps[j..] == steps;
  }

  lemma TalliesFrom(steps: seq<Step>, j: int)
    requires 0 <= j <= |steps|
    ensures var q := Run(INIT, steps[..j]);
      && |SettledDone(Run(INIT, steps))| == |SettledDone(q)| + Tally(q, steps[j..])
      && |DoneTurns(q.db)| == |SettledDone(q)| + |UnderWay(q)|
  {
    SplitRun(steps, j);
    TallyIsChange(Run(INIT, steps[..j]), steps[j..]);
    DoneParts(Run(INIT, steps[..j]));
  }

  // ------------------------------------------- what clean runs keep

  /** A settled turn the count has missed although neither write nor fallback was lost. */
  predicate Owed(s: System, t: Turn) {
    t in SettledDone(s) && t !in s.books.counted && t !in s.books.lost
  }

  /** Only settled turns that are finished are counted, none twice; none is overlooked; and
      recovery is due only when the count owes a turn. */
  ghost predicate Tidy(s: System) {
    && s.books.doubled == 0 && s.books.overlooked == {}
    && s.books.counted <= SettledDone(s)
    && CountingAreDone(s)
    && (s.db.needsRecovery ==> exists t :: Owed(s, t))
  }

  predicate CountingAreDone(s: System) {
    forall t <- s.phases :: s.phases[t] in {Counting, Flagging} ==> t in DoneTurns(s.db)
  }

  /** A finished turn that is settled stays so unless a clearing fails it. */
  lemma StaysFinished(s: System, step: Step, t: Turn)
    requires t in SettledDone(s) && Fits(s, step)
    ensures t in SettledDone(Next(s, step))
  {
    match step
    case FailsafeWrite(u, fails) => FailsafeSettles(s, u, fails);
    case CountWrite(_, _) => CounterSettles(s, step);
    case FlagWrite(_, _) => CounterSettles(s, step);
    case FailStuck(c) => ClearingSettles(s, c);
    case SeeStuck(_, _) => RequestSettles(s, step);
    case SeeFlag(_) => RequestSettles(s, step);
    case ReadCount(_) => RequestSettles(s, step);
    case WriteCount(_) => RequestSettles(s, step);
    case _ => WriteSettles(s, step);
  }

  lemma StillOwed(s: System, step: Step, t: Turn)
    requires Owed(s, t) && Fits(s, step) && Next(s, step).db.needsRecovery && s.db.needsRecovery
    ensures Owed(Next(s, step), t)
  {
    StaysFinished(s, step, t);
    if !step.WriteCount? {
      OnlyOthersBooked(s, step, t);
    }
  }

  lemma OnlyOthersBooked(s: System, step: Step, t: Turn)
    requires Settled(s, t) && !step.WriteCount? && t !in s.books.counted && t !in s.books.lost
    ensures t !in Next(s, step).books.counted && t !in Next(s, step).books.lost
  {
  }

  lemma NowOwed(s: System, step: Step)
    requires Inv(s) && Tidy(s) && Next(s, step).db.needsRecovery && !s.db.needsRecovery
    ensures step.FlagWrite? && Owed(Next(s, step), step.turn)
  {
    assert step.FlagWrite? && Enabled(s, step);
    assert TurnInv(s, step.turn);
  }

  lemma DueOnlyWhenOwed(s: System, step: Step)
    requires Inv(s) && Tidy(s) && Fits(s, step) && Next(s, step).db.needsRecovery
    ensures exists t :: Owed(Next(s, step), t)
  {
    if s.db.needsRecovery {
      var t :| Owed(s, t);
      StillOwed(s, step, t);
    } else {
      NowOwed(s, step);
    }
  }

  lemma RecoverKeepsTidy(s: System, r: nat)
    requires Tidy(s) && Fits(s, WriteCount(r))
    ensures Tidy(Next(s, WriteCount(r)))
  {
    if Enabled(s, WriteCount(r)) {
      var s' := Next(s, WriteCount(r));
      assert s'.books.counted == SettledDone(s) == SettledDone(s');
    }
  }

  lemma CountedStaySettled(s: System, step: Step)
    requires Tidy(s) && !step.WriteCount? && Fits(s, step)
    ensures var b' := Next(s, step).books;
      b'.doubled == 0 && b'.overlooked == {} && b'.counted <= SettledDone(Next(s, step))
  {
    forall t | t in s.books.counted ensures t in SettledDone(Next(s, step)) {
      StaysFinished(s, step, t);
    }
    if step.CountWrite? {
      CounterSettles(s, step);
    }
  }

  lemma WriteCountsDone(s: System, step: Step)
    requires CountingAreDone(s) && (step.FirstWrite? || step.ModerateWrite? || step.FailsafeWrite?)
    requires Inv(s)
    ensures CountingAreDone(Next(s, step))
  {
    if Enabled(s, step) {
      assert TurnInv(s, step.turn);
      forall t | t in s.phases && t != step.turn && t in DoneTurns(s.db)
        ensures t in DoneTurns(Next(s, step).db) {}
    }
  }

  lemma CountingStaysDone(s: System, step: Step)
    requires Inv(s) && CountingAreDone(s) && !step.WriteCount? && Fits(s, step)
    ensures CountingAreDone(Next(s, step))
  {
    if step.FirstWrite? || step.ModerateWrite? || step.FailsafeWrite? {
      WriteCountsDone(s, step);
    }
  }

  lemma StepKeepsTidy(s: System, step: Step)
    requires Inv(s) && Tidy(s) && Fits(s, step)
    ensures Tidy(Next(s, step))
  {
    if step.WriteCount? {
      RecoverKeepsTidy(s, step.recovery);
    } else {
      CountedStaySettled(s, step);
      CountingStaysDone(s, step);
      if Next(s, step).db.needsRecovery {
        DueOnlyWhenOwed(s, step);
      }
    }
  }

  lemma {:induction false} CleanRunKeepsTidy(steps: seq<Step>)
    requires CleanRun(steps)
    ensures Inv(Run(INIT, steps)) && Tidy(Run(INIT, steps))
    decreases |steps|
  {
    if steps == [] {
      assert SettledDone(INIT) == {};
    } else {
      var n := |steps| - 1;
      forall i | 0 <= i < n ensures Clean(steps[..n][..i], steps[..n][i]) {
        assert steps[..n][..i] == steps[..i] && Clean(steps[..i], steps[i]);
      }
      CleanRunKeepsTidy(steps[..n]);
      CleanIffFits(steps[..n], steps[n]);
      RunOneMore(steps);
      StepKeepsInv(Run(INIT, steps[..n]), steps[n]);
      StepKeepsTidy(Run(INIT, steps[..n]), steps[n]);
    }
  }

  /** Turn accounting under faults, for every interleaving of dispatches with any failing
      writes and with clean recoveries and clearings: the count never exceeds the number of
      turns stored as complete or moderated; and whenever no dispatch is under way and no
      write was lost together with its fallback, the two agree exactly while
      `needs_recovery` is false. */
  lemma TurnCountIsAccurate(steps: seq<Step>)
    requires CleanRun(steps)
    ensures var s := Run(INIT, steps);
      && s.db.turnCount <= |DoneTurns(s.db)|
      && (Quiet(s) && s.books.lost == {} ==> (s.db.turnCount == |DoneTurns(s.db)| <==> !s.db.needsRecovery))
      && (Quiet(s) && !s.db.needsRecovery ==> |DoneTurns(s.db)| == s.db.turnCount + |s.books.lost|)
  {
    CleanRunKeepsTidy(steps);
    TurnCountBalances(steps);
    var s := Run(INIT, steps);
    var missed := DoneTurns(s.db) - s.books.counted;
    assert s.books.counted - DoneTurns(s.db) == {};
    if s.db.needsRecovery {
      var t :| Owed(s, t);
      assert t in missed;
    }
  }

  // ------------------------------------------- nothing less will do

  function InCount(s: System): set<Turn> {
    set t | t in s.phases && s.phases[t] == Counting
  }

  /** Finished turns that are counted or about to be. */
  function Countable(s: System): set<Turn> {
    set t | t in DoneTurns(s.db) && t in s.phases && s.phases[t] in {Counting, Publishing, Over}
  }

  /** How far the count will be off when every dispatch under way has run its course. */
  function Ahead(s: System): int {
    s.db.turnCount + |InCount(s)| - |Countable(s)|
  }

  /** A step of a dispatch whose write succeeds, or a query. */
  predicate Smooth(step: Step) {
    match step
    case FirstWrite(_, _, _, fails) => !fails
    case ModerateWrite(_, fails) => !fails
    case FailsafeWrite(_, fails) => !fails
    case CountWrite(_, fails) => !fails
    case FlagWrite(_, _) => false
    case FailStuck(_) => false
    case WriteCount(_) => false
    case _ => true
  }

  /** The turn comes to be counted, finished, while nothing else changes. */
  lemma OneMoreInCount(s: System, s': System, t: Turn)
    requires t in s.phases && s.phases[t] in {First, Moderating} && s'.phases == s.phases[t := Counting]
    requires t in DoneTurns(s'.db) && s'.db.turnCount == s.db.turnCount
    requires forall u | u != t :: u in DoneTurns(s'.db) <==> u in DoneTurns(s.db)
    ensures Ahead(s') == Ahead(s)
  {
    assert InCount(s') == InCount(s) + {t};
    OneMoreCountable(s, s', t);
  }

  lemma OneMoreCountable(s: System, s': System, t: Turn)
    requires t in s.phases && s.phases[t] in {First, Moderating} && s'.phases == s.phases[t := Counting]
    requires t in DoneTurns(s'.db)
    requires forall u | u != t :: u in DoneTurns(s'.db) <==> u in DoneTurns(s.db)
    ensures Countable(s') == Countable(s) + {t} && t !in Countable(s)
  {
  }

  lemma OtherTurnsDone(db: Db, t: Turn, status: Status)
    ensures forall u | u != t :: u in DoneTurns(SetStatus(db, t, status)) <==> u in DoneTurns(db)
  {
  }

  lemma FirstWriteKeepsAhead(s: System, step: Step)
    requires Inv(s) && step.FirstWrite? && !step.fails
    ensures Ahead(Next(s, step)) == Ahead(s)
  {
    if Enabled(s, step) {
      var t, s' := step.turn, Next(s, step);
      assert TurnInv(s, t);
      OtherTurnsDone(s.db, t, Complete);
      OtherTurnsDone(s.db, t, Failed);
      if s'.phases[t] == Counting {
        OneMoreInCount(s, s', t);
      } else {
        NoneMoreInCount(s, s', t);
      }
    }
  }

  lemma NoneMoreInCount(s: System, s': System, t: Turn)
    requires At(s, t, First) && t !in DoneTurns(s.db) && s'.db.turnCount == s.db.turnCount
    requires s'.phases == s.phases[t := Moderating]
      || (s'.phases == s.phases[t := Publishing] && t !in DoneTurns(s'.db))
    requires forall u | u != t :: u in DoneTurns(s'.db) <==> u in DoneTurns(s.db)
    ensures Ahead(s') == Ahead(s)
  {
    assert InCount(s') == InCount(s) && Countable(s') == Countable(s);
  }

  lemma ModerateKeepsAhead(s: System, t: Turn)
    requires Inv(s)
    ensures Ahead(Next(s, ModerateWrite(t, false))) == Ahead(s)
  {
    if At(s, t, Moderating) {
      assert TurnInv(s, t);
      OtherTurnsDone(s.db, t, Moderated);
      OneMoreInCount(s, Next(s, ModerateWrite(t, false)), t);
    }
  }

  lemma FailsafeKeepsAhead(s: System, t: Turn)
    ensures Ahead(Next(s, FailsafeWrite(t, false))) == Ahead(s)
  {
    var s' := Next(s, FailsafeWrite(t, false));
    assert InCount(s') == InCount(s) && Countable(s') == Countable(s);
  }

  lemma CountKeepsAhead(s: System, t: Turn)
    ensures Ahead(Next(s, CountWrite(t, false))) == Ahead(s)
  {
    if At(s, t, Counting) {
      var s' := Next(s, CountWrite(t, false));
      assert InCount(s') == InCount(s) - {t} && Countable(s') == Countable(s);
    }
  }

  lemma RestKeepsAhead(s: System, step: Step)
    requires step.Submit? || step.Publish? || step.SeeStuck? || step.SeeFlag? || step.ReadCount?
    ensures Ahead(Next(s, step)) == Ahead(s)
  {
    var s' := Next(s, step);
    assert InCount(s') == InCount(s) && Countable(s') == Countable(s);
  }

  lemma SmoothKeepsAhead(s: System, step: Step)
    requires Inv(s) && Smooth(step)
    ensures Ahead(Next(s, step)) == Ahead(s)
  {
    match step
    case FirstWrite(_, _, _, _) => FirstWriteKeepsAhead(s, step);
    case ModerateWrite(t, _) => ModerateKeepsAhead(s, t);
    case FailsafeWrite(t, _) => FailsafeKeepsAhead(s, t);
    case CountWrite(t, _) => CountKeepsAhead(s, t);
    case _ => RestKeepsAhead(s, step);
  }

  lemma {:induction false} SmoothRunKeepsAhead(s: System, steps: seq<Step>)
    requires Inv(s) && forall step <- steps :: Smooth(step)
    ensures Ahead(Run(s, steps)) == Ahead(s) && Inv(Run(s, steps))
    decreases |steps|
  {
    if steps != [] {
      StepKeepsInv(s, steps[0]);
      SmoothKeepsAhead(s, steps[0]);
      SmoothRunKeepsAhead(Next(s, steps[0]), steps[1..]);
    }
  }

  lemma QuietAhead(s: System)
    requires Inv(s) && Quiet(s)
    ensures Ahead(s) == s.db.turnCount - |DoneTurns(s.db)|
  {
    assert InCount(s) == {};
    forall t | t in DoneTurns(s.db) ensures t in Countable(s) {
      assert TurnInv(s, t);
    }
    assert Countable(s) == DoneTurns(s.db);
  }

  lemma TidyAhead(s: System)
    requires Tidy(s)
    ensures |Countable(s)| == |SettledDone(s)| + |InCount(s)|
  {
    assert Countable(s) == SettledDone(s) + InCount(s);
  }

  lemma RecoverySetsAhead(s: System, r: nat)
    requires Tidy(s) && Enabled(s, WriteCount(r))
    ensures Ahead(Next(s, WriteCount(r))) == |s.recoveries[r].finished| - |SettledDone(s)|
  {
    var s' := Next(s, WriteCount(r));
    TidyAhead(s);
    assert InCount(s') == InCount(s) && Countable(s') == Countable(s);
  }

  lemma ClearingUncounts(s: System, c: nat)
    requires Enabled(s, FailStuck(c))
    ensures var s' := Next(s, FailStuck(c));
      && Countable(s') == Countable(s) - {s.clearings[c].turn}
      && InCount(s') == InCount(s) && s'.db.turnCount == s.db.turnCount
  {
    assert DoneTurns(Next(s, FailStuck(c)).db) == DoneTurns(s.db) - {s.clearings[c].turn};
  }

  lemma ClearingSetsAhead(s: System, c: nat)
    requires Inv(s) && Tidy(s) && Enabled(s, FailStuck(c)) && s.db.turnCount == |SettledDone(s)|
    requires !At(s, s.clearings[c].turn, Flagging)
    ensures Ahead(Next(s, FailStuck(c))) == if Fits(s, FailStuck(c)) then 0 else 1
  {
    var t := s.clearings[c].turn;
    TidyAhead(s);
    ClearingUncounts(s, c);
    if t in DoneTurns(s.db) {
      assert TurnInv(s, t);
      assert t in Countable(s) <==> !Fits(s, FailStuck(c));
    }
  }

  /** That updates be clean is just what is needed. After any clean run let an update of a
      recovery come, or of a clearing when every settled turn has been counted, and let the
      dispatches then under way and any new ones run their course without a failing write:
      the count ends up right if and only if the update was clean. */
  lemma AccurateIffClean(steps: seq<Step>, step: Step, more: seq<Step>)
    requires CleanRun(steps) && forall m <- more :: Smooth(m)
    requires var s := Run(INIT, steps);
      && Enabled(s, step)
      && (step.WriteCount?
          || (step.FailStuck? && s.db.turnCount == |SettledDone(s)| && !At(s, s.clearings[step.clearing].turn, Flagging)))
      && Quiet(Run(Next(s, step), more))
    ensures var e := Run(Next(Run(INIT, steps), step), more);
      e.db.turnCount == |DoneTurns(e.db)| <==> Clean(steps, step)
  {
    var s := Run(INIT, steps);
    CleanRunKeepsTidy(steps);
    CleanIffFits(steps, step);
    if step.WriteCount? {
      RecoverySetsAhead(s, step.recovery);
    } else {
      ClearingSetsAhead(s, step.clearing);
    }
    StepKeepsInv(s, step);
    SmoothRunKeepsAhead(Next(s, step), more);
    QuietAhead(Run(Next(s, step), more));
  }
}
