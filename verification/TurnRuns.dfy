/** Every turn over any run: how it leaves `processing`, and that it is published once. */
module TurnRuns {
  import opened Wrappers
  import opened TurnDispatch

  /** What has happened to one turn: failed writes, and a clearing. */
  datatype Marks = Marks(firstFailed: bool, failsafeFailed: bool, cleared: bool)

  function Mark(m: Marks, s: System, step: Step, t: Turn): Marks {
    if !Enabled(s, step) then m else
    match step
    case FirstWrite(u, _, _, fails) => if u == t && fails then m.(firstFailed := true) else m
    case FailsafeWrite(u, fails) => if u == t && fails then m.(failsafeFailed := true) else m
    case FailStuck(c) => if s.clearings[c].turn == t then m.(cleared := true) else m
    case _ => m
  }

  function MarksOf(m: Marks, s: System, steps: seq<Step>, t: Turn): Marks
    decreases |steps|
  {
    if steps == [] then m else MarksOf(Mark(m, s, steps[0], t), Next(s, steps[0]), steps[1..], t)
  }

  /** How the turn's row, its phase and its marks belong together. */
  predicate MarkInv(s: System, t: Turn, m: Marks) {
    && (forall c <- s.clearings :: s.clearings[c].turn in s.phases)
    && s.db.turns.Keys == s.phases.Keys
    && (t !in s.phases ==> m == Marks(false, false, false))
    && (t in s.phases ==>
          var processing := s.db.turns[t] == Processing;
          match s.phases[t]
          case First => !m.firstFailed && !m.failsafeFailed && (processing <==> !m.cleared)
          case Failsafe => !m.failsafeFailed && (processing <==> m.firstFailed && !m.cleared)
          case Publishing => processing <==> m.firstFailed && m.failsafeFailed && !m.cleared
          case Over => processing <==> m.firstFailed && m.failsafeFailed && !m.cleared
          case _ => !m.firstFailed && !m.failsafeFailed && !processing)
  }

  lemma FirstWriteKeepsMarks(s: System, step: Step, t: Turn, m: Marks)
    requires MarkInv(s, t, m) && step.FirstWrite?
    ensures MarkInv(Next(s, step), t, Mark(m, s, step, t))
  {
    if Enabled(s, step) {
      assert Next(s, step).db.turns.Keys == s.db.turns.Keys;
      assert Next(s, step).phases.Keys == s.phases.Keys;
    }
  }

  lemma ModerateKeepsMarks(s: System, u: Turn, fails: bool, t: Turn, m: Marks)
    requires MarkInv(s, t, m)
    ensures MarkInv(Next(s, ModerateWrite(u, fails)), t, Mark(m, s, ModerateWrite(u, fails), t))
  {
    if At(s, u, Moderating) {
      assert Next(s, ModerateWrite(u, fails)).db.turns.Keys == s.db.turns.Keys;
      assert Next(s, ModerateWrite(u, fails)).phases.Keys == s.phases.Keys;
    }
  }

  lemma FailsafeKeepsMarks(s: System, u: Turn, fails: bool, t: Turn, m: Marks)
    requires MarkInv(s, t, m)
    ensures MarkInv(Next(s, FailsafeWrite(u, fails)), t, Mark(m, s, FailsafeWrite(u, fails), t))
  {
    if At(s, u, Failsafe) {
      assert Next(s, FailsafeWrite(u, fails)).db.turns.Keys == s.db.turns.Keys;
      assert Next(s, FailsafeWrite(u, fails)).phases.Keys == s.phases.Keys;
    }
  }

  lemma CounterKeepsMarks(s: System, step: Step, t: Turn, m: Marks)
    requires MarkInv(s, t, m) && (step.CountWrite? || step.FlagWrite? || step.Publish?)
    ensures MarkInv(Next(s, step), t, Mark(m, s, step, t))
  {
    if Enabled(s, step) {
      assert Next(s, step).phases.Keys == s.phases.Keys;
    }
  }

  lemma RequestKeepsMarks(s: System, step: Step, t: Turn, m: Marks)
    requires MarkInv(s, t, m)
    requires step.SeeStuck? || step.FailStuck? || step.SeeFlag? || step.ReadCount? || step.WriteCount?
    ensures MarkInv(Next(s, step), t, Mark(m, s, step, t))
  {
    if Enabled(s, step) {
      assert Next(s, step).db.turns.Keys == s.db.turns.Keys;
    }
  }

  lemma SubmitKeepsMarks(s: System, u: Turn, t: Turn, m: Marks)
    requires MarkInv(s, t, m)
    ensures MarkInv(Next(s, Submit(u)), t, Mark(m, s, Submit(u), t))
  {
  }

  lemma StepKeepsMarks(s: System, step: Step, t: Turn, m: Marks)
    requires MarkInv(s, t, m)
    ensures MarkInv(Next(s, step), t, Mark(m, s, step, t))
  {
    match step
    case Submit(u) => SubmitKeepsMarks(s, u, t, m);
    case FirstWrite(_, _, _, _) => FirstWriteKeepsMarks(s, step, t, m);
    case ModerateWrite(u, fails) => ModerateKeepsMarks(s, u, fails, t, m);
    case FailsafeWrite(u, fails) => FailsafeKeepsMarks(s, u, fails, t, m);
    case CountWrite(_, _) => CounterKeepsMarks(s, step, t, m);
    case FlagWrite(_, _) => CounterKeepsMarks(s, step, t, m);
    case Publish(_) => CounterKeepsMarks(s, step, t, m);
    case _ => RequestKeepsMarks(s, step, t, m);
  }

  lemma {:induction false} RunKeepsMarks(s: System, steps: seq<Step>, t: Turn, m: Marks)
    requires MarkInv(s, t, m)
    ensures MarkInv(Run(s, steps), t, MarksOf(m, s, steps, t))
    decreases |steps|
  {
    if steps != [] {
      StepKeepsMarks(s, steps[0], t, m);
      RunKeepsMarks(Next(s, steps[0]), steps[1..], t, Mark(m, s, steps[0], t));
    }
  }

  predicate PublishedOnce(s: System, t: Turn) {
    multiset(s.db.attempts)[t] == if At(s, t, Over) then 1 else 0
  }

  lemma OnlyPublishEnds(s: System, step: Step, t: Turn)
    requires !step.Publish?
    ensures At(Next(s, step), t, Over) <==> At(s, t, Over)
    ensures Next(s, step).db.attempts == s.db.attempts
  {
  }

  lemma StepPublishesOnce(s: System, step: Step, t: Turn)
    requires PublishedOnce(s, t)
    ensures PublishedOnce(Next(s, step), t)
  {
    if !step.Publish? {
      OnlyPublishEnds(s, step, t);
    } else if Enabled(s, step) {
      assert multiset(s.db.attempts + [step.turn]) == multiset(s.db.attempts) + multiset{step.turn};
    }
  }

  lemma {:induction false} RunPublishesOnce(s: System, steps: seq<Step>, t: Turn)
    requires PublishedOnce(s, t)
    ensures PublishedOnce(Run(s, steps), t)
    decreases |steps|
  {
    if steps != [] {
      StepPublishesOnce(s, steps[0], t);
      RunPublishesOnce(Next(s, steps[0]), steps[1..], t);
    }
  }

  /** Over any run, whatever else goes on: a turn whose writes are behind it is in `processing`
      exactly if its first write and the failsafe both failed and no submission cleared it,
      and publication was attempted once for each turn that is over and never for another. */
  lemma TurnLeavesProcessing(steps: seq<Step>, t: Turn)
    ensures var s, m := Run(INIT, steps), MarksOf(Marks(false, false, false), INIT, steps, t);
      && (Settled(s, t) ==>
           && t in s.db.turns
           && (s.db.turns[t] == Processing <==> m.firstFailed && m.failsafeFailed && !m.cleared))
      && multiset(s.db.attempts)[t] == if At(s, t, Over) then 1 else 0
  {
    RunKeepsMarks(INIT, steps, t, Marks(false, false, false));
    RunPublishesOnce(INIT, steps, t);
  }

  // ------------------------------------------- statuses tell what happened

  /** What a turn's successful writes carried: a first write that stored a narrative, with the
      outcome Complete or Moderated; and a moderation write. */
  datatype Deeds = Deeds(stored: Option<Status>, moderated: bool)

  const NO_DEEDS := Deeds(None, false)

  function Do(d: Deeds, s: System, step: Step, t: Turn): Deeds {
    if !Enabled(s, step) then d else
    match step
    case FirstWrite(u, outcome, hasNarrative, fails) =>
      if u == t && !fails && hasNarrative && (outcome == Complete || outcome == Moderated)
      then d.(stored := Some(outcome)) else d
    case ModerateWrite(u, fails) => if u == t && !fails then d.(moderated := true) else d
    case _ => d
  }

  function DeedsOf(d: Deeds, s: System, steps: seq<Step>, t: Turn): Deeds
    decreases |steps|
  {
    if steps == [] then d else DeedsOf(Do(d, s, steps[0], t), Next(s, steps[0]), steps[1..], t)
  }

  /** What must have been done for the turn to stand, or to be counted, as it does. */
  predicate DeedInv(s: System, t: Turn, d: Deeds) {
    && (t in s.db.turns && s.db.turns[t] == Complete ==> d.stored.Some?)
    && (t in s.db.turns && s.db.turns[t] == Moderated ==> d == Deeds(Some(Moderated), true))
    && (At(s, t, Moderating) ==> d.stored == Some(Moderated))
    && (At(s, t, Counting) || At(s, t, Flagging) ==> d.stored == Some(Complete) || d == Deeds(Some(Moderated), true))
    && (At(s, t, First) ==> d == NO_DEEDS)
    && (t in s.books.counted ==> d.stored.Some?)
    && (forall r <- s.recoveries :: s.recoveries[r].Read? && t in s.recoveries[r].finished ==> d.stored.Some?)
    && (t !in s.phases ==> d == NO_DEEDS && t !in s.db.turns)
  }

  lemma FirstWriteKeepsDeeds(s: System, step: Step, t: Turn, d: Deeds)
    requires DeedInv(s, t, d) && step.FirstWrite?
    ensures DeedInv(Next(s, step), t, Do(d, s, step, t))
  {
  }

  lemma LaterWriteKeepsDeeds(s: System, step: Step, t: Turn, d: Deeds)
    requires DeedInv(s, t, d) && (step.ModerateWrite? || step.FailsafeWrite?)
    ensures DeedInv(Next(s, step), t, Do(d, s, step, t))
  {
  }

  lemma CounterKeepsDeeds(s: System, step: Step, t: Turn, d: Deeds)
    requires DeedInv(s, t, d) && (step.CountWrite? || step.FlagWrite? || step.Publish?)
    ensures DeedInv(Next(s, step), t, Do(d, s, step, t))
  {
  }

  lemma RequestKeepsDeeds(s: System, step: Step, t: Turn, d: Deeds)
    requires DeedInv(s, t, d)
    requires step.Submit? || step.SeeStuck? || step.FailStuck? || step.SeeFlag? || step.ReadCount? || step.WriteCount?
    ensures DeedInv(Next(s, step), t, Do(d, s, step, t))
  {
  }

  lemma StepKeepsDeeds(s: System, step: Step, t: Turn, d: Deeds)
    requires DeedInv(s, t, d)
    ensures DeedInv(Next(s, step), t, Do(d, s, step, t))
  {
    match step
    case FirstWrite(_, _, _, _) => FirstWriteKeepsDeeds(s, step, t, d);
    case ModerateWrite(_, _) => LaterWriteKeepsDeeds(s, step, t, d);
    case FailsafeWrite(_, _) => LaterWriteKeepsDeeds(s, step, t, d);
    case CountWrite(_, _) => CounterKeepsDeeds(s, step, t, d);
    case FlagWrite(_, _) => CounterKeepsDeeds(s, step, t, d);
    case Publish(_) => CounterKeepsDeeds(s, step, t, d);
    case _ => RequestKeepsDeeds(s, step, t, d);
  }

  lemma {:induction false} RunKeepsDeeds(s: System, steps: seq<Step>, t: Turn, d: Deeds)
    requires DeedInv(s, t, d)
    ensures DeedInv(Run(s, steps), t, DeedsOf(d, s, steps, t))
    decreases |steps|
  {
    if steps != [] {
      StepKeepsDeeds(s, steps[0], t, d);
      RunKeepsDeeds(Next(s, steps[0]), steps[1..], t, Do(d, s, steps[0], t));
    }
  }

  /** Over any run: a turn is stored as complete or moderated, or stands in the count, only if
      its first write succeeded and carried a narrative and the outcome Complete or Moderated;
      and it is moderated only if that outcome was Moderated and its moderation write succeeded. */
  lemma StatusTellsOutcome(steps: seq<Step>, t: Turn)
    ensures var s, d := Run(INIT, steps), DeedsOf(NO_DEEDS, INIT, steps, t);
      && (t in s.db.turns && s.db.turns[t] == Complete ==> d.stored == Some(Complete) || d.stored == Some(Moderated))
      && (t in s.db.turns && s.db.turns[t] == Moderated ==> d.stored == Some(Moderated) && d.moderated)
      && (t in s.books.counted ==> d.stored == Some(Complete) || d.stored == Some(Moderated))
  {
    RunKeepsDeeds(INIT, steps, t, NO_DEEDS);
    StoredOutcome(NO_DEEDS, INIT, steps, t);
  }

  lemma {:induction false} StoredOutcome(d: Deeds, s: System, steps: seq<Step>, t: Turn)
    requires d.stored.Some? ==> d.stored.value in {Complete, Moderated}
    ensures var d' := DeedsOf(d, s, steps, t); d'.stored.Some? ==> d'.stored.value in {Complete, Moderated}
    decreases |steps|
  {
    if steps != [] {
      StoredOutcome(Do(d, s, steps[0], t), Next(s, steps[0]), steps[1..], t);
    }
  }
}
