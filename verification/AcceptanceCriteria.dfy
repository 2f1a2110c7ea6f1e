/**
  The acceptance-criteria count of `parse_spec` in specs/index_specs.py: one pass over the
  lines, in which the count of a group heading is put off until it is known whether the
  group has items of its own. A line is given by what its patterns match.
  */
module AcceptanceCriteria {

  datatype Line = Line(
    section: bool,   // AC_SECTION_RE
    heading: bool,   // ## or ### and a space
    group: bool,     // AC_GROUP_RE
    item: bool,      // AC_ITEM_RE
    box: bool,       // AC_CHECKBOX_RE
    scenario: bool)  // a Gherkin line "Scenario: AC-..."

  // ------------------------------------------- the declarative count

  predicate Opens(l: Line) {
    l.section || l.group || l.item
  }

  /** A heading that leaves the acceptance criteria. */
  predicate Closes(l: Line) {
    l.heading && !l.section && !l.group
  }

  /** Some line up to `i` opened the section and none closed it since. */
  predicate InSection(lines: seq<Line>, i: nat)
    requires i < |lines|
  {
    exists j :: 0 <= j <= i && Opens(lines[j]) && forall k :: j < k <= i ==> !Closes(lines[k])
  }

  predicate IsItem(lines: seq<Line>, i: nat)
    requires i < |lines|
  {
    lines[i].item && !lines[i].group
  }

  predicate IsBox(lines: seq<Line>, i: nat)
    requires i < |lines|
  {
    lines[i].box && !lines[i].item && !lines[i].group && InSection(lines, i)
  }

  predicate IsScenario(lines: seq<Line>, i: nat)
    requires i < |lines|
  {
    lines[i].scenario && InSection(lines, i)
  }

  predicate SubItem(lines: seq<Line>, i: nat)
    requires i < |lines|
  {
    IsItem(lines, i) || IsBox(lines, i)
  }

  /** The next group heading, a heading that leaves the section, or the end of the file. */
  predicate Boundary(lines: seq<Line>, m: nat)
    requires m <= |lines|
  {
    m == |lines| || lines[m].group || Closes(lines[m])
  }

  /** A group heading with no item or checkbox before a boundary. */
  predicate IsBareGroup(lines: seq<Line>, g: nat)
    requires g < |lines|
  {
    && lines[g].group
    && exists m :: g < m <= |lines| && Boundary(lines, m) && forall k :: g < k < m ==> !SubItem(lines, k)
  }

  function Items(lines: seq<Line>, n: nat): set<nat>
    requires n <= |lines|
  {
    set i | 0 <= i < n && IsItem(lines, i)
  }

  function Boxes(lines: seq<Line>, n: nat): set<nat>
    requires n <= |lines|
  {
    set i | 0 <= i < n && IsBox(lines, i)
  }

  function Scenarios(lines: seq<Line>, n: nat): set<nat>
    requires n <= |lines|
  {
    set i | 0 <= i < n && IsScenario(lines, i)
  }

  function BareGroups(lines: seq<Line>): set<nat> {
    set g | 0 <= g < |lines| && IsBareGroup(lines, g)
  }

  function CriteriaCount(lines: seq<Line>): nat {
    |Items(lines, |lines|)| + |Boxes(lines, |lines|)| + |Scenarios(lines, |lines|)| + |BareGroups(lines)|
  }

  // ------------------------------------------- what the pass has seen so far

  /** The group headings already known to be bare after `n` lines. */
  function Settled(lines: seq<Line>, n: nat): set<nat>
    requires n <= |lines|
  {
    set g | 0 <= g < n && SettledBare(lines, g, n)
  }

  predicate SettledBare(lines: seq<Line>, g: nat, n: nat)
    requires g < n <= |lines|
  {
    && lines[g].group
    && exists m :: g < m < n && Boundary(lines, m) && forall k :: g < k < m ==> !SubItem(lines, k)
  }

  /** A group heading still undecided after `n` lines. */
  predicate Undecided(lines: seq<Line>, g: nat, n: nat)
    requires n <= |lines|
  {
    g < n && lines[g].group && forall k :: g < k < n ==> !Boundary(lines, k) && !SubItem(lines, k)
  }

  predicate NoneUndecided(lines: seq<Line>, n: nat)
    requires n <= |lines|
  {
    forall h: nat :: h < n ==> !Undecided(lines, h, n)
  }

  lemma SectionStep(lines: seq<Line>, n: nat)
    requires n < |lines|
    ensures InSection(lines, n) <==>
      Opens(lines[n]) || (!Closes(lines[n]) && n > 0 && InSection(lines, n - 1))
  {
    if n > 0 && InSection(lines, n - 1) && !Closes(lines[n]) {
      var j :| 0 <= j <= n - 1 && Opens(lines[j]) && forall k :: j < k <= n - 1 ==> !Closes(lines[k]);
      assert forall k :: j < k <= n ==> !Closes(lines[k]);
    }
  }

  lemma ItemsStep(lines: seq<Line>, n: nat)
    requires n < |lines|
    ensures |Items(lines, n + 1)| == |Items(lines, n)| + (if IsItem(lines, n) then 1 else 0)
  {
    assert Items(lines, n + 1) == Items(lines, n) + if IsItem(lines, n) then {n} else {};
  }

  lemma BoxesStep(lines: seq<Line>, n: nat)
    requires n < |lines|
    ensures |Boxes(lines, n + 1)| == |Boxes(lines, n)| + (if IsBox(lines, n) then 1 else 0)
  {
    assert Boxes(lines, n + 1) == Boxes(lines, n) + if IsBox(lines, n) then {n} else {};
  }

  lemma ScenariosStep(lines: seq<Line>, n: nat)
    requires n < |lines|
    ensures |Scenarios(lines, n + 1)| == |Scenarios(lines, n)| + (if IsScenario(lines, n) then 1 else 0)
  {
    assert Scenarios(lines, n + 1) == Scenarios(lines, n) + if IsScenario(lines, n) then {n} else {};
  }

  /** At a boundary the undecided group, if any, turns out bare; nothing else is settled. */
  lemma SettleStep(lines: seq<Line>, n: nat, pending: bool, g: nat)
    requires n < |lines|
    requires pending ==> Undecided(lines, g, n)
    requires !pending ==> NoneUndecided(lines, n)
    ensures |Settled(lines, n + 1)| == |Settled(lines, n)| + (if pending && Boundary(lines, n) then 1 else 0)
  {
    forall h: nat | h < n + 1
      ensures h in Settled(lines, n + 1) <==>
        h in Settled(lines, n) || (pending && Boundary(lines, n) && h == g)
    {
      if h in Settled(lines, n + 1) && h !in Settled(lines, n) {
        StillUndecided(lines, h, n);
        OnlyOneUndecided(lines, n, pending, g, h);
      }
    }
    if pending && Boundary(lines, n) {
      assert g !in Settled(lines, n);
      assert Settled(lines, n + 1) == Settled(lines, n) + {g};
    } else {
      assert Settled(lines, n + 1) == Settled(lines, n);
    }
  }

  lemma StillUndecided(lines: seq<Line>, h: nat, n: nat)
    requires h < n + 1 <= |lines| && SettledBare(lines, h, n + 1) && (h < n ==> !SettledBare(lines, h, n))
    ensures Undecided(lines, h, n) && Boundary(lines, n)
  {
    var m :| h < m < n + 1 && Boundary(lines, m) && forall k :: h < k < m ==> !SubItem(lines, k);
    assert m == n;
  }

  lemma OnlyOneUndecided(lines: seq<Line>, n: nat, pending: bool, g: nat, h: nat)
    requires n <= |lines|
    requires pending ==> Undecided(lines, g, n)
    requires !pending ==> NoneUndecided(lines, n)
    requires Undecided(lines, h, n)
    ensures pending && h == g
  {
    assert h < g ==> Boundary(lines, g);
    assert g < h ==> Boundary(lines, h);
  }

  lemma UndecidedStep(lines: seq<Line>, h: nat, n: nat)
    requires h <= n < |lines|
    ensures Undecided(lines, h, n + 1) <==>
      if h == n then lines[n].group
      else Undecided(lines, h, n) && !Boundary(lines, n) && !SubItem(lines, n)
  {
    if h < n && Undecided(lines, h, n) && !Boundary(lines, n) && !SubItem(lines, n) {
      assert forall k :: h < k < n + 1 ==> !Boundary(lines, k) && !SubItem(lines, k);
    }
  }

  lemma PendingStep(lines: seq<Line>, n: nat, pending: bool, g: nat)
    requires n < |lines|
    requires pending ==> Undecided(lines, g, n)
    requires !pending ==> NoneUndecided(lines, n)
    ensures var still := pending && !Boundary(lines, n) && !SubItem(lines, n);
      && (lines[n].group ==> Undecided(lines, n, n + 1))
      && (!lines[n].group && still ==> Undecided(lines, g, n + 1))
      && (!lines[n].group && !still ==> NoneUndecided(lines, n + 1))
  {
    UndecidedStep(lines, n, n);
    if pending {
      UndecidedStep(lines, g, n);
    }
    var next := n + 1;
    forall h: nat | h < next && Undecided(lines, h, next)
      ensures lines[n].group || (pending && !Boundary(lines, n) && !SubItem(lines, n))
    {
      UndecidedStep(lines, h, n);
      if h < n {
        OnlyOneUndecided(lines, n, pending, g, h);
      }
    }
  }

  lemma BareAtEnd(lines: seq<Line>, h: nat)
    requires h < |lines|
    ensures IsBareGroup(lines, h) <==> SettledBare(lines, h, |lines|) || Undecided(lines, h, |lines|)
  {
    var n := |lines|;
    if Undecided(lines, h, n) {
      assert Boundary(lines, n) && forall k :: h < k < n ==> !SubItem(lines, k);
    }
    if IsBareGroup(lines, h) && !SettledBare(lines, h, n) {
      var m :| h < m <= n && Boundary(lines, m) && forall k :: h < k < m ==> !SubItem(lines, k);
      assert m == n;
    }
  }

  lemma SettledAtEnd(lines: seq<Line>, pending: bool, g: nat)
    requires pending ==> Undecided(lines, g, |lines|)
    requires !pending ==> NoneUndecided(lines, |lines|)
    ensures |BareGroups(lines)| == |Settled(lines, |lines|)| + (if pending then 1 else 0)
  {
    var n := |lines|;
    forall h: nat | h < n
      ensures h in BareGroups(lines) <==> h in Settled(lines, n) || (pending && h == g)
    {
      BareAtEnd(lines, h);
      if Undecided(lines, h, n) {
        OnlyOneUndecided(lines, n, pending, g, h);
      }
    }
    if pending {
      assert g !in Settled(lines, n);
      assert BareGroups(lines) == Settled(lines, n) + {g};
    } else {
      assert BareGroups(lines) == Settled(lines, n);
    }
  }

  // ------------------------------------------- the pass

  method CountCriteria(lines: seq<Line>) returns (count: nat, has: bool)
    ensures count == CriteriaCount(lines)
    ensures has <==> count > 0
  {
    count, has := 0, false;
    var inSection, pending := false, false;
    ghost var g: nat := 0;
    for n := 0 to |lines|
      invariant inSection <==> n > 0 && InSection(lines, n - 1)
      invariant pending ==> Undecided(lines, g, n)
      invariant !pending ==> NoneUndecided(lines, n)
      invariant count == |Items(lines, n)| + |Boxes(lines, n)| + |Scenarios(lines, n)| + |Settled(lines, n)|
      invariant has <==> count > 0
    {
      var line := lines[n];
      SectionStep(lines, n);
      ItemsStep(lines, n);
      BoxesStep(lines, n);
      ScenariosStep(lines, n);
      SettleStep(lines, n, pending, g);
      PendingStep(lines, n, pending, g);
      if line.section {
        inSection := true;
      } else if line.heading {
        if !line.group {
          if pending {
            has, count, pending := true, count + 1, false;
          }
          inSection := false;
        }
      }
      if line.group {
        if pending {
          has, count := true, count + 1;
        }
        pending, inSection := true, true;
        g := n;
      } else if line.item {
        pending, has, count, inSection := false, true, count + 1, true;
      } else if inSection && line.box {
        pending, has, count := false, true, count + 1;
      }
      if line.scenario && inSection {
        has, count := true, count + 1;
      }
    }
    if pending {
      has, count := true, count + 1;
    }
    SettledAtEnd(lines, pending, g);
  }
}
