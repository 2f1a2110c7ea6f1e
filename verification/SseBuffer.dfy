/**
  `SseEventBuffer` of src/tta/api/sse.py: a counter and a sorted set in Redis, as the SSE
  endpoint uses them (src/tta/api/routes/games_stream.py): draw an id, format the event
  with that id, append it. Each Redis command is a step of its own.
  */
module SseBuffer {
  import opened Wrappers
  import opened Text

  const MAX_EVENTS := 100

  datatype Event = Event(id: nat, raw: string)

  // ------------------------------------------- the sorted set

  predicate StringLess(a: string, b: string) {
    if a == "" || b == "" then a == "" && b != ""
    else a[0] < b[0] || (a[0] == b[0] && StringLess(a[1..], b[1..]))
  }

  predicate Before(x: Event, y: Event) {
    x.id < y.id || (x.id == y.id && StringLess(x.raw, y.raw))
  }

  function RemoveMember(b: seq<Event>, raw: string): seq<Event> {
    if b == [] then []
    else (if b[0].raw == raw then [] else [b[0]]) + RemoveMember(b[1..], raw)
  }

  function InsertByScore(b: seq<Event>, e: Event): seq<Event> {
    if b == [] || Before(e, b[0]) then [e] + b else [b[0]] + InsertByScore(b[1..], e)
  }

  /** ZADD of one member: a member already present only gets a new score. */
  function ZAdd(b: seq<Event>, e: Event): seq<Event> {
    InsertByScore(RemoveMember(b, e.raw), e)
  }

  /** ZREMRANGEBYRANK key 0 -(cap + 1). */
  function Trim(b: seq<Event>, cap: nat): seq<Event> {
    if |b| <= cap then b else b[|b| - cap..]
  }

  /** ZRANGEBYSCORE key lo +inf. */
  function FromScore(b: seq<Event>, lo: int): seq<Event> {
    if b == [] then [] else (if b[0].id >= lo then [b[0]] else []) + FromScore(b[1..], lo)
  }

  function RawOf(b: seq<Event>): seq<string> {
    seq(|b|, i requires 0 <= i < |b| => b[i].raw)
  }

  /** What `replay_after` concludes from its first command, ZRANGE key 0 0. */
  datatype Verdict = Miss | Nothing | Hit

  function VerdictOf(b: seq<Event>, lastId: int): Verdict {
    if b == [] then (if lastId > 0 then Miss else Nothing)
    else if b[0].id > lastId + 1 then Miss
    else Hit
  }

  /** What it answers after a hit, from its second command. */
  function Range(b: seq<Event>, lastId: int): seq<string> {
    RawOf(FromScore(b, lastId + 1))
  }

  // ------------------------------------------- order by id

  predicate Ordered(b: seq<Event>) {
    forall i, j :: 0 <= i < j < |b| ==> b[i].id <= b[j].id
  }

  lemma {:induction false} RemoveMembers(b: seq<Event>, raw: string)
    ensures forall x :: x in RemoveMember(b, raw) <==> x in b && x.raw != raw
  {
    if b != [] {
      RemoveMembers(b[1..], raw);
      assert forall x :: x in b <==> x == b[0] || x in b[1..];
    }
  }

  lemma {:induction false} RemoveKeepsOrder(b: seq<Event>, raw: string)
    requires Ordered(b)
    ensures Ordered(RemoveMember(b, raw))
  {
    if b != [] {
      RemoveKeepsOrder(b[1..], raw);
      RemoveMembers(b[1..], raw);
      var t := RemoveMember(b[1..], raw);
      forall j | 0 <= j < |t| ensures b[0].id <= t[j].id {
        assert t[j] in b[1..];
      }
    }
  }

  lemma {:induction false} InsertKeepsOrder(b: seq<Event>, e: Event)
    requires Ordered(b)
    ensures Ordered(InsertByScore(b, e))
    ensures forall x :: x in InsertByScore(b, e) <==> x in b || x == e
  {
    if b != [] && !Before(e, b[0]) {
      InsertKeepsOrder(b[1..], e);
      assert forall x :: x in b <==> x == b[0] || x in b[1..];
      var t := InsertByScore(b[1..], e);
      forall j | 0 <= j < |t| ensures b[0].id <= t[j].id {
        assert t[j] in t;
      }
    }
  }

  lemma ZAddKeepsOrder(b: seq<Event>, e: Event)
    requires Ordered(b)
    ensures Ordered(ZAdd(b, e))
    ensures forall x :: x in ZAdd(b, e) <==> x == e || (x in b && x.raw != e.raw)
  {
    RemoveMembers(b, e.raw);
    RemoveKeepsOrder(b, e.raw);
    InsertKeepsOrder(RemoveMember(b, e.raw), e);
  }

  lemma TrimDropsOldest(b: seq<Event>, cap: nat)
    requires Ordered(b)
    ensures Ordered(Trim(b, cap)) && |Trim(b, cap)| == if |b| <= cap then |b| else cap
    ensures forall x <- Trim(b, cap) :: x in b
    ensures forall x <- b :: x in Trim(b, cap) || forall y <- Trim(b, cap) :: x.id <= y.id
  {
    if |b| > cap {
      var k := |b| - cap;
      forall x | x in b && x !in b[k..] ensures forall y <- b[k..] :: x.id <= y.id {
        var i :| 0 <= i < |b| && b[i] == x;
        assert i < k;
        forall y | y in b[k..] ensures x.id <= y.id {
          var j :| k <= j < |b| && b[j] == y;
        }
      }
    }
  }

  // ------------------------------------------- the commands in place

  class SseEventBuffer {
    var counter: nat
    var buffer: seq<Event>

    constructor ()
      ensures counter == 0 && buffer == []
    {
      counter, buffer := 0, [];
    }

    method GetNextId() returns (id: nat)
      modifies this`counter
      ensures id == counter == old(counter) + 1
    {
      counter := counter + 1;
      id := counter;
    }

    /** The buffer holds the new event and, of the old ones with another text, as many of the
        newest as fit; what does not fit is older than all that does. */
    method AppendEvent(id: nat, raw: string)
      requires Ordered(buffer)
      modifies this`buffer
      ensures Ordered(buffer) && |buffer| <= 100
      ensures forall x <- buffer :: x == Event(id, raw) || (x in old(buffer) && x.raw != raw)
      ensures forall x | x == Event(id, raw) || (x in old(buffer) && x.raw != raw) ::
        x in buffer || (|buffer| == 100 && forall y <- buffer :: x.id <= y.id)
    {
      ZAddKeepsOrder(buffer, Event(id, raw));
      buffer := ZAdd(buffer, Event(id, raw));
      TrimDropsOldest(buffer, MAX_EVENTS);
      buffer := Trim(buffer, MAX_EVENTS);
    }

    /** `replay_after` when nothing comes between its two commands: a miss when the client is
        further behind than the oldest event held, or claims to have seen some of an empty
        buffer; otherwise the texts of all events held above its id, in id order. */
    method Replay(lastId: int) returns (answer: Option<seq<string>>)
      requires Ordered(buffer)
      ensures answer.None? <==> if buffer == [] then lastId > 0 else buffer[0].id > lastId + 1
      ensures answer.Some? ==> exists es ::
        && answer == Some(RawOf(es)) && Ordered(es) && (forall x :: x in es <==> x in buffer && x.id > lastId)
    {
      if buffer == [] {
        assert RawOf([]) == [];
        return if lastId > 0 then None else Some([]);
      }
      if buffer[0].id > lastId + 1 {
        return None;
      }
      FromScoreMembers(buffer, lastId + 1);
      FromScoreOrdered(buffer, lastId + 1);
      answer := Some(RawOf(FromScore(buffer, lastId + 1)));
    }
  }

  /** `format_sse` with an event id; `rest` is the event name and data. */
  function Format(id: nat, rest: string): string {
    "id: " + Decimal(id) + "\n" + rest
  }

  /** The id can be read back from the text. */
  lemma IdOfFormat(id: nat, rest: string)
    ensures |Format(id, rest)| >= 4 && ParseDigits(Cut(Format(id, rest)[4..], '\n').0, 10) == id
  {
    assert Format(id, rest)[4..] == Decimal(id) + ['\n'] + rest;
    ParseDecimal(id);
    CutAtFirst(Decimal(id), '\n', rest);
  }

  /** The text begins with the id line. */
  lemma FormatReads(id: nat, rest: string)
    requires id < 10
    ensures Format(id, rest) == "id: " + ["0123456789"[id]] + "\n" + rest
  {
    assert forall d :: 0 <= d < 10 ==> "0123456789"[d] == DIGITS[d];
  }

  /** The id line makes the texts of different events different. */
  lemma FormatTellsId(id: nat, rest: string, id': nat, rest': string)
    requires Format(id, rest) == Format(id', rest')
    ensures id == id'
  {
    IdOfFormat(id, rest);
    IdOfFormat(id', rest');
  }

  // ------------------------------------------- runs of many connections

  /** An id drawn in some lifetime of the counter. A lifetime begins with the first draw. */
  datatype Ticket = Ticket(life: nat, id: nat)

  datatype Logged = Logged(life: nat, event: Event)

  datatype Reader = Pending(lastId: int) | Answered(lastId: int, answer: Option<seq<string>>)

  datatype Action =
    | Draw(connection: nat)                // INCR
    | Add(connection: nat, rest: string)   // ZADD, under the id drawn before
    | TrimBuffer                           // ZREMRANGEBYRANK
    | Look(reader: nat, lastId: int)       // ZRANGE key 0 0
    | Read(reader: nat)                    // ZRANGEBYSCORE, after a hit
    | ExpireCounter
    | ExpireBuffer

  /** `log` records every event ever appended, with the lifetime of its id; `live` are those
      appended since the buffer last expired. */
  datatype System = System(
    life: nat,
    counter: nat,
    drawn: map<nat, Ticket>,
    buffer: seq<Event>,
    log: set<Logged>,
    live: set<Event>,
    readers: map<nat, Reader>)

  const INIT := System(0, 0, map[], [], {}, {}, map[])

  function Added(s: System, t: Ticket, rest: string): System {
    var e := Event(t.id, Format(t.id, rest));
    s.(buffer := ZAdd(s.buffer, e), log := s.log + {Logged(t.life, e)}, live := s.live + {e})
  }

  function Looked(s: System, r: nat, lastId: int): System {
    s.(readers := s.readers[r := match VerdictOf(s.buffer, lastId)
      case Miss => Answered(lastId, None)
      case Nothing => Answered(lastId, Some([]))
      case Hit => Pending(lastId)])
  }

  predicate IsPending(s: System, r: nat) {
    r in s.readers && s.readers[r].Pending?
  }

  function LifeOfDraw(s: System): nat {
    if s.counter == 0 then s.life + 1 else s.life
  }

  function Step(s: System, cap: nat, a: Action): System {
    match a
    case Draw(c) =>
      s.(life := LifeOfDraw(s), counter := s.counter + 1, drawn := s.drawn[c := Ticket(LifeOfDraw(s), s.counter + 1)])
    case Add(c, rest) => if c in s.drawn then Added(s, s.drawn[c], rest).(drawn := s.drawn - {c}) else s
    case TrimBuffer => s.(buffer := Trim(s.buffer, cap))
    case Look(r, lastId) => if r in s.readers then s else Looked(s, r, lastId)
    case Read(r) =>
      if !IsPending(s, r) then s else
      var lastId := s.readers[r].lastId;
      s.(readers := s.readers[r := Answered(lastId, Some(Range(s.buffer, lastId)))])
    case ExpireCounter => s.(counter := 0)
    case ExpireBuffer => s.(buffer := [], live := {})
  }

  function Run(s: System, cap: nat, actions: seq<Action>): System
    decreases |actions|
  {
    if actions == [] then s else Run(Step(s, cap, actions[0]), cap, actions[1..])
  }

  /** The events of the present lifetime. */
  function Current(s: System): set<Event> {
    set x | x in s.log && x.life == s.life :: x.event
  }

  // ------------------------------------------- what every step keeps

  ghost predicate Formatted(e: Event) {
    exists rest :: e.raw == Format(e.id, rest)
  }

  lemma SameTextSameEvent(e: Event, f: Event)
    requires Formatted(e) && Formatted(f) && e.raw == f.raw
    ensures e == f
  {
    var r :| e.raw == Format(e.id, r);
    var q :| f.raw == Format(f.id, q);
    FormatTellsId(e.id, r, f.id, q);
  }

  /** In every run, expiry or not, the buffer holds live events in id order. */
  ghost predicate Inv(s: System) {
    && Ordered(s.buffer)
    && (forall e <- s.buffer :: e in s.live)
    && (forall e <- s.live :: exists x <- s.log :: x.event == e)
    && (forall x <- s.log :: Formatted(x.event))
  }

  lemma AddKeepsInv(s: System, cap: nat, c: nat, rest: string)
    requires Inv(s)
    ensures Inv(Step(s, cap, Add(c, rest)))
  {
    if c in s.drawn {
      var t := s.drawn[c];
      var e := Event(t.id, Format(t.id, rest));
      ZAddKeepsOrder(s.buffer, e);
      var s' := Step(s, cap, Add(c, rest));
      assert s'.live == s.live + {e} && s'.log == s.log + {Logged(t.life, e)};
      forall f | f in s'.live ensures exists x <- s'.log :: x.event == f {
        if f == e {
          assert Logged(t.life, e) in s'.log;
        } else {
          var x :| x in s.log && x.event == f;
          assert x in s'.log;
        }
      }
    }
  }

  lemma StepKeepsInv(s: System, cap: nat, a: Action)
    requires Inv(s)
    ensures Inv(Step(s, cap, a))
  {
    match a
    case Add(c, rest) => AddKeepsInv(s, cap, c, rest);
    case TrimBuffer => TrimDropsOldest(s.buffer, cap);
    case _ =>
  }

  lemma {:induction false} RunKeepsInv(s: System, cap: nat, actions: seq<Action>)
    requires Inv(s)
    ensures Inv(Run(s, cap, actions))
    decreases |actions|
  {
    if actions != [] {
      StepKeepsInv(s, cap, actions[0]);
      RunKeepsInv(Step(s, cap, actions[0]), cap, actions[1..]);
    }
  }

  // ------------------------------------------- what a hit answers, in any run

  lemma {:induction false} FromScoreMembers(b: seq<Event>, lo: int)
    ensures forall x :: x in FromScore(b, lo) <==> x in b && x.id >= lo
  {
    if b != [] {
      FromScoreMembers(b[1..], lo);
      assert forall x :: x in b <==> x == b[0] || x in b[1..];
    }
  }

  lemma {:induction false} FromScoreOrdered(b: seq<Event>, lo: int)
    requires Ordered(b)
    ensures Ordered(FromScore(b, lo))
  {
    if b != [] {
      FromScoreOrdered(b[1..], lo);
      FromScoreMembers(b[1..], lo);
      var t := FromScore(b[1..], lo);
      forall j | 0 <= j < |t| ensures b[0].id <= t[j].id {
        assert t[j] in b[1..];
      }
    }
  }

  /** Over every run, with either key expiring at any time: a hit is answered, in id order,
      with the texts of the events that the buffer holds above `lastId` when the second
      command runs. So it leaves out a logged event, of whatever lifetime, exactly if that
      event's id is not above `lastId` or the buffer no longer holds it. */
  lemma HitOmitsWhatIsNotHeld(cap: nat, actions: seq<Action>, r: nat, x: Logged)
    requires IsPending(Run(INIT, cap, actions), r) && x in Run(INIT, cap, actions).log
    ensures var s := Run(INIT, cap, actions);
      var lastId, s' := s.readers[r].lastId, Step(s, cap, Read(r));
      && s'.readers[r].Answered? && s'.readers[r].answer.Some?
      && var answer := s'.readers[r].answer.value;
      && (x.event.raw !in answer <==> x.event.id <= lastId || x.event !in s.buffer)
      && exists es :: Ordered(es) && answer == RawOf(es)
  {
    RunKeepsInv(INIT, cap, actions);
    var s := Run(INIT, cap, actions);
    var lastId := s.readers[r].lastId;
    FromScoreOrdered(s.buffer, lastId + 1);
    assert Range(s.buffer, lastId) == RawOf(FromScore(s.buffer, lastId + 1));
    TextIsAnswered(s, lastId, x);
  }

  lemma TextIsAnswered(s: System, lastId: int, x: Logged)
    requires Inv(s) && x in s.log
    ensures x.event.raw in Range(s.buffer, lastId) <==> x.event.id > lastId && x.event in s.buffer
  {
    var es := FromScore(s.buffer, lastId + 1);
    FromScoreMembers(s.buffer, lastId + 1);
    if x.event.raw in RawOf(es) {
      var i :| 0 <= i < |es| && RawOf(es)[i] == x.event.raw;
      assert es[i] in es;
      var y :| y in s.log && y.event == es[i];
      SameTextSameEvent(x.event, es[i]);
    }
    if x.event in es {
      var i :| 0 <= i < |es| && es[i] == x.event;
      assert RawOf(es)[i] == x.event.raw;
    }
  }

  // ------------------------------------------- lifetimes that do not overlap

  /** The counter expires only when no drawn id is still to be written, and starts anew only
      when the buffer, which is refreshed after it and so expires after it, has expired too. */
  predicate Clean(s: System, a: Action) {
    && (a.ExpireCounter? ==> s.drawn == map[])
    && (a.Draw? && s.counter == 0 ==> s.live == {})
  }

  predicate CleanRun(s: System, cap: nat, actions: seq<Action>)
    decreases |actions|
  {
    actions == [] || (Clean(s, actions[0]) && CleanRun(Step(s, cap, actions[0]), cap, actions[1..]))
  }

  /** Within a lifetime ids are drawn and used once. */
  ghost predicate IdsInv(s: System) {
    && (forall c <- s.drawn :: s.drawn[c].life == s.life && 1 <= s.drawn[c].id <= s.counter)
    && (forall c, d :: c in s.drawn && d in s.drawn && c != d ==> s.drawn[c].id != s.drawn[d].id)
    && (forall x <- s.log :: x.life <= s.life)
    && (forall e <- Current(s) :: 1 <= e.id && (s.counter > 0 ==> e.id <= s.counter))
    && (forall e, c :: e in Current(s) && c in s.drawn ==> e.id != s.drawn[c].id)
    && (forall e, f :: e in Current(s) && f in Current(s) && e.id == f.id ==> e == f)
    && s.live <= Current(s)
  }

  lemma CurrentAfterAdd(s: System, cap: nat, c: nat, rest: string)
    requires c in s.drawn && s.drawn[c].life == s.life
    ensures var e := Event(s.drawn[c].id, Format(s.drawn[c].id, rest));
      var s' := Step(s, cap, Add(c, rest));
      && Current(s') == Current(s) + {e} && s'.live == s.live + {e}
      && s'.log == s.log + {Logged(s.life, e)} && s'.drawn == s.drawn - {c}
  {
    var e := Event(s.drawn[c].id, Format(s.drawn[c].id, rest));
    var s' := Step(s, cap, Add(c, rest));
    assert s'.log == s.log + {Logged(s.life, e)};
    assert forall f :: f in Current(s') <==> Logged(s.life, f) in s'.log;
    assert forall f :: f in Current(s) <==> Logged(s.life, f) in s.log;
  }

  lemma AddKeepsIds(s: System, cap: nat, c: nat, rest: string)
    requires IdsInv(s) && c in s.drawn
    ensures IdsInv(Step(s, cap, Add(c, rest)))
  {
    CurrentAfterAdd(s, cap, c, rest);
  }

  lemma CurrentAfterDraw(s: System, cap: nat, c: nat)
    requires IdsInv(s)
    ensures Current(Step(s, cap, Draw(c))) == if s.counter == 0 then {} else Current(s)
  {
  }

  lemma DrawKeepsIds(s: System, cap: nat, c: nat)
    requires IdsInv(s) && Clean(s, Draw(c))
    ensures IdsInv(Step(s, cap, Draw(c)))
  {
    CurrentAfterDraw(s, cap, c);
  }

  lemma StepKeepsIds(s: System, cap: nat, a: Action)
    requires IdsInv(s) && Clean(s, a)
    ensures IdsInv(Step(s, cap, a))
  {
    match a
    case Draw(c) => DrawKeepsIds(s, cap, c);
    case Add(c, rest) => if c in s.drawn { AddKeepsIds(s, cap, c, rest); }
    case _ => assert Current(Step(s, cap, a)) == Current(s);
  }

  // ------------------------------------------- the buffer is the newest part of what is live

  predicate Ascending(b: seq<Event>) {
    forall i, j :: 0 <= i < j < |b| ==> b[i].id < b[j].id
  }

  function Newer(log: set<Event>, id: int): set<Event> {
    set x | x in log && x.id > id
  }

  /** The event is older than the newest `cap` events held. */
  predicate Outdated(b: seq<Event>, cap: nat, e: Event) {
    0 < cap <= |b| && e.id < b[|b| - cap].id
  }

  /** The buffer holds live events, and the live events it does not hold are outdated. */
  ghost predicate BufferInv(b: seq<Event>, live: set<Event>, cap: nat) {
    && Ascending(b)
    && (forall e <- b :: e in live)
    && (forall e <- live :: e in b || Outdated(b, cap, e))
  }

  lemma {:induction false} RemoveAbsent(b: seq<Event>, raw: string)
    requires forall e <- b :: e.raw != raw
    ensures RemoveMember(b, raw) == b
  {
    if b != [] {
      RemoveAbsent(b[1..], raw);
    }
  }

  lemma {:induction false} InsertAscending(b: seq<Event>, e: Event)
    requires Ascending(b) && forall x <- b :: x.id != e.id
    ensures Ascending(InsertByScore(b, e))
    ensures forall x :: x in InsertByScore(b, e) <==> x in b || x == e
  {
    if b != [] && !Before(e, b[0]) {
      InsertAscending(b[1..], e);
      assert forall x :: x in b <==> x == b[0] || x in b[1..];
      var t := InsertByScore(b[1..], e);
      forall j | 0 <= j < |t| ensures b[0].id < t[j].id {
        assert t[j] in t;
      }
    }
  }

  lemma OneMoreEvent(init: seq<Event>, last: Event)
    ensures (set x | x in init + [last]) == (set x | x in init) + {last}
  {
  }

  lemma {:induction false} AscendingCount(b: seq<Event>)
    requires Ascending(b)
    ensures |set x | x in b| == |b|
  {
    if b == [] {
      assert (set x | x in b) == {};
    } else {
      var init, last := b[..|b| - 1], b[|b| - 1];
      AscendingCount(init);
      OneMoreEvent(init, last);
      assert b == init + [last];
      assert last !in init;
    }
  }

  lemma SubsetCount(a: set<Event>, b: set<Event>)
    requires a <= b
    ensures |a| <= |b| && (a != b ==> |a| < |b|)
  {
    assert b == a + (b - a);
  }

  /** Where an event is inserted. */
  function Place(b: seq<Event>, e: Event): (p: nat)
    ensures p <= |b|
  {
    if b == [] || Before(e, b[0]) then 0 else 1 + Place(b[1..], e)
  }

  /** What stands before that place stays, and what stands from there on moves up by one. */
  lemma {:induction false} InsertedAtPlace(b: seq<Event>, e: Event, i: nat)
    requires i < |b|
    ensures |InsertByScore(b, e)| == |b| + 1
    ensures InsertByScore(b, e)[if i < Place(b, e) then i else i + 1] == b[i]
  {
    if !Before(e, b[0]) {
      if i > 0 {
        InsertedAtPlace(b[1..], e, i - 1);
      } else {
        InsertLength(b[1..], e);
      }
    }
  }

  lemma {:induction false} InsertLength(b: seq<Event>, e: Event)
    ensures |InsertByScore(b, e)| == |b| + 1
  {
    if b != [] {
      InsertLength(b[1..], e);
    }
  }

  lemma InsertKeepsOutdated(b: seq<Event>, cap: nat, e: Event, x: Event)
    requires Ascending(b) && Ascending(InsertByScore(b, e)) && Outdated(b, cap, x)
    ensures Outdated(InsertByScore(b, e), cap, x)
  {
    InsertedAtPlace(b, e, |b| - cap);
  }

  lemma AddKeepsNewest(b: seq<Event>, live: set<Event>, cap: nat, e: Event)
    requires BufferInv(b, live, cap)
    requires forall x <- live :: x.id != e.id && x.raw != e.raw
    ensures BufferInv(ZAdd(b, e), live + {e}, cap)
  {
    RemoveAbsent(b, e.raw);
    InsertAscending(b, e);
    forall x | x in live && x !in b ensures Outdated(ZAdd(b, e), cap, x) {
      InsertKeepsOutdated(b, cap, e, x);
    }
  }

  lemma TrimKeepsNewest(b: seq<Event>, live: set<Event>, cap: nat)
    requires BufferInv(b, live, cap) && cap > 0
    ensures BufferInv(Trim(b, cap), live, cap)
  {
    if |b| > cap {
      var k := |b| - cap;
      var t := b[k..];
      assert t[|t| - cap] == b[k];
      forall e | e in live && e !in t ensures Outdated(t, cap, e) {
        if e in b {
          var i :| 0 <= i < |b| && b[i] == e;
          assert i < k;
        }
      }
    }
  }

  ghost predicate CleanInv(s: System, cap: nat) {
    Inv(s) && IdsInv(s) && BufferInv(s.buffer, s.live, cap)
  }

  lemma StepKeepsNewest(s: System, cap: nat, a: Action)
    requires CleanInv(s, cap) && Clean(s, a) && cap > 0
    ensures BufferInv(Step(s, cap, a).buffer, Step(s, cap, a).live, cap)
  {
    match a
    case Add(c, rest) =>
      if c in s.drawn {
        CurrentAfterAdd(s, cap, c, rest);
        var e := Event(s.drawn[c].id, Format(s.drawn[c].id, rest));
        assert Formatted(e);
        forall x | x in s.live ensures x.id != e.id && x.raw != e.raw {
          assert x in Current(s);
          var y :| y in s.log && y.event == x;
          if x.raw == e.raw {
            SameTextSameEvent(x, e);
          }
        }
        AddKeepsNewest(s.buffer, s.live, cap, e);
      }
    case TrimBuffer => TrimKeepsNewest(s.buffer, s.live, cap);
    case _ =>
  }

  lemma {:induction false} CleanRunKeepsInv(s: System, cap: nat, actions: seq<Action>)
    requires CleanInv(s, cap) && CleanRun(s, cap, actions) && cap > 0
    ensures CleanInv(Run(s, cap, actions), cap)
    decreases |actions|
  {
    if actions != [] {
      StepKeepsInv(s, cap, actions[0]);
      StepKeepsIds(s, cap, actions[0]);
      StepKeepsNewest(s, cap, actions[0]);
      CleanRunKeepsInv(Step(s, cap, actions[0]), cap, actions[1..]);
    }
  }

  /** No append still has its trim ahead. */
  predicate Trimmed(s: System, cap: nat) {
    |s.buffer| <= cap
  }

  lemma HoldsNewest(b: seq<Event>, live: set<Event>, cap: nat, e: Event)
    requires BufferInv(b, live, cap) && |b| <= cap && e in live
    ensures e in b <==> |Newer(live, e.id)| < cap
  {
    var held := set x | x in b;
    AscendingCount(b);
    if e in b {
      assert e !in Newer(live, e.id);
      assert Newer(live, e.id) <= held;
      SubsetCount(Newer(live, e.id), held);
    } else {
      SubsetCount(held, Newer(live, e.id));
    }
  }

  /** Over every clean run, whatever order the writes arrive in and with gaps, the trimmed
      buffer holds in id order exactly the events with fewer than `cap` newer ones among those
      appended since it last expired. */
  lemma BufferIsNewestPartOfLog(cap: nat, actions: seq<Action>, e: Event)
    requires cap > 0 && CleanRun(INIT, cap, actions) && Trimmed(Run(INIT, cap, actions), cap)
    ensures var s := Run(INIT, cap, actions);
      && Ascending(s.buffer)
      && (e in s.buffer <==> e in s.live && |Newer(s.live, e.id)| < cap)
  {
    CleanRunKeepsInv(INIT, cap, actions);
    var s := Run(INIT, cap, actions);
    if e in s.live {
      HoldsNewest(s.buffer, s.live, cap, e);
    }
  }

  // ------------------------------------------- the first command

  /** What the first command of a replay concludes from a trimmed buffer: a hit exactly if the
      client is at most one behind the oldest event held, and a miss whenever a live event
      that the client has not seen has been evicted by then. */
  lemma LookTellsEviction(cap: nat, actions: seq<Action>, lastId: int)
    requires cap > 0 && CleanRun(INIT, cap, actions) && Trimmed(Run(INIT, cap, actions), cap)
    ensures var s := Run(INIT, cap, actions);
      var verdict := VerdictOf(s.buffer, lastId);
      && (verdict == Hit <==> exists e :: e in s.live && |Newer(s.live, e.id)| < cap && e.id <= lastId + 1)
      && (verdict == Nothing <==> s.live == {} && lastId <= 0)
      && ((exists e :: e in s.live && e.id > lastId && e !in s.buffer) ==> verdict == Miss)
  {
    CleanRunKeepsInv(INIT, cap, actions);
    var s := Run(INIT, cap, actions);
    LookAtBuffer(s.buffer, s.live, cap, lastId);
  }

  lemma LookAtBuffer(b: seq<Event>, live: set<Event>, cap: nat, lastId: int)
    requires BufferInv(b, live, cap) && |b| <= cap && cap > 0
    ensures VerdictOf(b, lastId) == Hit
      <==> exists e :: e in live && |Newer(live, e.id)| < cap && e.id <= lastId + 1
    ensures b == [] <==> live == {}
    ensures forall e <- live :: e.id > lastId && e !in b ==> VerdictOf(b, lastId) == Miss
  {
    if b != [] {
      assert b[0] in b;
      HoldsNewest(b, live, cap, b[0]);
    }
    forall e | e in live && |Newer(live, e.id)| < cap && e.id <= lastId + 1
      ensures b != [] && b[0].id <= lastId + 1
    {
      HoldsNewest(b, live, cap, e);
      assert e == b[0] || b[0].id < e.id;
    }
    if live != {} {
      var e :| e in live;
      assert e in b || Outdated(b, cap, e);
    }
  }

  /** What a client is answered by the first command, in any run: it gets a miss exactly if the
      buffer is empty and it claims to have seen events, or it is more than one behind the
      oldest event held; an empty replay exactly if the buffer is empty and it claims nothing;
      and otherwise it goes on to the second command. */
  lemma LookIsAnswered(cap: nat, actions: seq<Action>, r: nat, lastId: int)
    requires r !in Run(INIT, cap, actions).readers
    ensures var s, s' := Run(INIT, cap, actions), Step(Run(INIT, cap, actions), cap, Look(r, lastId));
      && s'.readers.Keys == s.readers.Keys + {r}
      && (s'.readers[r] == Answered(lastId, None)
          <==> (s.buffer == [] && lastId > 0) || (s.buffer != [] && s.buffer[0].id > lastId + 1))
      && (s'.readers[r] == Answered(lastId, Some([])) <==> s.buffer == [] && lastId <= 0)
      && (s'.readers[r] == Pending(lastId) <==> s.buffer != [] && s.buffer[0].id <= lastId + 1)
      && s'.buffer == s.buffer
  {
  }

  /** A client that lacks an event which a trimmed buffer no longer holds is told so: over every
      clean run, its first command answers None. */
  lemma EvictionIsTold(cap: nat, actions: seq<Action>, r: nat, lastId: int, e: Event)
    requires cap > 0 && CleanRun(INIT, cap, actions) && Trimmed(Run(INIT, cap, actions), cap)
    requires r !in Run(INIT, cap, actions).readers
    requires e in Run(INIT, cap, actions).live && e.id > lastId && e !in Run(INIT, cap, actions).buffer
    ensures Step(Run(INIT, cap, actions), cap, Look(r, lastId)).readers[r] == Answered(lastId, None)
  {
    LookTellsEviction(cap, actions, lastId);
  }

  // ------------------------------------------- complete answers

  /** `raws` are the texts of all events of `log` after `lastId`, in id order. */
  ghost predicate IsFullReplay(raws: seq<string>, log: set<Event>, lastId: int) {
    exists es: seq<Event> ::
      Ascending(es) && raws == RawOf(es) && forall x :: x in es <==> x in log && x.id > lastId
  }

  /** All events the client needs are still held. */
  predicate NeededAreHeld(b: seq<Event>, log: set<Event>, lastId: int) {
    forall e <- log :: e.id > lastId ==> e in b
  }

  lemma FromScoreAscending(b: seq<Event>, lo: int)
    requires Ascending(b)
    ensures Ascending(FromScore(b, lo))
  {
    if b != [] {
      FromScoreAscending(b[1..], lo);
      FromScoreMembers(b[1..], lo);
      var t := FromScore(b[1..], lo);
      forall j | 0 <= j < |t| ensures b[0].id < t[j].id {
        assert t[j] in b[1..];
      }
    }
  }

  lemma FullIffHeld(s: System, cap: nat, lastId: int)
    requires CleanInv(s, cap)
    ensures IsFullReplay(Range(s.buffer, lastId), Current(s), lastId)
      <==> NeededAreHeld(s.buffer, Current(s), lastId)
  {
    var es := FromScore(s.buffer, lastId + 1);
    FromScoreMembers(s.buffer, lastId + 1);
    FromScoreAscending(s.buffer, lastId + 1);
    assert Range(s.buffer, lastId) == RawOf(es);
    if NeededAreHeld(s.buffer, Current(s), lastId) {
      assert forall x :: x in es <==> x in Current(s) && x.id > lastId;
    }
    if IsFullReplay(Range(s.buffer, lastId), Current(s), lastId) {
      var fs: seq<Event> :| Ascending(fs) && RawOf(es) == RawOf(fs)
        && forall x :: x in fs <==> x in Current(s) && x.id > lastId;
      forall e | e in Current(s) && e.id > lastId ensures e in s.buffer {
        var i :| 0 <= i < |fs| && fs[i] == e;
        assert RawOf(fs)[i] == e.raw;
        TextIsAnswered(s, lastId, Logged(s.life, e));
      }
    }
  }

  lemma HeldIffFew(b: seq<Event>, live: set<Event>, cap: nat, lastId: int)
    requires BufferInv(b, live, cap) && |b| <= cap
    ensures NeededAreHeld(b, live, lastId) <==> |Newer(live, lastId)| <= cap
  {
    var held := set x | x in b;
    AscendingCount(b);
    if NeededAreHeld(b, live, lastId) {
      SubsetCount(Newer(live, lastId), held);
    } else {
      var e :| e in live && e.id > lastId && e !in b;
      HoldsNewest(b, live, cap, e);
      SubsetCount(Newer(live, e.id) + {e}, Newer(live, lastId));
      assert e !in Newer(live, e.id);
    }
  }

  /** Over every clean run: the answer to a hit is complete for the present lifetime exactly if
      every event of it above `lastId` is still held when the second command runs; with a
      trimmed buffer, exactly if none of them expired with an earlier buffer and there are at
      most `cap` of them. */
  lemma HitIsCompleteIffHeld(cap: nat, actions: seq<Action>, r: nat)
    requires cap > 0 && CleanRun(INIT, cap, actions) && IsPending(Run(INIT, cap, actions), r)
    ensures var s := Run(INIT, cap, actions);
      var lastId := s.readers[r].lastId;
      var full := IsFullReplay(Range(s.buffer, lastId), Current(s), lastId);
      && Step(s, cap, Read(r)).readers[r] == Answered(lastId, Some(Range(s.buffer, lastId)))
      && (full <==> NeededAreHeld(s.buffer, Current(s), lastId))
      && (Trimmed(s, cap) ==>
           (full <==> Newer(Current(s), lastId) <= s.live && |Newer(s.live, lastId)| <= cap))
  {
    CleanRunKeepsInv(INIT, cap, actions);
    var s := Run(INIT, cap, actions);
    FullIffHeld(s, cap, s.readers[r].lastId);
    if Trimmed(s, cap) {
      HeldIffLiveAndFew(s, cap, s.readers[r].lastId);
    }
  }

  lemma HeldIffLiveAndFew(s: System, cap: nat, lastId: int)
    requires CleanInv(s, cap) && Trimmed(s, cap)
    ensures NeededAreHeld(s.buffer, Current(s), lastId)
      <==> Newer(Current(s), lastId) <= s.live && |Newer(s.live, lastId)| <= cap
  {
    HeldIffFew(s.buffer, s.live, cap, lastId);
  }

  // ------------------------------------------- between the two commands

  predicate KeepsBuffer(actions: seq<Action>) {
    forall a <- actions :: !a.ExpireBuffer?
  }

  lemma StepExpiresNothing(s: System, cap: nat, a: Action)
    requires CleanInv(s, cap) && Clean(s, a) && !a.ExpireBuffer? && s.live == Current(s) != {}
    ensures Step(s, cap, a).live == Current(Step(s, cap, a)) != {} && Step(s, cap, a).life == s.life
  {
    if a.Add? && a.connection in s.drawn {
      CurrentAfterAdd(s, cap, a.connection, a.rest);
    } else if a.Draw? {
      CurrentAfterDraw(s, cap, a.connection);
    } else {
      assert Step(s, cap, a).log == s.log;
    }
  }

  lemma {:induction false} NothingExpires(s: System, cap: nat, actions: seq<Action>)
    requires CleanInv(s, cap) && CleanRun(s, cap, actions) && KeepsBuffer(actions) && cap > 0
    requires s.live == Current(s) != {}
    ensures var s' := Run(s, cap, actions);
      CleanInv(s', cap) && s'.live == Current(s') && s'.life == s.life
    decreases |actions|
  {
    if actions != [] {
      StepKeepsInv(s, cap, actions[0]);
      StepKeepsIds(s, cap, actions[0]);
      StepKeepsNewest(s, cap, actions[0]);
      StepExpiresNothing(s, cap, actions[0]);
      NothingExpires(Step(s, cap, actions[0]), cap, actions[1..]);
    }
  }

  lemma {:induction false} ReaderWaits(s: System, cap: nat, actions: seq<Action>, r: nat)
    requires r in s.readers && IsPending(Run(s, cap, actions), r)
    ensures Run(s, cap, actions).readers[r] == s.readers[r]
    decreases |actions|
  {
    if actions != [] {
      var s' := Step(s, cap, actions[0]);
      assert r in s'.readers && (s'.readers[r] == s.readers[r] || s'.readers[r].Answered?);
      if s'.readers[r].Answered? {
        StaysAnswered(s', cap, actions[1..], r);
      }
      ReaderWaits(s', cap, actions[1..], r);
    }
  }

  lemma {:induction false} StaysAnswered(s: System, cap: nat, actions: seq<Action>, r: nat)
    requires r in s.readers && s.readers[r].Answered?
    ensures r in Run(s, cap, actions).readers && Run(s, cap, actions).readers[r] == s.readers[r]
    decreases |actions|
  {
    if actions != [] {
      StaysAnswered(Step(s, cap, actions[0]), cap, actions[1..], r);
    }
  }

  /** A replay whose first command hit a trimmed buffer had everything it needed before it then,
      and its answer is complete exactly if nothing needed is evicted before its second command:
      if and only if at most `cap` events are above `lastId` by the time of that. */
  lemma HitIsCompleteIffNothingEvicted(cap: nat, before: seq<Action>, r: nat, lastId: int, between: seq<Action>)
    requires cap > 0 && CleanRun(INIT, cap, before) && KeepsBuffer(between)
    requires CleanRun(Step(Run(INIT, cap, before), cap, Look(r, lastId)), cap, between)
    requires var s1 := Run(INIT, cap, before);
      && Trimmed(s1, cap) && s1.live == Current(s1) && r !in s1.readers && VerdictOf(s1.buffer, lastId) == Hit
      && var s2 := Run(Step(s1, cap, Look(r, lastId)), cap, between);
      Trimmed(s2, cap) && IsPending(s2, r)
    ensures var s1 := Run(INIT, cap, before);
      var s2 := Run(Step(s1, cap, Look(r, lastId)), cap, between);
      && NeededAreHeld(s1.buffer, Current(s1), lastId)
      && Step(s2, cap, Read(r)).readers[r] == Answered(lastId, Some(Range(s2.buffer, lastId)))
      && (IsFullReplay(Range(s2.buffer, lastId), Current(s2), lastId)
          <==> NeededAreHeld(s2.buffer, Current(s2), lastId))
      && (IsFullReplay(Range(s2.buffer, lastId), Current(s2), lastId) <==> |Newer(Current(s2), lastId)| <= cap)
  {
    CleanRunKeepsInv(INIT, cap, before);
    HitBeforeRead(Run(INIT, cap, before), cap, r, lastId, between);
  }

  lemma HitBeforeRead(s1: System, cap: nat, r: nat, lastId: int, between: seq<Action>)
    requires cap > 0 && CleanInv(s1, cap) && KeepsBuffer(between)
    requires CleanRun(Step(s1, cap, Look(r, lastId)), cap, between)
    requires Trimmed(s1, cap) && s1.live == Current(s1) && r !in s1.readers && VerdictOf(s1.buffer, lastId) == Hit
    requires var s2 := Run(Step(s1, cap, Look(r, lastId)), cap, between);
      Trimmed(s2, cap) && IsPending(s2, r)
    ensures NeededAreHeld(s1.buffer, Current(s1), lastId)
    ensures var s2 := Run(Step(s1, cap, Look(r, lastId)), cap, between);
      && Step(s2, cap, Read(r)).readers[r] == Answered(lastId, Some(Range(s2.buffer, lastId)))
      && (IsFullReplay(Range(s2.buffer, lastId), Current(s2), lastId)
          <==> NeededAreHeld(s2.buffer, Current(s2), lastId))
      && (NeededAreHeld(s2.buffer, Current(s2), lastId) <==> |Newer(Current(s2), lastId)| <= cap)
  {
    HitHasAllNeeded(s1.buffer, s1.live, cap, lastId);
    LookLeavesBuffer(s1, cap, r, lastId);
    assert s1.buffer[0] in s1.live;
    var s := Step(s1, cap, Look(r, lastId));
    NothingExpires(s, cap, between);
    ReaderWaits(s, cap, between, r);
    CompleteIffFew(Run(s, cap, between), cap, r, lastId);
  }

  lemma HitHasAllNeeded(b: seq<Event>, live: set<Event>, cap: nat, lastId: int)
    requires BufferInv(b, live, cap) && |b| <= cap && cap > 0 && VerdictOf(b, lastId) == Hit
    ensures NeededAreHeld(b, live, lastId)
  {
    LookAtBuffer(b, live, cap, lastId);
  }

  lemma LookLeavesBuffer(s: System, cap: nat, r: nat, lastId: int)
    requires CleanInv(s, cap) && r !in s.readers && VerdictOf(s.buffer, lastId) == Hit
    ensures var s' := Step(s, cap, Look(r, lastId));
      CleanInv(s', cap) && Current(s') == Current(s) && s'.live == s.live
      && r in s'.readers && s'.readers[r] == Pending(lastId)
  {
    assert Current(Step(s, cap, Look(r, lastId))) == Current(s);
  }

  lemma CompleteIffFew(s: System, cap: nat, r: nat, lastId: int)
    requires CleanInv(s, cap) && s.live == Current(s) && Trimmed(s, cap)
    requires r in s.readers && s.readers[r] == Pending(lastId)
    ensures Step(s, cap, Read(r)).readers[r] == Answered(lastId, Some(Range(s.buffer, lastId)))
    ensures IsFullReplay(Range(s.buffer, lastId), Current(s), lastId) <==> NeededAreHeld(s.buffer, Current(s), lastId)
    ensures NeededAreHeld(s.buffer, Current(s), lastId) <==> |Newer(Current(s), lastId)| <= cap
  {
    FullIffHeld(s, cap, lastId);
    HeldIffFew(s.buffer, s.live, cap, lastId);
  }

  // ------------------------------------------- after a restart of the counter

  /** What a client has not seen whose last event had id `lastId` in lifetime `life`. */
  function Unseen(s: System, life: nat, lastId: int): set<Logged> {
    set x | x in s.log && (x.life > life || (x.life == life && x.event.id > lastId))
  }

  /** Over every clean run, for a client of an earlier lifetime whose stale id was a hit, when
      the buffer is trimmed: the answer gives it all it has not seen if and only if no event of
      this lifetime has an id up to its own or has expired with an earlier buffer, no more than
      `cap` have been logged, and nothing it has not seen is left from an earlier lifetime. */
  lemma StaleHitOmitsIff(cap: nat, actions: seq<Action>, r: nat, life: nat)
    requires cap > 0 && CleanRun(INIT, cap, actions) && IsPending(Run(INIT, cap, actions), r)
    requires life < Run(INIT, cap, actions).life && Trimmed(Run(INIT, cap, actions), cap)
    ensures var s := Run(INIT, cap, actions);
      var lastId := s.readers[r].lastId;
      var answer := Range(s.buffer, lastId);
      && Step(s, cap, Read(r)).readers[r] == Answered(lastId, Some(answer))
      && ((forall x <- Unseen(s, life, lastId) :: x.event.raw in answer) <==>
           && (forall e <- Current(s) :: e.id > lastId)
           && s.live == Current(s) && |Current(s)| <= cap
           && (forall x <- Unseen(s, life, lastId) :: x.event in Current(s)))
  {
    CleanRunKeepsInv(INIT, cap, actions);
    var s := Run(INIT, cap, actions);
    StaleAnswer(s, cap, life, s.readers[r].lastId);
  }

  lemma StaleAnswer(s: System, cap: nat, life: nat, lastId: int)
    requires CleanInv(s, cap) && life < s.life && Trimmed(s, cap)
    ensures (forall x <- Unseen(s, life, lastId) :: x.event.raw in Range(s.buffer, lastId)) <==>
      && (forall e <- Current(s) :: e.id > lastId)
      && s.live == Current(s) && |Current(s)| <= cap
      && (forall x <- Unseen(s, life, lastId) :: x.event in Current(s))
  {
    forall x | x in Unseen(s, life, lastId)
      ensures x.event.raw in Range(s.buffer, lastId) <==> x.event.id > lastId && x.event in s.buffer
    {
      TextIsAnswered(s, lastId, x);
    }
    CurrentIsHeld(s, cap);
    forall e | e in Current(s) ensures Logged(s.life, e) in Unseen(s, life, lastId) {}
  }

  lemma CurrentIsHeld(s: System, cap: nat)
    requires CleanInv(s, cap) && Trimmed(s, cap)
    ensures (forall e <- Current(s) :: e in s.buffer) <==> s.live == Current(s) && |Current(s)| <= cap
  {
    HeldIffFew(s.buffer, s.live, cap, 0);
    assert Newer(s.live, 0) == s.live;
  }

  // ------------------------------------------- runs that omit events

  lemma Unfold(s: System, cap: nat, a: Action, rest: seq<Action>)
    ensures Run(s, cap, [a] + rest) == Run(Step(s, cap, a), cap, rest)
  {
    assert ([a] + rest)[1..] == rest;
  }

  /** Draw the next id, append under it, trim. */
  function Emission(c: nat, rest: string): seq<Action> {
    [Draw(c), Add(c, rest), TrimBuffer]
  }

  lemma {:induction false} RunConcat(s: System, cap: nat, a: seq<Action>, b: seq<Action>)
    ensures Run(s, cap, a + b) == Run(Run(s, cap, a), cap, b)
    decreases |a|
  {
    if a == [] {
      assert a + b == b;
    } else {
      assert (a + b)[1..] == a[1..] + b;
      RunConcat(Step(s, cap, a[0]), cap, a[1..], b);
    }
  }

  function Emitted(s: System, cap: nat, c: nat, rest: string): System {
    Step(Step(Step(s, cap, Draw(c)), cap, Add(c, rest)), cap, TrimBuffer)
  }

  lemma EmissionRuns(s: System, cap: nat, c: nat, rest: string, more: seq<Action>)
    ensures Run(s, cap, Emission(c, rest) + more) == Run(Emitted(s, cap, c, rest), cap, more)
  {
    RunConcat(s, cap, Emission(c, rest), more);
    assert Emission(c, rest) == [Draw(c)] + ([Add(c, rest)] + ([TrimBuffer] + []));
    Unfold(s, cap, Draw(c), [Add(c, rest)] + ([TrimBuffer] + []));
    Unfold(Step(s, cap, Draw(c)), cap, Add(c, rest), [TrimBuffer] + []);
    Unfold(Step(Step(s, cap, Draw(c)), cap, Add(c, rest)), cap, TrimBuffer, []);
  }

  /** A buffer for one event: the client looks while event 1 is held, and reads after event 2
      has evicted it. The answer is a hit, and leaves out event 1. */
  lemma EvictionBetweenCommands(a: string, b: string)
    ensures var s := Run(INIT, 1, Emission(0, a) + ([Look(0, 0)] + (Emission(0, b) + [Read(0)])));
      && s.readers == map[0 := Answered(0, Some([Format(2, b)]))]
      && Logged(1, Event(1, Format(1, a))) in s.log
  {
    EmissionRuns(INIT, 1, 0, a, [Look(0, 0)] + (Emission(0, b) + [Read(0)]));
    FirstOfLifetime(INIT, 1, 0, a);
    var s1 := Emitted(INIT, 1, 0, a);
    Unfold(s1, 1, Look(0, 0), Emission(0, b) + [Read(0)]);
    ReadAfterEviction(Step(s1, 1, Look(0, 0)), a, b);
  }

  lemma ReadAfterEviction(s: System, a: string, b: string)
    requires s.counter == 1 && s.buffer == [Event(1, Format(1, a))] && s.drawn == map[]
    requires s.readers == map[0 := Pending(0)]
    ensures var s' := Run(s, 1, Emission(0, b) + [Read(0)]);
      s'.readers == map[0 := Answered(0, Some([Format(2, b)]))] && s.log <= s'.log
  {
    var e, f := Event(1, Format(1, a)), Event(2, Format(2, b));
    EmissionRuns(s, 1, 0, b, [Read(0)]);
    assert Formatted(e);
    SecondEvicts(s, e, b);
    ReadsOne(Emitted(s, 1, 0, b), f);
  }

  lemma ReadsOne(s: System, f: Event)
    requires s.buffer == [f] && f.id == 2 && s.readers == map[0 := Pending(0)]
    ensures Run(s, 1, [Read(0)]).readers == map[0 := Answered(0, Some([f.raw]))]
    ensures Run(s, 1, [Read(0)]).log == s.log
  {
    Unfold(s, 1, Read(0), []);
    assert [Read(0)] + [] == [Read(0)];
    assert [f][1..] == [];
    assert FromScore([f], 1) == [f] + FromScore([], 1) == [f];
    assert RawOf([f]) == [f.raw];
  }

  lemma FirstOfLifetime(s: System, cap: nat, c: nat, rest: string)
    requires s.counter == 0 && s.buffer == [] && s.drawn == map[] && cap > 0
    ensures var e, s' := Event(1, Format(1, rest)), Emitted(s, cap, c, rest);
      && s'.counter == 1 && s'.buffer == [e] && s'.drawn == map[] && s'.log == s.log + {Logged(s.life + 1, e)}
      && s'.life == s.life + 1 && s'.readers == s.readers && s'.live == s.live + {e}
  {
    var s1 := Step(s, cap, Draw(c));
    assert s1.drawn == map[c := Ticket(s.life + 1, 1)];
    assert Step(s1, cap, Add(c, rest)).drawn == map[];
  }

  lemma SecondEvicts(s: System, e: Event, rest: string)
    requires s.counter == 1 && s.buffer == [e] && e.id == 1 && s.drawn == map[]
    requires Formatted(e)
    ensures var f, s' := Event(2, Format(2, rest)), Emitted(s, 1, 0, rest);
      && s'.buffer == [f] && s'.log == s.log + {Logged(s.life, f)} && s'.readers == s.readers
  {
    var f := Event(2, Format(2, rest));
    if e.raw == f.raw {
      SameTextSameEvent(e, f);
    }
    var s1 := Step(s, 1, Draw(0));
    assert s1.drawn == map[0 := Ticket(s.life, 2)];
    assert RemoveMember([e], f.raw) == [e];
    assert InsertByScore([e], f) == [e] + InsertByScore([], f) == [e, f];
  }

  lemma TwoHeld(e: Event, f: Event)
    requires e.id < f.id && e.raw != f.raw
    ensures ZAdd([e], f) == [e, f] && ZAdd([f], e) == [e, f]
  {
    assert RemoveMember([e], f.raw) == [e] && RemoveMember([f], e.raw) == [f];
    assert [e][1..] == [] && [f][1..] == [];
    assert InsertByScore([e], f) == [e] + InsertByScore([], f);
  }

  const EARLY := [Draw(0), Draw(1)]

  lemma ThreeDrawn(b: string)
    ensures var s2 := Step(Step(INIT, 1, Draw(0)), 1, Draw(1));
      var s, e := Step(Step(s2, 1, Draw(2)), 1, Add(1, b)), Event(2, Format(2, b));
      && s.buffer == [e] && s.drawn == map[0 := Ticket(1, 1), 2 := Ticket(1, 3)]
      && s.readers == map[] && s.log == {Logged(1, e)}
  {
    var s3 := Step(Step(Step(INIT, 1, Draw(0)), 1, Draw(1)), 1, Draw(2));
    assert s3.drawn == map[0 := Ticket(1, 1), 1 := Ticket(1, 2), 2 := Ticket(1, 3)];
  }

  /** Three ids are drawn, event 2 appended, then event 3, which evicts it. */
  lemma SecondIsEvicted(b: string, c: string, more: seq<Action>)
    ensures exists s ::
      && Run(INIT, 1, EARLY + ([Draw(2), Add(1, b)] + ([TrimBuffer, Add(2, c)] + ([TrimBuffer] + more)))) == Run(s, 1, more)
      && s.buffer == [Event(3, Format(3, c))] && s.drawn == map[0 := Ticket(1, 1)] && s.readers == map[]
      && Logged(1, Event(2, Format(2, b))) in s.log
  {
    RunConcat(INIT, 1, EARLY, [Draw(2), Add(1, b)] + ([TrimBuffer, Add(2, c)] + ([TrimBuffer] + more)));
    RunOf2(INIT, 1, Draw(0), Draw(1));
    var s2 := Step(Step(INIT, 1, Draw(0)), 1, Draw(1));
    RunConcat(s2, 1, [Draw(2), Add(1, b)], [TrimBuffer, Add(2, c)] + ([TrimBuffer] + more));
    RunOf2(s2, 1, Draw(2), Add(1, b));
    ThreeDrawn(b);
    ThirdEvicts(Step(Step(s2, 1, Draw(2)), 1, Add(1, b)), b, c, more);
  }

  lemma ThirdEvicts(s: System, b: string, c: string, more: seq<Action>)
    requires s.buffer == [Event(2, Format(2, b))] && s.readers == map[]
    requires s.drawn == map[0 := Ticket(1, 1), 2 := Ticket(1, 3)]
    ensures var s' := Step(Step(Step(s, 1, TrimBuffer), 1, Add(2, c)), 1, TrimBuffer);
      && Run(s, 1, [TrimBuffer, Add(2, c)] + ([TrimBuffer] + more)) == Run(s', 1, more)
      && s'.buffer == [Event(3, Format(3, c))] && s'.drawn == map[0 := Ticket(1, 1)] && s'.readers == map[]
      && s.log <= s'.log
  {
    var e, f := Event(2, Format(2, b)), Event(3, Format(3, c));
    RunConcat(s, 1, [TrimBuffer, Add(2, c)], [TrimBuffer] + more);
    RunOf2(s, 1, TrimBuffer, Add(2, c));
    if e.raw == f.raw {
      FormatTellsId(2, b, 3, c);
    }
    TwoHeld(e, f);
    var s1 := Step(Step(s, 1, TrimBuffer), 1, Add(2, c));
    assert s1.buffer == [e, f];
    Unfold(s1, 1, TrimBuffer, more);
  }

  /** A buffer for one event: event 1 is appended late, after event 2 has been evicted, and the
      client looks before the append's trim. That is a hit, although event 2 was gone. */
  lemma UntrimmedLookHits(a: string, b: string, c: string)
    ensures var last := [Add(0, a)] + [Look(0, 0), Read(0)];
      var s := Run(INIT, 1, EARLY + ([Draw(2), Add(1, b)] + ([TrimBuffer, Add(2, c)] + ([TrimBuffer] + last))));
      && s.readers == map[0 := Answered(0, Some([Format(1, a), Format(3, c)]))]
      && Logged(1, Event(2, Format(2, b))) in s.log
  {
    var last := [Add(0, a)] + [Look(0, 0), Read(0)];
    SecondIsEvicted(b, c, last);
    var s :|
      && Run(INIT, 1, EARLY + ([Draw(2), Add(1, b)] + ([TrimBuffer, Add(2, c)] + ([TrimBuffer] + last)))) == Run(s, 1, last)
      && s.buffer == [Event(3, Format(3, c))] && s.drawn == map[0 := Ticket(1, 1)] && s.readers == map[]
      && Logged(1, Event(2, Format(2, b))) in s.log;
    LateAppend(s, a, c);
  }

  lemma LateAppend(s: System, a: string, c: string)
    requires s.buffer == [Event(3, Format(3, c))] && s.drawn == map[0 := Ticket(1, 1)] && s.readers == map[]
    ensures var s' := Run(s, 1, [Add(0, a)] + [Look(0, 0), Read(0)]);
      && s'.readers == map[0 := Answered(0, Some([Format(1, a), Format(3, c)]))] && s.log <= s'.log
  {
    var e, f := Event(1, Format(1, a)), Event(3, Format(3, c));
    if e.raw == f.raw {
      FormatTellsId(1, a, 3, c);
    }
    TwoHeld(e, f);
    Unfold(s, 1, Add(0, a), [Look(0, 0), Read(0)]);
    var s1 := Step(s, 1, Add(0, a));
    RunOf2(s1, 1, Look(0, 0), Read(0));
    assert [e, f][1..] == [f] && [f][1..] == [];
    assert FromScore([e, f], 1) == [e] + FromScore([f], 1) == [e, f];
    assert RawOf([e, f]) == [e.raw, f.raw];
  }

  /** The counter expires after event 1, and then the buffer; the client, whose last id is 1,
      looks when event 1 of the new lifetime has been appended. That is a hit with an empty answer. */
  lemma StaleIdAfterRestart(cap: nat, a: string, b: string)
    requires cap > 0
    ensures var actions := Emission(0, a) + ([ExpireCounter, ExpireBuffer] + (Emission(0, b) + [Look(0, 1), Read(0)]));
      var s := Run(INIT, cap, actions);
      && s.life == 2 && Logged(2, Event(1, Format(1, b))) in Unseen(s, 1, 1)
      && s.readers == map[0 := Answered(1, Some([]))]
  {
    var last := [Look(0, 1), Read(0)];
    EmissionRuns(INIT, cap, 0, a, [ExpireCounter, ExpireBuffer] + (Emission(0, b) + last));
    FirstOfLifetime(INIT, cap, 0, a);
    var s1 := Emitted(INIT, cap, 0, a);
    RunConcat(s1, cap, [ExpireCounter, ExpireBuffer], Emission(0, b) + last);
    RunOf2(s1, cap, ExpireCounter, ExpireBuffer);
    StaleClient(Step(Step(s1, cap, ExpireCounter), cap, ExpireBuffer), cap, b);
  }

  lemma StaleClient(s: System, cap: nat, b: string)
    requires s.counter == 0 && s.buffer == [] && s.drawn == map[] && s.readers == map[] && s.life == 1 && cap > 0
    ensures var s' := Run(s, cap, Emission(0, b) + [Look(0, 1), Read(0)]);
      && s'.life == 2 && Logged(2, Event(1, Format(1, b))) in Unseen(s', 1, 1)
      && s'.readers == map[0 := Answered(1, Some([]))]
  {
    var e := Event(1, Format(1, b));
    EmissionRuns(s, cap, 0, b, [Look(0, 1), Read(0)]);
    FirstOfLifetime(s, cap, 0, b);
    var s2 := Emitted(s, cap, 0, b);
    RunOf2(s2, cap, Look(0, 1), Read(0));
    assert FromScore([e], 2) == FromScore([], 2) == [] && RawOf([]) == [];
    assert Step(s2, cap, Look(0, 1)).readers == map[0 := Pending(1)];
  }

  lemma RunOf2(s: System, cap: nat, a: Action, b: Action)
    ensures Run(s, cap, [a, b]) == Step(Step(s, cap, a), cap, b)
  {
    assert [a, b] == [a] + ([b] + []);
    Unfold(s, cap, a, [b] + []);
    Unfold(Step(s, cap, a), cap, b, []);
  }
}
