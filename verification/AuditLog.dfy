/** `AuditLogRepository.append` and `query` of src/tta/persistence/audit_repo.py. */
module AuditLog {
  import opened Wrappers
  import Cursor = AuditCursor

  const MAX_LIMIT := 1000

  datatype Row = Row(id: Cursor.Uuid, adminId: string, action: string, targetType: string,
                     targetId: string, reason: string, sourceIp: string, timestamp: Cursor.Aware)

  /** An empty text filters nothing, like a missing one. */
  datatype Filters = Filters(adminId: string, action: string, targetType: string, targetId: string,
                             fromTime: Option<Cursor.Aware>, toTime: Option<Cursor.Aware>)

  // ------------------------------------------- the order of rows

  datatype Key = Key(instant: int, id: int)

  function KeyOf(r: Row): Key {
    Key(Cursor.Instant(r.timestamp), r.id)
  }

  /** SQL's row comparison `(timestamp, id) < (...)`. */
  predicate Less(a: Key, b: Key) {
    a.instant < b.instant || (a.instant == b.instant && a.id < b.id)
  }

  // ------------------------------------------- query

  predicate Matches(r: Row, f: Filters) {
    && (f.adminId != "" ==> r.adminId == f.adminId)
    && (f.action != "" ==> r.action == f.action)
    && (f.targetType != "" ==> r.targetType == f.targetType)
    && (f.targetId != "" ==> r.targetId == f.targetId)
    && (f.fromTime.Some? ==> Cursor.Instant(r.timestamp) >= Cursor.Instant(f.fromTime.value))
    && (f.toTime.Some? ==> Cursor.Instant(r.timestamp) <= Cursor.Instant(f.toTime.value))
  }

  predicate Selected(r: Row, f: Filters, below: Option<Key>) {
    Matches(r, f) && (below.Some? ==> Less(KeyOf(r), below.value))
  }

  function InsertDescending(r: Row, rows: seq<Row>): seq<Row> {
    if rows == [] || Less(KeyOf(rows[0]), KeyOf(r)) then [r] + rows
    else [rows[0]] + InsertDescending(r, rows[1..])
  }

  /** WHERE and ORDER BY timestamp DESC, id DESC. */
  function Descending(log: seq<Row>, f: Filters, below: Option<Key>): seq<Row> {
    if log == [] then []
    else
      var rest := Descending(log[..|log| - 1], f, below);
      if Selected(log[|log| - 1], f, below) then InsertDescending(log[|log| - 1], rest) else rest
  }

  function Take(rows: seq<Row>, n: nat): seq<Row> {
    if |rows| <= n then rows else rows[..n]
  }

  /** An empty cursor is no cursor; one with a time that has no zone cannot be compared. */
  function Below(cursor: string): Result<Option<Key>> {
    if cursor == "" then Success(None)
    else
      match Cursor.Decode(cursor)
      case None => Failure
      case Some((t, id)) => if t.zone.Naive? then Failure else Success(Some(Key(Cursor.Instant(t), id)))
  }

  /** A cursor that does not decode and a negative limit both raise. */
  function Query(log: seq<Row>, f: Filters, cursor: string, limit: int): Result<seq<Row>> {
    var lim := if limit < MAX_LIMIT then limit else MAX_LIMIT;
    match Below(cursor)
    case Failure => Failure
    case Success(below) =>
      if lim < 0 then Failure else Success(Take(Descending(log, f, below), lim))
  }

  /** The identifier is the primary key: inserting it twice raises. */
  function Append(log: seq<Row>, r: Row): seq<Row> {
    if exists x <- log :: x.id == r.id then log else log + [r]
  }

  datatype Clause =
    | AdminIs(adminId: string)
    | ActionIs(action: string)
    | TargetTypeIs(targetType: string)
    | TargetIdIs(targetId: string)
    | NotBefore(from: Cursor.Aware)
    | NotAfter(to: Cursor.Aware)
    | BelowKey(key: Key)

  predicate Holds(c: Clause, r: Row) {
    match c
    case AdminIs(a) => r.adminId == a
    case ActionIs(a) => r.action == a
    case TargetTypeIs(t) => r.targetType == t
    case TargetIdIs(t) => r.targetId == t
    case NotBefore(t) => Cursor.Instant(r.timestamp) >= Cursor.Instant(t)
    case NotAfter(t) => Cursor.Instant(r.timestamp) <= Cursor.Instant(t)
    case BelowKey(k) => Less(KeyOf(r), k)
  }

  /** The clauses joined by AND. */
  predicate AllHold(clauses: seq<Clause>, r: Row) {
    forall c <- clauses :: Holds(c, r)
  }

  /** What AND does with one clause more. */
  lemma AndClause(clauses: seq<Clause>, c: Clause)
    ensures forall r :: AllHold(clauses + [c], r) <==> AllHold(clauses, r) && Holds(c, r)
  {
  }

  class Repository {
    var log: seq<Row>

    constructor ()
      ensures log == []
    {
      log := [];
    }

    method AppendEntry(r: Row) returns (ok: bool)
      requires DistinctIds(log)
      modifies this
      ensures log == Append(old(log), r) && DistinctIds(log)
      ensures log == if ok then old(log) + [r] else old(log)
      ensures ok <==> forall x <- old(log) :: x.id != r.id
    {
      ok := forall x <- log :: x.id != r.id;
      if ok {
        log := log + [r];
      }
    }

    /** The clauses of the WHERE are collected, one for each filter given, and select the rows. */
    method QueryPage(f: Filters, cursor: string, limit: int) returns (page: Result<seq<Row>>)
      ensures page == Query(log, f, cursor, limit)
    {
      var lim := if limit < MAX_LIMIT then limit else MAX_LIMIT;
      var clauses := WhereClauses(f, cursor);
      if clauses.Failure? || lim < 0 {
        return Failure;
      }
      var rows := SelectRows(clauses.value, f, Below(cursor).value);
      page := Success(Take(rows, lim));
    }

    static method WhereClauses(f: Filters, cursor: string) returns (clauses: Result<seq<Clause>>)
      ensures clauses.Failure? <==> Below(cursor).Failure?
      ensures clauses.Success? ==> forall r :: AllHold(clauses.value, r) <==> Selected(r, f, Below(cursor).value)
    {
      var below := ReadCursor(cursor);
      if below.Failure? {
        return Failure;
      }
      var filters := KeyClauses(f, below.value);
      clauses := Success(filters);
    }

    static method ReadCursor(cursor: string) returns (below: Result<Option<Key>>)
      ensures below == Below(cursor)
    {
      if cursor == "" {
        return Success(None);
      }
      var decoded := Cursor.Decode(cursor);
      if decoded.None? || decoded.value.0.zone.Naive? {
        return Failure;
      }
      below := Success(Some(Key(Cursor.Instant(decoded.value.0), decoded.value.1)));
    }

    static method KeyClauses(f: Filters, below: Option<Key>) returns (clauses: seq<Clause>)
      ensures forall r :: AllHold(clauses, r) <==> Selected(r, f, below)
    {
      clauses := FilterClauses(f);
      if below.Some? {
        clauses := AddClause(clauses, true, BelowKey(below.value));
      }
    }

    /** A row at a time, in descending order; the filters and the key say what the clauses mean. */
    method SelectRows(clauses: seq<Clause>, ghost f: Filters, ghost below: Option<Key>) returns (rows: seq<Row>)
      requires forall r :: AllHold(clauses, r) <==> Selected(r, f, below)
      ensures rows == Descending(log, f, below)
    {
      rows := [];
      for i := 0 to |log|
        invariant rows == Descending(log[..i], f, below)
      {
        assert log[..i + 1][..i] == log[..i];
        if AllHold(clauses, log[i]) {
          rows := InsertDescending(log[i], rows);
        }
      }
      assert log[..|log|] == log;
    }

    static method AddClause(clauses: seq<Clause>, given: bool, c: Clause) returns (more: seq<Clause>)
      ensures forall r :: AllHold(more, r) <==> AllHold(clauses, r) && (given ==> Holds(c, r))
    {
      AndClause(clauses, c);
      more := if given then clauses + [c] else clauses;
    }

    static method FilterClauses(f: Filters) returns (clauses: seq<Clause>)
      ensures forall r :: AllHold(clauses, r) <==> Matches(r, f)
    {
      clauses := TextClauses(f);
      if f.fromTime.Some? {
        clauses := AddClause(clauses, true, NotBefore(f.fromTime.value));
      }
      if f.toTime.Some? {
        clauses := AddClause(clauses, true, NotAfter(f.toTime.value));
      }
    }

    static method TextClauses(f: Filters) returns (clauses: seq<Clause>)
      ensures forall r :: AllHold(clauses, r) <==> Matches(r, f.(fromTime := None, toTime := None))
    {
      clauses := AddClause([], f.adminId != "", AdminIs(f.adminId));
      clauses := AddClause(clauses, f.action != "", ActionIs(f.action));
      clauses := AddClause(clauses, f.targetType != "", TargetTypeIs(f.targetType));
      clauses := AddClause(clauses, f.targetId != "", TargetIdIs(f.targetId));
    }
  }

  predicate DistinctIds(log: seq<Row>) {
    forall i, j :: 0 <= i < j < |log| ==> log[i].id != log[j].id
  }

  // ------------------------------------------- what a page holds

  predicate StrictlyDescending(rows: seq<Row>) {
    forall i, j :: 0 <= i < j < |rows| ==> Less(KeyOf(rows[j]), KeyOf(rows[i]))
  }

  lemma {:induction false} InsertMembers(r: Row, rows: seq<Row>)
    ensures forall x :: x in InsertDescending(r, rows) <==> x == r || x in rows
  {
    if rows != [] && !Less(KeyOf(rows[0]), KeyOf(r)) {
      InsertMembers(r, rows[1..]);
      assert forall x :: x in rows <==> x == rows[0] || x in rows[1..];
    }
  }

  lemma {:induction false} InsertKeepsOrder(r: Row, rows: seq<Row>)
    requires StrictlyDescending(rows) && forall x <- rows :: x.id != r.id
    ensures StrictlyDescending(InsertDescending(r, rows))
  {
    if rows != [] && !Less(KeyOf(rows[0]), KeyOf(r)) {
      assert rows[0] in rows;
      InsertKeepsOrder(r, rows[1..]);
      InsertMembers(r, rows[1..]);
      var t := InsertDescending(r, rows[1..]);
      forall j | 0 <= j < |t| ensures Less(KeyOf(t[j]), KeyOf(rows[0])) {
        assert t[j] == r || t[j] in rows[1..];
      }
    }
  }

  lemma {:induction false} DescendingMembers(log: seq<Row>, f: Filters, below: Option<Key>)
    ensures forall x :: x in Descending(log, f, below) <==> x in log && Selected(x, f, below)
  {
    if log != [] {
      var init, last := log[..|log| - 1], log[|log| - 1];
      DescendingMembers(init, f, below);
      InsertMembers(last, Descending(init, f, below));
      assert forall x :: x in log <==> x in init || x == last;
    }
  }

  lemma {:induction false} DescendingIsOrdered(log: seq<Row>, f: Filters, below: Option<Key>)
    requires DistinctIds(log)
    ensures StrictlyDescending(Descending(log, f, below))
  {
    if log != [] {
      var init, last := log[..|log| - 1], log[|log| - 1];
      DescendingIsOrdered(init, f, below);
      DescendingMembers(init, f, below);
      if Selected(last, f, below) {
        forall x | x in Descending(init, f, below) ensures x.id != last.id {
          var i :| 0 <= i < |init| && init[i] == x;
          assert log[i] == x;
        }
        InsertKeepsOrder(last, Descending(init, f, below));
      }
    }
  }

  lemma {:induction false} OneOrder(a: seq<Row>, b: seq<Row>)
    requires StrictlyDescending(a) && StrictlyDescending(b)
    requires forall x :: x in a <==> x in b
    ensures a == b
  {
    assert b != [] ==> b[0] in b;
    if a != [] {
      assert a[0] in a;
      var i :| 0 <= i < |b| && b[i] == a[0];
      var j :| 0 <= j < |a| && a[j] == b[0];
      assert a[0] == b[0];
      forall x ensures x in a[1..] <==> x in b[1..] {
        TailMembers(a, x);
        TailMembers(b, x);
      }
      OneOrder(a[1..], b[1..]);
    }
  }

  lemma TailMembers(a: seq<Row>, x: Row)
    requires StrictlyDescending(a) && a != []
    ensures x in a[1..] <==> x in a && x != a[0]
  {
    if x in a[1..] {
      var i :| 1 <= i < |a| && a[i] == x;
      assert Less(KeyOf(a[i]), KeyOf(a[0]));
    }
  }

  /** In a descending sequence, what comes after place `p` is what is less than row `p - 1`. */
  lemma RestIsLess(d: seq<Row>, p: nat, x: Row)
    requires StrictlyDescending(d) && 0 < p <= |d|
    ensures x in d[p..] <==> x in d && Less(KeyOf(x), KeyOf(d[p - 1]))
  {
    assert forall i :: p <= i < |d| ==> d[p..][i - p] == d[i];
    if x in d[p..] {
      var i :| p <= i < |d| && d[i] == x;
      assert Less(KeyOf(d[i]), KeyOf(d[p - 1]));
    } else if x in d {
      var i :| 0 <= i < |d| && d[i] == x;
      assert i < p - 1 ==> Less(KeyOf(d[p - 1]), KeyOf(d[i]));
    }
  }

  /** What remains below the last row of a page is the rest of the order. */
  lemma RestAfterPage(log: seq<Row>, f: Filters, below: Option<Key>, p: nat)
    requires DistinctIds(log) && 0 < p <= |Descending(log, f, below)|
    ensures var d := Descending(log, f, below);
      Descending(log, f, Some(KeyOf(d[p - 1]))) == d[p..]
  {
    var d := Descending(log, f, below);
    var e := Descending(log, f, Some(KeyOf(d[p - 1])));
    DescendingIsOrdered(log, f, below);
    DescendingIsOrdered(log, f, Some(KeyOf(d[p - 1])));
    forall x ensures x in d[p..] <==> x in e {
      RestIsLess(d, p, x);
      DescendingMembers(log, f, below);
      DescendingMembers(log, f, Some(KeyOf(d[p - 1])));
      assert d[p - 1] in d;
    }
    OneOrder(d[p..], e);
  }

  /** A row a reader asks for: each filter given is met, the times inclusively, and the row is
      older than the cursor's, or as old with a smaller identifier. */
  predicate Wanted(r: Row, f: Filters, cursor: string) {
    && (f.adminId == "" || r.adminId == f.adminId)
    && (f.action == "" || r.action == f.action)
    && (f.targetType == "" || r.targetType == f.targetType)
    && (f.targetId == "" || r.targetId == f.targetId)
    && (f.fromTime.None? || Cursor.Instant(f.fromTime.value) <= Cursor.Instant(r.timestamp))
    && (f.toTime.None? || Cursor.Instant(r.timestamp) <= Cursor.Instant(f.toTime.value))
    && (cursor == "" || IsAfterCursor(r, Cursor.Decode(cursor)))
  }

  predicate IsAfterCursor(r: Row, decoded: Option<(Cursor.Timestamp, Cursor.Uuid)>) {
    match decoded
    case None => false
    case Some((t, id)) =>
      && !t.zone.Naive?
      && (Cursor.Instant(r.timestamp) < Cursor.Instant(t)
          || (Cursor.Instant(r.timestamp) == Cursor.Instant(t) && r.id < id))
  }

  predicate Older(a: Row, b: Row) {
    || Cursor.Instant(a.timestamp) < Cursor.Instant(b.timestamp)
    || (Cursor.Instant(a.timestamp) == Cursor.Instant(b.timestamp) && a.id < b.id)
  }

  predicate BadCursor(cursor: string) {
    cursor != "" && (Cursor.Decode(cursor).None? || Cursor.Decode(cursor).value.0.zone.Naive?)
  }

  lemma WantedIffSelected(r: Row, f: Filters, cursor: string)
    ensures Below(cursor).Success? <==> !BadCursor(cursor)
    ensures Below(cursor).Success? ==> (Wanted(r, f, cursor) <==> Selected(r, f, Below(cursor).value))
  {
  }

  /** What a query answers: an error exactly for a bad cursor or a negative limit; otherwise rows
      that are wanted, newest first, at most as many as asked for and at most a thousand; and a
      wanted row is left out only if the page is full of newer ones. */
  lemma QueryIsExact(log: seq<Row>, f: Filters, cursor: string, limit: int)
    requires DistinctIds(log)
    ensures Query(log, f, cursor, limit).Failure? <==> BadCursor(cursor) || limit < 0
    ensures Query(log, f, cursor, limit).Success? ==>
      var page := Query(log, f, cursor, limit).value;
      && |page| <= limit && |page| <= 1000
      && (forall i, j :: 0 <= i < j < |page| ==> Older(page[j], page[i]))
      && (forall r <- page :: r in log && Wanted(r, f, cursor))
      && (forall r <- log :: Wanted(r, f, cursor) ==>
            r in page || ((|page| == limit || |page| == 1000) && forall q <- page :: Older(r, q)))
  {
    if !BadCursor(cursor) && limit >= 0 {
      var below := Below(cursor).value;
      DescendingMembers(log, f, below);
      DescendingIsOrdered(log, f, below);
      var d := Descending(log, f, below);
      var n := if limit < 1000 then limit else 1000;
      forall r | r in log ensures Wanted(r, f, cursor) <==> r in d {
        WantedIffSelected(r, f, cursor);
      }
      TakeOfDescending(d, n);
    }
  }

  lemma TakeOfDescending(d: seq<Row>, n: nat)
    requires StrictlyDescending(d)
    ensures |Take(d, n)| <= n
    ensures forall i, j :: 0 <= i < j < |Take(d, n)| ==> Older(Take(d, n)[j], Take(d, n)[i])
    ensures forall r <- Take(d, n) :: r in d
    ensures forall r <- d :: r in Take(d, n) || (|Take(d, n)| == n && forall q <- Take(d, n) :: Older(r, q))
  {
    var page := Take(d, n);
    assert forall k :: 0 <= k < |page| ==> page[k] == d[k] && d[k] in page;
    forall r | r in d && r !in page ensures |page| == n && forall q <- page :: Older(r, q) {
      var i :| 0 <= i < |d| && d[i] == r;
      forall q | q in page ensures Older(r, q) {
        var j :| 0 <= j < |page| && page[j] == q;
        assert d[j] == q && Less(KeyOf(d[i]), KeyOf(d[j]));
      }
    }
  }

  // ------------------------------------------- following the cursors

  function LastCursor(page: seq<Row>): string
    requires page != []
  {
    var r := page[|page| - 1];
    Cursor.Encode(r.timestamp, r.id)
  }

  /** The pages one after the other, each asked for below the last row of the one before,
      until a page is empty. `logs` are the logs the successive queries meet. */
  function Walk(logs: seq<seq<Row>>, f: Filters, cursor: string, limit: int): seq<Row>
    decreases |logs|
  {
    if logs == [] then []
    else
      match Query(logs[0], f, cursor, limit)
      case Failure => []
      case Success(page) =>
        if page == [] then [] else page + Walk(logs[1..], f, LastCursor(page), limit)
  }

  /** The walk ends with an empty page. */
  predicate Ends(logs: seq<seq<Row>>, f: Filters, cursor: string, limit: int)
    decreases |logs|
  {
    logs != [] &&
    match Query(logs[0], f, cursor, limit)
    case Failure => false
    case Success(page) => page == [] || Ends(logs[1..], f, LastCursor(page), limit)
  }

  /** The log only ever grows. */
  predicate Growing(logs: seq<seq<Row>>) {
    && (forall i :: 0 <= i < |logs| ==> DistinctIds(logs[i]))
    && forall i, j :: 0 <= i <= j < |logs| ==> logs[i] <= logs[j]
  }

  lemma CursorOf(r: Row)
    ensures Below(Cursor.Encode(r.timestamp, r.id)) == Success(Some(KeyOf(r)))
  {
    Cursor.CursorRoundTrip(r.timestamp, r.id);
    assert Cursor.Decode("") == None || Cursor.Encode(r.timestamp, r.id) != "";
  }

  lemma CursorOfLast(page: seq<Row>)
    requires page != []
    ensures Below(LastCursor(page)) == Success(LastKey(page))
  {
    CursorOf(page[|page| - 1]);
  }

  function PageSize(rows: nat, limit: int): nat
    requires limit >= 1
  {
    var lim := if limit < MAX_LIMIT then limit else MAX_LIMIT;
    if rows <= lim then rows else lim
  }

  /** How many pages that are not empty list `rows` rows. */
  function Pages(rows: nat, limit: int): nat
    requires limit >= 1
  {
    if rows == 0 then 0 else 1 + Pages(rows - PageSize(rows, limit), limit)
  }

  /** It is the number of rows over the page size, rounded up. */
  lemma {:induction false} PagesRoundUp(rows: nat, limit: int)
    requires limit >= 1
    ensures var lim := if limit < MAX_LIMIT then limit else MAX_LIMIT;
      rows <= Pages(rows, limit) * lim < rows + lim
  {
    var lim := if limit < MAX_LIMIT then limit else MAX_LIMIT;
    if rows > 0 {
      var rest := rows - PageSize(rows, limit);
      PagesRoundUp(rest, limit);
      assert Pages(rows, limit) * lim == lim + Pages(rest, limit) * lim;
    }
  }

  /** The page below a key, and the key of its last row. */
  function Page(log: seq<Row>, f: Filters, below: Option<Key>, limit: int): seq<Row>
    requires limit >= 1
  {
    var d := Descending(log, f, below);
    d[..PageSize(|d|, limit)]
  }

  function LastKey(page: seq<Row>): Option<Key>
    requires page != []
  {
    Some(KeyOf(page[|page| - 1]))
  }

  /** The walk with keys in place of cursors. */
  function KeyWalk(logs: seq<seq<Row>>, f: Filters, below: Option<Key>, limit: int): seq<Row>
    requires limit >= 1
    decreases |logs|
  {
    if logs == [] then []
    else
      var page := Page(logs[0], f, below, limit);
      if page == [] then [] else page + KeyWalk(logs[1..], f, LastKey(page), limit)
  }

  predicate KeyWalkEnds(logs: seq<seq<Row>>, f: Filters, below: Option<Key>, limit: int)
    requires limit >= 1
    decreases |logs|
  {
    logs != [] &&
    var page := Page(logs[0], f, below, limit);
    page == [] || KeyWalkEnds(logs[1..], f, LastKey(page), limit)
  }

  lemma PageOf(log: seq<Row>, f: Filters, cursor: string, below: Option<Key>, limit: int)
    requires limit >= 1
    ensures Below(cursor) == Success(below) ==>
      Query(log, f, cursor, limit) == Success(Page(log, f, below, limit))
  {
    var d := Descending(log, f, below);
    assert d[..|d|] == d;
  }

  lemma WalkOnePage(logs: seq<seq<Row>>, f: Filters, cursor: string, below: Option<Key>, limit: int)
    requires logs != [] && limit >= 1
    ensures Below(cursor) == Success(below) ==>
      var page := Page(logs[0], f, below, limit);
      if page == [] then Walk(logs, f, cursor, limit) == [] && Ends(logs, f, cursor, limit)
      else
        && Walk(logs, f, cursor, limit) == page + Walk(logs[1..], f, LastCursor(page), limit)
        && Ends(logs, f, cursor, limit) == Ends(logs[1..], f, LastCursor(page), limit)
  {
    PageOf(logs[0], f, cursor, below, limit);
  }

  /** Cursors carry the keys exactly. */
  lemma {:induction false} CursorsCarryKeys(logs: seq<seq<Row>>, f: Filters, cursor: string, below: Option<Key>, limit: int)
    requires limit >= 1
    ensures Below(cursor) == Success(below) ==>
      && Walk(logs, f, cursor, limit) == KeyWalk(logs, f, below, limit)
      && Ends(logs, f, cursor, limit) == KeyWalkEnds(logs, f, below, limit)
    decreases |logs|
  {
    if logs != [] && Below(cursor) == Success(below) {
      var page := Page(logs[0], f, below, limit);
      WalkOnePage(logs, f, cursor, below, limit);
      if page != [] {
        CursorOfLast(page);
        CursorsCarryKeys(logs[1..], f, LastCursor(page), LastKey(page), limit);
      }
    }
  }

  lemma DescendingConcat(page: seq<Row>, rest: seq<Row>)
    requires StrictlyDescending(page) && StrictlyDescending(rest) && page != []
    requires forall x <- rest :: Less(KeyOf(x), KeyOf(page[|page| - 1]))
    ensures StrictlyDescending(page + rest)
  {
    forall i, j | 0 <= i < j < |page + rest| ensures Less(KeyOf((page + rest)[j]), KeyOf((page + rest)[i])) {
      if j >= |page| {
        assert rest[j - |page|] in rest;
      }
    }
  }

  lemma {:induction false} KeyWalkFrom(logs: seq<seq<Row>>, f: Filters, below: Option<Key>, limit: int)
    requires limit >= 1 && Growing(logs)
    ensures var w := KeyWalk(logs, f, below, limit);
      StrictlyDescending(w) && forall x <- w :: Selected(x, f, below)
    decreases |logs|
  {
    if logs != [] {
      var d := Descending(logs[0], f, below);
      var p := PageSize(|d|, limit);
      DescendingMembers(logs[0], f, below);
      DescendingIsOrdered(logs[0], f, below);
      if d != [] {
        KeyWalkFrom(logs[1..], f, LastKey(d[..p]), limit);
        WalkStep(f, below, d, p, KeyWalk(logs[1..], f, LastKey(d[..p]), limit));
      }
    }
  }

  /** In a descending sequence a row is among the first `p` or below the last of them. */
  lemma OnPrefixOrBelow(d: seq<Row>, p: nat, x: Row)
    requires StrictlyDescending(d) && 0 < p <= |d| && x in d
    ensures x in d[..p] || Less(KeyOf(x), KeyOf(d[p - 1]))
  {
    var i :| 0 <= i < |d| && d[i] == x;
    if i < p {
      assert d[..p][i] == x;
    }
  }

  lemma SelectedIsListed(log: seq<Row>, f: Filters, below: Option<Key>, x: Row)
    requires x in log && Selected(x, f, below)
    ensures x in Descending(log, f, below) && Descending(log, f, below) != []
  {
    DescendingMembers(log, f, below);
  }

  lemma OnPageOrBelow(log: seq<Row>, f: Filters, below: Option<Key>, limit: int, x: Row)
    requires limit >= 1 && DistinctIds(log) && x in log && Selected(x, f, below)
    ensures var page := Page(log, f, below, limit);
      page != [] && (x in page || Selected(x, f, LastKey(page)))
  {
    var d := Descending(log, f, below);
    var p := PageSize(|d|, limit);
    SelectedIsListed(log, f, below, x);
    DescendingIsOrdered(log, f, below);
    OnPrefixOrBelow(d, p, x);
    assert d[..p][p - 1] == d[p - 1];
  }

  lemma {:induction false} KeyWalkCovers(logs: seq<seq<Row>>, f: Filters, below: Option<Key>, limit: int, x: Row)
    requires limit >= 1 && Growing(logs) && KeyWalkEnds(logs, f, below, limit)
    requires x in logs[0] && Selected(x, f, below)
    ensures x in KeyWalk(logs, f, below, limit)
    decreases |logs|
  {
    OnPageOrBelow(logs[0], f, below, limit, x);
    var page := Page(logs[0], f, below, limit);
    if x !in page {
      assert logs[0] <= logs[1] && x in logs[1];
      KeyWalkCovers(logs[1..], f, LastKey(page), limit, x);
    }
  }

  /** Whatever is appended between the pages, no row is listed twice, the order is kept, every
      row listed matches, and once the walk ends every matching row of the first log has been
      listed. */
  lemma PagesNeverRepeatOrMiss(logs: seq<seq<Row>>, f: Filters, limit: int)
    requires limit >= 1 && logs != [] && Growing(logs)
    ensures var w := Walk(logs, f, "", limit);
      && StrictlyDescending(w)
      && (forall x <- w :: Matches(x, f))
      && (Ends(logs, f, "", limit) ==> forall x <- logs[0] :: Matches(x, f) ==> x in w)
  {
    CursorsCarryKeys(logs, f, "", None, limit);
    KeyWalkFrom(logs, f, None, limit);
    if Ends(logs, f, "", limit) {
      forall x | x in logs[0] && Matches(x, f) ensures x in Walk(logs, f, "", limit) {
        KeyWalkCovers(logs, f, None, limit, x);
      }
    }
  }

  lemma WalkStep(f: Filters, below: Option<Key>, d: seq<Row>, p: nat, rest: seq<Row>)
    requires 0 < p <= |d| && StrictlyDescending(d) && StrictlyDescending(rest)
    requires forall x <- d :: Selected(x, f, below)
    requires forall x <- rest :: Selected(x, f, Some(KeyOf(d[p - 1])))
    ensures StrictlyDescending(d[..p] + rest)
    ensures forall x <- d[..p] + rest :: Selected(x, f, below)
  {
    DescendingConcat(d[..p], rest);
    assert d[p - 1] in d;
    forall x | x in rest ensures Selected(x, f, below) {
      assert Less(KeyOf(x), KeyOf(d[p - 1])) && Selected(d[p - 1], f, below);
    }
  }

  // ------------------------------------------- when only newer rows are appended

  lemma {:induction false} DescendingIgnoresUnselected(first: seq<Row>, log: seq<Row>, f: Filters, below: Option<Key>)
    requires first <= log && forall i :: |first| <= i < |log| ==> !Selected(log[i], f, below)
    ensures Descending(log, f, below) == Descending(first, f, below)
  {
    if |log| == |first| {
      assert log == first;
    } else {
      DescendingIgnoresUnselected(first, log[..|log| - 1], f, below);
    }
  }

  /** Every row of `log` beyond the first log is newer than all of that one. */
  predicate OnlyNewer(first: seq<Row>, log: seq<Row>) {
    first <= log && forall i, j :: 0 <= i < |first| <= j < |log| ==> Less(KeyOf(log[i]), KeyOf(log[j]))
  }

  lemma NextPageIgnoresNewer(logs: seq<seq<Row>>, first: seq<Row>, f: Filters, below: Option<Key>, p: nat)
    requires forall i :: 0 <= i < |logs| ==> OnlyNewer(first, logs[i])
    requires 0 < p <= |Descending(first, f, below)|
    ensures logs != [] ==>
      forall j :: |first| <= j < |logs[0]| ==> !Selected(logs[0][j], f, LastKey(Descending(first, f, below)[..p]))
  {
    if logs != [] {
      NewerIsAbove(first, logs[0], f, below, p);
    }
  }

  lemma WalkOneKeyPage(logs: seq<seq<Row>>, d: seq<Row>, f: Filters, below: Option<Key>, limit: int)
    requires limit >= 1 && logs != [] && Descending(logs[0], f, below) == d && d != []
    ensures var page := d[..PageSize(|d|, limit)];
      && page != []
      && KeyWalk(logs, f, below, limit) == page + KeyWalk(logs[1..], f, LastKey(page), limit)
      && KeyWalkEnds(logs, f, below, limit) == KeyWalkEnds(logs[1..], f, LastKey(page), limit)
      && Pages(|d|, limit) == 1 + Pages(|d[PageSize(|d|, limit)..]|, limit)
      && d == page + d[PageSize(|d|, limit)..]
  {
    assert Page(logs[0], f, below, limit) == d[..PageSize(|d|, limit)];
  }

  lemma {:induction false} RestOfWalk(logs: seq<seq<Row>>, first: seq<Row>, f: Filters,
                                      below: Option<Key>, p: nat, limit: int)
    requires limit >= 1 && DistinctIds(first) && 0 < p <= |Descending(first, f, below)|
    requires forall i :: 0 <= i < |logs| ==> OnlyNewer(first, logs[i])
    requires Descending(first, f, LastKey(Descending(first, f, below)[..p])) == Descending(first, f, below)[p..]
    ensures var d := Descending(first, f, below);
      && (KeyWalkEnds(logs, f, LastKey(d[..p]), limit) <==> |logs| > Pages(|d[p..]|, limit))
      && (|logs| >= Pages(|d[p..]|, limit) ==> KeyWalk(logs, f, LastKey(d[..p]), limit) == d[p..])
    decreases |logs|, 1
  {
    NextPageIgnoresNewer(logs, first, f, below, p);
    KeyWalkOfFirst(logs, first, f, LastKey(Descending(first, f, below)[..p]), limit);
  }

  lemma {:induction false} KeyWalkOfFirst(logs: seq<seq<Row>>, first: seq<Row>, f: Filters,
                                          below: Option<Key>, limit: int)
    requires limit >= 1 && DistinctIds(first)
    requires forall i :: 0 <= i < |logs| ==> OnlyNewer(first, logs[i])
    requires logs != [] ==> forall j :: |first| <= j < |logs[0]| ==> !Selected(logs[0][j], f, below)
    ensures var d := Descending(first, f, below);
      && (KeyWalkEnds(logs, f, below, limit) <==> |logs| > Pages(|d|, limit))
      && (|logs| >= Pages(|d|, limit) ==> KeyWalk(logs, f, below, limit) == d)
    decreases |logs|, 0
  {
    if logs != [] {
      var d := Descending(first, f, below);
      DescendingIgnoresUnselected(first, logs[0], f, below);
      if d != [] {
        var p := PageSize(|d|, limit);
        RestAfterPage(first, f, below, p);
        WalkOneKeyPage(logs, d, f, below, limit);
        RestOfWalk(logs[1..], first, f, below, p, limit);
      }
    }
  }

  lemma NewerThan(first: seq<Row>, log: seq<Row>, f: Filters, r: Row)
    requires OnlyNewer(first, log) && r in first
    ensures forall j :: |first| <= j < |log| ==> !Selected(log[j], f, Some(KeyOf(r)))
  {
    var i :| 0 <= i < |first| && first[i] == r;
    forall j | |first| <= j < |log| ensures !Selected(log[j], f, Some(KeyOf(r))) {
      assert Less(KeyOf(log[i]), KeyOf(log[j]));
    }
  }

  lemma ListedIsLogged(log: seq<Row>, f: Filters, below: Option<Key>, i: nat)
    requires i < |Descending(log, f, below)|
    ensures Descending(log, f, below)[i] in log
  {
    DescendingMembers(log, f, below);
    assert Descending(log, f, below)[i] in Descending(log, f, below);
  }

  lemma NewerIsAbove(first: seq<Row>, log: seq<Row>, f: Filters, below: Option<Key>, p: nat)
    requires OnlyNewer(first, log) && 0 < p <= |Descending(first, f, below)|
    ensures var k := LastKey(Descending(first, f, below)[..p]);
      forall j :: |first| <= j < |log| ==> !Selected(log[j], f, k)
  {
    var d := Descending(first, f, below);
    ListedIsLogged(first, f, below, p - 1);
    NewerThan(first, log, f, d[p - 1]);
    assert d[..p][p - 1] == d[p - 1];
  }

  /** Keyset pagination: if the rows appended between pages are newer than the log met by the
      first page, then following the cursors lists every matching row of that log exactly once,
      newest first, in as many pages as hold them, and ends with the empty page after those:
      as soon as there is one query more than pages, and not before. */
  lemma PagesListTheLog(logs: seq<seq<Row>>, f: Filters, limit: int)
    requires limit >= 1 && logs != [] && DistinctIds(logs[0])
    requires forall i :: 0 <= i < |logs| ==> OnlyNewer(logs[0], logs[i])
    ensures var w, pages := Walk(logs, f, "", limit), Pages(|Descending(logs[0], f, None)|, limit);
      && (Ends(logs, f, "", limit) <==> |logs| > pages)
      && (|logs| >= pages ==> StrictlyDescending(w) && forall x :: x in w <==> x in logs[0] && Matches(x, f))
  {
    CursorsCarryKeys(logs, f, "", None, limit);
    KeyWalkOfFirst(logs, logs[0], f, None, limit);
    DescendingMembers(logs[0], f, None);
    DescendingIsOrdered(logs[0], f, None);
  }
}
