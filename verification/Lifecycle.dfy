/** `run_lifecycle_pass` of src/tta/lifecycle/cleanup.py: four UPDATE statements in order. */
module Lifecycle {
  import opened Wrappers

  type GameId = nat
  type PlayerId = nat

  datatype Status = Created | Active | Paused | Abandoned | Expired | Completed

  datatype Game = Game(
    status: Status,
    turnCount: int,
    createdAt: int,
    updatedAt: int,
    pausedAt: Option<int>,
    lastPlayedAt: Option<int>,
    deleted: bool,
    player: PlayerId)

  datatype Player = Player(anonymous: bool, deleted: bool, createdAt: int, updatedAt: int)

  datatype Db = Db(games: map<GameId, Game>, players: map<PlayerId, Player>)

  /** The four ages, in the unit of the clock. */
  datatype Ages = Ages(abandon: int, expire: int, idle: int, anonymous: int)

  datatype Counts = Counts(abandoned: nat, expired: nat, idlePaused: nat, anonCleaned: nat)

  // ------------------------------------------- the four rules

  predicate Abandons(g: Game, now: int, ages: Ages) {
    g.status in {Created, Active} && g.turnCount == 0 && g.createdAt < now - ages.abandon && !g.deleted
  }

  /** NULL compares as neither true nor false, so a missing time never expires a game. */
  predicate Expires(g: Game, now: int, ages: Ages) {
    && g.status == Paused && !g.deleted
    && match (g.pausedAt, g.lastPlayedAt)
       case (Some(t), _) => t < now - ages.expire
       case (None, Some(t)) => t < now - ages.expire
       case (None, None) => false
  }

  predicate Idles(g: Game, now: int, ages: Ages) {
    g.status == Active && g.turnCount > 0 && g.updatedAt < now - ages.idle && !g.deleted
  }

  predicate Open(g: Game) {
    g.status in {Created, Active, Paused} && !g.deleted
  }

  predicate OwnsOpenGame(games: map<GameId, Game>, p: PlayerId) {
    exists i <- games :: games[i].player == p && Open(games[i])
  }

  predicate Lapses(db: Db, p: PlayerId, now: int, ages: Ages)
    requires p in db.players
  {
    var player := db.players[p];
    player.anonymous && !player.deleted && player.createdAt < now - ages.anonymous && !OwnsOpenGame(db.games, p)
  }

  function Abandon(db: Db, now: int, ages: Ages): Db {
    db.(games := map i | i in db.games :: var g := db.games[i];
      if Abandons(g, now, ages) then g.(status := Abandoned, updatedAt := now) else g)
  }

  function Expire(db: Db, now: int, ages: Ages): Db {
    db.(games := map i | i in db.games :: var g := db.games[i];
      if Expires(g, now, ages) then g.(status := Expired, updatedAt := now) else g)
  }

  function Pause(db: Db, now: int, ages: Ages): Db {
    db.(games := map i | i in db.games :: var g := db.games[i];
      if Idles(g, now, ages) then g.(status := Paused, pausedAt := Some(now), updatedAt := now) else g)
  }

  function CleanUp(db: Db, now: int, ages: Ages): Db {
    db.(players := map p | p in db.players ::
      if Lapses(db, p, now, ages) then db.players[p].(deleted := true, updatedAt := now) else db.players[p])
  }

  function Abandoning(db: Db, now: int, ages: Ages): set<GameId> {
    set i | i in db.games && Abandons(db.games[i], now, ages)
  }

  function Expiring(db: Db, now: int, ages: Ages): set<GameId> {
    set i | i in db.games && Expires(db.games[i], now, ages)
  }

  function Idling(db: Db, now: int, ages: Ages): set<GameId> {
    set i | i in db.games && Idles(db.games[i], now, ages)
  }

  function Lapsing(db: Db, now: int, ages: Ages): set<PlayerId> {
    set p | p in db.players && Lapses(db, p, now, ages)
  }

  function AfterGames(db: Db, now: int, ages: Ages): Db {
    Pause(Expire(Abandon(db, now, ages), now, ages), now, ages)
  }

  function Pass(db: Db, now: int, ages: Ages): Db {
    CleanUp(AfterGames(db, now, ages), now, ages)
  }

  function PassCounts(db: Db, now: int, ages: Ages): Counts {
    var db1 := Abandon(db, now, ages);
    var db2 := Expire(db1, now, ages);
    var db3 := Pause(db2, now, ages);
    Counts(|Abandoning(db, now, ages)|, |Expiring(db1, now, ages)|, |Idling(db2, now, ages)|, |Lapsing(db3, now, ages)|)
  }

  class Sessions {
    var games: map<GameId, Game>
    var players: map<PlayerId, Player>

    function Contents(): Db
      reads this
    {
      Db(games, players)
    }

    constructor (db: Db)
      ensures Contents() == db
    {
      games, players := db.games, db.players;
    }

    /** UPDATE game_sessions SET ... WHERE ..., a row at a time. */
    method UpdateGames(where: Game -> bool, assign: Game -> Game) returns (affected: nat)
      modifies this`games
      ensures games.Keys == old(games).Keys
      ensures forall i <- games :: games[i] == if where(old(games[i])) then assign(old(games[i])) else old(games[i])
      ensures affected == |set i | i in old(games) && where(old(games[i]))|
    {
      affected := 0;
      var rest := games.Keys;
      ghost var hit: set<GameId> := {};
      while rest != {}
        invariant rest <= games.Keys == old(games).Keys
        invariant hit == set i | i in old(games) && i !in rest && where(old(games[i]))
        invariant affected == |hit|
        invariant forall i <- games :: games[i] == if i in hit then assign(old(games[i])) else old(games[i])
        decreases rest
      {
        var i :| i in rest;
        rest := rest - {i};
        if where(games[i]) {
          games := games[i := assign(games[i])];
          affected, hit := affected + 1, hit + {i};
        }
      }
      assert hit == set i | i in old(games) && where(old(games[i]));
    }

    /** UPDATE players SET ... WHERE ..., a row at a time. */
    method UpdatePlayers(where: (PlayerId, Player) -> bool, assign: Player -> Player) returns (affected: nat)
      modifies this`players
      ensures players.Keys == old(players).Keys
      ensures forall p <- players ::
        players[p] == if where(p, old(players[p])) then assign(old(players[p])) else old(players[p])
      ensures affected == |set p | p in old(players) && where(p, old(players[p]))|
    {
      affected := 0;
      var rest := players.Keys;
      ghost var hit: set<PlayerId> := {};
      while rest != {}
        invariant rest <= players.Keys == old(players).Keys
        invariant hit == set p | p in old(players) && p !in rest && where(p, old(players[p]))
        invariant affected == |hit|
        invariant forall p <- players :: players[p] == if p in hit then assign(old(players[p])) else old(players[p])
        decreases rest
      {
        var p :| p in rest;
        rest := rest - {p};
        if where(p, players[p]) {
          players := players[p := assign(players[p])];
          affected, hit := affected + 1, hit + {p};
        }
      }
      assert hit == set p | p in old(players) && where(p, old(players[p]));
    }

    method AbandonGames(now: int, ages: Ages) returns (affected: nat)
      modifies this`games
      ensures Contents() == Abandon(old(Contents()), now, ages)
      ensures affected == |Abandoning(old(Contents()), now, ages)|
    {
      var cutoff := now - ages.abandon;
      var where := (g: Game) =>
        (g.status == Created || g.status == Active) && g.turnCount == 0 && g.createdAt < cutoff && !g.deleted;
      affected := UpdateGames(where, (g: Game) => g.(status := Abandoned, updatedAt := now));
      assert games == Abandon(old(Contents()), now, ages).games;
      assert Abandoning(old(Contents()), now, ages) == set i | i in old(games) && where(old(games[i]));
    }

    method ExpireGames(now: int, ages: Ages) returns (affected: nat)
      modifies this`games
      ensures Contents() == Expire(old(Contents()), now, ages)
      ensures affected == |Expiring(old(Contents()), now, ages)|
    {
      var cutoff := now - ages.expire;
      var where := (g: Game) =>
          g.status == Paused
          && ((g.pausedAt.Some? && g.pausedAt.value < cutoff)
              || (g.pausedAt.None? && g.lastPlayedAt.Some? && g.lastPlayedAt.value < cutoff))
          && !g.deleted;
      affected := UpdateGames(where, (g: Game) => g.(status := Expired, updatedAt := now));
      assert games == Expire(old(Contents()), now, ages).games;
      assert Expiring(old(Contents()), now, ages) == set i | i in old(games) && where(old(games[i]));
    }

    method PauseGames(now: int, ages: Ages) returns (affected: nat)
      modifies this`games
      ensures Contents() == Pause(old(Contents()), now, ages)
      ensures affected == |Idling(old(Contents()), now, ages)|
    {
      var cutoff := now - ages.idle;
      var where := (g: Game) => g.status == Active && g.turnCount > 0 && g.updatedAt < cutoff && !g.deleted;
      affected := UpdateGames(where, (g: Game) => g.(status := Paused, pausedAt := Some(now), updatedAt := now));
      assert games == Pause(old(Contents()), now, ages).games;
      assert Idling(old(Contents()), now, ages) == set i | i in old(games) && where(old(games[i]));
    }

    method DeletePlayers(now: int, ages: Ages) returns (affected: nat)
      modifies this`players
      ensures Contents() == CleanUp(old(Contents()), now, ages)
      ensures affected == |Lapsing(old(Contents()), now, ages)|
    {
      var cutoff, open := now - ages.anonymous, set i | i in games && Open(games[i]) :: games[i].player;
      assert forall p :: p in open <==> OwnsOpenGame(games, p);
      var where := (p: PlayerId, player: Player) =>
        player.anonymous && !player.deleted && player.createdAt < cutoff && p !in open;
      affected := UpdatePlayers(where, (player: Player) => player.(deleted := true, updatedAt := now));
      assert players == CleanUp(old(Contents()), now, ages).players;
      assert Lapsing(old(Contents()), now, ages) == set p | p in old(players) && where(p, old(players[p]));
    }

    method RunLifecyclePass(now: int, ages: Ages) returns (counts: Counts)
      modifies this
      ensures Contents() == Pass(old(Contents()), now, ages)
      ensures counts == PassCounts(old(Contents()), now, ages)
    {
      var abandoned := AbandonGames(now, ages);
      var expired := ExpireGames(now, ages);
      var idlePaused := PauseGames(now, ages);
      var anonCleaned := DeletePlayers(now, ages);
      counts := Counts(abandoned, expired, idlePaused, anonCleaned);
    }
  }

  // ------------------------------------------- what one pass does to a row

  /** The one step each game takes. */
  function GameAfter(g: Game, now: int, ages: Ages): Game {
    if Abandons(g, now, ages) then g.(status := Abandoned, updatedAt := now)
    else if Expires(g, now, ages) then g.(status := Expired, updatedAt := now)
    else if Idles(g, now, ages) then g.(status := Paused, pausedAt := Some(now), updatedAt := now)
    else g
  }

  lemma GamesStepOnce(db: Db, now: int, ages: Ages)
    ensures AfterGames(db, now, ages).games.Keys == db.games.Keys
    ensures AfterGames(db, now, ages).players == db.players
    ensures forall i <- db.games :: AfterGames(db, now, ages).games[i] == GameAfter(db.games[i], now, ages)
    ensures PassCounts(db, now, ages).abandoned == |Abandoning(db, now, ages)|
    ensures PassCounts(db, now, ages).expired == |Expiring(db, now, ages)|
    ensures PassCounts(db, now, ages).idlePaused == |Idling(db, now, ages)|
  {
    var db1 := Abandon(db, now, ages);
    assert Expiring(db1, now, ages) == Expiring(db, now, ages);
    assert Idling(Expire(db1, now, ages), now, ages) == Idling(db, now, ages);
  }

  /** Each pass moves a game at most one step down `created/active -> paused -> expired` or to
      `abandoned`; games in a final state and deleted games are left alone entirely. */
  lemma PassMovesOneStep(db: Db, now: int, ages: Ages, i: GameId)
    requires i in db.games
    ensures i in Pass(db, now, ages).games
    ensures var g, g' := db.games[i], Pass(db, now, ages).games[i];
      && (g' == g
          || (g.status in {Created, Active} && g'.status == Abandoned)
          || (g.status == Paused && g'.status == Expired)
          || (g.status == Active && g'.status == Paused && g'.pausedAt == Some(now)))
      && (!Open(g) ==> g' == g)
  {
    GamesStepOnce(db, now, ages);
  }

  /** The players a pass deletes are exactly the lapsed anonymous ones without an open game in
      the state the pass leaves; nobody else's record changes. */
  lemma PassDeletesOnlyOwnersOfNothing(db: Db, now: int, ages: Ages, p: PlayerId)
    requires p in db.players
    ensures p in Pass(db, now, ages).players
    ensures var after := Pass(db, now, ages);
      && (after.players[p] != db.players[p] ==>
           after.players[p].deleted && !db.players[p].deleted && !OwnsOpenGame(after.games, p))
      && (after.players[p].deleted <==>
           db.players[p].deleted
           || (db.players[p].anonymous && db.players[p].createdAt < now - ages.anonymous
               && !OwnsOpenGame(after.games, p)))
  {
    GamesStepOnce(db, now, ages);
  }

  /** What a pass does to each game, by its age and nothing else: a game never played for longer
      than the first age is abandoned; one paused for longer than the second, or, where that is
      not known, last played, expires; one played and untouched for longer than the third is
      paused; all others, and deleted ones, stay as they are. */
  lemma SweepRules(db: Db, now: int, ages: Ages, i: GameId)
    requires i in db.games
    ensures i in Pass(db, now, ages).games
    ensures var g, g' := db.games[i], Pass(db, now, ages).games[i];
      g' ==
        if g.deleted then g
        else if (g.status == Created || g.status == Active) && g.turnCount == 0 && g.createdAt + ages.abandon < now
        then g.(status := Abandoned, updatedAt := now)
        else if g.status == Paused && g.pausedAt.Some? && g.pausedAt.value + ages.expire < now
        then g.(status := Expired, updatedAt := now)
        else if g.status == Paused && g.pausedAt.None? && g.lastPlayedAt.Some? && g.lastPlayedAt.value + ages.expire < now
        then g.(status := Expired, updatedAt := now)
        else if g.status == Active && g.turnCount > 0 && g.updatedAt + ages.idle < now
        then g.(status := Paused, pausedAt := Some(now), updatedAt := now)
        else g
  {
    GamesStepOnce(db, now, ages);
  }

  predicate StillPlays(g: Game, p: PlayerId) {
    g.player == p && !g.deleted && (g.status == Created || g.status == Active || g.status == Paused)
  }

  /** A pass deletes exactly the anonymous players older than the fourth age for whom it leaves
      no game created, active or paused; it marks and dates their record, and touches no other. */
  lemma PlayersGoIff(db: Db, now: int, ages: Ages, p: PlayerId)
    requires p in db.players
    ensures p in Pass(db, now, ages).players
    ensures var a, after := db.players[p], Pass(db, now, ages);
      var open := exists i <- after.games :: StillPlays(after.games[i], p);
      after.players[p] ==
        if a.anonymous && !a.deleted && a.createdAt + ages.anonymous < now && !open
        then a.(deleted := true, updatedAt := now) else a
  {
    GamesStepOnce(db, now, ages);
  }

  /** The games that a pass brings to a status. */
  function BroughtTo(db: Db, after: Db, status: Status): set<GameId> {
    set i | i in db.games && i in after.games && db.games[i].status != status && after.games[i].status == status
  }

  /** The numbers a pass returns are those of the rows it changes in each way. */
  lemma CountsAreChanges(db: Db, now: int, ages: Ages)
    ensures var c, after := PassCounts(db, now, ages), Pass(db, now, ages);
      && c.abandoned == |BroughtTo(db, after, Abandoned)|
      && c.expired == |BroughtTo(db, after, Expired)|
      && c.idlePaused == |BroughtTo(db, after, Paused)|
      && c.anonCleaned == |set p | p in db.players && p in after.players && !db.players[p].deleted && after.players[p].deleted|
  {
    GamesStepOnce(db, now, ages);
    GamesBrought(db, now, ages);
    PlayersBrought(db, now, ages);
  }

  lemma RowBrought(g: Game, now: int, ages: Ages)
    ensures var s := GameAfter(g, now, ages).status;
      && (g.status != Abandoned == s <==> Abandons(g, now, ages))
      && (g.status != Expired == s <==> Expires(g, now, ages))
      && (g.status != Paused == s <==> Idles(g, now, ages))
  {
  }

  lemma RowsBrought(db: Db, after: Db, now: int, ages: Ages)
    requires after.games.Keys == db.games.Keys
    requires forall i <- db.games :: after.games[i] == GameAfter(db.games[i], now, ages)
    ensures BroughtTo(db, after, Abandoned) == Abandoning(db, now, ages)
    ensures BroughtTo(db, after, Expired) == Expiring(db, now, ages)
    ensures BroughtTo(db, after, Paused) == Idling(db, now, ages)
  {
    forall i | i in db.games
      ensures i in BroughtTo(db, after, Abandoned) <==> Abandons(db.games[i], now, ages)
      ensures i in BroughtTo(db, after, Expired) <==> Expires(db.games[i], now, ages)
      ensures i in BroughtTo(db, after, Paused) <==> Idles(db.games[i], now, ages)
    {
      RowBrought(db.games[i], now, ages);
    }
  }

  lemma GamesBrought(db: Db, now: int, ages: Ages)
    ensures var after := Pass(db, now, ages);
      && BroughtTo(db, after, Abandoned) == Abandoning(db, now, ages)
      && BroughtTo(db, after, Expired) == Expiring(db, now, ages)
      && BroughtTo(db, after, Paused) == Idling(db, now, ages)
  {
    GamesStepOnce(db, now, ages);
    RowsBrought(db, Pass(db, now, ages), now, ages);
  }

  lemma PlayersBrought(db: Db, now: int, ages: Ages)
    ensures var after := Pass(db, now, ages);
      (set p | p in db.players && p in after.players && !db.players[p].deleted && after.players[p].deleted)
      == Lapsing(AfterGames(db, now, ages), now, ages)
  {
    GamesStepOnce(db, now, ages);
  }

  // ------------------------------------------- counts are conserved

  /** Games that can still be abandoned or paused; games that can still end; players left. */
  function Playing(db: Db): set<GameId> {
    set i | i in db.games && db.games[i].status in {Created, Active}
  }

  function Unfinished(db: Db): set<GameId> {
    set i | i in db.games && db.games[i].status in {Created, Active, Paused}
  }

  function Alive(db: Db): set<PlayerId> {
    set p | p in db.players && !db.players[p].deleted
  }

  function Potential(db: Db): nat {
    |Playing(db)| + |Unfinished(db)| + |Alive(db)|
  }

  lemma SplitCount(a: set<nat>, b: set<nat>)
    requires b <= a
    ensures |a| == |a - b| + |b|
  {
    assert a == (a - b) + b;
  }

  lemma TwoParts(whole: set<nat>, a: set<nat>, b: set<nat>)
    requires a <= whole && b <= whole && a !! b
    ensures |whole| == |whole - a - b| + |a| + |b|
  {
    SplitCount(whole, a);
    SplitCount(whole - a, b);
  }

  lemma PlayingRow(g: Game, now: int, ages: Ages)
    ensures GameAfter(g, now, ages).status in {Created, Active}
      <==> g.status in {Created, Active} && !Abandons(g, now, ages) && !Idles(g, now, ages)
  {
  }

  lemma PlayingSet(db: Db, after: Db, now: int, ages: Ages)
    requires after.games.Keys == db.games.Keys
    requires forall i <- db.games :: after.games[i] == GameAfter(db.games[i], now, ages)
    ensures Playing(after) == Playing(db) - Abandoning(db, now, ages) - Idling(db, now, ages)
  {
    forall i | i in db.games
      ensures i in Playing(after) <==>
        i in Playing(db) && !Abandons(db.games[i], now, ages) && !Idles(db.games[i], now, ages)
    {
      PlayingRow(db.games[i], now, ages);
    }
  }

  lemma PlayingAfter(db: Db, now: int, ages: Ages)
    ensures |Playing(db)| == |Playing(Pass(db, now, ages))| + |Abandoning(db, now, ages)| + |Idling(db, now, ages)|
  {
    GamesStepOnce(db, now, ages);
    PlayingSet(db, Pass(db, now, ages), now, ages);
    TwoParts(Playing(db), Abandoning(db, now, ages), Idling(db, now, ages));
  }

  lemma UnfinishedRow(g: Game, now: int, ages: Ages)
    ensures GameAfter(g, now, ages).status in {Created, Active, Paused}
      <==> g.status in {Created, Active, Paused} && !Abandons(g, now, ages) && !Expires(g, now, ages)
  {
  }

  lemma UnfinishedSet(db: Db, after: Db, now: int, ages: Ages)
    requires after.games.Keys == db.games.Keys
    requires forall i <- db.games :: after.games[i] == GameAfter(db.games[i], now, ages)
    ensures Unfinished(after) == Unfinished(db) - Abandoning(db, now, ages) - Expiring(db, now, ages)
  {
    forall i | i in db.games
      ensures i in Unfinished(after) <==>
        i in Unfinished(db) && !Abandons(db.games[i], now, ages) && !Expires(db.games[i], now, ages)
    {
      UnfinishedRow(db.games[i], now, ages);
    }
  }

  lemma UnfinishedAfter(db: Db, now: int, ages: Ages)
    ensures |Unfinished(db)|
      == |Unfinished(Pass(db, now, ages))| + |Abandoning(db, now, ages)| + |Expiring(db, now, ages)|
  {
    GamesStepOnce(db, now, ages);
    UnfinishedSet(db, Pass(db, now, ages), now, ages);
    TwoParts(Unfinished(db), Abandoning(db, now, ages), Expiring(db, now, ages));
  }

  lemma AliveAfter(db: Db, now: int, ages: Ages)
    ensures |Alive(db)| == |Alive(Pass(db, now, ages))| + |Lapsing(AfterGames(db, now, ages), now, ages)|
  {
    GamesStepOnce(db, now, ages);
    assert Alive(Pass(db, now, ages)) == Alive(db) - Lapsing(AfterGames(db, now, ages), now, ages);
    SplitCount(Alive(db), Lapsing(AfterGames(db, now, ages), now, ages));
  }

  /** Every pass uses up potential: two units per abandoned game, one per expired or paused
      game and one per deleted player. */
  lemma PassSpendsPotential(db: Db, now: int, ages: Ages)
    ensures var c := PassCounts(db, now, ages);
      Potential(db) == Potential(Pass(db, now, ages)) + 2 * c.abandoned + c.expired + c.idlePaused + c.anonCleaned
  {
    GamesStepOnce(db, now, ages);
    PlayingAfter(db, now, ages);
    UnfinishedAfter(db, now, ages);
    AliveAfter(db, now, ages);
  }

  function Total(c: Counts): nat {
    c.abandoned + c.expired + c.idlePaused + c.anonCleaned
  }

  function RunPasses(db: Db, nows: seq<int>, ages: Ages): Db
    decreases |nows|
  {
    if nows == [] then db else RunPasses(Pass(db, nows[0], ages), nows[1..], ages)
  }

  function TotalCounts(db: Db, nows: seq<int>, ages: Ages): nat
    decreases |nows|
  {
    if nows == [] then 0
    else Total(PassCounts(db, nows[0], ages)) + TotalCounts(Pass(db, nows[0], ages), nows[1..], ages)
  }

  lemma {:induction false} RunSpendsPotential(db: Db, nows: seq<int>, ages: Ages)
    ensures TotalCounts(db, nows, ages) + Potential(RunPasses(db, nows, ages)) <= Potential(db)
    decreases |nows|
  {
    if nows != [] {
      PassSpendsPotential(db, nows[0], ages);
      RunSpendsPotential(Pass(db, nows[0], ages), nows[1..], ages);
    }
  }

  /** Whatever the clock does and however often the sweep runs, without player activity the
      counts it reports add up to at most two per game and one per player. */
  lemma SweepIsBounded(db: Db, nows: seq<int>, ages: Ages)
    ensures TotalCounts(db, nows, ages) <= 2 * |db.games| + |db.players|
  {
    RunSpendsPotential(db, nows, ages);
    SplitCount(db.games.Keys, Playing(db));
    SplitCount(db.games.Keys, Unfinished(db));
    SplitCount(db.players.Keys, Alive(db));
  }

  // ------------------------------------------- what a run never undoes

  lemma PassOpensNothing(db: Db, now: int, ages: Ages, p: PlayerId)
    ensures OwnsOpenGame(Pass(db, now, ages).games, p) ==> OwnsOpenGame(db.games, p)
  {
    GamesStepOnce(db, now, ages);
    var after := Pass(db, now, ages).games;
    if OwnsOpenGame(after, p) {
      var i :| i in after && after[i].player == p && Open(after[i]);
      assert db.games[i].player == p && Open(db.games[i]);
    }
  }

  /** Whoever a run of passes deletes owns no open game at its end, and games already closed
      or deleted are at the end as they were. */
  lemma {:induction false} RunLeavesClosedGames(db: Db, nows: seq<int>, ages: Ages)
    ensures RunPasses(db, nows, ages).games.Keys == db.games.Keys
    ensures RunPasses(db, nows, ages).players.Keys == db.players.Keys
    ensures forall i <- db.games :: !Open(db.games[i]) ==> RunPasses(db, nows, ages).games[i] == db.games[i]
    ensures forall p <- db.players :: RunPasses(db, nows, ages).players[p] != db.players[p] ==>
      !OwnsOpenGame(RunPasses(db, nows, ages).games, p)
    decreases |nows|
  {
    if nows != [] {
      var next, last := Pass(db, nows[0], ages), RunPasses(db, nows, ages);
      RunLeavesClosedGames(next, nows[1..], ages);
      GamesStepOnce(db, nows[0], ages);
      forall i | i in db.games && !Open(db.games[i]) ensures last.games[i] == db.games[i] {
        PassMovesOneStep(db, nows[0], ages, i);
      }
      forall p | p in db.players && last.players[p] != db.players[p] ensures !OwnsOpenGame(last.games, p) {
        PassDeletesOnlyOwnersOfNothing(db, nows[0], ages, p);
        RunOpensNothing(next, nows[1..], ages, p);
      }
    }
  }

  lemma {:induction false} RunOpensNothing(db: Db, nows: seq<int>, ages: Ages, p: PlayerId)
    ensures OwnsOpenGame(RunPasses(db, nows, ages).games, p) ==> OwnsOpenGame(db.games, p)
    decreases |nows|
  {
    if nows != [] {
      PassOpensNothing(db, nows[0], ages, p);
      RunOpensNothing(Pass(db, nows[0], ages), nows[1..], ages, p);
    }
  }

  // ------------------------------------------- repeating a pass

  lemma NothingLeftToMove(db: Db, now: int, ages: Ages)
    ensures Abandoning(Pass(db, now, ages), now, ages) == {} && Idling(Pass(db, now, ages), now, ages) == {}
  {
    GamesStepOnce(db, now, ages);
  }

  lemma LeftToExpire(db: Db, now: int, ages: Ages)
    ensures Expiring(Pass(db, now, ages), now, ages) == if ages.expire >= 0 then {} else Idling(db, now, ages)
  {
    GamesStepOnce(db, now, ages);
  }

  /** A second pass at the same moment abandons and pauses nothing, and expires precisely the
      games the first one paused if the expiry age is negative, and none otherwise. */
  lemma SecondPassAtOnce(db: Db, now: int, ages: Ages)
    ensures var after := Pass(db, now, ages);
      var c, c2 := PassCounts(db, now, ages), PassCounts(after, now, ages);
      && c2.abandoned == 0 && c2.idlePaused == 0
      && c2.expired == (if ages.expire >= 0 then 0 else c.idlePaused)
      && Expiring(after, now, ages) == (if ages.expire >= 0 then {} else Idling(db, now, ages))
  {
    NothingLeftToMove(db, now, ages);
    LeftToExpire(db, now, ages);
    GamesStepOnce(db, now, ages);
    GamesStepOnce(Pass(db, now, ages), now, ages);
  }

  /** Repeating a pass at the same moment is idle exactly when the expiry age is not negative
      or the first pass paused no game. */
  lemma RepeatedPassIsIdle(db: Db, now: int, ages: Ages)
    ensures var c, after := PassCounts(db, now, ages), Pass(db, now, ages);
      Pass(after, now, ages) == after <==> ages.expire >= 0 || c.idlePaused == 0
  {
    SecondPassAtOnce(db, now, ages);
    IdleCount(db, now, ages);
    if ages.expire >= 0 || Idling(db, now, ages) == {} {
      QuietPass(db, now, ages);
    } else {
      var i :| i in Expiring(Pass(db, now, ages), now, ages);
      ExpiringMoves(Pass(db, now, ages), now, ages, i);
    }
  }

  /** A game paused by the first of two passes is expired by the second if the expiry age is
      negative. */
  lemma NegativeAgeExpiresPaused()
    ensures var db := Db(map[0 := Game(Active, 1, 0, 0, None, None, false, 0)], map[]);
      var ages := Ages(24, -1, 30, 30);
      Pass(Pass(db, 100, ages), 100, ages) != Pass(db, 100, ages)
  {
    var db := Db(map[0 := Game(Active, 1, 0, 0, None, None, false, 0)], map[]);
    var ages := Ages(24, -1, 30, 30);
    assert 0 in Idling(db, 100, ages);
    IdleCount(db, 100, ages);
    RepeatedPassIsIdle(db, 100, ages);
  }

  lemma IdleCount(db: Db, now: int, ages: Ages)
    ensures PassCounts(db, now, ages).idlePaused == 0 <==> Idling(db, now, ages) == {}
  {
    GamesStepOnce(db, now, ages);
  }

  lemma ExpiringMoves(db: Db, now: int, ages: Ages, i: GameId)
    requires i in Expiring(db, now, ages)
    ensures Pass(db, now, ages) != db
  {
    GamesStepOnce(db, now, ages);
    assert Pass(db, now, ages).games[i].status == Expired != db.games[i].status;
  }

  lemma NoGameMoves(db: Db, now: int, ages: Ages)
    requires Abandoning(db, now, ages) == {} && Expiring(db, now, ages) == {} && Idling(db, now, ages) == {}
    ensures AfterGames(db, now, ages) == db
  {
    GamesStepOnce(db, now, ages);
    forall i | i in db.games ensures AfterGames(db, now, ages).games[i] == db.games[i] {
      assert i !in Abandoning(db, now, ages) && i !in Expiring(db, now, ages) && i !in Idling(db, now, ages);
    }
    assert AfterGames(db, now, ages).games == db.games;
  }

  lemma CleanedUp(db: Db, now: int, ages: Ages)
    ensures CleanUp(CleanUp(db, now, ages), now, ages) == CleanUp(db, now, ages)
  {
    var after := CleanUp(db, now, ages);
    forall p | p in after.players ensures !Lapses(after, p, now, ages) {
      assert p in db.players;
    }
    assert CleanUp(after, now, ages).players == after.players;
  }

  lemma QuietPass(db: Db, now: int, ages: Ages)
    requires ages.expire >= 0 || Idling(db, now, ages) == {}
    ensures Pass(Pass(db, now, ages), now, ages) == Pass(db, now, ages)
  {
    NothingLeftToMove(db, now, ages);
    LeftToExpire(db, now, ages);
    NoGameMoves(Pass(db, now, ages), now, ages);
    CleanedUp(AfterGames(db, now, ages), now, ages);
  }
}
