// The feature builder: the fixture-difficulty lookup of one gameweek, the
// opponent difficulty of each player, the derived columns with their explicit
// defaults, the feature matrix and the training target.

module Features {
  import opened Base
  import opened Positions

  /** One player record of the league payload, numeric fields already coerced (NaN is `None`). */
  datatype RawPlayer = RawPlayer(
    id: int, webName: string, elementType: int, team: int, nowCost: int,
    selectedByPercent: Num, form: Num, pointsPerGame: Num, minutes: Num,
    ictIndex: Num, influence: Num, creativity: Num, threat: Num,
    goalsScored: Num, assists: Num, cleanSheets: Num, totalPoints: Num,
    chanceOfPlaying: Num)

  datatype RawTeam = RawTeam(id: int, name: string)

  datatype Bootstrap = Bootstrap(elements: seq<RawPlayer>, teams: seq<RawTeam>)

  /** One fixture record; a difficulty is `None` when the record does not carry that key. */
  datatype Fixture = Fixture(
    event: Option<int>, teamH: int, teamA: int,
    teamHDifficulty: Option<real>, teamADifficulty: Option<real>)

  datatype Side = Home | Away

  /** The lookup keyed by (team id, side). */
  type StrengthMap = map<(int, Side), Num>

  /**
   * The `KeyError`s of the builder. A frame built from an empty record list has
   * no columns, so selecting from it fails: the teams' id and name columns, the
   * players' `team` merge key, or the fixtures' `event` column.
   */
  datatype TableError = MissingTeamColumns | MissingPlayerColumns | MissingEventColumn

  /** Every record list is non-empty, so every column the builder reads exists. */
  predicate Buildable(boot: Bootstrap, fixtures: seq<Fixture>) {
    boot.teams != [] && boot.elements != [] && fixtures != []
  }

  const DEFAULT_DIFFICULTY: real := 3.0
  const DEFAULT_CHANCE: real := 95.0

  /** The feature names, in matrix column order. */
  const FEATURE_NAMES: seq<string> := [
    "cost", "sel_pct", "form", "ppg", "minutes", "ict_index", "attacking",
    "creative", "defensive", "fixture_adj", "value_ppg", "form_scaled"]

  // ---------------------------------------------------------------- fixtures

  /** A difficulty column exists in the fixture frame when some record carries the key. */
  predicate HasHomeDifficulty(fixtures: seq<Fixture>) {
    exists i | 0 <= i < |fixtures| :: fixtures[i].teamHDifficulty.Some?
  }

  predicate HasAwayDifficulty(fixtures: seq<Fixture>) {
    exists i | 0 <= i < |fixtures| :: fixtures[i].teamADifficulty.Some?
  }

  /** `row.get(key, 3)`: 3 when the column is missing, else the cell (NaN where this record lacks it). */
  function RowGet(columnPresent: bool, cell: Option<real>): Num {
    if !columnPresent then Some(DEFAULT_DIFFICULTY) else cell
  }

  /** The team a key of this side belongs to. */
  function KeyTeam(f: Fixture, side: Side): int {
    match side
    case Home => f.teamH
    case Away => f.teamA
  }

  /** The value stored for a side: the home team gets the away side's rating, and the reverse. */
  function KeyValue(f: Fixture, side: Side, homePresent: bool, awayPresent: bool): Num {
    match side
    case Home => RowGet(awayPresent, f.teamADifficulty)
    case Away => RowGet(homePresent, f.teamHDifficulty)
  }

  /** One iteration of the loop over fixtures: the home key, then the away key. */
  function Record(m: StrengthMap, f: Fixture, homePresent: bool, awayPresent: bool): StrengthMap {
    m[(f.teamH, Home) := KeyValue(f, Home, homePresent, awayPresent)]
     [(f.teamA, Away) := KeyValue(f, Away, homePresent, awayPresent)]
  }

  /** The lookup after the loop has run over `rows`. */
  function Strength(rows: seq<Fixture>, homePresent: bool, awayPresent: bool): StrengthMap {
    if |rows| == 0 then map[]
    else Record(Strength(rows[..|rows| - 1], homePresent, awayPresent), rows[|rows| - 1], homePresent, awayPresent)
  }

  /** `fx[fx["event"] == gw]`: the fixtures of one gameweek, in order. */
  function GameweekFixtures(fixtures: seq<Fixture>, gw: int): (r: seq<Fixture>)
    ensures forall f :: f in r <==> f in fixtures && f.event == Some(gw)
  {
    if |fixtures| == 0 then []
    else
      var front := fixtures[..|fixtures| - 1];
      var last := fixtures[|fixtures| - 1];
      assert forall f | f in front :: f in fixtures;
      assert fixtures == front + [last];
      GameweekFixtures(front, gw) + (if last.event == Some(gw) then [last] else [])
  }

  /** The filter keeps the fixtures' order: filtering a concatenation filters each part. */
  lemma {:induction false} GameweekFixturesAppend(a: seq<Fixture>, b: seq<Fixture>, gw: int)
    ensures GameweekFixtures(a + b, gw) == GameweekFixtures(a, gw) + GameweekFixtures(b, gw)
  {
    if |b| > 0 {
      var front := b[..|b| - 1];
      assert (a + b)[..|a + b| - 1] == a + front;
      assert (a + b)[|a + b| - 1] == b[|b| - 1];
      GameweekFixturesAppend(a, front, gw);
    } else {
      assert a + b == a;
    }
  }

  /** The lookup of one gameweek, as the source builds it. */
  function OppStrength(fixtures: seq<Fixture>, gw: int): StrengthMap {
    Strength(GameweekFixtures(fixtures, gw), HasHomeDifficulty(fixtures), HasAwayDifficulty(fixtures))
  }

  /** The loop that fills the lookup from the gameweek's fixtures. */
  method BuildOppStrength(fixtures: seq<Fixture>, gw: int) returns (m: StrengthMap)
    ensures m == OppStrength(fixtures, gw)
  {
    var homePresent := HasHomeDifficulty(fixtures);
    var awayPresent := HasAwayDifficulty(fixtures);
    var rows := GameweekFixtures(fixtures, gw);
    m := map[];
    for i := 0 to |rows|
      invariant m == Strength(rows[..i], homePresent, awayPresent)
    {
      var f := rows[i];
      m := m[(f.teamH, Home) := RowGet(awayPresent, f.teamADifficulty)];
      m := m[(f.teamA, Away) := RowGet(homePresent, f.teamHDifficulty)];
      StrengthStep(rows, i, homePresent, awayPresent);
    }
    assert rows[..|rows|] == rows;
  }

  /** One pass of the loop records the next fixture on the lookup of those before it. */
  lemma {:induction false} StrengthStep(rows: seq<Fixture>, i: nat, homePresent: bool, awayPresent: bool)
    requires i < |rows|
    ensures Strength(rows[..i + 1], homePresent, awayPresent) == Record(Strength(rows[..i], homePresent, awayPresent), rows[i], homePresent, awayPresent)
  {
    assert rows[..i + 1][..i] == rows[..i];
  }

  /** A key is in the lookup exactly when some processed fixture has that team on that side. */
  lemma {:induction false} StrengthKeys(rows: seq<Fixture>, homePresent: bool, awayPresent: bool, t: int, side: Side)
    ensures (t, side) in Strength(rows, homePresent, awayPresent)
        <==> exists i | 0 <= i < |rows| :: KeyTeam(rows[i], side) == t
  {
    if |rows| > 0 {
      var front := rows[..|rows| - 1];
      StrengthKeys(front, homePresent, awayPresent, t, side);
      assert forall i | 0 <= i < |front| :: front[i] == rows[i];
    }
  }

  /** A later fixture overwrites an earlier one: the value of a key comes from the last fixture with it. */
  lemma {:induction false} StrengthLastWins(rows: seq<Fixture>, homePresent: bool, awayPresent: bool, side: Side, i: nat)
    requires i < |rows|
    requires forall j | i < j < |rows| :: KeyTeam(rows[j], side) != KeyTeam(rows[i], side)
    ensures (KeyTeam(rows[i], side), side) in Strength(rows, homePresent, awayPresent)
    ensures Strength(rows, homePresent, awayPresent)[(KeyTeam(rows[i], side), side)]
         == KeyValue(rows[i], side, homePresent, awayPresent)
  {
    var n := |rows|;
    var front := rows[..n - 1];
    if i < n - 1 {
      assert forall j | i < j < |front| :: front[j] == rows[j];
      StrengthLastWins(front, homePresent, awayPresent, side, i);
      assert front[i] == rows[i];
    }
  }

  /** Only fixtures of the requested gameweek give keys; each gives its own team's key. */
  lemma {:induction false} OppStrengthKeys(fixtures: seq<Fixture>, gw: int, t: int, side: Side)
    ensures (t, side) in OppStrength(fixtures, gw)
        <==> exists f | f in fixtures :: f.event == Some(gw) && KeyTeam(f, side) == t
  {
    var rows := GameweekFixtures(fixtures, gw);
    StrengthKeys(rows, HasHomeDifficulty(fixtures), HasAwayDifficulty(fixtures), t, side);
    if exists f | f in fixtures :: f.event == Some(gw) && KeyTeam(f, side) == t {
      var f :| f in fixtures && f.event == Some(gw) && KeyTeam(f, side) == t;
      assert f in rows;
    }
  }

  /** With every rating in range (3 included) and no record short of a present column, every value is in range. */
  lemma {:induction false} StrengthBounds(rows: seq<Fixture>, homePresent: bool, awayPresent: bool, lo: real, hi: real)
    requires lo <= DEFAULT_DIFFICULTY <= hi
    requires homePresent ==> forall i | 0 <= i < |rows| :: rows[i].teamHDifficulty.Some?
    requires awayPresent ==> forall i | 0 <= i < |rows| :: rows[i].teamADifficulty.Some?
    requires forall i | 0 <= i < |rows| && rows[i].teamHDifficulty.Some? :: lo <= rows[i].teamHDifficulty.value <= hi
    requires forall i | 0 <= i < |rows| && rows[i].teamADifficulty.Some? :: lo <= rows[i].teamADifficulty.value <= hi
    ensures forall k | k in Strength(rows, homePresent, awayPresent) ::
      Strength(rows, homePresent, awayPresent)[k].Some? && lo <= Strength(rows, homePresent, awayPresent)[k].value <= hi
  {
    if |rows| > 0 {
      var front := rows[..|rows| - 1];
      assert forall i | 0 <= i < |front| :: front[i] == rows[i];
      StrengthBounds(front, homePresent, awayPresent, lo, hi);
    }
  }

  // ------------------------------------------------------ opponent difficulty

  /**
   * `opp_diff`: the mean of the team's lookup values (its home key, its away
   * key, or both), or the neutral 3.0 when the team has no fixture.
   */
  function OppDifficulty(m: StrengthMap, team: int): (r: Num)
    ensures (team, Home) !in m && (team, Away) !in m ==> r == Some(DEFAULT_DIFFICULTY)
    ensures r.None? <==> ((team, Home) in m && m[(team, Home)].None?) || ((team, Away) in m && m[(team, Away)].None?)
    ensures (team, Home) in m && (team, Away) in m && m[(team, Home)].Some? && m[(team, Away)].Some? ==>
      r.Some? && r.value == (m[(team, Home)].value + m[(team, Away)].value) / 2.0
    ensures (team, Home) in m && (team, Away) !in m ==> r == m[(team, Home)]
    ensures (team, Home) !in m && (team, Away) in m ==> r == m[(team, Away)]
  {
    var h := (team, Home);
    var a := (team, Away);
    if h in m && a in m then NumScale(NumAdd(m[h], m[a]), 0.5)
    else if h in m then m[h]
    else if a in m then m[a]
    else Some(DEFAULT_DIFFICULTY)
  }

  /** The mean stays within any range the team's values and the default lie in. */
  lemma {:induction false} OppDifficultyBounds(m: StrengthMap, team: int, lo: real, hi: real)
    requires lo <= DEFAULT_DIFFICULTY <= hi
    requires forall k | k in m :: m[k].Some? && lo <= m[k].value <= hi
    ensures OppDifficulty(m, team).Some?
    ensures lo <= OppDifficulty(m, team).value <= hi
  {
  }

  /** A team without a fixture that gameweek faces the neutral difficulty. */
  lemma {:induction false} NoFixtureIsNeutral(fixtures: seq<Fixture>, gw: int, team: int)
    requires forall f | f in fixtures && f.event == Some(gw) :: f.teamH != team && f.teamA != team
    ensures OppDifficulty(OppStrength(fixtures, gw), team) == Some(DEFAULT_DIFFICULTY)
    ensures FixtureAdj(OppDifficulty(OppStrength(fixtures, gw), team)) == Some(1.0)
  {
    OppStrengthKeys(fixtures, gw, team, Home);
    OppStrengthKeys(fixtures, gw, team, Away);
  }

  // ---------------------------------------------------------- derived columns

  /** `4 - opp_difficulty`. */
  function FixtureAdj(opp: Num): Num {
    NumAdd(Some(4.0), NumScale(opp, -1.0))
  }

  /** `chance_of_playing.fillna(95) / 100`. */
  function XPlay(chance: Num): real {
    FillNa(chance, DEFAULT_CHANCE) / 100.0
  }

  /** `ppg / cost.replace(0, NaN)`: a zero cost gives NaN, not a division fault. */
  function ValuePpg(ppg: Num, cost: int): Num {
    NumDiv(ppg, if cost == 0 then None else Some(cost as real))
  }

  /** The joined team name: the name of the team with that id, or NaN. */
  function TeamNameOf(teams: seq<RawTeam>, teamId: int): Option<string> {
    if |teams| == 0 then None
    else if teams[0].id == teamId then Some(teams[0].name)
    else TeamNameOf(teams[1..], teamId)
  }

  /** One row of the player frame. */
  datatype PlayerRow = PlayerRow(
    id: int, webName: string, team: int, teamName: Option<string>, pos: Option<Position>, cost: int,
    selPct: Num, form: Num, ppg: Num, minutes: Num, ictIndex: Num,
    xPlay: real, oppDifficulty: Num, valuePpg: Num, formScaled: Num,
    attacking: Num, creative: Num, defensive: Num, fixtureAdj: Num, yProxy: Num)

  /** `(0.45 ppg + 0.55 form) * (0.7 + 0.3 fixture_adj / 3) * x_play`. */
  function YProxy(ppg: Num, form: Num, fixtureAdj: Num, xPlay: real): Num {
    var level := NumAdd(NumScale(ppg, 0.45), NumScale(form, 0.55));
    var adjust := NumAdd(Some(0.7), NumScale(NumScale(fixtureAdj, 0.3), 1.0 / 3.0));
    NumScale(NumMul(level, adjust), xPlay)
  }

  /** The derived columns of one player, given the gameweek's lookup. */
  function DeriveRow(p: RawPlayer, teams: seq<RawTeam>, m: StrengthMap): (r: PlayerRow)
    ensures r.id == p.id && r.team == p.team && r.cost == p.nowCost
    ensures r.pos == PositionOf(p.elementType)
    ensures r.oppDifficulty == OppDifficulty(m, p.team)
    ensures r.fixtureAdj.Some? <==> r.oppDifficulty.Some?
    ensures r.oppDifficulty.Some? ==> r.fixtureAdj.value == 4.0 - r.oppDifficulty.value
    ensures r.valuePpg.Some? <==> p.pointsPerGame.Some? && p.nowCost != 0
    ensures p.chanceOfPlaying.Some? && 0.0 <= p.chanceOfPlaying.value <= 100.0 ==> 0.0 <= r.xPlay <= 1.0
  {
    var xPlay := XPlay(p.chanceOfPlaying);
    var opp := OppDifficulty(m, p.team);
    var adj := FixtureAdj(opp);
    PlayerRow(
      p.id, p.webName, p.team, TeamNameOf(teams, p.team), PositionOf(p.elementType), p.nowCost,
      p.selectedByPercent, p.form, p.pointsPerGame, p.minutes, p.ictIndex,
      xPlay, opp, ValuePpg(p.pointsPerGame, p.nowCost), NumScale(p.form, xPlay),
      NumAdd(NumAdd(NumScale(p.goalsScored, 4.0), NumScale(p.assists, 3.0)), NumScale(p.threat, 1.0 / 10.0)),
      NumAdd(NumScale(p.creativity, 1.0 / 10.0), NumScale(p.assists, 2.0)),
      NumAdd(NumScale(p.cleanSheets, 4.0), NumScale(p.influence, 1.0 / 10.0)),
      adj,
      YProxy(p.pointsPerGame, p.form, adj, xPlay))
  }

  /** One row of `X = df[features].fillna(0.0)`. */
  function FeatureVector(r: PlayerRow): (v: seq<real>)
    ensures |v| == |FEATURE_NAMES|
  {
    [r.cost as real, FillNa(r.selPct, 0.0), FillNa(r.form, 0.0), FillNa(r.ppg, 0.0),
     FillNa(r.minutes, 0.0), FillNa(r.ictIndex, 0.0), FillNa(r.attacking, 0.0),
     FillNa(r.creative, 0.0), FillNa(r.defensive, 0.0), FillNa(r.fixtureAdj, 0.0),
     FillNa(r.valuePpg, 0.0), FillNa(r.formScaled, 0.0)]
  }

  /** `y_proxy.fillna(ppg.fillna(0.0))`. */
  function Target(r: PlayerRow): real {
    FillNa(r.yProxy, FillNa(r.ppg, 0.0))
  }

  // ------------------------------------------------------------------- table

  /** The frame, the feature matrix, the target vector and the feature names. */
  datatype PlayerTable = PlayerTable(rows: seq<PlayerRow>, x: seq<seq<real>>, y: seq<real>, features: seq<string>)

  /** The frame, the matrix and the target of the players, given the gameweek's lookup. */
  function TableFrom(boot: Bootstrap, m: StrengthMap): (t: PlayerTable)
    ensures |t.rows| == |t.x| == |t.y| == |boot.elements|
    ensures forall i | 0 <= i < |t.x| :: |t.x[i]| == |t.features| == 12
    ensures forall i | 0 <= i < |t.rows| :: t.rows[i].id == boot.elements[i].id && t.rows[i].cost == boot.elements[i].nowCost
  {
    var rows := seq(|boot.elements|, i requires 0 <= i < |boot.elements| => DeriveRow(boot.elements[i], boot.teams, m));
    PlayerTable(
      rows,
      seq(|rows|, i requires 0 <= i < |rows| => FeatureVector(rows[i])),
      seq(|rows|, i requires 0 <= i < |rows| => Target(rows[i])),
      FEATURE_NAMES)
  }

  /**
   * `build_player_table`. The column selections raise in program order: the
   * teams' columns, then the players' merge key, then the fixtures' `event`
   * column; when all three lists are non-empty the table is built.
   */
  function TableOf(boot: Bootstrap, fixtures: seq<Fixture>, gw: int): (r: Result<PlayerTable, TableError>)
    ensures r.Err? <==> boot.teams == [] || boot.elements == [] || fixtures == []
    ensures boot.teams == [] ==> r == Err(MissingTeamColumns)
    ensures boot.teams != [] && boot.elements == [] ==> r == Err(MissingPlayerColumns)
    ensures boot.teams != [] && boot.elements != [] && fixtures == [] ==> r == Err(MissingEventColumn)
  {
    if |boot.teams| == 0 then Err(MissingTeamColumns)
    else if |boot.elements| == 0 then Err(MissingPlayerColumns)
    else if |fixtures| == 0 then Err(MissingEventColumn)
    else Ok(TableFrom(boot, OppStrength(fixtures, gw)))
  }

  method BuildPlayerTable(boot: Bootstrap, fixtures: seq<Fixture>, gw: int) returns (res: Result<PlayerTable, TableError>)
    ensures res == TableOf(boot, fixtures, gw)
  {
    if |boot.teams| == 0 {
      return Err(MissingTeamColumns);
    }
    if |boot.elements| == 0 {
      return Err(MissingPlayerColumns);
    }
    if |fixtures| == 0 {
      return Err(MissingEventColumn);
    }
    var m := BuildOppStrength(fixtures, gw);
    res := Ok(TableFrom(boot, m));
  }

  /** A zero cost gives a value-per-cost feature of 0.0. */
  lemma {:induction false} ZeroCostValueFeature(p: RawPlayer, teams: seq<RawTeam>, m: StrengthMap)
    requires p.nowCost == 0
    ensures FeatureVector(DeriveRow(p, teams, m))[10] == 0.0
  {
  }

  /** A missing chance of playing counts as 95, so availability is 0.95. */
  lemma {:induction false} MissingChanceDefault(p: RawPlayer, teams: seq<RawTeam>, m: StrengthMap)
    requires p.chanceOfPlaying.None?
    ensures DeriveRow(p, teams, m).xPlay == 0.95
  {
  }

  /** The target is `y_proxy` when defined, else the points per game, else 0. */
  lemma {:induction false} TargetFallback(p: RawPlayer, teams: seq<RawTeam>, m: StrengthMap)
    ensures var r := DeriveRow(p, teams, m);
      Target(r) == (if r.yProxy.Some? then r.yProxy.value
                    else if p.pointsPerGame.Some? then p.pointsPerGame.value
                    else 0.0)
    ensures p.pointsPerGame.None? ==> Target(DeriveRow(p, teams, m)) == 0.0
  {
  }

  /**
   * With non-negative points per game and form, a chance of playing within
   * 0..100 and an opponent difficulty within 1..5, the target lies between 0
   * and `0.45 ppg + 0.55 form`.
   */
  lemma {:induction false} TargetBounds(p: RawPlayer, teams: seq<RawTeam>, m: StrengthMap)
    requires p.pointsPerGame.Some? && p.pointsPerGame.value >= 0.0
    requires p.form.Some? && p.form.value >= 0.0
    requires p.chanceOfPlaying.Some? ==> 0.0 <= p.chanceOfPlaying.value <= 100.0
    requires forall k | k in m :: m[k].Some? && 1.0 <= m[k].value <= 5.0
    ensures 0.0 <= Target(DeriveRow(p, teams, m)) <= 0.45 * p.pointsPerGame.value + 0.55 * p.form.value
  {
    OppDifficultyBounds(m, p.team, 1.0, 5.0);
    var r := DeriveRow(p, teams, m);
    assert p.pointsPerGame == Some(p.pointsPerGame.value) && p.form == Some(p.form.value);
    assert r.fixtureAdj == Some(r.fixtureAdj.value);
    assert -1.0 <= r.fixtureAdj.value <= 3.0;
    assert 0.0 <= r.xPlay <= 1.0;
    ProxyBounds(p.pointsPerGame.value, p.form.value, r.fixtureAdj.value, r.xPlay);
  }

  /** The proxy on defined inputs lies between 0 and the weighted level. */
  lemma {:induction false} ProxyBounds(ppg: real, form: real, adj: real, xPlay: real)
    requires ppg >= 0.0 && form >= 0.0 && -1.0 <= adj <= 3.0 && 0.0 <= xPlay <= 1.0
    ensures YProxy(Some(ppg), Some(form), Some(adj), xPlay).Some?
    ensures 0.0 <= YProxy(Some(ppg), Some(form), Some(adj), xPlay).value <= 0.45 * ppg + 0.55 * form
  {
    YProxyValue(ppg, form, adj, xPlay);
    var level := ppg * 0.45 + form * 0.55;
    var adjust := 0.7 + (adj * 0.3) * (1.0 / 3.0);
    ProductBounds(level, adjust, xPlay);
    var prod := level * adjust * xPlay;
    assert YProxy(Some(ppg), Some(form), Some(adj), xPlay).value == prod;
    assert prod <= level;
    assert level == 0.45 * ppg + 0.55 * form;
  }

  /** The proxy on defined inputs, as one real expression. */
  lemma {:induction false} YProxyValue(ppg: real, form: real, adj: real, xPlay: real)
    ensures YProxy(Some(ppg), Some(form), Some(adj), xPlay).Some?
    ensures YProxy(Some(ppg), Some(form), Some(adj), xPlay).value
         == (ppg * 0.45 + form * 0.55) * (0.7 + (adj * 0.3) * (1.0 / 3.0)) * xPlay
  {
  }

  lemma {:induction false} MulNonNegative(a: real, b: real)
    requires a >= 0.0 && b >= 0.0
    ensures a * b >= 0.0
  {
  }

  lemma {:induction false} ProductBounds(level: real, adjust: real, xPlay: real)
    requires level >= 0.0 && 0.0 <= adjust <= 1.0 && 0.0 <= xPlay <= 1.0
    ensures 0.0 <= level * adjust * xPlay <= level
  {
    var la := level * adjust;
    MulNonNegative(level, adjust);
    MulNonNegative(level, 1.0 - adjust);
    assert level - la == level * (1.0 - adjust);
    MulNonNegative(la, xPlay);
    MulNonNegative(la, 1.0 - xPlay);
    assert la - la * xPlay == la * (1.0 - xPlay);
  }
}
