// Multi-gameweek projection: the player table is rebuilt for each gameweek
// of the horizon, the fitted model's predictions are discounted by 0.95 per
// gameweek ahead, the per-gameweek columns are outer-joined on the player's
// identity, and the discounted columns are summed with missing cells as 0.

module Horizon {
  import opened Base
  import opened Positions
  import opened Features
  import Decimal

  /** The join key: the identity columns of the player frame. */
  datatype Identity = Identity(id: int, webName: string, teamName: Option<string>, pos: Option<Position>, cost: int)

  /** A fitted model: it scores one feature vector. */
  type Scorer = seq<real> -> real

  /** `model_fn`: fitting on the feature matrix and the target gives a model. */
  type Fit = (seq<seq<real>>, seq<real>) -> Scorer

  const DECAY: real := 0.95

  /** No period at all leaves nothing to aggregate; a failing table build propagates. */
  datatype HorizonError = NoPeriods | TableFailed(cause: TableError)

  /** The joined frame: one cell per gameweek column, NaN where the player was absent. */
  type Agg = map<Identity, seq<Num>>

  datatype HorizonTable = HorizonTable(entries: Agg, epCols: seq<string>, epSum: map<Identity, real>)

  function IdentityOf(r: PlayerRow): Identity {
    Identity(r.id, r.webName, r.teamName, r.pos, r.cost)
  }

  /** A model's score for each feature vector, in order. */
  function Scores(model: Scorer, x: seq<seq<real>>): (s: seq<real>)
    ensures |s| == |x|
    ensures forall i | 0 <= i < |x| :: s[i] == model(x[i])
  {
    if |x| == 0 then [] else Scores(model, x[..|x| - 1]) + [model(x[|x| - 1])]
  }

  /** The predictions on the training rows themselves. */
  function Predict(fit: Fit, t: PlayerTable): (preds: seq<real>)
    ensures |preds| == |t.x|
  {
    Scores(fit(t.x, t.y), t.x)
  }

  /** The gameweek column of one period: each identity mapped to its discounted prediction. */
  function Column(rows: seq<PlayerRow>, preds: seq<real>, factor: real): map<Identity, real>
    requires |rows| == |preds|
  {
    if |rows| == 0 then map[]
    else
      var n := |rows| - 1;
      Column(rows[..n], preds[..n], factor)[IdentityOf(rows[n]) := preds[n] * factor]
  }

  /** The identities of a column are those of the period's rows. */
  lemma {:induction false} ColumnKeys(rows: seq<PlayerRow>, preds: seq<real>, factor: real, id: Identity)
    requires |rows| == |preds|
    ensures id in Column(rows, preds, factor) <==> exists i | 0 <= i < |rows| :: IdentityOf(rows[i]) == id
  {
    if |rows| > 0 {
      var n := |rows| - 1;
      ColumnKeys(rows[..n], preds[..n], factor, id);
      assert forall i | 0 <= i < n :: rows[..n][i] == rows[i];
    }
  }

  /** With distinct player ids, each player's cell is its own prediction times the discount. */
  lemma {:induction false} ColumnValue(rows: seq<PlayerRow>, preds: seq<real>, factor: real, i: nat)
    requires |rows| == |preds| && i < |rows|
    requires forall j | 0 <= j < |rows| && j != i :: rows[j].id != rows[i].id
    ensures IdentityOf(rows[i]) in Column(rows, preds, factor)
    ensures Column(rows, preds, factor)[IdentityOf(rows[i])] == preds[i] * factor
  {
    var n := |rows| - 1;
    if i < n {
      assert forall j | 0 <= j < n :: rows[..n][j] == rows[j];
      ColumnValue(rows[..n], preds[..n], factor, i);
      assert IdentityOf(rows[n]) != IdentityOf(rows[i]);
    }
  }

  /** The column that the `k`-th gameweek ahead contributes, from that gameweek's table. */
  function TableColumn(t: PlayerTable, k: nat, fit: Fit): map<Identity, real>
    requires |t.rows| == |t.x|
  {
    Column(t.rows, Predict(fit, t), Pow(DECAY, k))
  }

  /** The column of the `k`-th gameweek ahead. */
  function PeriodColumn(boot: Bootstrap, fixtures: seq<Fixture>, start: int, k: nat, fit: Fit): map<Identity, real>
    requires Buildable(boot, fixtures)
  {
    TableColumn(TableOf(boot, fixtures, start + k).value, k, fit)
  }

  function Nones(k: nat): (r: seq<Num>)
    ensures |r| == k && forall i | 0 <= i < k :: r[i] == None
  {
    if k == 0 then [] else Nones(k - 1) + [None]
  }

  /** The outer join of the frame so far (with `k` gameweek columns) and a new column. */
  function MergeColumn(agg: Agg, k: nat, col: map<Identity, real>): (r: Agg)
    ensures forall id {:trigger id in r} :: id in r <==> id in agg || id in col
  {
    map id | id in agg.Keys + col.Keys ::
      (if id in agg then agg[id] else Nones(k)) + [if id in col then Some(col[id]) else None]
  }

  /** The columns of the first `n` gameweeks, in order. */
  function PeriodColumns(boot: Bootstrap, fixtures: seq<Fixture>, start: int, n: nat, fit: Fit): (cols: seq<map<Identity, real>>)
    requires Buildable(boot, fixtures)
    ensures |cols| == n
  {
    seq(n, k requires 0 <= k < n => PeriodColumn(boot, fixtures, start, k, fit))
  }

  /** The frame after joining `cols` one by one (the first one onto an empty frame). */
  function Joined(cols: seq<map<Identity, real>>): Agg {
    if |cols| == 0 then map[]
    else MergeColumn(Joined(cols[..|cols| - 1]), |cols| - 1, cols[|cols| - 1])
  }

  /** The name of the column of gameweek `gw`. */
  function EpColumnName(gw: int): string {
    "gw" + Decimal.IntToString(gw) + "_ep"
  }

  function EpColumnNames(start: int, n: nat): (r: seq<string>)
    ensures |r| == n
    ensures forall k | 0 <= k < n :: r[k] == EpColumnName(start + k)
  {
    seq(n, k requires 0 <= k < n => EpColumnName(start + k))
  }

  /** `fillna(0).sum()` over one joined row. */
  function EpSum(entry: seq<Num>): real {
    if |entry| == 0 then 0.0 else EpSum(entry[..|entry| - 1]) + FillNa(entry[|entry| - 1], 0.0)
  }

  /** The `ep_sum` column. */
  function EpSums(agg: Agg): map<Identity, real> {
    map id | id in agg :: EpSum(agg[id])
  }

  /** `horizon_expected_points`. */
  function HorizonOf(boot: Bootstrap, fixtures: seq<Fixture>, start: int, horizon: int, fit: Fit): (r: Result<HorizonTable, HorizonError>)
    ensures r.Err? <==> horizon <= 0 || boot.teams == [] || boot.elements == [] || fixtures == []
    ensures horizon <= 0 ==> r == Err(NoPeriods)
    ensures horizon > 0 && !Buildable(boot, fixtures) ==> r == Err(TableFailed(TableOf(boot, fixtures, start).error))
  {
    if horizon <= 0 then Err(NoPeriods)
    else if !Buildable(boot, fixtures) then Err(TableFailed(TableOf(boot, fixtures, start).error))
    else
      var agg := Joined(PeriodColumns(boot, fixtures, start, horizon, fit));
      Ok(HorizonTable(agg, EpColumnNames(start, horizon), EpSums(agg)))
  }

  /** One pass of the loop: the table of gameweek `start + k`, the model's predictions and the discounted column. */
  method PeriodColumnOf(boot: Bootstrap, fixtures: seq<Fixture>, start: int, k: nat, fit: Fit)
    returns (r: Result<map<Identity, real>, TableError>)
    ensures r.Err? <==> boot.teams == [] || boot.elements == [] || fixtures == []
    ensures r.Err? ==> r == Err(TableOf(boot, fixtures, start).error)
    ensures r.Ok? ==> Buildable(boot, fixtures) && r.value == PeriodColumn(boot, fixtures, start, k, fit)
  {
    var table := TableOf(boot, fixtures, start + k);
    if table.Err? {
      return Err(table.error);
    }
    r := Ok(TableColumn(table.value, k, fit));
  }

  /** The per-gameweek loop. */
  method HorizonExpectedPoints(boot: Bootstrap, fixtures: seq<Fixture>, start: int, horizon: int, fit: Fit)
    returns (res: Result<HorizonTable, HorizonError>)
    ensures res == HorizonOf(boot, fixtures, start, horizon, fit)
  {
    var agg: Agg := map[];
    var cols: seq<string> := [];
    ghost var joined: seq<map<Identity, real>> := [];
    var k := 0;
    while k < horizon
      invariant 0 <= k && (k == 0 || k <= horizon)
      invariant k > 0 ==> Buildable(boot, fixtures)
      invariant |joined| == k && agg == Joined(joined)
      invariant Buildable(boot, fixtures) ==> joined == PeriodColumns(boot, fixtures, start, k, fit)
      invariant cols == EpColumnNames(start, k)
      decreases horizon - k
    {
      var period := PeriodColumnOf(boot, fixtures, start, k, fit);
      if period.Err? {
        return Err(TableFailed(period.error));
      }
      var col := period.value;
      PeriodColumnsStep(boot, fixtures, start, k, fit, joined, col);
      EpColumnNamesStep(start, k, cols);
      assert (joined + [col])[..k] == joined;
      joined := joined + [col];
      agg := MergeColumn(agg, k, col);
      cols := cols + [EpColumnName(start + k)];
      k := k + 1;
    }
    if k == 0 {
      return Err(NoPeriods);
    }
    res := Ok(HorizonTable(agg, cols, EpSums(agg)));
  }

  lemma {:induction false} PeriodColumnsStep(boot: Bootstrap, fixtures: seq<Fixture>, start: int, k: nat, fit: Fit,
                                             cols: seq<map<Identity, real>>, col: map<Identity, real>)
    requires Buildable(boot, fixtures)
    requires cols == PeriodColumns(boot, fixtures, start, k, fit) && col == PeriodColumn(boot, fixtures, start, k, fit)
    ensures cols + [col] == PeriodColumns(boot, fixtures, start, k + 1, fit)
  {
  }

  lemma {:induction false} EpColumnNamesStep(start: int, k: nat, cols: seq<string>)
    requires cols == EpColumnNames(start, k)
    ensures cols + [EpColumnName(start + k)] == EpColumnNames(start, k + 1)
  {
  }

  // ------------------------------------------------------------- properties

  /** Every joined row has exactly one cell per column joined. */
  lemma {:induction false} JoinedShape(cols: seq<map<Identity, real>>, id: Identity)
    requires id in Joined(cols)
    ensures |Joined(cols)[id]| == |cols|
  {
    var n := |cols|;
    if n > 0 && id in Joined(cols[..n - 1]) {
      JoinedShape(cols[..n - 1], id);
    }
  }

  /** The outer join keeps every identity that appears in some column, and no other. */
  lemma {:induction false} JoinedKeys(cols: seq<map<Identity, real>>, id: Identity)
    ensures id in Joined(cols) <==> exists k | 0 <= k < |cols| :: id in cols[k]
  {
    var n := |cols|;
    if n > 0 {
      var front := cols[..n - 1];
      JoinedKeys(front, id);
      if id in Joined(cols) {
        if id in Joined(front) {
          var k :| 0 <= k < n - 1 && id in front[k];
          assert cols[k] == front[k];
        } else {
          assert id in cols[n - 1];
        }
      }
      if exists k | 0 <= k < n :: id in cols[k] {
        var k :| 0 <= k < n && id in cols[k];
        if k < n - 1 {
          assert front[k] == cols[k];
          assert id in Joined(front);
        }
      }
    }
  }

  /** The last join: a row of the previous frame (or NaNs) extended by the last column's cell. */
  lemma {:induction false} JoinedLast(cols: seq<map<Identity, real>>, id: Identity)
    requires |cols| > 0 && id in Joined(cols)
    ensures var prev := Joined(cols[..|cols| - 1]);
      var col := cols[|cols| - 1];
      Joined(cols)[id] == (if id in prev then prev[id] else Nones(|cols| - 1)) + [if id in col then Some(col[id]) else None]
  {
  }

  /** Cell `k` of a joined row is the player's value in column `k`, or NaN when the player is absent from it. */
  lemma {:induction false} JoinedEntry(cols: seq<map<Identity, real>>, id: Identity, k: nat)
    requires k < |cols| && id in Joined(cols)
    ensures |Joined(cols)[id]| == |cols|
    ensures id in cols[k] ==> Joined(cols)[id][k].Some? && Joined(cols)[id][k].value == cols[k][id]
    ensures id !in cols[k] ==> Joined(cols)[id][k].None?
  {
    JoinedShape(cols, id);
    var n := |cols|;
    var front := cols[..n - 1];
    var prev := Joined(front);
    var col := cols[n - 1];
    var head := if id in prev then prev[id] else Nones(n - 1);
    var cell := if id in col then Some(col[id]) else None;
    assert Joined(cols)[id] == head + [cell] by {
      JoinedLast(cols, id);
    }
    assert |head| == n - 1 by {
      if id in prev {
        JoinedShape(front, id);
      }
    }
    if k == n - 1 {
      assert Joined(cols)[id][k] == cell;
    } else {
      assert Joined(cols)[id][k] == head[k];
      assert front[k] == cols[k];
      if id in prev {
        JoinedEntry(front, id, k);
      } else {
        JoinedKeys(front, id);
      }
    }
  }

  /** The sum of a player's values over the columns it appears in. */
  function PresentSum(cols: seq<map<Identity, real>>, id: Identity): real {
    if |cols| == 0 then 0.0
    else
      var last := cols[|cols| - 1];
      PresentSum(cols[..|cols| - 1], id) + (if id in last then last[id] else 0.0)
  }

  lemma {:induction false} PresentSumAbsent(cols: seq<map<Identity, real>>, id: Identity)
    requires forall k | 0 <= k < |cols| :: id !in cols[k]
    ensures PresentSum(cols, id) == 0.0
  {
    var n := |cols|;
    if n > 0 {
      assert forall k | 0 <= k < n - 1 :: cols[..n - 1][k] == cols[k];
      PresentSumAbsent(cols[..n - 1], id);
    }
  }

  lemma {:induction false} EpSumNones(k: nat)
    ensures EpSum(Nones(k)) == 0.0
  {
    if k > 0 {
      assert Nones(k)[..k - 1] == Nones(k - 1);
      EpSumNones(k - 1);
    }
  }

  /** The summed points of a joined row are the sum of the player's values over the columns it appears in. */
  lemma {:induction false} EpSumOfJoined(cols: seq<map<Identity, real>>, id: Identity)
    requires id in Joined(cols)
    ensures EpSum(Joined(cols)[id]) == PresentSum(cols, id)
  {
    var n := |cols|;
    var prev := Joined(cols[..n - 1]);
    var col := cols[n - 1];
    var e := Joined(cols)[id];
    var front := if id in prev then prev[id] else Nones(n - 1);
    assert e == front + [if id in col then Some(col[id]) else None];
    assert e[..|e| - 1] == front;
    if id in prev {
      EpSumOfJoined(cols[..n - 1], id);
    } else {
      EpSumNones(n - 1);
      JoinedKeys(cols[..n - 1], id);
      PresentSumAbsent(cols[..n - 1], id);
    }
  }

  /** A player present in every column, with value `w[k]` in column `k`, sums to the sum of `w`. */
  lemma {:induction false} PresentSumOfValues(cols: seq<map<Identity, real>>, id: Identity, w: seq<real>)
    requires |w| == |cols|
    requires forall k | 0 <= k < |cols| :: id in cols[k] && cols[k][id] == w[k]
    ensures PresentSum(cols, id) == SumReals(w)
  {
    var n := |cols|;
    if n > 0 {
      var front := cols[..n - 1];
      assert forall k | 0 <= k < n - 1 :: front[k] == cols[k];
      PresentSumOfValues(front, id, w[..n - 1]);
    }
  }

  /** The summed points of the projection are those of the joined gameweek columns. */
  lemma {:induction false} HorizonSums(boot: Bootstrap, fixtures: seq<Fixture>, start: int, horizon: int, fit: Fit, id: Identity)
    requires horizon > 0 && Buildable(boot, fixtures)
    ensures HorizonOf(boot, fixtures, start, horizon, fit).Ok?
    ensures var h := HorizonOf(boot, fixtures, start, horizon, fit).value;
      var cols := PeriodColumns(boot, fixtures, start, horizon, fit);
      && h.entries == Joined(cols)
      && h.epCols == EpColumnNames(start, horizon)
      && (id in h.epSum <==> exists k | 0 <= k < horizon :: id in cols[k])
      && (id in h.epSum ==> h.epSum[id] == PresentSum(cols, id))
  {
    var cols := PeriodColumns(boot, fixtures, start, horizon, fit);
    JoinedKeys(cols, id);
    if id in Joined(cols) {
      EpSumOfJoined(cols, id);
    }
  }

  /** A player present in every column, with value `w[k]` in column `k`, is joined with summed points `sum(w)`. */
  lemma {:induction false} EverPresentSum(cols: seq<map<Identity, real>>, id: Identity, w: seq<real>)
    requires |cols| > 0 && |w| == |cols|
    requires forall k | 0 <= k < |cols| :: id in cols[k] && cols[k][id] == w[k]
    ensures id in Joined(cols)
    ensures EpSum(Joined(cols)[id]) == SumReals(w)
  {
    JoinedKeys(cols, id);
    assert id in cols[0];
    EpSumOfJoined(cols, id);
    PresentSumOfValues(cols, id, w);
  }

  /** Over three gameweeks a steady prediction `s` (discounted by 0.95 per week ahead) sums to `s * (1 + 0.95 + 0.9025)`. */
  lemma {:induction false} ThreeWeekStableSum(cols: seq<map<Identity, real>>, id: Identity, s: real)
    requires |cols| == 3
    requires forall k | 0 <= k < 3 :: id in cols[k] && cols[k][id] == s * Pow(DECAY, k)
    ensures id in Joined(cols)
    ensures EpSum(Joined(cols)[id]) == s * (1.0 + 0.95 + 0.9025)
  {
    assert Pow(DECAY, 0) == 1.0;
    assert Pow(DECAY, 1) == 0.95;
    assert Pow(DECAY, 2) == 0.9025;
    var w := [s, s * 0.95, s * 0.9025];
    assert cols[0][id] == w[0] && cols[1][id] == w[1] && cols[2][id] == w[2];
    EverPresentSum(cols, id, w);
    assert w[..2][..1][..0] == [];
    assert SumReals(w[..2][..1]) == w[0];
    assert SumReals(w[..2]) == w[0] + w[1];
  }

  /** Joining a single column keeps each of its values as the summed points. */
  lemma {:induction false} SingleColumnSum(cols: seq<map<Identity, real>>, id: Identity)
    requires |cols| == 1 && id in cols[0]
    ensures id in EpSums(Joined(cols)) && EpSums(Joined(cols))[id] == cols[0][id]
  {
    JoinedKeys(cols, id);
    EpSumOfJoined(cols, id);
    assert cols[..0] == [];
  }

  /** With a single gameweek, each player's summed points are its undiscounted prediction. */
  lemma {:induction false} SingleWeekIsPrediction(boot: Bootstrap, fixtures: seq<Fixture>, start: int, fit: Fit, i: nat)
    requires boot.teams != [] && |fixtures| > 0 && i < |boot.elements|
    requires forall j | 0 <= j < |boot.elements| && j != i :: boot.elements[j].id != boot.elements[i].id
    ensures HorizonOf(boot, fixtures, start, 1, fit).Ok?
    ensures var t := TableOf(boot, fixtures, start).value;
      var h := HorizonOf(boot, fixtures, start, 1, fit).value;
      IdentityOf(t.rows[i]) in h.epSum && h.epSum[IdentityOf(t.rows[i])] == Predict(fit, t)[i]
  {
    var t := TableOf(boot, fixtures, start).value;
    var preds := Predict(fit, t);
    ColumnValue(t.rows, preds, Pow(DECAY, 0), i);
    var id := IdentityOf(t.rows[i]);
    var cols := PeriodColumns(boot, fixtures, start, 1, fit);
    assert cols[0] == PeriodColumn(boot, fixtures, start, 0, fit);
    assert id in cols[0] && cols[0][id] == preds[i] by {
      assert Pow(DECAY, 0) == 1.0;
    }
    SingleColumnSum(cols, id);
  }

  /** Distinct gameweeks give distinct column names. */
  lemma {:induction false} EpColumnNameInjective(a: int, b: int)
    requires EpColumnName(a) == EpColumnName(b)
    ensures a == b
  {
    var sa := Decimal.IntToString(a);
    var sb := Decimal.IntToString(b);
    var na := EpColumnName(a);
    assert na[2..|na| - 3] == sa;
    assert na[2..|na| - 3] == sb;
    Decimal.IntLiteralOfString(a);
    Decimal.IntLiteralOfString(b);
  }

  lemma {:induction false} EpColumnNamesDistinct(start: int, n: nat)
    ensures Distinct(EpColumnNames(start, n))
  {
    forall i, j | 0 <= i < j < n
      ensures EpColumnNames(start, n)[i] != EpColumnNames(start, n)[j]
    {
      if EpColumnName(start + i) == EpColumnName(start + j) {
        EpColumnNameInjective(start + i, start + j);
      }
    }
  }
}
