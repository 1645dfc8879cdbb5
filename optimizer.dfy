// The squad optimizer: the 0/1 program's constraints as a predicate over a set
// of chosen player ids, optimality among legal subsets, and an exhaustive
// search that stands in for the integer-programming solver.

module Optimizer {
  import opened Base
  import opened Positions

  const SQUAD_SIZE: nat := 15
  const STARTING_XI_SIZE: nat := 11
  const TEAM_LIMIT: nat := 3

  /** The per-position caps of a full squad. */
  function PositionLimit(p: Position): nat {
    match p
    case GK => 2
    case DEF => 5
    case MID => 5
    case FWD => 3
  }

  /** One candidate row: id, team name, position, cost in tenths, expected points. */
  datatype Candidate = Candidate(id: int, team: Option<string>, pos: Option<Position>, cost: int, expPts: real)

  function Ids(players: seq<Candidate>): set<int> {
    if |players| == 0 then {} else {players[0].id} + Ids(players[1..])
  }

  /** Every team name that occurs among the candidates (a missing name is no team). */
  function Teams(players: seq<Candidate>): set<string> {
    if |players| == 0 then {}
    else (if players[0].team.Some? then {players[0].team.value} else {}) + Teams(players[1..])
  }

  predicate DistinctIds(players: seq<Candidate>) {
    forall i, j :: 0 <= i < j < |players| ==> players[i].id != players[j].id
  }

  /** The rows whose id is chosen, in table order. */
  function ChosenRows(players: seq<Candidate>, chosen: set<int>): seq<Candidate> {
    if |players| == 0 then []
    else (if players[0].id in chosen then [players[0]] else []) + ChosenRows(players[1..], chosen)
  }

  function RowCost(rows: seq<Candidate>): int {
    if |rows| == 0 then 0 else rows[0].cost + RowCost(rows[1..])
  }

  function RowPoints(rows: seq<Candidate>): real {
    if |rows| == 0 then 0.0 else rows[0].expPts + RowPoints(rows[1..])
  }

  function CountPos(rows: seq<Candidate>, p: Position): nat {
    if |rows| == 0 then 0 else (if rows[0].pos == Some(p) then 1 else 0) + CountPos(rows[1..], p)
  }

  function CountTeam(rows: seq<Candidate>, t: string): nat {
    if |rows| == 0 then 0 else (if rows[0].team == Some(t) then 1 else 0) + CountTeam(rows[1..], t)
  }

  /** The objective: the summed expected points of the chosen rows. */
  function Total(players: seq<Candidate>, chosen: set<int>): real {
    RowPoints(ChosenRows(players, chosen))
  }

  function SquadSizeFor(startingXi: bool): nat {
    if startingXi then STARTING_XI_SIZE else SQUAD_SIZE
  }

  /** The cap of one position: its full-squad limit, or 11 in starting-XI mode. */
  function PositionCap(p: Position, startingXi: bool): nat {
    if startingXi then STARTING_XI_SIZE else PositionLimit(p)
  }

  predicate WithinPositionCaps(rows: seq<Candidate>, startingXi: bool) {
    && CountPos(rows, GK) <= PositionCap(GK, startingXi)
    && CountPos(rows, DEF) <= PositionCap(DEF, startingXi)
    && CountPos(rows, MID) <= PositionCap(MID, startingXi)
    && CountPos(rows, FWD) <= PositionCap(FWD, startingXi)
  }

  /** The on-pitch formation of a starting XI: 1 GK, at least 3 DEF, 2 MID, 1 FWD. */
  predicate ValidFormation(rows: seq<Candidate>) {
    && CountPos(rows, GK) == 1
    && CountPos(rows, DEF) >= 3
    && CountPos(rows, MID) >= 2
    && CountPos(rows, FWD) >= 1
  }

  /** Every constraint of the 0/1 program, for one assignment of the decision variables. */
  predicate IsLegal(players: seq<Candidate>, chosen: set<int>, budget: int, startingXi: bool, locks: set<int>) {
    var rows := ChosenRows(players, chosen);
    && chosen <= Ids(players)
    && RowCost(rows) <= budget
    && |chosen| == SquadSizeFor(startingXi)
    && WithinPositionCaps(rows, startingXi)
    && (forall t | t in Teams(players) :: CountTeam(rows, t) <= TEAM_LIMIT)
    && (startingXi ==> ValidFormation(rows))
    && (forall l | l in locks && l in Ids(players) :: l in chosen)
  }

  /** A legal assignment that no legal assignment beats on the objective. */
  ghost predicate IsOptimal(players: seq<Candidate>, chosen: set<int>, budget: int, startingXi: bool, locks: set<int>) {
    && IsLegal(players, chosen, budget, startingXi, locks)
    && forall s :: IsLegal(players, s, budget, startingXi, locks) ==> Total(players, s) <= Total(players, chosen)
  }

  /** The lock list as the set the source builds from it. */
  function LockSet(lockIds: seq<int>): set<int> {
    set l | l in lockIds
  }

  /** All subsets of the elements of `xs`. */
  function Subsets(xs: seq<int>): (r: seq<set<int>>)
    ensures |r| > 0
  {
    if |xs| == 0 then [{}]
    else
      var rest := Subsets(xs[1..]);
      rest + seq(|rest|, i requires 0 <= i < |rest| => rest[i] + {xs[0]})
  }

  function IdSeq(players: seq<Candidate>): (r: seq<int>)
    ensures |r| == |players|
    ensures forall x :: x in r <==> x in Ids(players)
  {
    if |players| == 0 then [] else [players[0].id] + IdSeq(players[1..])
  }

  lemma {:induction false} SubsetsComplete(xs: seq<int>, s: set<int>)
    requires forall x | x in s :: x in xs
    ensures s in Subsets(xs)
  {
    if |xs| == 0 {
      assert forall x :: x !in s;
      assert s == {};
    } else {
      var rest := Subsets(xs[1..]);
      if xs[0] in s {
        var s' := s - {xs[0]};
        forall x | x in s' ensures x in xs[1..] {
          assert x in xs && x != xs[0];
        }
        SubsetsComplete(xs[1..], s');
        var i :| 0 <= i < |rest| && rest[i] == s';
        assert rest[i] + {xs[0]} == s;
        var ext := seq(|rest|, j requires 0 <= j < |rest| => rest[j] + {xs[0]});
        assert ext[i] == s;
        assert Subsets(xs) == rest + ext;
      } else {
        forall x | x in s ensures x in xs[1..] {
          assert x in xs && x != xs[0];
        }
        SubsetsComplete(xs[1..], s);
      }
    }
  }

  /** With distinct ids, the chosen rows are exactly one row per chosen id. */
  lemma {:induction false} ChosenRowsCount(players: seq<Candidate>, chosen: set<int>)
    requires DistinctIds(players)
    requires chosen <= Ids(players)
    ensures |ChosenRows(players, chosen)| == |chosen|
  {
    if |players| == 0 {
      assert chosen == {};
    } else {
      var x := players[0].id;
      var tail := players[1..];
      assert DistinctIds(tail);
      assert x !in Ids(tail) by { IdsChar(tail, x); }
      var rest := chosen - {x};
      assert rest <= Ids(tail);
      ChosenRowsCount(tail, rest);
      ChosenRowsIgnore(tail, chosen, x);
      if x in chosen {
        assert |chosen| == |rest| + 1;
      } else {
        assert rest == chosen;
      }
    }
  }

  /** An id is in the table exactly when one of its rows carries it. */
  lemma {:induction false} IdsChar(players: seq<Candidate>, x: int)
    ensures x in Ids(players) <==> exists i :: 0 <= i < |players| && players[i].id == x
  {
    if |players| > 0 {
      var tail := players[1..];
      IdsChar(tail, x);
      if x in Ids(tail) {
        var i :| 0 <= i < |tail| && tail[i].id == x;
        assert players[i + 1].id == x;
      }
      if exists i :: 0 <= i < |players| && players[i].id == x {
        var i :| 0 <= i < |players| && players[i].id == x;
        if i > 0 {
          assert tail[i - 1].id == x;
        }
      }
    }
  }

  /** Removing an id absent from the table does not change its chosen rows. */
  lemma {:induction false} ChosenRowsIgnore(players: seq<Candidate>, chosen: set<int>, x: int)
    requires x !in Ids(players)
    ensures ChosenRows(players, chosen) == ChosenRows(players, chosen - {x})
  {
    if |players| > 0 {
      ChosenRowsIgnore(players[1..], chosen, x);
    }
  }

  /** The index of a greatest total among the flagged entries, or -1 when none is flagged. */
  method BestFlagged(flags: seq<bool>, totals: seq<real>) returns (idx: int)
    requires |flags| == |totals|
    ensures -1 <= idx < |flags|
    ensures idx == -1 <==> forall j | 0 <= j < |flags| :: !flags[j]
    ensures idx >= 0 ==> flags[idx] && forall j | 0 <= j < |flags| && flags[j] :: totals[j] <= totals[idx]
  {
    idx := -1;
    for i := 0 to |flags|
      invariant -1 <= idx < i
      invariant idx == -1 ==> forall j | 0 <= j < i :: !flags[j]
      invariant idx >= 0 ==> flags[idx] && forall j | 0 <= j < i && flags[j] :: totals[j] <= totals[idx]
    {
      if flags[i] && (idx == -1 || totals[idx] < totals[i]) {
        idx := i;
      }
    }
  }

  /** Exhaustive search over every subset of the candidate ids; a stand-in for the exact solve. */
  method Solve(players: seq<Candidate>, budget: int, startingXi: bool, locks: set<int>)
    returns (found: bool, best: set<int>)
    ensures found ==> IsOptimal(players, best, budget, startingXi, locks)
    ensures !found ==> best == {} && forall s :: !IsLegal(players, s, budget, startingXi, locks)
  {
    var ids := IdSeq(players);
    var all := Subsets(ids);
    var flags := seq(|all|, j requires 0 <= j < |all| => IsLegal(players, all[j], budget, startingXi, locks));
    var totals := seq(|all|, j requires 0 <= j < |all| => Total(players, all[j]));
    var idx := BestFlagged(flags, totals);
    forall s | IsLegal(players, s, budget, startingXi, locks)
      ensures exists j :: 0 <= j < |all| && all[j] == s && flags[j]
    {
      SubsetsComplete(ids, s);
      var j :| 0 <= j < |all| && all[j] == s;
      assert flags[j];
    }
    if idx < 0 {
      found, best := false, {};
    } else {
      found, best := true, all[idx];
      assert flags[idx];
      forall s | IsLegal(players, s, budget, startingXi, locks)
        ensures Total(players, s) <= Total(players, best)
      {
        var j :| 0 <= j < |all| && all[j] == s;
        assert flags[j];
      }
    }
  }

  /**
   * The optimizer: solve, keep the rows whose variable is set, and sum their
   * expected points. `found` is the solve status, which the source never
   * inspects; the promises on the squad hold when it is true.
   */
  method OptimizeSquad(players: seq<Candidate>, budget: int, startingXi: bool, lockIds: seq<int>)
    returns (found: bool, squad: set<int>, chosen: seq<Candidate>, total: real)
    requires DistinctIds(players)
    ensures found <==> exists s :: IsLegal(players, s, budget, startingXi, LockSet(lockIds))
    ensures chosen == ChosenRows(players, squad) && total == RowPoints(chosen)
    ensures found ==> IsOptimal(players, squad, budget, startingXi, LockSet(lockIds))
    ensures found ==> |chosen| == SquadSizeFor(startingXi)
    ensures found ==> RowCost(chosen) <= budget
    ensures found ==> WithinPositionCaps(chosen, startingXi)
    ensures found ==> forall t | t in Teams(players) :: CountTeam(chosen, t) <= TEAM_LIMIT
    ensures found && startingXi ==> ValidFormation(chosen)
    ensures found ==> forall l | l in lockIds && l in Ids(players) :: l in Ids(chosen)
    ensures found ==> forall s :: IsLegal(players, s, budget, startingXi, LockSet(lockIds)) ==> Total(players, s) <= total
    ensures !found ==> squad == {} && chosen == [] && total == 0.0
  {
    var locks := LockSet(lockIds);
    found, squad := Solve(players, budget, startingXi, locks);
    chosen := ChosenRows(players, squad);
    total := RowPoints(chosen);
    if !found {
      NothingChosen(players);
    }
    if found {
      ChosenRowsCount(players, squad);
      forall l | l in lockIds && l in Ids(players) ensures l in Ids(chosen) {
        ChosenRowsIds(players, squad, l);
      }
    }
  }

  /** With no id chosen, no row is kept. */
  lemma {:induction false} NothingChosen(players: seq<Candidate>)
    ensures ChosenRows(players, {}) == []
  {
    if |players| > 0 {
      NothingChosen(players[1..]);
    }
  }

  /** A chosen id that is in the table has a row among the chosen rows. */
  lemma {:induction false} ChosenRowsIds(players: seq<Candidate>, chosen: set<int>, x: int)
    requires x in chosen && x in Ids(players)
    ensures x in Ids(ChosenRows(players, chosen))
  {
    if players[0].id != x {
      ChosenRowsIds(players[1..], chosen, x);
      IdsAppend(if players[0].id in chosen then [players[0]] else [], ChosenRows(players[1..], chosen));
    } else {
      IdsAppend([players[0]], ChosenRows(players[1..], chosen));
    }
  }

  lemma {:induction false} IdsAppend(a: seq<Candidate>, b: seq<Candidate>)
    ensures Ids(a + b) == Ids(a) + Ids(b)
  {
    if |a| > 0 {
      assert (a + b)[1..] == a[1..] + b;
      IdsAppend(a[1..], b);
    } else {
      assert a + b == b;
    }
  }

  /** Lock ids that are not candidates are ignored: they do not change legality. */
  lemma {:induction false} AbsentLocksIgnored(players: seq<Candidate>, s: set<int>, budget: int, startingXi: bool, locks: set<int>)
    ensures IsLegal(players, s, budget, startingXi, locks) <==> IsLegal(players, s, budget, startingXi, locks * Ids(players))
  {
  }

  /** Forcing players in can only lower the best achievable total. */
  lemma {:induction false} LocksNeverRaiseTotal(players: seq<Candidate>, a: set<int>, b: set<int>, budget: int, startingXi: bool, locks: set<int>)
    requires IsOptimal(players, a, budget, startingXi, locks)
    requires IsOptimal(players, b, budget, startingXi, {})
    ensures Total(players, a) <= Total(players, b)
  {
    assert IsLegal(players, a, budget, startingXi, {});
  }
}
