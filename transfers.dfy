// The transfer advisor of the dashboard: the held players to sell, the target
// players to buy, every (out, in) pair with its gain, the top pairs by Python
// tuple order, and the net gain after the hit term.

module Transfers {
  import opened Base
  import opened Optimizer

  /** One entry of the gain list: `(gain, out_id, in_id)`. */
  datatype Swap = Swap(gain: real, outId: int, inId: int)

  /** Python's tuple comparison `a > b`: by gain, then out id, then in id. */
  predicate Above(a: Swap, b: Swap) {
    || a.gain > b.gain
    || (a.gain == b.gain && a.outId > b.outId)
    || (a.gain == b.gain && a.outId == b.outId && a.inId > b.inId)
  }

  /** The tuple order is total: two different entries are always ordered one way. */
  lemma {:induction false} AboveTotal(a: Swap, b: Swap)
    ensures a == b || Above(a, b) || Above(b, a)
  {
    if !Above(a, b) && !Above(b, a) {
      assert a == Swap(b.gain, b.outId, b.inId);
    }
  }

  /** What `sort(reverse=True)` produces: no entry is above an earlier one. */
  predicate Descending(s: seq<Swap>) {
    forall i, j | 0 <= i < j < |s| :: !Above(s[j], s[i])
  }

  predicate StrictlyDescending(s: seq<Swap>) {
    forall i, j | 0 <= i < j < |s| :: Above(s[i], s[j])
  }

  /** The expected points of the first row with this id (`.values[0]`). */
  function PointsOf(df: seq<Candidate>, id: int): real
    requires id in Ids(df)
  {
    if df[0].id == id then df[0].expPts else PointsOf(df[1..], id)
  }

  function Gain(df: seq<Candidate>, outId: int, inId: int): real
    requires outId in Ids(df) && inId in Ids(df)
  {
    PointsOf(df, inId) - PointsOf(df, outId)
  }

  /** The ids of the held roster that are rows of the table. */
  function HeldSet(df: seq<Candidate>, current: seq<int>): set<int> {
    (set x | x in current) * Ids(df)
  }

  /** The players to sell: held, in the table, and not in the target squad. */
  function OutSet(df: seq<Candidate>, target: seq<int>, current: seq<int>): set<int> {
    HeldSet(df, current) - (set x | x in target)
  }

  /** The players to buy: target ids not held, in target order. */
  function InsOf(target: seq<int>, held: set<int>): (r: seq<int>)
    ensures forall x :: x in r <==> x in target && x !in held
    ensures Distinct(target) ==> Distinct(r)
  {
    if |target| == 0 then []
    else
      var last := target[|target| - 1];
      var r := InsOf(target[..|target| - 1], held) + (if last !in held then [last] else []);
      assert forall x | x in target[..|target| - 1] :: x in target;
      r
  }

  /** The ins keep target order: the ins of a concatenation are those of each part, in turn. */
  lemma {:induction false} InsOfAppend(a: seq<int>, b: seq<int>, held: set<int>)
    ensures InsOf(a + b, held) == InsOf(a, held) + InsOf(b, held)
  {
    if |b| > 0 {
      var front := b[..|b| - 1];
      assert (a + b)[..|a + b| - 1] == a + front;
      assert (a + b)[|a + b| - 1] == b[|b| - 1];
      InsOfAppend(a, front, held);
    } else {
      assert a + b == a;
    }
  }

  /** A gain-list entry the nested loops can produce. */
  predicate IsCandidate(df: seq<Candidate>, target: seq<int>, current: seq<int>, s: Swap) {
    && s.outId in OutSet(df, target, current)
    && s.inId in InsOf(target, HeldSet(df, current))
    && s.outId in Ids(df) && s.inId in Ids(df)
    && s.gain == Gain(df, s.outId, s.inId)
  }

  /** The gain-list entries of one outgoing player, in the order of `ins`. */
  function Row(df: seq<Candidate>, o: int, ins: seq<int>): (r: seq<Swap>)
    requires o in Ids(df) && forall x | x in ins :: x in Ids(df)
    ensures |r| == |ins|
    ensures forall s :: s in r <==> s.outId == o && s.inId in ins && s.gain == Gain(df, o, s.inId)
    ensures Distinct(ins) ==> Distinct(r)
  {
    if |ins| == 0 then []
    else
      var last := ins[|ins| - 1];
      var front := ins[..|ins| - 1];
      assert forall x | x in front :: x in ins;
      Row(df, o, front) + [Swap(Gain(df, o, last), o, last)]
  }

  /** The whole gain list the nested loops build. */
  function Pairs(df: seq<Candidate>, outs: seq<int>, ins: seq<int>): (r: seq<Swap>)
    requires forall x | x in outs :: x in Ids(df)
    requires forall x | x in ins :: x in Ids(df)
    ensures |r| == |outs| * |ins|
    ensures forall s :: s in r <==> s.outId in outs && s.inId in ins && s.gain == Gain(df, s.outId, s.inId)
  {
    if |outs| == 0 then []
    else
      var front := outs[..|outs| - 1];
      var last := outs[|outs| - 1];
      assert forall x | x in front :: x in outs;
      assert outs == front + [last];
      var a := Pairs(df, front, ins);
      var b := Row(df, last, ins);
      MulStep(|outs|, |ins|);
      a + b
  }

  lemma {:induction false} MulStep(n: int, m: int)
    requires n > 0
    ensures (n - 1) * m + m == n * m
  {
  }

  /** Distinct outgoing and incoming ids give a gain list without repeats. */
  lemma {:induction false} PairsDistinct(df: seq<Candidate>, outs: seq<int>, ins: seq<int>)
    requires forall x | x in outs :: x in Ids(df)
    requires forall x | x in ins :: x in Ids(df)
    requires Distinct(outs) && Distinct(ins)
    ensures Distinct(Pairs(df, outs, ins))
  {
    if |outs| > 0 {
      var front := outs[..|outs| - 1];
      var last := outs[|outs| - 1];
      assert forall x | x in front :: x in outs;
      assert last !in front;
      PairsDistinct(df, front, ins);
      DistinctConcat(Pairs(df, front, ins), Row(df, last, ins));
    }
  }

  lemma {:induction false} DistinctConcat(a: seq<Swap>, b: seq<Swap>)
    ensures Distinct(a) && Distinct(b) && (forall x | x in a :: x !in b) ==> Distinct(a + b)
  {
    if Distinct(a) && Distinct(b) && (forall x | x in a :: x !in b) {
      forall i, j | 0 <= i < j < |a + b| ensures (a + b)[i] != (a + b)[j] {
        if j < |a| {
        } else if i < |a| {
          assert (a + b)[i] in a && (a + b)[j] in b;
        } else {
          assert (a + b)[i] == b[i - |a|] && (a + b)[j] == b[j - |a|];
        }
      }
    }
  }

  /** Insertion of one entry before the first entry it is not below. */
  function Insert(s: seq<Swap>, x: Swap): (r: seq<Swap>)
    ensures multiset(r) == multiset(s) + multiset{x}
  {
    if |s| == 0 then [x]
    else if !Above(s[0], x) then [x] + s
    else
      assert s == [s[0]] + s[1..];
      [s[0]] + Insert(s[1..], x)
  }

  /** Insertion keeps a descending list descending. */
  lemma {:induction false} InsertDescending(s: seq<Swap>, x: Swap)
    requires Descending(s)
    ensures Descending(Insert(s, x))
  {
    if |s| > 0 && Above(s[0], x) {
      var t := Insert(s[1..], x);
      InsertDescending(s[1..], x);
      forall y | y in t
        ensures !Above(y, s[0])
      {
        assert y in multiset(t);
        if y != x {
          assert y in s[1..];
        }
      }
      assert Insert(s, x) == [s[0]] + t;
    }
  }

  /** `gains.sort(reverse=True)`: a descending permutation of the gain list. */
  method SortDescending(gains: seq<Swap>) returns (sorted: seq<Swap>)
    ensures Descending(sorted)
    ensures multiset(sorted) == multiset(gains)
  {
    sorted := [];
    for i := 0 to |gains|
      invariant Descending(sorted)
      invariant multiset(sorted) == multiset(gains[..i])
    {
      InsertDescending(sorted, gains[i]);
      sorted := Insert(sorted, gains[i]);
      assert gains[..i + 1] == gains[..i] + [gains[i]];
    }
    assert gains[..|gains|] == gains;
  }

  lemma {:induction false} DistinctCount(a: seq<Swap>, x: Swap)
    requires Distinct(a)
    ensures multiset(a)[x] <= 1
  {
    if |a| > 0 {
      assert a == [a[0]] + a[1..];
      assert Distinct(a[1..]);
      DistinctCount(a[1..], x);
      if a[0] == x {
        assert x !in a[1..];
      }
    }
  }

  /** A permutation of a list without repeats has no repeats either. */
  lemma {:induction false} DistinctPermutation(a: seq<Swap>, b: seq<Swap>)
    requires Distinct(a) && multiset(a) == multiset(b)
    ensures Distinct(b)
  {
    forall i, j | 0 <= i < j < |b| ensures b[i] != b[j] {
      if b[i] == b[j] {
        assert b == b[..j] + b[j..];
        assert b[i] in b[..j] && b[j] in b[j..];
        DistinctCount(a, b[i]);
      }
    }
  }

  /**
   * The top `k` entries of the gain list: in strictly descending tuple order,
   * each a possible (out, in) pair with its gain, and above every pair left out.
   */
  ghost predicate IsTopK(df: seq<Candidate>, target: seq<int>, current: seq<int>, k: int, picks: seq<Swap>) {
    && |picks| == k
    && StrictlyDescending(picks)
    && (forall p | p in picks :: IsCandidate(df, target, current, p))
    && (forall c, p | IsCandidate(df, target, current, c) && c !in picks && p in picks :: Above(p, c))
  }

  function SumGains(picks: seq<Swap>): real {
    if |picks| == 0 then 0.0 else picks[0].gain + SumGains(picks[1..])
  }

  /** `list(s)`: every element once, in the set's own iteration order. */
  method ListOfSet(s: set<int>) returns (xs: seq<int>)
    ensures forall x :: x in xs <==> x in s
    ensures Distinct(xs)
    ensures |xs| == |s|
  {
    xs := [];
    var rest := s;
    while rest != {}
      invariant forall x :: (x in xs || x in rest) <==> x in s
      invariant forall x | x in xs :: x !in rest
      invariant Distinct(xs)
      invariant |xs| + |rest| == |s|
      decreases |rest|
    {
      EmptyOrHasElement(rest);
      var x :| x in rest;
      xs := xs + [x];
      rest := rest - {x};
    }
  }

  /** The list comprehension for `ins`: target ids not held, in target order. */
  method InsList(target: seq<int>, held: set<int>) returns (ins: seq<int>)
    ensures ins == InsOf(target, held)
  {
    ins := [];
    for i := 0 to |target|
      invariant ins == InsOf(target[..i], held)
    {
      assert target[..i + 1][..i] == target[..i];
      if target[i] !in held {
        ins := ins + [target[i]];
      }
    }
    assert target[..|target|] == target;
  }

  /** The nested loops that append one gain-list entry per (out, in) pair. */
  method GainList(df: seq<Candidate>, outs: seq<int>, ins: seq<int>) returns (gains: seq<Swap>)
    requires forall x | x in outs :: x in Ids(df)
    requires forall x | x in ins :: x in Ids(df)
    ensures gains == Pairs(df, outs, ins)
  {
    gains := [];
    for a := 0 to |outs|
      invariant gains == Pairs(df, outs[..a], ins)
    {
      var row := GainRow(df, outs[a], ins);
      PairsStep(df, outs, ins, a);
      gains := gains + row;
    }
    assert outs[..|outs|] == outs;
  }

  /** The inner loop: the entries of one outgoing player against every incoming one, in order. */
  method GainRow(df: seq<Candidate>, o: int, ins: seq<int>) returns (row: seq<Swap>)
    requires o in Ids(df) && forall x | x in ins :: x in Ids(df)
    ensures row == Row(df, o, ins)
  {
    row := [];
    for b := 0 to |ins|
      invariant forall x | x in ins[..b] :: x in Ids(df)
      invariant row == Row(df, o, ins[..b])
    {
      RowStep(df, o, ins, b);
      var g := PointsOf(df, ins[b]) - PointsOf(df, o);
      assert g == Gain(df, o, ins[b]);
      row := row + [Swap(g, o, ins[b])];
    }
    assert ins[..|ins|] == ins;
  }

  lemma {:induction false} RowStep(df: seq<Candidate>, o: int, ins: seq<int>, b: nat)
    requires b < |ins|
    requires o in Ids(df) && forall x | x in ins :: x in Ids(df)
    ensures forall x | x in ins[..b] :: x in Ids(df)
    ensures forall x | x in ins[..b + 1] :: x in Ids(df)
    ensures Row(df, o, ins[..b + 1]) == Row(df, o, ins[..b]) + [Swap(Gain(df, o, ins[b]), o, ins[b])]
  {
    assert forall x | x in ins[..b + 1] :: x in ins;
    assert ins[..b + 1][..b] == ins[..b];
  }

  lemma {:induction false} PairsStep(df: seq<Candidate>, outs: seq<int>, ins: seq<int>, a: nat)
    requires a < |outs|
    requires forall x | x in outs :: x in Ids(df)
    requires forall x | x in ins :: x in Ids(df)
    ensures forall x | x in outs[..a] :: x in Ids(df)
    ensures Pairs(df, outs[..a + 1], ins) == Pairs(df, outs[..a], ins) + Row(df, outs[a], ins)
  {
    assert forall x | x in outs[..a + 1] :: x in outs;
    assert outs[..a + 1][..a] == outs[..a];
  }

  /** The first `k` entries of a descending permutation of a repeat-free list lie strictly above the rest. */
  lemma {:induction false} PrefixOfSorted(gains: seq<Swap>, sorted: seq<Swap>, k: nat)
    requires Distinct(gains)
    requires Descending(sorted) && multiset(sorted) == multiset(gains)
    requires k <= |sorted|
    ensures StrictlyDescending(sorted[..k])
    ensures forall p | p in sorted[..k] :: p in gains
    ensures forall c, p | c in gains && c !in sorted[..k] && p in sorted[..k] :: Above(p, c)
  {
    var picks := sorted[..k];
    DistinctPermutation(gains, sorted);
    forall i, j | 0 <= i < j < |picks| ensures Above(picks[i], picks[j]) {
      AboveTotal(picks[i], picks[j]);
    }
    forall p | p in picks ensures p in gains {
      assert p in multiset(gains);
    }
    forall c, p | c in gains && c !in picks && p in picks ensures Above(p, c) {
      assert c in multiset(sorted);
      var j :| 0 <= j < |sorted| && sorted[j] == c;
      var i :| 0 <= i < k && sorted[i] == p;
      AboveTotal(p, c);
    }
  }

  /**
   * The transfer block: `outs` from the held set in the set's own iteration
   * order, `ins` in target order, the nested loops, the descending sort,
   * the first `min(ft, len(gains))` entries, and the net gain.
   */
  method SuggestTransfers(df: seq<Candidate>, target: seq<int>, current: seq<int>, ft: nat, hitCost: int)
    returns (picks: seq<Swap>, netGain: real)
    requires forall x | x in target :: x in Ids(df)
    requires Distinct(target)
    ensures IsTopK(df, target, current,
                   Min(ft, |OutSet(df, target, current)| * |InsOf(target, HeldSet(df, current))|), picks)
    ensures |picks| <= ft
    ensures netGain == SumGains(picks)
    ensures OutSet(df, target, current) == {} || InsOf(target, HeldSet(df, current)) == [] ==> picks == []
  {
    var held := HeldSet(df, current);
    var targetSet := set x | x in target;
    var outs := ListOfSet(held - targetSet);
    var ins := InsList(target, held);
    var gains := GainList(df, outs, ins);
    var sorted := SortDescending(gains);
    var k := Min(ft, |gains|);
    picks := sorted[..k];
    netGain := SumGains(picks) - (if ft >= |picks| then 0.0 else (|picks| - ft) as real * hitCost as real);

    PairsDistinct(df, outs, ins);
    PrefixOfSorted(gains, sorted, k);
    assert held - targetSet == OutSet(df, target, current);
    forall c | IsCandidate(df, target, current, c) ensures c in gains {
    }
  }

  /** When the held squad is the target squad, there is nothing to sell or buy. */
  lemma {:induction false} MatchingRostersGiveNoPairs(df: seq<Candidate>, target: seq<int>, current: seq<int>)
    requires HeldSet(df, current) == set x | x in target
    ensures OutSet(df, target, current) == {}
    ensures InsOf(target, HeldSet(df, current)) == []
  {
    InsOfAllHeld(target, HeldSet(df, current));
  }

  lemma {:induction false} InsOfAllHeld(target: seq<int>, held: set<int>)
    requires forall x | x in target :: x in held
    ensures InsOf(target, held) == []
  {
    if |target| > 0 {
      var front := target[..|target| - 1];
      assert forall x | x in front :: x in target;
      assert target[|target| - 1] in target;
      InsOfAllHeld(front, held);
    }
  }

  /**
   * The picks do not depend on the order in which the held set was walked:
   * two top-`k` lists of the same pairs are equal.
   */
  lemma {:induction false} TopKUnique(df: seq<Candidate>, target: seq<int>, current: seq<int>, k: int, a: seq<Swap>, b: seq<Swap>)
    requires IsTopK(df, target, current, k, a)
    requires IsTopK(df, target, current, k, b)
    ensures a == b
  {
    CoverUnique(a, b);
  }

  /** Two strictly descending lists of equal length, each above what it leaves out of the other, are equal. */
  lemma {:induction false} CoverUnique(a: seq<Swap>, b: seq<Swap>)
    requires |a| == |b|
    requires StrictlyDescending(a) && StrictlyDescending(b)
    requires forall c, p | c in b && c !in a && p in a :: Above(p, c)
    requires forall c, p | c in a && c !in b && p in b :: Above(p, c)
    ensures a == b
  {
    if |a| > 0 {
      assert a[0] == b[0] by {
        assert forall j | 0 < j < |b| :: Above(b[0], b[j]);
        assert forall j | 0 < j < |a| :: Above(a[0], a[j]);
        assert a[0] in b || Above(b[0], a[0]);
        assert b[0] in a || Above(a[0], b[0]);
      }
      var a', b' := a[1..], b[1..];
      forall c, p | c in b' && c !in a' && p in a' ensures Above(p, c) {
        assert c != a[0] by {
          var j :| 0 <= j < |b'| && b'[j] == c;
          assert Above(b[0], b[j + 1]);
        }
        assert c in b && c !in a && p in a;
      }
      forall c, p | c in a' && c !in b' && p in b' ensures Above(p, c) {
        assert c != b[0] by {
          var j :| 0 <= j < |a'| && a'[j] == c;
          assert Above(a[0], a[j + 1]);
        }
        assert c in a && c !in b && p in b;
      }
      CoverUnique(a', b');
    }
  }
}
