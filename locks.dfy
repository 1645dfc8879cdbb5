// The lock-list parser of the dashboard: comma-separated player ids, with an
// empty list whenever the text is blank or any segment is not an integer.

module Locks {
  import opened Base
  import opened Decimal

  /** The characters Python's `str.isspace` accepts, which `strip` removes. */
  predicate IsSpace(c: char) {
    var n := c as int;
    || n == 0x20 || (0x09 <= n <= 0x0D) || (0x1C <= n <= 0x1F)
    || n == 0x85 || n == 0xA0 || n == 0x1680 || (0x2000 <= n <= 0x200A)
    || n == 0x2028 || n == 0x2029 || n == 0x202F || n == 0x205F || n == 0x3000
  }

  /** Drops leading whitespace: what is removed is all whitespace, and what is kept starts with none. */
  function StripLeft(s: string): (r: string)
    ensures |r| <= |s| && r == s[|s| - |r|..]
    ensures forall i | 0 <= i < |s| - |r| :: IsSpace(s[i])
    ensures r == [] || !IsSpace(r[0])
  {
    if |s| > 0 && IsSpace(s[0]) then StripLeft(s[1..]) else s
  }

  /** Drops trailing whitespace. */
  function StripRight(s: string): (r: string)
    ensures |r| <= |s| && r == s[..|r|]
    ensures forall i | |r| <= i < |s| :: IsSpace(s[i])
    ensures r == [] || !IsSpace(r[|r| - 1])
  {
    if |s| > 0 && IsSpace(s[|s| - 1]) then StripRight(s[..|s| - 1]) else s
  }

  /** `str.strip()`: leading whitespace dropped, then trailing whitespace. */
  function Strip(s: string): (r: string)
    ensures r == [] || (!IsSpace(r[0]) && !IsSpace(r[|r| - 1]))
  {
    var l := StripLeft(s);
    var r := StripRight(l);
    assert r != [] ==> r[0] == l[0];
    r
  }

  lemma {:induction false} SpaceTail(s: string, i: nat, l: string, n: nat)
    requires i <= |s| && l == s[i..] && n <= |l|
    requires forall j | n <= j < |l| :: IsSpace(l[j])
    ensures forall k | i + n <= k < |s| :: IsSpace(s[k])
  {
    forall k | i + n <= k < |s|
      ensures IsSpace(s[k])
    {
      assert l[k - i] == s[k];
    }
  }

  /** The number of leading whitespace characters. */
  function LeadLen(s: string): nat {
    |s| - |StripLeft(s)|
  }

  /** A prefix of a suffix is a slice. */
  lemma {:induction false} SliceOfSuffix(s: string, i: nat, l: string, r: string)
    requires i <= |s| && l == s[i..] && |r| <= |l| && r == l[..|r|]
    ensures i + |r| <= |s| && r == s[i..i + |r|]
  {
  }

  /** The stripped text is the slice between the leading and the trailing whitespace. */
  lemma {:induction false} StripSlice(s: string)
    ensures LeadLen(s) + |Strip(s)| <= |s|
    ensures Strip(s) == s[LeadLen(s)..LeadLen(s) + |Strip(s)|]
  {
    var l := StripLeft(s);
    var r := StripRight(l);
    assert Strip(s) == r;
    SliceOfSuffix(s, LeadLen(s), l, r);
  }

  /** What `strip` removes on either side of that slice is whitespace only. */
  lemma {:induction false} StripRemovesSpace(s: string)
    requires LeadLen(s) + |Strip(s)| <= |s|
    ensures forall k | 0 <= k < LeadLen(s) :: IsSpace(s[k])
    ensures forall k | LeadLen(s) + |Strip(s)| <= k < |s| :: IsSpace(s[k])
  {
    var l := StripLeft(s);
    var r := StripRight(l);
    assert Strip(s) == r;
    SpaceTail(s, LeadLen(s), l, |r|);
  }

  /** Text that neither starts nor ends with whitespace is its own strip. */
  lemma {:induction false} StripUnchanged(s: string)
    requires s != [] && !IsSpace(s[0]) && !IsSpace(s[|s| - 1])
    ensures Strip(s) == s
  {
  }

  /** `str.split(",")`: the pieces between the commas, empty ones included. */
  function Split(s: string): (r: seq<string>)
    ensures |r| >= 1
    ensures forall k | 0 <= k < |r| :: ',' !in r[k]
  {
    if |s| == 0 then [""]
    else
      var rest := Split(s[1..]);
      if s[0] == ',' then [""] + rest else [[s[0]] + rest[0]] + rest[1..]
  }

  /** `",".join(segs)`. */
  function Join(segs: seq<string>): string {
    if |segs| == 0 then ""
    else if |segs| == 1 then segs[0]
    else segs[0] + "," + Join(segs[1..])
  }

  /** Joining the pieces of a split gives back the text. */
  lemma {:induction false} JoinSplit(s: string)
    ensures Join(Split(s)) == s
  {
    if |s| > 0 {
      var rest := Split(s[1..]);
      JoinSplit(s[1..]);
      if s[0] == ',' {
        assert ([""] + rest)[1..] == rest;
      } else {
        var r := [[s[0]] + rest[0]] + rest[1..];
        if |rest| == 1 {
          assert r == [[s[0]] + rest[0]];
        } else {
          assert r[1..] == rest[1..];
          assert Join(rest) == rest[0] + "," + Join(rest[1..]);
        }
      }
    }
  }

  /** A comma-free prefix is glued onto the first piece of what follows it. */
  lemma {:induction false} SplitPrefix(a: string, rest: string)
    requires ',' !in a
    ensures Split(a + rest) == [a + Split(rest)[0]] + Split(rest)[1..]
  {
    if |a| == 0 {
      assert a + rest == rest;
      assert a + Split(rest)[0] == Split(rest)[0];
    } else {
      assert (a + rest)[1..] == a[1..] + rest;
      SplitPrefix(a[1..], rest);
      assert [a[0]] + (a[1..] + Split(rest)[0]) == a + Split(rest)[0];
    }
  }

  /** Splitting the join of comma-free pieces gives the pieces back. */
  lemma {:induction false} SplitJoin(segs: seq<string>)
    requires |segs| >= 1
    requires forall k | 0 <= k < |segs| :: ',' !in segs[k]
    ensures Split(Join(segs)) == segs
  {
    if |segs| == 1 {
      SplitPrefix(segs[0], "");
      assert segs[0] + "" == segs[0];
    } else {
      var tail := Join(segs[1..]);
      assert Split("," + tail) == [""] + segs[1..] by {
        SplitJoin(segs[1..]);
        assert ("," + tail)[1..] == tail;
      }
      assert Join(segs) == segs[0] + ("," + tail) by {
        assert segs[0] + "," + tail == segs[0] + ("," + tail);
      }
      SplitPrefix(segs[0], "," + tail);
      assert segs[0] + "" == segs[0];
    }
  }

  /** The segments the comprehension keeps: those that are not blank after stripping. */
  function NonBlank(segs: seq<string>): (r: seq<string>)
    ensures forall k | 0 <= k < |r| :: Strip(r[k]) != []
    ensures |r| <= |segs|
  {
    if |segs| == 0 then []
    else (if Strip(segs[0]) != [] then [segs[0]] else []) + NonBlank(segs[1..])
  }

  /** A segment is kept exactly when it is one of the input's and it is not blank. */
  lemma {:induction false} NonBlankMembers(segs: seq<string>, s: string)
    ensures s in NonBlank(segs) <==> s in segs && Strip(s) != []
  {
    if |segs| > 0 {
      NonBlankMembers(segs[1..], s);
      assert segs[0] in segs;
      assert forall x | x in segs[1..] :: x in segs;
      assert forall x | x in segs && x != segs[0] :: x in segs[1..];
    }
  }

  /** The filter keeps input order: filtering a concatenation filters each part. */
  lemma {:induction false} NonBlankAppend(a: seq<string>, b: seq<string>)
    ensures NonBlank(a + b) == NonBlank(a) + NonBlank(b)
  {
    if |a| > 0 {
      var ab := a + b;
      assert ab[0] == a[0];
      assert ab[1..] == a[1..] + b;
      var head := if Strip(a[0]) != [] then [a[0]] else [];
      assert NonBlank(ab) == head + NonBlank(a[1..] + b);
      NonBlankAppend(a[1..], b);
      assert NonBlank(a) == head + NonBlank(a[1..]);
    } else {
      assert a + b == b;
    }
  }

  lemma {:induction false} NonBlankKeepsAll(segs: seq<string>)
    requires forall k | 0 <= k < |segs| :: Strip(segs[k]) != []
    ensures NonBlank(segs) == segs
  {
    if |segs| > 0 {
      NonBlankKeepsAll(segs[1..]);
    }
  }

  /** The integer one segment stands for, once stripped. */
  function SegmentValue(seg: string): Option<int> {
    ParseInt(Strip(seg))
  }

  /** All values when every one is present, in order; nothing as soon as one is missing. */
  function AllPresent(vals: seq<Option<int>>): (r: Option<seq<int>>)
    ensures r.Some? <==> forall k | 0 <= k < |vals| :: vals[k].Some?
    ensures r.Some? ==> |r.value| == |vals|
    ensures r.Some? ==> forall k | 0 <= k < |vals| :: r.value[k] == vals[k].value
  {
    if |vals| == 0 then Some([])
    else
      var tail := AllPresent(vals[1..]);
      assert forall k | 1 <= k < |vals| :: vals[1..][k - 1] == vals[k];
      if vals[0].Some? && tail.Some? then Some([vals[0].value] + tail.value) else None
  }

  /** The list comprehension: all values in order, or nothing if any segment fails. */
  function ParseAll(segs: seq<string>): (r: Option<seq<int>>)
    ensures r.Some? <==> forall k | 0 <= k < |segs| :: SegmentValue(segs[k]).Some?
    ensures r.Some? ==> |r.value| == |segs|
    ensures r.Some? ==> forall k | 0 <= k < |segs| :: r.value[k] == SegmentValue(segs[k]).value
  {
    var vals := seq(|segs|, k requires 0 <= k < |segs| => SegmentValue(segs[k]));
    assert forall k | 0 <= k < |segs| :: vals[k] == SegmentValue(segs[k]);
    AllPresent(vals)
  }

  /** The segments of the lock text that enter the comprehension. */
  function Segments(text: string): seq<string> {
    NonBlank(Split(text))
  }

  /**
   * `parse_locks`: blank text gives no locks; otherwise every non-blank
   * segment must be an integer, and then the integers come in input order;
   * a single bad segment empties the whole list.
   */
  function ParseLocks(text: string): (r: seq<int>)
    ensures Strip(text) == [] ==> r == []
    ensures (exists k | 0 <= k < |Segments(text)| :: SegmentValue(Segments(text)[k]).None?) ==> r == []
    ensures Strip(text) != [] && (forall k | 0 <= k < |Segments(text)| :: SegmentValue(Segments(text)[k]).Some?) ==>
      |r| == |Segments(text)| && forall k | 0 <= k < |r| :: r[k] == SegmentValue(Segments(text)[k]).value
  {
    if Strip(text) == [] then []
    else
      var parsed := ParseAll(Segments(text));
      if parsed.Some? then parsed.value else []
  }

  /** The text of each id of a lock list. */
  function FormatSegments(ids: seq<int>): (segs: seq<string>)
    ensures |segs| == |ids|
  {
    seq(|ids|, i requires 0 <= i < |ids| => IntToString(ids[i]))
  }

  /** The comma-separated text of a lock list. */
  function FormatLocks(ids: seq<int>): string {
    Join(FormatSegments(ids))
  }

  /** The text of one id has no comma and no whitespace at either end. */
  lemma {:induction false} IntToStringShape(n: int)
    ensures |IntToString(n)| > 0 && ',' !in IntToString(n)
    ensures !IsSpace(IntToString(n)[0]) && !IsSpace(IntToString(n)[|IntToString(n)| - 1])
  {
    NatToStringDigits(if n < 0 then -n else n);
  }

  /** The first and last characters of a join are those of its first and last pieces. */
  lemma {:induction false} JoinEnds(segs: seq<string>)
    requires |segs| >= 1
    requires forall k | 0 <= k < |segs| :: |segs[k]| > 0
    ensures |Join(segs)| > 0
    ensures Join(segs)[0] == segs[0][0]
    ensures Join(segs)[|Join(segs)| - 1] == segs[|segs| - 1][|segs[|segs| - 1]| - 1]
  {
    if |segs| > 1 {
      JoinEnds(segs[1..]);
    }
  }

  /** The pieces of a formatted lock list are the ids' texts, each standing for its id. */
  lemma {:induction false} FormatSegmentsParse(ids: seq<int>)
    requires |ids| > 0 && forall k | 0 <= k < |ids| :: WithinDigitLimit(ids[k])
    ensures Segments(FormatLocks(ids)) == FormatSegments(ids)
    ensures forall k | 0 <= k < |ids| :: SegmentValue(FormatSegments(ids)[k]) == Some(ids[k])
    ensures Strip(FormatLocks(ids)) != []
  {
    var segs := FormatSegments(ids);
    forall k | 0 <= k < |segs|
      ensures |segs[k]| > 0 && ',' !in segs[k] && Strip(segs[k]) == segs[k]
      ensures SegmentValue(segs[k]) == Some(ids[k])
    {
      IntToStringShape(ids[k]);
      StripUnchanged(segs[k]);
      ParseIntToString(ids[k]);
    }
    SplitJoin(segs);
    NonBlankKeepsAll(segs);
    JoinEnds(segs);
    IntToStringShape(ids[0]);
    IntToStringShape(ids[|ids| - 1]);
    StripUnchanged(FormatLocks(ids));
  }

  lemma {:induction false} ParseAllOfValues(segs: seq<string>, values: seq<int>)
    requires |segs| == |values|
    requires forall k | 0 <= k < |segs| :: SegmentValue(segs[k]) == Some(values[k])
    ensures ParseAll(segs).Some? && ParseAll(segs).value == values
  {
    var parsed := ParseAll(segs);
    assert forall k | 0 <= k < |segs| :: parsed.value[k] == values[k];
  }

  lemma {:induction false} ParseLocksOfSegments(text: string, values: seq<int>)
    requires Strip(text) != [] && ParseAll(Segments(text)).Some? && ParseAll(Segments(text)).value == values
    ensures ParseLocks(text) == values
  {
  }

  /**
   * Formatting a lock list and parsing it back gives the same ids in the same
   * order, for ids of at most 4300 digits (`str` and `int` refuse longer ones).
   */
  lemma {:induction false} ParseLocksRoundTrip(ids: seq<int>)
    requires forall k | 0 <= k < |ids| :: WithinDigitLimit(ids[k])
    ensures ParseLocks(FormatLocks(ids)) == ids
  {
    if |ids| == 0 {
      assert FormatLocks(ids) == "";
    } else {
      FormatSegmentsParse(ids);
      ParseAllOfValues(FormatSegments(ids), ids);
      ParseLocksOfSegments(FormatLocks(ids), ids);
    }
  }
}
