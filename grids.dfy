/** Small helper datatype for lookups that may find nothing. */
module Options {
  datatype Option<T> = None | Some(value: T)
}

/**
 * The two fixed grids the editor indexes into: the time grid (seconds from
 * midnight, one slot every 30 minutes) and the unit-dependent value grid.
 *
 * Values are integers counting HUNDREDTHS of the active glucose unit, so
 * 45 mg/dL is 4500 and 2.7 mmol/L is 270; the stride bounds 540.01 and 30.01
 * of the source are then exact (54001 and 3001).
 */
module Grids {
  import opened Options

  /** The active glucose unit. */
  datatype GlucoseUnits = MgdL | MmolL

  /** `s` is strictly increasing. */
  predicate StrictlyIncreasing(s: seq<int>)
  {
    forall i, j :: 0 <= i < j < |s| ==> s[i] < s[j]
  }

  /**
   * An arithmetic stride with an exclusive upper bound: `first`,
   * `first + step`, ... for as long as the value stays below `bound`.
   */
  function Stride(first: int, bound: int, step: int): (r: seq<int>)
    requires step > 0
    ensures forall k :: 0 <= k < |r| ==> r[k] == first + k * step && r[k] < bound
    ensures first + |r| * step >= bound
    decreases bound - first
  {
    if first < bound then
      var rest := Stride(first + step, bound, step);
      assert forall k :: 1 <= k < |rest| + 1 ==> first + step + (k - 1) * step == first + k * step;
      assert first + step + |rest| * step == first + (|rest| + 1) * step;
      [first] + rest
    else
      []
  }

  /** Seconds in one day and in one slot of the time grid. */
  const DaySeconds := 86400
  const SlotSeconds := 1800

  /** The time grid: stride from 0 to one day (exclusive) by 30 minutes. */
  function TimeValues(): (r: seq<int>)
    ensures |r| == 48
    ensures forall k :: 0 <= k < |r| ==> r[k] == k * 1800
    ensures StrictlyIncreasing(r)
    ensures forall k :: 0 <= k < |r| ==> 0 <= r[k] < DaySeconds
  {
    var r := Stride(0, DaySeconds, SlotSeconds);
    assert |r| > 0 ==> r[|r| - 1] < DaySeconds;
    r
  }

  /**
   * The value grid of a unit: 9 ... 540 mg/dL by 1, or 0.5 ... 30.0 mmol/L
   * by 0.1, both in hundredths.
   */
  function RateValues(units: GlucoseUnits): (r: seq<int>)
    ensures units == MgdL ==> |r| == 532 && forall k :: 0 <= k < |r| ==> r[k] == 900 + 100 * k
    ensures units == MmolL ==> |r| == 296 && forall k :: 0 <= k < |r| ==> r[k] == 50 + 10 * k
    ensures StrictlyIncreasing(r)
  {
    match units
    case MgdL =>
      var r := Stride(900, 54001, 100);
      assert |r| > 0 ==> r[|r| - 1] < 54001;
      r
    case MmolL =>
      var r := Stride(50, 3001, 10);
      assert |r| > 0 ==> r[|r| - 1] < 3001;
      r
  }

  /** The first index at which `x` occurs in `s`, if any. */
  function FirstIndex(s: seq<int>, x: int): (r: Option<nat>)
    ensures r.Some? <==> x in s
    ensures r.Some? ==> r.value < |s| && s[r.value] == x && x !in s[..r.value]
  {
    if |s| == 0 then None
    else if s[0] == x then Some(0)
    else
      match FirstIndex(s[1..], x)
      case None => None
      case Some(i) =>
        assert s[..i + 1] == [s[0]] + s[1..][..i];
        Some(i + 1)
  }

  /** First exact match of `x` in `s`, or 0 when there is none. */
  function IndexOrZero(s: seq<int>, x: int): (i: nat)
    ensures |s| > 0 ==> i < |s|
    ensures x in s ==> s[i] == x && x !in s[..i]
    ensures x !in s ==> i == 0
  {
    match FirstIndex(s, x)
    case Some(i) => i
    case None => 0
  }

  /** In a strictly increasing grid, looking up the k-th value gives back k. */
  lemma IndexOfIncreasing(s: seq<int>, k: nat)
    requires StrictlyIncreasing(s)
    requires k < |s|
    ensures IndexOrZero(s, s[k]) == k
  {
    assert s[k] in s;
  }

  /** A time lies on the grid exactly when it is a whole slot within the day. */
  lemma OnTimeGrid(seconds: int)
    ensures seconds in TimeValues() <==> 0 <= seconds < DaySeconds && seconds % SlotSeconds == 0
  {
    var t := TimeValues();
    if 0 <= seconds < DaySeconds && seconds % SlotSeconds == 0 {
      assert t[seconds / SlotSeconds] == seconds;
    }
    if seconds in t {
      var k :| 0 <= k < |t| && t[k] == seconds;
      SlotArithmetic(seconds, k);
    }
  }

  lemma SlotArithmetic(seconds: int, k: int)
    requires 0 <= k < 48 && seconds == k * 1800
    ensures 0 <= seconds < DaySeconds && seconds % SlotSeconds == 0
  {
  }

  /** Looking up a time in seconds: its slot when it lies on the grid, else 0. */
  lemma TimeIndexOf(seconds: int)
    ensures IndexOrZero(TimeValues(), seconds)
         == if 0 <= seconds < DaySeconds && seconds % SlotSeconds == 0 then seconds / SlotSeconds else 0
  {
    OnTimeGrid(seconds);
    if 0 <= seconds < DaySeconds && seconds % SlotSeconds == 0 {
      IndexOfIncreasing(TimeValues(), seconds / SlotSeconds);
    }
  }

  /** A value lies on the mg/dL grid exactly when it is a whole mg/dL in 9 ... 540. */
  lemma OnMgdLGrid(v: int)
    ensures v in RateValues(MgdL) <==> 900 <= v <= 54000 && v % 100 == 0
  {
    var r := RateValues(MgdL);
    if 900 <= v <= 54000 && v % 100 == 0 {
      assert r[(v - 900) / 100] == v;
    }
    if v in r {
      var k :| 0 <= k < |r| && r[k] == v;
      MgdLArithmetic(v, k);
    }
  }

  lemma MgdLArithmetic(v: int, k: int)
    requires 0 <= k < 532 && v == 900 + 100 * k
    ensures 900 <= v <= 54000 && v % 100 == 0
  {
  }

  /** A value lies on the mmol/L grid exactly when it is a whole tenth in 0.5 ... 30.0. */
  lemma OnMmolLGrid(v: int)
    ensures v in RateValues(MmolL) <==> 50 <= v <= 3000 && v % 10 == 0
  {
    var r := RateValues(MmolL);
    if 50 <= v <= 3000 && v % 10 == 0 {
      assert r[(v - 50) / 10] == v;
    }
    if v in r {
      var k :| 0 <= k < |r| && r[k] == v;
      MmolLArithmetic(v, k);
    }
  }

  lemma MmolLArithmetic(v: int, k: int)
    requires 0 <= k < 296 && v == 50 + 10 * k
    ensures 50 <= v <= 3000 && v % 10 == 0
  {
  }

  /** Looking up a value: its grid position when it lies on the unit's grid, else 0. */
  lemma RateIndexOf(units: GlucoseUnits, v: int)
    ensures units == MgdL ==>
      IndexOrZero(RateValues(units), v) == if 900 <= v <= 54000 && v % 100 == 0 then (v - 900) / 100 else 0
    ensures units == MmolL ==>
      IndexOrZero(RateValues(units), v) == if 50 <= v <= 3000 && v % 10 == 0 then (v - 50) / 10 else 0
  {
    match units
    case MgdL =>
      OnMgdLGrid(v);
      if 900 <= v <= 54000 && v % 100 == 0 {
        IndexOfIncreasing(RateValues(MgdL), (v - 900) / 100);
      }
    case MmolL =>
      OnMmolLGrid(v);
      if 50 <= v <= 3000 && v % 10 == 0 {
        IndexOfIncreasing(RateValues(MmolL), (v - 50) / 10);
      }
  }
}
