/** The colour part of the poller: the blue/red ratio, the two ratio bands
    and the run-length debounce that raises `seeBlueBlock` / `seeWoodBlock`. */
module Classifier {

  datatype Option<T> = None | Some(value: T)

  /** Reference blue/red ratio of the blue styrofoam block (`blueRatio`). */
  const BlueRatio: real := 1.4
  /** Reference blue/red ratio of the wooden block (`woodRatio`). */
  const WoodRatio: real := 0.4
  /** Half-width of each band (`errMargin`). */
  const ErrMargin: real := 0.3
  /** Consecutive matching cycles before a block flag is raised. */
  const FilterLength: int := 4

  /** The blue/red ratio `ch2 / ch0`. A zero red reading gives `None`: in
      the source the float division then yields +Infinity, -Infinity or NaN,
      and each band test, the conjunction of a lower and an upper comparison,
      is false on all three (one side fails on an infinity, both on NaN). */
  function Ratio(ch0: real, ch2: real): (r: Option<real>)
    ensures r.None? <==> ch0 == 0.0
  {
    if ch0 == 0.0 then None else Some(ch2 / ch0)
  }

  /** The open band test `centre - ErrMargin < ratio < centre + ErrMargin`. */
  predicate InBand(centre: real, ratio: real)
  {
    centre - ErrMargin < ratio && centre + ErrMargin > ratio
  }

  datatype Band = Blue | Wood | Neither

  /** The branch a ratio selects: the blue test is tried first, then the
      wood test; a missing (non-finite) ratio matches neither. */
  function ClassifyRatio(ratio: Option<real>): (b: Band)
    ensures b == Blue <==> ratio.Some? && 1.1 < ratio.value < 1.7
    ensures b == Wood <==> ratio.Some? && 0.1 < ratio.value < 0.7
    ensures ratio.None? ==> b == Neither
  {
    if ratio.Some? && InBand(BlueRatio, ratio.value) then Blue
    else if ratio.Some? && InBand(WoodRatio, ratio.value) then Wood
    else Neither
  }

  /** The two open bands do not overlap, so the order of the two tests does
      not matter. */
  lemma BandsDisjoint(ratio: real)
    ensures !(InBand(BlueRatio, ratio) && InBand(WoodRatio, ratio))
  {
  }

  /** The band of one sensor sample: a zero red reading never matches. */
  function Classify(ch0: real, ch2: real): (b: Band)
    ensures ch0 == 0.0 ==> b == Neither
  {
    ClassifyRatio(Ratio(ch0, ch2))
  }

  /** With a non-zero red reading, a sample is blue or wood exactly when its
      blue/red ratio lies strictly inside that class's band. */
  lemma ClassifyBands(ch0: real, ch2: real)
    requires ch0 != 0.0
    ensures Classify(ch0, ch2) == Blue <==> 1.1 < ch2 / ch0 < 1.7
    ensures Classify(ch0, ch2) == Wood <==> 0.1 < ch2 / ch0 < 0.7
    ensures Classify(ch0, ch2) == Neither <==> !(1.1 < ch2 / ch0 < 1.7) && !(0.1 < ch2 / ch0 < 0.7)
  {
  }

  /** The debounce state: the two run-length counters (`filterCountB`,
      `filterCountW`) and the two block flags (`seeBlueBlock`,
      `seeWoodBlock`). */
  datatype Filter = Filter(countB: int, countW: int, seeBlue: bool, seeWood: bool)

  /** The state the poller starts in, and the one a non-matching cycle
      returns to. */
  const Cleared: Filter := Filter(0, 0, false, false)

  /** The counter of a block class. */
  function Count(f: Filter, c: Band): int
  {
    match c
    case Blue => f.countB
    case Wood => f.countW
    case Neither => 0
  }

  /** The flag of a block class. */
  function Flag(f: Filter, c: Band): bool
  {
    match c
    case Blue => f.seeBlue
    case Wood => f.seeWood
    case Neither => false
  }

  /** Both counters below `FilterLength`, and at least one of them zero. */
  predicate Bounded(f: Filter)
  {
    0 <= f.countB < FilterLength && 0 <= f.countW < FilterLength &&
    (f.countB == 0 || f.countW == 0)
  }

  /** One cycle of the debounce filter on the band of that cycle's ratio. */
  function Debounce(f: Filter, b: Band): (g: Filter)
    ensures g.countB == 0 || g.countW == 0
    ensures 0 <= f.countB < FilterLength && 0 <= f.countW < FilterLength ==> Bounded(g)
    ensures b == Neither ==> g == Cleared
    ensures b == Blue ==> g.countW == 0 && g.seeWood == f.seeWood
    ensures b == Wood ==> g.countB == 0 && g.seeBlue == f.seeBlue
    ensures b != Neither && f.seeBlue ==> g.seeBlue
    ensures b != Neither && f.seeWood ==> g.seeWood
    ensures !f.seeBlue && g.seeBlue ==> b == Blue && f.countB == FilterLength - 1
    ensures !f.seeWood && g.seeWood ==> b == Wood && f.countW == FilterLength - 1
  {
    match b
    case Blue =>
      var n := f.countB + 1;
      if n == FilterLength then Filter(0, 0, true, f.seeWood)
      else Filter(n, 0, f.seeBlue, f.seeWood)
    case Wood =>
      var n := f.countW + 1;
      if n == FilterLength then Filter(0, 0, f.seeBlue, true)
      else Filter(0, n, f.seeBlue, f.seeWood)
    case Neither =>
      Cleared
  }

  /** The filter after one cycle per band of `bs`, in order. */
  function DebounceAll(f: Filter, bs: seq<Band>): Filter
    decreases |bs|
  {
    if bs == [] then f else Debounce(DebounceAll(f, bs[..|bs| - 1]), bs[|bs| - 1])
  }

  /** The counters stay in 0..3 with one of them zero, through any run. */
  lemma {:induction false} RunBounded(f: Filter, bs: seq<Band>)
    requires Bounded(f)
    ensures Bounded(DebounceAll(f, bs))
    decreases |bs|
  {
    if bs != [] {
      RunBounded(f, bs[..|bs| - 1]);
    }
  }

  /** From a zero counter and a clear flag, four matches of one class keep
      the flag down for three cycles, raise it on the fourth and reset the
      counter. */
  lemma FourInARow(f: Filter, c: Band)
    requires c != Neither && Count(f, c) == 0 && !Flag(f, c)
    ensures Count(DebounceAll(f, [c]), c) == 1 && !Flag(DebounceAll(f, [c]), c)
    ensures Count(DebounceAll(f, [c, c]), c) == 2 && !Flag(DebounceAll(f, [c, c]), c)
    ensures Count(DebounceAll(f, [c, c, c]), c) == 3 && !Flag(DebounceAll(f, [c, c, c]), c)
    ensures Count(DebounceAll(f, [c, c, c, c]), c) == 0 && Flag(DebounceAll(f, [c, c, c, c]), c)
  {
    assert [c, c, c, c][..3] == [c, c, c];
    assert [c, c, c][..2] == [c, c];
    assert [c, c][..1] == [c];
    assert [c][..0] == [];
  }

  /** A raised flag stays raised through any run of cycles in which some
      band matches, whichever class it is. */
  lemma {:induction false} FlagStaysSet(f: Filter, bs: seq<Band>, c: Band)
    requires Flag(f, c)
    requires forall k :: 0 <= k < |bs| ==> bs[k] != Neither
    ensures Flag(DebounceAll(f, bs), c)
    decreases |bs|
  {
    if bs != [] {
      FlagStaysSet(f, bs[..|bs| - 1], c);
    }
  }

  /** Nothing clears one block flag when the other class matches, so both
      can be raised at once. */
  lemma BothFlagsCanHold()
    ensures DebounceAll(Cleared, [Blue, Blue, Blue, Blue, Wood, Wood, Wood, Wood]).seeBlue
    ensures DebounceAll(Cleared, [Blue, Blue, Blue, Blue, Wood, Wood, Wood, Wood]).seeWood
  {
    var bs := [Blue, Blue, Blue, Blue, Wood, Wood, Wood, Wood];
    RunFromCleared(bs, Blue);
    RunFromCleared(bs, Wood);
    assert RunEndsAt(bs, 4, Blue) && NoNeitherFrom(bs, 4);
    assert RunEndsAt(bs, 8, Wood) && NoNeitherFrom(bs, 8);
  }

  /** How many of the last bands of `bs` are `c`, counted back from the end. */
  function Trailing(bs: seq<Band>, c: Band): (n: nat)
    ensures n <= |bs|
    decreases |bs|
  {
    if bs == [] || bs[|bs| - 1] != c then 0 else 1 + Trailing(bs[..|bs| - 1], c)
  }

  /** The `FilterLength` bands just before position `j` are all `c`. */
  ghost predicate RunEndsAt(bs: seq<Band>, j: int, c: Band)
  {
    FilterLength <= j <= |bs| && forall k :: j - FilterLength <= k < j ==> bs[k] == c
  }

  /** No band from position `j` on is `Neither`. */
  ghost predicate NoNeitherFrom(bs: seq<Band>, j: int)
  {
    forall k :: 0 <= k && j <= k < |bs| ==> bs[k] != Neither
  }

  /** Reference definition of a raised flag: somewhere in `bs` there are
      `FilterLength` consecutive matches of `c`, and no non-matching cycle
      has come after them. */
  ghost predicate Latched(bs: seq<Band>, c: Band)
  {
    exists j :: RunEndsAt(bs, j, c) && NoNeitherFrom(bs, j)
  }

  /** `Trailing` counts exactly the run of `c` at the end. */
  lemma {:induction false} TrailingCovers(bs: seq<Band>, c: Band, m: nat)
    requires m <= |bs|
    ensures Trailing(bs, c) >= m <==> forall k :: |bs| - m <= k < |bs| ==> bs[k] == c
    decreases m
  {
    if m > 0 && bs[|bs| - 1] == c {
      var p := bs[..|bs| - 1];
      TrailingCovers(p, c, m - 1);
      assert forall k :: |bs| - m <= k < |bs| - 1 ==> bs[k] == p[k];
    }
  }

  /** How one more cycle changes `Latched`. */
  lemma LatchedSnoc(p: seq<Band>, b: Band, c: Band)
    requires c != Neither
    ensures b == Neither ==> !Latched(p + [b], c)
    ensures b != Neither && b != c ==> (Latched(p + [b], c) <==> Latched(p, c))
    ensures b == c ==>
      (Latched(p + [b], c) <==> Latched(p, c) || RunEndsAt(p + [b], |p| + 1, c))
  {
    var bs := p + [b];
    if Latched(bs, c) {
      var j :| RunEndsAt(bs, j, c) && NoNeitherFrom(bs, j);
      if j <= |p| {
        assert bs[|p|] == b;
        assert forall k :: 0 <= k < |p| ==> bs[k] == p[k];
        assert RunEndsAt(p, j, c) && NoNeitherFrom(p, j);
      } else {
        assert bs[|p|] == c;
      }
    }
    if Latched(p, c) && b != Neither {
      var j :| RunEndsAt(p, j, c) && NoNeitherFrom(p, j);
      assert RunEndsAt(bs, j, c) && NoNeitherFrom(bs, j);
    }
    if b == c && RunEndsAt(bs, |p| + 1, c) {
      assert NoNeitherFrom(bs, |p| + 1);
    }
  }

  // In the lemmas below the literal 4 is `FilterLength`, written as a literal
  // so that the modulus stays linear for the solver.

  /** One matching cycle on a counter that holds the length `t` of the
      current run modulo 4: the counter then holds `t + 1` modulo 4, and the
      flag goes up when it wraps to zero. */
  lemma MatchStep(f: Filter, c: Band, t: nat)
    requires c != Neither && Bounded(f) && Count(f, c) == t % 4
    ensures Count(Debounce(f, c), c) == (t + 1) % 4
    ensures Flag(Debounce(f, c), c) == (Flag(f, c) || t % 4 == 3)
  {
    var q := t / 4;
    assert t == 4 * q + Count(f, c);
    if Count(f, c) == 3 {
      assert t + 1 == 4 * (q + 1);
    } else {
      assert t + 1 == 4 * q + (Count(f, c) + 1);
    }
  }

  /** The inductive step of `RunFromCleared` for one more cycle of band `b`. */
  lemma LatchStep(p: seq<Band>, b: Band, c: Band, f: Filter)
    requires c != Neither && Bounded(f)
    requires Count(f, c) == Trailing(p, c) % 4
    requires Flag(f, c) <==> Latched(p, c)
    ensures Count(Debounce(f, b), c) == Trailing(p + [b], c) % 4
    ensures Flag(Debounce(f, b), c) <==> Latched(p + [b], c)
  {
    var bs := p + [b];
    assert bs[..|bs| - 1] == p;
    LatchedSnoc(p, b, c);
    if b == c {
      var t := Trailing(p, c);
      TrailingSnoc(p, c);
      MatchStep(f, c, t);
      MatchLatchStep(p, c, t, Flag(f, c));
    } else {
      assert Trailing(bs, c) == 0;
      assert Count(Debounce(f, b), c) == 0;
    }
  }

  /** The flag half of `LatchStep` for a cycle that matches `c`, where
      `t` is the run of `c` before it and `flag` the flag before it. */
  lemma MatchLatchStep(p: seq<Band>, c: Band, t: nat, flag: bool)
    requires t == Trailing(p, c)
    requires flag <==> Latched(p, c)
    requires Latched(p + [c], c) <==> Latched(p, c) || RunEndsAt(p + [c], |p| + 1, c)
    ensures (flag || t % 4 == 3) <==> Latched(p + [c], c)
  {
    EndsWithRun(p, c);
    if t >= FilterLength {
      assert Latched(p, c) by {
        assert RunEndsAt(p, |p|, c) && NoNeitherFrom(p, |p|);
      }
    } else {
      assert t % 4 == t;
    }
  }

  /** One more match of `c` lengthens the trailing run by one. */
  lemma TrailingSnoc(p: seq<Band>, c: Band)
    ensures Trailing(p + [c], c) == Trailing(p, c) + 1
  {
    var bs := p + [c];
    assert bs[..|bs| - 1] == p;
  }

  /** The last `FilterLength` bands are all `c` exactly when the trailing
      run of `c` is at least that long. */
  lemma EndsWithRun(p: seq<Band>, c: Band)
    ensures RunEndsAt(p, |p|, c) <==> Trailing(p, c) >= FilterLength
    ensures RunEndsAt(p + [c], |p| + 1, c) <==> Trailing(p, c) + 1 >= FilterLength
  {
    TrailingSnoc(p, c);
    if |p| >= FilterLength {
      TrailingCovers(p, c, FilterLength);
    }
    if |p| + 1 >= FilterLength {
      TrailingCovers(p + [c], c, FilterLength);
    }
  }

  /** From the cleared state, a block flag is raised exactly when its class
      has matched `FilterLength` times in a row with no non-matching cycle
      since, and its counter is the length of the current run of matches
      modulo `FilterLength`. */
  lemma {:induction false} RunFromCleared(bs: seq<Band>, c: Band)
    requires c != Neither
    ensures Count(DebounceAll(Cleared, bs), c) == Trailing(bs, c) % 4
    ensures Flag(DebounceAll(Cleared, bs), c) <==> Latched(bs, c)
    decreases |bs|
  {
    if bs == [] {
      assert !Latched(bs, c);
    } else {
      var p, b := bs[..|bs| - 1], bs[|bs| - 1];
      assert bs == p + [b];
      RunFromCleared(p, c);
      RunBounded(Cleared, p);
      LatchStep(p, b, c, DebounceAll(Cleared, p));
    }
  }
}
