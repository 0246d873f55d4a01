/** The colour-sensor poller (`LsPoller`): the state one polling cycle
    updates, the cycle itself as a specification function and as the
    imperative `Step` of a class, and what a finite run of cycles from the
    constructor's state amounts to. */
module Polling {
  import opened History
  import opened Classifier

  /** A drop of the red channel by more than this, against the oldest held
      reading, signals a black line. */
  const LineDrop: real := 0.10

  /** The two channels of one sensor sample the poller uses: channel 0 (red)
      and channel 2 (blue). */
  datatype Sample = Sample(ch0: real, ch2: real)

  /** Everything one cycle reads or writes: the reading history, the line
      flag, the last blue/red ratio (`None` when it is not finite) and the
      debounce filter. */
  datatype State = State(history: seq<real>, seeLine: bool, ratio: Option<real>, filter: Filter)

  /** The history is non-empty and within capacity, and the counters are
      bounded. */
  ghost predicate ValidState(s: State)
  {
    1 <= |s.history| <= Capacity && Bounded(s.filter)
  }

  /** The state the constructor sets up from its one seed reading; the ratio
      field keeps its default of zero. */
  function Init(seed: real): State
  {
    State([seed], false, Some(0.0), Cleared)
  }

  /** One polling cycle on the red reading `ch0` and the blue reading `ch2`. */
  function Next(s: State, ch0: real, ch2: real): (t: State)
    requires 1 <= |s.history|
    ensures ValidState(s) ==> ValidState(t)
    ensures t.seeLine <==> ch0 + 0.1 < s.history[0]
    ensures |t.history| >= 1 && t.history[|t.history| - 1] == ch0
    ensures |s.history| < Capacity ==> |t.history| == |s.history| + 1
    ensures Classify(ch0, ch2) == Neither ==> t.filter == Cleared
  {
    State(Slide(s.history, ch0), ch0 < s.history[0] - LineDrop, Ratio(ch0, ch2),
          Debounce(s.filter, Classify(ch0, ch2)))
  }

  /** The state after one cycle per sample, in order. */
  function StepAll(s: State, samples: seq<Sample>): (t: State)
    requires 1 <= |s.history|
    ensures 1 <= |t.history|
    decreases |samples|
  {
    if samples == [] then s
    else
      var last := samples[|samples| - 1];
      Next(StepAll(s, samples[..|samples| - 1]), last.ch0, last.ch2)
  }

  /** The red readings of a run of samples. */
  function Reds(samples: seq<Sample>): seq<real>
  {
    seq(|samples|, i requires 0 <= i < |samples| => samples[i].ch0)
  }

  /** The band of each sample of a run. */
  function Bands(samples: seq<Sample>): seq<Band>
  {
    seq(|samples|, i requires 0 <= i < |samples| => Classify(samples[i].ch0, samples[i].ch2))
  }

  /** A run of cycles keeps the state valid. */
  lemma {:induction false} StepAllValid(s: State, samples: seq<Sample>)
    requires 1 <= |s.history| && ValidState(s)
    ensures ValidState(StepAll(s, samples))
    decreases |samples|
  {
    if samples != [] {
      StepAllValid(s, samples[..|samples| - 1]);
    }
  }

  /** A run of cycles slides every red reading into the history, in order. */
  lemma {:induction false} StepAllHistory(s: State, samples: seq<Sample>)
    requires 1 <= |s.history|
    ensures StepAll(s, samples).history == SlideAll(s.history, Reds(samples))
    decreases |samples|
  {
    if samples != [] {
      var p := samples[..|samples| - 1];
      StepAllHistory(s, p);
      assert Reds(samples)[..|samples| - 1] == Reds(p);
    }
  }

  /** A run of cycles feeds the band of every sample, in order, to the
      debounce filter. */
  lemma {:induction false} StepAllFilter(s: State, samples: seq<Sample>)
    requires 1 <= |s.history|
    ensures StepAll(s, samples).filter == DebounceAll(s.filter, Bands(samples))
    decreases |samples|
  {
    if samples != [] {
      var p := samples[..|samples| - 1];
      StepAllFilter(s, p);
      assert Bands(samples)[..|samples| - 1] == Bands(p);
    }
  }

  /** What the poller holds after any finite run from the constructor's
      state: the history is the last fifteen red readings of the whole
      stream, seed included, and each block flag is up exactly when its
      class has matched four cycles in a row with no non-matching cycle
      since. */
  lemma RunFromInit(seed: real, samples: seq<Sample>)
    ensures ValidState(StepAll(Init(seed), samples))
    ensures StepAll(Init(seed), samples).history == Window([seed] + Reds(samples))
    ensures StepAll(Init(seed), samples).filter.seeBlue <==> Latched(Bands(samples), Blue)
    ensures StepAll(Init(seed), samples).filter.seeWood <==> Latched(Bands(samples), Wood)
  {
    StepAllValid(Init(seed), samples);
    StepAllHistory(Init(seed), samples);
    StepAllFilter(Init(seed), samples);
    SlideAllIsWindow([seed], Reds(samples));
    RunFromCleared(Bands(samples), Blue);
    RunFromCleared(Bands(samples), Wood);
  }

  /** After `n` cycles from the constructor's state, the line flag compares
      the newest red reading with the one fifteen cycles earlier in the
      stream, or with the seed while at most fifteen cycles have run. */
  lemma LineFlagLooksBack(seed: real, samples: seq<Sample>)
    requires |samples| > 0
    ensures
      var n := |samples|;
      StepAll(Init(seed), samples).seeLine <==>
        samples[n - 1].ch0 < ([seed] + Reds(samples))[if n <= Capacity then 0 else n - Capacity] - LineDrop
  {
    LastLineFlag(Init(seed), samples);
    OldestBeforeLastCycle(seed, samples);
  }

  /** The oldest reading the last cycle of a run compares against. */
  lemma OldestBeforeLastCycle(seed: real, samples: seq<Sample>)
    requires |samples| > 0
    ensures
      var n, stream := |samples|, [seed] + Reds(samples);
      StepAll(Init(seed), samples[..n - 1]).history[0] ==
        stream[if n <= Capacity then 0 else n - Capacity]
  {
    var n, stream := |samples|, [seed] + Reds(samples);
    HistoryFromSeed(seed, samples, n - 1);
    OldestOfWindow(stream, n);
  }

  /** The line flag after a run is set by the run's last cycle alone. */
  lemma LastLineFlag(s: State, samples: seq<Sample>)
    requires 1 <= |s.history| && |samples| > 0
    ensures StepAll(s, samples).seeLine <==>
      samples[|samples| - 1].ch0 < StepAll(s, samples[..|samples| - 1]).history[0] - LineDrop
  {
  }

  /** The history after the first `k` cycles from the constructor's state. */
  lemma HistoryFromSeed(seed: real, samples: seq<Sample>, k: nat)
    requires k <= |samples|
    ensures StepAll(Init(seed), samples[..k]).history == Window(([seed] + Reds(samples))[..k + 1])
  {
    var p := samples[..k];
    StepAllHistory(Init(seed), p);
    SlideAllIsWindow([seed], Reds(p));
    assert [seed] + Reds(p) == ([seed] + Reds(samples))[..k + 1];
  }

  /** The first element of the window over the first `n` elements of a
      stream. */
  lemma OldestOfWindow(stream: seq<real>, n: nat)
    requires 0 < n < |stream|
    ensures Window(stream[..n])[0] == stream[if n <= Capacity then 0 else n - Capacity]
  {
  }

  /** The poller object. `history` is `lastCSReadings`; the other fields
      are the line flag, the two block flags, the last blue/red ratio
      (`BRratio`) and the two run-length counters. */
  class LsPoller {
    var history: seq<real>
    var seeLine: bool
    var seeBlue: bool
    var seeWood: bool
    var brRatio: Option<real>
    var countB: int
    var countW: int

    /** The object's fields as a `State`. */
    function Model(): State
      reads this
    {
      State(history, seeLine, brRatio, Filters())
    }

    ghost predicate Valid()
      reads this
    {
      ValidState(Model())
    }

    /** Seeds the history with one reading; all flags down, counters zero. */
    constructor (seed: real)
      ensures Valid() && Model() == Init(seed)
    {
      history := [seed];
      seeLine := false;
      seeBlue := false;
      seeWood := false;
      brRatio := Some(0.0);
      countB := 0;
      countW := 0;
    }

    /** The debounce filter held in the object's fields. */
    function Filters(): Filter
      reads this
    {
      Filter(countB, countW, seeBlue, seeWood)
    }

    /** One pass of the polling loop on the red reading `ch0` and the blue
        reading `ch2`. */
    method Step(ch0: real, ch2: real)
      requires Valid()
      modifies this
      ensures Valid() && Model() == Next(old(Model()), ch0, ch2)
    {
      if ch0 < history[0] - LineDrop {
        seeLine := true;
      } else {
        seeLine := false;
      }

      brRatio := Ratio(ch0, ch2);
      MatchRatio();

      AddReading(ch0);
    }

    /** The band tests on `brRatio` and the counter and flag updates they
        select. */
    method MatchRatio()
      modifies this`countB, this`countW, this`seeBlue, this`seeWood
      ensures Filters() == Debounce(old(Filters()), ClassifyRatio(brRatio))
    {
      if brRatio.Some? && InBand(BlueRatio, brRatio.value) {
        countW := 0;
        countB := countB + 1;
        if countB == FilterLength {
          seeBlue := true;
          countB := 0;
        }
      } else if brRatio.Some? && InBand(WoodRatio, brRatio.value) {
        countB := 0;
        countW := countW + 1;
        if countW == FilterLength {
          seeWood := true;
          countW := 0;
        }
      } else {
        countB := 0;
        countW := 0;
        seeBlue := false;
        seeWood := false;
      }
    }

    /** Appends the newest reading to the history and removes the oldest
        one once more than `Capacity` are held. */
    method AddReading(reading: real)
      modifies this`history
      ensures history == Slide(old(history), reading)
    {
      history := history + [reading];
      if |history| > Capacity {
        history := history[1..];
      }
    }

    /** The polling loop over a finite run of samples. */
    method Run(samples: seq<Sample>)
      requires Valid()
      modifies this
      ensures Valid() && Model() == StepAll(old(Model()), samples)
    {
      var i := 0;
      while i < |samples|
        invariant 0 <= i <= |samples|
        invariant Valid() && Model() == StepAll(old(Model()), samples[..i])
      {
        Step(samples[i].ch0, samples[i].ch2);
        assert samples[..i + 1][..i] == samples[..i];
        i := i + 1;
      }
      assert samples[..i] == samples;
    }

    /** `isSeeingBlackLine`: the current line flag, read without changing anything. */
    function IsSeeingBlackLine(): (b: bool)
      reads this
      ensures b <==> Model().seeLine
    {
      seeLine
    }

    /** `isSeeingBlueBlock`: the current blue block flag, read without changing anything. */
    function IsSeeingBlueBlock(): (b: bool)
      reads this
      ensures b <==> Model().filter.seeBlue
    {
      seeBlue
    }

    /** `isSeeingWoodenBlock`: the current wood block flag, read without changing anything. */
    function IsSeeingWoodenBlock(): (b: bool)
      reads this
      ensures b <==> Model().filter.seeWood
    {
      seeWood
    }
  }
}
