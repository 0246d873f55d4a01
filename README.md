# Colour-sensor poller of the DPM Team 16 robot

This project models `LsPoller`, the thread of the 2016 DPM competition robot
that polls the colour sensor. One pass of its polling loop:

- reads a red (channel 0) and a blue (channel 2) reading;
- raises the black-line flag when the red reading is more than 0.10 below the
  oldest reading in a history of recent red readings;
- computes the blue/red ratio and tests it against two open bands, 1.4 ± 0.3
  for the blue styrofoam block and 0.4 ± 0.3 for the wooden block;
- counts consecutive matches of each band and raises the block flag of a
  class on the fourth match in a row, resetting its counter; a ratio in
  neither band resets both counters and lowers both block flags at once;
- appends the red reading to the history and drops the oldest once more
  than 15 are held.

The project has three modules:

- `History` (`history.dfy`): the history as a sliding window. `Slide` is one
  add plus the conditional `remove(0)`. `Window` is an independent reference
  definition (the last 15 elements of a stream). `SlideAll` runs a stream
  through the window.
- `Classifier` (`classifier.dfy`): the ratio, the band tests, the debounce
  filter `Debounce` and its run `DebounceAll`, and `Latched`, a reference
  definition of a raised flag: four consecutive matches of the class with no
  non-matching cycle since. `RunFromCleared` proves the filter equal to that
  definition.
- `Polling` (`ls_poller.dfy`): the whole state of one cycle (`State`), the
  cycle as a function (`Next`) and its run (`StepAll`). It also holds the
  class `LsPoller`. Its fields are the source's fields. Its `Step` method
  mirrors the loop body statement by statement and is proved equal to
  `Next`. The getters `IsSeeingBlackLine`, `IsSeeingBlueBlock` and
  `IsSeeingWoodenBlock` (LsPoller.java:154-172) are plain field reads.

The sensor's channels are reals. A zero red reading gives no ratio
(`Ratio` returns `None`). In the source, that float division yields
+Infinity, -Infinity or NaN. Each band test is the conjunction of a lower and
an upper comparison (LsPoller.java:104, 112): on +Infinity the upper one
fails, on -Infinity the lower one, on NaN both. So neither test passes, such
a cycle takes the "neither" branch, and the model does the same.

The blue and wood flags are not mutually exclusive. A blue match
(LsPoller.java:104-110) never lowers `seeWoodBlock`, and a wood match
(:112-118) never lowers `seeBlueBlock`. `BothFlagsCanHold` shows four blue
cycles followed by four wood cycles leaving both flags raised at once.

## Model

| member | source | states |
|---|---|---|
| `History.Slide` | DPM-Team16-2016/competitioncode/src/dpmCompetition/LsPoller.java:127-132 | the new reading becomes the last element; the older readings keep their order, and only index 0 is dropped, and only when the list already held 15; a history within capacity stays within capacity |
| `History.SlideAllIsWindow` | DPM-Team16-2016/competitioncode/src/dpmCompetition/LsPoller.java:128-132 | from any history of at most 15 readings, the history after any run of cycles is exactly the last 15 readings of everything seen, oldest first (FIFO order) |
| `History.SlideAllFromSeed` | DPM-Team16-2016/competitioncode/src/dpmCompetition/LsPoller.java:128-132 | from the constructor's single seed reading, the history grows by exactly one per cycle until it holds 15; from the 15th cycle on it holds only the last 15 cycle readings, so the seed is gone |
| `Classifier.Ratio` | DPM-Team16-2016/competitioncode/src/dpmCompetition/LsPoller.java:101 | the blue/red ratio is undefined exactly when the red reading is zero |
| `Classifier.ClassifyRatio` | DPM-Team16-2016/competitioncode/src/dpmCompetition/LsPoller.java:104-112 | the blue branch is taken exactly for ratios strictly between 1.1 and 1.7, the wood branch exactly for ratios strictly between 0.1 and 0.7, so the band edges select neither; an undefined ratio selects neither |
| `Classifier.BandsDisjoint` | DPM-Team16-2016/competitioncode/src/dpmCompetition/LsPoller.java:104-112 | no ratio lies in both bands, so at most one of the two tests matches |
| `Classifier.Classify` | DPM-Team16-2016/competitioncode/src/dpmCompetition/LsPoller.java:101-112 | a sample with a zero red reading matches neither band |
| `Classifier.ClassifyBands` | DPM-Team16-2016/competitioncode/src/dpmCompetition/LsPoller.java:101-112 | with a non-zero red reading, a sample is blue, wood or neither exactly by where blue/red lies relative to the two open bands |
| `Classifier.Debounce` | DPM-Team16-2016/competitioncode/src/dpmCompetition/LsPoller.java:104-125 | after a cycle one counter is zero; counters below 4 stay below 4; a non-matching cycle clears both counters and both flags; a blue match zeroes the wood counter and keeps the wood flag, and the reverse for wood; a raised flag is only lowered by a non-matching cycle; a flag is raised only by a match of its class whose counter stood at 3 |
| `Classifier.RunBounded` | DPM-Team16-2016/competitioncode/src/dpmCompetition/LsPoller.java:104-125 | through any run of cycles both counters stay in 0..3 and at least one of them is 0 |
| `Classifier.FourInARow` | DPM-Team16-2016/competitioncode/src/dpmCompetition/LsPoller.java:104-118 | from a zero counter and a lowered flag, three matches of one class count 1, 2, 3 and leave the flag down; the fourth raises the flag and resets the counter to 0, for blue and for wood alike |
| `Classifier.FlagStaysSet` | DPM-Team16-2016/competitioncode/src/dpmCompetition/LsPoller.java:104-125 | a raised block flag stays raised through any run of cycles in which one of the two bands matches, whichever it is |
| `Classifier.BothFlagsCanHold` | DPM-Team16-2016/competitioncode/src/dpmCompetition/LsPoller.java:104-118 | four blue cycles followed by four wood cycles leave both block flags raised at once |
| `Classifier.MatchStep` | DPM-Team16-2016/competitioncode/src/dpmCompetition/LsPoller.java:104-118 | a matching cycle advances the class's counter modulo 4, and raises its flag exactly when the counter wraps to 0 |
| `Classifier.RunFromCleared` | DPM-Team16-2016/competitioncode/src/dpmCompetition/LsPoller.java:104-125 | from the initial state, a block flag is up exactly when its class has matched four cycles in a row with no non-matching cycle since; its counter is the length of the current run of matches modulo 4 |
| `Polling.Next` | DPM-Team16-2016/competitioncode/src/dpmCompetition/LsPoller.java:86-132 | one cycle keeps the state valid (history of 1 to 15 readings, bounded counters); the line flag is set exactly when the new reading plus 0.1 is below the oldest reading held before the cycle, whatever the old flag was; the new reading ends the history; a history below capacity grows by one; a non-matching sample clears the filter |
| `Polling.StepAllValid` | DPM-Team16-2016/competitioncode/src/dpmCompetition/LsPoller.java:86-132 | any run of cycles from a valid state keeps the history between 1 and 15 readings, so the read of index 0 is always defined, and keeps the counters bounded |
| `Polling.StepAllHistory` | DPM-Team16-2016/competitioncode/src/dpmCompetition/LsPoller.java:128-132 | a run of cycles slides the red readings of its samples into the history in order |
| `Polling.StepAllFilter` | DPM-Team16-2016/competitioncode/src/dpmCompetition/LsPoller.java:101-125 | a run of cycles feeds the band of each of its samples to the debounce filter in order |
| `Polling.RunFromInit` | DPM-Team16-2016/competitioncode/src/dpmCompetition/LsPoller.java:53-132 | after any run from the constructor's state, the state is valid, the history is the last 15 red readings of the stream that starts with the seed, and each block flag is up exactly when its class has matched four times in a row with no non-matching cycle since |
| `Polling.LastLineFlag` | DPM-Team16-2016/competitioncode/src/dpmCompetition/LsPoller.java:90-94 | the line flag after a run depends only on the last cycle's reading and the oldest reading held before that cycle |
| `Polling.LineFlagLooksBack` | DPM-Team16-2016/competitioncode/src/dpmCompetition/LsPoller.java:90-132 | after n cycles from the constructor, the line flag compares the newest red reading with the reading 15 cycles earlier in the stream, or with the seed while n is at most 15 |
| `Polling.LsPoller.constructor` | DPM-Team16-2016/competitioncode/src/dpmCompetition/LsPoller.java:53-72 | the poller starts valid, with the seed as the only history entry, all flags down and both counters zero |
| `Polling.LsPoller.Step` | DPM-Team16-2016/competitioncode/src/dpmCompetition/LsPoller.java:86-132 | the loop body keeps the object valid and leaves exactly the state `Next` gives for the old state and the two readings |
| `Polling.LsPoller.MatchRatio` | DPM-Team16-2016/competitioncode/src/dpmCompetition/LsPoller.java:103-125 | the band tests and the counter and flag updates change exactly the counters and block flags, as `Debounce` does for the band of the stored ratio |
| `Polling.LsPoller.AddReading` | DPM-Team16-2016/competitioncode/src/dpmCompetition/LsPoller.java:127-132 | the add and the conditional `remove(0)` change only the history, as `Slide` does |
| `Polling.LsPoller.Run` | DPM-Team16-2016/competitioncode/src/dpmCompetition/LsPoller.java:82-132 | running the loop body over a finite sequence of samples keeps the object valid and leaves the state `StepAll` gives |
| `Polling.LsPoller.IsSeeingBlackLine` | DPM-Team16-2016/competitioncode/src/dpmCompetition/LsPoller.java:154-156 | returns the line flag of the current state unchanged |
| `Polling.LsPoller.IsSeeingBlueBlock` | DPM-Team16-2016/competitioncode/src/dpmCompetition/LsPoller.java:162-164 | returns the blue block flag of the current state unchanged |
| `Polling.LsPoller.IsSeeingWoodenBlock` | DPM-Team16-2016/competitioncode/src/dpmCompetition/LsPoller.java:170-172 | returns the wood block flag of the current state unchanged |

## Left out

- Timing: the period measurement with `System.currentTimeMillis`, the `Thread.sleep` for the rest of the 10 ms period, and the ignored interrupt (LsPoller.java:83, 135-145). They decide when cycles run, not what a cycle computes.
- The unbounded `while (true)` and `extends Thread`: the model runs a single cycle (`Step`) or a finite sequence of cycles (`Run`).
- Cross-thread reads of the flags through the getters: the getters are modelled as field reads, without concurrency.
- The leJOS `SampleProvider` calls `sampleSize` and `fetchSample`, and the public `lsData` buffer (LsPoller.java:56, 59, 86). They are the hardware interface. The constructor takes the seed reading, and each cycle takes its channel-0 and channel-2 readings as parameters.
- Float arithmetic: readings are `float` and the thresholds `double` in the source. The model uses exact reals and exact thresholds, so rounding at a band edge or at the 0.10 line threshold is not modelled.
- Classifier.Ratio: a non-finite ratio is `None`. The model does not keep whether it was +Infinity, -Infinity or NaN, because each band test (lower and upper comparison together) is false on all three.
- Driver.java is not part of this model. Its navigation loop uses floating-point trigonometry and odometry and navigation classes that are not modelled. Its block search, home-zone and offset helpers only drive those external collaborators.
