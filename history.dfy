/** The sliding window of recent channel-0 readings kept by the colour-sensor
    poller (the `lastCSReadings` list): each cycle adds the newest reading at
    the end and removes the one at index 0 once more than `Capacity` are held. */
module History {

  /** How many readings the window keeps (`lastCSReadingsSize`). */
  const Capacity: nat := 15

  /** One cycle's update of the window: append `x`, then drop the oldest
      reading if the list has grown past `Capacity`. */
  function Slide<T>(h: seq<T>, x: T): (r: seq<T>)
    ensures |r| >= 1 && r[|r| - 1] == x
    ensures |h| < Capacity ==> r[..|r| - 1] == h
    ensures |h| >= Capacity ==> r[..|r| - 1] == h[1..]
    ensures |h| <= Capacity ==> |r| <= Capacity
  {
    var s := h + [x];
    assert s[..|s| - 1] == h;
    if |s| > Capacity then
      assert s[1..][..|s| - 2] == h[1..];
      s[1..]
    else s
  }

  /** Reference definition: the last `Capacity` elements of a stream, or
      the whole stream when it is shorter. */
  function Window<T>(s: seq<T>): seq<T>
  {
    if |s| <= Capacity then s else s[|s| - Capacity..]
  }

  /** The window after sliding in every element of `xs`, in order. */
  function SlideAll<T>(h: seq<T>, xs: seq<T>): seq<T>
    decreases |xs|
  {
    if xs == [] then h else Slide(SlideAll(h, xs[..|xs| - 1]), xs[|xs| - 1])
  }

  /** Sliding a stream through a window that starts within capacity leaves
      exactly the last `Capacity` elements of everything seen, oldest first. */
  lemma {:induction false} SlideAllIsWindow<T>(h: seq<T>, xs: seq<T>)
    requires |h| <= Capacity
    ensures SlideAll(h, xs) == Window(h + xs)
    decreases |xs|
  {
    if xs == [] {
      assert h + xs == h;
    } else {
      var p, x := xs[..|xs| - 1], xs[|xs| - 1];
      SlideAllIsWindow(h, p);
      assert h + xs == (h + p) + [x];
      var w := Window(h + p);
      if |h + p| < Capacity {
        assert w == h + p;
      } else {
        assert w[1..] + [x] == Window(h + xs);
      }
    }
  }

  /** Starting from the single seed reading of the constructor, the window
      grows by exactly one per cycle until it is full; from the fifteenth
      cycle on it holds only the last fifteen readings, so the seed is gone. */
  lemma SlideAllFromSeed<T>(seed: T, xs: seq<T>)
    ensures |xs| < Capacity ==> SlideAll([seed], xs) == [seed] + xs
    ensures |xs| < Capacity ==> |SlideAll([seed], xs)| == |xs| + 1
    ensures |xs| >= Capacity ==> SlideAll([seed], xs) == xs[|xs| - Capacity..]
  {
    SlideAllIsWindow([seed], xs);
    if |xs| >= Capacity {
      assert ([seed] + xs)[|xs| + 1 - Capacity..] == xs[|xs| - Capacity..];
    }
  }
}
