/**
 * The integer bookkeeping `update` does on every new camera frame: the frame
 * counter, the time of the previous frame and the elapsed time since it,
 * and the decision to re-seed the tracked optical-flow features.
 */
module FrameClock {

  /** lastTime holds this sentinel until the first frame arrives. */
  const NoTime: int := -1

  /** Tracked features are re-seeded on every frame whose count is a multiple of this. */
  const ResetPeriod: nat := 10

  datatype Clock = Clock(numFrames: nat, lastTime: int)

  /** No frame seen yet. */
  const Start: Clock := Clock(0, NoTime)

  /** One new frame: the clock after it, the elapsed time dT, and whether features are reset. */
  datatype Frame = Frame(after: Clock, dT: int, resetFeatures: bool)

  function Tick(c: Clock, now: int): Frame {
    var numFrames := c.numFrames + 1;
    var last := if c.lastTime == NoTime then now else c.lastTime;
    Frame(Clock(numFrames, now), now - last, numFrames % ResetPeriod == 0)
  }

  /** One call to a frame tick: the counter goes up by one and the new frame time is recorded. */
  lemma TickAdvances(c: Clock, now: int)
    ensures Tick(c, now).after == Clock(c.numFrames + 1, now)
    ensures Tick(c, now).dT == (if c.lastTime == NoTime then 0 else now - c.lastTime)
    ensures Tick(c, now).resetFeatures <==> (c.numFrames + 1) % 10 == 0
  {
  }

  /** What a run of frames, at the given times, reports and leaves behind. */
  datatype Trace = Trace(after: Clock, dTs: seq<int>, resets: seq<bool>)

  function Run(c: Clock, times: seq<int>): Trace
    decreases |times|
  {
    if times == [] then Trace(c, [], [])
    else
      var f := Tick(c, times[0]);
      var rest := Run(f.after, times[1..]);
      Trace(rest.after, [f.dT] + rest.dTs, [f.resetFeatures] + rest.resets)
  }

  /**
   * Over a run of frames: the counter rises by the number of frames, the last
   * frame time is kept, the i-th frame resets features exactly when its count
   * is a multiple of ten, and each dT after the first is the difference of
   * consecutive frame times (unless the earlier one happens to equal the
   * sentinel, which the code cannot tell from "no frame yet").
   */
  lemma {:induction false} RunFacts(c: Clock, times: seq<int>)
    decreases |times|
    ensures |Run(c, times).dTs| == |times| && |Run(c, times).resets| == |times|
    ensures Run(c, times).after.numFrames == c.numFrames + |times|
    ensures Run(c, times).after.lastTime == if times == [] then c.lastTime else times[|times| - 1]
    ensures forall i :: 0 <= i < |times| ==>
              (Run(c, times).resets[i] <==> (c.numFrames + i + 1) % 10 == 0)
    ensures times != [] ==>
              Run(c, times).dTs[0] == if c.lastTime == NoTime then 0 else times[0] - c.lastTime
    ensures forall i :: 0 < i < |times| && times[i - 1] != NoTime ==>
              Run(c, times).dTs[i] == times[i] - times[i - 1]
  {
    if times != [] {
      var f := Tick(c, times[0]);
      RunFacts(f.after, times[1..]);
      var rest := Run(f.after, times[1..]);
      assert Run(c, times).dTs == [f.dT] + rest.dTs;
      forall i | 0 < i < |times| && times[i - 1] != NoTime
        ensures Run(c, times).dTs[i] == times[i] - times[i - 1]
      {
        assert Run(c, times).dTs[i] == rest.dTs[i - 1];
        if i > 1 {
          assert times[1..][i - 2] == times[i - 1];
        }
      }
    }
  }

  /** From the start, the first frame's dT is zero. */
  lemma FirstFrameHasNoElapsedTime(now: int)
    ensures Tick(Start, now).dT == 0
    ensures Tick(Start, now).after.lastTime == now
    ensures !Tick(Start, now).resetFeatures
  {
  }

  function CountTrue(bs: seq<bool>): nat
    decreases |bs|
  {
    if bs == [] then 0 else (if bs[0] then 1 else 0) + CountTrue(bs[1..])
  }

  /** From a counter of n, a run of k frames resets features (n + k) / 10 - n / 10 times. */
  lemma {:induction false} ResetCount(c: Clock, times: seq<int>)
    decreases |times|
    ensures CountTrue(Run(c, times).resets) == (c.numFrames + |times|) / 10 - c.numFrames / 10
  {
    if times != [] {
      var f := Tick(c, times[0]);
      ResetCount(f.after, times[1..]);
      assert Run(c, times).resets == [f.resetFeatures] + Run(f.after, times[1..]).resets;
      assert Run(c, times).resets[1..] == Run(f.after, times[1..]).resets;
      var n := c.numFrames;
      assert (n + 1) / 10 - n / 10 == if (n + 1) % 10 == 0 then 1 else 0;
    }
  }

  /** From the start, k frames reset features exactly k / 10 times. */
  lemma ResetsFromStart(times: seq<int>)
    ensures CountTrue(Run(Start, times).resets) == |times| / 10
  {
    ResetCount(Start, times);
  }

  function Sum(xs: seq<int>): int
    decreases |xs|
  {
    if xs == [] then 0 else xs[0] + Sum(xs[1..])
  }

  lemma SumCons(x: int, xs: seq<int>)
    ensures Sum([x] + xs) == x + Sum(xs)
  {
    assert ([x] + xs)[1..] == xs;
  }

  /**
   * Once a frame time is recorded, the dTs of a run add up to the time from
   * it to the run's last frame, provided no frame time before the last
   * equals the sentinel.
   */
  lemma {:induction false} ElapsedTimeTelescopes(c: Clock, times: seq<int>)
    requires times != []
    requires c.lastTime != NoTime
    requires forall i :: 0 <= i < |times| - 1 ==> times[i] != NoTime
    ensures Sum(Run(c, times).dTs) == times[|times| - 1] - c.lastTime
    decreases |times|
  {
    var f := Tick(c, times[0]);
    var later := times[1..];
    var rest := Run(f.after, later);
    assert Run(c, times).dTs == [f.dT] + rest.dTs;
    SumCons(f.dT, rest.dTs);
    if |times| > 1 {
      assert later[|later| - 1] == times[|times| - 1];
      forall i | 0 <= i < |later| - 1 ensures later[i] != NoTime {
        assert later[i] == times[i + 1];
      }
      ElapsedTimeTelescopes(f.after, later);
    } else {
      assert rest.dTs == [];
    }
  }

  /** From the start, the dTs add up to the time between the first and the last frame. */
  lemma ElapsedFromStart(times: seq<int>)
    requires times != []
    requires forall i :: 0 <= i < |times| - 1 ==> times[i] != NoTime
    ensures Sum(Run(Start, times).dTs) == times[|times| - 1] - times[0]
  {
    var f := Tick(Start, times[0]);
    assert f.dT == 0 && f.after.lastTime == times[0];
    var later := times[1..];
    var rest := Run(f.after, later);
    assert Run(Start, times).dTs == [0] + rest.dTs;
    SumCons(0, rest.dTs);
    if |times| > 1 {
      assert times[0] != NoTime;
      assert later[|later| - 1] == times[|times| - 1];
      forall i | 0 <= i < |later| - 1 ensures later[i] != NoTime {
        assert later[i] == times[i + 1];
      }
      ElapsedTimeTelescopes(f.after, later);
    } else {
      assert rest.dTs == [];
    }
  }
}
