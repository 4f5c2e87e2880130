/**
 The elapsed-time bookkeeping at the start of
 StepCounterService.sendVerticalAcceleration: each flush measures the time
 since the previous post, in `long` milliseconds, and records the current
 time as the new previous post.
 */
module SampleClock {
  import opened JavaInt
  import opened Sequences

  /** The interval a flush reports, and the post time it leaves behind */
  datatype Tick = Tick(elapsed: Int64, lastPost: Millis)

  /**
   One flush at clock reading `now`. Two clock readings are non-negative
   `long`s, so their difference never wraps around.
   */
  function Flush(lastPost: Millis, now: Millis): (r: Tick)
    ensures r.lastPost == now
    ensures lastPost + r.elapsed == now
  {
    Tick(now - lastPost, now)
  }

  /** The intervals reported by successive flushes at the clock readings `nows` */
  function Intervals(lastPost: Millis, nows: seq<Millis>): (r: seq<int>)
    ensures |r| == |nows|
    // the first flush measures from the starting post time, every later one from the flush before it
    ensures |nows| > 0 ==> r[0] == nows[0] as int - lastPost
    ensures forall i :: 0 < i < |nows| ==> r[i] == nows[i] as int - nows[i - 1]
    decreases |nows|
  {
    if nows == [] then []
    else [Flush(lastPost, nows[0]).elapsed] + Intervals(Flush(lastPost, nows[0]).lastPost, nows[1..])
  }

  /** The post time after successive flushes at the clock readings `nows` */
  function FinalPost(lastPost: Millis, nows: seq<Millis>): Millis
  {
    if nows == [] then lastPost else nows[|nows| - 1]
  }

  /**
   The intervals telescope: over any run of flushes, no time is counted twice
   and none is dropped, whatever order the clock readings come in.
   */
  lemma {:induction false} Telescoping(lastPost: Millis, nows: seq<Millis>)
    ensures Sum(Intervals(lastPost, nows)) == FinalPost(lastPost, nows) - lastPost
    decreases |nows|
  {
    if nows != [] {
      Telescoping(nows[0], nows[1..]);
      assert FinalPost(nows[0], nows[1..]) == FinalPost(lastPost, nows);
      assert Intervals(lastPost, nows)[1..] == Intervals(nows[0], nows[1..]);
    }
  }
}
