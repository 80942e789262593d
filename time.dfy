/**
 * The `time` module as the lock client uses it: a clock it reads with
 * `time.time()` and advances with `time.sleep(...)`, and the schedule of
 * instants at which the acquire loop polls the store.
 */
module Time {

  /** Time is kept in whole milliseconds; the retry loop sleeps a third of a second. */
  const SleepInterval: nat := 333

  class Clock {
    /** The current instant, in milliseconds. */
    var now: int

    constructor (start: int)
      ensures now == start
    {
      now := start;
    }

    /** `time.time()`. */
    method Time() returns (t: int)
      ensures t == now
    {
      t := now;
    }

    /** `time.sleep(1/3)`: the only way time passes in the model. */
    method Sleep()
      modifies this
      ensures now == old(now) + SleepInterval
    {
      now := now + SleepInterval;
    }
  }

  /**
   * The instants of a loop that checks `now < deadline` first, polls, and then
   * waits `step`, when every poll fails: it starts at `start`.
   */
  function PollTimes(start: int, deadline: int, step: nat): seq<int>
    requires step > 0
    decreases deadline - start
  {
    if start < deadline then [start] + PollTimes(start + step, deadline, step) else []
  }

  /**
   * The polls are `step` apart, all before the deadline, and there are just
   * enough of them to reach it: after the last one's sleep the deadline has
   * passed, so the loop never oversleeps it by a whole interval.
   */
  lemma {:induction false} PollTimesShape(start: int, deadline: int, step: nat)
    requires step > 0
    ensures var p := PollTimes(start, deadline, step);
      && (forall i :: 0 <= i < |p| ==> p[i] == start + i * step && p[i] < deadline)
      && |p| * step >= deadline - start
      && (|p| > 0 ==> (|p| - 1) * step < deadline - start)
    decreases deadline - start
  {
    var p := PollTimes(start, deadline, step);
    if start < deadline {
      var q := PollTimes(start + step, deadline, step);
      PollTimesShape(start + step, deadline, step);
      assert p == [start] + q;
      forall i | 0 <= i < |p|
        ensures p[i] == start + i * step && p[i] < deadline
      {
        if i > 0 {
          assert p[i] == q[i - 1] == start + step + (i - 1) * step;
          assert (i - 1) * step + step == i * step;
        }
      }
      assert |p| * step == |q| * step + step;
      assert |q| > 0 ==> (|p| - 1) * step == (|q| - 1) * step + step;
    }
  }

  /**
   * A run of instants that starts at `start`, keeps `step` apart, stays before
   * `deadline`, and whose next instant would reach it, is the poll schedule.
   */
  lemma {:induction false} ScheduleOfSpacedInstants(ats: seq<int>, start: int, deadline: int, step: nat)
    requires step > 0
    requires |ats| > 0 ==> ats[0] == start
    requires forall i :: 0 <= i < |ats| - 1 ==> ats[i + 1] == ats[i] + step
    requires forall i :: 0 <= i < |ats| ==> ats[i] < deadline
    requires (if |ats| == 0 then start else ats[|ats| - 1] + step) >= deadline
    ensures ats == PollTimes(start, deadline, step)
    decreases |ats|
  {
    if |ats| > 0 {
      var rest := ats[1..];
      if |rest| > 0 {
        assert rest[0] == ats[1] == start + step;
      }
      ScheduleOfSpacedInstants(rest, start + step, deadline, step);
      assert ats == [start] + rest;
    }
  }
}
