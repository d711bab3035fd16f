/**
 * The scheduler's engagement worker: targets 1 .. `follow_count` of the search
 * results are visited in turn, each one followed when its follow button is
 * visible. There is no stop flag and no per-target error handling: the first
 * exception ends the whole run.
 */
module ScheduleWorker {
  /**
   * What one pass of the target loop observes: `Done` when the pass finished,
   * `Failed` when something in it raised; `followed` says whether the follow
   * button was visible (and clicked) before that.
   */
  datatype Pass = Done(followed: bool) | Failed(followed: bool)

  /** Follows made by targets 1 .. n. */
  function Follows(passes: nat -> Pass, n: nat): (r: nat)
    ensures r <= n
  {
    if n == 0 then 0 else Follows(passes, n - 1) + (if passes(n).followed then 1 else 0)
  }

  /** The value of `count` after the loop when no pass raised. */
  function LastCount(followCount: int): (c: nat)
    ensures c >= 1 && c > followCount && (followCount >= 0 ==> c == followCount + 1)
  {
    if followCount < 1 then 1 else followCount + 1
  }

  /**
   * The target loop of `Worker.run_playwright`: `count` starts at 1 and grows
   * by exactly one per pass; `follow_done` grows only when the follow button
   * was visible, so it never exceeds `count - 1` at the head of the loop.
   */
  method RunTargets(followCount: int, passes: nat -> Pass)
    returns (count: nat, followDone: nat, failed: bool)
    ensures 1 <= count
    ensures forall k | 1 <= k < count :: passes(k).Done?
    ensures !failed ==> count == LastCount(followCount)
    ensures failed ==> count <= followCount && passes(count).Failed?
    ensures followDone == Follows(passes, count - 1) + if failed && passes(count).followed then 1 else 0
    ensures followDone <= if failed then count else count - 1
  {
    count, followDone, failed := 1, 0, false;
    while count <= followCount
      invariant 1 <= count <= LastCount(followCount)
      invariant forall k | 1 <= k < count :: passes(k).Done?
      invariant followDone == Follows(passes, count - 1)
      decreases followCount - count
    {
      var pass := passes(count);
      if pass.followed {
        followDone := followDone + 1;
      }
      if pass.Failed? {
        failed := true;
        return;
      }
      count := count + 1;
    }
  }

  /** When every target's follow button is visible, the run follows exactly `follow_count` users. */
  lemma {:induction false} EveryVisibleFollowCounted(passes: nat -> Pass, n: nat)
    requires forall k | 1 <= k <= n :: passes(k).followed
    ensures Follows(passes, n) == n
  {
    if n > 0 {
      EveryVisibleFollowCounted(passes, n - 1);
    }
  }

  /** A run with no visible follow button follows nobody. */
  lemma {:induction false} NoVisibleFollowNoneCounted(passes: nat -> Pass, n: nat)
    requires forall k | 1 <= k <= n :: !passes(k).followed
    ensures Follows(passes, n) == 0
  {
    if n > 0 {
      NoVisibleFollowNoneCounted(passes, n - 1);
    }
  }
}
