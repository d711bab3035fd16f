/**
 * The engagement job ("스하리"): walk the search results one target at a time,
 * read the target's user name, open the user's page, follow, then like,
 * repost and comment on up to a drawn number of the user's posts. Failures to
 * read a name escalate: three in a row skip the target, and three skipped
 * targets end the run with a request to restart from the current target.
 *
 * The browser is an abstract stream of observations, one per pass of the
 * target loop; the stop flag is an observation too. The stream is finite, so
 * a run that would go on forever (a user page that keeps failing to load
 * changes no counter) ends with `OutOfObservations`.
 */
module Sahari {
  import opened Wrappers
  import opened PyText
  import opened Ranges
  import opened Comments

  /** `max_error`: failures tolerated at each of the two escalation stages. */
  const MaxError := 3

  /**
   * One pass of a like, repost or comment loop: `Break` when the stop flag was
   * read (or, for comments, the loop gave up), `Counted` when the action was
   * done and reported, `Uncounted` when it was skipped or failed.
   */
  datatype Try = Break | Counted | Uncounted

  /** A drawn action count and what each pass of its loop observes. */
  datatype Draw = Draw(drawn: int, tries: nat -> Try)

  /**
   * What opening a user page gives: `Unopened` when opening or navigating to
   * it raised (outside the loading check, so the exception ends the run),
   * `PageFailed` when it did not load properly (the target is skipped), or
   * what the loaded page shows.
   */
  datatype Visit =
    | Unopened
    | PageFailed
    | Loaded(followed: bool, postCount: nat, likes: Draw, reposts: Draw, comments: Draw)

  /** One pass of the target loop. */
  datatype Step =
    | Halted            // the stop flag was read at the head of the pass
    | NameFailed        // empty name, no link, or an exception while reading it
    | Named(visit: Visit)

  /** The job's settings: target count, the three range texts, the comment box. */
  datatype Job = Job(followCount: int, likeRange: string, repostRange: string,
                     commentRange: string, manualComments: string)

  datatype Stats = Stats(follows: nat, likes: nat, reposts: nat, comments: nat)

  /**
   * How the target loop ends. `Crashed` is an exception that reaches the
   * outer handler: the run ends with no restart request.
   */
  datatype Ending = AllDone | Stopped | Restart | Crashed | OutOfObservations

  /** The loop state: `count`, the two error counters, the targets engaged, the stats sent. */
  datatype Scan = Scan(count: nat, nameErrors: nat, nextErrors: nat, visited: seq<nat>, stats: Stats)

  function Fresh(first: nat): Scan
  {
    Scan(first, 0, 0, [], Stats(0, 0, 0, 0))
  }

  /** `len(range(min(drawn, post_count)))`. */
  function Rounds(drawn: int, postCount: nat): (n: nat)
    ensures n <= postCount && n <= if drawn < 0 then 0 else drawn
    ensures n == postCount || n == drawn || (drawn <= 0 && n == 0)
  {
    if drawn <= 0 then 0 else if drawn < postCount then drawn else postCount
  }

  /** Passes a loop completes from pass `k` on, before a `Break` or the limit. */
  function Completed(tries: nat -> Try, k: nat, limit: nat): (r: nat)
    requires k <= limit
    ensures k <= r <= limit
    ensures forall j | k <= j < r :: tries(j) != Break
    ensures r < limit ==> tries(r) == Break
    decreases limit - k
  {
    if k == limit || tries(k) == Break then k else Completed(tries, k + 1, limit)
  }

  /** Actions counted in the first `n` passes. */
  function Performed(tries: nat -> Try, n: nat): (r: nat)
    ensures r <= n
  {
    if n == 0 then 0 else Performed(tries, n - 1) + (if tries(n - 1) == Counted then 1 else 0)
  }

  /** Actions a like or repost loop reports. */
  function Gained(d: Draw, postCount: nat): (r: nat)
    ensures r <= Rounds(d.drawn, postCount)
  {
    Performed(d.tries, Completed(d.tries, 0, Rounds(d.drawn, postCount)))
  }

  /**
   * The like and repost loops: at most `min(drawn, post_count)` passes, each
   * ending the loop when the stop flag is read.
   */
  method Engage(d: Draw, postCount: nat) returns (performed: nat, rounds: nat)
    ensures rounds == Completed(d.tries, 0, Rounds(d.drawn, postCount))
    ensures performed == Performed(d.tries, rounds)
  {
    var limit := Rounds(d.drawn, postCount);
    performed, rounds := 0, 0;
    while rounds < limit
      invariant rounds <= limit
      invariant Completed(d.tries, rounds, limit) == Completed(d.tries, 0, limit)
      invariant performed == Performed(d.tries, rounds)
    {
      var t := d.tries(rounds);
      if t == Break {
        break;
      }
      if t == Counted {
        performed := performed + 1;
      }
      rounds := rounds + 1;
    }
  }

  /**
   * The comment loop: like `Engage`, but each pass first picks a comment and
   * the loop ends when there is none, so a blank comment box means no pass.
   */
  method CommentLoop(d: Draw, postCount: nat, text: string) returns (performed: nat, rounds: nat)
    ensures AllSpace(text) ==> rounds == 0 && performed == 0
    ensures !AllSpace(text) ==> rounds == Completed(d.tries, 0, Rounds(d.drawn, postCount))
    ensures performed == Performed(d.tries, rounds)
  {
    var limit := Rounds(d.drawn, postCount);
    performed, rounds := 0, 0;
    while rounds < limit
      invariant rounds <= limit
      invariant !AllSpace(text) ==> Completed(d.tries, rounds, limit) == Completed(d.tries, 0, limit)
      invariant AllSpace(text) ==> rounds == 0
      invariant performed == Performed(d.tries, rounds)
    {
      var t := d.tries(rounds);
      if t == Break {
        break;
      }
      var comment := PickComment(text);
      if comment.None? {
        break;
      }
      if t == Counted {
        performed := performed + 1;
      }
      rounds := rounds + 1;
    }
  }

  /** Comments reported on one user page. */
  function CommentsGained(d: Draw, postCount: nat, text: string): (r: nat)
    ensures AllSpace(text) ==> r == 0
    ensures r <= Rounds(d.drawn, postCount)
  {
    if AllSpace(text) then 0 else Gained(d, postCount)
  }

  /** `random.randint(lo, hi)` raises when the parsed range is inverted. */
  predicate Inverted(range: (int, int))
  {
    range.0 > range.1
  }

  /**
   * What one loaded user page adds to the stats, and whether a draw raised
   * (which ends the whole run). Nothing is drawn when the user has no posts.
   */
  function Gains(job: Job, v: Visit): (r: (Stats, bool))
    requires v.Loaded?
    ensures r.0.follows == if v.followed then 1 else 0
    ensures r.0.likes <= v.postCount && r.0.reposts <= v.postCount && r.0.comments <= v.postCount
    ensures v.postCount == 0 ==> r == (Stats(r.0.follows, 0, 0, 0), false)
    ensures AllSpace(job.manualComments) ==> r.0.comments == 0
    ensures r.1 <==> (v.postCount > 0 && (Inverted(ParseRangeDash(job.likeRange))
      || Inverted(ParseRangeDash(job.repostRange)) || Inverted(ParseRangeDash(job.commentRange))))
  {
    var follows := if v.followed then 1 else 0;
    if v.postCount == 0 then (Stats(follows, 0, 0, 0), false)
    else if Inverted(ParseRangeDash(job.likeRange)) then (Stats(follows, 0, 0, 0), true)
    else
      var likes := Gained(v.likes, v.postCount);
      if Inverted(ParseRangeDash(job.repostRange)) then (Stats(follows, likes, 0, 0), true)
      else
        var reposts := Gained(v.reposts, v.postCount);
        if Inverted(ParseRangeDash(job.commentRange)) then (Stats(follows, likes, reposts, 0), true)
        else (Stats(follows, likes, reposts, CommentsGained(v.comments, v.postCount, job.manualComments)), false)
  }

  function Add(a: Stats, b: Stats): Stats
  {
    Stats(a.follows + b.follows, a.likes + b.likes, a.reposts + b.reposts, a.comments + b.comments)
  }

  /** One pass of the target loop: the new state, and the ending when the pass ends the loop. */
  function Pass(job: Job, s: Scan, step: Step): (Scan, Option<Ending>)
  {
    match step
    case Halted => (s, Some(Stopped))
    case NameFailed =>
      if s.nameErrors + 1 < MaxError then (s.(nameErrors := s.nameErrors + 1), None)
      else
        var s' := s.(count := s.count + 1, nameErrors := 0, nextErrors := s.nextErrors + 1);
        (s', if s'.nextErrors >= MaxError then Some(Restart) else None)
    case Named(Unopened) => (s.(nameErrors := 0), Some(Crashed))
    case Named(PageFailed) => (s.(nameErrors := 0), None)
    case Named(v) =>
      var g := Gains(job, v);
      var s' := s.(nameErrors := 0, visited := s.visited + [s.count], stats := Add(s.stats, g.0));
      if g.1 then (s', Some(Crashed)) else (s'.(count := s.count + 1), None)
  }

  /** The target loop from pass `i` on, as a function of the observations. */
  function ScanFrom(job: Job, obs: seq<Step>, i: nat, s: Scan): (Scan, Ending)
    requires i <= |obs|
    decreases |obs| - i
  {
    if s.count > job.followCount then (s, AllDone)
    else if i == |obs| then (s, OutOfObservations)
    else
      var p := Pass(job, s, obs[i]);
      if p.1.Some? then (p.0, p.1.value) else ScanFrom(job, obs, i + 1, p.0)
  }

  /** Targets engaged in strictly increasing order, all in `[lo, hi)`. */
  predicate Ascending(visited: seq<nat>, lo: int, hi: int)
  {
    (forall k | 0 <= k < |visited| :: lo <= visited[k] < hi)
    && (forall j, k | 0 <= j < k < |visited| :: visited[j] < visited[k])
  }

  /**
   * The counters' invariant at the head of the target loop started at `first`:
   * each error counter below three, and `count` advanced once per engaged or
   * skipped target.
   */
  predicate Counting(s: Scan, first: nat)
  {
    s.nameErrors < MaxError && s.nextErrors < MaxError
    && s.count == first + |s.visited| + s.nextErrors
  }

  /** One pass keeps the counters' invariant, or ends the loop with the counters as stated. */
  lemma PassCounting(job: Job, s: Scan, step: Step, first: nat)
    requires Counting(s, first)
    ensures var p := Pass(job, s, step);
      && s.nextErrors <= p.0.nextErrors && s.count <= p.0.count <= s.count + 1
      && (p.1.None? ==> Counting(p.0, first))
      && (p.1 == Some(Restart) <==> p.0.nextErrors == MaxError)
      && (p.1 != Some(Restart) ==> p.0.nextErrors < MaxError)
      && (p.1 != Some(Crashed) ==> p.0.count == first + |p.0.visited| + p.0.nextErrors)
      && (p.1 == Some(Crashed) <==>
            step.Named? && (step.visit.Unopened? || (step.visit.Loaded? && Gains(job, step.visit).1)))
      && (p.1 == Some(Crashed) ==> p.0.nameErrors == 0 && p.0.nextErrors == s.nextErrors)
  {
  }

  /**
   * The error escalation over a whole run: the restart is requested exactly
   * when the second-stage counter reaches three, that counter is never reset,
   * `count` never goes back, and a run that completes stops right after target
   * `follow_count`.
   */
  lemma {:induction false} ScanCounting(job: Job, obs: seq<Step>, i: nat, s: Scan, first: nat)
    requires i <= |obs| && Counting(s, first)
    ensures var r := ScanFrom(job, obs, i, s);
      && (r.1 == Restart <==> r.0.nextErrors == MaxError)
      && (r.1 != Restart ==> r.0.nextErrors < MaxError)
      && s.nextErrors <= r.0.nextErrors
      && s.count <= r.0.count
      && (r.1 != Crashed ==> r.0.count == first + |r.0.visited| + r.0.nextErrors)
      && (r.1 == Crashed ==> r.0.nameErrors == 0 && r.0.nextErrors < MaxError)
      && (r.1 == AllDone ==> job.followCount < r.0.count && (s.count <= job.followCount + 1 ==> r.0.count == job.followCount + 1))
      && (s.count <= job.followCount + 1 ==> r.0.count <= job.followCount + 1)
    decreases |obs| - i
  {
    if s.count <= job.followCount && i < |obs| {
      var p := Pass(job, s, obs[i]);
      PassCounting(job, s, obs[i], first);
      if p.1.None? {
        ScanCounting(job, obs, i + 1, p.0, first);
      }
    }
  }

  /** The engaged targets at the head of the loop: in order, below `count` and `hi`, a follow at most each. */
  predicate Engaged(s: Scan, first: nat, hi: int)
  {
    first <= s.count && Ascending(s.visited, first, s.count) && Ascending(s.visited, first, hi)
    && s.stats.follows <= |s.visited|
  }

  lemma PassEngaged(job: Job, s: Scan, step: Step, first: nat)
    requires s.count <= job.followCount && Engaged(s, first, job.followCount + 1)
    ensures var p := Pass(job, s, step);
      && |s.visited| <= |p.0.visited| && p.0.visited[..|s.visited|] == s.visited
      && p.0.stats.follows <= |p.0.visited|
      && Ascending(p.0.visited, first, job.followCount + 1)
      && (p.1.None? ==> Engaged(p.0, first, job.followCount + 1))
  {
    var p := Pass(job, s, step);
    if step.Named? && step.visit.Loaded? {
      var g := Gains(job, step.visit);
      assert p.0.visited == s.visited + [s.count];
      assert p.0.stats.follows == s.stats.follows + g.0.follows;
      assert p.0.visited[..|s.visited|] == s.visited;
      AscendingAppend(s.visited, first, s.count, job.followCount + 1);
    } else {
      assert p.0.visited == s.visited && p.0.stats == s.stats;
    }
  }

  lemma AscendingAppend(visited: seq<nat>, lo: nat, x: nat, hi: int)
    requires Ascending(visited, lo, x) && lo <= x < hi
    ensures Ascending(visited + [x], lo, hi) && Ascending(visited + [x], lo, x + 1)
  {
  }

  /**
   * The targets a run engages: each between the first target and
   * `follow_count`, each once and in order, with at most one follow each.
   */
  lemma {:induction false} ScanEngaged(job: Job, obs: seq<Step>, i: nat, s: Scan, first: nat)
    requires i <= |obs| && Engaged(s, first, job.followCount + 1)
    ensures var r := ScanFrom(job, obs, i, s);
      && r.0.stats.follows <= |r.0.visited|
      && |s.visited| <= |r.0.visited| && r.0.visited[..|s.visited|] == s.visited
      && Ascending(r.0.visited, first, job.followCount + 1)
    decreases |obs| - i
  {
    var r := ScanFrom(job, obs, i, s);
    if s.count > job.followCount || i == |obs| {
      assert s.visited[..|s.visited|] == s.visited;
    } else {
      var p := Pass(job, s, obs[i]);
      PassEngaged(job, s, obs[i], first);
      if p.1.None? {
        ScanEngaged(job, obs, i + 1, p.0, first);
        assert r.0.visited[..|s.visited|] == r.0.visited[..|p.0.visited|][..|s.visited|];
      }
    }
  }

  /**
   * The job as the worker runs it, over the worker object's two error counters
   * (`username_error_count`, `next_error_count`).
   */
  class SahariWorker {
    const job: Job
    /** The target a restarted job was asked to resume from. */
    const startIndex: int
    var usernameErrorCount: nat
    var nextErrorCount: nat

    constructor(job: Job, startIndex: int)
      ensures this.job == job && this.startIndex == startIndex
      ensures usernameErrorCount == 0 && nextErrorCount == 0
    {
      this.job := job;
      this.startIndex := startIndex;
      usernameErrorCount := 0;
      nextErrorCount := 0;
    }

    /** The engagement on one loaded user page, in the source's order. */
    method VisitTarget(v: Visit) returns (gain: Stats, crashed: bool)
      requires v.Loaded?
      ensures (gain, crashed) == Gains(job, v)
    {
      var follows := if v.followed then 1 else 0;
      gain := Stats(follows, 0, 0, 0);
      crashed := false;
      if v.postCount > 0 {
        if Inverted(ParseRangeDash(job.likeRange)) {
          return gain, true;
        }
        var likes, likeRounds := Engage(v.likes, v.postCount);
        gain := gain.(likes := likes);
        if Inverted(ParseRangeDash(job.repostRange)) {
          return gain, true;
        }
        var reposts, repostRounds := Engage(v.reposts, v.postCount);
        gain := gain.(reposts := reposts);
        if Inverted(ParseRangeDash(job.commentRange)) {
          return gain, true;
        }
        var comments, commentRounds := CommentLoop(v.comments, v.postCount, job.manualComments);
        gain := gain.(comments := comments);
      }
    }

    /** The target loop of `run_playwright`, from target `first`. */
    method ScanTargets(first: nat, obs: seq<Step>)
      returns (ending: Ending, count: nat, visited: seq<nat>, stats: Stats)
      modifies this
      ensures (Scan(count, usernameErrorCount, nextErrorCount, visited, stats), ending)
        == ScanFrom(job, obs, 0, Fresh(first))
    {
      count, visited, stats := first, [], Stats(0, 0, 0, 0);
      usernameErrorCount, nextErrorCount := 0, 0;
      var i := 0;
      while count <= job.followCount && i < |obs|
        invariant i <= |obs|
        invariant ScanFrom(job, obs, i, Scan(count, usernameErrorCount, nextErrorCount, visited, stats))
          == ScanFrom(job, obs, 0, Fresh(first))
        decreases |obs| - i
      {
        var stop;
        count, visited, stats, stop := TakePass(obs[i], count, visited, stats);
        if stop.Some? {
          return stop.value, count, visited, stats;
        }
        i := i + 1;
      }
      ending := if count > job.followCount then AllDone else OutOfObservations;
    }

    /** One pass of the target loop, on the worker's two error counters. */
    method TakePass(step: Step, count: nat, visited: seq<nat>, stats: Stats)
      returns (count': nat, visited': seq<nat>, stats': Stats, stop: Option<Ending>)
      modifies this
      ensures (Scan(count', usernameErrorCount, nextErrorCount, visited', stats'), stop)
        == Pass(job, Scan(count, old(usernameErrorCount), old(nextErrorCount), visited, stats), step)
    {
      count', visited', stats', stop := count, visited, stats, None;
      match step {
        case Halted =>
          stop := Some(Stopped);
        case NameFailed =>
          usernameErrorCount := usernameErrorCount + 1;
          if usernameErrorCount >= MaxError {
            count' := count + 1;
            usernameErrorCount := 0;
            nextErrorCount := nextErrorCount + 1;
            if nextErrorCount >= MaxError {
              stop := Some(Restart);
            }
          }
        case Named(v) =>
          usernameErrorCount := 0;
          if v.Unopened? {
            stop := Some(Crashed);
          } else if v.Loaded? {
            var gain, crashed := VisitTarget(v);
            visited' := visited + [count];
            stats' := Add(stats, gain);
            if crashed {
              stop := Some(Crashed);
            } else {
              count' := count + 1;
            }
          }
      }
    }

    /**
     * `run_playwright` as written: the scan starts at target 1 whatever
     * `start_index` says; a restart is requested (with the current `count`)
     * only if the job was not stopped in the meantime.
     */
    method RunPlaywright(obs: seq<Step>, stillRunning: bool) returns (ending: Ending, retryAt: Option<nat>)
      modifies this
      ensures var r := ScanFrom(job, obs, 0, Fresh(1));
        && ending == r.1 && usernameErrorCount == r.0.nameErrors && nextErrorCount == r.0.nextErrors
        && retryAt == if ending == Restart && stillRunning then Some(r.0.count) else None
    {
      var count, visited, stats;
      ending, count, visited, stats := ScanTargets(1, obs);
      retryAt := if ending == Restart && stillRunning then Some(count) else None;
    }

    /** `run_playwright` resuming at `start_index`, as the restart request intends. */
    method RunPlaywrightResuming(obs: seq<Step>, stillRunning: bool) returns (ending: Ending, retryAt: Option<nat>)
      modifies this
      ensures var r := ScanFrom(job, obs, 0, Fresh(FirstTarget(startIndex)));
        && ending == r.1 && usernameErrorCount == r.0.nameErrors && nextErrorCount == r.0.nextErrors
        && retryAt == if ending == Restart && stillRunning then Some(r.0.count) else None
    {
      var count, visited, stats;
      ending, count, visited, stats := ScanTargets(FirstTarget(startIndex), obs);
      retryAt := if ending == Restart && stillRunning then Some(count) else None;
    }
  }

  /** The first target of a resumed scan; targets are numbered from 1. */
  function FirstTarget(startIndex: int): (first: nat)
    ensures first >= 1 && (startIndex >= 1 ==> first == startIndex)
  {
    if startIndex < 1 then 1 else startIndex
  }

  /**
   * As written, a restarted job engages target 1 again: with a loadable first
   * target, the scan's first engaged target is 1 even when the restart asked
   * to resume at `startIndex > 1`.
   */
  lemma RestartRescansFirstTarget(job: Job, v: Visit)
    requires job.followCount >= 1 && v.Loaded?
    ensures var r := ScanFrom(job, [Named(v)], 0, Fresh(1));
      |r.0.visited| == 1 && r.0.visited[0] == 1
  {
  }

  /**
   * Resuming at `start_index` engages no target before it, and none after
   * `follow_count`; a restart requested from a resumed run resumes further on.
   */
  lemma ResumedScanSkipsDone(job: Job, obs: seq<Step>, startIndex: int)
    ensures var first := FirstTarget(startIndex);
      var r := ScanFrom(job, obs, 0, Fresh(first));
      && (forall k | 0 <= k < |r.0.visited| :: first <= r.0.visited[k] <= job.followCount)
      && (r.1 == Restart ==> r.0.count > first)
  {
    var first := FirstTarget(startIndex);
    ScanCounting(job, obs, 0, Fresh(first), first);
    ScanEngaged(job, obs, 0, Fresh(first), first);
  }
}
