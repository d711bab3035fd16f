/**
 * The posting campaign (`ParallelWorker`): for every selected post, run its
 * remaining repetitions; each repetition lets every checked account attempt
 * the post (one by one, or in groups of `concurrent_limit`), saves the
 * repetition's progress, writes the URLs collected for the post to a new
 * spreadsheet and forgets them; a post whose repetitions all ran without a
 * stop is marked completed and its progress reset.
 *
 * The stop flag is modelled by counting its reads: `polls` reads have been
 * made, and the flag reads "running" exactly while `polls < stopAfter`.
 */
module Campaign {
  import opened Wrappers
  import opened ThreadsApi
  import opened AccountAttempt
  import opened AccountGroups
  import FileNames
  import PyText

  /** `concurrent_limit`: 1 selects the one-by-one path. */
  type Limit = n: int | n >= 1 witness 1

  datatype Settings = Settings(concurrentLimit: Limit, repeatInterval: int)

  /** What the worker reports to the main window about a post, one constructor per Qt signal. */
  datatype Signal =
    | SaveProgress(postIndex: nat, progress: int)   // `save_posts_data`
    | StatusUpdate(postIndex: nat, status: string)  // `post_status_update`
    | StatusShown(postIndex: nat, status: string)   // `post_status_updated`

  /** The post's status while repetition `rep` of `count` runs: "<rep+1>/<count> 진행 중". */
  function InProgressText(rep: int, count: int): (t: string)
    ensures |t| > |Done|
  {
    PyText.ShowInt(rep + 1) + "/" + PyText.ShowInt(count) + " 진행 중"
  }

  /** The post's status after repetition `rep` of `count`: "<rep+1>/<count> 완료". */
  function RoundText(rep: int, count: int): (t: string)
    ensures |t| > |Done|
  {
    PyText.ShowInt(rep + 1) + "/" + PyText.ShowInt(count) + " " + Done
  }

  /** The signals of one repetition: the in-progress status, the progress `rep + 1`, the round's status. */
  function Round(postIndex: nat, rep: int, count: int): (r: seq<Signal>)
    ensures forall x | x in r :: x.postIndex == postIndex && !x.StatusUpdate? && (x.StatusShown? ==> x.status != Done)
  {
    [StatusShown(postIndex, InProgressText(rep, count)), SaveProgress(postIndex, rep + 1),
     StatusShown(postIndex, RoundText(rep, count))]
  }

  /** The signals mark the post completed: they hold its status update to "완료". */
  predicate MarkedCompleted(signals: seq<Signal>, postIndex: nat)
  {
    StatusUpdate(postIndex, Done) in signals
  }

  /** The signals of a post's completion: status "완료" (progress reset), progress 0, the shown "완료". */
  function Completion(postIndex: nat): seq<Signal>
  {
    [StatusUpdate(postIndex, Done), SaveProgress(postIndex, 0), StatusShown(postIndex, Done)]
  }

  /**
   * How an account attempts a post (`process_single_account`), from the
   * requests made so far: the outcome and the requests made after it.
   */
  type Attempter = (seq<Effect>, Account, Post) -> (Attempted, seq<Effect>)

  /**
   * What the worker is given: how an attempt goes, when the stop arrives, the
   * settings, the checked accounts. The campaign's properties below hold
   * whatever the attempts do.
   */
  datatype Context = Context(attempt: Attempter, stopAfter: nat, settings: Settings, accounts: seq<(nat, Account)>)

  /** The attempts are those of `AccountAttempt.Attempt` against `server`, timed by `clock`. */
  ghost predicate AttemptsAgainst(ctx: Context, server: Server, clock: nat -> string)
  {
    forall log, acc, post :: ctx.attempt(log, acc, post) == Attempt(server, clock, log, acc, post)
  }

  /**
   * The worker's state: the requests made, the stop-flag reads, the URLs
   * collected per post, the data folder's spreadsheets, the signals sent, the
   * accounts' statuses and the accounts worked on, in order.
   */
  datatype Session = Session(log: seq<Effect>, polls: nat, results: map<nat, seq<Row>>,
                             files: map<string, seq<Row>>, signals: seq<Signal>,
                             statuses: map<nat, string>, attempted: seq<nat>)

  predicate Running(ctx: Context, s: Session)
  {
    s.polls < ctx.stopAfter
  }

  /** The state after one more read of the stop flag. */
  function Polled(s: Session): Session
  {
    s.(polls := s.polls + 1)
  }

  /** The URLs collected for a post so far. */
  function Rows(results: map<nat, seq<Row>>, postIndex: nat): seq<Row>
  {
    if postIndex in results then results[postIndex] else []
  }

  /** The account indices of a list of checked accounts, in order. */
  function Ids(entries: seq<(nat, Account)>): (ids: seq<nat>)
    ensures |ids| == |entries| && forall k | 0 <= k < |entries| :: ids[k] == entries[k].0
  {
    if entries == [] then [] else [entries[0].0] + Ids(entries[1..])
  }

  lemma {:induction false} IdsAppend(a: seq<(nat, Account)>, b: seq<(nat, Account)>)
    ensures Ids(a + b) == Ids(a) + Ids(b)
    decreases |a|
  {
    if a == [] {
      assert a + b == b;
    } else {
      assert (a + b)[0] == a[0];
      assert (a + b)[1..] == a[1..] + b;
      IdsAppend(a[1..], b);
      assert Ids(a + b) == [a[0].0] + (Ids(a[1..]) + Ids(b));
    }
  }

  /**
   * One account's attempt: the account's status becomes the attempt's last
   * status, and a recorded row joins the post's URLs.
   */
  function Step(ctx: Context, s: Session, post: Post, postIndex: nat, entry: (nat, Account)): Session
  {
    var (a, log1) := ctx.attempt(s.log, entry.1, post);
    s.(log := log1,
       results := if a.row.Some? then s.results[postIndex := Rows(s.results, postIndex) + [a.row.value]] else s.results,
       statuses := s.statuses[entry.0 := a.status],
       attempted := s.attempted + [entry.0])
  }

  /** The one-by-one path from account `k` on: the stop flag is read before every account. */
  function SequentialFrom(ctx: Context, s: Session, post: Post, postIndex: nat, k: nat): Session
    decreases |ctx.accounts| - k
  {
    if k >= |ctx.accounts| then s
    else if !Running(ctx, s) then Polled(s)
    else SequentialFrom(ctx, Step(ctx, Polled(s), post, postIndex, ctx.accounts[k]), post, postIndex, k + 1)
  }

  /** A group's accounts from `k` on, without reading the stop flag, in submission order. */
  function GroupFrom(ctx: Context, s: Session, post: Post, postIndex: nat, group: seq<(nat, Account)>, k: nat)
    : Session
    decreases |group| - k
  {
    if k >= |group| then s
    else GroupFrom(ctx, Step(ctx, s, post, postIndex, group[k]), post, postIndex, group, k + 1)
  }

  /** The grouped path from group `g` on: the stop flag is read before every group. */
  function ParallelFrom(ctx: Context, s: Session, post: Post, postIndex: nat, groups: seq<seq<(nat, Account)>>, g: nat)
    : Session
    decreases |groups| - g
  {
    if g >= |groups| then s
    else if !Running(ctx, s) then Polled(s)
    else ParallelFrom(ctx, GroupFrom(ctx, Polled(s), post, postIndex, groups[g], 0), post, postIndex, groups, g + 1)
  }

  /** One repetition's round of attempts, on the path the limit selects. */
  function Cycle(ctx: Context, s: Session, post: Post, postIndex: nat): Session
  {
    if ctx.settings.concurrentLimit == 1 then SequentialFrom(ctx, s, post, postIndex, 0)
    else ParallelFrom(ctx, s, post, postIndex, Groups(ctx.accounts, ctx.settings.concurrentLimit), 0)
  }

  /** `save_post_results_to_excel`, the spreadsheet write itself taken to succeed. */
  function Export(s: Session, post: Post, postIndex: nat): Session
  {
    var rows := Rows(s.results, postIndex);
    if rows == [] then s
    else
      match FileNames.FreeName(FileNames.ExportTitle(post.title, postIndex), s.files.Keys, 0)
      case None => s
      case Some(name) => s.(files := s.files[name := rows], results := s.results - {postIndex})
  }

  /**
   * With URLs collected for the post and a free file name among the first 100
   * candidates, a new spreadsheet holding exactly those URLs is added to the
   * data folder and they are forgotten; otherwise nothing changes. No existing
   * spreadsheet is ever overwritten, and nothing but the folder and the URLs
   * changes.
   */
  lemma ExportWrites(s: Session, post: Post, postIndex: nat)
    ensures var r := Export(s, post, postIndex);
      && r.log == s.log && r.polls == s.polls && r.signals == s.signals
      && r.statuses == s.statuses && r.attempted == s.attempted
      && (forall f | f in s.files :: f in r.files && r.files[f] == s.files[f])
      && (r.files.Keys != s.files.Keys <==>
            Rows(s.results, postIndex) != [] && FileNames.FreeName(FileNames.ExportTitle(post.title, postIndex), s.files.Keys, 0).Some?)
      && (r.files.Keys != s.files.Keys ==>
            var name := FileNames.FreeName(FileNames.ExportTitle(post.title, postIndex), s.files.Keys, 0).value;
            && name !in s.files
            && r.files == s.files[name := Rows(s.results, postIndex)]
            && r.files.Keys == s.files.Keys + {name}
            && postIndex !in r.results)
      && (r.files.Keys == s.files.Keys ==> r == s)
  {
    FreeNameIsFree(FileNames.ExportTitle(post.title, postIndex), s.files.Keys, 0);
  }

  lemma {:induction false} FreeNameIsFree(stem: string, existing: set<string>, k: nat)
    ensures FileNames.FreeName(stem, existing, k).Some? ==> FileNames.FreeName(stem, existing, k).value !in existing
    decreases FileNames.MaxAttempts - k
  {
    if k < FileNames.MaxAttempts && FileNames.Candidate(stem, k) in existing {
      FreeNameIsFree(stem, existing, k + 1);
    }
  }

  /** One repetition: `repeat_count` is 1 unless a repeat interval is set. */
  function RepeatCount(settings: Settings, post: Post): int
  {
    if settings.repeatInterval == 0 then 1 else post.repeatCount
  }

  /**
   * One repetition after its stop-flag read: the in-progress status, the
   * round of attempts, the progress `rep + 1` and the round's status (even
   * when the stop arrived during the round), the post's URLs exported and
   * then forgotten.
   */
  function Repetition(ctx: Context, s: Session, post: Post, postIndex: nat, rep: int, count: int): Session
  {
    var c := Cycle(ctx, s.(signals := s.signals + [StatusShown(postIndex, InProgressText(rep, count))]), post, postIndex);
    var e := Export(c.(signals := c.signals + [SaveProgress(postIndex, rep + 1), StatusShown(postIndex, RoundText(rep, count))]),
                    post, postIndex);
    e.(results := e.results - {postIndex})
  }

  /** Repetitions `rep` .. `count - 1`, the stop flag read before each. */
  function Cycles(ctx: Context, s: Session, post: Post, postIndex: nat, rep: int, count: int): Session
    decreases count - rep
  {
    if rep >= count then s
    else if !Running(ctx, s) then Polled(s)
    else Cycles(ctx, Repetition(ctx, Polled(s), post, postIndex, rep, count), post, postIndex, rep + 1, count)
  }

  /** A post's run: its remaining repetitions, then, if still running, completed with its progress reset. */
  function PostRun(ctx: Context, s: Session, post: Post, postIndex: nat): Session
  {
    var c := Cycles(ctx, s, post, postIndex, post.repeatProgress, RepeatCount(ctx.settings, post));
    if Running(ctx, c) then
      Polled(c).(signals := c.signals + Completion(postIndex))
    else Polled(c)
  }

  /** The posts from `i` on, the stop flag read before each. */
  function RunFrom(ctx: Context, s: Session, posts: seq<(nat, Post)>, i: nat): Session
    decreases |posts| - i
  {
    if i >= |posts| then s
    else if !Running(ctx, s) then Polled(s)
    else RunFrom(ctx, PostRun(ctx, Polled(s), posts[i].1, posts[i].0), posts, i + 1)
  }

  /** The signals of repetitions `from` .. `until - 1` of `count`. */
  function Progress(postIndex: nat, from: int, until: int, count: int): (r: seq<Signal>)
    decreases until - from
    ensures forall x | x in r :: x.postIndex == postIndex && !x.StatusUpdate? && (x.StatusShown? ==> x.status != Done)
  {
    if from >= until then [] else Round(postIndex, from, count) + Progress(postIndex, from + 1, until, count)
  }

  function Max(a: int, b: int): int
  {
    if a >= b then a else b
  }

  /** An attempt reads no stop flag, sends no signal, writes no file, and records its account. */
  lemma StepFrame(ctx: Context, s: Session, post: Post, postIndex: nat, entry: (nat, Account))
    ensures var r := Step(ctx, s, post, postIndex, entry);
      && r.polls == s.polls && r.signals == s.signals && r.files == s.files
      && r.attempted == s.attempted + [entry.0]
  {
  }

  /** A group's attempts read no stop flag, send no signal, write no file, and take its accounts in order. */
  lemma {:induction false} GroupAttempts(ctx: Context, s: Session, post: Post, postIndex: nat,
                                         group: seq<(nat, Account)>, k: nat)
    requires k <= |group|
    ensures var r := GroupFrom(ctx, s, post, postIndex, group, k);
      && r.polls == s.polls && r.signals == s.signals && r.files == s.files
      && r.attempted == s.attempted + Ids(group[k..])
    decreases |group| - k
  {
    if k < |group| {
      var s1 := Step(ctx, s, post, postIndex, group[k]);
      StepFrame(ctx, s, post, postIndex, group[k]);
      GroupAttempts(ctx, s1, post, postIndex, group, k + 1);
      assert GroupFrom(ctx, s, post, postIndex, group, k) == GroupFrom(ctx, s1, post, postIndex, group, k + 1);
      assert group[k..][1..] == group[k + 1..];
      assert Ids(group[k..]) == [group[k].0] + Ids(group[k + 1..]);
      assert s1.attempted + Ids(group[k + 1..]) == s.attempted + Ids(group[k..]);
    } else {
      assert s.attempted + [] == s.attempted;
    }
  }

  /** The grouped path sends no signal and writes no file, and reads the stop flag at least as often as before. */
  lemma {:induction false} ParallelFrame(ctx: Context, s: Session, post: Post, postIndex: nat,
                                         groups: seq<seq<(nat, Account)>>, g: nat)
    ensures var r := ParallelFrom(ctx, s, post, postIndex, groups, g);
      r.polls >= s.polls && r.signals == s.signals && r.files == s.files
    decreases |groups| - g
  {
    if g < |groups| && Running(ctx, s) {
      GroupAttempts(ctx, Polled(s), post, postIndex, groups[g], 0);
      ParallelFrame(ctx, GroupFrom(ctx, Polled(s), post, postIndex, groups[g], 0), post, postIndex, groups, g + 1);
    }
  }

  /** `after` is `before` followed by a prefix of `all`. */
  predicate Extends(before: seq<nat>, after: seq<nat>, all: seq<nat>)
  {
    |before| <= |after| <= |before| + |all| && after == before + all[..|after| - |before|]
  }

  lemma ExtendsChain(before: seq<nat>, head: seq<nat>, after: seq<nat>, tail: seq<nat>)
    requires Extends(before + head, after, tail)
    ensures Extends(before, after, head + tail)
  {
    var k := |after| - |before + head|;
    assert (head + tail)[..|head| + k] == head + tail[..k];
  }

  /**
   * On the grouped path the accounts worked on are, in order, a prefix of the
   * groups' accounts, and all of them exactly when no stop was seen.
   */
  lemma {:induction false} ParallelAttempts(ctx: Context, s: Session, post: Post, postIndex: nat,
                                            groups: seq<seq<(nat, Account)>>, g: nat)
    requires g <= |groups|
    requires forall group | group in groups :: group != []
    requires s.polls <= ctx.stopAfter
    ensures var r := ParallelFrom(ctx, s, post, postIndex, groups, g);
      var all := Ids(Flatten(groups[g..]));
      && Extends(s.attempted, r.attempted, all)
      && (|r.attempted| == |s.attempted| + |all| <==> r.polls <= ctx.stopAfter)
    decreases |groups| - g
  {
    if g == |groups| {
      assert s.attempted + [] == s.attempted;
    } else {
      var rest := Flatten(groups[g + 1..]);
      assert groups[g..][1..] == groups[g + 1..];
      assert Flatten(groups[g..]) == groups[g] + rest;
      IdsAppend(groups[g], rest);
      assert groups[g] in groups;
      if Running(ctx, s) {
        ParallelAttemptsStep(ctx, s, post, postIndex, groups, g);
      } else {
        assert s.attempted + [] == s.attempted;
      }
    }
  }

  lemma {:induction false} ParallelAttemptsStep(ctx: Context, s: Session, post: Post, postIndex: nat,
                                                groups: seq<seq<(nat, Account)>>, g: nat)
    requires g < |groups|
    requires forall group | group in groups :: group != []
    requires s.polls < ctx.stopAfter
    ensures var r := ParallelFrom(ctx, s, post, postIndex, groups, g);
      var all := Ids(groups[g]) + Ids(Flatten(groups[g + 1..]));
      && Extends(s.attempted, r.attempted, all)
      && (|r.attempted| == |s.attempted| + |all| <==> r.polls <= ctx.stopAfter)
    decreases |groups| - g, 0
  {
    var s1 := GroupFrom(ctx, Polled(s), post, postIndex, groups[g], 0);
    GroupAttempts(ctx, Polled(s), post, postIndex, groups[g], 0);
    assert groups[g][0..] == groups[g];
    ParallelAttempts(ctx, s1, post, postIndex, groups, g + 1);
    ExtendsChain(s.attempted, Ids(groups[g]), ParallelFrom(ctx, s1, post, postIndex, groups, g + 1).attempted,
                 Ids(Flatten(groups[g + 1..])));
  }

  /** With groups of one, the grouped path is the one-by-one path. */
  lemma {:induction false} SequentialIsGroupsOfOne(ctx: Context, s: Session, post: Post, postIndex: nat, k: nat)
    requires k <= |ctx.accounts|
    ensures SequentialFrom(ctx, s, post, postIndex, k) == ParallelFrom(ctx, s, post, postIndex, Groups(ctx.accounts, 1), k)
    decreases |ctx.accounts| - k
  {
    GroupsOfOne(ctx.accounts);
    var groups := Groups(ctx.accounts, 1);
    if k < |ctx.accounts| && Running(ctx, s) {
      assert groups[k] == [ctx.accounts[k]];
      var s1 := Step(ctx, Polled(s), post, postIndex, ctx.accounts[k]);
      GroupOfOne(ctx, Polled(s), post, postIndex, ctx.accounts[k]);
      SequentialIsGroupsOfOne(ctx, s1, post, postIndex, k + 1);
      assert SequentialFrom(ctx, s, post, postIndex, k) == SequentialFrom(ctx, s1, post, postIndex, k + 1);
      assert ParallelFrom(ctx, s, post, postIndex, groups, k) == ParallelFrom(ctx, s1, post, postIndex, groups, k + 1);
    }
  }

  lemma GroupOfOne(ctx: Context, s: Session, post: Post, postIndex: nat, entry: (nat, Account))
    ensures GroupFrom(ctx, s, post, postIndex, [entry], 0) == Step(ctx, s, post, postIndex, entry)
  {
    assert GroupFrom(ctx, s, post, postIndex, [entry], 0)
        == GroupFrom(ctx, Step(ctx, s, post, postIndex, entry), post, postIndex, [entry], 1);
  }

  /** A repetition's round sends no signal and writes no file. */
  lemma CycleFrame(ctx: Context, s: Session, post: Post, postIndex: nat)
    ensures var r := Cycle(ctx, s, post, postIndex);
      r.polls >= s.polls && r.signals == s.signals && r.files == s.files
  {
    if ctx.settings.concurrentLimit == 1 {
      SequentialIsGroupsOfOne(ctx, s, post, postIndex, 0);
    }
    ParallelFrame(ctx, s, post, postIndex, Groups(ctx.accounts, ctx.settings.concurrentLimit), 0);
  }

  /**
   * The accounts a repetition's round works on are, in order, a prefix of the
   * checked accounts, and all of them exactly when no stop was seen.
   */
  lemma CycleAttempts(ctx: Context, s: Session, post: Post, postIndex: nat)
    requires s.polls <= ctx.stopAfter
    ensures var r := Cycle(ctx, s, post, postIndex);
      && Extends(s.attempted, r.attempted, Ids(ctx.accounts))
      && (r.attempted == s.attempted + Ids(ctx.accounts) <==> r.polls <= ctx.stopAfter)
  {
    var limit := ctx.settings.concurrentLimit;
    var groups := Groups(ctx.accounts, limit);
    if limit == 1 {
      SequentialIsGroupsOfOne(ctx, s, post, postIndex, 0);
    }
    GroupsPartition(ctx.accounts, limit);
    assert groups[0..] == groups;
    ParallelAttempts(ctx, s, post, postIndex, groups, 0);
  }

  /**
   * A repetition sends exactly its round's signals, never removes a
   * spreadsheet, and leaves none of the post's URLs in memory.
   */
  lemma RepetitionFrame(ctx: Context, s: Session, post: Post, postIndex: nat, rep: int, count: int)
    ensures var r := Repetition(ctx, s, post, postIndex, rep, count);
      && r.signals == s.signals + Round(postIndex, rep, count)
      && r.polls >= s.polls
      && s.files.Keys <= r.files.Keys
      && postIndex !in r.results
  {
    var first := [StatusShown(postIndex, InProgressText(rep, count))];
    var rest := [SaveProgress(postIndex, rep + 1), StatusShown(postIndex, RoundText(rep, count))];
    var s0 := s.(signals := s.signals + first);
    var c := Cycle(ctx, s0, post, postIndex);
    CycleFrame(ctx, s0, post, postIndex);
    ExportWrites(c.(signals := c.signals + rest), post, postIndex);
    assert s.signals + first + rest == s.signals + Round(postIndex, rep, count);
  }

  /** The repetitions never unread the stop flag and never remove a spreadsheet. */
  lemma {:induction false} CyclesFrame(ctx: Context, s: Session, post: Post, postIndex: nat, rep: int, count: int)
    ensures var r := Cycles(ctx, s, post, postIndex, rep, count);
      r.polls >= s.polls && s.files.Keys <= r.files.Keys
    decreases count - rep
  {
    if rep < count && Running(ctx, s) {
      RepetitionFrame(ctx, Polled(s), post, postIndex, rep, count);
      CyclesFrame(ctx, Repetition(ctx, Polled(s), post, postIndex, rep, count), post, postIndex, rep + 1, count);
    }
  }

  /**
   * The repetitions report their rounds in order, `rep + 1`, `rep + 2`, ...,
   * one per repetition that started, and all of them when no stop was seen;
   * they send nothing else.
   */
  lemma {:induction false} CyclesProgress(ctx: Context, s: Session, post: Post, postIndex: nat, rep: int, count: int)
    ensures var r := Cycles(ctx, s, post, postIndex, rep, count);
      exists m | rep <= m <= Max(rep, count) ::
        r.signals == s.signals + Progress(postIndex, rep, m, count) && (r.polls <= ctx.stopAfter ==> m == Max(rep, count))
    decreases count - rep
  {
    var r := Cycles(ctx, s, post, postIndex, rep, count);
    if rep >= count || !Running(ctx, s) {
      assert r.signals == s.signals + Progress(postIndex, rep, rep, count);
    } else {
      var s1 := Repetition(ctx, Polled(s), post, postIndex, rep, count);
      RepetitionFrame(ctx, Polled(s), post, postIndex, rep, count);
      CyclesProgress(ctx, s1, post, postIndex, rep + 1, count);
      var m :| rep + 1 <= m <= Max(rep + 1, count) &&
        r.signals == s1.signals + Progress(postIndex, rep + 1, m, count) &&
        (r.polls <= ctx.stopAfter ==> m == Max(rep + 1, count));
      ProgressCons(s.signals, postIndex, rep, m, count);
    }
  }

  lemma ProgressCons(before: seq<Signal>, postIndex: nat, rep: int, m: int, count: int)
    requires rep < m
    ensures before + Round(postIndex, rep, count) + Progress(postIndex, rep + 1, m, count)
            == before + Progress(postIndex, rep, m, count)
  {
  }

  /** A repetition that started leaves none of the post's URLs in memory. */
  lemma {:induction false} ResultsCleared(ctx: Context, s: Session, post: Post, postIndex: nat, rep: int, count: int)
    requires (rep < count && Running(ctx, s)) || postIndex !in s.results
    ensures postIndex !in Cycles(ctx, s, post, postIndex, rep, count).results
    decreases count - rep
  {
    if rep < count && Running(ctx, s) {
      var s1 := Repetition(ctx, Polled(s), post, postIndex, rep, count);
      RepetitionFrame(ctx, Polled(s), post, postIndex, rep, count);
      ResultsCleared(ctx, s1, post, postIndex, rep + 1, count);
      assert Cycles(ctx, s, post, postIndex, rep, count) == Cycles(ctx, s1, post, postIndex, rep + 1, count);
    }
  }

  /**
   * A post is marked completed (status "완료" sent) exactly when no stop was
   * seen during it, and then every remaining repetition reported its round
   * before the completion.
   */
  lemma PostRunOutcome(ctx: Context, s: Session, post: Post, postIndex: nat)
    ensures var r := PostRun(ctx, s, post, postIndex);
      var count := RepeatCount(ctx.settings, post);
      && r.polls > s.polls
      && |r.signals| >= |s.signals| && r.signals[..|s.signals|] == s.signals
      && (MarkedCompleted(r.signals[|s.signals|..], postIndex) <==> r.polls <= ctx.stopAfter)
      && (r.polls <= ctx.stopAfter ==>
            r.signals == s.signals + Progress(postIndex, post.repeatProgress, Max(post.repeatProgress, count), count)
                         + Completion(postIndex))
  {
    var count := RepeatCount(ctx.settings, post);
    var c := Cycles(ctx, s, post, postIndex, post.repeatProgress, count);
    CyclesFrame(ctx, s, post, postIndex, post.repeatProgress, count);
    CyclesProgress(ctx, s, post, postIndex, post.repeatProgress, count);
    var m :| post.repeatProgress <= m <= Max(post.repeatProgress, count) &&
      c.signals == s.signals + Progress(postIndex, post.repeatProgress, m, count) &&
      (c.polls <= ctx.stopAfter ==> m == Max(post.repeatProgress, count));
    PostRunSignals(ctx, s, post, postIndex, Progress(postIndex, post.repeatProgress, m, count));
  }

  lemma PostRunSignals(ctx: Context, s: Session, post: Post, postIndex: nat, rounds: seq<Signal>)
    requires forall x | x in rounds :: !x.StatusUpdate?
    requires Cycles(ctx, s, post, postIndex, post.repeatProgress, RepeatCount(ctx.settings, post)).signals == s.signals + rounds
    ensures var c := Cycles(ctx, s, post, postIndex, post.repeatProgress, RepeatCount(ctx.settings, post));
      var r := PostRun(ctx, s, post, postIndex);
      && r.polls == c.polls + 1
      && (Running(ctx, c) ==> r.signals == s.signals + rounds + Completion(postIndex))
      && (!Running(ctx, c) ==> r.signals == s.signals + rounds)
      && |r.signals| >= |s.signals| && r.signals[..|s.signals|] == s.signals
      && (MarkedCompleted(r.signals[|s.signals|..], postIndex) <==> Running(ctx, c))
  {
    var r := PostRun(ctx, s, post, postIndex);
    if Running(ctx, Cycles(ctx, s, post, postIndex, post.repeatProgress, RepeatCount(ctx.settings, post))) {
      assert r.signals[|s.signals|..] == rounds + Completion(postIndex);
      assert (rounds + Completion(postIndex))[|rounds|] == StatusUpdate(postIndex, Done);
    } else {
      assert r.signals[|s.signals|..] == rounds;
    }
  }

  /** `PostRunOutcome` without the exact signals. */
  lemma PostRunCompletes(ctx: Context, s: Session, post: Post, postIndex: nat)
    ensures var r := PostRun(ctx, s, post, postIndex);
      && r.polls > s.polls
      && |r.signals| >= |s.signals| && r.signals[..|s.signals|] == s.signals
      && (MarkedCompleted(r.signals[|s.signals|..], postIndex) <==> r.polls <= ctx.stopAfter)
  {
    PostRunOutcome(ctx, s, post, postIndex);
  }

  /** When no stop was seen, every selected post was marked completed. */
  lemma {:induction false} RunCompletesAll(ctx: Context, s: Session, posts: seq<(nat, Post)>, i: nat)
    ensures var r := RunFrom(ctx, s, posts, i);
      && r.polls >= s.polls
      && |r.signals| >= |s.signals| && r.signals[..|s.signals|] == s.signals
      && (r.polls <= ctx.stopAfter ==> forall j | i <= j < |posts| :: MarkedCompleted(r.signals, posts[j].0))
    decreases |posts| - i
  {
    if i < |posts| && Running(ctx, s) {
      var p := PostRun(ctx, Polled(s), posts[i].1, posts[i].0);
      PostRunCompletes(ctx, Polled(s), posts[i].1, posts[i].0);
      RunCompletesAll(ctx, p, posts, i + 1);
      var r := RunFrom(ctx, p, posts, i + 1);
      assert RunFrom(ctx, s, posts, i) == r;
      assert Polled(s).signals == s.signals;
      ExtendedTwice(s.signals, p.signals, r.signals, posts[i].0);
      if r.polls <= ctx.stopAfter {
        assert MarkedCompleted(p.signals[|s.signals|..], posts[i].0);
        assert forall j | i + 1 <= j < |posts| :: MarkedCompleted(r.signals, posts[j].0);
      }
    }
  }

  /** A prefix of a prefix is a prefix, and what was sent after the first is still there in the last. */
  lemma ExtendedTwice(a: seq<Signal>, b: seq<Signal>, c: seq<Signal>, postIndex: nat)
    requires |b| >= |a| && b[..|a|] == a && |c| >= |b| && c[..|b|] == b
    ensures |c| >= |a| && c[..|a|] == a
    ensures MarkedCompleted(b[|a|..], postIndex) ==> MarkedCompleted(c, postIndex)
  {
    assert c[..|a|] == c[..|b|][..|a|];
    var x := StatusUpdate(postIndex, Done);
    if x in b[|a|..] {
      var k :| |a| <= k < |b| && b[k] == x;
      assert c[k] == c[..|b|][k];
    }
  }

  /** `ParallelWorker`: the campaign's worker thread. */
  class ParallelWorker {
    const ctx: Context
    var log: seq<Effect>
    var polls: nat
    var postResults: map<nat, seq<Row>>
    var files: map<string, seq<Row>>
    var signals: seq<Signal>
    var statuses: map<nat, string>
    var attempted: seq<nat>

    function State(): Session
      reads this
    {
      Session(log, polls, postResults, files, signals, statuses, attempted)
    }

    /** A fresh worker over the data folder's spreadsheets and the accounts' statuses. */
    constructor(server: Server, clock: nat -> string, stopAfter: nat, settings: Settings, accounts: seq<(nat, Account)>,
                files: map<string, seq<Row>>, statuses: map<nat, string>)
      ensures AttemptsAgainst(ctx, server, clock)
      ensures ctx.stopAfter == stopAfter && ctx.settings == settings && ctx.accounts == accounts
      ensures State() == Session([], 0, map[], files, [], statuses, [])
    {
      this.ctx := Context((log, acc, post) => Attempt(server, clock, log, acc, post), stopAfter, settings, accounts);
      log, polls, postResults, this.files, signals, this.statuses, attempted := [], 0, map[], files, [], statuses, [];
    }

    /** A read of `is_running`. */
    method IsRunning() returns (running: bool)
      modifies this
      ensures running == Running(ctx, old(State()))
      ensures State() == Polled(old(State()))
    {
      running := polls < ctx.stopAfter;
      polls := polls + 1;
    }

    /** `process_single_account`, collecting the post's URL into `post_results`. */
    method ProcessSingleAccount(entry: (nat, Account), post: Post, postIndex: nat) returns (success: bool)
      modifies this
      ensures State() == Step(ctx, old(State()), post, postIndex, entry)
      ensures success == ctx.attempt(old(log), entry.1, post).0.success
    {
      var (a, log1) := ctx.attempt(log, entry.1, post);
      log := log1;
      if a.row.Some? {
        postResults := postResults[postIndex := Rows(postResults, postIndex) + [a.row.value]];
      }
      statuses := statuses[entry.0 := a.status];
      attempted := attempted + [entry.0];
      success := a.success;
    }

    /** The account loop of `sequential_processing`. */
    method SequentialCycle(post: Post, postIndex: nat)
      modifies this
      ensures State() == SequentialFrom(ctx, old(State()), post, postIndex, 0)
    {
      var k := 0;
      while k < |ctx.accounts|
        invariant k <= |ctx.accounts|
        invariant SequentialFrom(ctx, State(), post, postIndex, k) == SequentialFrom(ctx, old(State()), post, postIndex, 0)
      {
        var running := IsRunning();
        if !running {
          return;
        }
        var _ := ProcessSingleAccount(ctx.accounts[k], post, postIndex);
        k := k + 1;
      }
    }

    /** The accounts of one group, their results taken in submission order. */
    method RunGroup(group: seq<(nat, Account)>, post: Post, postIndex: nat)
      modifies this
      ensures State() == GroupFrom(ctx, old(State()), post, postIndex, group, 0)
    {
      var k := 0;
      while k < |group|
        invariant k <= |group|
        invariant GroupFrom(ctx, State(), post, postIndex, group, k) == GroupFrom(ctx, old(State()), post, postIndex, group, 0)
      {
        var _ := ProcessSingleAccount(group[k], post, postIndex);
        k := k + 1;
      }
    }

    /** The group loop of `parallel_processing`. */
    method ParallelCycle(post: Post, postIndex: nat)
      modifies this
      ensures State() == ParallelFrom(ctx, old(State()), post, postIndex, Groups(ctx.accounts, ctx.settings.concurrentLimit), 0)
    {
      var groups := Groups(ctx.accounts, ctx.settings.concurrentLimit);
      var g := 0;
      while g < |groups|
        invariant g <= |groups|
        invariant ParallelFrom(ctx, State(), post, postIndex, groups, g) == ParallelFrom(ctx, old(State()), post, postIndex, groups, 0)
      {
        var running := IsRunning();
        if !running {
          return;
        }
        RunGroup(groups[g], post, postIndex);
        g := g + 1;
      }
    }

    /** `save_post_results_to_excel`; the spreadsheet write itself always succeeds here. */
    method SavePostResultsToExcel(post: Post, postIndex: nat)
      modifies this
      ensures State() == Export(old(State()), post, postIndex)
    {
      if postIndex !in postResults || postResults[postIndex] == [] {
        return;
      }
      var stem := FileNames.ExportTitle(post.title, postIndex);
      var name := FileNames.ChooseExportFile(stem, files.Keys);
      if name.None? {
        return;
      }
      files := files[name.value := postResults[postIndex]];
      postResults := postResults - {postIndex};
    }

    /** One repetition's body, after its stop-flag read. */
    method RunRepetition(post: Post, postIndex: nat, rep: int, count: int)
      modifies this
      ensures State() == Repetition(ctx, old(State()), post, postIndex, rep, count)
    {
      signals := signals + [StatusShown(postIndex, InProgressText(rep, count))];
      if ctx.settings.concurrentLimit == 1 {
        SequentialCycle(post, postIndex);
      } else {
        ParallelCycle(post, postIndex);
      }
      signals := signals + [SaveProgress(postIndex, rep + 1), StatusShown(postIndex, RoundText(rep, count))];
      SavePostResultsToExcel(post, postIndex);
      postResults := postResults - {postIndex};
    }

    /** The repetition loop of `sequential_processing` / `parallel_processing`. */
    method RunRepetitions(post: Post, postIndex: nat, from: int, count: int)
      modifies this
      ensures State() == Cycles(ctx, old(State()), post, postIndex, from, count)
    {
      var rep := from;
      while rep < count
        invariant Cycles(ctx, State(), post, postIndex, rep, count) == Cycles(ctx, old(State()), post, postIndex, from, count)
        decreases count - rep
      {
        ghost var before := State();
        var running := IsRunning();
        if !running {
          return;
        }
        RunRepetition(post, postIndex, rep, count);
        assert State() == Repetition(ctx, Polled(before), post, postIndex, rep, count);
        rep := rep + 1;
      }
    }

    /** One post: its remaining repetitions, then its completion when still running. */
    method ProcessPost(post: Post, postIndex: nat)
      modifies this
      ensures State() == PostRun(ctx, old(State()), post, postIndex)
    {
      RunRepetitions(post, postIndex, post.repeatProgress, RepeatCount(ctx.settings, post));
      var running := IsRunning();
      if running {
        signals := signals + [StatusUpdate(postIndex, Done), SaveProgress(postIndex, 0), StatusShown(postIndex, Done)];
      }
    }

    /** `run`: the selected posts in order, each preceded by a read of the stop flag. */
    method Run(posts: seq<(nat, Post)>)
      modifies this
      ensures State() == RunFrom(ctx, old(State()), posts, 0)
    {
      var i := 0;
      while i < |posts|
        invariant i <= |posts|
        invariant RunFrom(ctx, State(), posts, i) == RunFrom(ctx, old(State()), posts, 0)
      {
        var running := IsRunning();
        if !running {
          return;
        }
        ProcessPost(posts[i].1, posts[i].0);
        i := i + 1;
      }
    }
  }
}
