/**
 * The main window's collections (`MultiAccountGUI`): the post list, whose
 * slots a completed post may leave empty (`None`) until the next sweep; the
 * account roster, kept at 50 entries; and the engagement statistics per
 * username. File saves and table refreshes are not modelled.
 */
module GuiStore {
  import opened Wrappers
  import opened PyText
  import AccountAttempt
  import Campaign
  import Sahari

  const Waiting := "대기중"
  const Completed := "완료"
  const RosterSize := 50

  /**
   * A stored post. `repeatCount` and `repeatProgress` are `None` when the
   * stored dictionary lacks the key.
   */
  datatype PostRecord = PostRecord(checked: bool, title: string, status: string,
                                   repeatCount: Option<int>, repeatProgress: Option<int>)

  /** `post.get('repeat_count', 1)` */
  function RepeatCountOf(p: PostRecord): int
  {
    p.repeatCount.GetOr(1)
  }

  /** `post.get('repeat_progress', 0)` */
  function RepeatProgressOf(p: PostRecord): int
  {
    p.repeatProgress.GetOr(0)
  }

  /** A post is picked up by a run when it waits, or when it repeats and has repetitions left. */
  predicate IsWaiting(p: PostRecord)
  {
    p.status == Waiting || (RepeatCountOf(p) > 1 && RepeatProgressOf(p) < RepeatCountOf(p))
  }

  // ---------------------------------------------------------------------------
  // List comprehensions
  // ---------------------------------------------------------------------------

  /** `[(i, x) for i, x in enumerate(xs) if keep(x)]` */
  function Indexed<T>(xs: seq<T>, keep: T -> bool): seq<(nat, T)>
  {
    if xs == [] then []
    else
      var last := |xs| - 1;
      Indexed(xs[..last], keep) + if keep(xs[last]) then [(last, xs[last])] else []
  }

  /**
   * The comprehension yields exactly the kept items, each with its own index,
   * in strictly increasing index order.
   */
  lemma {:induction false} IndexedExact<T>(xs: seq<T>, keep: T -> bool)
    ensures var r := Indexed(xs, keep);
      && (forall e | e in r :: e.0 < |xs| && xs[e.0] == e.1 && keep(e.1))
      && (forall k | 0 <= k < |xs| && keep(xs[k]) :: (k, xs[k]) in r)
      && (forall a, b | 0 <= a < b < |r| :: r[a].0 < r[b].0)
  {
    if xs != [] {
      var last := |xs| - 1;
      var front := xs[..last];
      IndexedExact(front, keep);
      IndexedBelow(front, keep);
      var r := Indexed(xs, keep);
      assert forall k | 0 <= k < last :: front[k] == xs[k];
      assert forall a | 0 <= a < |Indexed(front, keep)| :: r[a] == Indexed(front, keep)[a];
    }
  }

  lemma {:induction false} IndexedBelow<T>(xs: seq<T>, keep: T -> bool)
    ensures forall e | e in Indexed(xs, keep) :: e.0 < |xs|
  {
    if xs != [] {
      IndexedBelow(xs[..|xs| - 1], keep);
    }
  }

  /** `[x for x in xs if keep(x)]` */
  function Filter<T>(xs: seq<T>, keep: T -> bool): seq<T>
  {
    if xs == [] then [] else (if keep(xs[0]) then [xs[0]] else []) + Filter(xs[1..], keep)
  }

  /** `[x for x in xs if not keep(x)]` */
  function Dropped<T>(xs: seq<T>, keep: T -> bool): seq<T>
  {
    Filter(xs, x => !keep(x))
  }

  /** Filtering keeps exactly the kept items, and dropping exactly the others. */
  lemma {:induction false} FilterMembers<T>(xs: seq<T>, keep: T -> bool)
    ensures forall x :: x in Filter(xs, keep) <==> x in xs && keep(x)
    ensures forall x :: x in Dropped(xs, keep) <==> x in xs && !keep(x)
    decreases |xs|
  {
    if xs != [] {
      FilterMembers(xs[1..], keep);
      assert xs == [xs[0]] + xs[1..];
    }
  }

  /** Filtering keeps the order: it distributes over concatenation. */
  lemma {:induction false} FilterAppend<T>(xs: seq<T>, ys: seq<T>, keep: T -> bool)
    ensures Filter(xs + ys, keep) == Filter(xs, keep) + Filter(ys, keep)
    decreases |xs|
  {
    if xs == [] {
      assert xs + ys == ys;
    } else {
      FilterAppend(xs[1..], ys, keep);
      assert (xs + ys)[0] == xs[0];
      assert (xs + ys)[1..] == xs[1..] + ys;
    }
  }

  /** What filtering keeps and what it drops add up to the list. */
  lemma {:induction false} FilterSplit<T>(xs: seq<T>, keep: T -> bool)
    ensures |Filter(xs, keep)| + |Dropped(xs, keep)| == |xs|
    decreases |xs|
  {
    if xs != [] {
      FilterSplit(xs[1..], keep);
    }
  }

  /** Filtering and dropping from position `i` on, one item at a time. */
  lemma FilterAt<T>(xs: seq<T>, i: nat, keep: T -> bool)
    requires i < |xs|
    ensures Filter(xs[i..], keep) == (if keep(xs[i]) then [xs[i]] else []) + Filter(xs[i + 1..], keep)
    ensures Dropped(xs[i..], keep) == (if keep(xs[i]) then [] else [xs[i]]) + Dropped(xs[i + 1..], keep)
  {
    assert xs[i..][1..] == xs[i + 1..];
  }

  // ---------------------------------------------------------------------------
  // Post selection (`start_all_accounts`)
  // ---------------------------------------------------------------------------

  /** The waiting posts with their indices, in list order. */
  function WaitingPosts(posts: seq<PostRecord>): seq<(nat, PostRecord)>
  {
    Indexed(posts, IsWaiting)
  }

  /**
   * The posts a run processes: none (the run does not start) when no post is
   * waiting; only the first waiting one when no repeat interval is set;
   * otherwise all of them.
   */
  function PostsToProcess(posts: seq<PostRecord>, repeatInterval: int): Option<seq<(nat, PostRecord)>>
  {
    var waiting := WaitingPosts(posts);
    if waiting == [] then None
    else if repeatInterval == 0 then Some(waiting[..1])
    else Some(waiting)
  }

  /**
   * A run starts exactly when some post waits; it takes every waiting post,
   * with its index, in list order, or only the first of them when no repeat
   * interval is set.
   */
  lemma PostsToProcessExact(posts: seq<PostRecord>, repeatInterval: int)
    ensures var r := PostsToProcess(posts, repeatInterval);
      && (r.None? <==> forall k | 0 <= k < |posts| :: !IsWaiting(posts[k]))
      && (r.Some? && repeatInterval == 0 ==> |r.value| == 1)
      && (r.Some? && repeatInterval != 0 ==> forall k | 0 <= k < |posts| && IsWaiting(posts[k]) :: (k, posts[k]) in r.value)
      && (r.Some? ==> forall e | e in r.value :: e.0 < |posts| && posts[e.0] == e.1 && IsWaiting(e.1))
      && (r.Some? ==> forall a, b | 0 <= a < b < |r.value| :: r.value[a].0 < r.value[b].0)
      && (r.Some? ==> forall k | 0 <= k < r.value[0].0 :: !IsWaiting(posts[k]))
  {
    IndexedExact(posts, IsWaiting);
  }

  // ---------------------------------------------------------------------------
  // Account selection and proxy exclusion (`start_all_accounts`)
  // ---------------------------------------------------------------------------

  /** A roster entry. */
  datatype StoredAccount = StoredAccount(checked: bool, username: string, password: string, apiId: string,
                                         token: string, proxyIp: string, proxyPort: string, status: string)

  /** The empty entry used to pad the roster; it is checked. */
  const Blank := StoredAccount(true, "", "", "", "", "", "", Waiting)

  /** The fields an attempt reads. */
  function ToAccount(a: StoredAccount): AccountAttempt.Account
  {
    AccountAttempt.Account(a.username, a.apiId, a.token, a.proxyIp, a.proxyPort)
  }

  predicate IsChecked(a: StoredAccount)
  {
    a.checked
  }

  /** The proxy address or port is blank. */
  predicate ProxyMissing(a: StoredAccount)
  {
    Strip(a.proxyIp) == [] || Strip(a.proxyPort) == []
  }

  /** The answer to the missing-proxy dialog: run on the default address, run without those accounts, or cancel. */
  datatype ProxyChoice = RunDefault | RunExcluding | Cancel

  predicate HasProxy(e: (nat, StoredAccount))
  {
    !ProxyMissing(e.1)
  }

  /**
   * The accounts a run uses: the checked ones with their indices; when some
   * of them lack proxy settings, the dialog's answer decides.
   */
  function AccountSelection(accounts: seq<StoredAccount>, choice: ProxyChoice): Option<seq<(nat, StoredAccount)>>
  {
    var checked := Indexed(accounts, IsChecked);
    if forall e | e in checked :: !ProxyMissing(e.1) then Some(checked)
    else
      match choice
      case Cancel => None
      case RunExcluding => Some(Filter(checked, HasProxy))
      case RunDefault => Some(checked)
  }

  /**
   * The run uses checked accounts only, each with its own index, and it is
   * cancelled only from the dialog; unless accounts are excluded, every
   * checked account takes part.
   */
  lemma AccountSelectionChecked(accounts: seq<StoredAccount>, choice: ProxyChoice)
    ensures var r := AccountSelection(accounts, choice);
      && (r.None? ==> choice == Cancel)
      && (r.Some? ==> forall e | e in r.value :: e.0 < |accounts| && accounts[e.0] == e.1 && e.1.checked)
      && (choice != RunExcluding && r.Some? ==>
            forall k | 0 <= k < |accounts| && accounts[k].checked :: (k, accounts[k]) in r.value)
  {
    IndexedExact(accounts, IsChecked);
    FilterMembers(Indexed(accounts, IsChecked), HasProxy);
  }

  /**
   * After "exclude", exactly the checked accounts with complete proxy settings
   * remain, so every attempt of the run goes through the proxy check.
   */
  lemma AccountSelectionExcluding(accounts: seq<StoredAccount>)
    ensures var r := AccountSelection(accounts, RunExcluding);
      && r.Some?
      && (forall k | 0 <= k < |accounts| ::
            (k, accounts[k]) in r.value <==> accounts[k].checked && !ProxyMissing(accounts[k]))
      && (forall e | e in r.value :: AccountAttempt.UsesProxy(ToAccount(e.1)))
  {
    var checked := Indexed(accounts, IsChecked);
    IndexedExact(accounts, IsChecked);
    FilterMembers(checked, HasProxy);
    if forall e | e in checked :: !ProxyMissing(e.1) {
      assert AccountSelection(accounts, RunExcluding) == Some(checked);
    } else {
      assert AccountSelection(accounts, RunExcluding) == Some(Filter(checked, HasProxy));
    }
  }

  // ---------------------------------------------------------------------------
  // The roster of 50 (`import_accounts_from_excel`, `delete_selected_accounts`)
  // ---------------------------------------------------------------------------

  /** `n` blank entries. */
  function Blanks(n: nat): (r: seq<StoredAccount>)
    ensures |r| == n && forall a | a in r :: a == Blank
  {
    if n == 0 then [] else Blanks(n - 1) + [Blank]
  }

  /** The roster padded with blank entries up to 50 (never cut). */
  function Padded(accounts: seq<StoredAccount>): seq<StoredAccount>
  {
    if |accounts| < RosterSize then accounts + Blanks(RosterSize - |accounts|) else accounts
  }

  /** Cell `k` of a spreadsheet row, "" when the row is shorter. */
  function Cell(row: seq<string>, k: nat): string
  {
    if k < |row| then row[k] else ""
  }

  /** A spreadsheet row as a checked, waiting entry. */
  function FromRow(row: seq<string>): StoredAccount
  {
    StoredAccount(true, Cell(row, 0), Cell(row, 1), Cell(row, 2), Cell(row, 3), Cell(row, 4), Cell(row, 5), Waiting)
  }

  /** The imported roster: the rows' entries, padded to 50, cut to 50. */
  function Imported(rows: seq<seq<string>>): seq<StoredAccount>
  {
    Padded(seq(|rows|, k requires 0 <= k < |rows| => FromRow(rows[k])))[..RosterSize]
  }

  /**
   * An import always leaves exactly 50 entries: the first 50 rows, in order,
   * then blank entries.
   */
  lemma ImportedShape(rows: seq<seq<string>>)
    ensures var r := Imported(rows);
      && |r| == RosterSize
      && (forall k | 0 <= k < |r| && k < |rows| :: r[k] == FromRow(rows[k]))
      && (forall k | |rows| <= k < |r| :: r[k] == Blank)
  {
    var entries := seq(|rows|, k requires 0 <= k < |rows| => FromRow(rows[k]));
    if |entries| < RosterSize {
      var blanks := Blanks(RosterSize - |entries|);
      forall k | |rows| <= k < RosterSize
        ensures (entries + blanks)[k] == Blank
      {
        assert (entries + blanks)[k] == blanks[k - |entries|];
        assert blanks[k - |entries|] in blanks;
      }
    }
  }

  /** The roster after deleting the checked entries: the unchecked ones, in order, padded to 50. */
  function AfterDelete(accounts: seq<StoredAccount>): seq<StoredAccount>
  {
    Padded(Dropped(accounts, IsChecked))
  }

  /**
   * Deleting keeps every unchecked entry, in order, removes every checked one,
   * and refills with blank entries to at least 50.
   */
  lemma AfterDeleteShape(accounts: seq<StoredAccount>)
    ensures var kept := Dropped(accounts, IsChecked);
      var r := AfterDelete(accounts);
      && |r| == (if |kept| < RosterSize then RosterSize else |kept|)
      && r[..|kept|] == kept
      && (forall a | a in r :: (a in accounts && !a.checked) || a == Blank)
      && (forall a | a in accounts && !a.checked :: a in r)
  {
    var kept := Dropped(accounts, IsChecked);
    FilterMembers(accounts, IsChecked);
    var r := AfterDelete(accounts);
    if |kept| < RosterSize {
      assert r == kept + Blanks(RosterSize - |kept|);
      assert forall a | a in r :: a in kept || a in Blanks(RosterSize - |kept|);
    }
  }

  // ---------------------------------------------------------------------------
  // Post slots and the worker's signals
  // ---------------------------------------------------------------------------

  /** A post slot: `None` once a completed post is marked for deletion. */
  type Slot = Option<PostRecord>

  predicate IsPresent(slot: Slot)
  {
    slot.Some?
  }

  /** `safe_save_posts_data`: an out-of-range index or an empty slot changes nothing. */
  function SaveProgressAt(slots: seq<Slot>, i: int, progress: int): (r: seq<Slot>)
    ensures |r| == |slots| && forall k | 0 <= k < |slots| && k != i :: r[k] == slots[k]
  {
    if 0 <= i < |slots| && slots[i].Some? then slots[i := Some(slots[i].value.(repeatProgress := Some(progress)))]
    else slots
  }

  /** `safe_update_post_status`: a completed post also has its progress reset. */
  function UpdateStatusAt(slots: seq<Slot>, i: int, status: string): (r: seq<Slot>)
    ensures |r| == |slots| && forall k | 0 <= k < |slots| && k != i :: r[k] == slots[k]
  {
    if 0 <= i < |slots| && slots[i].Some? then
      var p := slots[i].value.(status := status);
      slots[i := Some(if status == Completed then p.(repeatProgress := Some(0)) else p)]
    else slots
  }

  /** `update_post_status`: the status text only. */
  function ShowStatusAt(slots: seq<Slot>, i: int, status: string): (r: seq<Slot>)
    ensures |r| == |slots| && forall k | 0 <= k < |slots| && k != i :: r[k] == slots[k]
  {
    if 0 <= i < |slots| && slots[i].Some? then slots[i := Some(slots[i].value.(status := status))] else slots
  }

  /** `update_post_status_and_cleanup`: a completed post's slot is emptied when auto-delete is on. */
  function StatusAndCleanup(slots: seq<Slot>, i: int, status: string, autoDelete: bool): (r: seq<Slot>)
    ensures |r| == |slots| && forall k | 0 <= k < |slots| && k != i :: r[k] == slots[k]
  {
    if !(0 <= i < |slots|) then slots
    else
      var shown := ShowStatusAt(slots, i, status);
      if status == Completed && autoDelete && shown[i].Some? then shown[i := None] else shown
  }

  /** A worker signal as the main window's connected handler applies it. */
  function ApplySignal(slots: seq<Slot>, signal: Campaign.Signal, autoDelete: bool): seq<Slot>
  {
    match signal
    case SaveProgress(i, progress) => SaveProgressAt(slots, i, progress)
    case StatusUpdate(i, status) => UpdateStatusAt(slots, i, status)
    case StatusShown(i, status) => StatusAndCleanup(slots, i, status, autoDelete)
  }

  function ApplyAll(slots: seq<Slot>, signals: seq<Campaign.Signal>, autoDelete: bool): seq<Slot>
    decreases |signals|
  {
    if signals == [] then slots else ApplyAll(ApplySignal(slots, signals[0], autoDelete), signals[1..], autoDelete)
  }

  lemma {:induction false} ApplyAllAppend(slots: seq<Slot>, a: seq<Campaign.Signal>, b: seq<Campaign.Signal>, autoDelete: bool)
    ensures ApplyAll(slots, a + b, autoDelete) == ApplyAll(ApplyAll(slots, a, autoDelete), b, autoDelete)
    decreases |a|
  {
    if a != [] {
      assert (a + b)[0] == a[0];
      assert (a + b)[1..] == a[1..] + b;
      ApplyAllAppend(ApplySignal(slots, a[0], autoDelete), a[1..], b, autoDelete);
    } else {
      assert a + b == b;
    }
  }

  /**
   * A post's completion (status "완료", progress 0, the shown "완료") leaves
   * its slot empty under auto-delete, and otherwise marks it completed with
   * no progress; such a post is picked up again by the next run exactly when
   * it repeats. No other slot changes.
   */
  lemma CompletionApplied(slots: seq<Slot>, i: nat, autoDelete: bool)
    requires i < |slots| && slots[i].Some?
    ensures var r := ApplyAll(slots, Campaign.Completion(i), autoDelete);
      var p := slots[i].value;
      && |r| == |slots|
      && (forall k | 0 <= k < |slots| && k != i :: r[k] == slots[k])
      && (autoDelete ==> r[i] == None)
      && (!autoDelete ==> r[i] == Some(p.(status := Completed, repeatProgress := Some(0))))
      && (!autoDelete ==> (IsWaiting(r[i].value) <==> RepeatCountOf(p) > 1))
  {
    var signals := Campaign.Completion(i);
    var s1 := ApplySignal(slots, signals[0], autoDelete);
    var s2 := ApplySignal(s1, signals[1], autoDelete);
    var s3 := ApplySignal(s2, signals[2], autoDelete);
    assert signals[1..][1..] == [signals[2]];
    assert ApplyAll(s2, signals[1..][1..], autoDelete) == ApplyAll(s3, [], autoDelete);
  }

  /** A post after the round of repetition `rep` of `count`: its status and progress. */
  function Rounded(p: PostRecord, rep: int, count: int): PostRecord
  {
    p.(status := Campaign.RoundText(rep, count), repeatProgress := Some(rep + 1))
  }

  /** One round's signals set the post's status and progress and touch no other slot. */
  lemma RoundApplied(slots: seq<Slot>, i: nat, rep: int, count: int, autoDelete: bool)
    requires i < |slots| && slots[i].Some?
    ensures ApplyAll(slots, Campaign.Round(i, rep, count), autoDelete) == slots[i := Some(Rounded(slots[i].value, rep, count))]
  {
    var round := Campaign.Round(i, rep, count);
    var t1 := ApplySignal(slots, round[0], autoDelete);
    var t2 := ApplySignal(t1, round[1], autoDelete);
    var t3 := ApplySignal(t2, round[2], autoDelete);
    assert round[1..][1..] == [round[2]];
    assert ApplyAll(t2, round[1..][1..], autoDelete) == ApplyAll(t3, [], autoDelete);
  }

  /**
   * A post whose last round was repetition `rep` no longer shows "대기중", so
   * the next run picks it up exactly when its own repeat count exceeds
   * `rep + 1`: a run stopped during a post's only repetition is not resumed.
   */
  lemma RoundedWaiting(p: PostRecord, rep: int, count: int)
    ensures IsWaiting(Rounded(p, rep, count)) <==> RepeatCountOf(p) > 1 && rep + 1 < RepeatCountOf(p)
  {
    var t := Campaign.RoundText(rep, count);
    assert t[|t| - 1] == '료' != '중' == Waiting[|Waiting| - 1];
  }

  /**
   * The rounds of repetitions `from` .. `until - 1` leave the post's slot with
   * the last round's status "<until>/<count> 완료" and progress `until`,
   * whatever the auto-delete setting; no other slot changes (and by
   * `RoundedWaiting` the next run picks the post up exactly when its own
   * repeat count exceeds `until`).
   */
  lemma {:induction false} RoundsApplied(slots: seq<Slot>, i: nat, from: int, until: int, count: int, autoDelete: bool)
    requires i < |slots| && slots[i].Some? && from < until
    decreases until - from
    ensures ApplyAll(slots, Campaign.Progress(i, from, until, count), autoDelete)
            == slots[i := Some(Rounded(slots[i].value, until - 1, count))]
  {
    var p := slots[i].value;
    var s1 := slots[i := Some(Rounded(p, from, count))];
    var rest := Campaign.Progress(i, from + 1, until, count);
    assert ApplyAll(slots, Campaign.Progress(i, from, until, count), autoDelete) == ApplyAll(s1, rest, autoDelete) by {
      RoundApplied(slots, i, from, count, autoDelete);
      assert Campaign.Progress(i, from, until, count) == Campaign.Round(i, from, count) + rest;
      ApplyAllAppend(slots, Campaign.Round(i, from, count), rest, autoDelete);
    }
    if from + 1 < until {
      RoundsApplied(s1, i, from + 1, until, count, autoDelete);
      assert s1[i := Some(Rounded(Rounded(p, from, count), until - 1, count))] == slots[i := Some(Rounded(p, until - 1, count))];
    } else {
      assert rest == [];
    }
  }

  /** The sweep's result: the present slots, in order. */
  function Swept(slots: seq<Slot>): seq<Slot>
  {
    Filter(slots, IsPresent)
  }

  /**
   * The sweep removes exactly the empty slots, keeps the others in order, and
   * the number it reports is the number of empty slots.
   */
  lemma SweptExact(slots: seq<Slot>, more: seq<Slot>)
    ensures forall x :: x in Swept(slots) <==> x in slots && x.Some?
    ensures Swept(slots + more) == Swept(slots) + Swept(more)
    ensures |slots| - |Swept(slots)| == |Dropped(slots, IsPresent)|
  {
    FilterMembers(slots, IsPresent);
    FilterAppend(slots, more, IsPresent);
    FilterSplit(slots, IsPresent);
  }

  // ---------------------------------------------------------------------------
  // Defaults, status text and resets
  // ---------------------------------------------------------------------------

  /** `load_post_data`'s fill-in of the repeat fields. */
  function WithDefaults(p: PostRecord): PostRecord
  {
    p.(repeatCount := Some(RepeatCountOf(p)), repeatProgress := Some(RepeatProgressOf(p)))
  }

  /** The status shown in the post table. */
  function StatusText(p: PostRecord): string
  {
    if p.status == Completed then Completed
    else if RepeatCountOf(p) > 1 then ShowInt(RepeatProgressOf(p)) + "/" + ShowInt(RepeatCountOf(p)) + " " + Completed
    else p.status
  }

  /**
   * Filling in the defaults stores the values every reader already assumed:
   * present values are kept, the selection and the shown status do not
   * change, and a second fill changes nothing. The table shows "완료" exactly
   * for completed posts.
   */
  lemma DefaultsKeepMeaning(p: PostRecord)
    ensures var q := WithDefaults(p);
      && q.repeatCount.Some? && q.repeatProgress.Some?
      && (p.repeatCount.Some? ==> q.repeatCount == p.repeatCount)
      && (p.repeatProgress.Some? ==> q.repeatProgress == p.repeatProgress)
      && (IsWaiting(q) <==> IsWaiting(p))
      && StatusText(q) == StatusText(p)
      && WithDefaults(q) == q
    ensures StatusText(p) == Completed <==> p.status == Completed
  {
    if p.status != Completed && RepeatCountOf(p) > 1 {
      var t := ShowInt(RepeatProgressOf(p)) + "/" + ShowInt(RepeatCountOf(p)) + " " + Completed;
      assert |t| > |Completed|;
    }
  }

  /** A post put back to waiting, its progress cleared. */
  function Reset(p: PostRecord): PostRecord
  {
    p.(status := Waiting, repeatProgress := Some(0))
  }

  /**
   * `reset_selected_status`: the checked posts are reset; with none checked,
   * every post is reset when the user confirms. An empty slot raises before
   * anything changes.
   */
  function ResetSelected(slots: seq<Slot>, confirmAll: bool): seq<Slot>
  {
    if exists k | 0 <= k < |slots| :: slots[k].None? then slots
    else if exists k | 0 <= k < |slots| :: slots[k].value.checked then
      seq(|slots|, k requires 0 <= k < |slots| => if slots[k].value.checked then Some(Reset(slots[k].value)) else slots[k])
    else if confirmAll then seq(|slots|, k requires 0 <= k < |slots| => Some(Reset(slots[k].value)))
    else slots
  }

  /** A reset post waits, is selected by the next run, and keeps everything but its status and progress. */
  lemma ResetWaits(p: PostRecord)
    ensures var q := Reset(p);
      && IsWaiting(q) && RepeatProgressOf(q) == 0
      && q.(status := p.status, repeatProgress := p.repeatProgress) == p
  {
  }

  /**
   * `save` in the repeat dialog: cancelling repetition sets one repetition and
   * puts the post back to waiting; either way the progress restarts at 0.
   */
  function RepeatSettings(p: PostRecord, cancelRepeat: bool, spin: int): (q: PostRecord)
    ensures RepeatProgressOf(q) == 0
    ensures cancelRepeat ==> RepeatCountOf(q) == 1 && IsWaiting(q)
    ensures !cancelRepeat ==> RepeatCountOf(q) == spin && q.status == p.status
    ensures !cancelRepeat && spin > 1 ==> IsWaiting(q)
  {
    var p1 := if cancelRepeat then p.(status := Waiting) else p;
    p1.(repeatCount := Some(if cancelRepeat then 1 else spin), repeatProgress := Some(0))
  }

  // ---------------------------------------------------------------------------
  // Engagement statistics (`update_sahari_stats`)
  // ---------------------------------------------------------------------------

  const NoStats := Sahari.Stats(0, 0, 0, 0)

  function Total(c: Sahari.Stats): nat
  {
    c.follows + c.likes + c.reposts + c.comments
  }

  /** The action names `update_sahari_stats` counts, in English or Korean. */
  predicate KnownAction(action: string)
  {
    action in {"follow", "팔로우", "like", "좋아요", "repost", "리포스트", "comment", "댓글"}
  }

  /** The counters after one action; an unknown action counts nothing. */
  function Counted(c: Sahari.Stats, action: string): Sahari.Stats
  {
    if action == "follow" || action == "팔로우" then c.(follows := c.follows + 1)
    else if action == "like" || action == "좋아요" then c.(likes := c.likes + 1)
    else if action == "repost" || action == "리포스트" then c.(reposts := c.reposts + 1)
    else if action == "comment" || action == "댓글" then c.(comments := c.comments + 1)
    else c
  }

  /** One action counted for a username, whose counters start at zero. */
  function Bumped(stats: map<string, Sahari.Stats>, username: string, action: string): map<string, Sahari.Stats>
  {
    var c := if username in stats then stats[username] else NoStats;
    stats[username := Counted(c, action)]
  }

  /** A known action adds one to exactly one counter; any other action leaves the counters alone. */
  lemma CountedExact(c: Sahari.Stats, action: string)
    ensures Total(Counted(c, action)) == Total(c) + (if KnownAction(action) then 1 else 0)
    ensures var d := Counted(c, action);
      && c.follows <= d.follows && c.likes <= d.likes && c.reposts <= d.reposts && c.comments <= d.comments
  {
  }

  /**
   * Counting an action leaves the username with counters, adds exactly one to
   * its total for a known action and nothing otherwise, and leaves every other
   * username's counters as they were.
   */
  lemma BumpedExact(stats: map<string, Sahari.Stats>, username: string, action: string)
    ensures var r := Bumped(stats, username, action);
      var before := if username in stats then stats[username] else NoStats;
      && username in r
      && Total(r[username]) == Total(before) + (if KnownAction(action) then 1 else 0)
      && r.Keys == stats.Keys + {username}
      && (forall u | u in stats && u != username :: r[u] == stats[u])
  {
    CountedExact(if username in stats then stats[username] else NoStats, action);
  }

  // ---------------------------------------------------------------------------
  // Loading, starting and finishing a run
  // ---------------------------------------------------------------------------

  /**
   * `load_post_data`'s fill-in over the slots: it runs front to back and
   * stops at the first empty slot, where the code raises.
   */
  function FillDefaults(slots: seq<Slot>): (r: seq<Slot>)
    ensures |r| == |slots|
  {
    if slots == [] then []
    else if slots[0].None? then slots
    else [Some(WithDefaults(slots[0].value))] + FillDefaults(slots[1..])
  }

  /** The fill-in at position `i`, when the slot there holds a post. */
  lemma FillDefaultsAt(slots: seq<Slot>, i: nat)
    requires i < |slots| && slots[i].Some?
    ensures FillDefaults(slots[i..]) == [Some(WithDefaults(slots[i].value))] + FillDefaults(slots[i + 1..])
  {
    assert slots[i..][1..] == slots[i + 1..];
  }

  /** One more post filled in, front to back. */
  lemma FillDefaultsStep(slots: seq<Slot>, filled: seq<Slot>, i: nat)
    requires i < |slots| == |filled| && filled[i..] == slots[i..] && slots[i].Some?
    requires FillDefaults(slots) == filled[..i] + FillDefaults(slots[i..])
    ensures var next := filled[i := Some(WithDefaults(slots[i].value))];
      && next[i + 1..] == slots[i + 1..]
      && FillDefaults(slots) == next[..i + 1] + FillDefaults(slots[i + 1..])
  {
    FillDefaultsAt(slots, i);
    var next := filled[i := Some(WithDefaults(slots[i].value))];
    assert next[..i + 1] == filled[..i] + [next[i]];
    assert next[i + 1..] == filled[i + 1..] == slots[i..][1..];
  }

  /** The fill-in ends at the end of the slots or at an empty slot. */
  lemma FillDefaultsStop(slots: seq<Slot>, filled: seq<Slot>, i: nat)
    requires i <= |slots| == |filled| && filled[i..] == slots[i..]
    requires FillDefaults(slots) == filled[..i] + FillDefaults(slots[i..])
    requires i == |slots| || slots[i].None?
    ensures FillDefaults(slots) == filled
  {
    assert filled[..i] + filled[i..] == filled;
  }

  /**
   * The fill-in keeps every slot's presence and what it means to a run, fills
   * every post before the first empty slot and leaves everything from there
   * on as it was; filling again changes nothing.
   */
  lemma {:induction false} FillDefaultsExact(slots: seq<Slot>)
    ensures var r := FillDefaults(slots);
      && |r| == |slots|
      && (forall k | 0 <= k < |slots| :: r[k].Some? <==> slots[k].Some?)
      && (forall k | 0 <= k < |slots| && slots[k].Some? ::
            r[k] == slots[k] || r[k] == Some(WithDefaults(slots[k].value)))
      && (forall k | 0 <= k < |slots| && (forall j | 0 <= j <= k :: slots[j].Some?) ::
            r[k] == Some(WithDefaults(slots[k].value)))
      && FillDefaults(r) == r
    decreases |slots|
  {
    if slots != [] && slots[0].Some? {
      var p := slots[0].value;
      var rest := FillDefaults(slots[1..]);
      FillDefaultsExact(slots[1..]);
      DefaultsKeepMeaning(p);
      var r := FillDefaults(slots);
      assert r == [Some(WithDefaults(p))] + rest;
      assert r[1..] == rest;
      forall k | 1 <= k < |slots| && (forall j | 0 <= j <= k :: slots[j].Some?)
        ensures r[k] == Some(WithDefaults(slots[k].value))
      {
        assert forall j | 0 <= j <= k - 1 :: slots[1..][j] == slots[j + 1];
      }
    }
  }

  /** The filled posts mean the same to a run and show the same status. */
  lemma FillDefaultsMeaning(slots: seq<Slot>, k: nat)
    requires k < |slots| && slots[k].Some?
    ensures FillDefaults(slots)[k].Some?
    ensures var p := slots[k].value;
      var q := FillDefaults(slots)[k].value;
      (IsWaiting(q) <==> IsWaiting(p)) && StatusText(q) == StatusText(p)
  {
    FillDefaultsExact(slots);
    DefaultsKeepMeaning(slots[k].value);
  }

  /** A post with the status the table shows stored as its status. */
  function Shown(p: PostRecord): PostRecord
  {
    p.(status := StatusText(p))
  }

  /** The slots with every post's shown status stored. */
  function Displayed(slots: seq<Slot>): seq<Slot>
  {
    seq(|slots|, k requires 0 <= k < |slots| => if slots[k].Some? then Some(Shown(slots[k].value)) else None)
  }

  /**
   * Storing the shown status changes nothing but the status, shows the same,
   * is stable, keeps "완료" exactly for completed posts, and keeps whether a
   * run picks the post up, except for a waiting repeated post whose progress
   * already reached its count: it now shows "<progress>/<count> 완료" and is
   * no longer picked up.
   */
  lemma ShownMeaning(p: PostRecord)
    ensures Shown(p).(status := p.status) == p
    ensures StatusText(Shown(p)) == StatusText(p) && Shown(Shown(p)) == Shown(p)
    ensures Shown(p).status == Completed <==> p.status == Completed
    ensures IsWaiting(Shown(p)) <==>
      IsWaiting(p) && !(p.status == Waiting && RepeatCountOf(p) > 1 && RepeatProgressOf(p) >= RepeatCountOf(p))
  {
    if p.status != Completed && RepeatCountOf(p) > 1 {
      var t := StatusText(p);
      assert |t| > |Completed|;
      assert t[|t| - 1] == '료' != '중' == Waiting[|Waiting| - 1];
    }
  }

  /**
   * The posts after `load_post_data`: the fill-in, and when no slot is empty
   * (the code raises at an empty one) also every post's shown status.
   */
  function Loaded(slots: seq<Slot>): seq<Slot>
  {
    if forall k | 0 <= k < |slots| :: slots[k].Some? then Displayed(FillDefaults(slots)) else FillDefaults(slots)
  }

  /**
   * Loading posts that are all present shows each with its defaults filled
   * in, keeps every slot present, and loading again changes nothing.
   */
  lemma LoadedStable(slots: seq<Slot>)
    requires forall k | 0 <= k < |slots| :: slots[k].Some?
    ensures var r := Loaded(slots);
      && |r| == |slots|
      && (forall k | 0 <= k < |slots| :: r[k] == Some(Shown(WithDefaults(slots[k].value))))
      && Loaded(r) == r
  {
    FillDefaultsExact(slots);
    var r := Loaded(slots);
    assert forall k | 0 <= k < |slots| :: r[k] == Some(Shown(WithDefaults(slots[k].value)));
    FillDefaultsExact(r);
    forall k | 0 <= k < |r|
      ensures Loaded(r)[k] == r[k]
    {
      var q := WithDefaults(slots[k].value);
      ShownMeaning(q);
      assert WithDefaults(Shown(q)) == Shown(q);
    }
  }

  /** Whether `reset_selected_status` resets anything: no slot is empty, and a post is checked or the user confirmed. */
  predicate ResetApplies(slots: seq<Slot>, confirmAll: bool)
  {
    (forall k | 0 <= k < |slots| :: slots[k].Some?)
    && ((exists k | 0 <= k < |slots| :: slots[k].value.checked) || confirmAll)
  }

  /** The posts of slots that are all present. */
  function Records(slots: seq<Slot>): (r: seq<PostRecord>)
    requires forall k | 0 <= k < |slots| :: slots[k].Some?
    ensures |r| == |slots| && forall k | 0 <= k < |slots| :: slots[k] == Some(r[k])
  {
    seq(|slots|, k requires 0 <= k < |slots| => slots[k].value)
  }

  /**
   * What `start_all_accounts` hands the worker: the accounts after the proxy
   * dialog and the posts to process. A cancelled dialog, an empty slot (the
   * code raises on it) or no waiting post leaves nothing to run.
   */
  function RunSelection(accounts: seq<StoredAccount>, slots: seq<Slot>, choice: ProxyChoice, repeatInterval: int)
    : Option<(seq<(nat, StoredAccount)>, seq<(nat, PostRecord)>)>
  {
    var selected := AccountSelection(accounts, choice);
    if selected.None? then None
    else if exists k | 0 <= k < |slots| :: slots[k].None? then None
    else
      match PostsToProcess(Records(slots), repeatInterval)
      case None => None
      case Some(posts) => Some((selected.value, posts))
  }

  /** The roster with every checked account set to waiting, as a run starts. */
  function MarkedWaiting(accounts: seq<StoredAccount>): seq<StoredAccount>
  {
    seq(|accounts|, k requires 0 <= k < |accounts| =>
      if accounts[k].checked then accounts[k].(status := Waiting) else accounts[k])
  }

  /** A status that shows an account mid-work. */
  predicate Busy(status: string)
  {
    Contains(status, "작업 중") || Contains(status, "진행")
  }

  /** The roster after a run ends: accounts left mid-work go back to waiting. */
  function Settled(accounts: seq<StoredAccount>): seq<StoredAccount>
  {
    seq(|accounts|, k requires 0 <= k < |accounts| =>
      if Busy(accounts[k].status) then accounts[k].(status := Waiting) else accounts[k])
  }

  lemma {:induction false} ContainsSuffix(a: string, sub: string)
    ensures Contains(a + sub, sub)
    decreases |a|
  {
    if a != [] {
      ContainsSuffix(a[1..], sub);
      assert (a + sub)[1..] == a[1..] + sub;
    } else {
      assert (a + sub)[..|sub|] == sub;
    }
  }

  /**
   * After a run no account shows a working status: an account a stop left at
   * "'<title>' 작업 중" is back to waiting, and every other status ("완료",
   * "실패", …) stays as the run left it.
   */
  lemma SettledExact(accounts: seq<StoredAccount>, title: string)
    ensures Busy(AccountAttempt.Working(title))
    ensures var r := Settled(accounts);
      && |r| == |accounts|
      && (forall k | 0 <= k < |r| :: !Busy(r[k].status))
      && (forall k | 0 <= k < |r| :: r[k] == accounts[k] || (Busy(accounts[k].status) && r[k] == accounts[k].(status := Waiting)))
  {
    ContainsSuffix("'" + title + "' ", "작업 중");
    assert AccountAttempt.Working(title) == ("'" + title + "' ") + "작업 중";
    assert Waiting[1..] == "기중" && "기중"[1..] == "중" && "중"[1..] == "";
    assert !Contains("", "작업 중") && !Contains("", "진행");
    assert !Contains("중", "작업 중") && !Contains("중", "진행");
    assert "기중"[..2][0] == '기' != '진' == "진행"[0];
    assert !Contains("기중", "작업 중") && !Contains("기중", "진행");
    assert Waiting[..2][0] == '대' != '진' == "진행"[0];
    assert !Contains(Waiting, "작업 중") && !Contains(Waiting, "진행");
  }

  /** A reset of the checked posts, or of all of them when none is checked. */
  lemma ResetSelectedExact(slots: seq<Slot>, confirmAll: bool)
    ensures var r := ResetSelected(slots, confirmAll);
      && |r| == |slots|
      && (forall k | 0 <= k < |slots| :: r[k] == slots[k] || (slots[k].Some? && r[k] == Some(Reset(slots[k].value))))
      && (forall k | 0 <= k < |slots| && r[k] != slots[k] :: IsWaiting(r[k].value))
      && ((forall k | 0 <= k < |slots| :: slots[k].Some?) && (exists k | 0 <= k < |slots| :: slots[k].value.checked) ==>
            forall k | 0 <= k < |slots| :: (r[k] == Some(Reset(slots[k].value)) <==> slots[k].value.checked || Reset(slots[k].value) == slots[k].value))
  {
    forall k | 0 <= k < |slots| && slots[k].Some?
      ensures IsWaiting(Reset(slots[k].value))
    {
      ResetWaits(slots[k].value);
    }
  }

  // ---------------------------------------------------------------------------
  // The main window
  // ---------------------------------------------------------------------------

  /** The state `MultiAccountGUI` keeps: posts, roster, statistics and the two settings the core reads. */
  class MultiAccountGUI {
    var posts: seq<Slot>
    var accounts: seq<StoredAccount>
    var sahariStats: map<string, Sahari.Stats>
    var autoDelete: bool
    var repeatInterval: int

    constructor(posts: seq<Slot>, accounts: seq<StoredAccount>, sahariStats: map<string, Sahari.Stats>,
                autoDelete: bool, repeatInterval: int)
      ensures this.posts == Loaded(posts) && this.accounts == accounts && this.sahariStats == sahariStats
      ensures this.autoDelete == autoDelete && this.repeatInterval == repeatInterval
    {
      this.posts, this.accounts, this.sahariStats := posts, accounts, sahariStats;
      this.autoDelete, this.repeatInterval := autoDelete, repeatInterval;
      new;
      var complete := LoadPostData();
    }

    /**
     * `import_accounts_from_excel`: `rows` are the sheet's rows after the
     * header, `None` when no file was chosen or it could not be read.
     */
    method ImportAccountsFromExcel(rows: Option<seq<seq<string>>>)
      modifies this
      ensures accounts == if rows.Some? then Imported(rows.value) else old(accounts)
      ensures posts == old(posts) && sahariStats == old(sahariStats)
    {
      if rows.None? {
        return;
      }
      var sheet := rows.value;
      var added: seq<StoredAccount> := [];
      var k := 0;
      while k < |sheet|
        invariant 0 <= k <= |sheet| && |added| == k
        invariant accounts == old(accounts) && posts == old(posts) && sahariStats == old(sahariStats)
        invariant forall j | 0 <= j < k :: added[j] == FromRow(sheet[j])
      {
        added := added + [FromRow(sheet[k])];
        k := k + 1;
      }
      ghost var entries := added;
      assert entries == seq(|sheet|, j requires 0 <= j < |sheet| => FromRow(sheet[j]));
      while |added| < RosterSize
        invariant |entries| <= |added| && added == entries + Blanks(|added| - |entries|)
        invariant posts == old(posts) && sahariStats == old(sahariStats)
        invariant |entries| >= RosterSize ==> added == entries
        invariant |added| <= RosterSize || added == entries
        decreases RosterSize - |added|
      {
        assert Blanks(|added| + 1 - |entries|) == Blanks(|added| - |entries|) + [Blank];
        added := added + [Blank];
      }
      assert added == Padded(entries);
      accounts := added[..RosterSize];
    }

    /**
     * `delete_selected_accounts`, its confirmation answered by `confirm`: the
     * checked entries are removed from the back, then the roster is refilled
     * with blank entries to 50; `deleted` is how many were removed.
     */
    method DeleteSelectedAccounts(confirm: bool) returns (deleted: nat)
      modifies this
      ensures var none := forall k | 0 <= k < |old(accounts)| :: !old(accounts)[k].checked;
        && (none || !confirm ==> accounts == old(accounts) && deleted == 0)
        && (!none && confirm ==>
              accounts == AfterDelete(old(accounts)) && deleted == |Filter(old(accounts), IsChecked)| > 0)
      ensures posts == old(posts) && sahariStats == old(sahariStats)
    {
      var indices := Indexed(accounts, IsChecked);
      IndexedExact(accounts, IsChecked);
      if indices == [] || !confirm {
        return 0;
      }
      FilterMembers(accounts, IsChecked);
      assert accounts[indices[0].0] in Filter(accounts, IsChecked);
      deleted := RemoveChecked();
      PadRoster();
    }

    /** The removal loop of `delete_selected_accounts`, from the back. */
    method RemoveChecked() returns (deleted: nat)
      modifies this
      ensures accounts == Dropped(old(accounts), IsChecked) && deleted == |Filter(old(accounts), IsChecked)|
      ensures posts == old(posts) && sahariStats == old(sahariStats)
    {
      ghost var before := accounts;
      deleted := 0;
      var i := |accounts|;
      while i > 0
        invariant 0 <= i <= |before|
        invariant accounts == before[..i] + Dropped(before[i..], IsChecked)
        invariant deleted == |Filter(before[i..], IsChecked)|
        invariant before == old(accounts) && posts == old(posts) && sahariStats == old(sahariStats)
      {
        i := i - 1;
        FilterAt(before, i, IsChecked);
        assert before[..i + 1] == before[..i] + [before[i]];
        assert accounts[i] == before[i];
        if accounts[i].checked {
          accounts := accounts[..i] + accounts[i + 1..];
          deleted := deleted + 1;
        }
      }
      assert before[0..] == before;
    }

    /** The refill loop of `delete_selected_accounts`: blank entries up to 50. */
    method PadRoster()
      modifies this
      ensures accounts == Padded(old(accounts))
      ensures posts == old(posts) && sahariStats == old(sahariStats)
    {
      while |accounts| < RosterSize
        invariant |old(accounts)| <= |accounts| && accounts == old(accounts) + Blanks(|accounts| - |old(accounts)|)
        invariant |accounts| <= RosterSize || accounts == old(accounts)
        invariant posts == old(posts) && sahariStats == old(sahariStats)
        decreases RosterSize - |accounts|
      {
        assert Blanks(|accounts| + 1 - |old(accounts)|) == Blanks(|accounts| - |old(accounts)|) + [Blank];
        accounts := accounts + [Blank];
      }
    }

    /**
     * `cleanup_deleted_posts`: empty slots are removed and `deleted` counts
     * them; when there were any, the posts are loaded again.
     */
    method CleanupDeletedPosts() returns (deleted: nat)
      modifies this
      ensures deleted == |Dropped(old(posts), IsPresent)|
      ensures posts == if deleted > 0 then Loaded(Swept(old(posts))) else Swept(old(posts))
      ensures accounts == old(accounts) && sahariStats == old(sahariStats)
    {
      var valid: seq<Slot> := [];
      var k := 0;
      while k < |posts|
        invariant 0 <= k <= |posts| && valid == Swept(posts[..k])
        invariant posts == old(posts) && accounts == old(accounts) && sahariStats == old(sahariStats)
      {
        FilterAppend(posts[..k], [posts[k]], IsPresent);
        assert posts[..k + 1] == posts[..k] + [posts[k]];
        if posts[k].Some? {
          valid := valid + [posts[k]];
        }
        k := k + 1;
      }
      assert posts[..|posts|] == posts;
      FilterSplit(posts, IsPresent);
      deleted := |posts| - |valid|;
      posts := valid;
      if deleted > 0 {
        var complete := LoadPostData();
      }
    }

    /**
     * `load_post_data`: missing repeat fields are filled in front to back; an
     * empty slot raises there, and `complete` says whether every slot was
     * reached. When it was, the table is filled and every post's shown status
     * is stored back into it.
     */
    method LoadPostData() returns (complete: bool)
      modifies this
      ensures complete <==> forall k | 0 <= k < |old(posts)| :: old(posts)[k].Some?
      ensures posts == Loaded(old(posts))
      ensures accounts == old(accounts) && sahariStats == old(sahariStats)
      ensures autoDelete == old(autoDelete) && repeatInterval == old(repeatInterval)
    {
      complete := FillPostDefaults();
      if complete {
        FillDefaultsExact(old(posts));
        ShowPostTable();
      }
    }

    /** The fill-in loop of `load_post_data`. */
    method FillPostDefaults() returns (complete: bool)
      modifies this
      ensures complete <==> forall k | 0 <= k < |old(posts)| :: old(posts)[k].Some?
      ensures posts == FillDefaults(old(posts))
      ensures accounts == old(accounts) && sahariStats == old(sahariStats)
      ensures autoDelete == old(autoDelete) && repeatInterval == old(repeatInterval)
    {
      ghost var before := posts;
      var slots := posts;
      var i := 0;
      complete := true;
      while i < |slots|
        invariant 0 <= i <= |slots| == |before|
        invariant slots[i..] == before[i..]
        invariant FillDefaults(before) == slots[..i] + FillDefaults(before[i..])
        invariant forall j | 0 <= j < i :: before[j].Some?
        invariant accounts == old(accounts) && sahariStats == old(sahariStats)
        invariant autoDelete == old(autoDelete) && repeatInterval == old(repeatInterval)
      {
        if slots[i].None? {
          complete := false;
          break;
        }
        FillDefaultsStep(before, slots, i);
        slots := slots[i := Some(WithDefaults(slots[i].value))];
        i := i + 1;
      }
      FillDefaultsStop(before, slots, i);
      posts := slots;
    }

    /** The table loop of `load_post_data`: each post's shown status is stored through `update_post_status`. */
    method ShowPostTable()
      requires forall k | 0 <= k < |posts| :: posts[k].Some?
      modifies this
      ensures posts == Displayed(old(posts))
      ensures accounts == old(accounts) && sahariStats == old(sahariStats)
      ensures autoDelete == old(autoDelete) && repeatInterval == old(repeatInterval)
    {
      var slots := posts;
      var k := 0;
      while k < |slots|
        invariant 0 <= k <= |slots| == |old(posts)|
        invariant forall j | 0 <= j < k :: slots[j] == Some(Shown(old(posts)[j].value))
        invariant forall j | k <= j < |slots| :: slots[j] == old(posts)[j]
      {
        slots := slots[k := Some(Shown(slots[k].value))];
        k := k + 1;
      }
      assert slots == Displayed(old(posts));
      posts := slots;
    }

    /**
     * `reset_selected_status`, the "reset everything?" question answered by
     * `confirmAll`; after a reset the posts are loaded again.
     */
    method ResetSelectedStatus(confirmAll: bool)
      modifies this
      ensures posts == if ResetApplies(old(posts), confirmAll) then Loaded(ResetSelected(old(posts), confirmAll)) else old(posts)
      ensures accounts == old(accounts) && sahariStats == old(sahariStats)
    {
      var anyChecked := false;
      var k := 0;
      while k < |posts|
        invariant 0 <= k <= |posts|
        invariant forall j | 0 <= j < k :: posts[j].Some?
        invariant anyChecked <==> exists j | 0 <= j < k :: posts[j].value.checked
        invariant posts == old(posts) && accounts == old(accounts) && sahariStats == old(sahariStats)
      {
        if posts[k].None? {
          return;
        }
        if posts[k].value.checked {
          anyChecked := true;
        }
        k := k + 1;
      }
      if !anyChecked && !confirmAll {
        return;
      }
      ghost var before := posts;
      var i := 0;
      while i < |posts|
        invariant 0 <= i <= |posts| == |before|
        invariant before == old(posts) && accounts == old(accounts) && sahariStats == old(sahariStats)
        invariant forall j | 0 <= j < |posts| ::
          posts[j] == (if j < i && (before[j].value.checked || !anyChecked) then Some(Reset(before[j].value)) else before[j])
      {
        if !anyChecked || posts[i].value.checked {
          posts := posts[i := Some(Reset(posts[i].value))];
        }
        i := i + 1;
      }
      assert posts == ResetSelected(old(posts), confirmAll);
      var complete := LoadPostData();
    }

    /**
     * `save` in the repeat dialog of the post at `postIndex` (the dialog is
     * opened from that post's row): the repeat settings are stored and the
     * posts loaded again. An empty slot raises before the dialog opens.
     */
    method SaveRepeatSettings(postIndex: nat, cancelRepeat: bool, spin: int)
      requires postIndex < |posts|
      modifies this
      ensures posts == if old(posts)[postIndex].Some?
        then Loaded(old(posts)[postIndex := Some(RepeatSettings(old(posts)[postIndex].value, cancelRepeat, spin))])
        else old(posts)
      ensures accounts == old(accounts) && sahariStats == old(sahariStats)
    {
      if posts[postIndex].None? {
        return;
      }
      posts := posts[postIndex := Some(RepeatSettings(posts[postIndex].value, cancelRepeat, spin))];
      var complete := LoadPostData();
    }

    /**
     * `start_all_accounts`, the proxy dialog answered by `choice`: when the run
     * starts, every checked account is set to waiting, and the accounts and
     * posts it runs on are returned.
     */
    method StartAllAccounts(choice: ProxyChoice) returns (run: Option<(seq<(nat, StoredAccount)>, seq<(nat, PostRecord)>)>)
      modifies this
      ensures run == RunSelection(old(accounts), old(posts), choice, repeatInterval)
      ensures accounts == if run.Some? then MarkedWaiting(old(accounts)) else old(accounts)
      ensures posts == old(posts) && sahariStats == old(sahariStats)
    {
      var selected := AccountSelection(accounts, choice);
      if selected.None? {
        return None;
      }
      if exists k | 0 <= k < |posts| :: posts[k].None? {
        return None;
      }
      var toProcess := PostsToProcess(Records(posts), repeatInterval);
      if toProcess.None? {
        return None;
      }
      var i := 0;
      while i < |accounts|
        invariant 0 <= i <= |accounts| == |old(accounts)|
        invariant forall j | 0 <= j < |accounts| ::
          accounts[j] == (if j < i && old(accounts)[j].checked then old(accounts)[j].(status := Waiting) else old(accounts)[j])
        invariant posts == old(posts) && sahariStats == old(sahariStats) && repeatInterval == old(repeatInterval)
      {
        if accounts[i].checked {
          accounts := accounts[i := accounts[i].(status := Waiting)];
        }
        i := i + 1;
      }
      run := Some((selected.value, toProcess.value));
    }

    /**
     * `on_worker_finished`: the sweep (with its reload), then every account
     * left mid-work goes back to waiting.
     */
    method OnWorkerFinished() returns (deleted: nat)
      modifies this
      ensures deleted == |Dropped(old(posts), IsPresent)|
      ensures posts == if deleted > 0 then Loaded(Swept(old(posts))) else Swept(old(posts))
      ensures accounts == Settled(old(accounts)) && sahariStats == old(sahariStats)
    {
      deleted := CleanupDeletedPosts();
      ghost var swept := posts;
      var i := 0;
      while i < |accounts|
        invariant 0 <= i <= |accounts| == |old(accounts)|
        invariant forall j | 0 <= j < |accounts| ::
          accounts[j] == (if j < i && Busy(old(accounts)[j].status) then old(accounts)[j].(status := Waiting) else old(accounts)[j])
        invariant posts == swept && sahariStats == old(sahariStats)
      {
        if Busy(accounts[i].status) {
          accounts := accounts[i := accounts[i].(status := Waiting)];
        }
        i := i + 1;
      }
    }

    /** `safe_save_posts_data` */
    method SafeSavePostsData(postIndex: int, progress: int)
      modifies this
      ensures posts == SaveProgressAt(old(posts), postIndex, progress)
      ensures accounts == old(accounts) && sahariStats == old(sahariStats)
    {
      posts := SaveProgressAt(posts, postIndex, progress);
    }

    /** `safe_update_post_status` */
    method SafeUpdatePostStatus(postIndex: int, status: string)
      modifies this
      ensures posts == UpdateStatusAt(old(posts), postIndex, status)
      ensures accounts == old(accounts) && sahariStats == old(sahariStats)
    {
      posts := UpdateStatusAt(posts, postIndex, status);
    }

    /** `update_post_status_and_cleanup`, with the auto-delete setting. */
    method UpdatePostStatusAndCleanup(postIndex: int, status: string)
      modifies this
      ensures posts == StatusAndCleanup(old(posts), postIndex, status, autoDelete)
      ensures accounts == old(accounts) && sahariStats == old(sahariStats)
    {
      posts := StatusAndCleanup(posts, postIndex, status, autoDelete);
    }

    /** `update_sahari_stats`: an index outside the roster changes nothing. */
    method UpdateSahariStats(accountIndex: int, action: string)
      modifies this
      ensures sahariStats == if 0 <= accountIndex < |accounts|
        then Bumped(old(sahariStats), accounts[accountIndex].username, action) else old(sahariStats)
      ensures posts == old(posts) && accounts == old(accounts)
    {
      if 0 <= accountIndex < |accounts| {
        sahariStats := Bumped(sahariStats, accounts[accountIndex].username, action);
      }
    }
  }
}
