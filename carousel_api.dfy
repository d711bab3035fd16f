/**
 * The mixed image/video carousel helper used for "slide" posts: it checks the
 * media list, creates one child container per item, waits when a video is
 * involved, and retries the carousel create-and-publish step on the errors
 * that mean "the media is not ready yet". Unlike the posting calls of the API
 * helper it raises on failure and returns the bare publish response.
 */
module CarouselApi {
  import opened Wrappers
  import opened PyText
  import opened ThreadsApi

  /** One `{'type': ..., 'url': ...}` entry of a slide post; "" stands for a missing key. */
  datatype MediaItem = MediaItem(kind: string, url: string)

  const MinItems := 2
  const MaxItems := 20
  const MaxRetries := 5
  const VideoWait := 60
  const RetryWait := 30

  const TooFewItems := "캐러셀에는 최소 2개 이상의 미디어가 필요합니다."
  const TooManyItems := "캐러셀은 최대 20개의 미디어만 포함할 수 있습니다."
  const MissingField := "미디어 아이템은 'type'과 'url'을 포함해야 합니다."

  function Unsupported(kind: string): string
  {
    "지원하지 않는 미디어 타입입니다: " + kind + ". 'IMAGE' 또는 'VIDEO'만 가능합니다."
  }

  /** What the helper hands back: the publish response, or the exception it raises. */
  datatype Outcome = Published(response: Json) | Raised(message: string)

  /** An item's child-container request, or the `ValueError` an invalid item raises. */
  datatype Checked = Valid(request: Request, video: bool) | Invalid(message: string)

  /**
   * Validation of one item: the type, upper-cased, must be IMAGE or VIDEO and
   * the url must be present; an IMAGE becomes an `image_url` child, a VIDEO a
   * `video_url` child.
   */
  function CheckItem(apiId: string, token: string, item: MediaItem): (c: Checked)
    ensures c.Valid? <==> item.url != "" && (UpperAscii(item.kind) == "IMAGE" || UpperAscii(item.kind) == "VIDEO")
    ensures c.Valid? ==> (c.video <==> UpperAscii(item.kind) == "VIDEO")
    ensures c.Invalid? && item.kind != "" && item.url != "" ==> c.message == Unsupported(UpperAscii(item.kind))
  {
    var kind := UpperAscii(item.kind);
    if kind == "" || item.url == "" then Invalid(MissingField)
    else if kind == "IMAGE" then Valid(CreateContainer(apiId, ContainerPayload(kind, token, "", item.url, "", true)), false)
    else if kind == "VIDEO" then Valid(CreateContainer(apiId, ContainerPayload(kind, token, "", "", item.url, true)), true)
    else Invalid(Unsupported(kind))
  }

  /** A valid item's request creates a carousel child that carries the url under the key its type calls for. */
  lemma ChildPayload(apiId: string, token: string, item: MediaItem)
    requires CheckItem(apiId, token, item).Valid?
    ensures var c := CheckItem(apiId, token, item);
      && c.request.CreateContainer? && "is_carousel_item" in c.request.data
      && (c.video ==> "video_url" in c.request.data && c.request.data["video_url"] == item.url && "image_url" !in c.request.data)
      && (!c.video ==> "image_url" in c.request.data && c.request.data["image_url"] == item.url && "video_url" !in c.request.data)
  {
  }

  predicate IsVideo(item: MediaItem) {
    UpperAscii(item.kind) == "VIDEO"
  }

  /** The children made so far and whether one was a video, or the exception that stopped the loop. */
  datatype Batch = Batch(ids: seq<string>, hasVideo: bool) | BatchFailed(message: string)

  /** The verdict on every item, in item order. */
  function CheckAll(apiId: string, token: string, items: seq<MediaItem>): (checks: seq<Checked>)
    ensures |checks| == |items|
  {
    if items == [] then [] else [CheckItem(apiId, token, items[0])] + CheckAll(apiId, token, items[1..])
  }

  lemma {:induction false} CheckAllAt(apiId: string, token: string, items: seq<MediaItem>, k: nat)
    requires k < |items|
    ensures CheckAll(apiId, token, items)[k] == CheckItem(apiId, token, items[k])
  {
    if k > 0 {
      CheckAllAt(apiId, token, items[1..], k - 1);
    }
  }

  /**
   * The item loop from item `i` on, over the items' verdicts. Checking an item
   * has no effect, so the loop that checks item `i` right before creating its
   * container is the same as this loop over verdicts computed beforehand: a
   * verdict is consulted only when its item's turn comes.
   */
  function MakeChildren(server: Server, log: seq<Effect>, checks: seq<Checked>,
                        i: nat, ids: seq<string>, hasVideo: bool): (Batch, seq<Effect>)
    requires i <= |checks|
    decreases |checks| - i
  {
    if i == |checks| then (Batch(ids, hasVideo), log)
    else
      match checks[i]
      case Invalid(m) => (BatchFailed(m), log)
      case Valid(req, video) =>
        var (made, log1) := Create(server, log, req);
        match made
        case CreateFailed(m) => (BatchFailed(m), log1)
        case Created(id) => MakeChildren(server, log1, checks, i + 1, ids + [id], hasVideo || video)
  }

  /** The loop only appends to the log, at most one request per item, exactly one when it finishes. */
  lemma {:induction false} ChildrenExtend(server: Server, log: seq<Effect>, checks: seq<Checked>,
                                          i: nat, ids: seq<string>, hasVideo: bool)
    requires i <= |checks|
    decreases |checks| - i
    ensures var r := MakeChildren(server, log, checks, i, ids, hasVideo);
      && |log| <= |r.1| <= |log| + |checks| - i && r.1[..|log|] == log
      && (r.0.Batch? ==> |r.1| == |log| + |checks| - i)
  {
    if i < |checks| && checks[i].Valid? {
      var c := checks[i];
      var made := Create(server, log, c.request).0;
      var log1 := log + [Sent(c.request)];
      if made.Created? {
        ChildrenExtend(server, log1, checks, i + 1, ids + [made.id], hasVideo || c.video);
        var r := MakeChildren(server, log1, checks, i + 1, ids + [made.id], hasVideo || c.video);
        assert r.1[..|log|] == r.1[..|log1|][..|log|];
      }
    }
  }

  /** `trace` is one child request per verdict, in order, and every verdict is valid. */
  predicate SentFor(checks: seq<Checked>, trace: seq<Effect>)
  {
    |checks| == |trace| &&
    (checks != [] ==> checks[0].Valid? && trace[0] == Sent(checks[0].request) && SentFor(checks[1..], trace[1..]))
  }

  lemma {:induction false} SentForAt(checks: seq<Checked>, trace: seq<Effect>, k: nat)
    requires SentFor(checks, trace) && k < |checks|
    ensures checks[k].Valid? && trace[k] == Sent(checks[k].request)
  {
    if k > 0 {
      SentForAt(checks[1..], trace[1..], k - 1);
    }
  }

  /**
   * What the item loop sends: requests only for valid items, one per item, in
   * item order, up to where it stopped.
   */
  lemma {:induction false} ChildrenTrace(server: Server, log: seq<Effect>, checks: seq<Checked>,
                                         i: nat, ids: seq<string>, hasVideo: bool)
    requires i <= |checks|
    decreases |checks| - i
    ensures var r := MakeChildren(server, log, checks, i, ids, hasVideo);
      |log| <= |r.1| <= |log| + |checks| - i && SentFor(checks[i..i + |r.1| - |log|], r.1[|log|..])
  {
    ChildrenExtend(server, log, checks, i, ids, hasVideo);
    if i < |checks| && checks[i].Valid? {
      var c := checks[i];
      var made := Create(server, log, c.request).0;
      var log1 := log + [Sent(c.request)];
      if made.Created? {
        ChildrenTrace(server, log1, checks, i + 1, ids + [made.id], hasVideo || c.video);
        ChildrenExtend(server, log1, checks, i + 1, ids + [made.id], hasVideo || c.video);
        var r := MakeChildren(server, log1, checks, i + 1, ids + [made.id], hasVideo || c.video);
        var n := |r.1| - |log|;
        assert checks[i..i + n][1..] == checks[i + 1..i + n];
        assert r.1[|log|..][1..] == r.1[|log1|..];
        assert r.1[|log|..][0] == r.1[..|log1|][|log|] == Sent(c.request);
      } else {
        assert checks[i..i + 1][1..] == [];
      }
    }
  }

  /**
   * A finished item loop has one id per item, after the ids it started with,
   * and `has_video` is set exactly when some verdict is a video.
   */
  lemma {:induction false} ChildrenIds(server: Server, log: seq<Effect>, checks: seq<Checked>,
                                       i: nat, ids: seq<string>, hasVideo: bool)
    requires i <= |checks|
    decreases |checks| - i
    ensures var r := MakeChildren(server, log, checks, i, ids, hasVideo);
      r.0.Batch? ==>
        && |r.0.ids| == |ids| + |checks| - i && r.0.ids[..|ids|] == ids
        && (r.0.hasVideo <==> hasVideo || exists k | i <= k < |checks| :: checks[k].Valid? && checks[k].video)
  {
    if i < |checks| && checks[i].Valid? {
      var c := checks[i];
      var (made, log1) := Create(server, log, c.request);
      if made.Created? {
        ChildrenIds(server, log1, checks, i + 1, ids + [made.id], hasVideo || c.video);
        var r := MakeChildren(server, log1, checks, i + 1, ids + [made.id], hasVideo || c.video);
        assert r.0.Batch? ==> r.0.ids[..|ids|] == (ids + [made.id])[..|ids|];
      }
    }
  }

  /**
   * A failed item loop stopped either at an invalid item, before sending
   * anything for it, raising that item's message; or right after a child
   * request the server answered without an id.
   */
  lemma {:induction false} ChildrenFailure(server: Server, log: seq<Effect>, checks: seq<Checked>,
                                           i: nat, ids: seq<string>, hasVideo: bool)
    requires i <= |checks|
    decreases |checks| - i
    ensures var r := MakeChildren(server, log, checks, i, ids, hasVideo);
      r.0.BatchFailed? ==>
        var j := i + |r.1| - |log|;
        || (0 <= j < |checks| && checks[j].Invalid? && r.0.message == checks[j].message)
        || (i < j <= |checks| && checks[j - 1].Valid? && |r.1| > 0 &&
            Create(server, r.1[..|r.1| - 1], checks[j - 1].request).0.CreateFailed?)
  {
    ChildrenExtend(server, log, checks, i, ids, hasVideo);
    if i < |checks| && checks[i].Valid? {
      var c := checks[i];
      var (made, log1) := Create(server, log, c.request);
      if made.Created? {
        ChildrenFailure(server, log1, checks, i + 1, ids + [made.id], hasVideo || c.video);
      } else {
        assert log1[..|log1| - 1] == log;
      }
    }
  }

  /** The error markers that make the helper try the carousel again. */
  predicate Retryable(message: string) {
    || Contains(message, "하위 요소")
    || Contains(message, "error_subcode\":4279004")
    || Contains(message, "error_subcode\":4279009")
    || Contains(message, "Invalid parameter")
  }

  /** One try: create the carousel container, then publish it. */
  function Attempt(server: Server, log: seq<Effect>, apiId: string, token: string,
                   ids: seq<string>, text: string): (r: (Outcome, seq<Effect>))
    ensures |r.1| == |log| + 1 || |r.1| == |log| + 2
    ensures r.1[..|log|] == log && r.1[|log|] == Sent(CreateContainer(apiId, CarouselPayload(token, ids, text)))
    ensures r.0.Published? ==> |r.1| == |log| + 2 && r.1[|log| + 1].Sent? && r.1[|log| + 1].request.Publish?
    ensures var create := CreateContainer(apiId, CarouselPayload(token, ids, text));
      var made := Create(server, log, create).0;
      && (made.CreateFailed? ==> r == (Raised(made.message), log + [Sent(create)]))
      && (made.Created? ==> r.1 == log + [Sent(create), Sent(Publish(apiId, made.id, token))])
      && (r.0.Published? <==> made.Created? && Answer(server, log + [Sent(create)], Publish(apiId, made.id, token)).Ok?)
      && (r.0.Published? ==> Answer(server, log + [Sent(create)], Publish(apiId, made.id, token)) == Ok(r.0.response))
  {
    var (made, log1) := Create(server, log, CreateContainer(apiId, CarouselPayload(token, ids, text)));
    match made
    case CreateFailed(m) => (Raised(m), log1)
    case Created(id) =>
      var publish := Publish(apiId, id, token);
      var reply := Answer(server, log1, publish);
      (if reply.Ok? then Published(reply.body) else Raised(FailureText(reply)), log1 + [Sent(publish)])
  }

  /** How many tries a log records: its carousel-creating requests. */
  function Tries(log: seq<Effect>): nat
  {
    if log == [] then 0
    else
      var e := log[|log| - 1];
      Tries(log[..|log| - 1]) +
        if e.Sent? && e.request.CreateContainer? && "media_type" in e.request.data && e.request.data["media_type"] == "CAROUSEL" then 1 else 0
  }

  lemma TriesAppend(log: seq<Effect>, more: seq<Effect>)
    ensures Tries(log + more) == Tries(log) + Tries(more)
    decreases |more|
  {
    if more == [] {
      assert log + more == log;
    } else {
      assert (log + more)[..|log + more| - 1] == log + more[..|more| - 1];
      TriesAppend(log, more[..|more| - 1]);
    }
  }

  lemma AttemptIsOneTry(server: Server, log: seq<Effect>, apiId: string, token: string, ids: seq<string>, text: string)
    ensures var r := Attempt(server, log, apiId, token, ids, text);
      Tries(r.1) == Tries(log) + 1
  {
    var r := Attempt(server, log, apiId, token, ids, text);
    var more := r.1[|log|..];
    assert r.1 == log + more;
    TriesAppend(log, more);
    assert more[0] == Sent(CreateContainer(apiId, CarouselPayload(token, ids, text)));
    if |more| == 2 {
      assert more[..1] == [more[0]];
      assert [more[0]][..0] == [];
    } else {
      assert [more[0]][..0] == [];
    }
  }

  /**
   * The retry loop from try `attempt` on: a marker error leads to a 30 s wait
   * and another try while fewer than five were made; any other error, or a
   * marker error on the fifth try, is raised.
   */
  function RetryFrom(server: Server, log: seq<Effect>, apiId: string, token: string,
                     ids: seq<string>, text: string, attempt: nat): (r: (Outcome, seq<Effect>))
    requires attempt < MaxRetries
    decreases MaxRetries - attempt
  {
    var (outcome, log1) := Attempt(server, log, apiId, token, ids, text);
    match outcome
    case Published(_) => (outcome, log1)
    case Raised(m) =>
      if Retryable(m) && attempt < MaxRetries - 1 then
        RetryFrom(server, log1 + [Slept(RetryWait)], apiId, token, ids, text, attempt + 1)
      else
        (outcome, log1)
  }

  /** The retry loop only appends to the log. */
  lemma {:induction false} RetryExtends(server: Server, log: seq<Effect>, apiId: string, token: string,
                                        ids: seq<string>, text: string, attempt: nat)
    requires attempt < MaxRetries
    ensures var r := RetryFrom(server, log, apiId, token, ids, text, attempt);
      |r.1| > |log| && r.1[..|log|] == log
    decreases MaxRetries - attempt
  {
    var (outcome, log1) := Attempt(server, log, apiId, token, ids, text);
    if outcome.Raised? && Retryable(outcome.message) && attempt < MaxRetries - 1 {
      var next := log1 + [Slept(RetryWait)];
      RetryExtends(server, next, apiId, token, ids, text, attempt + 1);
      var r := RetryFrom(server, next, apiId, token, ids, text, attempt + 1);
      assert r.1[..|log|] == next[..|log|];
    }
  }

  /**
   * The loop makes at least one and at most five tries, and a marker error
   * reaches the caller only once all five tries were used.
   */
  lemma {:induction false} RetryBounds(server: Server, log: seq<Effect>, apiId: string, token: string,
                                       ids: seq<string>, text: string, attempt: nat)
    requires attempt < MaxRetries
    ensures var r := RetryFrom(server, log, apiId, token, ids, text, attempt);
      && Tries(log) + 1 <= Tries(r.1) <= Tries(log) + MaxRetries - attempt
      && (r.0.Raised? && Retryable(r.0.message) ==> Tries(r.1) == Tries(log) + MaxRetries - attempt)
    decreases MaxRetries - attempt
  {
    var (outcome, log1) := Attempt(server, log, apiId, token, ids, text);
    RetryStep(server, log, apiId, token, ids, text, attempt);
    if outcome.Raised? && Retryable(outcome.message) && attempt < MaxRetries - 1 {
      RetryBounds(server, log1 + [Slept(RetryWait)], apiId, token, ids, text, attempt + 1);
    }
  }

  /** One pass of the retry loop: one try, then either the next pass after the wait or the end. */
  lemma RetryStep(server: Server, log: seq<Effect>, apiId: string, token: string,
                  ids: seq<string>, text: string, attempt: nat)
    requires attempt < MaxRetries
    ensures var (outcome, log1) := Attempt(server, log, apiId, token, ids, text);
      && Tries(log1) == Tries(log) + 1
      && (outcome.Raised? && Retryable(outcome.message) && attempt < MaxRetries - 1 ==>
            && Tries(log1 + [Slept(RetryWait)]) == Tries(log1)
            && RetryFrom(server, log, apiId, token, ids, text, attempt)
               == RetryFrom(server, log1 + [Slept(RetryWait)], apiId, token, ids, text, attempt + 1))
      && (!(outcome.Raised? && Retryable(outcome.message) && attempt < MaxRetries - 1) ==>
            RetryFrom(server, log, apiId, token, ids, text, attempt) == (outcome, log1))
  {
    var (outcome, log1) := Attempt(server, log, apiId, token, ids, text);
    AttemptIsOneTry(server, log, apiId, token, ids, text);
    TriesAppend(log1, [Slept(RetryWait)]);
    assert [Slept(RetryWait)][..0] == [];
  }

  /** `post_carousel` of the carousel helper as a function of the session. */
  function CarouselSpec(server: Server, log: seq<Effect>, apiId: string, token: string,
                        items: seq<MediaItem>, text: string): (r: (Outcome, seq<Effect>))
    ensures |items| < MinItems ==> r == (Raised(TooFewItems), log)
    ensures |items| > MaxItems ==> r == (Raised(TooManyItems), log)
  {
    if |items| < MinItems then (Raised(TooFewItems), log)
    else if |items| > MaxItems then (Raised(TooManyItems), log)
    else
      var (batch, log1) := MakeChildren(server, log, CheckAll(apiId, token, items), 0, [], false);
      match batch
      case BatchFailed(m) => (Raised(m), log1)
      case Batch(ids, hasVideo) =>
        RetryFrom(server, if hasVideo then log1 + [Slept(VideoWait)] else log1, apiId, token, ids, text, 0)
  }

  /**
   * `post_carousel`: the size checks, the item loop, the video wait and the
   * retry loop. The loop never runs out of tries on its own, so the final
   * `raise last_exception` after it cannot be reached.
   */
  method PostCarousel(server: Server, log0: seq<Effect>, apiId: string, token: string,
                      items: seq<MediaItem>, text: string) returns (r: Outcome, log: seq<Effect>)
    ensures (r, log) == CarouselSpec(server, log0, apiId, token, items, text)
  {
    if |items| < MinItems {
      return Raised(TooFewItems), log0;
    }
    if |items| > MaxItems {
      return Raised(TooManyItems), log0;
    }
    var ids, hasVideo;
    var failed: Option<string>;
    failed, ids, hasVideo, log := CreateChildren(server, log0, apiId, token, items);
    ghost var batch := MakeChildren(server, log0, CheckAll(apiId, token, items), 0, [], false).0;
    if failed.Some? {
      return Raised(failed.value), log;
    }
    assert batch == Batch(ids, hasVideo);
    if hasVideo {
      log := log + [Slept(VideoWait)];
    }
    r, log := PublishWithRetries(server, log, apiId, token, ids, text);
  }

  /** The item loop of `post_carousel`: validate each item, then create its child container. */
  method CreateChildren(server: Server, log0: seq<Effect>, apiId: string, token: string, items: seq<MediaItem>)
    returns (failed: Option<string>, ids: seq<string>, hasVideo: bool, log: seq<Effect>)
    ensures var (batch, trace) := MakeChildren(server, log0, CheckAll(apiId, token, items), 0, [], false);
      && log == trace
      && (failed.Some? <==> batch.BatchFailed?)
      && (failed.Some? ==> failed.value == batch.message)
      && (failed.None? ==> ids == batch.ids && hasVideo == batch.hasVideo)
  {
    ghost var checks := CheckAll(apiId, token, items);
    ids, hasVideo, log := [], false, log0;
    for i := 0 to |items|
      invariant MakeChildren(server, log, checks, i, ids, hasVideo) == MakeChildren(server, log0, checks, 0, [], false)
    {
      var checked := CheckItem(apiId, token, items[i]);
      CheckAllAt(apiId, token, items, i);
      if checked.Invalid? {
        return Some(checked.message), ids, hasVideo, log;
      }
      if checked.video {
        hasVideo := true;
      }
      var made := Create(server, log, checked.request).0;
      log := log + [Sent(checked.request)];
      if made.CreateFailed? {
        return Some(made.message), ids, hasVideo, log;
      }
      ids := ids + [made.id];
    }
    return None, ids, hasVideo, log;
  }

  /** The retry loop of `post_carousel`. */
  method PublishWithRetries(server: Server, log0: seq<Effect>, apiId: string, token: string,
                            ids: seq<string>, text: string) returns (r: Outcome, log: seq<Effect>)
    ensures (r, log) == RetryFrom(server, log0, apiId, token, ids, text, 0)
  {
    log := log0;
    var attempt := 0;
    while attempt < MaxRetries
      invariant attempt < MaxRetries
      invariant RetryFrom(server, log, apiId, token, ids, text, attempt) == RetryFrom(server, log0, apiId, token, ids, text, 0)
      decreases MaxRetries - attempt
    {
      var made := Create(server, log, CreateContainer(apiId, CarouselPayload(token, ids, text))).0;
      log := log + [Sent(CreateContainer(apiId, CarouselPayload(token, ids, text)))];
      var error: string;
      if made.Created? {
        var reply := Answer(server, log, Publish(apiId, made.id, token));
        log := log + [Sent(Publish(apiId, made.id, token))];
        if reply.Ok? {
          return Published(reply.body), log;
        }
        error := FailureText(reply);
      } else {
        error := made.message;
      }
      if Retryable(error) && attempt < MaxRetries - 1 {
        log := log + [Slept(RetryWait)];
        attempt := attempt + 1;
        continue;
      }
      return Raised(error), log;
    }
    assert false;
  }

  /**
   * A finished item loop sent exactly one child request per item, in item
   * order, made one id per item and noted a video exactly when some item is one.
   */
  lemma FinishedChildren(server: Server, log: seq<Effect>, checks: seq<Checked>)
    requires MakeChildren(server, log, checks, 0, [], false).0.Batch?
    ensures var r := MakeChildren(server, log, checks, 0, [], false);
      && |r.1| == |log| + |checks| && r.1[..|log|] == log && |r.0.ids| == |checks|
      && (forall k | 0 <= k < |checks| :: checks[k].Valid? && r.1[|log| + k] == Sent(checks[k].request))
      && (r.0.hasVideo <==> exists k | 0 <= k < |checks| :: checks[k].Valid? && checks[k].video)
  {
    ChildrenExtend(server, log, checks, 0, [], false);
    ChildrenTrace(server, log, checks, 0, [], false);
    ChildrenIds(server, log, checks, 0, [], false);
    var r := MakeChildren(server, log, checks, 0, [], false);
    var t := r.1[|log|..];
    assert checks[0..|checks|] == checks;
    forall k | 0 <= k < |checks|
      ensures checks[k].Valid? && r.1[|log| + k] == Sent(checks[k].request)
    {
      SentForAt(checks, t, k);
      assert r.1[|log| + k] == t[k];
    }
  }

  /**
   * A successful slide post had between two and twenty valid items and sent
   * one child request per item, in item order, before anything else.
   */
  lemma PublishedMeansAllChildren(server: Server, log: seq<Effect>, apiId: string, token: string,
                                  items: seq<MediaItem>, text: string)
    requires CarouselSpec(server, log, apiId, token, items, text).0.Published?
    ensures MinItems <= |items| <= MaxItems
    ensures |log| + |items| < |CarouselSpec(server, log, apiId, token, items, text).1|
    ensures var r := CarouselSpec(server, log, apiId, token, items, text);
      forall k | 0 <= k < |items| :: CheckItem(apiId, token, items[k]).Valid? && r.1[|log| + k] == Sent(CheckItem(apiId, token, items[k]).request)
  {
    var checks := CheckAll(apiId, token, items);
    var (batch, log1) := MakeChildren(server, log, checks, 0, [], false);
    assert batch.Batch?;
    FinishedChildren(server, log, checks);
    var start := if batch.hasVideo then log1 + [Slept(VideoWait)] else log1;
    RetryExtends(server, start, apiId, token, batch.ids, text, 0);
    var r := RetryFrom(server, start, apiId, token, batch.ids, text, 0);
    assert r == CarouselSpec(server, log, apiId, token, items, text);
    assert r.1[..|start|] == start;
    forall k | 0 <= k < |items|
      ensures CheckItem(apiId, token, items[k]).Valid? && r.1[|log| + k] == Sent(CheckItem(apiId, token, items[k]).request)
    {
      CheckAllAt(apiId, token, items, k);
      assert r.1[|log| + k] == start[|log| + k] == log1[|log| + k];
    }
  }

  /**
   * A successful slide post with a video item waited sixty seconds right
   * after the last child request, before the first carousel request.
   */
  lemma PublishedWaitsForVideo(server: Server, log: seq<Effect>, apiId: string, token: string,
                               items: seq<MediaItem>, text: string, v: nat)
    requires CarouselSpec(server, log, apiId, token, items, text).0.Published?
    requires v < |items| && IsVideo(items[v])
    ensures var children := MakeChildren(server, log, CheckAll(apiId, token, items), 0, [], false).1;
      && |children| == |log| + |items|
      && children + [Slept(VideoWait)] <= CarouselSpec(server, log, apiId, token, items, text).1
  {
    var checks := CheckAll(apiId, token, items);
    var (batch, log1) := MakeChildren(server, log, checks, 0, [], false);
    assert batch.Batch?;
    FinishedChildren(server, log, checks);
    CheckAllAt(apiId, token, items, v);
    assert checks[v].Valid? && checks[v].video;
    assert batch.hasVideo;
    var start := log1 + [Slept(VideoWait)];
    RetryExtends(server, start, apiId, token, batch.ids, text, 0);
  }
}
