/**
 * One account's attempt at one post (`process_single_account`): check the
 * credentials, check the proxy's address when a proxy is configured, pick the
 * posting call from the post's shape, and on success look up the post's
 * permalink for the results spreadsheet.
 */
module AccountAttempt {
  import opened Wrappers
  import opened PyText
  import opened ThreadsApi
  import CarouselApi

  /** The account fields the attempt reads; a missing field is "". */
  datatype Account = Account(username: string, apiId: string, token: string, proxyIp: string, proxyPort: string)

  /**
   * A post as the campaign reads it: `slide` for `post_type == 'slide'`, the
   * regular post's comma-separated image URLs and video URL, the slide's media
   * items, and the repeat settings.
   */
  datatype Post = Post(title: string, slide: bool, content: string, imageUrl: string, videoUrl: string,
                       mediaItems: seq<CarouselApi.MediaItem>, repeatCount: int, repeatProgress: int)

  /** A results-spreadsheet row: the post's URL and the time it was recorded. */
  type Row = (string, string)

  const Done := "완료"
  const Failed := "실패"

  /** The status an account shows while it works on a post. */
  function Working(title: string): string
  {
    "'" + title + "' 작업 중"
  }

  /** Proxy settings apply only when both the address and the port are non-blank. */
  predicate UsesProxy(acc: Account)
  {
    Strip(acc.proxyIp) != [] && Strip(acc.proxyPort) != []
  }

  /**
   * The proxy check: with a proxy configured, one IP request whose answer must
   * be exactly the configured address (an error pair never equals it); without
   * one, nothing is sent.
   */
  function ProxyCheck(server: Server, log: seq<Effect>, acc: Account): (r: (bool, seq<Effect>))
    ensures !UsesProxy(acc) ==> r == (true, log)
    ensures UsesProxy(acc) ==>
      r.1 == log + [Sent(IpCheck)] && (r.0 <==> CheckProxyIp(server, log).0 == Ip(acc.proxyIp))
  {
    if UsesProxy(acc) then
      var (ip, log1) := CheckProxyIp(server, log);
      (ip == Ip(acc.proxyIp), log1)
    else (true, log)
  }

  /** The image URLs of a regular post: split at commas, stripped, blanks dropped. */
  function ImageUrls(imageUrl: string): (urls: seq<string>)
    ensures forall u | u in urls :: Framed(u)
  {
    CleanListFramed(Split(Strip(imageUrl), ','));
    CleanList(Split(Strip(imageUrl), ','))
  }

  /** Which posting call a post takes. */
  datatype Shape = SlideShape | VideoShape(url: string) | CarouselShape(urls: seq<string>)
                 | ImageShape(url: string) | TextShape

  /**
   * The dispatch: a slide goes to the carousel helper; otherwise a non-blank
   * video URL wins, then several image URLs make a carousel, exactly one makes
   * a single-image post, and anything else is posted as text.
   */
  function ShapeOf(post: Post): (r: Shape)
    ensures post.slide <==> r.SlideShape?
    ensures r.VideoShape? <==> !post.slide && Strip(post.videoUrl) != []
    ensures r.VideoShape? ==> r.url == Strip(post.videoUrl)
    ensures r.CarouselShape? <==> !post.slide && Strip(post.videoUrl) == [] && |ImageUrls(post.imageUrl)| > 1
    ensures r.CarouselShape? ==> r.urls == ImageUrls(post.imageUrl)
    ensures r.ImageShape? <==> !post.slide && Strip(post.videoUrl) == [] && |ImageUrls(post.imageUrl)| == 1
    ensures r.ImageShape? ==> [r.url] == ImageUrls(post.imageUrl)
    ensures r.TextShape? <==> !post.slide && Strip(post.videoUrl) == [] && ImageUrls(post.imageUrl) == []
  {
    if post.slide then SlideShape
    else
      var image := Strip(post.imageUrl);
      var video := Strip(post.videoUrl);
      if video != [] then VideoShape(video)
      else if image != [] then
        var urls := ImageUrls(post.imageUrl);
        if |urls| > 1 then CarouselShape(urls)
        else if |urls| == 1 then ImageShape(urls[0])
        else TextShape
      else
        assert Split(image, ',') == [""];
        TextShape
  }

  const NoMediaItems := "슬라이드 게시물에 미디어 아이템이 없습니다."

  /**
   * The wait after a successful video post. It is recorded in full: the code
   * polls the stop flag during it, and a stop would cut it short.
   */
  const VideoPause := 30

  /**
   * The slide branch read as evidently intended: a slide with no media items
   * fails before any request; otherwise the carousel helper runs and its
   * publish response is the result.
   */
  function SlideCall(server: Server, log: seq<Effect>, acc: Account, post: Post): (r: (PostResult, seq<Effect>))
  {
    if post.mediaItems == [] then (Failure(NoMediaItems), log)
    else
      var c := CarouselApi.CarouselSpec(server, log, acc.apiId, acc.token, post.mediaItems, post.content);
      (match c.0 case Published(response) => Success(response) case Raised(m) => Failure(m), c.1)
  }

  /**
   * As written, the slide branch unpacks the helper's publish response (a
   * dict) as a `(success, result)` pair, which walks its keys: it needs
   * exactly two keys, the first is `success` and must be non-empty, and the
   * second is `result`. A non-empty `result` string then fails at
   * `result.get('id')`, so the only success leaves `result` empty.
   */
  function SlideSucceedsAsWritten(response: Json): (ok: bool)
    ensures ok ==> |response| == 2 && response[1].0 == ""
  {
    |response| == 2 && response[0].0 != "" && response[1].0 == ""
  }

  /**
   * The slide branch as written. A success carries the empty `result`, which
   * `if result:` skips, so it never yields a post id. A failure's message is
   * the second key when the first is empty (`raise Exception(result)`); the
   * text of an unpacking or attribute error is not modelled ("").
   */
  function SlideCallAsWritten(server: Server, log: seq<Effect>, acc: Account, post: Post): (r: (PostResult, seq<Effect>))
  {
    var c := SlideCall(server, log, acc, post);
    match c.0
    case Failure(_) => c
    case Success(response) =>
      if SlideSucceedsAsWritten(response) then (Success([]), c.1)
      else if |response| == 2 && response[0].0 == "" then (Failure(response[1].0), c.1)
      else (Failure(""), c.1)
  }

  /** The posting call for the post's shape; slides take the branch as written. */
  function PostCall(server: Server, log: seq<Effect>, acc: Account, post: Post): (r: (PostResult, seq<Effect>))
  {
    match ShapeOf(post)
    case SlideShape => SlideCallAsWritten(server, log, acc, post)
    case VideoShape(url) =>
      var v := PostVideo(server, log, acc.apiId, acc.token, url, post.content);
      if v.0.Success? then (v.0, v.1 + [Slept(VideoPause)]) else v
    case CarouselShape(urls) => ImageCarousel(server, log, acc.apiId, acc.token, urls, post.content)
    case ImageShape(url) => PostSingleImage(server, log, acc.apiId, acc.token, url, post.content)
    case TextShape => PostText(server, log, acc.apiId, acc.token, post.content)
  }

  const PermalinkBase := "https://www.threads.com/t/"

  /**
   * The permalink lookup: the server's non-empty "permalink" when the lookup
   * answered with status 200 (`Ok`), otherwise "https://www.threads.com/t/<id>".
   */
  function Permalink(server: Server, log: seq<Effect>, postId: string, token: string): (r: (string, seq<Effect>))
    ensures r.1 == log + [Sent(PermalinkLookup(postId, token))]
    ensures r.0 != []
    ensures !Answer(server, log, PermalinkLookup(postId, token)).Ok? ==> r.0 == PermalinkBase + postId
    ensures r.0 != PermalinkBase + postId ==>
      Lookup(Answer(server, log, PermalinkLookup(postId, token)).body, "permalink") == Some(r.0)
  {
    var req := PermalinkLookup(postId, token);
    var reply := Answer(server, log, req);
    var url :=
      if reply.Ok? then
        match Lookup(reply.body, "permalink")
        case Some(p) => if p != "" then p else PermalinkBase + postId
        case None => PermalinkBase + postId
      else PermalinkBase + postId;
    (url, log + [Sent(req)])
  }

  /** The outcome of an attempt: the returned flag, the account's last status, the row recorded. */
  datatype Attempted = Attempted(success: bool, status: string, row: Option<Row>)

  /** The id of a successful result, when it has a non-empty one (`if result:` / `if post_id:`). */
  function PostId(result: Json): Option<string>
  {
    if result == [] then None
    else match Lookup(result, "id")
      case Some(id) => if id != "" then Some(id) else None
      case None => None
  }

  /** `process_single_account`; `clock` gives the time after a number of effects. */
  function Attempt(server: Server, clock: nat -> string, log: seq<Effect>, acc: Account, post: Post)
    : (r: (Attempted, seq<Effect>))
  {
    if acc.apiId == "" || acc.token == "" then (Attempted(false, Failed, None), log)
    else
      var (proxyOk, log1) := ProxyCheck(server, log, acc);
      if !proxyOk then (Attempted(false, Working(post.title), None), log1)
      else
        var (res, log2) := PostCall(server, log1, acc, post);
        match res
        case Failure(_) => (Attempted(false, Failed, None), log2)
        case Success(result) =>
          match PostId(result)
          case None => (Attempted(true, Done, None), log2)
          case Some(id) =>
            var (url, log3) := Permalink(server, log2, id, acc.token);
            (Attempted(true, Done, Some((url, clock(|log2|)))), log3)
  }

  /**
   * What an attempt promises: missing credentials fail before any request; the
   * attempt succeeds exactly when the credentials are present, the proxy check
   * (if any) matched and the posting call succeeded; success shows "완료" and
   * every failure "실패", except a proxy mismatch, which leaves the account's
   * working status in place; a row is recorded exactly for a success whose
   * result carries an id, and its URL is never empty. As written, a slide
   * never records a row.
   */
  lemma AttemptOutcomes(server: Server, clock: nat -> string, log: seq<Effect>, acc: Account, post: Post)
    ensures var r := Attempt(server, clock, log, acc, post);
      var check := ProxyCheck(server, log, acc);
      && (acc.apiId == "" || acc.token == "" ==> r == (Attempted(false, Failed, None), log))
      && (r.0.success <==> acc.apiId != "" && acc.token != "" && check.0
                           && PostCall(server, check.1, acc, post).0.Success?)
      && (r.0.success <==> r.0.status == Done)
      && (!r.0.success && r.0.status != Failed ==>
            UsesProxy(acc) && !check.0 && r.0.status == Working(post.title) && r.1 == log + [Sent(IpCheck)])
      && (r.0.row.Some? <==> r.0.success && PostId(PostCall(server, check.1, acc, post).0.result).Some?)
      && (r.0.row.Some? ==> r.0.row.value.0 != [])
      && (post.slide ==> r.0.row.None?)
  {
    assert Working(post.title)[0] == '\'';
  }

  /**
   * The slide branch as written makes the same requests as the intended one,
   * succeeds only when the helper published a response that unpacks as a
   * non-empty first key and an empty second key, and never yields a post id.
   */
  lemma SlideAsWritten(server: Server, log: seq<Effect>, acc: Account, post: Post)
    ensures var w := SlideCallAsWritten(server, log, acc, post);
      var c := SlideCall(server, log, acc, post);
      && w.1 == c.1
      && (w.0.Success? <==> c.0.Success? && SlideSucceedsAsWritten(c.0.result))
      && (w.0.Success? ==> PostId(w.0.result).None?)
  {
  }

  /**
   * A slide whose publish response is `{"id": …}`, posted by an account with
   * credentials and no proxy: the attempt as written fails, while the
   * intended slide branch succeeds with the response as its result.
   */
  lemma SlideIdResponse(server: Server, clock: nat -> string, log: seq<Effect>, acc: Account, post: Post, id: string)
    requires post.slide && post.mediaItems != []
    requires acc.apiId != "" && acc.token != "" && !UsesProxy(acc)
    requires CarouselApi.CarouselSpec(server, log, acc.apiId, acc.token, post.mediaItems, post.content).0
             == CarouselApi.Published([("id", id)])
    ensures !SlideSucceedsAsWritten([("id", id)])
    ensures PostCall(server, log, acc, post).0.Failure?
    ensures !Attempt(server, clock, log, acc, post).0.success
    ensures SlideCall(server, log, acc, post).0 == Success([("id", id)])
  {
  }

  /**
   * The intended slide branch: a slide succeeds exactly when the carousel
   * helper publishes, its result is the publish response, and it makes the
   * helper's requests.
   */
  lemma SlideOutcome(server: Server, log: seq<Effect>, acc: Account, post: Post)
    requires post.mediaItems != []
    ensures var c := CarouselApi.CarouselSpec(server, log, acc.apiId, acc.token, post.mediaItems, post.content);
      && (SlideCall(server, log, acc, post).0.Success? <==> c.0.Published?)
      && (c.0.Published? ==> SlideCall(server, log, acc, post).0.result == c.0.response)
      && SlideCall(server, log, acc, post).1 == c.1
  {
  }
}
