/**
 * The Threads Graph API client used for posting: container creation, publishing,
 * the proxy IP check, and the four public posting calls that turn every error
 * into a `(False, message)` pair.
 *
 * The network is a `Server`: the reply to a request depends on the request and
 * on how many effects (requests and sleeps) came before it in the session. A
 * call returns the session's effect log extended by what it did, so the order
 * and number of requests is part of every result.
 */
module ThreadsApi {
  import opened Wrappers
  import opened PyText

  /**
   * A flat JSON object as the API returns it: key/value pairs in order. The
   * keys of a reply body are taken to be distinct, as in the dict `json()`
   * builds (where a repeated key keeps its last value).
   */
  type Json = seq<(string, string)>

  /** `body.get(key)`: the value of the first entry with that key. */
  function Lookup(body: Json, key: string): Option<string>
  {
    if body == [] then None
    else if body[0].0 == key then Some(body[0].1)
    else Lookup(body[1..], key)
  }

  /**
   * A lookup finds a value exactly when some entry has the key, and then it
   * is the value of the first such entry.
   */
  lemma {:induction false} LookupFinds(body: Json, key: string)
    ensures Lookup(body, key).Some? <==> exists k | 0 <= k < |body| :: body[k].0 == key
    ensures Lookup(body, key).Some? ==> exists k | 0 <= k < |body| ::
      body[k] == (key, Lookup(body, key).value) && forall j | 0 <= j < k :: body[j].0 != key
  {
    if body != [] && body[0].0 != key {
      LookupFinds(body[1..], key);
      assert forall k | 1 <= k < |body| :: body[k] == body[1..][k - 1];
      if Lookup(body, key).Some? {
        var k :| 0 <= k < |body[1..]| && body[1..][k] == (key, Lookup(body, key).value) && forall j | 0 <= j < k :: body[1..][j].0 != key;
        assert body[k + 1] == (key, Lookup(body, key).value);
        assert forall j | 0 <= j < k + 1 :: body[j].0 != key by {
          forall j | 0 <= j < k + 1 ensures body[j].0 != key {
            if j > 0 {
              assert body[j] == body[1..][j - 1];
            }
          }
        }
      }
    } else if body != [] {
      assert body[0] == (key, Lookup(body, key).value);
    }
  }

  /** Form-encoded requests to the Graph API (and the IP echo service). */
  datatype Request =
    | CreateContainer(apiId: string, data: map<string, string>)
    | Publish(apiId: string, creationId: string, token: string)
    | IpCheck
    | PermalinkLookup(postId: string, token: string)

  /**
   * A JSON reply, an HTTP error status with its body, or a transport error.
   * `Ok` stands for status 200: the success statuses other than 200, which
   * `raise_for_status` lets through and the permalink lookup rejects, are not
   * modelled.
   */
  datatype Reply = Ok(body: Json) | HttpError(code: nat, text: string) | RequestError(message: string)

  datatype Effect = Sent(request: Request) | Slept(seconds: nat)

  type Server = (nat, Request) -> Reply

  /** The reply to `req` issued right after the effects in `log`. */
  function Answer(server: Server, log: seq<Effect>, req: Request): Reply
  {
    server(|log|, req)
  }

  /** The message of the exception the private helpers raise for a failed reply. */
  function FailureText(reply: Reply): string
    requires !reply.Ok?
  {
    match reply
    case HttpError(code, text) => "HTTP 오류: " + Show(code) + " - " + text
    case RequestError(m) => "요청 오류: " + m
  }

  /** The message of `KeyError('id')`, raised when a reply has no "id". */
  const MissingId := "'id'"

  /**
   * The form data of `_create_media_container`: `media_type` and
   * `access_token` always; `text`, `image_url` and `video_url` only when not
   * empty; `is_carousel_item` = "true" only for carousel children.
   */
  function ContainerPayload(mediaType: string, token: string, text: string, imageUrl: string,
                            videoUrl: string, carouselItem: bool): (data: map<string, string>)
    ensures data.Keys <= {"media_type", "access_token", "text", "image_url", "video_url", "is_carousel_item"}
    ensures "media_type" in data && data["media_type"] == mediaType
    ensures "access_token" in data && data["access_token"] == token
    ensures ("text" in data <==> text != "") && ("text" in data ==> data["text"] == text)
    ensures ("image_url" in data <==> imageUrl != "") && ("image_url" in data ==> data["image_url"] == imageUrl)
    ensures ("video_url" in data <==> videoUrl != "") && ("video_url" in data ==> data["video_url"] == videoUrl)
    ensures ("is_carousel_item" in data <==> carouselItem) && (carouselItem ==> data["is_carousel_item"] == "true")
  {
    var base := map["media_type" := mediaType, "access_token" := token];
    var withText := if text != "" then base["text" := text] else base;
    var withImage := if imageUrl != "" then withText["image_url" := imageUrl] else withText;
    var withVideo := if videoUrl != "" then withImage["video_url" := videoUrl] else withImage;
    if carouselItem then withVideo["is_carousel_item" := "true"] else withVideo
  }

  /** `_create_media_container` filling its `data` dict one optional field at a time. */
  method BuildContainerPayload(mediaType: string, token: string, text: string, imageUrl: string,
                               videoUrl: string, carouselItem: bool) returns (data: map<string, string>)
    ensures data == ContainerPayload(mediaType, token, text, imageUrl, videoUrl, carouselItem)
  {
    data := map["media_type" := mediaType, "access_token" := token];
    if text != "" {
      data := data["text" := text];
    }
    if imageUrl != "" {
      data := data["image_url" := imageUrl];
    }
    if videoUrl != "" {
      data := data["video_url" := videoUrl];
    }
    if carouselItem {
      data := data["is_carousel_item" := "true"];
    }
  }

  /** `",".join(ids)` */
  function JoinComma(ids: seq<string>): string
  {
    if ids == [] then "" else Join(ids, ',')
  }

  /** The form data of `_create_carousel_container`; `text` is sent even when empty. */
  function CarouselPayload(token: string, childIds: seq<string>, text: string): map<string, string>
  {
    map["media_type" := "CAROUSEL", "children" := JoinComma(childIds), "text" := text, "access_token" := token]
  }

  /** The outcome of a create request: the new container's id, or the exception message. */
  datatype Created = Created(id: string) | CreateFailed(message: string)

  /**
   * Send a container-creating request and read the "id" of its reply: a failed
   * reply or a reply without "id" is an error with the helper's message.
   */
  function Create(server: Server, log: seq<Effect>, req: Request): (r: (Created, seq<Effect>))
    ensures r.1 == log + [Sent(req)]
    ensures r.0.Created? <==> Answer(server, log, req).Ok? && Lookup(Answer(server, log, req).body, "id").Some?
    ensures r.0.Created? ==> Lookup(Answer(server, log, req).body, "id") == Some(r.0.id)
  {
    var reply := Answer(server, log, req);
    var outcome :=
      if !reply.Ok? then CreateFailed(FailureText(reply))
      else match Lookup(reply.body, "id")
        case Some(id) => Created(id)
        case None => CreateFailed(MissingId);
    (outcome, log + [Sent(req)])
  }

  /** The `(True, result)` / `(False, message)` pair the public posting calls return. */
  datatype PostResult = Success(result: Json) | Failure(message: string)

  /**
   * Create a container, then publish it under the id the server returned.
   * Publishing happens only when creation produced an id; the call succeeds
   * exactly when the publish reply is a JSON body, which becomes the result;
   * every failure is reported as "<kind> 실패: <reason>".
   */
  function CreateAndPublish(server: Server, log: seq<Effect>, apiId: string, token: string,
                            data: map<string, string>, kind: string): (r: (PostResult, seq<Effect>))
    ensures var create := CreateContainer(apiId, data);
      var made := Create(server, log, create).0;
      && (made.CreateFailed? ==> r.1 == log + [Sent(create)])
      && (made.Created? ==> r.1 == log + [Sent(create), Sent(Publish(apiId, made.id, token))])
      && (r.0.Success? <==> made.Created? && Answer(server, log + [Sent(create)], Publish(apiId, made.id, token)).Ok?)
      && (r.0.Success? ==> Answer(server, log + [Sent(create)], Publish(apiId, made.id, token)) == Ok(r.0.result))
    ensures r.0.Failure? ==> kind + " 실패: " <= r.0.message
  {
    var (made, log1) := Create(server, log, CreateContainer(apiId, data));
    match made
    case CreateFailed(m) => (Failure(kind + " 실패: " + m), log1)
    case Created(id) =>
      var publish := Publish(apiId, id, token);
      var reply := Answer(server, log1, publish);
      var log2 := log1 + [Sent(publish)];
      if reply.Ok? then (Success(reply.body), log2) else (Failure(kind + " 실패: " + FailureText(reply)), log2)
  }

  /** `post_text`: a TEXT container, then publish. */
  function PostText(server: Server, log: seq<Effect>, apiId: string, token: string, text: string): (PostResult, seq<Effect>)
  {
    CreateAndPublish(server, log, apiId, token, ContainerPayload("TEXT", token, text, "", "", false), "텍스트 게시")
  }

  /** `post_single_image`: an IMAGE container carrying the text, then publish. */
  function PostSingleImage(server: Server, log: seq<Effect>, apiId: string, token: string,
                           imageUrl: string, text: string): (PostResult, seq<Effect>)
  {
    CreateAndPublish(server, log, apiId, token, ContainerPayload("IMAGE", token, text, imageUrl, "", false), "단일 이미지 게시")
  }

  const VideoWait := 20
  const VideoRetryWait := 10

  /**
   * `post_video`: a VIDEO container, a 20 s wait, then publish; if that publish
   * fails, a 10 s wait and exactly one more publish of the same container.
   */
  function PostVideo(server: Server, log: seq<Effect>, apiId: string, token: string,
                     videoUrl: string, text: string): (r: (PostResult, seq<Effect>))
    ensures var create := CreateContainer(apiId, ContainerPayload("VIDEO", token, text, "", videoUrl, false));
      var made := Create(server, log, create).0;
      && (made.CreateFailed? ==> r.1 == log + [Sent(create)] && r.0.Failure?)
      && (made.Created? ==>
            var publish := Publish(apiId, made.id, token);
            var first := log + [Sent(create), Slept(VideoWait)];
            if Answer(server, first, publish).Ok? then
              r == (Success(Answer(server, first, publish).body), first + [Sent(publish)])
            else
              var second := first + [Sent(publish), Slept(VideoRetryWait)];
              r.1 == second + [Sent(publish)] &&
              (r.0.Success? <==> Answer(server, second, publish).Ok?))
    ensures r.0.Failure? ==> "동영상 게시 실패: " <= r.0.message
  {
    var (made, log1) := Create(server, log, CreateContainer(apiId, ContainerPayload("VIDEO", token, text, "", videoUrl, false)));
    match made
    case CreateFailed(m) => (Failure("동영상 게시 실패: " + m), log1)
    case Created(id) =>
      var publish := Publish(apiId, id, token);
      var first := log1 + [Slept(VideoWait)];
      assert first == log + [Sent(CreateContainer(apiId, ContainerPayload("VIDEO", token, text, "", videoUrl, false))), Slept(VideoWait)];
      var reply := Answer(server, first, publish);
      if reply.Ok? then (Success(reply.body), first + [Sent(publish)])
      else
        var second := first + [Sent(publish), Slept(VideoRetryWait)];
        var again := Answer(server, second, publish);
        if again.Ok? then (Success(again.body), second + [Sent(publish)])
        else (Failure("동영상 게시 실패: " + FailureText(again)), second + [Sent(publish)])
  }

  /** How many publish requests a log holds. */
  function Publishes(log: seq<Effect>): nat
  {
    if log == [] then 0
    else Publishes(log[..|log| - 1]) + (if log[|log| - 1].Sent? && log[|log| - 1].request.Publish? then 1 else 0)
  }

  lemma PublishesAppend(log: seq<Effect>, e: Effect)
    ensures Publishes(log + [e]) == Publishes(log) + if e.Sent? && e.request.Publish? then 1 else 0
  {
    assert (log + [e])[..|log|] == log;
  }

  /** `post_video` sends at most two publish requests. */
  lemma VideoPublishesAtMostTwice(server: Server, log: seq<Effect>, apiId: string, token: string,
                                  videoUrl: string, text: string)
    ensures Publishes(PostVideo(server, log, apiId, token, videoUrl, text).1) <= Publishes(log) + 2
  {
    var r := PostVideo(server, log, apiId, token, videoUrl, text);
    var create := CreateContainer(apiId, ContainerPayload("VIDEO", token, text, "", videoUrl, false));
    var made := Create(server, log, create).0;
    PublishesAppend(log, Sent(create));
    if made.Created? {
      var publish := Publish(apiId, made.id, token);
      var first := log + [Sent(create), Slept(VideoWait)];
      assert first == (log + [Sent(create)]) + [Slept(VideoWait)];
      PublishesAppend(log + [Sent(create)], Slept(VideoWait));
      PublishesAppend(first, Sent(publish));
      if Answer(server, first, publish).Ok? {
        assert r.1 == first + [Sent(publish)];
      } else {
        var second := first + [Sent(publish), Slept(VideoRetryWait)];
        assert second == (first + [Sent(publish)]) + [Slept(VideoRetryWait)];
        PublishesAppend(first + [Sent(publish)], Slept(VideoRetryWait));
        PublishesAppend(second, Sent(publish));
        assert r.1 == second + [Sent(publish)];
      }
    } else {
      assert r.1 == log + [Sent(create)];
    }
  }

  /** The proxy IP check: the address the echo service saw, or the error pair. */
  datatype IpResult = Ip(address: string) | IpCheckFailed(message: string)

  /**
   * `check_proxy_ip`: the "origin" of the echo reply ("" when absent); when it
   * lists several addresses, the first one, stripped; any failed reply gives the
   * error pair instead of an address.
   */
  function CheckProxyIp(server: Server, log: seq<Effect>): (r: (IpResult, seq<Effect>))
    ensures r.1 == log + [Sent(IpCheck)]
    ensures r.0.Ip? <==> Answer(server, log, IpCheck).Ok?
    ensures r.0.Ip? ==> var origin := Lookup(Answer(server, log, IpCheck).body, "origin").GetOr("");
      && (',' !in origin ==> r.0.address == origin)
      && (',' in origin ==> r.0.address == Strip(Split(origin, ',')[0]) && ',' !in r.0.address)
    ensures r.0.IpCheckFailed? ==> "IP 확인 중 오류 발생: " <= r.0.message
  {
    var reply := Answer(server, log, IpCheck);
    var result :=
      if reply.Ok? then
        var origin := Lookup(reply.body, "origin").GetOr("");
        if ',' in origin then
          var first := Split(origin, ',')[0];
          FirstFieldStripped(origin);
          Ip(Strip(first))
        else Ip(origin)
      else IpCheckFailed("IP 확인 중 오류 발생: " + ErrorDescription(reply));
    (result, log + [Sent(IpCheck)])
  }

  /** The text of a failed request as `str(e)` shows it. */
  function ErrorDescription(reply: Reply): string
    requires !reply.Ok?
  {
    match reply
    case HttpError(code, text) => Show(code) + " " + text
    case RequestError(m) => m
  }

  /** The first comma field of a multi-address origin, stripped, holds no comma. */
  lemma FirstFieldStripped(origin: string)
    requires ',' in origin
    ensures ',' !in Strip(Split(origin, ',')[0])
  {
    StripWithin(Split(origin, ',')[0]);
  }

  /** The "at least two images" message of `post_carousel`. */
  const TooFewImages := "캐러셀에는 최소 2개 이상의 이미지가 필요합니다."

  /** The request that creates the carousel child for one image URL. */
  function ChildRequest(apiId: string, token: string, url: string): Request
  {
    CreateContainer(apiId, ContainerPayload("IMAGE", token, "", url, "", true))
  }

  /** The child ids collected so far, or the message of the exception that stopped the loop. */
  datatype Children = Children(ids: seq<string>) | ChildFailed(message: string)

  /**
   * The child-creating loop of `post_carousel` from URL `i` on, with `ids` the
   * ids collected before it: one IMAGE carousel item per URL, in URL order,
   * each id being the one the server returned for that URL's request.
   */
  function CreateChildren(server: Server, log: seq<Effect>, apiId: string, token: string,
                          urls: seq<string>, i: nat, ids: seq<string>): (r: (Children, seq<Effect>))
    requires i <= |urls|
    decreases |urls| - i
    ensures |log| <= |r.1| <= |log| + |urls| - i && r.1[..|log|] == log
    ensures forall k | |log| <= k < |r.1| :: r.1[k] == Sent(ChildRequest(apiId, token, urls[i + k - |log|]))
    ensures r.0.Children? ==> |r.1| == |log| + |urls| - i && |r.0.ids| == |ids| + |urls| - i && r.0.ids[..|ids|] == ids
  {
    if i == |urls| then (Children(ids), log)
    else
      var (made, log1) := Create(server, log, ChildRequest(apiId, token, urls[i]));
      match made
      case CreateFailed(m) => (ChildFailed(m), log1)
      case Created(id) =>
        var r := CreateChildren(server, log1, apiId, token, urls, i + 1, ids + [id]);
        assert r.1[..|log1|] == log1;
        assert r.1[..|log|] == log;
        r
  }

  /** Each collected id is the one the server returned for that URL's request. */
  lemma {:induction false} ChildIdsFromReplies(server: Server, log: seq<Effect>, apiId: string, token: string,
                                               urls: seq<string>, i: nat, ids: seq<string>)
    requires i <= |urls|
    decreases |urls| - i
    ensures var r := CreateChildren(server, log, apiId, token, urls, i, ids);
      r.0.Children? ==> forall k | i <= k < |urls| ::
        Create(server, r.1[..|log| + k - i], ChildRequest(apiId, token, urls[k])).0 == Created(r.0.ids[|ids| + k - i])
  {
    if i < |urls| {
      var (made, log1) := Create(server, log, ChildRequest(apiId, token, urls[i]));
      if made.Created? {
        ChildIdsFromReplies(server, log1, apiId, token, urls, i + 1, ids + [made.id]);
        var r := CreateChildren(server, log1, apiId, token, urls, i + 1, ids + [made.id]);
        if r.0.Children? {
          assert r.0.ids[..|ids| + 1] == ids + [made.id];
          assert r.0.ids[|ids|] == made.id;
          forall k | i <= k < |urls|
            ensures Create(server, r.1[..|log| + k - i], ChildRequest(apiId, token, urls[k])).0 == Created(r.0.ids[|ids| + k - i])
          {
            if k == i {
              assert r.1[..|log|] == log;
            } else {
              assert |log| + k - i == |log1| + k - (i + 1);
              assert |ids| + k - i == |ids + [made.id]| + k - (i + 1);
            }
          }
        }
      }
    }
  }

  /** `post_carousel` as a function of the session: guard, children, then the carousel container. */
  function ImageCarousel(server: Server, log: seq<Effect>, apiId: string, token: string,
                         urls: seq<string>, text: string): (r: (PostResult, seq<Effect>))
    ensures |urls| < 2 ==> r == (Failure(TooFewImages), log)
    ensures |urls| >= 2 && r.0.Success? ==> |r.1| == |log| + |urls| + 2
    ensures |urls| >= 2 && r.0.Failure? ==> "캐러셀 게시 실패: " <= r.0.message
    ensures |urls| >= 2 ==>
      var kids := CreateChildren(server, log, apiId, token, urls, 0, []);
      && (kids.0.ChildFailed? ==> r == (Failure("캐러셀 게시 실패: " + kids.0.message), kids.1))
      && (kids.0.Children? ==>
            r == CreateAndPublish(server, kids.1, apiId, token, CarouselPayload(token, kids.0.ids, text), "캐러셀 게시"))
      && (r.0.Success? <==>
            && kids.0.Children?
            && CreateAndPublish(server, kids.1, apiId, token, CarouselPayload(token, kids.0.ids, text), "캐러셀 게시").0.Success?)
  {
    if |urls| < 2 then (Failure(TooFewImages), log)
    else
      var (kids, log1) := CreateChildren(server, log, apiId, token, urls, 0, []);
      match kids
      case ChildFailed(m) => (Failure("캐러셀 게시 실패: " + m), log1)
      case Children(ids) => CreateAndPublish(server, log1, apiId, token, CarouselPayload(token, ids, text), "캐러셀 게시")
  }

  /**
   * `post_carousel` of the API helper: fewer than two URLs fail before any
   * request; otherwise the children are created in a loop, then the carousel.
   */
  method PostCarousel(server: Server, log0: seq<Effect>, apiId: string, token: string,
                      urls: seq<string>, text: string) returns (r: PostResult, log: seq<Effect>)
    ensures (r, log) == ImageCarousel(server, log0, apiId, token, urls, text)
  {
    if |urls| < 2 {
      return Failure(TooFewImages), log0;
    }
    var ids: seq<string> := [];
    log := log0;
    var i := 0;
    while i < |urls|
      invariant 0 <= i <= |urls|
      invariant CreateChildren(server, log, apiId, token, urls, i, ids) == CreateChildren(server, log0, apiId, token, urls, 0, [])
    {
      var (made, log1) := Create(server, log, ChildRequest(apiId, token, urls[i]));
      if made.CreateFailed? {
        return Failure("캐러셀 게시 실패: " + made.message), log1;
      }
      ids := ids + [made.id];
      log := log1;
      i := i + 1;
    }
    var published := CreateAndPublish(server, log, apiId, token, CarouselPayload(token, ids, text), "캐러셀 게시");
    r, log := published.0, published.1;
  }

  /**
   * A successful carousel sent one child request per URL, in URL order, and
   * then a carousel whose `children` are exactly the returned ids, comma-joined.
   */
  lemma CarouselChildrenInOrder(server: Server, log: seq<Effect>, apiId: string, token: string,
                                urls: seq<string>, text: string)
    requires |urls| >= 2
    requires ImageCarousel(server, log, apiId, token, urls, text).0.Success?
    ensures var r := ImageCarousel(server, log, apiId, token, urls, text);
      var kids := CreateChildren(server, log, apiId, token, urls, 0, []);
      && kids.0.Children? && |kids.0.ids| == |urls|
      && (forall k | 0 <= k < |urls| :: r.1[|log| + k] == Sent(ChildRequest(apiId, token, urls[k])))
      && r.1[|log| + |urls|] == Sent(CreateContainer(apiId, CarouselPayload(token, kids.0.ids, text)))
      && CarouselPayload(token, kids.0.ids, text)["children"] == JoinComma(kids.0.ids)
  {
    var kids := CreateChildren(server, log, apiId, token, urls, 0, []);
    var r := ImageCarousel(server, log, apiId, token, urls, text);
    assert r.1[..|kids.1|] == kids.1;
  }
}
