# Threads multi-account posting and engagement tool — a Dafny model

The tool runs Threads accounts from one desktop window. The model covers the
following parts of it:

* **Posting campaign.** Every selected post is published through the Threads
  Graph API by every checked account. This repeats for each of the post's
  remaining repetitions, and each repetition's post URLs go into a new
  spreadsheet.
* **Engagement job ("스하리").** It walks the search results, reads each
  target's user name and follows the user. It then likes, reposts and comments
  on up to a drawn number of the user's posts.
* **Scheduler's engagement worker.** A smaller worker that does the same walk.
* **Main window's collections.** The post list, the 50-entry account roster and
  the engagement statistics, together with how the window's signal handlers
  update them.

Modules, one per part of the program:

| module | what it models |
|---|---|
| `PyText` | the Python string built-ins the code relies on (`strip`, `split`, `upper`, `int`, `str`), for ASCII letters and digits |
| `ThreadsApi` | the API helper: container payloads, create and publish, the text, single-image, carousel and video calls, and the proxy IP check |
| `CarouselApi` | the carousel helper for "slide" posts: item validation, child containers, the video wait and the retry loop |
| `AccountAttempt` | `process_single_account`: credentials, the proxy check, choosing the posting call from the post's shape, the permalink lookup |
| `AccountGroups` | how the parallel path cuts the accounts into groups |
| `Campaign` | `ParallelWorker` as a class over its session state, with the specification functions its methods are proved against |
| `GuiStore` | `MultiAccountGUI`'s post list, roster and statistics as a class, and how the worker's signals change the post list |
| `Sahari` | `SahariWorker`'s target loop, its two-stage error escalation and the engagement on one user page |
| `ScheduleWorker` | the scheduler worker's target loop |
| `Browser` | the two login probes and the browser's proxy settings |
| `Comments`, `Ranges`, `FileNames`, `CrashLog` | the comment picker, the two `parse_range` dialects, the folder and spreadsheet names, and the crash logger's bounded buffer |

**The network is a function.** A `Server` maps a request, and the number of
effects already in the session, to a reply. An effect is a request sent or a
sleep. Every API call returns the session's effect log extended by what the
call did, so the contracts can state which requests go out, how many and in
what order.

**The stop flag is counted.** The flag is modelled by counting its reads: it
reads "running" while fewer than `stopAfter` reads have been made.

**The worker's signals are values.** The three Qt signals that touch the post
list are `save_posts_data`, `post_status_update` and `post_status_updated`.
The worker records them in order, and `GuiStore.ApplyAll` replays them on the
window's post list through the handlers `safe_save_posts_data`,
`safe_update_post_status` and `update_post_status_and_cleanup`.

**Attempts are a parameter of the campaign.** The campaign is given its
per-account attempt as a function. `Campaign.AttemptsAgainst` says that this
function is `AccountAttempt.Attempt` against the server and the clock. The
campaign's properties hold for any attempt function.

## Model

| member | source | states |
|---|---|---|
| ThreadsApi.ContainerPayload | threads_api_helper.py:6-20 | the container form always carries `media_type` and `access_token`; `text`, `image_url` and `video_url` are present exactly when non-empty; `is_carousel_item` = "true" is present exactly for carousel children |
| ThreadsApi.BuildContainerPayload | threads_api_helper.py:6-20 | filling the form one optional field at a time gives exactly that form |
| ThreadsApi.Create | threads_api_helper.py:6-29 | a create sends exactly its request; it yields an id exactly when the reply is a JSON body with an "id", and the id is that value |
| ThreadsApi.CreateAndPublish | threads_api_helper.py:98-105 | publishing happens only after a successful create, with the returned id; success holds exactly when the publish reply is JSON, and the result is that reply; every failure message starts with "<kind> 실패: " |
| ThreadsApi.PostVideo | threads_api_helper.py:132-146 | create, then a 20 s wait, then publish; a failed publish is followed by a 10 s wait and exactly one more publish of the same container; failures read "동영상 게시 실패: …" |
| ThreadsApi.VideoPublishesAtMostTwice | threads_api_helper.py:132-146 | a video post sends at most two publish requests |
| ThreadsApi.CheckProxyIp | threads_api_helper.py:85-96 | exactly one echo request; an address exactly when the reply is OK, namely the "origin" or, when that lists several, its first field stripped; otherwise the "IP 확인 중 오류 발생: " pair |
| ThreadsApi.FirstFieldStripped | threads_api_helper.py:91-93 | the first field of a multi-address origin holds no comma |
| ThreadsApi.CreateChildren | threads_api_helper.py:121-124 | the child loop only appends child requests, one per URL in URL order, and when it finishes it has one id per URL after the earlier ones |
| ThreadsApi.ChildIdsFromReplies | threads_api_helper.py:121-124 | every collected child id is the "id" the server returned for that URL's request |
| ThreadsApi.ImageCarousel | threads_api_helper.py:116-130 | fewer than two URLs fail with no request; a child that fails ends the call with "캐러셀 게시 실패: …" and that child's message; once every child is created, the call is create-and-publish of the carousel over the children's ids, so it succeeds exactly when every child was created and the carousel was created and published, and the publish reply is the result; a success sent one request per URL plus the carousel and the publish |
| ThreadsApi.PostCarousel | threads_api_helper.py:116-130 | the loop over the URLs computes exactly `ImageCarousel` |
| ThreadsApi.CarouselChildrenInOrder | threads_api_helper.py:121-127 | a successful carousel sent the child requests in URL order, then the carousel whose `children` is the comma-join of exactly the returned ids |
| CarouselApi.CheckItem | threads_carousel_helper.py:98-111 | an item is accepted exactly when its url is present and its upper-cased type is IMAGE or VIDEO; it is a video exactly for VIDEO; an unknown type gets the "지원하지 않는 미디어 타입" message |
| CarouselApi.ChildPayload | threads_carousel_helper.py:104-113 | an accepted item's request creates a carousel child carrying its url under `image_url` or `video_url` as its type says |
| CarouselApi.ChildrenExtend | threads_carousel_helper.py:98-115 | the item loop only appends to the log, at most one request per item, and exactly one per item when it finishes |
| CarouselApi.ChildrenTrace | threads_carousel_helper.py:98-115 | the loop sends requests only for accepted items, one per item, in item order |
| CarouselApi.ChildrenIds | threads_carousel_helper.py:95-115 | a finished loop holds one id per item after the earlier ones, and `has_video` is set exactly when some item is a video |
| CarouselApi.ChildrenFailure | threads_carousel_helper.py:98-115 | a failed loop stopped either at an invalid item, with nothing sent for it and that item's message, or right after a child reply without an id |
| CarouselApi.Attempt | threads_carousel_helper.py:128-130 | one try sends the carousel create first; a create without an id raises its message after that one request; otherwise the publish follows under the returned id, and the try publishes exactly when the publish reply is a JSON body, which is the response |
| CarouselApi.AttemptIsOneTry | threads_carousel_helper.py:128-130 | one try adds exactly one carousel-creating request |
| CarouselApi.RetryExtends | threads_carousel_helper.py:127-141 | the retry loop only appends to the log |
| CarouselApi.RetryBounds | threads_carousel_helper.py:118-143 | at least one and at most five tries; a marker error reaches the caller only after all five tries, so the final `raise last_exception` is unreachable |
| CarouselApi.CarouselSpec | threads_carousel_helper.py:90-93 | fewer than 2 or more than 20 items raise the size message with no request |
| CarouselApi.PostCarousel | threads_carousel_helper.py:85-143 | the helper's loops compute exactly `CarouselSpec` |
| CarouselApi.CreateChildren | threads_carousel_helper.py:95-115 | the item loop computes exactly the item-loop specification over the items' verdicts |
| CarouselApi.PublishWithRetries | threads_carousel_helper.py:117-143 | the retry loop computes exactly `RetryFrom` from try 0 |
| CarouselApi.FinishedChildren | threads_carousel_helper.py:95-115 | a finished item loop sent exactly one child request per item, in order, made one id per item and noted a video exactly when some item is one |
| CarouselApi.PublishedMeansAllChildren | threads_carousel_helper.py:90-130 | a published slide had 2 to 20 items, all valid, and its first requests are the children in item order |
| CarouselApi.PublishedWaitsForVideo | threads_carousel_helper.py:119-129 | a published slide with a video item waited 60 s right after the last child request, before the carousel request |
| AccountAttempt.ProxyCheck | multi_account_gui.py:942-952 | without complete proxy settings the check passes with no request; with them it sends one IP request and passes exactly when the echoed address equals `proxy_ip` |
| AccountAttempt.ImageUrls | multi_account_gui.py:985 | every image URL is stripped and non-blank |
| AccountAttempt.ShapeOf | multi_account_gui.py:956-1006 | a slide goes to the carousel helper; otherwise a non-blank video wins, then more than one image URL makes a carousel, exactly one a single image, and none a text post |
| AccountAttempt.Permalink | multi_account_gui.py:1017-1042 | one lookup request; the URL is never empty; it is "https://www.threads.com/t/<id>" when the lookup failed, and otherwise the server's permalink |
| AccountAttempt.AttemptOutcomes | multi_account_gui.py:926-1057 | missing credentials fail with no request; success holds exactly when the credentials are present, the proxy check passed and the posting call succeeded, and exactly when the status is "완료"; a proxy mismatch keeps "'<title>' 작업 중" after the single IP request; a row is recorded exactly for a success whose result has an id; as written, a slide never records a row |
| AccountAttempt.SlideSucceedsAsWritten | multi_account_gui.py:965-967 | as written, a slide counts as a success only when the publish response has exactly two keys and the second is empty |
| AccountAttempt.SlideAsWritten | multi_account_gui.py:959-967 | the slide branch as written makes the intended branch's requests, succeeds only when the response unpacks as a non-empty first key and an empty second key, and then yields no post id |
| AccountAttempt.SlideIdResponse | multi_account_gui.py:965-967 | with the publish response `{"id": …}`, an account with credentials and no proxy fails the attempt as written, while the corrected slide branch succeeds with that response as the result |
| AccountAttempt.SlideOutcome | multi_account_gui.py:959-967 | corrected (`SlideCall`): a slide succeeds exactly when the helper publishes, its result is the publish response, and it makes the helper's requests |
| AccountGroups.GroupsPartition | multi_account_gui.py:873 | the groups concatenate to the accounts in order, each non-empty and at most `limit` long, and every group but the last holds exactly `limit` |
| AccountGroups.GroupsOfOne | multi_account_gui.py:873 | with limit 1 the groups are the single accounts, in order |
| Campaign.Progress | multi_account_gui.py:810-829 | a post's round signals all address that post, never store a status and never show "완료" |
| Campaign.ExportWrites | multi_account_gui.py:1071-1150 | with URLs collected and a free name among the first 100 candidates, a new spreadsheet with exactly those URLs is added and the URLs are forgotten; otherwise nothing changes; no spreadsheet is overwritten |
| Campaign.StepFrame | multi_account_gui.py:819 | one attempt reads no flag, sends no post signal, writes no file and appends its account to those worked on |
| Campaign.GroupAttempts | multi_account_gui.py:878-896 | a group submits all its accounts in order, with no flag read inside the group |
| Campaign.ParallelFrame | multi_account_gui.py:875-896 | the grouped round sends no post signal and writes no file |
| Campaign.ParallelAttempts | multi_account_gui.py:873-896 | the grouped round works on a prefix of the groups' accounts, in order, and on all of them exactly when no stop was read |
| Campaign.SequentialIsGroupsOfOne | multi_account_gui.py:815-826 | the one-by-one round is the grouped round with groups of one |
| Campaign.CycleFrame | multi_account_gui.py:815-826 | a round sends no post signal and writes no file |
| Campaign.CycleAttempts | multi_account_gui.py:815-826 | a round works on a prefix of the checked accounts, in order, and on all of them exactly when no stop was read |
| Campaign.RepetitionFrame | multi_account_gui.py:811-836 | a repetition sends exactly "<n>/<count> 진행 중", the progress `n`, and "<n>/<count> 완료"; it removes no spreadsheet and leaves none of the post's URLs in memory |
| Campaign.CyclesFrame | multi_account_gui.py:810-846 | the repetitions only add flag reads and spreadsheets |
| Campaign.CyclesProgress | multi_account_gui.py:810-829 | the repetitions report their rounds in order, one per started repetition and all of them when no stop was read, and send nothing else |
| Campaign.ResultsCleared | multi_account_gui.py:833-836 | after the repetitions no URL of the post is left in memory |
| Campaign.PostRunOutcome | multi_account_gui.py:799-852 | a post is marked completed exactly when no stop was read during it, and then every remaining repetition reported its round before the completion |
| Campaign.PostRunSignals | multi_account_gui.py:847-852 | the completion signals follow the rounds exactly when the flag still reads running |
| Campaign.PostRunCompletes | multi_account_gui.py:847-852 | one post's run only appends signals, and it completes the post exactly when no stop was read |
| Campaign.RunCompletesAll | multi_account_gui.py:799-854 | a run that reads no stop marks every selected post completed |
| Campaign.ParallelWorker.constructor | multi_account_gui.py:771-779 | the worker starts with no requests, no flag reads, no URLs and no signals |
| Campaign.ParallelWorker.IsRunning | multi_account_gui.py:800 | reading the flag answers "running" exactly while fewer than `stopAfter` reads were made, and counts the read |
| Campaign.ParallelWorker.ProcessSingleAccount | multi_account_gui.py:926-1057 | the method is one `Step`, and it returns the attempt's success |
| Campaign.ParallelWorker.SequentialCycle | multi_account_gui.py:815-826 | the account loop computes exactly the one-by-one round |
| Campaign.ParallelWorker.RunGroup | multi_account_gui.py:878-896 | the submission loop computes exactly one group's attempts |
| Campaign.ParallelWorker.ParallelCycle | multi_account_gui.py:873-896 | the group loop computes exactly the grouped round over `Groups(accounts, limit)` |
| Campaign.ParallelWorker.SavePostResultsToExcel | multi_account_gui.py:1071-1150 | the method is exactly `Export` |
| Campaign.ParallelWorker.RunRepetition | multi_account_gui.py:811-836 | one repetition is exactly `Repetition` |
| Campaign.ParallelWorker.RunRepetitions | multi_account_gui.py:810-846 | the repetition loop is exactly `Cycles` |
| Campaign.ParallelWorker.ProcessPost | multi_account_gui.py:799-853 | one post's processing is exactly `PostRun` |
| Campaign.ParallelWorker.Run | multi_account_gui.py:781-795 | the whole run is exactly `RunFrom` over the selected posts |
| GuiStore.PostsToProcessExact | multi_account_gui.py:2444-2459 | a run starts exactly when some post waits; it takes every waiting post with its own index, in list order, or only the first of them when no repeat interval is set |
| GuiStore.AccountSelectionChecked | multi_account_gui.py:2405-2436 | only checked accounts run, each with its own index; only the dialog cancels; unless accounts are excluded, every checked account runs |
| GuiStore.AccountSelectionExcluding | multi_account_gui.py:2431-2434 | "exclude" keeps exactly the checked accounts with complete proxy settings |
| GuiStore.ImportedShape | multi_account_gui.py:2869-2910 | an import leaves exactly 50 entries: the first 50 rows in order, then blank entries |
| GuiStore.AfterDeleteShape | multi_account_gui.py:2959-2974 | deleting keeps every unchecked entry in order, removes every checked one and refills with blank entries to 50 |
| GuiStore.SaveProgressAt | multi_account_gui.py:2500-2507 | saving a progress changes at most the addressed slot |
| GuiStore.UpdateStatusAt | multi_account_gui.py:2509-2518 | storing a status changes at most the addressed slot |
| GuiStore.ShowStatusAt | multi_account_gui.py:3054-3078 | showing a status changes at most the addressed slot |
| GuiStore.StatusAndCleanup | multi_account_gui.py:2520-2541 | the shown-status handler changes at most the addressed slot |
| GuiStore.CompletionApplied | multi_account_gui.py:848-852 | a completion empties the slot under auto-delete, otherwise it marks the post completed with progress 0, and the next run picks it up exactly when it repeats |
| GuiStore.RoundApplied | multi_account_gui.py:813-829 | one round leaves the slot showing "<n>/<count> 완료" with progress `n` |
| GuiStore.RoundedWaiting | multi_account_gui.py:813-829 | after round `n` the next run picks the post up exactly when its own repeat count exceeds `n`, so a post stopped during its only repetition is not resumed |
| GuiStore.RoundsApplied | multi_account_gui.py:810-829 | the rounds `from`..`until - 1` leave the slot with the last round's status and progress `until`, and change no other slot |
| GuiStore.SweptExact | multi_account_gui.py:2543-2565 | the sweep removes exactly the empty slots, keeps the others in order and reports how many it removed |
| GuiStore.DefaultsKeepMeaning | multi_account_gui.py:2096-2104 | the defaults keep present values, whether the post waits and the shown status, and a second fill changes nothing |
| GuiStore.FillDefaultsExact | multi_account_gui.py:2096-2104 | the fill keeps every slot's presence, fills every post before the first empty slot and is idempotent |
| GuiStore.FillDefaultsMeaning | multi_account_gui.py:2096-2104 | the fill keeps whether each post waits and what it shows |
| GuiStore.ShownMeaning | multi_account_gui.py:2105-2124 | storing the shown status changes only the status and is stable; a waiting repeated post whose progress reached its count stops being picked up |
| GuiStore.ResetWaits | multi_account_gui.py:2185-2201 | a reset post waits with progress 0, and nothing else about it changes |
| GuiStore.ResetSelectedExact | multi_account_gui.py:2185-2201 | only reset posts change, every changed post waits, and with some post checked exactly the checked posts are reset |
| GuiStore.RepeatSettings | multi_account_gui.py:3153-3162 | the settings `save` stores before its reload: the progress restarts at 0; cancelling repetition sets one repetition and waiting; otherwise the spin value is stored and the status kept until the reload (`SaveRepeatSettings`) |
| GuiStore.CountedExact | multi_account_gui.py:3670-3698 | counting an action adds one to the total exactly for a known action, and no counter decreases |
| GuiStore.BumpedExact | multi_account_gui.py:3670-3698 | counting creates the username's entry if needed and changes no other username's counters |
| GuiStore.SettledExact | multi_account_gui.py:2494-2498 | after a run no account shows a working status; one left at "'<title>' 작업 중" is back to waiting, and every other status stays |
| GuiStore.MultiAccountGUI.constructor | multi_account_gui.py:1165-1201 | the window holds the accounts and statistics it was given, and the posts as `load_post_data` leaves them (`Loaded`) |
| GuiStore.MultiAccountGUI.ImportAccountsFromExcel | multi_account_gui.py:2869-2910 | an import replaces the roster with `Imported(rows)`; with no file the roster is unchanged |
| GuiStore.MultiAccountGUI.DeleteSelectedAccounts | multi_account_gui.py:2945-2980 | with nothing checked, or when not confirmed, nothing changes; otherwise the roster becomes `AfterDelete` and the number removed is reported |
| GuiStore.MultiAccountGUI.RemoveChecked | multi_account_gui.py:2960-2961 | deleting from the back leaves exactly the unchecked entries, in order |
| GuiStore.MultiAccountGUI.PadRoster | multi_account_gui.py:2964-2974 | the refill loop appends blank entries up to 50 |
| GuiStore.MultiAccountGUI.CleanupDeletedPosts | multi_account_gui.py:2543-2565 | the number of empty slots is reported; the post list becomes the sweep, loaded again when anything was removed |
| GuiStore.MultiAccountGUI.LoadPostData | multi_account_gui.py:2096-2124 | it reports completion exactly when no slot is empty; the posts become `Loaded`: the fill, and also the shown statuses when it completes |
| GuiStore.LoadedStable | multi_account_gui.py:2096-2124 | loading posts that are all present shows each with its repeat defaults filled in, and loading again changes nothing |
| GuiStore.MultiAccountGUI.FillPostDefaults | multi_account_gui.py:2096-2104 | the fill loop computes exactly `FillDefaults` |
| GuiStore.MultiAccountGUI.ShowPostTable | multi_account_gui.py:2105-2124 | every post's shown status is stored back |
| GuiStore.MultiAccountGUI.ResetSelectedStatus | multi_account_gui.py:2185-2201 | when no slot is empty and a post is checked or the reset of all is confirmed, the post list becomes `ResetSelected`, loaded again; otherwise nothing changes |
| GuiStore.MultiAccountGUI.StartAllAccounts | multi_account_gui.py:2402-2479 | a started run hands over the dialog's accounts and the posts to process, and sets every checked account to waiting |
| GuiStore.MultiAccountGUI.OnWorkerFinished | multi_account_gui.py:2487-2498 | the sweep runs (loading the posts again when it removed any), then the accounts are settled |
| GuiStore.MultiAccountGUI.SaveRepeatSettings | multi_account_gui.py:3153-3164 | the post's repeat settings become `RepeatSettings` and the posts are loaded again; an empty slot changes nothing |
| GuiStore.MultiAccountGUI.SafeSavePostsData | multi_account_gui.py:2500-2507 | the handler stores the progress at the index |
| GuiStore.MultiAccountGUI.SafeUpdatePostStatus | multi_account_gui.py:2509-2518 | the handler stores the status at the index |
| GuiStore.MultiAccountGUI.UpdatePostStatusAndCleanup | multi_account_gui.py:2520-2541 | the handler shows the status, and empties the slot for "완료" under auto-delete |
| GuiStore.MultiAccountGUI.UpdateSahariStats | multi_account_gui.py:3670-3698 | an in-range account's username gets the action counted; other indices change nothing |
| Sahari.Rounds | multi_account_gui.py:572 | `len(range(min(drawn, post_count)))` is at most both, and equals one of them or is 0 |
| Sahari.Completed | multi_account_gui.py:572-575 | the passes before a stop read, and the loop ends early only at one |
| Sahari.Engage | multi_account_gui.py:566-635 | the like and repost loops run the completed passes and report the counted ones |
| Sahari.CommentLoop | multi_account_gui.py:640-711 | a blank comment box means no pass; otherwise the loop runs like `Engage` |
| Sahari.CommentsGained | multi_account_gui.py:640-711 | a blank comment box reports no comment, and never more than the rounds |
| Sahari.Gains | multi_account_gui.py:535-716 | one follow at most; likes, reposts and comments are at most `post_count`; nothing is drawn without posts; a run fails exactly when a drawn range is inverted |
| Sahari.PassCounting | multi_account_gui.py:451-533 | one pass keeps both error counters below three, or ends with a restart exactly when the second counter reaches three; `count` advances once per engaged or skipped target; a pass ends the run by an exception exactly when opening the user page raised or a drawn range is inverted, with the name-error counter reset |
| Sahari.ScanCounting | multi_account_gui.py:451-734 | a restart is requested exactly when the second-stage counter reaches three; `count` never goes back; a completed run stops right after target `follow_count`; a run ended by an exception has the name-error counter reset and requests no restart |
| Sahari.PassEngaged | multi_account_gui.py:451-721 | one pass keeps the engaged targets ascending within range, with at most one follow each |
| Sahari.ScanEngaged | multi_account_gui.py:451-721 | a run engages each target between the first and `follow_count` once, in order, with at most one follow each |
| Sahari.SahariWorker.constructor | multi_account_gui.py:348-370 | the worker keeps its job and `start_index`, with both error counters at 0 |
| Sahari.SahariWorker.VisitTarget | multi_account_gui.py:535-716 | one user page is exactly `Gains` |
| Sahari.SahariWorker.ScanTargets | multi_account_gui.py:451-722 | the target loop, over the worker's counters, is exactly `ScanFrom` |
| Sahari.SahariWorker.TakePass | multi_account_gui.py:451-721 | one pass over the worker's counters is exactly `Pass`, including a user page that raises when opened |
| Sahari.SahariWorker.RunPlaywright | multi_account_gui.py:440-729 | as written, the scan starts at target 1; a restart is requested from the current `count` only while still running |
| Sahari.SahariWorker.RunPlaywrightResuming | multi_account_gui.py:440-729 | corrected: the scan starts at `start_index` |
| Sahari.FirstTarget | multi_account_gui.py:369 | a resumed scan starts at `start_index` when it is at least 1 |
| Sahari.RestartRescansFirstTarget | multi_account_gui.py:440 | as written, a restarted job engages target 1 again |
| Sahari.ResumedScanSkipsDone | multi_account_gui.py:440-451 | resuming engages no target before `start_index` or after `follow_count`, and a restart requested from it resumes further on |
| ScheduleWorker.RunTargets | main_for_schedule.py:274-382 | `count` grows by one per pass; the run stops after target `follow_count` or at the first failing pass; `follow_done` counts the visible follow buttons |
| ScheduleWorker.EveryVisibleFollowCounted | main_for_schedule.py:282-300 | when every follow button is visible, `follow_count` users are followed |
| ScheduleWorker.NoVisibleFollowNoneCounted | main_for_schedule.py:282-300 | with no visible follow button nobody is followed |
| Browser.IsLoginRequired | main_for_schedule.py:73-119 | up to ten looks; logged in exactly when the last look shows the marker; ten inconclusive looks mean a login is required |
| Browser.IsLoginRequiredOnce | multi_account_gui.py:153-160 | a login is required exactly when the login button is visible |
| Browser.BrokenPageVerdicts | multi_account_gui.py:153-160 | on a failing page the two probes disagree |
| Browser.ProxyConfig | main_for_schedule.py:160-169 | a proxy is configured exactly when the server is not blank; the user name and password are added exactly when not blank; every value is stripped |
| Comments.CommentLines | main_for_schedule.py:173-179 | every candidate comment is stripped and non-blank |
| Comments.NoCommentsIffBlank | main_for_schedule.py:173-179 | there is no candidate exactly when the text is blank |
| Comments.GetRandomComment | main_for_schedule.py:173-179 | "" exactly for blank text, otherwise one of the stripped lines |
| Comments.PickComment | multi_account_gui.py:218-227 | `None` exactly for blank text, otherwise one of the stripped lines |
| Ranges.ParseRangeWith | multi_account_gui.py:229-239 | any result other than the fallback comes from exactly two integer pieces, or from one integer used twice |
| Ranges.UnparsableGivesFallback | multi_account_gui.py:229-239 | text whose first piece is not an integer, or that has more than two pieces, gives the fallback |
| Ranges.DashPair | multi_account_gui.py:229-239 | "<lo>-<hi>" with non-negative bounds reads back as the two bounds |
| Ranges.DashLone | multi_account_gui.py:229-239 | a lone non-negative number is used for both bounds; a negative one gives (0, 0) |
| Ranges.TildePair | main_for_schedule.py:181-191 | "<lo>~<hi>" reads back as both integers, signs included |
| Ranges.TildeLone | main_for_schedule.py:181-191 | a lone integer is used for both bounds |
| FileNames.SanitizeFolderName | multi_account_gui.py:139-141 | each of the nine characters Windows refuses in file names becomes `_`; every other character and the length stay |
| FileNames.SanitizedIsClean | multi_account_gui.py:139-141 | a sanitized name holds no forbidden character |
| FileNames.SanitizeIdempotent | multi_account_gui.py:139-141 | sanitizing twice is sanitizing once, and a clean name is unchanged |
| FileNames.ExportTitle | multi_account_gui.py:1090-1094 | the stem is never empty and clean; it is "게시물_<index>" for a blank title, and otherwise at most 50 characters and not starting with white space |
| FileNames.FallbackClean | multi_account_gui.py:1093-1094 | the fallback stem is clean |
| FileNames.SanitizeKeepsBlank | multi_account_gui.py:1091-1093 | replacing characters keeps a title blank exactly when it was blank |
| FileNames.ChooseExportFile | multi_account_gui.py:1096-1109 | the first free name among "<stem>.xlsx", "<stem>_1.xlsx" … "<stem>_99.xlsx", and none exactly when all one hundred exist |
| CrashLog.Appended | multi_account_gui.py:70-78 | the entry is appended; past 1000 entries exactly 800 remain; the result is a suffix of the old buffer plus the entry |
| CrashLog.RecentKept | multi_account_gui.py:70-78 | the most recent entries, up to 800 of them, are always at the end of the buffer, in order |
| CrashLog.CrashLogger.constructor | multi_account_gui.py:44-45 | the buffer starts empty |
| CrashLog.CrashLogger.AddLog | multi_account_gui.py:70-78 | the buffer becomes `Appended` with the stamped entry |

## Left out

- Concurrency: each group's accounts are attempted one after another, in submission order, as the thread pool's results are read.
- Sleeps in the API and carousel helpers are `Slept` effects.
- The campaign's repeat-interval waits and `handle_repeat_interval` are not modelled: they leave no effect, and a stop during them takes effect at the next modelled read of the flag.
- AccountAttempt.PostCall: the 30-second wait after a video post is recorded in full as one `Slept` effect. The code polls the stop flag during it, so a stop cuts it short.
- PyText.UpperAscii and PyText.ParseInt cover ASCII only: `upper` maps only `a` to `z`, and `int` accepts only the digits 0 to 9, not other Unicode digits or case mappings.
- The re-emit of `account_last_result` during repeat waits is not modelled. It would turn a proxy mismatch's "작업 중" into "실패".
- `post_successful_for_all_accounts` is not modelled: the code only logs it.
- Spreadsheet write failures, the data folder's creation and `PermissionError` retries are not modelled. An export either writes or does nothing.
- Reply bodies are taken to have distinct keys. A body with a repeated key would keep its last value in the dict `json()` builds.
- `Ok` replies stand for status 200. The other success statuses, which `raise_for_status` accepts and the permalink lookup rejects, are not modelled.
- Proxy routing of requests is not modelled. The proxy only decides whether the IP check runs.
- The `KeyError` on an account without a username in the log messages is not modelled.
- GuiStore.MultiAccountGUI.StartAllAccounts: the guard against a worker already running and the 1 to 50 range of the concurrent-limit spin box are not modelled.
- A sweep that fires while a run is active would shift the post indices the worker holds. The model applies the signals to a list that the sweep leaves alone.
- Qt tables, dialogs, file saves and loads (JSON, spreadsheets), MD5 session hashes, log messages, entry points and the browser's page actions are not modelled. The engagement job sees the browser as a sequence of observations.
- The engagement job's user-page loading loop is an observation. A page that never loads is the end of the observation stream (`OutOfObservations`). An exception while opening the page is its own observation (`Unopened`), which ends the run (`Crashed`).
- `random.choice` and `random.randint` are modelled by a `:|` choice and by the drawn numbers carried in the observations.
- login_gui.py, main.py, catbox_uploader.py and the scheduler's window are not part of this model.

## Findings

The attempt and the campaign keep the slide branch as the code writes it (`SlideCallAsWritten`); `SlideCall` is the corrected branch, and the proved properties of both are in `AccountAttempt`.

| source | as written | input that shows it | evidently intended | confidence | as-written member | corrected member |
|---|---|---|---|---|---|---|
| multi_account_gui.py:965 | the slide branch unpacks the carousel helper's publish response (a dict) as a `(success, result)` pair | a publish response `{"id": "123"}`: one key, so the unpacking raises and the attempt fails although the slide was published | success exactly when the helper publishes, with the response as the result | high (not executed) | AccountAttempt.SlideIdResponse | AccountAttempt.SlideOutcome |
| multi_account_gui.py:440 | `run_playwright` sets `count = 1` and ignores the `start_index` that the restart passes in | a restart requested at target 3: the new worker engages target 1 again | the scan resumes at `start_index` | high (not executed) | Sahari.RestartRescansFirstTarget | Sahari.ResumedScanSkipsDone |
