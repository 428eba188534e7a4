# skill-swap, modelled in Dafny

skill-swap is a FastAPI task marketplace for students. A user posts a task.
Another user accepts it and later marks it completed. The two may then rate
each other once per task, and ratings can be flagged for moderation. Users can
also file reports about one another. The data lives in DynamoDB tables, and
callers identify themselves with an `x-user-id` header. The users, ratings and
reports tables are read and written under a single id. The task table is not
addressed consistently. `task.py` reads and writes tasks under `task_id` alone.
The rating routes' task check asks `get_item` for the key (`task_id`,
`status`). The model takes the table's key schema as a parameter of that check
(see below).

This project models the request handlers of the current routes (tasks, users,
ratings, reports) and of the earlier `pup-skillswap-main` routes (tasks,
ratings) as pure functions:

- Each table is a `map` from id to record. An attribute an item may lack is an `Option`.
- A handler takes the tables it reads and returns `Result<Reply<store, body>>`.
  `Err(Error(code, why))` is the HTTP error it raises. `CaughtAll(e)` is a
  handler-wide `except Exception` re-raising `e` as a 500.
- Fresh uuids and clock readings are parameters, and `Time` is a `nat`.
- A table scan is a parameter `scan: seq<Id>`. `IsScanOf(scan, table)` states
  that it lists each key of the table exactly once, in the store's scan order.
- Where the code has a bug (see "## Findings"), the handler takes a variant
  parameter. `TaskLifecycle.AsWritten` and `Ratings.FirstItemRaw` are the code
  as it stands. `TaskLifecycle.RecordingCompleter` and `Ratings.WholeTable` are
  the evidently intended behaviour. Lemmas state which variant they are about.
- The rating routes' task check takes the task table's key schema,
  `Ratings.TaskKeySchema`. Under `KeyedByTaskIdAndStatus` the completed task is
  found under its stripped id, which is the "task record or none" lookup that
  the rating routes' own checks are stated against. Under `KeyedByTaskId`, the
  key `task.py` uses, the two-attribute `get_item` is rejected and the check
  answers 500. The Eligibility lemmas that follow a task from posting to rating
  are stated under `KeyedByTaskIdAndStatus`.

| file | module | models |
|---|---|---|
| base.dfy, http.dfy | `Base`, `Http` | `Option`, ids, time; errors, results, replies, the catch-all 500 |
| text.dfy | `Text` | `str.strip()` with Python's whitespace set, blank tests, ASCII `lower()`, substring search |
| scan.dfy | `Scan` | scans of a table, filtering a scan |
| auth.dfy | `Auth` | the `x-user-id` header dependency |
| tasks.dfy, task_listing.dfy | `Tasks`, `TaskListing` | `api/routes/task.py`: create, get, accept, complete, delete, the three listings |
| task_lifecycle.dfy | `TaskLifecycle` | any sequence of task calls: the invariants they keep |
| task_routes.dfy | `TaskRoutes` | which handler `GET /tasks/<segment>` reaches |
| users.dfy | `Users` | `api/routes/users.py` |
| rating_stats.dfy, ratings.dfy | `RatingStats`, `Ratings` | `api/routes/ratings.py` |
| reports.dfy | `Reports` | `api/routes/reports.py` |
| legacy_tasks.dfy, legacy_ratings.dfy | `LegacyTasks`, `LegacyRatings` | the `pup-skillswap-main` task and rating routes |
| eligibility.dfy | `Eligibility` | how users, tasks and ratings fit together: who may rate whom |

Where the code and its comments or documentation disagree, the model follows the code:

- `get_my_reports` is commented as returning the reports sent to the caller. It
  filters on `from_user_id`, so it returns the reports the caller filed.
- The `include_flagged` parameter of `get_ratings_for_user` is described as
  "admin only". Nothing checks that, so any active user may list flagged ratings.
- The route classes `api/models.py` ships do not include `RatingOut`,
  `PublicUser`, `TaskCreate`, `Task`, `TaskAction` or `ReportOut`. Its
  `RatingCreate` has `from_user`/`to_user`, not the `to_user_id`/`task_id` that
  `create_rating` reads. Each payload is therefore modelled by the fields its
  handler reads.

## Model

| member | source | states |
|---|---|---|
| Http.CaughtAll | pup-skillswap-main/pup-skillswap-main/api/routes/task.py:26-27 | a caught error becomes a 500 that still carries the original error |
| Auth.Authenticate | api/routes/auth.py:5-9 | a missing or empty header is a 401; otherwise the header value is the caller, unchecked |
| Text.Strip | api/routes/ratings.py:66 | the result is a contiguous piece of the input with only whitespace on either side of it, and it starts and ends with a non-whitespace character (or is empty) |
| Text.StripLeftShape | api/routes/ratings.py:66 | what left-stripping removes is whitespace only, and what it keeps is a suffix of the input |
| Text.StripRightShape | api/routes/ratings.py:66 | what right-stripping removes is whitespace only, and what it keeps is a prefix of the input |
| Text.StripIdempotent | api/routes/ratings.py:60-67 | stripping an already stripped id changes nothing |
| Text.BlankIffAllSpace | api/routes/ratings.py:60 | `not s or not s.strip()` holds exactly for all-whitespace strings |
| Scan.Filter | api/routes/users.py:38-51 | a filtered scan keeps exactly the rows that pass, each as often as before, and drops every other row |
| Scan.FilterRowsCountOn | api/routes/users.py:38-51 | filtering the rows of a duplicate-free key list keeps one row per listed key whose item passes |
| Scan.FilterRowsCount | api/routes/users.py:38-51 | a filtered full scan has exactly as many rows as the table has items that pass |
| Scan.RowsMultiplicityOn | api/routes/users.py:38-51 | the rows of a duplicate-free key list hold each value as often as the listed keys that store it |
| Scan.RowsMultiplicity | api/routes/users.py:38-51 | a full scan returns each value once for every key that stores it |
| Scan.FilterRowsMultiplicity | api/routes/users.py:38-51 | a filtered full scan holds each passing value once for every key that stores it, and no failing value |
| Scan.ScanLength | api/routes/task.py:57-58 | a full scan returns as many rows as the table has items |
| Tasks.Serialize | api/routes/task.py:16-31 | the response copies the item, shows a missing status as open and missing tags as empty, and never shows `completed_by` |
| Tasks.CreateTask | api/routes/task.py:34-52 | one new item under the fresh id, open, posted by the caller, nothing accepted or completed; other items untouched |
| Tasks.GetTask | api/routes/task.py:98-107 | 404 exactly when the id is absent; otherwise the item in its serialized form |
| Tasks.AcceptTask | api/routes/task.py:63-78 | 404, then a KeyError 500 for a missing status, then 400 unless open; success sets status, accepter and time only |
| Tasks.CompleteTask | api/routes/task.py:81-95 | 404, then one 403 unless accepted by the caller; success sets status and time and leaves `completed_by` as it was |
| Tasks.DeleteTask | api/routes/task.py:111-126 | 404, then 403 for a non-poster, then a KeyError 500 for a missing status, then 400 for any status other than open; success removes exactly that item |
| Tasks.DeleteIsHard | api/routes/task.py:124-125 | after a delete, fetching or deleting the task again is a 404 |
| Tasks.CreateThenGet | api/routes/task.py:34-52 | a created task can be fetched back as posted |
| Tasks.PosterMayAcceptOwnTask | api/routes/task.py:63-71 | nothing stops the poster from accepting their own task |
| Tasks.SecondAcceptFails | api/routes/task.py:69-71 | once accepted, every further accept is a 400, whoever asks |
| TaskListing.Insert | api/routes/task.py:59 | inserting into a newest-first list keeps it newest first and is a permutation |
| TaskListing.SortNewestFirst | api/routes/task.py:59 | the sort is a permutation ordered by timestamp, newest first |
| TaskListing.GetAllTasks | api/routes/task.py:55-60 | every task, once each, newest first |
| TaskListing.Select | api/routes/task.py:57-59 | the stored tasks that pass, newest first, each once: as many as the table holds passing items |
| TaskListing.GetMyPostedTasks | api/routes/task.py:130-135 | only the caller's postings, newest first, one entry per task the caller posted |
| TaskListing.GetMyAcceptedTasks | api/routes/task.py:138-143 | only the tasks the caller accepted, in any status, newest first, one entry per such task |
| TaskListing.MyPostedExact | api/routes/task.py:133 | a task is listed exactly when the caller posted it |
| TaskListing.MyAcceptedExact | api/routes/task.py:141 | a task is listed exactly when the caller accepted it |
| TaskListing.CompletedStaysAccepted | api/routes/task.py:141 | completing a task keeps it in its accepter's listing |
| TaskListing.FilterAll | api/routes/task.py:57-59 | filtering with a test every task passes keeps the whole list |
| TaskLifecycle.ApplyKeepsConsistent | api/routes/task.py:63-126 | each create, accept, complete or delete keeps every item's fields in step with its status |
| TaskLifecycle.RunKeepsConsistent | api/routes/task.py:63-126 | so does any sequence of them, and `completed_by` stays absent as written |
| TaskLifecycle.ApplySteps | api/routes/task.py:63-95 | one call moves an item at most one step: open to accepted to completed |
| TaskLifecycle.AbsentStaysAbsent | api/routes/task.py:111-126 | an id no create uses never appears |
| TaskLifecycle.RunNeverGoesBack | api/routes/task.py:63-126 | with fresh create ids, no status ever moves backwards and the posting fields never change |
| TaskRoutes.FirstMatch | api/routes/task.py:98-139 | the endpoint of the first declared route whose pattern matches |
| TaskRoutes.Dispatch | api/routes/task.py:98-143 | the handler reached for `GET /tasks/<segment>` is the first match's |
| TaskRoutes.ListingsShadowed | api/routes/task.py:98-143 | as declared, `/my-posted` and `/my-accepted` reach the task lookup and answer 404 |
| TaskRoutes.LiteralsFirstReachesListings | api/routes/task.py:130-143 | declaring the fixed paths first reaches both listings and changes no other request |
| Users.ListUsers | api/routes/users.py:30-63 | exactly the active users, with the lowercased skill when one is given, one entry per such user |
| Users.SearchUsers | api/routes/users.py:68-103 | exactly the active users whose name or skill contains the lowercased, stripped query, one entry per such user |
| Users.GetOwnProfile | api/routes/users.py:108-119 | the caller's item; a missing one is a 404 surfaced as a 500 |
| Users.CreateUser | api/routes/users.py:125-137 | the caller's item becomes the payload, active; other items untouched |
| Users.CreateThenGetOwnProfile | api/routes/users.py:108-137 | after registering, the caller's own profile is the registered record, and every other profile reads as before |
| Users.UpdateUser | api/routes/users.py:142-172 | all fields absent: a 400 surfaced as a 500; otherwise exactly the given fields change |
| Users.ReactivateUser | api/routes/users.py:178-193 | any caller may reactivate any existing user; a missing one is a 404 surfaced as a 500 |
| Users.DeactivateUser | api/routes/users.py:200-211 | only the caller's item is made inactive, created bare if missing |
| Users.UpdateIdempotent | api/routes/users.py:142-172 | the same update twice leaves the table as one does |
| Users.ReactivateUndoesDeactivate | api/routes/users.py:178-211 | reactivating a deactivated active user restores the table exactly |
| Users.DeactivatedUnlisted | api/routes/users.py:38-79 | a deactivated user drops out of every listing and search |
| Users.CreatedUserListed | api/routes/users.py:125-137 | a new user is listed when no skill filter is given |
| RatingStats.Count | api/routes/ratings.py:421 | `count(v)` is the number of occurrences of `v` among the scores, never more than their number |
| RatingStats.Statistics | api/routes/ratings.py:417-424 | count, sum and all five buckets; zeros for no items; for scores 1..5 the buckets add up to the count and the sum lies between the count and five times it |
| RatingStats.BucketsPartition | api/routes/ratings.py:421 | each score in 1..5 is counted in exactly one bucket |
| RatingStats.SumBounds | api/routes/ratings.py:420 | for scores in 1..5 the sum lies between the count and five times it |
| Ratings.ValidateUserExists | api/routes/ratings.py:46-94 | blank id 400, unknown stripped id 404, not active 403, and passes exactly otherwise |
| Ratings.ValidateTaskCompleted | api/routes/ratings.py:96-195 | with the task found under its stripped id: blank 400, no task 404, not completed 400 naming the status, rater not involved 403, rated user not involved 400, same role 400 |
| Ratings.ValidateTaskCompletedOn | api/routes/ratings.py:111-124 | blank 400 first; on a table keyed by `task_id` alone the two-attribute `get_item` is a 500 for every other id; on a (`task_id`, `status`) table it is the lookup above |
| Ratings.DistinctPairIsPosterAndCompleter | api/routes/ratings.py:149-177 | for two different users the same-role checks never fire, and a passing task has a completer: the pair is poster and completer |
| Ratings.ValidateRatingInput | api/routes/ratings.py:225-274 | score 1..5, stripped comment empty or 3..500 long, ids not blank, all failures 400, checked in that order |
| Ratings.ExistingRatingAsWritten | api/routes/ratings.py:197-223 | the duplicate check as written: it reports a match exactly when the scan succeeds and its first item has the triple as sent, so it never reports a triple the table lacks |
| Ratings.WholeTableSubsumesFirstItem | api/routes/ratings.py:209-217 | the corrected check finds whatever the check as written finds on unpadded ids, and finds a duplicate at any scan position, unless the scan fails |
| Ratings.FirstItemOnlyMissesDuplicate | api/routes/ratings.py:210-219 | a duplicate that is not the first item scanned goes unnoticed |
| Ratings.PaddedTaskIdMissesDuplicate | api/routes/ratings.py:313-328 | the check as written never finds a stored rating when the task id is sent padded, because stored task ids are stripped |
| Ratings.PaddedResubmissionAsWritten | api/routes/ratings.py:313-328 | as written, a resubmission with a padded task id is stored a second time, whatever the scan order; the corrected check answers 409 |
| Ratings.StoredComment | api/routes/ratings.py:330 | a missing or empty comment is stored absent, any other stripped |
| Ratings.CreateRating | api/routes/ratings.py:280-368 | input, self-rating, rater active, rated user active, task, duplicate (409), in that order, with each stage's error passed through; success stores one new unflagged item with stripped ids and echoes the payload as sent. The source runs the `FirstItemRaw` duplicate check, and the task stage reads the table under the given key schema |
| Ratings.TaskIdKeyRefusesEveryRating | api/routes/ratings.py:119-124 | on a task table keyed by `task_id` alone no rating is ever created: once the input and account checks pass, the answer is a 500 |
| Ratings.SecondRatingConflicts | api/routes/ratings.py:313-318 | with the corrected duplicate check, the same rating submitted again is a 409 in any scan order |
| Ratings.ResubmissionStoredAsWritten | api/routes/ratings.py:209-217 | as written, the same rating submitted again is stored a second time whenever another rating is scanned first |
| Ratings.FailedScanAdmitsDuplicate | api/routes/ratings.py:221-223 | if the duplicate scan fails, the same rating is stored twice, under either duplicate check |
| Ratings.FlagRating | api/routes/ratings.py:576-664 | reason length 422, blank id 400, short stripped reason 400, the caller's account error passed through, missing rating 404, already flagged 409 before own rating 403, each stated for its stage; success sets exactly the four flag fields |
| Ratings.FlagIsOneWay | api/routes/ratings.py:615-619 | a flagged rating can never be flagged again, even by its author |
| Ratings.GetRatingsForUser | api/routes/ratings.py:370-477 | blank id 400, then the caller's account error, then the rated user's; exactly the ratings to the stripped user, flagged ones only on request, one entry per stored rating, with their statistics |
| Ratings.GetMyGivenRatings | api/routes/ratings.py:479-552 | the caller's account error passed through; otherwise exactly the ratings the caller wrote, one entry per stored rating |
| Ratings.GetMyReceivedRatings | api/routes/ratings.py:554-574 | the caller's account error passed through; otherwise exactly the unflagged ratings addressed to the caller, one entry per stored rating, with their statistics |
| Ratings.GetRatingsForTask | api/routes/ratings.py:666-775 | blank id 400, the caller's account error, no task 404, neither poster nor completer 403, in that order; otherwise the task and all of its ratings, flagged or not, one entry per stored rating |
| Ratings.FlaggedLeavesDefaultListing | api/routes/ratings.py:399-404 | a flagged rating leaves the default listing and stays in the one that asks for flagged ratings |
| LegacyTasks.CreateTask | pup-skillswap-main/pup-skillswap-main/api/routes/task.py:15-27 | the payload stored under the fresh id with the current time, POSTED, posted by the caller |
| LegacyTasks.ListTasks | pup-skillswap-main/pup-skillswap-main/api/routes/task.py:30-43 | exactly the POSTED tasks with the tag and location asked for, one entry per such task |
| LegacyTasks.GetTask | pup-skillswap-main/pup-skillswap-main/api/routes/task.py:46-56 | a missing task is a 404 surfaced as a 500 |
| LegacyTasks.CreateThenGet | pup-skillswap-main/pup-skillswap-main/api/routes/task.py:15-56 | a posted task is fetched back exactly as created, and every other id as before |
| LegacyTasks.AcceptTask | pup-skillswap-main/pup-skillswap-main/api/routes/task.py:59-77 | succeeds exactly on a POSTED task, moving it one step; every error is a 500 |
| LegacyTasks.CompleteTask | pup-skillswap-main/pup-skillswap-main/api/routes/task.py:80-99 | succeeds exactly for the accepter of an IN_PROGRESS task, moving it one step; every error is a 500 |
| LegacyTasks.StatusNeverGoesBack | pup-skillswap-main/pup-skillswap-main/api/routes/task.py:59-99 | over any sequence of calls that does not re-create it, a task's status never moves backwards |
| LegacyTasks.AcceptThenComplete | pup-skillswap-main/pup-skillswap-main/api/routes/task.py:59-97 | the accepter may complete; anyone else gets a 500, and a second accept is a 500 |
| LegacyTasks.AcceptedLeavesListing | pup-skillswap-main/pup-skillswap-main/api/routes/task.py:34 | an accepted task is no longer listed |
| LegacyRatings.CreateRating | pup-skillswap-main/pup-skillswap-main/api/routes/ratings.py:16-28 | a score outside 1..5 is a 422; otherwise the payload is stored unflagged under the fresh id with the current time and the caller as sender, whatever the payload said |
| LegacyRatings.GetRatingsForUser | pup-skillswap-main/pup-skillswap-main/api/routes/ratings.py:32-41 | exactly the ratings to the user whose flag is stored false, one entry per stored rating |
| LegacyRatings.FlagRating | pup-skillswap-main/pup-skillswap-main/api/routes/ratings.py:44-57 | a missing rating is a 404 surfaced as a 500; otherwise only its flag is set |
| LegacyRatings.FlagIdempotent | pup-skillswap-main/pup-skillswap-main/api/routes/ratings.py:53-55 | flagging twice is flagging once |
| LegacyRatings.CreatedShownUntilFlagged | pup-skillswap-main/pup-skillswap-main/api/routes/ratings.py:32-57 | a new rating is shown to its recipient until flagged, and flagging only removes |
| Reports.CreateReport | api/routes/reports.py:18-33 | the caller becomes the author; the payload is stored under the fresh id with the current time |
| Reports.GetMyReports | api/routes/reports.py:38-44 | exactly the reports the caller filed, one entry per stored report |
| Reports.FiledReportVisibleToAuthorOnly | api/routes/reports.py:38-44 | a filed report is listed for its author and nobody else |
| Reports.RepeatedReportsAreDistinct | api/routes/reports.py:18-33 | the same report filed twice is stored twice |
| Eligibility.DeactivatedCannotRate | api/routes/ratings.py:78-83 | after deactivating, a user's ratings are refused with a 403 |
| Eligibility.DeactivatedCannotBeRated | api/routes/ratings.py:306-308 | nobody can rate a deactivated user |
| Eligibility.DeactivatedCannotFlag | api/routes/ratings.py:600-601 | a deactivated user cannot flag |
| Eligibility.DeactivatedCannotListUserRatings | api/routes/ratings.py:383-390 | a deactivated caller cannot list anyone's ratings (403) |
| Eligibility.DeactivatedCannotListGiven | api/routes/ratings.py:489-490 | a deactivated caller cannot list the ratings they gave (403) |
| Eligibility.DeactivatedCannotListReceived | api/routes/ratings.py:564-565 | a deactivated caller cannot list the ratings they received (403) |
| Eligibility.DeactivatedCannotListTaskRatings | api/routes/ratings.py:677-685 | a deactivated caller cannot list a task's ratings (403) |
| Eligibility.ReactivatedMayRateAgain | api/routes/users.py:178-193 | after reactivation, rating behaves exactly as before the deactivation |
| Eligibility.NoRatingWithoutCompleter | api/routes/ratings.py:149-161 | with no `completed_by` recorded, no rating passes |
| Eligibility.RoutedTasksNeverRateable | api/routes/task.py:81-95 | no sequence of task calls as written yields a task anyone can rate |
| Eligibility.RoutedCompletionRefusesRating | api/routes/task.py:91-95 | after post, accept and complete as written, poster and accepter are refused (400 and 403), even when the task check finds the task under its id |
| Eligibility.PosterAndCompleterMayRate | api/routes/ratings.py:149-179 | on a completed task with its completer recorded, poster and completer with active accounts, plain ids, a score of 1 to 5 and no earlier rating of the pair get their rating created, when the task check finds the task under its id |
| Eligibility.RecordedCompletionIsRateable | api/routes/ratings.py:149-179 | with the completer recorded, poster and accepter may rate each other, when the task check finds the task under its id |
| Eligibility.RecordedRunsRateable | api/routes/ratings.py:149-179 | under any run with the completer recorded, each completed task's poster and completer pass the task check |
| Eligibility.WhitespaceCallerRefused | api/routes/auth.py:5-9 | a header of spaces passes authentication, which only refuses a missing or empty one, but rating, given and received listings answer 400 for a blank user id |
| Tasks.CompleteRecordingCompleter | api/routes/task.py:81-95 | the corrected completion: as `complete_task`, and it records the caller as `completed_by` |

## Left out

- Paging is left out: the `Limit`/`ExclusiveStartKey` scans, `next_page_token` and `has_more`. Each listing is modelled over the whole table. With `Limit` applied before the filter, one page can hold fewer matches than asked for.
- `decode_page_token` (api/routes/users.py:18-25) is not modelled: it only turns a page token into a `LastEvaluatedKey` through base64 and JSON, and paging itself is left out, so the listings read the whole scan.
- The average rating is a float rounded to two places, so it is left out. `RatingStats.Statistics` gives the integer sum and count it divides.
- Timestamps are ISO strings compared as text. They are modelled as `nat` clock readings, whose order is the same for same-format strings.
- Database and network failures are left out: the `ClientError` and generic 500 branches, a failing `put_item`. The one exception is the duplicate scan's fail-open, which is the `scanFailed` parameter.
- Logging and the exact message texts are left out. Errors carry a code and a reason constructor.
- Pydantic and FastAPI validation of request bodies is left out (422 for missing or mistyped fields, the `EmailStr` check, `TaskAction`, which `accept_task` requires but never reads). The 422s that shape a handler's behaviour are modelled: the flag reason's `min_length`/`max_length`, and the score bound of the legacy `RatingCreate`, which the legacy handler relies on. The earlier tree's `api/models.py` is not part of this model, so that bound is taken from the current `api/models.py`. The current `create_rating` imports the same `RatingCreate` (`rating: int = Field(ge=1, le=5)`, api/models.py:31; api/routes/ratings.py:13), so a score outside 1..5 would be a 422 before the handler runs. Its payload, though, is modelled by the fields the handler reads, which that class does not declare, so the score check is modelled by `validate_rating_input`'s 400.
- Ratings.ValidateTaskCompleted: the task lookup is modelled as "the item under the stripped id, or none". The source reads it with `get_item` on a key that includes `status: "completed"`, then falls back to a `query` filtered on `deleted` not existing. `Ratings.ValidateTaskCompletedOn` and `Ratings.TaskIdKeyRefusesEveryRating` cover a table keyed by `task_id` alone, where that `get_item` is rejected. A table with both the (`task_id`, `status`) key and the single-attribute task writes of `task.py` is not modelled, because no one DynamoDB table accepts both. So the end-to-end flows in `Eligibility` pair the task routes as written with the (`task_id`, `status`) reading of the rating check.
- Ratings.GetRatingsForTask: the task is the one the `query` returns first, which under a `task_id` key is the only one.
- The `RatingOut` conversion of listed items is left out. Listings return the stored items, so `is_flagged` keeps its stored form rather than defaulting to false.
- Lower-casing is ASCII only: `Text.Lower` does not fold non-ASCII letters as Python's `str.lower()` does.
- Concurrency is left out: two requests interleaving between a read and a write, for example two accepts of the same task. Each handler is one atomic step.
- `api/routes/backfill_users.py`, `api/checkschema.py` and the app wiring in `main.py` are not part of this model.

## Findings

| source | as written | input that shows it | evidently intended | confidence | as-written member | corrected member |
|---|---|---|---|---|---|---|
| api/routes/task.py:81-95 | `complete_task` sets status and time but never writes `completed_by`, the field the rating routes use to find the completer | post by A, accept by B, complete by B; then, with the rating routes' task check finding the task under its id, A rates B (400, B not involved) and B rates A (403) | completing records the caller as `completed_by`, so poster and completer can rate each other | high, not executed | Eligibility.RoutedCompletionRefusesRating | Eligibility.RecordedCompletionIsRateable |
| api/routes/ratings.py:209-217 | the duplicate scan passes `Limit=1`, which DynamoDB applies before the filter, so only the first item scanned is examined | table with an unrelated rating scanned first and the duplicate second | any existing rating with the same triple is a conflict | high, not executed | Ratings.ResubmissionStoredAsWritten | Ratings.WholeTableSubsumesFirstItem |
| api/routes/ratings.py:314-328 | the duplicate check gets the raw `to_user_id` and `task_id`, but the item stores them stripped | rating A to B for task " t1" twice: both are stored | the check compares the ids as they are stored | high, not executed | Ratings.PaddedResubmissionAsWritten | Ratings.SecondRatingConflicts |
| api/routes/task.py:98-143 | `GET /{task_id}` is declared before `GET /my-posted` and `GET /my-accepted`, and the router takes the first match | `GET /tasks/my-posted` answers 404 "Task not found" | the two listings are reachable at their own paths | high, not executed | TaskRoutes.ListingsShadowed | TaskRoutes.LiteralsFirstReachesListings |
