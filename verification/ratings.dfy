/** The current rating routes (`/ratings`): input validation, the
    eligibility checks against the user and task tables, duplicate
    detection, one-way flagging and the listings with their statistics. */
module Ratings {
  import opened Base
  import opened Http
  import opened Scan
  import opened Text
  import Tasks
  import Users
  import RatingStats

  type RatingId = string

  /** A stored rating item. `is_flagged` may be absent on items written by
      other code; the listing treats absent as unflagged. */
  datatype Rating = Rating(
    ratingId: RatingId,
    fromUserId: UserId,
    toUserId: UserId,
    taskId: Tasks.TaskId,
    score: int,
    comment: Option<string>,
    timestamp: Time,
    isFlagged: Option<bool>,
    flagReason: Option<string>,
    flaggedBy: Option<UserId>,
    flaggedAt: Option<Time>,
    taskTitle: string,
    version: int)

  /** The fields of the create payload the handler reads. */
  datatype RatingPayload = RatingPayload(toUserId: string, taskId: string, score: int, comment: Option<string>)

  /** The create response: it echoes the payload's values as sent, not as stored. */
  datatype RatingOut = RatingOut(
    ratingId: RatingId, fromUserId: UserId, toUserId: string, taskId: string,
    score: int, comment: Option<string>, timestamp: Time, isFlagged: bool)

  datatype FlagReceipt = FlagReceipt(ratingId: string, flaggedAt: Time)

  datatype RatingsPage = RatingsPage(items: seq<Rating>, stats: RatingStats.Stats)

  datatype TaskRatings = TaskRatings(items: seq<Rating>, task: Tasks.Task)

  type Store = map<RatingId, Rating>

  // ---------------------------------------------------------------- checks

  /** `validate_user_exists`: blank id 400, unknown (stripped) id 404,
      `is_active` missing or false 403. */
  function ValidateUserExists(users: Users.Store, id: string, context: string): (r: Result<()>)
    ensures r.Ok? <==> !IsBlank(id) && Strip(id) in users && Users.Active(users[Strip(id)])
    ensures IsBlank(id) ==> r == Err(Error(400, BlankUserId))
    ensures !IsBlank(id) && Strip(id) !in users ==> r == Err(Error(404, UnknownUser))
    ensures !IsBlank(id) && Strip(id) in users && !Users.Active(users[Strip(id)]) ==>
              r == Err(Error(403, InactiveUser(context)))
  {
    if IsBlank(id) then Err(Error(400, BlankUserId))
    else if Strip(id) !in users then Err(Error(404, UnknownUser))
    else if !Users.Active(users[Strip(id)]) then Err(Error(403, InactiveUser(context)))
    else Ok(())
  }

  /** The task item the rating routes find for an id, if any. */
  function TaskLookup(tasks: Tasks.Store, id: Tasks.TaskId): Option<Tasks.Task> {
    if id in tasks then Some(tasks[id]) else None
  }

  /** `user in [posted_by, completed_by]`. */
  predicate Involved(t: Tasks.Task, u: UserId) {
    u == t.postedBy || t.completedBy == Some(u)
  }

  /** `validate_task_completed`: blank id 400; no task 404; a task that is not
      completed 400 naming its status; rater not involved 403; rated user not
      involved 400; both in the same role 400. */
  function ValidateTaskCompleted(tasks: Tasks.Store, taskId: string, from: UserId, to: UserId)
    : (r: Result<Tasks.Task>)
    ensures r.Ok? <==>
              && !IsBlank(taskId) && Strip(taskId) in tasks
              && tasks[Strip(taskId)].status == Some(Tasks.Completed)
              && Involved(tasks[Strip(taskId)], from) && Involved(tasks[Strip(taskId)], to)
              && !(from == to && (from == tasks[Strip(taskId)].postedBy || tasks[Strip(taskId)].completedBy == Some(from)))
    ensures r.Ok? ==> r.value == tasks[Strip(taskId)]
    ensures IsBlank(taskId) ==> r == Err(Error(400, BlankTaskId))
    ensures !IsBlank(taskId) && Strip(taskId) !in tasks ==> r == Err(Error(404, TaskNotFound))
    ensures !IsBlank(taskId) && Strip(taskId) in tasks && tasks[Strip(taskId)].status != Some(Tasks.Completed) ==>
              r == Err(Error(400, TaskNotCompleted(Tasks.StatusName(tasks[Strip(taskId)].status))))
    ensures !IsBlank(taskId) && Strip(taskId) in tasks && tasks[Strip(taskId)].status == Some(Tasks.Completed) ==>
              var t := tasks[Strip(taskId)];
              && (!Involved(t, from) ==> r == Err(Error(403, RaterNotInvolved)))
              && (Involved(t, from) && !Involved(t, to) ==> r == Err(Error(400, TargetNotInvolved)))
              && (Involved(t, to) && from == to && Involved(t, from) ==> r == Err(Error(400, SameRole)))
    ensures r.Err? ==> r.error.code in {400, 403, 404}
  {
    if IsBlank(taskId) then Err(Error(400, BlankTaskId))
    else match TaskLookup(tasks, Strip(taskId))
      case None => Err(Error(404, TaskNotFound))
      case Some(t) =>
        if t.status != Some(Tasks.Completed) then Err(Error(400, TaskNotCompleted(Tasks.StatusName(t.status))))
        else if !Involved(t, from) then Err(Error(403, RaterNotInvolved))
        else if !Involved(t, to) then Err(Error(400, TargetNotInvolved))
        else if from == t.postedBy && to == t.postedBy then Err(Error(400, SameRole))
        else if t.completedBy == Some(from) && t.completedBy == Some(to) then Err(Error(400, SameRole))
        else Ok(t)
  }

  /** How the task table is keyed. `task.py` reads and writes tasks under
      `task_id` alone; `validate_task_completed` asks `get_item` for the
      two-attribute key (`task_id`, `status`). */
  datatype TaskKeySchema = KeyedByTaskId | KeyedByTaskIdAndStatus

  /** `validate_task_completed` against a table with the given key schema.
      Keyed by (`task_id`, `status`), the completed item is found under its
      stripped id, as `ValidateTaskCompleted` states. Keyed by `task_id`
      alone, DynamoDB rejects a `get_item` naming an attribute outside the
      key, and the `except ClientError` answers 500 for every id that is
      not blank. */
  function ValidateTaskCompletedOn(schema: TaskKeySchema, tasks: Tasks.Store, taskId: string, from: UserId,
                                   to: UserId): (r: Result<Tasks.Task>)
    ensures IsBlank(taskId) ==> r == Err(Error(400, BlankTaskId))
    ensures schema == KeyedByTaskId && !IsBlank(taskId) ==> r == Err(Error(500, TaskLookupRejected))
    ensures schema == KeyedByTaskIdAndStatus ==> r == ValidateTaskCompleted(tasks, taskId, from, to)
    ensures r.Ok? ==> schema == KeyedByTaskIdAndStatus
  {
    if IsBlank(taskId) then Err(Error(400, BlankTaskId))
    else match schema
      case KeyedByTaskId => Err(Error(500, TaskLookupRejected))
      case KeyedByTaskIdAndStatus => ValidateTaskCompleted(tasks, taskId, from, to)
  }

  /** Given two different users, the same-role checks never fire, and a task
      that passes has a recorded completer: the two users are its poster and
      its completer, one each. */
  lemma DistinctPairIsPosterAndCompleter(tasks: Tasks.Store, taskId: string, from: UserId, to: UserId)
    requires from != to
    ensures ValidateTaskCompleted(tasks, taskId, from, to) != Err(Error(400, SameRole))
    ensures ValidateTaskCompleted(tasks, taskId, from, to).Ok? ==>
              var t := ValidateTaskCompleted(tasks, taskId, from, to).value;
              && t.completedBy.Some?
              && {from, to} == {t.postedBy, t.completedBy.value}
              && t.postedBy != t.completedBy.value
  {
  }

  /** `len(comment.strip())` rule: absent, empty after stripping, or 3..500 characters. */
  predicate CommentAcceptable(c: Option<string>) {
    c.None? || |Strip(c.value)| == 0 || 3 <= |Strip(c.value)| <= 500
  }

  predicate ValidInput(p: RatingPayload) {
    && 1 <= p.score <= 5
    && CommentAcceptable(p.comment)
    && !IsBlank(p.toUserId)
    && !IsBlank(p.taskId)
  }

  /** `validate_rating_input`: score, then comment length, then blank ids; every failure is a 400. */
  function ValidateRatingInput(p: RatingPayload): (r: Result<()>)
    ensures r.Ok? <==> ValidInput(p)
    ensures r.Err? ==> r.error.code == 400
    ensures !(1 <= p.score <= 5) ==> r == Err(Error(400, InvalidScore))
    ensures 1 <= p.score <= 5 && p.comment.Some? && |Strip(p.comment.value)| > 500 ==>
              r == Err(Error(400, CommentTooLong(|Strip(p.comment.value)|)))
    ensures 1 <= p.score <= 5 && p.comment.Some? && 0 < |Strip(p.comment.value)| < 3 ==>
              r == Err(Error(400, CommentTooShort))
  {
    if !(1 <= p.score <= 5) then Err(Error(400, InvalidScore))
    else if p.comment.Some? && |Strip(p.comment.value)| > 500 then
      Err(Error(400, CommentTooLong(|Strip(p.comment.value)|)))
    else if p.comment.Some? && 0 < |Strip(p.comment.value)| < 3 then Err(Error(400, CommentTooShort))
    else if IsBlank(p.toUserId) then Err(Error(400, BlankTargetUser))
    else if IsBlank(p.taskId) then Err(Error(400, BlankTaskId))
    else Ok(())
  }

  predicate SameTriple(rt: Rating, from: UserId, to: string, task: string) {
    rt.fromUserId == from && rt.toUserId == to && rt.taskId == task
  }

  predicate RatingExists(ratings: Store, from: UserId, to: string, task: string) {
    exists k :: k in ratings && SameTriple(ratings[k], from, to, task)
  }

  /** `check_existing_rating` as written: the scan carries `Limit=1`, which
      DynamoDB applies before the filter, so only the first item in scan
      order is examined; it is given the triple as sent, unstripped; and a
      store error reads as "no duplicate". */
  function ExistingRatingAsWritten(ratings: Store, scan: seq<RatingId>, from: UserId, to: string, task: string,
                                   scanFailed: bool): (b: bool)
    requires IsScanOf(scan, ratings)
    ensures b ==> RatingExists(ratings, from, to, task)
    ensures scanFailed ==> !b
    ensures b <==> !scanFailed && |scan| > 0 && SameTriple(ratings[scan[0]], from, to, task)
  {
    !scanFailed && |scan| > 0 && SameTriple(ratings[scan[0]], from, to, task)
  }

  /** The duplicate check that evidently was meant: any item of the table
      with the triple as it would be stored. A store error still reads as
      "no duplicate" (the check fails open). */
  function CheckExistingRating(ratings: Store, from: UserId, to: string, task: string, scanFailed: bool): (b: bool)
    ensures scanFailed ==> !b
    ensures !scanFailed ==> (b <==> RatingExists(ratings, from, Strip(to), Strip(task)))
  {
    !scanFailed && RatingExists(ratings, from, Strip(to), Strip(task))
  }

  /** The corrected check finds whatever the check as written finds when
      the ids are sent without padding, and it also finds a duplicate at
      any position of the scan, not only the first. */
  lemma WholeTableSubsumesFirstItem(ratings: Store, scan: seq<RatingId>, from: UserId, to: string, task: string,
                                    scanFailed: bool)
    requires IsScanOf(scan, ratings)
    ensures Strip(to) == to && Strip(task) == task && ExistingRatingAsWritten(ratings, scan, from, to, task, scanFailed) ==>
              CheckExistingRating(ratings, from, to, task, scanFailed)
    ensures forall i :: 0 <= i < |scan| && SameTriple(ratings[scan[i]], from, Strip(to), Strip(task)) ==>
              CheckExistingRating(ratings, from, to, task, scanFailed) == !scanFailed
  {
  }

  /** A duplicate that is not the first item scanned goes unnoticed by the
      check as written. */
  lemma FirstItemOnlyMissesDuplicate()
    ensures
      var other := Rating("r1", "carol", "dave", "t9", 4, None, 0, Some(false), None, None, None, "", 1);
      var dup := Rating("r2", "alice", "bob", "t1", 5, None, 0, Some(false), None, None, None, "", 1);
      var ratings := map["r1" := other, "r2" := dup];
      && IsScanOf(["r1", "r2"], ratings)
      && RatingExists(ratings, "alice", "bob", "t1")
      && !ExistingRatingAsWritten(ratings, ["r1", "r2"], "alice", "bob", "t1", false)
  {
    var other := Rating("r1", "carol", "dave", "t9", 4, None, 0, Some(false), None, None, None, "", 1);
    var dup := Rating("r2", "alice", "bob", "t1", 5, None, 0, Some(false), None, None, None, "", 1);
    var ratings := map["r1" := other, "r2" := dup];
    assert SameTriple(ratings["r2"], "alice", "bob", "t1");
  }

  /** A task id sent with surrounding spaces (such as " t1") is looked up
      stripped and stored stripped, but the duplicate check as written
      compares it unstripped: against a table whose task ids are all
      stripped, it never finds the stored duplicate, even scanning the
      whole table. */
  lemma PaddedTaskIdMissesDuplicate(ratings: Store, scan: seq<RatingId>, from: UserId, to: string, task: string)
    requires IsScanOf(scan, ratings)
    requires forall k :: k in ratings ==> ratings[k].taskId == Strip(ratings[k].taskId)
    requires Strip(task) != task
    ensures !RatingExists(ratings, from, to, task)
    ensures !ExistingRatingAsWritten(ratings, scan, from, to, task, false)
  {
  }

  /** Which duplicate check `create_rating` runs: `check_existing_rating`
      as written (the first scanned item, raw ids), or the corrected check
      over the whole table with the ids as they are stored. */
  datatype DuplicateCheck = FirstItemRaw | WholeTable

  function Duplicate(check: DuplicateCheck, ratings: Store, scan: seq<RatingId>, from: UserId, to: string,
                     task: string, scanFailed: bool): bool
    requires IsScanOf(scan, ratings)
  {
    match check
    case FirstItemRaw => ExistingRatingAsWritten(ratings, scan, from, to, task, scanFailed)
    case WholeTable => CheckExistingRating(ratings, from, to, task, scanFailed)
  }

  // ---------------------------------------------------------------- create

  /** `payload.comment.strip() if payload.comment else None`. */
  function StoredComment(c: Option<string>): (s: Option<string>)
    ensures c.None? || c == Some("") ==> s.None?
    ensures c.Some? && c.value != "" ==> s == Some(Strip(c.value))
  {
    match c
    case None => None
    case Some(text) => if text == "" then None else Some(Strip(text))
  }

  /** The item `create_rating` writes. */
  function NewRating(id: RatingId, caller: UserId, p: RatingPayload, t: Tasks.Task, now: Time): Rating {
    Rating(id, caller, Strip(p.toUserId), Strip(p.taskId), p.score, StoredComment(p.comment), now,
           Some(false), None, None, None, t.title, 1)
  }

  /** `create_rating`. The checks run in this order: input (400), self-rating
      (400), caller active, rated user active, task completed and both
      involved, duplicate (409). `schema` is how the task table is keyed,
      and `check` selects the duplicate check: the source runs
      `FirstItemRaw`. */
  function CreateRating(schema: TaskKeySchema, check: DuplicateCheck, users: Users.Store, tasks: Tasks.Store,
                        ratings: Store, scan: seq<RatingId>, caller: UserId, p: RatingPayload, scanFailed: bool,
                        freshId: RatingId, now: Time)
    : (r: Result<Reply<Store, RatingOut>>)
    requires IsScanOf(scan, ratings)
    ensures !ValidInput(p) ==> r == Err(ValidateRatingInput(p).error)
    ensures ValidInput(p) && caller == p.toUserId ==> r == Err(Error(400, SelfRating))
    ensures ValidInput(p) && caller != p.toUserId && ValidateUserExists(users, caller, "create ratings").Err? ==>
              r == Err(ValidateUserExists(users, caller, "create ratings").error)
    ensures ValidInput(p) && caller != p.toUserId && ValidateUserExists(users, caller, "create ratings").Ok?
            && ValidateUserExists(users, p.toUserId, "receive ratings").Err? ==>
              r == Err(ValidateUserExists(users, p.toUserId, "receive ratings").error)
    ensures ValidInput(p) && caller != p.toUserId && ValidateUserExists(users, caller, "create ratings").Ok?
            && ValidateUserExists(users, p.toUserId, "receive ratings").Ok?
            && ValidateTaskCompletedOn(schema, tasks, p.taskId, caller, p.toUserId).Err? ==>
              r == Err(ValidateTaskCompletedOn(schema, tasks, p.taskId, caller, p.toUserId).error)
    ensures ValidInput(p) && caller != p.toUserId && ValidateUserExists(users, caller, "create ratings").Ok?
            && ValidateUserExists(users, p.toUserId, "receive ratings").Ok?
            && ValidateTaskCompletedOn(schema, tasks, p.taskId, caller, p.toUserId).Ok?
            && Duplicate(check, ratings, scan, caller, p.toUserId, p.taskId, scanFailed) ==>
              r == Err(Error(409, AlreadyRated))
    ensures r.Ok? <==>
              && ValidInput(p) && caller != p.toUserId
              && ValidateUserExists(users, caller, "create ratings").Ok?
              && ValidateUserExists(users, p.toUserId, "receive ratings").Ok?
              && ValidateTaskCompletedOn(schema, tasks, p.taskId, caller, p.toUserId).Ok?
              && !Duplicate(check, ratings, scan, caller, p.toUserId, p.taskId, scanFailed)
    ensures r.Err? ==>
              || r.error.code in {400, 403, 404, 409}
              || (schema == KeyedByTaskId && r.error == Error(500, TaskLookupRejected))
    ensures r.Ok? ==> r.value.store.Keys == ratings.Keys + {freshId}
    ensures r.Ok? ==> forall k :: k in ratings && k != freshId ==> r.value.store[k] == ratings[k]
    ensures r.Ok? ==>
              var rt := r.value.store[freshId];
              && rt.ratingId == freshId && rt.fromUserId == caller
              && rt.toUserId == Strip(p.toUserId) && rt.taskId == Strip(p.taskId)
              && rt.score == p.score && rt.comment == StoredComment(p.comment)
              && rt.isFlagged == Some(false) && rt.flagReason.None? && rt.flaggedBy.None? && rt.flaggedAt.None?
              && rt.version == 1 && rt.timestamp == now
    ensures r.Ok? ==> r.value.body == RatingOut(freshId, caller, p.toUserId, p.taskId, p.score, p.comment, now, false)
  {
    var inputOk :- ValidateRatingInput(p);
    if caller == p.toUserId then Err(Error(400, SelfRating))
    else
      var raterOk :- ValidateUserExists(users, caller, "create ratings");
      var ratedOk :- ValidateUserExists(users, p.toUserId, "receive ratings");
      var t :- ValidateTaskCompletedOn(schema, tasks, p.taskId, caller, p.toUserId);
      if Duplicate(check, ratings, scan, caller, p.toUserId, p.taskId, scanFailed) then Err(Error(409, AlreadyRated))
      else
        Ok(Reply(ratings[freshId := NewRating(freshId, caller, p, t, now)],
                 RatingOut(freshId, caller, p.toUserId, p.taskId, p.score, p.comment, now, false)))
  }

  /** On a task table keyed by `task_id` alone, as `task.py` uses it, no
      rating is ever created: every request that passes the input and
      account checks is answered 500 by the task check. */
  lemma TaskIdKeyRefusesEveryRating(check: DuplicateCheck, users: Users.Store, tasks: Tasks.Store, ratings: Store,
                                    scan: seq<RatingId>, caller: UserId, p: RatingPayload, scanFailed: bool,
                                    freshId: RatingId, now: Time)
    requires IsScanOf(scan, ratings)
    ensures CreateRating(KeyedByTaskId, check, users, tasks, ratings, scan, caller, p, scanFailed, freshId, now).Err?
    ensures ValidInput(p) && caller != p.toUserId
            && ValidateUserExists(users, caller, "create ratings").Ok?
            && ValidateUserExists(users, p.toUserId, "receive ratings").Ok? ==>
              CreateRating(KeyedByTaskId, check, users, tasks, ratings, scan, caller, p, scanFailed, freshId, now)
              == Err(Error(500, TaskLookupRejected))
  {
  }

  /** With the corrected check, submitting the same rating again is a 409,
      whatever the scan order and however the ids were padded, unless the
      duplicate scan itself fails. */
  lemma SecondRatingConflicts(check: DuplicateCheck, users: Users.Store, tasks: Tasks.Store, ratings: Store,
                              scan: seq<RatingId>, caller: UserId, p: RatingPayload, scanFailed: bool,
                              freshId: RatingId, now: Time, scan2: seq<RatingId>, freshId2: RatingId, later: Time)
    requires IsScanOf(scan, ratings)
    requires CreateRating(KeyedByTaskIdAndStatus, check, users, tasks, ratings, scan, caller, p, scanFailed, freshId, now).Ok?
    requires IsScanOf(scan2, CreateRating(KeyedByTaskIdAndStatus, check, users, tasks, ratings, scan, caller, p, scanFailed, freshId, now).value.store)
    ensures
      var s := CreateRating(KeyedByTaskIdAndStatus, check, users, tasks, ratings, scan, caller, p, scanFailed, freshId, now).value.store;
      CreateRating(KeyedByTaskIdAndStatus, WholeTable, users, tasks, s, scan2, caller, p, false, freshId2, later) == Err(Error(409, AlreadyRated))
  {
    var s := CreateRating(KeyedByTaskIdAndStatus, check, users, tasks, ratings, scan, caller, p, scanFailed, freshId, now).value.store;
    assert SameTriple(s[freshId], caller, Strip(p.toUserId), Strip(p.taskId));
  }

  /** As written, the same rating submitted again is stored a second time
      whenever the first item the duplicate scan visits is some other
      rating: the table then holds two ratings of the same pair for the
      same task. */
  lemma ResubmissionStoredAsWritten(check: DuplicateCheck, users: Users.Store, tasks: Tasks.Store, ratings: Store,
                                    scan: seq<RatingId>, caller: UserId, p: RatingPayload, scanFailed: bool,
                                    freshId: RatingId, now: Time, scan2: seq<RatingId>, freshId2: RatingId, later: Time)
    requires IsScanOf(scan, ratings)
    requires CreateRating(KeyedByTaskIdAndStatus, check, users, tasks, ratings, scan, caller, p, scanFailed, freshId, now).Ok?
    requires IsScanOf(scan2, CreateRating(KeyedByTaskIdAndStatus, check, users, tasks, ratings, scan, caller, p, scanFailed, freshId, now).value.store)
    requires freshId2 != freshId
    requires |scan2| > 0 && scan2[0] != freshId
    requires !SameTriple(ratings[scan2[0]], caller, p.toUserId, p.taskId)
    ensures
      var s := CreateRating(KeyedByTaskIdAndStatus, check, users, tasks, ratings, scan, caller, p, scanFailed, freshId, now).value.store;
      var r2 := CreateRating(KeyedByTaskIdAndStatus, FirstItemRaw, users, tasks, s, scan2, caller, p, false, freshId2, later);
      && r2.Ok?
      && freshId in r2.value.store && freshId2 in r2.value.store
      && SameTriple(r2.value.store[freshId2], caller, Strip(p.toUserId), Strip(p.taskId))
      && SameTriple(r2.value.store[freshId], caller, Strip(p.toUserId), Strip(p.taskId))
  {
  }

  /** A failed duplicate scan lets the very same rating through a second
      time, under either check. */
  lemma FailedScanAdmitsDuplicate(check: DuplicateCheck, check2: DuplicateCheck, users: Users.Store,
                                  tasks: Tasks.Store, ratings: Store, scan: seq<RatingId>, caller: UserId,
                                  p: RatingPayload, freshId: RatingId, now: Time, scan2: seq<RatingId>,
                                  freshId2: RatingId, later: Time)
    requires IsScanOf(scan, ratings)
    requires CreateRating(KeyedByTaskIdAndStatus, check, users, tasks, ratings, scan, caller, p, false, freshId, now).Ok?
    requires IsScanOf(scan2, CreateRating(KeyedByTaskIdAndStatus, check, users, tasks, ratings, scan, caller, p, false, freshId, now).value.store)
    ensures
      var s := CreateRating(KeyedByTaskIdAndStatus, check, users, tasks, ratings, scan, caller, p, false, freshId, now).value.store;
      CreateRating(KeyedByTaskIdAndStatus, check2, users, tasks, s, scan2, caller, p, true, freshId2, later).Ok?
  {
  }

  /** So, as written, resubmitting a rating with a padded task id (such as
      " t1" for "t1") passes the duplicate check whatever the scan order,
      and the table ends up with two ratings of the same pair for the same
      task; the corrected check refuses it. */
  lemma PaddedResubmissionAsWritten(check: DuplicateCheck, users: Users.Store, tasks: Tasks.Store, ratings: Store,
                                    scan: seq<RatingId>, caller: UserId, p: RatingPayload, scanFailed: bool,
                                    freshId: RatingId, now: Time, scan2: seq<RatingId>, freshId2: RatingId, later: Time)
    requires IsScanOf(scan, ratings)
    requires forall k :: k in ratings ==> ratings[k].taskId == Strip(ratings[k].taskId)
    requires CreateRating(KeyedByTaskIdAndStatus, check, users, tasks, ratings, scan, caller, p, scanFailed, freshId, now).Ok?
    requires IsScanOf(scan2, CreateRating(KeyedByTaskIdAndStatus, check, users, tasks, ratings, scan, caller, p, scanFailed, freshId, now).value.store)
    requires Strip(p.taskId) != p.taskId && freshId2 != freshId
    ensures
      var s := CreateRating(KeyedByTaskIdAndStatus, check, users, tasks, ratings, scan, caller, p, scanFailed, freshId, now).value.store;
      var r2 := CreateRating(KeyedByTaskIdAndStatus, FirstItemRaw, users, tasks, s, scan2, caller, p, false, freshId2, later);
      && r2.Ok?
      && SameTriple(r2.value.store[freshId2], caller, Strip(p.toUserId), Strip(p.taskId))
      && SameTriple(r2.value.store[freshId], caller, Strip(p.toUserId), Strip(p.taskId))
      && CreateRating(KeyedByTaskIdAndStatus, WholeTable, users, tasks, s, scan2, caller, p, false, freshId2, later) == Err(Error(409, AlreadyRated))
  {
    var s := CreateRating(KeyedByTaskIdAndStatus, check, users, tasks, ratings, scan, caller, p, scanFailed, freshId, now).value.store;
    StripIdempotent(p.taskId);
    PaddedTaskIdMissesDuplicate(s, scan2, caller, p.toUserId, p.taskId);
    SecondRatingConflicts(check, users, tasks, ratings, scan, caller, p, scanFailed, freshId, now, scan2, freshId2, later);
  }

  // ---------------------------------------------------------------- flag

  /** The request checks of `flag_rating` that come before any table is read. */
  predicate FlagRequestWellFormed(ratingId: string, reason: string) {
    10 <= |reason| <= 500 && !IsBlank(ratingId) && 10 <= |Strip(reason)|
  }

  /** `flag_rating`. The query's length bounds (10..500) are enforced by the
      framework before the handler (422); then a blank id 400, a stripped
      reason under 10 characters 400, the caller's account, a missing rating
      404, an already-flagged rating 409, the rating's own author 403. */
  function FlagRating(users: Users.Store, ratings: Store, caller: UserId, ratingId: string, reason: string, now: Time)
    : (r: Result<Reply<Store, FlagReceipt>>)
    ensures !(10 <= |reason| <= 500) ==> r == Err(Error(422, FlagReasonLength))
    ensures 10 <= |reason| <= 500 && IsBlank(ratingId) ==> r == Err(Error(400, BlankRatingId))
    ensures 10 <= |reason| <= 500 && !IsBlank(ratingId) && |Strip(reason)| < 10 ==>
              r == Err(Error(400, FlagReasonTooShort))
    ensures FlagRequestWellFormed(ratingId, reason) && ValidateUserExists(users, caller, "flag ratings").Err? ==>
              r == Err(ValidateUserExists(users, caller, "flag ratings").error)
    ensures FlagRequestWellFormed(ratingId, reason) && ValidateUserExists(users, caller, "flag ratings").Ok? ==>
              var key := Strip(ratingId);
              && (key !in ratings ==> r == Err(Error(404, RatingNotFound)))
              && (key in ratings && ratings[key].isFlagged == Some(true) ==> r == Err(Error(409, AlreadyFlagged)))
              && (key in ratings && ratings[key].isFlagged != Some(true) && ratings[key].fromUserId == caller ==>
                    r == Err(Error(403, OwnRating)))
    ensures r.Ok? ==> ValidateUserExists(users, caller, "flag ratings").Ok?
    ensures r.Ok? ==> Strip(ratingId) in ratings && ratings[Strip(ratingId)].isFlagged != Some(true)
                      && ratings[Strip(ratingId)].fromUserId != caller
    ensures r.Ok? ==> r.value.store.Keys == ratings.Keys
    ensures r.Ok? ==> forall k :: k in ratings && k != Strip(ratingId) ==> r.value.store[k] == ratings[k]
    ensures r.Ok? ==>
              var rt := r.value.store[Strip(ratingId)];
              rt == ratings[Strip(ratingId)].(isFlagged := Some(true), flagReason := Some(Strip(reason)),
                                               flaggedBy := Some(caller), flaggedAt := Some(now))
    ensures r.Err? ==> r.error.code in {400, 403, 404, 409, 422}
  {
    if !(10 <= |reason| <= 500) then Err(Error(422, FlagReasonLength))
    else if IsBlank(ratingId) then Err(Error(400, BlankRatingId))
    else if |Strip(reason)| < 10 then Err(Error(400, FlagReasonTooShort))
    else
      var callerOk :- ValidateUserExists(users, caller, "flag ratings");
      var key := Strip(ratingId);
      if key !in ratings then Err(Error(404, RatingNotFound))
      else
        var rt := ratings[key];
        if rt.isFlagged == Some(true) then Err(Error(409, AlreadyFlagged))
        else if rt.fromUserId == caller then Err(Error(403, OwnRating))
        else
          var flagged := rt.(isFlagged := Some(true), flagReason := Some(Strip(reason)),
                             flaggedBy := Some(caller), flaggedAt := Some(now));
          Ok(Reply(ratings[key := flagged], FlagReceipt(ratingId, now)))
  }

  /** Flagging is one-way: once a rating is flagged, every further flag of
      it by an active user with an acceptable reason is a 409 — its own
      author included, since the flag test comes first. */
  lemma FlagIsOneWay(users: Users.Store, ratings: Store, caller: UserId, ratingId: string, reason: string, now: Time,
                     anyone: UserId, reason2: string, later: Time)
    requires FlagRating(users, ratings, caller, ratingId, reason, now).Ok?
    requires 10 <= |reason2| <= 500 && 10 <= |Strip(reason2)|
    requires ValidateUserExists(users, anyone, "flag ratings").Ok?
    ensures
      var s := FlagRating(users, ratings, caller, ratingId, reason, now).value.store;
      FlagRating(users, s, anyone, ratingId, reason2, later) == Err(Error(409, AlreadyFlagged))
  {
  }

  // ---------------------------------------------------------------- listings

  /** `Attr("is_flagged").not_exists() | Attr("is_flagged").eq(False)`. */
  predicate Unflagged(rt: Rating) {
    rt.isFlagged != Some(true)
  }

  predicate ListedFor(rt: Rating, user: UserId, includeFlagged: bool) {
    rt.toUserId == user && (includeFlagged || Unflagged(rt))
  }

  function Scores(items: seq<Rating>): (s: seq<int>)
    ensures |s| == |items| && forall i :: 0 <= i < |items| ==> s[i] == items[i].score
  {
    seq(|items|, i requires 0 <= i < |items| => items[i].score)
  }

  /** `get_ratings_for_user` (the whole scan; paging is not modelled): blank
      id 400, then the caller's account, then the rated user's account; the
      ratings addressed to the (stripped) user, flagged ones only on request,
      and their statistics. */
  function GetRatingsForUser(users: Users.Store, ratings: Store, scan: seq<RatingId>, caller: UserId,
                             userId: string, includeFlagged: bool): (r: Result<RatingsPage>)
    requires IsScanOf(scan, ratings)
    ensures IsBlank(userId) ==> r == Err(Error(400, BlankUserId))
    ensures r.Ok? <==>
              && !IsBlank(userId)
              && ValidateUserExists(users, caller, "view ratings").Ok?
              && ValidateUserExists(users, userId, "have ratings").Ok?
    ensures !IsBlank(userId) && ValidateUserExists(users, caller, "view ratings").Err? ==>
              r == Err(ValidateUserExists(users, caller, "view ratings").error)
    ensures !IsBlank(userId) && ValidateUserExists(users, caller, "view ratings").Ok?
            && ValidateUserExists(users, userId, "have ratings").Err? ==>
              r == Err(ValidateUserExists(users, userId, "have ratings").error)
    ensures r.Ok? ==> forall rt :: rt in r.value.items <==> rt in ratings.Values && ListedFor(rt, Strip(userId), includeFlagged)
    ensures r.Ok? ==> |r.value.items| == |set k | k in ratings && ListedFor(ratings[k], Strip(userId), includeFlagged)|
    ensures r.Ok? ==> forall rt :: multiset(r.value.items)[rt] ==
                        if ListedFor(rt, Strip(userId), includeFlagged) then |KeysHolding(ratings, rt)| else 0
    ensures r.Ok? ==> r.value.stats == RatingStats.Statistics(Scores(r.value.items))
  {
    if IsBlank(userId) then Err(Error(400, BlankUserId))
    else
      var callerOk :- ValidateUserExists(users, caller, "view ratings");
      var userOk :- ValidateUserExists(users, userId, "have ratings");
      RowsAreValues(scan, ratings);
      var user := Strip(userId);
      var keep := (rt: Rating) => ListedFor(rt, user, includeFlagged);
      FilterRowsCount(scan, ratings, keep);
      FilterRowsMultiplicity(scan, ratings, keep);
      KeysWhereIs(ratings, keep, set k | k in ratings && ListedFor(ratings[k], user, includeFlagged));
      var items := Filter(Rows(scan, ratings), keep);
      Ok(RatingsPage(items, RatingStats.Statistics(Scores(items))))
  }

  /** `get_my_given_ratings`: the caller's account, then the ratings the caller wrote. */
  function GetMyGivenRatings(users: Users.Store, ratings: Store, scan: seq<RatingId>, caller: UserId)
    : (r: Result<seq<Rating>>)
    requires IsScanOf(scan, ratings)
    ensures r.Ok? <==> ValidateUserExists(users, caller, "view your given ratings").Ok?
    ensures r.Err? ==> r.error == ValidateUserExists(users, caller, "view your given ratings").error
    ensures r.Ok? ==> forall rt :: rt in r.value <==> rt in ratings.Values && rt.fromUserId == caller
    ensures r.Ok? ==> |r.value| == |set k | k in ratings && ratings[k].fromUserId == caller|
    ensures r.Ok? ==> forall rt :: multiset(r.value)[rt] ==
                        if rt.fromUserId == caller then |KeysHolding(ratings, rt)| else 0
  {
    var callerOk :- ValidateUserExists(users, caller, "view your given ratings");
    RowsAreValues(scan, ratings);
    var keep := (rt: Rating) => rt.fromUserId == caller;
    FilterRowsCount(scan, ratings, keep);
    FilterRowsMultiplicity(scan, ratings, keep);
    KeysWhereIs(ratings, keep, set k | k in ratings && ratings[k].fromUserId == caller);
    Ok(Filter(Rows(scan, ratings), keep))
  }

  /** `get_my_received_ratings`: the caller's own listing, flagged ratings excluded. */
  function GetMyReceivedRatings(users: Users.Store, ratings: Store, scan: seq<RatingId>, caller: UserId)
    : (r: Result<RatingsPage>)
    requires IsScanOf(scan, ratings)
    ensures r.Ok? <==> ValidateUserExists(users, caller, "view your received ratings").Ok?
    ensures r.Err? ==> r.error == ValidateUserExists(users, caller, "view your received ratings").error
    ensures r.Ok? ==> forall rt :: rt in r.value.items <==> rt in ratings.Values && ListedFor(rt, Strip(caller), false)
    ensures r.Ok? ==> |r.value.items| == |set k | k in ratings && ListedFor(ratings[k], Strip(caller), false)|
    ensures r.Ok? ==> forall rt :: multiset(r.value.items)[rt] ==
                        if ListedFor(rt, Strip(caller), false) then |KeysHolding(ratings, rt)| else 0
    ensures r.Ok? ==> r.value.stats == RatingStats.Statistics(Scores(r.value.items))
  {
    var callerOk :- ValidateUserExists(users, caller, "view your received ratings");
    GetRatingsForUser(users, ratings, scan, caller, caller, false)
  }

  /** `get_ratings_for_task`: blank id 400, the caller's account, no task 404,
      a caller who is neither poster nor completer 403; then every rating of
      the (stripped) task, flagged or not. */
  function GetRatingsForTask(users: Users.Store, tasks: Tasks.Store, ratings: Store, scan: seq<RatingId>,
                             caller: UserId, taskId: string): (r: Result<TaskRatings>)
    requires IsScanOf(scan, ratings)
    ensures IsBlank(taskId) ==> r == Err(Error(400, BlankTaskId))
    ensures r.Ok? <==>
              && !IsBlank(taskId)
              && ValidateUserExists(users, caller, "view task ratings").Ok?
              && Strip(taskId) in tasks && Involved(tasks[Strip(taskId)], caller)
    ensures !IsBlank(taskId) && ValidateUserExists(users, caller, "view task ratings").Err? ==>
              r == Err(ValidateUserExists(users, caller, "view task ratings").error)
    ensures !IsBlank(taskId) && ValidateUserExists(users, caller, "view task ratings").Ok?
            && Strip(taskId) !in tasks ==>
              r == Err(Error(404, TaskNotFound))
    ensures !IsBlank(taskId) && ValidateUserExists(users, caller, "view task ratings").Ok?
            && Strip(taskId) in tasks && !Involved(tasks[Strip(taskId)], caller) ==>
              r == Err(Error(403, NotTaskParticipant))
    ensures r.Ok? ==> r.value.task == tasks[Strip(taskId)]
    ensures r.Ok? ==> forall rt :: rt in r.value.items <==> rt in ratings.Values && rt.taskId == Strip(taskId)
    ensures r.Ok? ==> |r.value.items| == |set k | k in ratings && ratings[k].taskId == Strip(taskId)|
    ensures r.Ok? ==> forall rt :: multiset(r.value.items)[rt] ==
                        if rt.taskId == Strip(taskId) then |KeysHolding(ratings, rt)| else 0
  {
    if IsBlank(taskId) then Err(Error(400, BlankTaskId))
    else
      var callerOk :- ValidateUserExists(users, caller, "view task ratings");
      match TaskLookup(tasks, Strip(taskId))
      case None => Err(Error(404, TaskNotFound))
      case Some(t) =>
        if !Involved(t, caller) then Err(Error(403, NotTaskParticipant))
        else
          RowsAreValues(scan, ratings);
          var id := Strip(taskId);
          var keep := (rt: Rating) => rt.taskId == id;
          FilterRowsCount(scan, ratings, keep);
          FilterRowsMultiplicity(scan, ratings, keep);
          KeysWhereIs(ratings, keep, set k | k in ratings && ratings[k].taskId == id);
          Ok(TaskRatings(Filter(Rows(scan, ratings), keep), t))
  }

  /** A flagged rating leaves its recipient's default listing but stays in
      the listing that asks for flagged ratings. */
  lemma FlaggedLeavesDefaultListing(users: Users.Store, ratings: Store, caller: UserId, ratingId: string,
                                    reason: string, now: Time, scan: seq<RatingId>, viewer: UserId)
    requires FlagRating(users, ratings, caller, ratingId, reason, now).Ok?
    requires IsScanOf(scan, FlagRating(users, ratings, caller, ratingId, reason, now).value.store)
    requires ValidateUserExists(users, viewer, "view ratings").Ok?
    requires var to := ratings[Strip(ratingId)].toUserId; ValidateUserExists(users, to, "have ratings").Ok?
    ensures
      var s := FlagRating(users, ratings, caller, ratingId, reason, now).value.store;
      var to := ratings[Strip(ratingId)].toUserId;
      && s[Strip(ratingId)] !in GetRatingsForUser(users, s, scan, viewer, to, false).value.items
      && (Strip(to) == to ==> s[Strip(ratingId)] in GetRatingsForUser(users, s, scan, viewer, to, true).value.items)
  {
  }
}
