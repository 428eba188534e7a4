/** How the user, task and rating routes fit together: who can rate whom
    after which sequence of task calls, and what deactivation shuts off.

    The task routes address a task by `task_id` alone, while the rating
    routes' task check asks for the key (`task_id`, `status`). The lemmas
    here state what the rating routes decide when that check finds the
    task under its id (`Ratings.KeyedByTaskIdAndStatus`). On a table keyed
    by `task_id` alone, `Ratings.TaskIdKeyRefusesEveryRating` shows that the
    check answers 500 instead. */
module Eligibility {
  import opened Base
  import opened Http
  import opened Scan
  import opened Text
  import Auth
  import Tasks
  import TaskLifecycle
  import Users
  import Ratings

  /** An id the rating routes look up unchanged. */
  predicate PlainId(u: UserId) {
    u != [] && Strip(u) == u
  }

  /** The account check on a plain id reads the item under that id. */
  lemma PlainAccountCheck(users: Users.Store, u: UserId, context: string)
    requires PlainId(u)
    ensures u !in users ==> Ratings.ValidateUserExists(users, u, context) == Err(Error(404, UnknownUser))
    ensures u in users && Users.Active(users[u]) ==> Ratings.ValidateUserExists(users, u, context).Ok?
    ensures u in users && !Users.Active(users[u]) ==>
              Ratings.ValidateUserExists(users, u, context) == Err(Error(403, InactiveUser(context)))
  {
    assert !IsBlank(u);
  }

  /** The task check on a plain id, for a completed task and two different users. */
  lemma PlainTaskCheck(tasks: Tasks.Store, id: Tasks.TaskId, from: UserId, to: UserId)
    requires PlainId(id) && from != to
    requires id in tasks && tasks[id].status == Some(Tasks.Completed)
    ensures Ratings.Involved(tasks[id], from) && Ratings.Involved(tasks[id], to) ==>
              Ratings.ValidateTaskCompleted(tasks, id, from, to) == Ok(tasks[id])
    ensures !Ratings.Involved(tasks[id], from) ==>
              Ratings.ValidateTaskCompleted(tasks, id, from, to) == Err(Error(403, RaterNotInvolved))
    ensures Ratings.Involved(tasks[id], from) && !Ratings.Involved(tasks[id], to) ==>
              Ratings.ValidateTaskCompleted(tasks, id, from, to) == Err(Error(400, TargetNotInvolved))
  {
    assert !IsBlank(id);
  }

  /** With plain ids, neither duplicate check reports a triple the table does not hold. */
  lemma PlainDuplicateCheck(check: Ratings.DuplicateCheck, ratings: Ratings.Store, scan: seq<Ratings.RatingId>,
                            from: UserId, to: UserId, id: Tasks.TaskId)
    requires IsScanOf(scan, ratings) && PlainId(to) && PlainId(id)
    ensures !Ratings.RatingExists(ratings, from, to, id) ==> !Ratings.Duplicate(check, ratings, scan, from, to, id, false)
  {
  }

  /** Once a user deactivates their account, every rating they try to
      submit with acceptable input to someone else is refused with a 403. */
  lemma DeactivatedCannotRate(check: Ratings.DuplicateCheck, users: Users.Store, tasks: Tasks.Store,
                              ratings: Ratings.Store, scan: seq<Ratings.RatingId>, u: UserId,
                              p: Ratings.RatingPayload, scanFailed: bool, freshId: Ratings.RatingId, now: Time)
    requires IsScanOf(scan, ratings)
    requires PlainId(u) && Ratings.ValidInput(p) && u != p.toUserId
    ensures Ratings.CreateRating(Ratings.KeyedByTaskIdAndStatus, check, Users.DeactivateUser(users, u).store, tasks, ratings, scan, u, p, scanFailed, freshId, now)
            == Err(Error(403, InactiveUser("create ratings")))
  {
    var s := Users.DeactivateUser(users, u).store;
    PlainAccountCheck(s, u, "create ratings");
  }

  /** Nor can anyone rate them. */
  lemma DeactivatedCannotBeRated(check: Ratings.DuplicateCheck, users: Users.Store, tasks: Tasks.Store,
                                 ratings: Ratings.Store, scan: seq<Ratings.RatingId>, u: UserId,
                                 caller: UserId, p: Ratings.RatingPayload, scanFailed: bool,
                                 freshId: Ratings.RatingId, now: Time)
    requires IsScanOf(scan, ratings)
    requires PlainId(u) && Ratings.ValidInput(p) && p.toUserId == u && caller != u
    requires Ratings.ValidateUserExists(Users.DeactivateUser(users, u).store, caller, "create ratings").Ok?
    ensures Ratings.CreateRating(Ratings.KeyedByTaskIdAndStatus, check, Users.DeactivateUser(users, u).store, tasks, ratings, scan, caller, p, scanFailed, freshId, now)
            == Err(Error(403, InactiveUser("receive ratings")))
  {
    var s := Users.DeactivateUser(users, u).store;
    PlainAccountCheck(s, u, "receive ratings");
  }

  /** Nor flag a rating: with an acceptable reason and rating id, the
      account check answers 403 before the rating is even looked up. */
  lemma DeactivatedCannotFlag(users: Users.Store, ratings: Ratings.Store, u: UserId, ratingId: string,
                              reason: string, now: Time)
    requires PlainId(u) && !IsBlank(ratingId) && 10 <= |reason| <= 500 && 10 <= |Strip(reason)|
    ensures Ratings.FlagRating(Users.DeactivateUser(users, u).store, ratings, u, ratingId, reason, now)
            == Err(Error(403, InactiveUser("flag ratings")))
  {
    var s := Users.DeactivateUser(users, u).store;
    PlainAccountCheck(s, u, "flag ratings");
  }

  /** Nor list anyone's ratings: the caller's account is checked first. */
  lemma DeactivatedCannotListUserRatings(users: Users.Store, ratings: Ratings.Store, scan: seq<Ratings.RatingId>,
                                         u: UserId, userId: string, includeFlagged: bool)
    requires IsScanOf(scan, ratings)
    requires PlainId(u) && !IsBlank(userId)
    ensures Ratings.GetRatingsForUser(Users.DeactivateUser(users, u).store, ratings, scan, u, userId, includeFlagged)
            == Err(Error(403, InactiveUser("view ratings")))
  {
    var s := Users.DeactivateUser(users, u).store;
    PlainAccountCheck(s, u, "view ratings");
  }

  /** Nor the ratings they gave. */
  lemma DeactivatedCannotListGiven(users: Users.Store, ratings: Ratings.Store, scan: seq<Ratings.RatingId>, u: UserId)
    requires IsScanOf(scan, ratings)
    requires PlainId(u)
    ensures Ratings.GetMyGivenRatings(Users.DeactivateUser(users, u).store, ratings, scan, u)
            == Err(Error(403, InactiveUser("view your given ratings")))
  {
    var s := Users.DeactivateUser(users, u).store;
    PlainAccountCheck(s, u, "view your given ratings");
  }

  /** Nor the ratings they received. */
  lemma DeactivatedCannotListReceived(users: Users.Store, ratings: Ratings.Store, scan: seq<Ratings.RatingId>, u: UserId)
    requires IsScanOf(scan, ratings)
    requires PlainId(u)
    ensures Ratings.GetMyReceivedRatings(Users.DeactivateUser(users, u).store, ratings, scan, u)
            == Err(Error(403, InactiveUser("view your received ratings")))
  {
    var s := Users.DeactivateUser(users, u).store;
    PlainAccountCheck(s, u, "view your received ratings");
  }

  /** Nor the ratings of a task, even one they took part in. */
  lemma DeactivatedCannotListTaskRatings(users: Users.Store, tasks: Tasks.Store, ratings: Ratings.Store,
                                         scan: seq<Ratings.RatingId>, u: UserId, taskId: string)
    requires IsScanOf(scan, ratings)
    requires PlainId(u) && !IsBlank(taskId)
    ensures Ratings.GetRatingsForTask(Users.DeactivateUser(users, u).store, tasks, ratings, scan, u, taskId)
            == Err(Error(403, InactiveUser("view task ratings")))
  {
    var s := Users.DeactivateUser(users, u).store;
    PlainAccountCheck(s, u, "view task ratings");
  }

  /** Reactivation restores what deactivation took away. */
  lemma ReactivatedMayRateAgain(check: Ratings.DuplicateCheck, users: Users.Store, tasks: Tasks.Store,
                                ratings: Ratings.Store, scan: seq<Ratings.RatingId>, u: UserId,
                                anyone: UserId, p: Ratings.RatingPayload, scanFailed: bool,
                                freshId: Ratings.RatingId, now: Time)
    requires IsScanOf(scan, ratings)
    requires PlainId(u) && u in users && Users.Active(users[u])
    ensures Ratings.CreateRating(Ratings.KeyedByTaskIdAndStatus, check, Users.ReactivateUser(Users.DeactivateUser(users, u).store, anyone, u).value.store,
                                 tasks, ratings, scan, u, p, scanFailed, freshId, now)
            == Ratings.CreateRating(Ratings.KeyedByTaskIdAndStatus, check, users, tasks, ratings, scan, u, p, scanFailed, freshId, now)
  {
    Users.ReactivateUndoesDeactivate(users, u, anyone);
  }

  /** With `completed_by` never written, the only user involved in a task is
      its poster, so no rating passes the task check. */
  lemma NoRatingWithoutCompleter(check: Ratings.DuplicateCheck, users: Users.Store, tasks: Tasks.Store,
                                 ratings: Ratings.Store, scan: seq<Ratings.RatingId>, caller: UserId,
                                 p: Ratings.RatingPayload, scanFailed: bool, freshId: Ratings.RatingId, now: Time)
    requires IsScanOf(scan, ratings)
    requires forall k :: k in tasks ==> tasks[k].completedBy.None?
    ensures Ratings.CreateRating(Ratings.KeyedByTaskIdAndStatus, check, users, tasks, ratings, scan, caller, p, scanFailed, freshId, now).Err?
  {
    var v := Ratings.ValidateTaskCompleted(tasks, p.taskId, caller, p.toUserId);
    if v.Ok? && caller != p.toUserId {
      Ratings.DistinctPairIsPosterAndCompleter(tasks, p.taskId, caller, p.toUserId);
      assert false;
    }
  }

  /** So, as the task routes are written, no sequence of create, accept,
      complete and delete calls on an empty table ever yields a task that
      can be rated. */
  lemma {:induction false} RoutedTasksNeverRateable(ops: seq<TaskLifecycle.Op>, check: Ratings.DuplicateCheck,
                                                    users: Users.Store, ratings: Ratings.Store,
                                                    scan: seq<Ratings.RatingId>, caller: UserId, p: Ratings.RatingPayload,
                                                    scanFailed: bool, freshId: Ratings.RatingId, now: Time)
    requires IsScanOf(scan, ratings)
    ensures
      var tasks := TaskLifecycle.Run(TaskLifecycle.AsWritten, map[], ops);
      Ratings.CreateRating(Ratings.KeyedByTaskIdAndStatus, check, users, tasks, ratings, scan, caller, p, scanFailed, freshId, now).Err?
  {
    var tasks := TaskLifecycle.Run(TaskLifecycle.AsWritten, map[], ops);
    TaskLifecycle.RunKeepsConsistent(TaskLifecycle.AsWritten, map[], ops);
    assert forall k :: k in tasks ==> TaskLifecycle.Consistent(TaskLifecycle.AsWritten, tasks[k]);
    NoRatingWithoutCompleter(check, users, tasks, ratings, scan, caller, p, scanFailed, freshId, now);
  }

  /** The converse of the task check: on a completed task whose completer
      is recorded, its poster and its completer may rate each other, given
      active accounts, plain ids and no earlier rating of the pair. This holds
      when the task check finds the task under its id. */
  lemma PosterAndCompleterMayRate(check: Ratings.DuplicateCheck, users: Users.Store, tasks: Tasks.Store,
                                  ratings: Ratings.Store, scan: seq<Ratings.RatingId>,
                                  from: UserId, to: UserId, id: Tasks.TaskId, score: int,
                                  freshId: Ratings.RatingId, now: Time)
    requires IsScanOf(scan, ratings)
    requires PlainId(from) && PlainId(to) && from != to && PlainId(id)
    requires from in users && Users.Active(users[from]) && to in users && Users.Active(users[to])
    requires 1 <= score <= 5
    requires id in tasks && tasks[id].status == Some(Tasks.Completed)
    requires || (from == tasks[id].postedBy && tasks[id].completedBy == Some(to))
             || (to == tasks[id].postedBy && tasks[id].completedBy == Some(from))
    requires !Ratings.RatingExists(ratings, from, to, id)
    ensures Ratings.CreateRating(Ratings.KeyedByTaskIdAndStatus, check, users, tasks, ratings, scan, from, Ratings.RatingPayload(to, id, score, None),
                                 false, freshId, now).Ok?
  {
    PlainAccountCheck(users, from, "create ratings");
    PlainAccountCheck(users, to, "receive ratings");
    PlainTaskCheck(tasks, id, from, to);
    PlainDuplicateCheck(check, ratings, scan, from, to, id);
    assert Ratings.ValidInput(Ratings.RatingPayload(to, id, score, None));
  }

  /** With the completion that records `completed_by`, the intended flow
      works when the task check finds the task under its id: after A posts,
      B accepts and B completes, A may rate B and B may rate A (given active
      accounts, a plain task id and no earlier rating of the pair). */
  lemma RecordedCompletionIsRateable(check: Ratings.DuplicateCheck, users: Users.Store, tasks: Tasks.Store,
                                     ratings: Ratings.Store, scan: seq<Ratings.RatingId>,
                                     a: UserId, b: UserId, d: Tasks.TaskDraft, id: Tasks.TaskId,
                                     t0: Time, t1: Time, t2: Time, score: int, freshId: Ratings.RatingId, now: Time)
    requires IsScanOf(scan, ratings)
    requires PlainId(a) && PlainId(b) && a != b && PlainId(id)
    requires a in users && Users.Active(users[a]) && b in users && Users.Active(users[b])
    requires 1 <= score <= 5
    requires !Ratings.RatingExists(ratings, a, b, id) && !Ratings.RatingExists(ratings, b, a, id)
    ensures
      var s0 := Tasks.CreateTask(tasks, a, d, id, t0).store;
      var s1 := Tasks.AcceptTask(s0, b, id, t1).value.store;
      var s2 := Tasks.CompleteRecordingCompleter(s1, b, id, t2).value.store;
      && Ratings.CreateRating(Ratings.KeyedByTaskIdAndStatus, check, users, s2, ratings, scan, a, Ratings.RatingPayload(b, id, score, None), false, freshId, now).Ok?
      && Ratings.CreateRating(Ratings.KeyedByTaskIdAndStatus, check, users, s2, ratings, scan, b, Ratings.RatingPayload(a, id, score, None), false, freshId, now).Ok?
  {
    var s0 := Tasks.CreateTask(tasks, a, d, id, t0).store;
    var s1 := Tasks.AcceptTask(s0, b, id, t1).value.store;
    var s2 := Tasks.CompleteRecordingCompleter(s1, b, id, t2).value.store;
    assert s2[id].postedBy == a && s2[id].completedBy == Some(b) && s2[id].status == Some(Tasks.Completed);
    PosterAndCompleterMayRate(check, users, s2, ratings, scan, a, b, id, score, freshId, now);
    PosterAndCompleterMayRate(check, users, s2, ratings, scan, b, a, id, score, freshId, now);
  }

  /** The same flow with the completion as written is refused, even when
      the task check finds the task under its id: A's rating of B fails the
      involvement check, because B was never recorded. */
  lemma RoutedCompletionRefusesRating(check: Ratings.DuplicateCheck, users: Users.Store, tasks: Tasks.Store,
                                      ratings: Ratings.Store, scan: seq<Ratings.RatingId>,
                                      a: UserId, b: UserId, d: Tasks.TaskDraft, id: Tasks.TaskId,
                                      t0: Time, t1: Time, t2: Time, score: int, freshId: Ratings.RatingId, now: Time)
    requires IsScanOf(scan, ratings)
    requires PlainId(a) && PlainId(b) && a != b && PlainId(id)
    requires a in users && Users.Active(users[a]) && b in users && Users.Active(users[b])
    requires 1 <= score <= 5
    ensures
      var s0 := Tasks.CreateTask(tasks, a, d, id, t0).store;
      var s1 := Tasks.AcceptTask(s0, b, id, t1).value.store;
      var s2 := Tasks.CompleteTask(s1, b, id, t2).value.store;
      && Ratings.CreateRating(Ratings.KeyedByTaskIdAndStatus, check, users, s2, ratings, scan, a, Ratings.RatingPayload(b, id, score, None), false, freshId, now)
         == Err(Error(400, TargetNotInvolved))
      && Ratings.CreateRating(Ratings.KeyedByTaskIdAndStatus, check, users, s2, ratings, scan, b, Ratings.RatingPayload(a, id, score, None), false, freshId, now)
         == Err(Error(403, RaterNotInvolved))
  {
    var s0 := Tasks.CreateTask(tasks, a, d, id, t0).store;
    var s1 := Tasks.AcceptTask(s0, b, id, t1).value.store;
    var s2 := Tasks.CompleteTask(s1, b, id, t2).value.store;
    assert s2[id].postedBy == a && s2[id].completedBy.None? && s2[id].status == Some(Tasks.Completed);
    PlainAccountCheck(users, a, "create ratings");
    PlainAccountCheck(users, b, "create ratings");
    PlainAccountCheck(users, a, "receive ratings");
    PlainAccountCheck(users, b, "receive ratings");
    PlainTaskCheck(s2, id, a, b);
    PlainTaskCheck(s2, id, b, a);
    assert Ratings.ValidInput(Ratings.RatingPayload(b, id, score, None));
    assert Ratings.ValidInput(Ratings.RatingPayload(a, id, score, None));
  }

  /** Under any run of the recording completion, every completed task's
      poster and completer may rate one another as far as the task check
      is concerned, whenever they are different users. */
  lemma {:induction false} RecordedRunsRateable(ops: seq<TaskLifecycle.Op>, k: Tasks.TaskId)
    requires PlainId(k)
    requires k in TaskLifecycle.Run(TaskLifecycle.RecordingCompleter, map[], ops)
    requires TaskLifecycle.Run(TaskLifecycle.RecordingCompleter, map[], ops)[k].status == Some(Tasks.Completed)
    ensures
      var tasks := TaskLifecycle.Run(TaskLifecycle.RecordingCompleter, map[], ops);
      var t := tasks[k];
      && t.completedBy.Some?
      && (t.postedBy != t.completedBy.value ==>
            Ratings.ValidateTaskCompleted(tasks, k, t.postedBy, t.completedBy.value) == Ok(t))
  {
    var tasks := TaskLifecycle.Run(TaskLifecycle.RecordingCompleter, map[], ops);
    TaskLifecycle.RunKeepsConsistent(TaskLifecycle.RecordingCompleter, map[], ops);
    assert TaskLifecycle.Consistent(TaskLifecycle.RecordingCompleter, tasks[k]);
    assert !IsBlank(k);
  }

  /** The header check only refuses a missing or empty `x-user-id`, so a
      header of spaces authenticates; every rating route then refuses that
      caller with a 400 for a blank user id, before any table is read. */
  lemma {:induction false} WhitespaceCallerRefused(check: Ratings.DuplicateCheck, users: Users.Store,
                                                   tasks: Tasks.Store, ratings: Ratings.Store,
                                                   scan: seq<Ratings.RatingId>, header: string,
                                                   p: Ratings.RatingPayload, scanFailed: bool,
                                                   freshId: Ratings.RatingId, now: Time)
    requires IsScanOf(scan, ratings)
    requires header != [] && AllSpace(header)
    requires Ratings.ValidInput(p)
    ensures Auth.Authenticate(Some(header)) == Ok(header)
    ensures Ratings.CreateRating(Ratings.KeyedByTaskIdAndStatus, check, users, tasks, ratings, scan, header, p, scanFailed, freshId, now)
            == Err(Error(400, BlankUserId))
    ensures Ratings.GetMyGivenRatings(users, ratings, scan, header) == Err(Error(400, BlankUserId))
    ensures Ratings.GetMyReceivedRatings(users, ratings, scan, header) == Err(Error(400, BlankUserId))
  {
    BlankIffAllSpace(header);
    if header == p.toUserId {
      BlankIffAllSpace(p.toUserId);
      assert false;
    }
  }
}
