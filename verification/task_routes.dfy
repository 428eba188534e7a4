/** How `GET /tasks/<segment>` reaches a handler. The router tries its routes
    in the order they are declared and takes the first whose path pattern
    matches; a path parameter matches any single segment. */
module TaskRoutes {
  import opened Base
  import opened Http
  import opened Scan
  import Tasks
  import TaskListing

  datatype Pattern = Literal(text: string) | Param

  datatype Endpoint = GetTaskEndpoint | MyPostedEndpoint | MyAcceptedEndpoint

  datatype Route = Route(pattern: Pattern, endpoint: Endpoint)

  predicate Matches(p: Pattern, segment: string) {
    p.Param? || p.text == segment
  }

  /** The single-segment GET routes of the task router, in declaration
      order: `/{task_id}`, then `/my-posted`, then `/my-accepted`. */
  const DeclaredGets: seq<Route> :=
    [Route(Param, GetTaskEndpoint), Route(Literal("my-posted"), MyPostedEndpoint),
     Route(Literal("my-accepted"), MyAcceptedEndpoint)]

  /** The order that evidently was meant: the fixed paths before the parameter. */
  const LiteralsFirst: seq<Route> :=
    [Route(Literal("my-posted"), MyPostedEndpoint), Route(Literal("my-accepted"), MyAcceptedEndpoint),
     Route(Param, GetTaskEndpoint)]

  /** The endpoint of the first route whose pattern matches, if any. */
  function FirstMatch(routes: seq<Route>, segment: string): (r: Option<Endpoint>)
    ensures r.None? <==> forall i :: 0 <= i < |routes| ==> !Matches(routes[i].pattern, segment)
    ensures r.Some? ==>
              exists i :: 0 <= i < |routes| && Matches(routes[i].pattern, segment) && routes[i].endpoint == r.value
                          && forall j :: 0 <= j < i ==> !Matches(routes[j].pattern, segment)
    decreases |routes|
  {
    if routes == [] then None
    else if Matches(routes[0].pattern, segment) then Some(routes[0].endpoint)
    else
      var rest := FirstMatch(routes[1..], segment);
      assert forall i :: 1 <= i < |routes| ==> routes[1..][i - 1] == routes[i];
      if rest.Some? then
        assert exists i :: 1 <= i < |routes| && Matches(routes[i].pattern, segment) && routes[i].endpoint == rest.value
                           && forall j :: 0 <= j < i ==> !Matches(routes[j].pattern, segment) by {
          var i :| 0 <= i < |routes[1..]| && Matches(routes[1..][i].pattern, segment)
                   && routes[1..][i].endpoint == rest.value
                   && forall j :: 0 <= j < i ==> !Matches(routes[1..][j].pattern, segment);
          assert forall j :: 1 <= j < i + 1 ==> routes[j] == routes[1..][j - 1];
        }
        rest
      else
        rest
  }

  datatype Answer = One(task: Result<Tasks.TaskView>) | Many(tasks: seq<Tasks.TaskView>)

  /** The answer to an authenticated `GET /tasks/<segment>` under the given
      route order; `None` when no route matches. */
  function Dispatch(routes: seq<Route>, tasks: Tasks.Store, scan: seq<Tasks.TaskId>, caller: UserId, segment: string)
    : (r: Option<Answer>)
    requires IsScanOf(scan, tasks)
    ensures r.None? <==> FirstMatch(routes, segment).None?
    ensures FirstMatch(routes, segment) == Some(GetTaskEndpoint) ==> r == Some(One(Tasks.GetTask(tasks, segment)))
    ensures FirstMatch(routes, segment) == Some(MyPostedEndpoint) ==>
              r == Some(Many(TaskListing.GetMyPostedTasks(tasks, scan, caller)))
    ensures FirstMatch(routes, segment) == Some(MyAcceptedEndpoint) ==>
              r == Some(Many(TaskListing.GetMyAcceptedTasks(tasks, scan, caller)))
  {
    match FirstMatch(routes, segment)
    case None => None
    case Some(GetTaskEndpoint) => Some(One(Tasks.GetTask(tasks, segment)))
    case Some(MyPostedEndpoint) => Some(Many(TaskListing.GetMyPostedTasks(tasks, scan, caller)))
    case Some(MyAcceptedEndpoint) => Some(Many(TaskListing.GetMyAcceptedTasks(tasks, scan, caller)))
  }

  /** As declared, `/{task_id}` takes every segment, so the two listings of
      one's own tasks are never reached: asking for them looks up a task
      whose id is "my-posted" or "my-accepted", normally a 404. */
  lemma ListingsShadowed(tasks: Tasks.Store, scan: seq<Tasks.TaskId>, caller: UserId, segment: string)
    requires IsScanOf(scan, tasks)
    ensures FirstMatch(DeclaredGets, segment) == Some(GetTaskEndpoint)
    ensures "my-posted" !in tasks ==>
              Dispatch(DeclaredGets, tasks, scan, caller, "my-posted") == Some(One(Err(Error(404, TaskNotFound))))
    ensures "my-accepted" !in tasks ==>
              Dispatch(DeclaredGets, tasks, scan, caller, "my-accepted") == Some(One(Err(Error(404, TaskNotFound))))
  {
  }

  /** With the fixed paths first, each listing is reached by its own path,
      and every other segment is still a task lookup, as before. */
  lemma LiteralsFirstReachesListings(tasks: Tasks.Store, scan: seq<Tasks.TaskId>, caller: UserId, segment: string)
    requires IsScanOf(scan, tasks)
    ensures Dispatch(LiteralsFirst, tasks, scan, caller, "my-posted")
            == Some(Many(TaskListing.GetMyPostedTasks(tasks, scan, caller)))
    ensures Dispatch(LiteralsFirst, tasks, scan, caller, "my-accepted")
            == Some(Many(TaskListing.GetMyAcceptedTasks(tasks, scan, caller)))
    ensures segment != "my-posted" && segment != "my-accepted" ==>
              Dispatch(LiteralsFirst, tasks, scan, caller, segment) == Dispatch(DeclaredGets, tasks, scan, caller, segment)
  {
  }
}
