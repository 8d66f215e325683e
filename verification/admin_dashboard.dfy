/** The four stat cards of the admin dashboard, computed from the fetched intern and task
    lists. */
module AdminDashboard {
  import opened Values
  import opened Seqs

  datatype Stats = Stats(totalInterns: nat, activeTasks: nat, completedTasks: nat, overdueTasks: nat)

  /** The state before any fetch has come back. */
  const InitialStats := Stats(0, 0, 0, 0)

  /** A fetched task; only its status is read. */
  datatype ApiTask = ApiTask(status: string)

  /** Exact, case-sensitive comparison of a task's status with `status`. */
  function HasStatus(status: string): ApiTask -> bool
  {
    (t: ApiTask) => t.status == status
  }

  function Statuses(tasks: seq<ApiTask>): (r: seq<string>)
    ensures |r| == |tasks|
    ensures forall i :: 0 <= i < |tasks| ==> r[i] == tasks[i].status
  {
    seq(|tasks|, i requires 0 <= i < |tasks| => tasks[i].status)
  }

  /** `filter(task => task.status === status).length` is the number of times `status`
      occurs among the statuses. */
  lemma {:induction false} CountIsMultiplicity(tasks: seq<ApiTask>, status: string)
    ensures |Filter(tasks, HasStatus(status))| == multiset(Statuses(tasks))[status]
    decreases |tasks|
  {
    if |tasks| > 0 {
      var rest := tasks[1..];
      CountIsMultiplicity(rest, status);
      var kept := Filter(tasks, HasStatus(status));
      assert kept == if HasStatus(status)(tasks[0]) then [tasks[0]] + Filter(rest, HasStatus(status))
                     else Filter(rest, HasStatus(status));
      assert Statuses(tasks) == [tasks[0].status] + Statuses(rest);
      assert multiset(Statuses(tasks)) == multiset{tasks[0].status} + multiset(Statuses(rest));
    }
  }

  /** The body of `fetchStats`: on success of both requests the stats are computed from the
      lists; if either fails the stats keep their `current` value. */
  function FetchStats<I>(current: Stats, interns: Option<seq<I>>, tasks: Option<seq<ApiTask>>): (r: Stats)
    ensures interns.None? || tasks.None? ==> r == current
    ensures interns.Some? && tasks.Some? ==>
      && r.totalInterns == |interns.value|
      && r.activeTasks == |tasks.value|
      && r.completedTasks == multiset(Statuses(tasks.value))["completed"]
      && r.overdueTasks == multiset(Statuses(tasks.value))["overdue"]
      && r.completedTasks + r.overdueTasks <= r.activeTasks
  {
    match (interns, tasks)
    case (Some(found), Some(ts)) =>
      CountIsMultiplicity(ts, "completed");
      CountIsMultiplicity(ts, "overdue");
      FilterDisjointBound(ts, HasStatus("completed"), HasStatus("overdue"));
      Stats(|found|, |ts|, |Filter(ts, HasStatus("completed"))|, |Filter(ts, HasStatus("overdue"))|)
    case _ => current
  }

  /** The stats shown after the page mounts: all zero unless both fetches succeeded. */
  function MountedStats<I>(interns: Option<seq<I>>, tasks: Option<seq<ApiTask>>): (r: Stats)
    ensures interns.None? || tasks.None? ==> r == Stats(0, 0, 0, 0)
    ensures r.completedTasks + r.overdueTasks <= r.activeTasks
  {
    FetchStats(InitialStats, interns, tasks)
  }

  /** The match is case-sensitive: a task whose status is "Completed" is counted neither as
      completed nor as overdue, only as a task. */
  lemma CapitalisedStatusNotCounted<I>(interns: seq<I>, tasks: seq<ApiTask>, current: Stats)
    ensures var before := FetchStats(current, Some(interns), Some(tasks));
            var after := FetchStats(current, Some(interns), Some(tasks + [ApiTask("Completed")]));
            && after.completedTasks == before.completedTasks
            && after.overdueTasks == before.overdueTasks
            && after.activeTasks == before.activeTasks + 1
  {
    assert Statuses(tasks + [ApiTask("Completed")]) == Statuses(tasks) + ["Completed"];
  }
}
