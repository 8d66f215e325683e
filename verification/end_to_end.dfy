/** The admin pages against the backend: loading a page from a fault-free read makes its list
    mirror the server's table, and a delete, a toggle or a task creation keeps it mirroring. */
module EndToEnd {
  import opened Values
  import Backend
  import FacultyDashboard
  import TaskDashboard

  /** What `fetch` reports for a server response: `response.ok` means a 2xx status. */
  function Observed(r: Backend.Response): FacultyDashboard.FetchOutcome
  {
    FacultyDashboard.Responded(200 <= r.status < 300)
  }

  /** A page entry shows exactly the server row's displayed fields and flag. */
  predicate Mirrors(f: FacultyDashboard.Faculty, row: Backend.Row)
  {
    f.name == row.name && f.email == row.email && f.address == row.address &&
    f.college == row.college && f.isActive == row.isActive
  }

  /** Every entry of the faculty page stands for a row of the faculties table, and every row
      of the table has an entry on the page. */
  predicate PageMirrors(faculties: seq<FacultyDashboard.Faculty>, t: Backend.Table)
  {
    && (forall i :: 0 <= i < |faculties| ==> faculties[i].id in t && Mirrors(faculties[i], t[faculties[i].id]))
    && (forall id :: id in t ==> exists i :: 0 <= i < |faculties| && faculties[i].id == id)
  }

  /** `data` is the JSON array GET /faculties sends for table `t`: one entry per row. */
  predicate Listing(data: seq<FacultyDashboard.Faculty>, t: Backend.Table)
  {
    && PageMirrors(data, t)
    && (forall i, j :: 0 <= i < j < |data| ==> data[i].id != data[j].id)
  }

  /** The faculty page's mount-time load: with a fault-free read the page mirrors the table;
      a fault leaves the list empty and shows the fetch error. */
  lemma FetchedPageMirrors(s: Backend.Store, fault: bool, data: seq<FacultyDashboard.Faculty>)
    requires Listing(data, s.faculties)
    ensures var server := Backend.List(Backend.Faculties, fault, s);
            var page := FacultyDashboard.HandleFetch(FacultyDashboard.InitialPage, Observed(server.response), data);
            && (!fault ==> server.response.body == Backend.Rows(s.faculties))
            && (!fault ==> PageMirrors(page.faculties, s.faculties) && page.error.None?)
            && (fault ==> page.faculties == [] && page.error == Some("Failed to fetch faculties data"))
  {
  }

  /** Clicking a row's toggle button keeps the page in step with the table: the client's
      own flip of the shown status agrees with the server's flip of the stored one. */
  lemma ToggleKeepsPageInSync(p: FacultyDashboard.Page, s: Backend.Store, i: nat, fault: bool)
    requires i < |p.faculties| && PageMirrors(p.faculties, s.faculties)
    ensures var f := p.faculties[i];
            var server := Backend.ToggleActive(Backend.Faculties, f.id, fault, s);
            var page := FacultyDashboard.HandleToggleStatus(p, f.id, f.isActive, Observed(server.response));
            PageMirrors(page.faculties, server.store.faculties)
  {
  }

  /** Dropping the entries of one id from a mirroring page mirrors the table without that id. */
  lemma DropMirrors(before: seq<FacultyDashboard.Faculty>, after: seq<FacultyDashboard.Faculty>,
                    t: Backend.Table, t': Backend.Table, id: Id)
    requires PageMirrors(before, t)
    requires t'.Keys == t.Keys - {id}
    requires forall other :: other in t' ==> t'[other] == t[other]
    requires forall f :: f in after <==> f in before && f.id != id
    ensures PageMirrors(after, t')
  {
    forall j | 0 <= j < |after|
      ensures after[j].id in t' && Mirrors(after[j], t'[after[j].id])
    {
      assert after[j] in after;
      var k :| 0 <= k < |before| && before[k] == after[j];
    }
    forall other | other in t'
      ensures exists j :: 0 <= j < |after| && after[j].id == other
    {
      var i :| 0 <= i < |before| && before[i].id == other;
      assert before[i] in after;
      var j :| 0 <= j < |after| && after[j] == before[i];
    }
  }

  /** Clicking a row's delete button keeps the page in step with the table. */
  lemma DeleteKeepsPageInSync(p: FacultyDashboard.Page, s: Backend.Store, id: Id, fault: bool)
    requires PageMirrors(p.faculties, s.faculties)
    ensures var server := Backend.Delete(Backend.Faculties, id, fault, s);
            var page := FacultyDashboard.HandleDelete(p, id, Observed(server.response));
            PageMirrors(page.faculties, server.store.faculties)
  {
    var server := Backend.Delete(Backend.Faculties, id, fault, s);
    var page := FacultyDashboard.HandleDelete(p, id, Observed(server.response));
    if !fault && id in s.faculties {
      DropMirrors(p.faculties, page.faculties, s.faculties, server.store.faculties, id);
    } else {
      assert server.store == s && page.faculties == p.faculties;
    }
  }

  /** The fields the page sends with POST /tasks: every input, as a string. */
  function AsFields(d: TaskDashboard.Draft): Backend.TaskFields
  {
    Backend.TaskFields(Some(d.title), Some(d.description), Some(d.assignedTo), Some(d.priority),
                       Some(d.status), Some(d.assignedDate), Some(d.dueDate))
  }

  /** What the page's create handler sees of a POST /tasks response. */
  function PostObserved(r: Backend.Response): TaskDashboard.PostOutcome
  {
    if 200 <= r.status < 300 && r.body.TaskInserted? then TaskDashboard.Saved(Some(r.body.taskId))
    else TaskDashboard.PostFailed
  }

  /** The task page's list holds the task table's rows, in the same order with the same ids. */
  predicate TasksMirror(tasks: seq<TaskDashboard.Task>, rows: seq<Backend.TaskRow>)
  {
    |tasks| == |rows| &&
    forall i :: 0 <= i < |tasks| ==> tasks[i].id == rows[i].id && AsFields(tasks[i].draft) == rows[i].fields
  }

  /** Creating a task keeps the task page in step with the table as long as the database
      hands out non-zero ids; a draft the guard rejects leaves both sides as they were. */
  lemma CreateKeepsTasksInSync(p: TaskDashboard.Page, s: Backend.Store, newId: nat, fault: bool)
    requires TasksMirror(p.tasks, s.tasks) && newId != 0
    ensures var e := TaskDashboard.HandleCreateTask(p, TaskDashboard.PostFailed);
            e.posted.None? ==> TasksMirror(e.page.tasks, s.tasks)
    ensures TaskDashboard.CanSubmit(p.draft) ==>
            var server := Backend.CreateTask(AsFields(p.draft), newId, fault, s);
            var e := TaskDashboard.HandleCreateTask(p, PostObserved(server.response));
            TasksMirror(e.page.tasks, server.store.tasks)
  {
  }

  /** Every field of a stored task is present, as for a task the page created. */
  predicate Complete(f: Backend.TaskFields)
  {
    f.title.Some? && f.description.Some? && f.assignedTo.Some? && f.priority.Some? &&
    f.status.Some? && f.assignedDate.Some? && f.dueDate.Some?
  }

  function AsDraft(f: Backend.TaskFields): (d: TaskDashboard.Draft)
    requires Complete(f)
    ensures AsFields(d) == f
  {
    TaskDashboard.Draft(f.title.value, f.description.value, f.assignedTo.value, f.priority.value,
                        f.status.value, f.assignedDate.value, f.dueDate.value)
  }

  /** The task list the page decodes from a GET /tasks response, if the fetch succeeded and
      every row has all its fields. */
  function TasksReceived(r: Backend.Response): Option<seq<TaskDashboard.Task>>
  {
    if 200 <= r.status < 300 && r.body.TaskList? &&
       (forall i :: 0 <= i < |r.body.tasks| ==> Complete(r.body.tasks[i].fields))
    then
      var rows := r.body.tasks;
      Some(seq(|rows|, i requires 0 <= i < |rows| => TaskDashboard.Task(rows[i].id, AsDraft(rows[i].fields))))
    else None
  }

  /** The task page's mount-time load: with a fault-free read of a table of complete rows the
      page mirrors the table; a fault leaves the initial, empty page. */
  lemma LoadedTasksMirror(s: Backend.Store, fault: bool)
    requires forall i :: 0 <= i < |s.tasks| ==> Complete(s.tasks[i].fields)
    ensures var server := Backend.ListTasks(fault, s);
            var page := TaskDashboard.HandleTasksLoaded(TaskDashboard.InitialPage, TasksReceived(server.response));
            && (!fault ==> TasksMirror(page.tasks, s.tasks))
            && (fault ==> page == TaskDashboard.InitialPage)
  {
  }
}
