/** The task page of the admin panel: the draft in the creation modal, the create handler
    with its required-field guard, and the search filter over titles. */
module TaskDashboard {
  import opened Values
  import opened Text
  import opened Seqs

  /** The named inputs of the creation modal. */
  datatype Field = Title | Description | AssignedTo | Priority | Status | AssignedDate | DueDate

  /** The task being drafted in the modal. */
  datatype Draft = Draft(
    title: string,
    description: string,
    assignedTo: string,
    priority: string,
    status: string,
    assignedDate: string,
    dueDate: string)

  /** `initialTaskState`: every input empty except priority "Medium" and status "Pending". */
  const InitialTask := Draft("", "", "", "Medium", "Pending", "", "")

  function Get(d: Draft, f: Field): string
  {
    match f
    case Title => d.title
    case Description => d.description
    case AssignedTo => d.assignedTo
    case Priority => d.priority
    case Status => d.status
    case AssignedDate => d.assignedDate
    case DueDate => d.dueDate
  }

  /** `handleInputChange`: the named input takes the new value, the others keep theirs. */
  function HandleInputChange(d: Draft, name: Field, value: string): (r: Draft)
    ensures Get(r, name) == value
    ensures forall g :: g != name ==> Get(r, g) == Get(d, g)
  {
    match name
    case Title => d.(title := value)
    case Description => d.(description := value)
    case AssignedTo => d.(assignedTo := value)
    case Priority => d.(priority := value)
    case Status => d.(status := value)
    case AssignedDate => d.(assignedDate := value)
    case DueDate => d.(dueDate := value)
  }

  /** A task in the page's list: the draft's fields plus an id. */
  datatype Task = Task(id: int, draft: Draft)

  datatype Page = Page(tasks: seq<Task>, search: string, showModal: bool, draft: Draft)

  const InitialPage := Page([], "", false, InitialTask)

  /** The mount-time load of GET /tasks; a failure is only logged. */
  function HandleTasksLoaded(p: Page, data: Option<seq<Task>>): (r: Page)
    ensures data.Some? ==> r == p.(tasks := data.value)
    ensures data.None? ==> r == p
  {
    match data
    case Some(tasks) => p.(tasks := tasks)
    case None => p
  }

  /** How the POST /tasks call ended: with an ok response carrying `taskId` (absent when the
      JSON had none), or by throwing (a non-ok response, a network error, a bad body). */
  datatype PostOutcome = Saved(taskId: Option<int>) | PostFailed

  /** The effects of one click on "Create Task": the page after it, the draft sent to the
      server if any, and the alert shown if any. */
  datatype Effect = Effect(page: Page, posted: Option<Draft>, alert: Option<string>)

  /** The guard of `handleCreateTask`: title, assignee and due date are filled in. */
  predicate CanSubmit(d: Draft)
  {
    d.title != "" && d.assignedTo != "" && d.dueDate != ""
  }

  /** `data.taskId || tasks.length + 1`: the server's id unless it is absent or 0. */
  function CreatedId(taskId: Option<int>, tasks: seq<Task>): (r: int)
    ensures taskId.Some? && taskId.value != 0 ==> r == taskId.value
    ensures !(taskId.Some? && taskId.value != 0) ==> r == |tasks| + 1
  {
    if taskId.Some? && taskId.value != 0 then taskId.value else |tasks| + 1
  }

  /** `handleCreateTask`. */
  function HandleCreateTask(p: Page, outcome: PostOutcome): (r: Effect)
    ensures !CanSubmit(p.draft) ==>
      r == Effect(p, None, Some("Please fill in required fields."))
    ensures CanSubmit(p.draft) ==> r.posted == Some(p.draft)
    ensures CanSubmit(p.draft) && outcome.PostFailed? ==>
      r.page == p && r.alert == Some("Error saving task")
    ensures CanSubmit(p.draft) && outcome.Saved? ==>
      && r.alert == None
      && |r.page.tasks| == |p.tasks| + 1
      && r.page.tasks[..|p.tasks|] == p.tasks
      && r.page.tasks[|p.tasks|] == Task(CreatedId(outcome.taskId, p.tasks), p.draft)
      && r.page.draft == InitialTask
      && !r.page.showModal
      && r.page.search == p.search
  {
    if !CanSubmit(p.draft) then
      Effect(p, None, Some("Please fill in required fields."))
    else match outcome
      case PostFailed => Effect(p, Some(p.draft), Some("Error saving task"))
      case Saved(taskId) =>
        var created := Task(CreatedId(taskId, p.tasks), p.draft);
        Effect(Page(p.tasks + [created], p.search, false, InitialTask), Some(p.draft), None)
  }

  /** The search test: the lower-cased title contains the lower-cased search string. */
  function TitleMatches(search: string): Task -> bool
  {
    (t: Task) => Contains(Lower(t.draft.title), Lower(search))
  }

  /** `filteredTasks`: the tasks whose title contains the search string, ignoring ASCII
      case, in list order. */
  function Search(tasks: seq<Task>, search: string): (r: seq<Task>)
    ensures IsSubsequence(r, tasks)
    ensures forall t :: t in r <==> t in tasks && Contains(Lower(t.draft.title), Lower(search))
    ensures forall t: Task :: Contains(Lower(t.draft.title), Lower(search)) ==> multiset(r)[t] == multiset(tasks)[t]
  {
    Filter(tasks, TitleMatches(search))
  }

  /** An empty search box shows every task. */
  lemma SearchEmptyShowsAll(tasks: seq<Task>)
    ensures Search(tasks, "") == tasks
  {
    forall i | 0 <= i < |tasks|
      ensures TitleMatches("")(tasks[i])
    {
      ContainsEmpty(Lower(tasks[i].draft.title));
    }
    FilterKeepsAll(tasks, TitleMatches(""));
  }

  /** Only title, assignee and due date gate creation: editing any other input never
      changes whether the draft can be submitted. */
  lemma OptionalFieldsDoNotGate(d: Draft, name: Field, value: string)
    requires name != Title && name != AssignedTo && name != DueDate
    ensures CanSubmit(HandleInputChange(d, name, value)) == CanSubmit(d)
  {
  }

  /** Filling in the three required inputs of a fresh form is enough to submit it. */
  lemma RequiredInputsSuffice(title: string, assignee: string, due: string)
    requires title != "" && assignee != "" && due != ""
    ensures CanSubmit(HandleInputChange(HandleInputChange(HandleInputChange(InitialTask, Title, title), AssignedTo, assignee), DueDate, due))
  {
  }

  /** A created task shows up when the page searches for its own title, after the tasks
      that matched before. */
  lemma CreatedTaskIsFound(p: Page, outcome: PostOutcome)
    requires CanSubmit(p.draft) && outcome.Saved?
    ensures var r := HandleCreateTask(p, outcome).page;
            var created := r.tasks[|p.tasks|];
            Search(r.tasks, p.draft.title) == Search(p.tasks, p.draft.title) + [created]
  {
    var r := HandleCreateTask(p, outcome).page;
    var created := r.tasks[|p.tasks|];
    assert r.tasks == p.tasks + [created];
    FilterAppend(p.tasks, [created], TitleMatches(p.draft.title));
    assert StartsWith(Lower(p.draft.title), Lower(p.draft.title));
    assert TitleMatches(p.draft.title)(created);
    assert Filter([created], TitleMatches(p.draft.title)) == [created];
  }
}
