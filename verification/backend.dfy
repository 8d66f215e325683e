/** The Express handlers of the backend, each a pure function from a request and the store to a
    response and the new store. The three tables are held in memory: students and faculties as
    maps from their uuid to the row, tasks as a sequence in insertion order. */
module Backend {
  import opened Values

  /** The two entity tables that share the registration/delete/toggle lifecycle. */
  datatype Kind = Students | Faculties

  /** Capitalised singular used in response messages ("Student created successfully"). */
  function Noun(k: Kind): string
  {
    match k
    case Students => "Student"
    case Faculties => "Faculty"
  }

  /** Lower-case singular used in the storage-fault messages ("Failed to delete student"). */
  function LowerNoun(k: Kind): string
  {
    match k
    case Students => "student"
    case Faculties => "faculty"
  }

  /** Table name, also used in "Failed to fetch students". */
  function Plural(k: Kind): string
  {
    match k
    case Students => "students"
    case Faculties => "faculties"
  }

  /** A registration body as destructured by the handler; an absent JSON field is `None`.
      The faculty handler never reads `internshipDomain`. */
  datatype Registration = Registration(
    name: Option<string>,
    mobile: Option<string>,
    address: Option<string>,
    email: Option<string>,
    internshipDomain: Option<string>,
    college: Option<string>,
    password: Option<string>)

  /** A stored student or faculty row. Only student rows carry an internship domain. */
  datatype Row = Row(
    name: string,
    mobile: string,
    address: string,
    email: string,
    internshipDomain: Option<string>,
    college: string,
    password: string,
    isActive: int)

  type Table = map<Id, Row>

  /** A task body; the server stores whatever it is given, absent fields as NULL (`None`). */
  datatype TaskFields = TaskFields(
    title: Option<string>,
    description: Option<string>,
    assignedTo: Option<string>,
    priority: Option<string>,
    status: Option<string>,
    assignedDate: Option<string>,
    dueDate: Option<string>)

  /** A row of the task table with its auto-increment id. */
  datatype TaskRow = TaskRow(id: nat, fields: TaskFields)

  datatype Store = Store(students: Table, faculties: Table, tasks: seq<TaskRow>)

  function TableOf(s: Store, k: Kind): Table
  {
    match k
    case Students => s.students
    case Faculties => s.faculties
  }

  /** The tables other than `k`'s are the same in `s` and `s'`. */
  predicate OthersUnchanged(s: Store, s': Store, k: Kind)
  {
    && s'.tasks == s.tasks
    && (k == Students ==> s'.faculties == s.faculties)
    && (k == Faculties ==> s'.students == s.students)
  }

  function WithTable(s: Store, k: Kind, t: Table): (r: Store)
    ensures TableOf(r, k) == t
    ensures OthersUnchanged(s, r, k)
  {
    match k
    case Students => s.(students := t)
    case Faculties => s.(faculties := t)
  }

  /** JSON response bodies. */
  datatype Body =
    | Message(message: string)
    | Error(error: string)
    | Toggled(message: string, isActive: int)
    | Rows(rows: Table)
    | Identity(email: string)
    | TaskInserted(message: string, taskId: nat)
    | TaskList(tasks: seq<TaskRow>)
    | Dashboard(students: Table, faculties: Table, tasks: seq<TaskRow>)

  datatype Response = Response(status: nat, body: Body)

  /** What a handler produces: the HTTP response and the store after the request. */
  datatype Reply = Reply(response: Response, store: Store)

  /** A storage fault: 500 with a generic message, nothing written. */
  function Failed(s: Store, text: string): Reply
  {
    Reply(Response(500, Error(text)), s)
  }

  // ------------------- Students and faculties -------------------

  /** Every field the handler of table `k` requires is truthy: seven for students,
      the same minus `internshipDomain` for faculties. */
  predicate HasRequiredFields(k: Kind, f: Registration)
  {
    && Truthy(f.name)
    && Truthy(f.mobile)
    && Truthy(f.address)
    && Truthy(f.email)
    && (k == Students ==> Truthy(f.internshipDomain))
    && Truthy(f.college)
    && Truthy(f.password)
  }

  /** `row` holds exactly the registered values of table `k`. */
  predicate Describes(row: Row, k: Kind, f: Registration)
  {
    && f.name == Some(row.name)
    && f.mobile == Some(row.mobile)
    && f.address == Some(row.address)
    && f.email == Some(row.email)
    && row.internshipDomain == (if k == Students then f.internshipDomain else None)
    && f.college == Some(row.college)
    && f.password == Some(row.password)
  }

  function NewRow(k: Kind, f: Registration): Row
    requires HasRequiredFields(k, f)
  {
    Row(f.name.value, f.mobile.value, f.address.value, f.email.value,
        if k == Students then f.internshipDomain else None,
        f.college.value, f.password.value, 0)
  }

  /** POST /students and POST /faculties. `freshId` is the uuid the handler generates. */
  function Register(k: Kind, f: Registration, freshId: Id, fault: bool, s: Store): (r: Reply)
    requires freshId !in TableOf(s, k)
    ensures !HasRequiredFields(k, f) ==>
      r.response == Response(400, Error("All fields are required")) && r.store == s
    ensures HasRequiredFields(k, f) && fault ==> r.response.status == 500 && r.store == s
    ensures HasRequiredFields(k, f) && !fault ==>
      && r.response == Response(201, Message(Noun(k) + " created successfully"))
      && OthersUnchanged(s, r.store, k)
      && TableOf(r.store, k).Keys == TableOf(s, k).Keys + {freshId}
      && (forall id :: id in TableOf(s, k) ==> TableOf(r.store, k)[id] == TableOf(s, k)[id])
      && Describes(TableOf(r.store, k)[freshId], k, f)
      && TableOf(r.store, k)[freshId].isActive == 0
  {
    if !HasRequiredFields(k, f) then
      Reply(Response(400, Error("All fields are required")), s)
    else if fault then
      Failed(s, "Failed to create " + LowerNoun(k))
    else
      var t := TableOf(s, k);
      Reply(Response(201, Message(Noun(k) + " created successfully")),
            WithTable(s, k, t[freshId := NewRow(k, f)]))
  }

  /** GET /students and GET /faculties: every row, nothing written. */
  function List(k: Kind, fault: bool, s: Store): (r: Reply)
    ensures r.store == s
    ensures !fault ==> r.response.status == 200 && r.response.body == Rows(TableOf(s, k))
    ensures fault ==> r.response.status == 500
  {
    if fault then Failed(s, "Failed to fetch " + Plural(k))
    else Reply(Response(200, Rows(TableOf(s, k))), s)
  }

  /** DELETE /students/:id and DELETE /faculties/:id. */
  function Delete(k: Kind, id: Id, fault: bool, s: Store): (r: Reply)
    ensures id !in TableOf(s, k) ==> r.store == s
    ensures fault ==> r.response.status == 500 && r.store == s
    ensures !fault && id !in TableOf(s, k) ==>
      r.response == Response(404, Error(Noun(k) + " not found"))
    ensures !fault && id in TableOf(s, k) ==>
      && r.response == Response(200, Message(Noun(k) + " deleted successfully"))
      && OthersUnchanged(s, r.store, k)
      && TableOf(r.store, k).Keys == TableOf(s, k).Keys - {id}
      && (forall other :: other in TableOf(r.store, k) ==> TableOf(r.store, k)[other] == TableOf(s, k)[other])
  {
    var t := TableOf(s, k);
    if fault then Failed(s, "Failed to delete " + LowerNoun(k))
    else if id !in t then Reply(Response(404, Error(Noun(k) + " not found")), s)
    else Reply(Response(200, Message(Noun(k) + " deleted successfully")), WithTable(s, k, t - {id}))
  }

  /** Message of a successful toggle, naming the new state. */
  function ToggleMessage(k: Kind, newStatus: int): string
  {
    Noun(k) + " " + (if newStatus == 1 then "activated" else "deactivated") + " successfully"
  }

  /** PUT /students/:id/toggle-active and PUT /faculties/:id/toggle-active. */
  function ToggleActive(k: Kind, id: Id, fault: bool, s: Store): (r: Reply)
    ensures id !in TableOf(s, k) ==> r.store == s
    ensures fault ==> r.response.status == 500 && r.store == s
    ensures !fault && id !in TableOf(s, k) ==>
      r.response == Response(404, Error(Noun(k) + " not found"))
    ensures !fault && id in TableOf(s, k) ==>
      var was := TableOf(s, k)[id].isActive;
      && r.response.status == 200
      && r.response.body.Toggled?
      && IsFlag(r.response.body.isActive)
      && (r.response.body.isActive == 1 <==> was == 0)
      && OthersUnchanged(s, r.store, k)
      && TableOf(r.store, k).Keys == TableOf(s, k).Keys
      && TableOf(r.store, k)[id] == TableOf(s, k)[id].(isActive := r.response.body.isActive)
      && (forall other :: other in TableOf(s, k) && other != id ==> TableOf(r.store, k)[other] == TableOf(s, k)[other])
  {
    var t := TableOf(s, k);
    if fault then Failed(s, "Failed to toggle " + LowerNoun(k) + " status")
    else if id !in t then Reply(Response(404, Error(Noun(k) + " not found")), s)
    else
      var newStatus := Flip(t[id].isActive);
      Reply(Response(200, Toggled(ToggleMessage(k, newStatus), newStatus)),
            WithTable(s, k, t[id := t[id].(isActive := newStatus)]))
  }

  // ------------------- Login -------------------

  /** The hard-coded administrator account. */
  const AdminEmail := "admin@admin.com"
  const AdminPassword := "admin#1947"

  datatype Credentials = Credentials(email: Option<string>, password: Option<string>, role: Option<string>)

  /** Some row of `t` has exactly this (email, password) pair. */
  predicate HasAccount(t: Table, email: string, password: string)
  {
    exists id :: id in t && t[id].email == email && t[id].password == password
  }

  /** The table a non-admin role logs in against. */
  function RoleTable(role: string): Option<Kind>
  {
    if role == "Faculty" then Some(Faculties)
    else if role == "Student" then Some(Students)
    else None
  }

  /** POST /login. The body of a 200 response is the email itself; nothing is written. */
  function Login(c: Credentials, fault: bool, s: Store): (r: Reply)
    ensures r.store == s
    ensures !(Truthy(c.email) && Truthy(c.password) && Truthy(c.role)) ==>
      r.response == Response(400, Error("Email, password, and role are required"))
    ensures Truthy(c.email) && Truthy(c.password) && Truthy(c.role) && c.role.value == "Admin" ==>
      && (r.response.status == 200 <==> c.email.value == AdminEmail && c.password.value == AdminPassword)
      && (r.response.status == 200 ==> r.response.body == Identity(c.email.value))
      && (r.response.status != 200 ==> r.response == Response(401, Error("Invalid Admin credentials")))
    ensures Truthy(c.email) && Truthy(c.password) && Truthy(c.role) && RoleTable(c.role.value).Some? && !fault ==>
      && (r.response.status == 200 <==>
            HasAccount(TableOf(s, RoleTable(c.role.value).value), c.email.value, c.password.value))
      && (r.response.status == 200 ==> r.response.body == Identity(c.email.value))
      && (r.response.status != 200 ==> r.response == Response(401, Error("Invalid credentials")))
    ensures Truthy(c.email) && Truthy(c.password) && Truthy(c.role) && RoleTable(c.role.value).Some? && fault ==>
      r.response.status == 500
    ensures Truthy(c.email) && Truthy(c.password) && Truthy(c.role) &&
            c.role.value != "Admin" && RoleTable(c.role.value).None? ==>
      r.response == Response(401, Error("Invalid credentials"))
  {
    if !(Truthy(c.email) && Truthy(c.password) && Truthy(c.role)) then
      Reply(Response(400, Error("Email, password, and role are required")), s)
    else
      var email, password, role := c.email.value, c.password.value, c.role.value;
      if role == "Admin" then
        if email == AdminEmail && password == AdminPassword then
          Reply(Response(200, Identity(email)), s)
        else
          Reply(Response(401, Error("Invalid Admin credentials")), s)
      else match RoleTable(role)
        case None => Reply(Response(401, Error("Invalid credentials")), s)
        case Some(k) =>
          if fault then Failed(s, "Login failed")
          else if HasAccount(TableOf(s, k), email, password) then Reply(Response(200, Identity(email)), s)
          else Reply(Response(401, Error("Invalid credentials")), s)
  }

  // ------------------- Tasks -------------------

  /** GET /tasks: the whole task table in insertion order. */
  function ListTasks(fault: bool, s: Store): (r: Reply)
    ensures r.store == s
    ensures !fault ==> r.response.status == 200 && r.response.body == TaskList(s.tasks)
    ensures fault ==> r.response.status == 500
  {
    if fault then Failed(s, "Failed to fetch tasks")
    else Reply(Response(200, TaskList(s.tasks)), s)
  }

  /** POST /tasks. No field is checked: any body, even an empty one, is inserted.
      `newId` is the id the database assigns to the inserted row. */
  function CreateTask(f: TaskFields, newId: nat, fault: bool, s: Store): (r: Reply)
    ensures fault ==> r.response.status == 500 && r.store == s
    ensures !fault ==>
      && r.response == Response(201, TaskInserted("Task inserted successfully", newId))
      && r.store.students == s.students
      && r.store.faculties == s.faculties
      && |r.store.tasks| == |s.tasks| + 1
      && r.store.tasks[..|s.tasks|] == s.tasks
      && r.store.tasks[|s.tasks|].id == newId
      && r.store.tasks[|s.tasks|].fields == f
  {
    if fault then Failed(s, "Failed to insert task")
    else
      Reply(Response(201, TaskInserted("Task inserted successfully", newId)),
            s.(tasks := s.tasks + [TaskRow(newId, f)]))
  }

  // ------------------- Dashboard -------------------

  /** GET /admin/dashboard: the three tables as they are, not an aggregate. */
  function AdminDashboard(fault: bool, s: Store): (r: Reply)
    ensures r.store == s
    ensures !fault ==>
      r.response.status == 200 && r.response.body == Dashboard(s.students, s.faculties, s.tasks)
    ensures fault ==> r.response.status == 500
  {
    if fault then Failed(s, "Failed to fetch dashboard data")
    else Reply(Response(200, Dashboard(s.students, s.faculties, s.tasks)), s)
  }

  // ------------------- Routing -------------------

  /** One request to one of the routes. */
  datatype Request =
    | PostEntity(kind: Kind, form: Registration)
    | GetEntities(kind: Kind)
    | DeleteEntity(kind: Kind, id: Id)
    | ToggleEntity(kind: Kind, id: Id)
    | PostLogin(credentials: Credentials)
    | GetTasks
    | PostTask(fields: TaskFields)
    | GetDashboard

  /** What the handler cannot see: the uuid it would generate, the id the task table would
      assign, and whether the database faults during this request. */
  datatype Env = Env(freshId: Id, taskId: nat, fault: bool)

  predicate ReadOnly(req: Request)
  {
    req.GetEntities? || req.PostLogin? || req.GetTasks? || req.GetDashboard?
  }

  /** The route table. Every failure leaves the store as it was (each request is all or
      nothing against one table) and the read-only routes never write. */
  function Handle(req: Request, env: Env, s: Store): (r: Reply)
    requires req.PostEntity? ==> env.freshId !in TableOf(s, req.kind)
    ensures r.response.status in {200, 201, 400, 401, 404, 500}
    ensures r.response.status != 200 && r.response.status != 201 ==> r.store == s
    ensures ReadOnly(req) ==> r.store == s
  {
    match req
    case PostEntity(k, f) => Register(k, f, env.freshId, env.fault, s)
    case GetEntities(k) => List(k, env.fault, s)
    case DeleteEntity(k, id) => Delete(k, id, env.fault, s)
    case ToggleEntity(k, id) => ToggleActive(k, id, env.fault, s)
    case PostLogin(c) => Login(c, env.fault, s)
    case GetTasks => ListTasks(env.fault, s)
    case PostTask(f) => CreateTask(f, env.taskId, env.fault, s)
    case GetDashboard => AdminDashboard(env.fault, s)
  }
}
