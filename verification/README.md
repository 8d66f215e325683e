# Internship tracker admin panel — Dafny model

This project models the logic of a small internship-tracking admin panel:

- the Express backend (`ITS-backend-main/server.js`): registration, listing, deletion and
  activation toggle of students and faculties, plaintext login by role, task creation and
  listing, and the admin dashboard read. Each handler is a pure function from a request, the
  store and the environment (generated id, storage fault) to a response (status code and JSON
  body) and the new store. The `students` and `faculties` tables are `map<Id, Row>`, the
  `taskmanage` table is a sequence in insertion order.
- the client-side list state of the faculty page (`FacultyDashboard.jsx`): delete as a filter by
  id, toggle as a map over the entries with that id, the case-insensitive name search, and the
  status and button labels.
- the task page (`TaskDashboard.jsx`): the modal's draft, the required-field guard of task
  creation, the appended task and its id fallback, the form reset, and the title search.
- the stat cards of the admin dashboard (`AdminDashboard.jsx`), computed from fetched lists.

Modules: `Values` (optional values, JavaScript truthiness of a body field, the 0/1 flip),
`Text` (ASCII lower-casing and `includes`), `Seqs` (`filter` with its order and multiplicity
guarantees), `Backend`, `BackendProperties`, `FacultyDashboard`, `TaskDashboard`,
`AdminDashboard`, and `EndToEnd`. `EndToEnd` shows that a page loaded from a fault-free read
mirrors the server's table: every entry matches a row, and every row has an entry. It then shows
that a delete, a toggle or a task creation keeps the page mirroring the table, whether the
request succeeds or fails.

Three points where the code departs from what its API suggests; the model follows the code:

- `isActive` is an integer, not a boolean. A toggle sets it to 1 when it was 0 and to 0 for
  every other value, so only flags that start as 0 or 1 return to their start after two toggles.
- A login with a role other than Admin, Faculty or Student gets 401 ("Invalid credentials"),
  not 400. The 400 answer is only for a missing or empty email, password or role.
- The task table takes any body, and any status string, with no check.

The dashboard counts tasks whose status is exactly `completed` or `overdue`. The task form offers
the statuses `Pending`, `In Progress` and `Completed`. So a task created through the form is
never counted as completed (`AdminDashboard.CapitalisedStatusNotCounted`). The model keeps the
comparison as written.

## Model

| member | source | states |
|---|---|---|
| Values.Flip | ITS-backend-main/server.js:68 | the new flag is 0 or 1, and it is 1 exactly when the old flag was 0 |
| Backend.Register | ITS-backend-main/server.js:14-37 | a missing or empty required field (seven for students, six for faculties at lines 83-105) gives 400 and no change; a fault gives 500 and no change; otherwise 201, and exactly one row is added under the fresh id, holding the submitted values with `isActive` 0, while every other row and table stays the same |
| Backend.List | ITS-backend-main/server.js:39-46 | 200 with every row of the table, or 500 on a fault; the store is never written |
| Backend.Delete | ITS-backend-main/server.js:48-60 | an absent id gives 404 and no change; a present id gives 200, and exactly that row is removed while all others stay; a fault gives 500 and no change |
| Backend.ToggleActive | ITS-backend-main/server.js:62-79 | an absent id gives 404 and no change; otherwise 200 with the new flag in the body; the new flag is 1 exactly when the old one was 0; only that row's flag changes |
| Backend.Login | ITS-backend-main/server.js:151-176 | a missing email, password or role gives 400 before any lookup; the Admin role succeeds exactly for the fixed pair; Faculty and Student succeed exactly when their table has a row with that (email, password); a success answers with the email; any other role gives 401; the store is never written |
| Backend.ListTasks | ITS-backend-main/server.js:180-188 | 200 with the task table in order, or 500 on a fault; nothing is written |
| Backend.CreateTask | ITS-backend-main/server.js:190-209 | with no fault, any body is accepted with 201 and the id the table assigns; the task table grows by one row at the end, holding the given fields; earlier tasks and the other tables are unchanged |
| Backend.AdminDashboard | ITS-backend-main/server.js:212-222 | 200 with the three tables exactly as stored, or 500 on a fault; nothing is written |
| Backend.Handle | ITS-backend-main/server.js:14-222 | every route answers 200, 201, 400, 401, 404 or 500; any answer other than 200/201 leaves the store as it was; the read-only routes never write |
| BackendProperties.ToggleTwiceRestores | ITS-backend-main/server.js:62-79 | two toggles of a record whose flag is 0 or 1 give back the original store, and the second response reports the original flag |
| BackendProperties.DeletedStaysGone | ITS-backend-main/server.js:48-68 | after a successful delete, deleting or toggling the same id gives 404 and changes nothing |
| BackendProperties.RegisterToggleDelete | ITS-backend-main/server.js:14-79 | a registered record is listed as inactive; a toggle activates it with the "activated" message; deleting it gives back exactly the store before registration |
| BackendProperties.RegisteredCanLogIn | ITS-backend-main/server.js:158-171 | an account that registered successfully can log in under its own role with its own email and password, and gets its email back |
| BackendProperties.HandlePreservesValid | ITS-backend-main/server.js:14-209 | if generated ids are fresh, every route keeps flags in {0,1}, keeps internship domains on student rows only, and keeps task ids distinct |
| BackendProperties.RunPreservesValid | ITS-backend-main/server.js:14-222 | any sequence of requests whose generated ids are fresh keeps the store well formed |
| BackendProperties.AbsentStaysAbsent | ITS-backend-main/server.js:48-79 | an id missing from a table stays missing through any requests that do not register it again, so a later delete or toggle of it answers 404 |
| Text.ContainsIffOccurs | ITS-frontend-main/src/components/AdminUser/FacultyDashboard/FacultyDashboard.jsx:61 | the recursive `includes` holds exactly when the needle occurs at some position of the string |
| Text.LowerIdempotent | ITS-frontend-main/src/components/AdminUser/FacultyDashboard/FacultyDashboard.jsx:61 | lower-casing twice gives the same string as lower-casing once |
| Seqs.Filter | ITS-frontend-main/src/components/AdminUser/FacultyDashboard/FacultyDashboard.jsx:35 | the result is an order-preserving subsequence of the input; it holds exactly the elements that pass the test; each passing element appears as often as in the input |
| Seqs.FilterDisjointBound | ITS-frontend-main/src/components/AdminUser/AdminDashboard/AdminDashboard.jsx:36-37 | two tests that no element passes together select at most as many elements as the list holds |
| FacultyDashboard.HandleFetch | ITS-frontend-main/src/components/AdminUser/FacultyDashboard/FacultyDashboard.jsx:10-25 | an ok response replaces the list with the data; a failure keeps the list and shows the error |
| FacultyDashboard.HandleDelete | ITS-frontend-main/src/components/AdminUser/FacultyDashboard/FacultyDashboard.jsx:27-39 | after an ok response the list is the in-order subsequence without the entries with that id, and every other entry keeps its multiplicity; after a failure the list is unchanged and the error is set |
| FacultyDashboard.HandleToggleStatus | ITS-frontend-main/src/components/AdminUser/FacultyDashboard/FacultyDashboard.jsx:41-58 | after an ok response the length is kept; entries with that id take 1 exactly when the shown status was 0, and 0 otherwise; every other field and entry is unchanged; after a failure the list is unchanged and the error names the action |
| FacultyDashboard.Search | ITS-frontend-main/src/components/AdminUser/FacultyDashboard/FacultyDashboard.jsx:60-62 | the result is the in-order subsequence of faculties whose lower-cased name contains the lower-cased term, with multiplicities kept |
| FacultyDashboard.SearchEmptyTermShowsAll | ITS-frontend-main/src/components/AdminUser/FacultyDashboard/FacultyDashboard.jsx:60-62 | an empty term shows the whole list |
| FacultyDashboard.SearchIgnoresTermCase | ITS-frontend-main/src/components/AdminUser/FacultyDashboard/FacultyDashboard.jsx:60-62 | a term and its lower-cased form show the same rows |
| FacultyDashboard.RowLabels | ITS-frontend-main/src/components/AdminUser/FacultyDashboard/FacultyDashboard.jsx:103-119 | the status cell reads "Inactive" and the button "Activate" exactly when the flag is 0; otherwise they read "Active" and "Deactivate" |
| FacultyDashboard.ToggleDoesWhatButtonSays | ITS-frontend-main/src/components/AdminUser/FacultyDashboard/FacultyDashboard.jsx:113-119 | after a successful click, the entry is shown "Active" if its button read "Activate", and "Inactive" if it read "Deactivate" |
| FacultyDashboard.ToggleTwiceRestores | ITS-frontend-main/src/components/AdminUser/FacultyDashboard/FacultyDashboard.jsx:50-54 | toggling with a 0/1 status and then with its flip gives back the original page |
| FacultyDashboard.DeleteAbsentKeepsList | ITS-frontend-main/src/components/AdminUser/FacultyDashboard/FacultyDashboard.jsx:35 | deleting an id the list does not hold leaves the page unchanged |
| FacultyDashboard.DeleteIdempotent | ITS-frontend-main/src/components/AdminUser/FacultyDashboard/FacultyDashboard.jsx:35 | deleting the same id twice is the same as deleting it once |
| TaskDashboard.HandleInputChange | ITS-frontend-main/src/components/AdminUser/TaskDashboard/TaskDashboard.jsx:54-57 | the named input takes the new value and every other input keeps its value |
| TaskDashboard.HandleTasksLoaded | ITS-frontend-main/src/components/AdminUser/TaskDashboard/TaskDashboard.jsx:38-50 | a successful load replaces the task list; a failed one changes nothing |
| TaskDashboard.CreatedId | ITS-frontend-main/src/components/AdminUser/TaskDashboard/TaskDashboard.jsx:76 | the id is the server's `taskId` when that is present and non-zero, else the list length plus one |
| TaskDashboard.HandleCreateTask | ITS-frontend-main/src/components/AdminUser/TaskDashboard/TaskDashboard.jsx:60-85 | an empty title, assignee or due date: an alert, no request, and no state change; a failed request: an alert and no state change; a success: the draft is appended as the last task and earlier tasks are unchanged, the form resets to the initial draft, and the modal closes |
| TaskDashboard.Search | ITS-frontend-main/src/components/AdminUser/TaskDashboard/TaskDashboard.jsx:87-89 | the result is the in-order subsequence of tasks whose lower-cased title contains the lower-cased search, with multiplicities kept |
| TaskDashboard.SearchEmptyShowsAll | ITS-frontend-main/src/components/AdminUser/TaskDashboard/TaskDashboard.jsx:87-89 | an empty search shows every task |
| TaskDashboard.OptionalFieldsDoNotGate | ITS-frontend-main/src/components/AdminUser/TaskDashboard/TaskDashboard.jsx:61-64 | editing the description, priority, status or assigned date never changes whether the draft can be submitted |
| TaskDashboard.RequiredInputsSuffice | ITS-frontend-main/src/components/AdminUser/TaskDashboard/TaskDashboard.jsx:4-12 | a fresh form with a non-empty title, assignee and due date filled in can be submitted |
| TaskDashboard.CreatedTaskIsFound | ITS-frontend-main/src/components/AdminUser/TaskDashboard/TaskDashboard.jsx:76-89 | searching for a created task's title finds the earlier matches followed by the new task |
| AdminDashboard.CountIsMultiplicity | ITS-frontend-main/src/components/AdminUser/AdminDashboard/AdminDashboard.jsx:36-37 | the length of the status filter equals the number of times that status occurs in the list |
| AdminDashboard.FetchStats | ITS-frontend-main/src/components/AdminUser/AdminDashboard/AdminDashboard.jsx:30-48 | on a failure the stats keep their value; on success the interns and tasks counts are the list lengths, the completed and overdue counts are how often each exact status occurs, and completed plus overdue is at most the task count |
| AdminDashboard.MountedStats | ITS-frontend-main/src/components/AdminUser/AdminDashboard/AdminDashboard.jsx:8-13 | all four stats stay 0 unless both fetches succeed |
| AdminDashboard.CapitalisedStatusNotCounted | ITS-frontend-main/src/components/AdminUser/AdminDashboard/AdminDashboard.jsx:36 | a task with status "Completed" raises the task count only; it is not counted as completed or overdue |
| EndToEnd.FetchedPageMirrors | ITS-frontend-main/src/components/AdminUser/FacultyDashboard/FacultyDashboard.jsx:10-25 | loading the initial faculty page from a fault-free GET /faculties makes it mirror the table in both directions, with no error; a fault leaves the list empty and shows "Failed to fetch faculties data" |
| EndToEnd.LoadedTasksMirror | ITS-frontend-main/src/components/AdminUser/TaskDashboard/TaskDashboard.jsx:38-50 | loading the initial task page from a fault-free GET /tasks of complete rows gives the table's tasks in order, with the same ids and fields; a fault leaves the initial page |
| EndToEnd.ToggleKeepsPageInSync | ITS-frontend-main/src/components/AdminUser/FacultyDashboard/FacultyDashboard.jsx:41-58 | if the faculty page mirrors the table in both directions, it still does after a row's toggle click, whether the server flips the flag or faults |
| EndToEnd.DeleteKeepsPageInSync | ITS-frontend-main/src/components/AdminUser/FacultyDashboard/FacultyDashboard.jsx:27-39 | if the faculty page mirrors the table in both directions, it still does after a delete of any id, whether the server deletes, answers 404 or faults |
| EndToEnd.CreateKeepsTasksInSync | ITS-frontend-main/src/components/AdminUser/TaskDashboard/TaskDashboard.jsx:60-85 | if the task page mirrors the task table and the table hands out non-zero ids, a create that posts the draft leaves the page mirroring the table, whether the insert succeeds or faults; a rejected draft leaves the page as it was |

## Left out

- Express and cors setup, `app.listen`, the database connection module (not part of this
  model) and console logging: they carry no logic.
- Storage faults are one flag per request: with a fault, the store is unchanged and the answer
  is 500. A fault between the lookup and the write of a delete or toggle is not modelled
  separately, and neither is the content of the database's error.
- `uuid.v4` and the task table's auto-increment are inputs to the handlers. `Backend.Register`
  requires the uuid to be unused; the code itself never checks this.
- The read-then-write race between two concurrent toggles or deletes: requests are handled one
  at a time.
- Row order of GET /students and GET /faculties: those tables are maps, so the response is the
  set of rows, not their storage order.
- Backend.Login: SQL string comparison is modelled as exact equality. A case-insensitive
  database collation would accept more (email, password) pairs.
- `fetch`/`axios` calls, React hooks, rendering, CSS, and the charts with their hard-coded
  `barData`/`pieData`. A request's outcome is an input: ok, not ok, or thrown with a message.
- The modal open/close buttons and `handleSearchChange`: each only stores a value in the state.
- JavaScript truthiness of non-string values, and Unicode `toLowerCase`. Body fields are
  optional strings (truthy means present and non-empty), and lower-casing is ASCII only.
  A null task title, which would make the task search throw, is not modelled.
- EndToEnd.LoadedTasksMirror: covers only task tables whose rows have every field. POST /tasks
  accepts partial bodies, and the page would receive the missing fields as null.
- AdminDashboard.FetchStats: the `/api/interns` and `/api/tasks` endpoints are not served by the
  backend. The model computes the stats from the lists it is given, and an intern is any value,
  since only the list length is read.
- The student-facing and faculty-facing pages, routing, and the other admin pages: they are
  callers of the endpoints above.
