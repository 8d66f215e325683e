/** Properties of the backend that relate several requests: the toggle is its own inverse,
    a deleted record stays gone, a registered account can log in, and every route keeps the
    store well formed. */
module BackendProperties {
  import opened Values
  import opened Backend

  /** Two toggles of a record whose flag is 0 or 1 give back the store they started from,
      and the second response reports the original flag. */
  lemma ToggleTwiceRestores(k: Kind, id: Id, s: Store)
    requires id in TableOf(s, k) && IsFlag(TableOf(s, k)[id].isActive)
    ensures var first := ToggleActive(k, id, false, s);
            var second := ToggleActive(k, id, false, first.store);
            && second.response.status == 200
            && second.response.body == Toggled(ToggleMessage(k, TableOf(s, k)[id].isActive), TableOf(s, k)[id].isActive)
            && second.store == s
  {
  }

  /** After a successful delete, deleting or toggling the same id again finds nothing:
      404 without a fault, and the store is not touched either way. */
  lemma DeletedStaysGone(k: Kind, id: Id, s: Store, fault: bool)
    requires id in TableOf(s, k)
    ensures var gone := Delete(k, id, false, s).store;
            && Delete(k, id, fault, gone).store == gone
            && ToggleActive(k, id, fault, gone).store == gone
            && (!fault ==> Delete(k, id, fault, gone).response.status == 404)
            && (!fault ==> ToggleActive(k, id, fault, gone).response.status == 404)
  {
  }

  /** The lifecycle of one record: registration stores it inactive, a toggle activates it,
      and deleting it gives back exactly the store before registration. */
  lemma RegisterToggleDelete(k: Kind, f: Registration, freshId: Id, s: Store)
    requires freshId !in TableOf(s, k) && HasRequiredFields(k, f)
    ensures var registered := Register(k, f, freshId, false, s).store;
            var toggled := ToggleActive(k, freshId, false, registered);
            var deleted := Delete(k, freshId, false, toggled.store);
            && List(k, false, registered).response.body.rows[freshId].isActive == 0
            && toggled.response.body == Toggled(Noun(k) + " activated successfully", 1)
            && deleted.response.status == 200
            && deleted.store == s
  {
  }

  /** A successfully registered account can log in with its own email and password
      under its own role, and the response names it by its email. */
  lemma RegisteredCanLogIn(k: Kind, f: Registration, freshId: Id, s: Store)
    requires freshId !in TableOf(s, k) && HasRequiredFields(k, f)
    ensures var registered := Register(k, f, freshId, false, s).store;
            var role := if k == Students then "Student" else "Faculty";
            Login(Credentials(f.email, f.password, Some(role)), false, registered).response
              == Response(200, Identity(f.email.value))
  {
  }

  /** Task ids are pairwise distinct. */
  predicate DistinctTaskIds(tasks: seq<TaskRow>)
  {
    forall i, j :: 0 <= i < j < |tasks| ==> tasks[i].id != tasks[j].id
  }

  /** A well-formed store: flags are 0 or 1, student rows carry an internship domain and
      faculty rows do not, task ids are distinct. */
  predicate Valid(s: Store)
  {
    && (forall id :: id in s.students ==>
          IsFlag(s.students[id].isActive) && s.students[id].internshipDomain.Some?)
    && (forall id :: id in s.faculties ==>
          IsFlag(s.faculties[id].isActive) && s.faculties[id].internshipDomain.None?)
    && DistinctTaskIds(s.tasks)
  }

  /** The ids the environment hands out are not in use yet. */
  predicate FreshFor(req: Request, env: Env, s: Store)
  {
    && (req.PostEntity? ==> env.freshId !in TableOf(s, req.kind))
    && (req.PostTask? ==> forall i :: 0 <= i < |s.tasks| ==> s.tasks[i].id != env.taskId)
  }

  /** Every route keeps the store well formed. */
  lemma HandlePreservesValid(req: Request, env: Env, s: Store)
    requires Valid(s) && FreshFor(req, env, s)
    ensures Valid(Handle(req, env, s).store)
  {
  }

  /** One request together with what its handler could not see. */
  datatype Step = Step(req: Request, env: Env)

  /** Each step's generated ids are fresh in the store the earlier steps left. */
  predicate Admissible(steps: seq<Step>, s: Store)
    decreases |steps|
  {
    |steps| == 0 ||
    (FreshFor(steps[0].req, steps[0].env, s) && Admissible(steps[1..], Handle(steps[0].req, steps[0].env, s).store))
  }

  /** The store after the requests are handled one after the other. */
  function Run(steps: seq<Step>, s: Store): Store
    requires Admissible(steps, s)
    decreases |steps|
  {
    if |steps| == 0 then s
    else Run(steps[1..], Handle(steps[0].req, steps[0].env, s).store)
  }

  /** Any sequence of requests keeps the store well formed. */
  lemma {:induction false} RunPreservesValid(steps: seq<Step>, s: Store)
    requires Valid(s) && Admissible(steps, s)
    ensures Valid(Run(steps, s))
    decreases |steps|
  {
    if |steps| > 0 {
      HandlePreservesValid(steps[0].req, steps[0].env, s);
      RunPreservesValid(steps[1..], Handle(steps[0].req, steps[0].env, s).store);
    }
  }

  /** Step `st` registers a record of table `k` under `id`. */
  predicate Registers(st: Step, k: Kind, id: Id)
  {
    st.req.PostEntity? && st.req.kind == k && st.env.freshId == id
  }

  /** An id absent from a table stays absent through any requests that do not register it
      again, so every later delete or toggle of it answers 404 (or 500 on a fault). */
  lemma {:induction false} AbsentStaysAbsent(steps: seq<Step>, s: Store, k: Kind, id: Id)
    requires Admissible(steps, s) && id !in TableOf(s, k)
    requires forall i :: 0 <= i < |steps| ==> !Registers(steps[i], k, id)
    ensures id !in TableOf(Run(steps, s), k)
    ensures Delete(k, id, false, Run(steps, s)).response.status == 404
    ensures ToggleActive(k, id, false, Run(steps, s)).response.status == 404
    decreases |steps|
  {
    if |steps| > 0 {
      var next := Handle(steps[0].req, steps[0].env, s).store;
      assert !Registers(steps[0], k, id);
      assert id !in TableOf(next, k) by {
        match steps[0].req
        case PostEntity(k', f) =>
          if k' == k && HasRequiredFields(k', f) && !steps[0].env.fault {
            assert TableOf(next, k).Keys == TableOf(s, k).Keys + {steps[0].env.freshId};
          }
        case _ =>
      }
      AbsentStaysAbsent(steps[1..], next, k, id);
    }
  }
}
