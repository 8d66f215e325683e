/** The faculty page of the admin panel: its list state after a fetch, a delete or a toggle,
    the search filter over names, and the status and button labels of a row. */
module FacultyDashboard {
  import opened Values
  import opened Text
  import opened Seqs

  /** A faculty as the page holds it. */
  datatype Faculty = Faculty(
    id: Id,
    name: string,
    email: string,
    address: string,
    college: string,
    isActive: int)

  /** How a `fetch` ended: with an HTTP response, ok or not, or by throwing. */
  datatype FetchOutcome = Responded(ok: bool) | Threw(message: string)

  /** The page state: the list, the error line and the search box. */
  datatype Page = Page(faculties: seq<Faculty>, error: Option<string>, searchTerm: string)

  const InitialPage := Page([], None, "")

  predicate Succeeded(outcome: FetchOutcome)
  {
    outcome == Responded(true)
  }

  /** The message a failed call leaves on the page: the one thrown for a non-ok response,
      or the message of whatever `fetch` itself threw. */
  function FailureText(outcome: FetchOutcome, notOk: string): string
  {
    match outcome
    case Responded(_) => notOk
    case Threw(message) => message
  }

  /** The mount-time load of GET /faculties with the decoded `data`. */
  function HandleFetch(p: Page, outcome: FetchOutcome, data: seq<Faculty>): (r: Page)
    ensures r.searchTerm == p.searchTerm
    ensures Succeeded(outcome) ==> r.faculties == data && r.error == p.error
    ensures !Succeeded(outcome) ==>
      r.faculties == p.faculties && r.error == Some(FailureText(outcome, "Failed to fetch faculties data"))
  {
    if Succeeded(outcome) then p.(faculties := data)
    else p.(error := Some(FailureText(outcome, "Failed to fetch faculties data")))
  }

  /** The filter test of a successful delete. */
  function OtherThan(id: Id): Faculty -> bool
  {
    (f: Faculty) => f.id != id
  }

  /** `handleDelete`: after an ok DELETE the entries with that id are dropped, the rest keep
      their order and multiplicity; otherwise the list stays and the error is shown. */
  function HandleDelete(p: Page, id: Id, outcome: FetchOutcome): (r: Page)
    ensures r.searchTerm == p.searchTerm
    ensures Succeeded(outcome) ==>
      && r.error == p.error
      && IsSubsequence(r.faculties, p.faculties)
      && (forall f :: f in r.faculties <==> f in p.faculties && f.id != id)
      && (forall f: Faculty :: f.id != id ==> multiset(r.faculties)[f] == multiset(p.faculties)[f])
    ensures !Succeeded(outcome) ==>
      r.faculties == p.faculties && r.error == Some(FailureText(outcome, "Failed to delete faculty"))
  {
    if Succeeded(outcome) then p.(faculties := Filter(p.faculties, OtherThan(id)))
    else p.(error := Some(FailureText(outcome, "Failed to delete faculty")))
  }

  /** The verb in the toggle's failure message, chosen from the status the button showed. */
  function Action(currentStatus: int): string
  {
    if currentStatus == 0 then "activate" else "deactivate"
  }

  /** `a` and `b` are the same faculty up to the activation flag. */
  predicate SameButFlag(a: Faculty, b: Faculty)
  {
    a.id == b.id && a.name == b.name && a.email == b.email && a.address == b.address && a.college == b.college
  }

  function SetFlag(faculties: seq<Faculty>, id: Id, flag: int): seq<Faculty>
  {
    seq(|faculties|, i requires 0 <= i < |faculties| =>
      if faculties[i].id == id then faculties[i].(isActive := flag) else faculties[i])
  }

  /** `handleToggleStatus`: after an ok PUT every entry with that id takes the flip of the
      status the button showed, and nothing else changes; otherwise the list stays and the
      error names the attempted action. */
  function HandleToggleStatus(p: Page, id: Id, currentStatus: int, outcome: FetchOutcome): (r: Page)
    ensures r.searchTerm == p.searchTerm
    ensures Succeeded(outcome) ==>
      && r.error == p.error
      && |r.faculties| == |p.faculties|
      && (forall i :: 0 <= i < |p.faculties| ==> SameButFlag(r.faculties[i], p.faculties[i]))
      && (forall i :: 0 <= i < |p.faculties| && p.faculties[i].id == id ==>
            IsFlag(r.faculties[i].isActive) && (r.faculties[i].isActive == 1 <==> currentStatus == 0))
      && (forall i :: 0 <= i < |p.faculties| && p.faculties[i].id != id ==> r.faculties[i] == p.faculties[i])
    ensures !Succeeded(outcome) ==>
      && r.faculties == p.faculties
      && r.error == Some(FailureText(outcome, "Failed to " + Action(currentStatus) + " faculty"))
  {
    if Succeeded(outcome) then p.(faculties := SetFlag(p.faculties, id, Flip(currentStatus)))
    else p.(error := Some(FailureText(outcome, "Failed to " + Action(currentStatus) + " faculty")))
  }

  /** The search test: the lower-cased name contains the lower-cased term. */
  function NameMatches(term: string): Faculty -> bool
  {
    (f: Faculty) => Contains(Lower(f.name), Lower(term))
  }

  /** `filteredFaculties`: the faculties whose name contains the term, ignoring ASCII case,
      in list order. */
  function Search(faculties: seq<Faculty>, term: string): (r: seq<Faculty>)
    ensures IsSubsequence(r, faculties)
    ensures forall f :: f in r <==> f in faculties && Contains(Lower(f.name), Lower(term))
    ensures forall f: Faculty :: Contains(Lower(f.name), Lower(term)) ==> multiset(r)[f] == multiset(faculties)[f]
  {
    Filter(faculties, NameMatches(term))
  }

  /** An empty search box shows the whole list. */
  lemma SearchEmptyTermShowsAll(faculties: seq<Faculty>)
    ensures Search(faculties, "") == faculties
  {
    forall i | 0 <= i < |faculties|
      ensures NameMatches("")(faculties[i])
    {
      ContainsEmpty(Lower(faculties[i].name));
    }
    FilterKeepsAll(faculties, NameMatches(""));
  }

  /** Typing the term in upper or lower case shows the same rows. */
  lemma SearchIgnoresTermCase(faculties: seq<Faculty>, term: string)
    ensures Search(faculties, term) == Search(faculties, Lower(term))
  {
    LowerIdempotent(term);
    FilterCongruent(faculties, NameMatches(term), NameMatches(Lower(term)));
  }

  /** The texts a row shows for its flag: the status cell and the toggle button. */
  datatype Labels = Labels(status: string, button: string)

  function RowLabels(isActive: int): (r: Labels)
    ensures r.status == "Inactive" <==> isActive == 0
    ensures r.status == "Active" <==> isActive != 0
    ensures r.button == "Activate" <==> isActive == 0
    ensures r.button == "Deactivate" <==> isActive != 0
  {
    if isActive == 0 then Labels("Inactive", "Activate") else Labels("Active", "Deactivate")
  }

  /** Clicking a row's button and succeeding does what the button said: "Activate" leaves
      every entry with that id shown "Active", "Deactivate" leaves it "Inactive". */
  lemma ToggleDoesWhatButtonSays(p: Page, i: nat)
    requires i < |p.faculties|
    ensures var f := p.faculties[i];
            var r := HandleToggleStatus(p, f.id, f.isActive, Responded(true));
            forall j :: 0 <= j < |r.faculties| && r.faculties[j].id == f.id ==>
              RowLabels(r.faculties[j].isActive).status ==
                (if RowLabels(f.isActive).button == "Activate" then "Active" else "Inactive")
  {
  }

  /** Two successful toggles, the second started from the status the first produced, give
      back the original list when the entries with that id all showed the same 0/1 status. */
  lemma ToggleTwiceRestores(p: Page, id: Id, status: int)
    requires IsFlag(status)
    requires forall i :: 0 <= i < |p.faculties| && p.faculties[i].id == id ==> p.faculties[i].isActive == status
    ensures HandleToggleStatus(HandleToggleStatus(p, id, status, Responded(true)), id, Flip(status), Responded(true)) == p
  {
  }

  /** Deleting an id the list does not hold changes nothing; deleting twice is deleting once. */
  lemma DeleteAbsentKeepsList(p: Page, id: Id)
    requires forall i :: 0 <= i < |p.faculties| ==> p.faculties[i].id != id
    ensures HandleDelete(p, id, Responded(true)) == p
  {
    FilterKeepsAll(p.faculties, OtherThan(id));
  }

  lemma DeleteIdempotent(p: Page, id: Id)
    ensures var once := HandleDelete(p, id, Responded(true));
            HandleDelete(once, id, Responded(true)) == once
  {
    var once := HandleDelete(p, id, Responded(true));
    DeleteAbsentKeepsList(once, id);
  }
}
