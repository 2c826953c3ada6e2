/** The internship endpoints (server/src/controllers/internshipController.ts). */
module InternshipController {
  import opened Wrappers
  import opened Common
  import opened Sorting
  import opened InternshipModel

  type InternshipStore = map<Id, Internship>

  /** Every stored internship sits under its own id. */
  ghost predicate KeysMatch(s: InternshipStore) {
    forall k :: k in s ==> s[k].id == k
  }

  /** `sort({ createdAt: -1 })`: `a` may come before `b`. */
  predicate Newer(a: Internship, b: Internship) {
    a.createdAt >= b.createdAt
  }

  lemma NewerIsPreorder()
    ensures TotalPreorder(Newer)
  {
  }

  /** `getInternships`: every stored internship once, newest first. */
  method GetInternships(s: InternshipStore) returns (r: seq<Internship>)
    ensures |r| == |s|
    ensures forall x :: x in r <==> x in s.Values
    ensures forall i, j :: 0 <= i < j < |r| ==> r[i].createdAt >= r[j].createdAt
  {
    var rest := s.Keys;
    var acc: seq<Internship> := [];
    while rest != {}
      invariant rest <= s.Keys
      invariant |acc| + |rest| == |s.Keys|
      invariant forall x :: x in acc <==> exists k :: k in s.Keys - rest && s[k] == x
      decreases |rest|
    {
      var k :| k in rest;
      acc := acc + [s[k]];
      rest := rest - {k};
    }
    NewerIsPreorder();
    r := SortBy(acc, Newer);
    SortBySameElements(acc, Newer);
    assert forall i, j :: 0 <= i < j < |r| ==> Newer(r[i], r[j]);
  }

  /** `getInternshipById`. */
  function GetInternshipById(s: InternshipStore, id: Id): (r: Result<Internship, Error>)
    ensures r.Ok? <==> id in s
    ensures r.Ok? ==> r.value == s[id]
    ensures r.Err? ==> r.error == NotFound("Internship not found")
  {
    if id in s then Ok(s[id]) else Err(NotFound("Internship not found"))
  }

  /** `createInternship` (administrators only). */
  function CreateInternship(s: InternshipStore, caller: Caller, b: InternshipBody, newId: Id, now: int)
    : (r: Reply<InternshipStore, Internship>)
    requires IsAdmin(caller) && newId !in s
    ensures r.result.Ok? <==> BodyValid(b)
    ensures r.result.Err? ==> r.store == s && r.result.error == SchemaRejected
    ensures r.result.Ok? ==> r.store == s[newId := r.result.value] && r.result.value.applicants == []
  {
    match CreateDocument(b, newId, now)
    case Ok(i) => Reply(s[newId := i], Ok(i))
    case Err(e) => Reply(s, Err(e))
  }

  /** `updateInternship` (administrators only): 404, otherwise the truthy merge. */
  function UpdateInternship(s: InternshipStore, caller: Caller, id: Id, b: InternshipBody)
    : (r: Reply<InternshipStore, Internship>)
    requires IsAdmin(caller)
    ensures r.result.Ok? <==> id in s
    ensures r.result.Err? ==> r.store == s && r.result.error == NotFound("Internship not found")
    ensures r.result.Ok? ==> r.result.value == Merge(s[id], b) && r.store == s[id := r.result.value]
  {
    if id !in s then Reply(s, Err(NotFound("Internship not found")))
    else
      var i := Merge(s[id], b);
      Reply(s[id := i], Ok(i))
  }

  /** `deleteInternship` (administrators only): 404, otherwise exactly that internship goes. */
  function DeleteInternship(s: InternshipStore, caller: Caller, id: Id): (r: Reply<InternshipStore, string>)
    requires IsAdmin(caller)
    ensures r.result.Ok? <==> id in s
    ensures r.result.Err? ==> r.store == s && r.result.error == NotFound("Internship not found")
    ensures r.result.Ok? ==> r.store == s - {id}
  {
    if id !in s then Reply(s, Err(NotFound("Internship not found")))
    else Reply(s - {id}, Ok("Internship removed"))
  }

  /** `applyInternship`: 404 for an unknown internship, 400 for a second application,
      otherwise the caller is appended to the applicants. */
  function ApplyInternship(s: InternshipStore, caller: Caller, id: Id): (r: Reply<InternshipStore, string>)
    ensures id !in s ==> r.result == Err(NotFound("Internship not found"))
    ensures id in s && caller.id in s[id].applicants ==> r.result == Err(BadRequest("Already applied"))
    ensures r.result.Err? ==> r.store == s
    ensures r.result.Ok? <==> id in s && caller.id !in s[id].applicants
    ensures r.result.Ok? ==>
      r.store == s[id := s[id].(applicants := s[id].applicants + [caller.id])]
  {
    if id !in s then Reply(s, Err(NotFound("Internship not found")))
    else if caller.id in s[id].applicants then Reply(s, Err(BadRequest("Already applied")))
    else Reply(s[id := s[id].(applicants := s[id].applicants + [caller.id])], Ok("Application successful"))
  }

  /** Applying keeps every applicant list free of duplicates, and afterwards the
      caller is among the applicants of an existing internship, whatever the reply. */
  lemma ApplyKeepsNoDuplicates(s: InternshipStore, caller: Caller, id: Id)
    requires forall k :: k in s ==> NoDuplicates(s[k].applicants)
    ensures var r := ApplyInternship(s, caller, id);
      forall k :: k in r.store ==> NoDuplicates(r.store[k].applicants)
    ensures var r := ApplyInternship(s, caller, id);
      id in s ==> id in r.store && caller.id in r.store[id].applicants
  {
    var r := ApplyInternship(s, caller, id);
    if r.result.Ok? {
      assert r.store[id].applicants[|s[id].applicants|] == caller.id;
    }
  }

  /** A second application by the same caller is refused and changes nothing. */
  lemma ApplyTwiceRefused(s: InternshipStore, caller: Caller, id: Id)
    requires id in s
    ensures var once := ApplyInternship(s, caller, id).store;
      id in once && caller.id in once[id].applicants
      && ApplyInternship(once, caller, id) == Reply(once, Err(BadRequest("Already applied")))
  {
    var once := ApplyInternship(s, caller, id).store;
    if caller.id !in s[id].applicants {
      assert once[id].applicants[|s[id].applicants|] == caller.id;
    }
  }

  /** Update, delete and apply leave every other internship as it was. */
  lemma InternshipFramesOthers(s: InternshipStore, admin: Caller, c: Caller, id: Id, b: InternshipBody, k: Id)
    requires IsAdmin(admin) && k in s && k != id
    ensures UpdateInternship(s, admin, id, b).store[k] == s[k]
    ensures DeleteInternship(s, admin, id).store[k] == s[k]
    ensures ApplyInternship(s, c, id).store[k] == s[k]
  {
  }

  /** Create, update, delete and apply keep every internship under its own id. */
  lemma InternshipOperationsKeepKeys(s: InternshipStore, admin: Caller, c: Caller, b: InternshipBody,
                                     newId: Id, id: Id, now: int)
    requires KeysMatch(s) && IsAdmin(admin) && newId !in s
    ensures KeysMatch(CreateInternship(s, admin, b, newId, now).store)
    ensures KeysMatch(UpdateInternship(s, admin, id, b).store)
    ensures KeysMatch(DeleteInternship(s, admin, id).store)
    ensures KeysMatch(ApplyInternship(s, c, id).store)
  {
  }

  /** A created internship is found by its new id, and a deleted one is not. */
  lemma CreateAndDeleteThenGetById(s: InternshipStore, admin: Caller, b: InternshipBody,
                                   newId: Id, id: Id, now: int)
    requires IsAdmin(admin) && newId !in s
    ensures var r := CreateInternship(s, admin, b, newId, now);
      r.result.Ok? ==> GetInternshipById(r.store, newId) == Ok(r.result.value)
    ensures GetInternshipById(DeleteInternship(s, admin, id).store, id) == Err(NotFound("Internship not found"))
  {
  }

  /** After a successful application the internship is found with the caller as its
      last applicant. */
  lemma ApplyThenGetById(s: InternshipStore, c: Caller, id: Id)
    ensures var r := ApplyInternship(s, c, id);
      r.result.Ok? ==>
        && GetInternshipById(r.store, id).Ok?
        && GetInternshipById(r.store, id).value.applicants == s[id].applicants + [c.id]
  {
  }
}
