/** The Internships page (src/pages/Internships.tsx): saving, applying, tabs,
    pagination and the upcoming-deadline list. */
module InternshipsPage {
  import opened Wrappers
  import opened Common
  import opened Seqs
  import opened Sorting
  import opened InternshipModel
  import opened InternshipController

  /** handleSave: nothing without a user or on failure; otherwise the reply's `saved`
      flag says whether the id is appended or every occurrence removed. */
  function HandleSave(user: Option<Caller>, saved: seq<Id>, id: Id, reply: Result<bool, Error>)
    : (r: seq<Id>)
    ensures user.None? || reply.Err? ==> r == saved
    ensures user.Some? && reply == Ok(true) ==> r == saved + [id]
    ensures user.Some? && reply == Ok(false) ==>
      (forall x :: x in r <==> x in saved && x != id) && IsSubseq(r, saved)
      && |r| == CountWhere(saved, (x: Id) => x != id)
  {
    if user.None? then saved
    else
      match reply
      case Err(_) => saved
      case Ok(true) => saved + [id]
      case Ok(false) => Filter(saved, (x: Id) => x != id)
  }

  /** Saving and then unsaving an id leaves no trace of it, and nothing else is lost. */
  lemma SaveThenUnsave(user: Caller, saved: seq<Id>, id: Id)
    ensures var r := HandleSave(Some(user), HandleSave(Some(user), saved, id, Ok(true)), id, Ok(false));
      id !in r && forall x :: x in saved && x != id ==> x in r
  {
  }

  /** The page's copy of an internship after its user has applied. */
  function WithApplicant(i: Internship, uid: Id): Internship {
    i.(applicants := i.applicants + [uid])
  }

  /** handleApply's local update: on success the user is appended to the matching
      internship (and to the open detail view when it shows that internship). */
  function HandleApply(user: Option<Caller>, list: seq<Internship>, selected: Option<Internship>,
                       id: Id, succeeded: bool): (r: (seq<Internship>, Option<Internship>))
    ensures user.None? || !succeeded ==> r == (list, selected)
    ensures |r.0| == |list|
    ensures forall i :: 0 <= i < |list| && list[i].id != id ==> r.0[i] == list[i]
    ensures user.Some? && succeeded ==>
      forall i :: 0 <= i < |list| && list[i].id == id ==> r.0[i] == WithApplicant(list[i], user.value.id)
    ensures selected.None? || selected.value.id != id ==> r.1 == selected
    ensures user.Some? && succeeded && selected.Some? && selected.value.id == id ==>
      r.1 == Some(WithApplicant(selected.value, user.value.id))
  {
    if user.None? || !succeeded then (list, selected)
    else
      var uid := user.value.id;
      var l := seq(|list|, i requires 0 <= i < |list| =>
        if list[i].id == id then WithApplicant(list[i], uid) else list[i]);
      var sel := if selected.Some? && selected.value.id == id
                 then Some(WithApplicant(selected.value, uid)) else selected;
      (l, sel)
  }

  /** When the page's copy matches the server, a successful apply leaves them matching. */
  lemma ApplyAgreesWithServer(list: seq<Internship>, k: nat, s: InternshipStore, user: Caller)
    requires k < |list| && list[k].id in s && s[list[k].id] == list[k]
    requires user.id !in list[k].applicants
    ensures var r := ApplyInternship(s, user, list[k].id);
      r.result.Ok? && r.store[list[k].id] == HandleApply(Some(user), list, None, list[k].id, true).0[k]
  {
  }

  predicate AppliedBy(user: Option<Caller>, i: Internship) {
    user.Some? && user.value.id in i.applicants
  }

  /** getTabContent. */
  function TabContent(tab: string, list: seq<Internship>, user: Option<Caller>, saved: seq<Id>)
    : (r: seq<Internship>)
    ensures tab == "recommended" || tab == "new" ==> r == list
    ensures tab == "applied" ==> forall i :: i in r <==> i in list && AppliedBy(user, i)
    ensures tab == "saved" ==> forall i :: i in r <==> i in list && i.id in saved
    ensures tab == "applied" ==> |r| == CountWhere(list, (i: Internship) => AppliedBy(user, i))
    ensures tab == "saved" ==> |r| == CountWhere(list, (i: Internship) => i.id in saved)
    ensures tab !in {"recommended", "new", "applied", "saved"} ==> r == []
    ensures IsSubseq(r, list)
  {
    IsSubseqRefl(list);
    if tab == "recommended" || tab == "new" then list
    else if tab == "applied" then Filter(list, (i: Internship) => AppliedBy(user, i))
    else if tab == "saved" then Filter(list, (i: Internship) => i.id in saved)
    else []
  }

  /** The Previous button: `max(1, page - 1)`. */
  function PrevPage(page: int): (r: int)
    ensures r >= 1
    ensures page > 1 ==> r == page - 1
    ensures page <= 1 ==> r == 1
  {
    if page - 1 > 1 then page - 1 else 1
  }

  /** The Next button: `min(totalPages, page + 1)`. */
  function NextPage(page: int, totalPages: int): (r: int)
    ensures r <= totalPages
    ensures page < totalPages ==> r == page + 1
    ensures page >= totalPages ==> r == totalPages
  {
    if page + 1 < totalPages then page + 1 else totalPages
  }

  /** Both buttons keep the page within [1, totalPages]. */
  lemma PagesStayInRange(page: int, totalPages: int)
    requires 1 <= page <= totalPages
    ensures 1 <= PrevPage(page) <= totalPages
    ensures 1 <= NextPage(page, totalPages) <= totalPages
  {
  }

  /** The internships whose deadline is after `now`. */
  function Future(list: seq<Internship>, now: int): (r: seq<Internship>)
    ensures forall i :: i in r <==> i in list && i.deadline > now
    ensures IsSubseq(r, list)
    ensures |r| == CountWhere(list, (i: Internship) => i.deadline > now)
  {
    Filter(list, (i: Internship) => i.deadline > now)
  }

  predicate SoonerFirst(a: Internship, b: Internship) {
    a.deadline <= b.deadline
  }

  lemma SoonerFirstIsPreorder()
    ensures TotalPreorder(SoonerFirst)
  {
  }

  /** The first `n` of a list sorted by deadline are a sub-multiset of it, in order,
      and due no later than any element after them. */
  lemma SortedPrefixIsEarliest(sorted: seq<Internship>, n: nat)
    requires n <= |sorted| && Sorted(sorted, SoonerFirst)
    ensures multiset(sorted[..n]) <= multiset(sorted)
    ensures forall i, j :: 0 <= i < j < n ==> sorted[i].deadline <= sorted[j].deadline
    ensures forall x :: x in sorted && x !in sorted[..n] ==>
      forall j :: 0 <= j < n ==> sorted[j].deadline <= x.deadline
  {
    assert sorted == sorted[..n] + sorted[n..];
    assert multiset(sorted) == multiset(sorted[..n]) + multiset(sorted[n..]);
    forall x | x in sorted && x !in sorted[..n]
      ensures forall j :: 0 <= j < n ==> sorted[j].deadline <= x.deadline
    {
      var m :| 0 <= m < |sorted| && sorted[m] == x;
      forall j | 0 <= j < n ensures sorted[j].deadline <= x.deadline {
        assert SoonerFirst(sorted[j], sorted[m]);
      }
    }
  }

  /** The upcoming-deadlines card: the three future internships due soonest, soonest
      first; when fewer than three are due, all of them. */
  function UpcomingDeadlines(list: seq<Internship>, now: int): (r: seq<Internship>)
    ensures |r| == if |Future(list, now)| < 3 then |Future(list, now)| else 3
    ensures forall i :: 0 <= i < |r| ==> r[i] in list && r[i].deadline > now
    ensures multiset(r) <= multiset(Future(list, now))
    ensures forall i, j :: 0 <= i < j < |r| ==> r[i].deadline <= r[j].deadline
    ensures forall x :: x in Future(list, now) && x !in r ==>
      forall j :: 0 <= j < |r| ==> r[j].deadline <= x.deadline
  {
    var fut := Future(list, now);
    SoonerFirstIsPreorder();
    var sorted := SortBy(fut, SoonerFirst);
    SortBySameElements(fut, SoonerFirst);
    var r := Take(sorted, 3);
    SortedPrefixIsEarliest(sorted, |r|);
    assert r == sorted[..|r|];
    r
  }
}
