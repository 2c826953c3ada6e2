/** The Internship document (server/src/models/Internship.ts). */
module InternshipModel {
  import opened Wrappers
  import opened Common

  /** A posted internship; dates are timestamps and `kind` is the schema's `type` path. */
  datatype Internship = Internship(
    id: Id,
    company: string,
    position: string,
    location: string,
    kind: string,
    tags: seq<string>,
    deadline: int,
    logo: Option<string>,
    description: string,
    duration: Option<string>,
    stipend: Option<string>,
    postedAt: int,
    applicants: seq<Id>,
    createdAt: int)

  /** A request body's internship fields; `None` is an absent (undefined) value.
      A deadline of 0 stands for any falsy date value. */
  datatype InternshipBody = InternshipBody(
    company: Option<string>,
    position: Option<string>,
    location: Option<string>,
    kind: Option<string>,
    tags: Option<seq<string>>,
    deadline: Option<int>,
    logo: Option<string>,
    description: Option<string>,
    duration: Option<string>,
    stipend: Option<string>)

  /** A JavaScript-truthy date value. */
  predicate TruthyDate(d: Option<int>) {
    d.Some? && d.value != 0
  }

  /** The schema's required paths are present and non-empty. */
  predicate BodyValid(b: InternshipBody) {
    Truthy(b.company) && Truthy(b.position) && Truthy(b.location) && Truthy(b.kind)
    && b.deadline.Some? && Truthy(b.description)
  }

  /** A stored document satisfies the schema's required paths. */
  predicate Valid(i: Internship) {
    i.company != "" && i.position != "" && i.location != "" && i.kind != "" && i.description != ""
  }

  /** Every applicant occurs once. */
  predicate NoDuplicates(ids: seq<Id>) {
    forall i, j :: 0 <= i < j < |ids| ==> ids[i] != ids[j]
  }

  /** `Internship.create`: validation, then no applicants, an empty tag list when none
      is given, and `postedAt = createdAt = now`. */
  function CreateDocument(b: InternshipBody, id: Id, now: int): (r: Result<Internship, Error>)
    ensures r.Ok? <==> BodyValid(b)
    ensures r.Err? ==> r.error == SchemaRejected
    ensures r.Ok? ==>
      && r.value.id == id && Valid(r.value)
      && r.value.company == b.company.value && r.value.deadline == b.deadline.value
      && r.value.tags == b.tags.GetOr([])
      && r.value.applicants == [] && r.value.postedAt == now && r.value.createdAt == now
  {
    if !BodyValid(b) then Err(SchemaRejected)
    else
      Ok(Internship(id, b.company.value, b.position.value, b.location.value, b.kind.value,
                    b.tags.GetOr([]), b.deadline.value, b.logo, b.description.value,
                    b.duration, b.stipend, now, [], now))
  }

  /** `body.x || old.x` for an optional string path. */
  function PickOptional(given: Option<string>, stored: Option<string>): (r: Option<string>)
    ensures Truthy(given) ==> r == given
    ensures !Truthy(given) ==> r == stored
  {
    if Truthy(given) then given else stored
  }

  /** updateInternship's merge: each path takes the body's value when it is truthy and
      keeps the stored one otherwise; a tag array is always truthy, even when empty. */
  function Merge(i: Internship, b: InternshipBody): (r: Internship)
    ensures r.id == i.id && r.applicants == i.applicants && r.postedAt == i.postedAt
    ensures r.createdAt == i.createdAt
    ensures r.company == OrElse(b.company, i.company) && r.position == OrElse(b.position, i.position)
    ensures r.location == OrElse(b.location, i.location) && r.kind == OrElse(b.kind, i.kind)
    ensures r.description == OrElse(b.description, i.description)
    ensures r.tags == b.tags.GetOr(i.tags)
    ensures r.deadline == (if TruthyDate(b.deadline) then b.deadline.value else i.deadline)
    ensures r.logo == PickOptional(b.logo, i.logo)
    ensures r.duration == PickOptional(b.duration, i.duration)
    ensures r.stipend == PickOptional(b.stipend, i.stipend)
  {
    i.(company := OrElse(b.company, i.company),
       position := OrElse(b.position, i.position),
       location := OrElse(b.location, i.location),
       kind := OrElse(b.kind, i.kind),
       tags := b.tags.GetOr(i.tags),
       deadline := if TruthyDate(b.deadline) then b.deadline.value else i.deadline,
       logo := PickOptional(b.logo, i.logo),
       description := OrElse(b.description, i.description),
       duration := PickOptional(b.duration, i.duration),
       stipend := PickOptional(b.stipend, i.stipend))
  }

  /** A falsy value cannot clear a field: merging keeps a valid document valid, and a
      body of empty strings and a zero deadline leaves those paths as they were. */
  lemma MergeKeepsValid(i: Internship, b: InternshipBody)
    requires Valid(i)
    ensures Valid(Merge(i, b))
    ensures b.company == Some("") ==> Merge(i, b).company == i.company
    ensures b.deadline == Some(0) ==> Merge(i, b).deadline == i.deadline
  {
  }

  /** Merging the same body twice has the effect of merging it once. */
  lemma MergeIdempotent(i: Internship, b: InternshipBody)
    ensures Merge(Merge(i, b), b) == Merge(i, b)
  {
  }
}
