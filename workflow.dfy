/**
 * The review of a proposed edit: the category named in the request selects
 * which kind of edit is looked up, and the verdict moves an edit out of
 * "under review" exactly once.
 */
module Workflow {
  import opened Http
  import opened Entities

  datatype Category = ArtifactCategory | CollectionCategory | MuseumCategory | UnknownCategory

  function CategoryOf(s: string): (c: Category)
    ensures c == ArtifactCategory <==> s == "artifact"
    ensures c == CollectionCategory <==> s == "collection"
    ensures c == MuseumCategory <==> s == "museum"
  {
    if s == "artifact" then ArtifactCategory
    else if s == "collection" then CollectionCategory
    else if s == "museum" then MuseumCategory
    else UnknownCategory
  }

  /** Museum edits are reserved (501); a category nobody knows is a malformed request (500). */
  function CategoryRefusal(c: Category): (s: Status)
    requires c == MuseumCategory || c == UnknownCategory
    ensures s == NotImplemented <==> c == MuseumCategory
    ensures s == InternalError <==> c == UnknownCategory
  {
    if c == MuseumCategory then NotImplemented else InternalError
  }

  datatype Verdict = Accept(updated: Edit) | Deny(status: Status)

  function Resolution(approve: bool): EditStatus {
    if approve then Approved else Rejected
  }

  /**
   * The verdict of `reviewer` on `e`: an edit already resolved is a conflict,
   * a reviewer who does not own the edit's museum is unauthorized, and
   * otherwise the edit comes back with only its status changed.
   */
  function Review(e: Edit, reviewer: User, approve: bool): (v: Verdict)
    ensures e.status != UnderReview ==> v == Deny(Conflict)
    ensures e.status == UnderReview && !IsOwner(reviewer, e.subject.TargetMuseum()) ==> v == Deny(Unauthorized)
    ensures v.Accept? <==> e.status == UnderReview && IsOwner(reviewer, e.subject.TargetMuseum())
    ensures v.Accept? ==> v.updated == e.(status := Resolution(approve)) && v.updated.status != UnderReview
  {
    if e.status != UnderReview then Deny(Conflict)
    else if !IsOwner(reviewer, e.subject.TargetMuseum()) then Deny(Unauthorized)
    else Accept(e.(status := Resolution(approve)))
  }

  /** Once accepted, an edit can never be accepted again, by anyone, either way. */
  lemma ReviewIsOneShot(e: Edit, first: User, approve: bool, second: User, again: bool)
    requires Review(e, first, approve).Accept?
    ensures Review(Review(e, first, approve).updated, second, again) == Deny(Conflict)
  {
  }

  /** Authority is by id: a reviewer sharing the owner's username but not the id is refused. */
  lemma AuthorityIsById(e: Edit, reviewer: User, approve: bool)
    requires e.status == UnderReview
    requires reviewer.username == e.subject.TargetMuseum().owner.username
    requires reviewer.id != e.subject.TargetMuseum().owner.id
    ensures Review(e, reviewer, approve) == Deny(Unauthorized)
  {
  }
}
