/**
 * The catalogue's entities as the handler sees them: users, museums,
 * collections, artifacts and proposed edits. A museum carries its owner and a
 * collection or artifact carries its museum, as the model objects of the
 * storage layer do.
 */
module Entities {
  /** The id of an entity that has not been stored yet. */
  const UNSAVED: int := -1

  datatype User = User(id: int, username: string, email: string, password: string)

  /** The descriptive fields shared by museums, collections and artifacts. */
  datatype Details = Details(name: string, description: string, introduction: string, image: string)

  datatype Museum = Museum(id: int, details: Details, owner: User)

  datatype Collection = Collection(id: int, details: Details, museum: Museum)

  datatype Artifact = Artifact(id: int, details: Details, museum: Museum)

  /** What an edit proposes: to add, to change or to delete its subject. */
  datatype EditAction = Add | Modify | Del

  datatype EditStatus = UnderReview | Approved | Rejected

  /** An artifact edit carries the collections the artifact is to belong to. */
  datatype Subject =
    | OfArtifact(artifact: Artifact, collections: seq<Collection>)
    | OfCollection(collection: Collection)
  {
    /** The museum whose owner may review the edit. */
    function TargetMuseum(): Museum {
      match this
      case OfArtifact(a, _) => a.museum
      case OfCollection(c) => c.museum
    }
  }

  datatype Edit = Edit(id: int, subject: Subject, action: EditAction, proposer: User, status: EditStatus)

  /** Ownership compares user ids; two users with the same username are still different users. */
  predicate IsOwner(u: User, m: Museum) {
    u.id == m.owner.id
  }

  /** A fresh proposal by `proposer`: not yet stored and under review. */
  function Proposal(subject: Subject, action: EditAction, proposer: User): (e: Edit)
    ensures e.id == UNSAVED && e.status == UnderReview
    ensures e.subject == subject && e.action == action && e.proposer == proposer
  {
    Edit(UNSAVED, subject, action, proposer, UnderReview)
  }
}
