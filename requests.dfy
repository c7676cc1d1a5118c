/**
 * Structural validation of request bodies, one reader per route. A body is
 * accepted when every key the route needs is present with the right basic
 * kind of value; extra keys are ignored and empty strings are accepted.
 * Login-protected routes take the credentials either at the top level
 * (login, user profile, deletions) or nested under "user" (the rest).
 */
module Requests {
  import opened Wrappers
  import opened Json
  import opened Entities
  import opened Auth

  /** `username` and `password` at the top level of `j`. */
  function FlatCredentials(j: Json): (r: Option<Credentials>)
    ensures r.Some? <==> StringMember(j, "username").Some? && StringMember(j, "password").Some?
    ensures r.Some? ==> r.value == Credentials(StringMember(j, "username").value, StringMember(j, "password").value)
  {
    match (StringMember(j, "username"), StringMember(j, "password"))
    case (Some(u), Some(p)) => Some(Credentials(u, p))
    case _ => None
  }

  /** `username` and `password` inside the "user" object. */
  function NestedCredentials(body: Json): (r: Option<Credentials>)
    ensures r.Some? <==> ObjectMember(body, "user").Some? && FlatCredentials(ObjectMember(body, "user").value).Some?
    ensures r.Some? ==> r == FlatCredentials(ObjectMember(body, "user").value)
  {
    match ObjectMember(body, "user")
    case None => None
    case Some(u) => FlatCredentials(u)
  }

  /** The four descriptive strings of a museum, collection or artifact object. */
  function DetailsOf(j: Json): (r: Option<Details>)
    ensures r.Some? <==> (StringMember(j, "name").Some? && StringMember(j, "description").Some?
                        && StringMember(j, "introduction").Some? && StringMember(j, "image").Some?)
    ensures r.Some? ==> r.value == Details(StringMember(j, "name").value, StringMember(j, "description").value,
                                           StringMember(j, "introduction").value, StringMember(j, "image").value)
  {
    match (StringMember(j, "name"), StringMember(j, "description"), StringMember(j, "introduction"), StringMember(j, "image"))
    case (Some(n), Some(d), Some(i), Some(im)) => Some(Details(n, d, i, im))
    case _ => None
  }

  function NestedDetails(body: Json, key: string): (r: Option<Details>)
    ensures r.Some? <==> ObjectMember(body, key).Some? && DetailsOf(ObjectMember(body, key).value).Some?
    ensures r.Some? ==> r == DetailsOf(ObjectMember(body, key).value)
  {
    match ObjectMember(body, key)
    case None => None
    case Some(o) => DetailsOf(o)
  }

  /** The integer "id" inside the object under `key`. */
  function NestedId(body: Json, key: string): (r: Option<int>)
    ensures r.Some? <==> ObjectMember(body, key).Some? && IntMember(ObjectMember(body, key).value, "id").Some?
    ensures r.Some? ==> r == IntMember(ObjectMember(body, key).value, "id")
  {
    match ObjectMember(body, key)
    case None => None
    case Some(o) => IntMember(o, "id")
  }

  datatype Registration = Registration(username: string, password: string, email: string)

  function RegistrationOf(body: Json): (r: Option<Registration>)
    ensures r.Some? <==> (StringMember(body, "username").Some? && StringMember(body, "password").Some?
                        && StringMember(body, "email").Some?)
    ensures r.Some? ==> r.value == Registration(StringMember(body, "username").value, StringMember(body, "password").value,
                                                StringMember(body, "email").value)
  {
    match (StringMember(body, "username"), StringMember(body, "password"), StringMember(body, "email"))
    case (Some(u), Some(p), Some(e)) => Some(Registration(u, p, e))
    case _ => None
  }

  function ResetUsername(body: Json): (r: Option<string>)
    ensures r == StringMember(body, "username")
  {
    StringMember(body, "username")
  }

  datatype NewMuseum = NewMuseum(creds: Credentials, details: Details)

  function NewMuseumOf(body: Json): (r: Option<NewMuseum>)
    ensures r.Some? <==> NestedCredentials(body).Some? && NestedDetails(body, "museum").Some?
    ensures r.Some? ==> r.value == NewMuseum(NestedCredentials(body).value, NestedDetails(body, "museum").value)
  {
    match (NestedCredentials(body), NestedDetails(body, "museum"))
    case (Some(c), Some(d)) => Some(NewMuseum(c, d))
    case _ => None
  }

  /** add-collection: the collection's details and the museum it goes to. */
  datatype NewCollection = NewCollection(creds: Credentials, details: Details, museumId: int)

  function NewCollectionOf(body: Json): (r: Option<NewCollection>)
    ensures r.Some? <==> NestedCredentials(body).Some? && NestedDetails(body, "collection").Some? && NestedId(body, "museum").Some?
    ensures r.Some? ==> r.value == NewCollection(NestedCredentials(body).value, NestedDetails(body, "collection").value,
                                                 NestedId(body, "museum").value)
  {
    match (NestedCredentials(body), NestedDetails(body, "collection"), NestedId(body, "museum"))
    case (Some(c), Some(d), Some(m)) => Some(NewCollection(c, d, m))
    case _ => None
  }

  /** edit-collection: as add-collection, plus the id of the collection to change. */
  datatype ChangedCollection = ChangedCollection(creds: Credentials, details: Details, collectionId: int, museumId: int)

  function ChangedCollectionOf(body: Json): (r: Option<ChangedCollection>)
    ensures r.Some? <==> (NestedCredentials(body).Some? && NestedDetails(body, "collection").Some?
                        && NestedId(body, "collection").Some? && NestedId(body, "museum").Some?)
    ensures r.Some? ==> r.value == ChangedCollection(NestedCredentials(body).value, NestedDetails(body, "collection").value,
                                                     NestedId(body, "collection").value, NestedId(body, "museum").value)
  {
    match (NestedCredentials(body), NestedDetails(body, "collection"), NestedId(body, "collection"), NestedId(body, "museum"))
    case (Some(c), Some(d), Some(id), Some(m)) => Some(ChangedCollection(c, d, id, m))
    case _ => None
  }

  /** add-artifact: the artifact's details, its museum and the ids of its collections. */
  datatype NewArtifact = NewArtifact(creds: Credentials, details: Details, museumId: int, collectionIds: seq<int>)

  function NewArtifactOf(body: Json): (r: Option<NewArtifact>)
    ensures r.Some? <==> (NestedCredentials(body).Some? && NestedDetails(body, "artifact").Some?
                        && NestedId(body, "museum").Some? && IntArrayMember(body, "collection").Some?)
    ensures r.Some? ==> r.value == NewArtifact(NestedCredentials(body).value, NestedDetails(body, "artifact").value,
                                               NestedId(body, "museum").value, IntArrayMember(body, "collection").value)
  {
    match (NestedCredentials(body), NestedDetails(body, "artifact"), NestedId(body, "museum"), IntArrayMember(body, "collection"))
    case (Some(c), Some(d), Some(m), Some(ids)) => Some(NewArtifact(c, d, m, ids))
    case _ => None
  }

  /** edit-artifact: as add-artifact, plus the id of the artifact to change. */
  datatype ChangedArtifact = ChangedArtifact(creds: Credentials, details: Details, artifactId: int, museumId: int, collectionIds: seq<int>)

  function ChangedArtifactOf(body: Json): (r: Option<ChangedArtifact>)
    ensures r.Some? <==> (NestedCredentials(body).Some? && NestedDetails(body, "artifact").Some? && NestedId(body, "artifact").Some?
                        && NestedId(body, "museum").Some? && IntArrayMember(body, "collection").Some?)
    ensures r.Some? ==> r.value == ChangedArtifact(NestedCredentials(body).value, NestedDetails(body, "artifact").value,
                                                   NestedId(body, "artifact").value, NestedId(body, "museum").value,
                                                   IntArrayMember(body, "collection").value)
  {
    match (NestedCredentials(body), NestedDetails(body, "artifact"), NestedId(body, "artifact"), NestedId(body, "museum"), IntArrayMember(body, "collection"))
    case (Some(c), Some(d), Some(id), Some(m), Some(ids)) => Some(ChangedArtifact(c, d, id, m, ids))
    case _ => None
  }

  /**
   * review-edit: the category is only required to be a string here; its value
   * is judged after the login.
   */
  datatype ReviewRequest = ReviewRequest(creds: Credentials, editId: int, category: string, approve: bool)

  function ReviewRequestOf(body: Json): (r: Option<ReviewRequest>)
    ensures r.Some? <==> (NestedCredentials(body).Some? && IntMember(body, "editId").Some?
                        && StringMember(body, "category").Some? && BoolMember(body, "action").Some?)
    ensures r.Some? ==> r.value.creds == NestedCredentials(body).value && r.value.editId == IntMember(body, "editId").value
    ensures r.Some? ==> r.value.category == StringMember(body, "category").value && r.value.approve == BoolMember(body, "action").value
  {
    match (NestedCredentials(body), IntMember(body, "editId"), StringMember(body, "category"), BoolMember(body, "action"))
    case (Some(c), Some(id), Some(cat), Some(a)) => Some(ReviewRequest(c, id, cat, a))
    case _ => None
  }

  /** Every reader of a protected route refuses a body without credentials. */
  lemma NoCredentialsNoRequest(body: Json)
    requires NestedCredentials(body).None?
    ensures NewMuseumOf(body).None? && NewCollectionOf(body).None? && ChangedCollectionOf(body).None?
    ensures NewArtifactOf(body).None? && ChangedArtifactOf(body).None? && ReviewRequestOf(body).None?
  {
  }

  /** A "user" object that lacks the password key is not credentials, whatever else it holds. */
  lemma MissingPasswordRefused(body: Json)
    requires ObjectMember(body, "user").Some? && "password" !in ObjectMember(body, "user").value.fields
    ensures NestedCredentials(body).None?
  {
  }

  /** The empty body is refused by every reader. */
  lemma EmptyBodyRefused()
    ensures FlatCredentials(Obj(map[])).None? && NestedCredentials(Obj(map[])).None?
    ensures RegistrationOf(Obj(map[])).None? && ResetUsername(Obj(map[])).None?
    ensures NewMuseumOf(Obj(map[])).None? && NewCollectionOf(Obj(map[])).None?
    ensures ChangedCollectionOf(Obj(map[])).None? && NewArtifactOf(Obj(map[])).None?
    ensures ChangedArtifactOf(Obj(map[])).None? && ReviewRequestOf(Obj(map[])).None?
  {
  }
}
