/**
 * The storage layer the handler calls into, as values: the operations it
 * offers (one `Call` per operation, carrying its arguments), the state they
 * read and change (`Db`), and for each operation what it answers and how it
 * changes the state. Any operation can fail; `faults` is the set of calls the
 * storage layer refuses outright, and lookups also fail on an absent key.
 */
module Store {
  import opened Wrappers
  import opened Entities

  datatype Call =
    | GetUserObject(username: string)
    | SaveUserToDB(user: User)
    | UpdateUserInDB(user: User)
    | CheckHeadCurator(user: User)
    | GetMuseumList
    | GetMuseumByCurator(userId: int)
    | GetMuseumObject(museumId: int)
    | SaveMuseumToDB(museum: Museum)
    | RemoveMuseumFromDB(museum: Museum)
    | GetCollectionListByMuseumID(museumId: int)
    | GetCollectionsByArtifact(artifactId: int)
    | GetCollectionObject(collectionId: int)
    | SaveCollectionToDB(collection: Collection)
    | UpdateCollectionInDB(collection: Collection)
    | GetArtifactsByCollection(collectionId: int)
    | AddArtifactCollection(artifact: Artifact, collection: Collection)
    | SaveArtifactToDB(artifact: Artifact)
    | GetArtifact(artifactId: int)
    | UpdateArtifactInDB(artifact: Artifact)
    | RemoveArtifactInDB(artifact: Artifact)
    | RemoveArtifactCollection(artifact: Artifact)
    | GetEditArtifactObject(editId: int)
    | GetEditCollectionObject(editId: int)
    | GetArtifactEdits(userId: int)
    | GetCollectionEdits(userId: int)
    | GetArtifactActions(museumId: int)
    | GetCollectionActions(museumId: int)
    | SaveEditToDB(edit: Edit)
    | UpdateEditInDB(edit: Edit)
  {
    /** The calls that may change the stored state. */
    predicate Mutates() {
      SaveUserToDB? || UpdateUserInDB? || SaveMuseumToDB? || RemoveMuseumFromDB? || SaveCollectionToDB?
      || UpdateCollectionInDB? || AddArtifactCollection? || SaveArtifactToDB? || UpdateArtifactInDB?
      || RemoveArtifactInDB? || RemoveArtifactCollection? || SaveEditToDB? || UpdateEditInDB?
    }
  }

  /**
   * Users are keyed by username, everything else by id; `links` maps an
   * artifact's id to the collections it belongs to. Stored ids are drawn
   * from `nextId`.
   */
  datatype Db = Db(
    users: map<string, User>,
    headCurators: set<int>,
    museums: map<int, Museum>,
    collections: map<int, Collection>,
    artifacts: map<int, Artifact>,
    links: map<int, seq<Collection>>,
    artifactEdits: map<int, Edit>,
    collectionEdits: map<int, Edit>,
    nextId: int)
  {
    /** Every row sits under its own id, every id was handed out, and each kind of edit is filed with its kind. */
    predicate Valid() {
      && 0 <= nextId
      && (forall n :: n in users ==> users[n].username == n)
      && (forall k :: k in museums ==> 0 <= k < nextId && museums[k].id == k)
      && (forall k :: k in collections ==> 0 <= k < nextId && collections[k].id == k)
      && (forall k :: k in artifacts ==> 0 <= k < nextId && artifacts[k].id == k)
      && (forall k :: k in links ==> k in artifacts)
      && (forall k :: k in artifactEdits ==> 0 <= k < nextId && artifactEdits[k].id == k && artifactEdits[k].subject.OfArtifact?)
      && (forall k :: k in collectionEdits ==> 0 <= k < nextId && collectionEdits[k].id == k && collectionEdits[k].subject.OfCollection?)
    }
  }

  /** The empty store. */
  function EmptyDb(): (db: Db)
    ensures db.Valid() && db.museums == map[] && db.users == map[]
  {
    Db(map[], {}, map[], map[], map[], map[], map[], map[], 0)
  }

  /** The rows of `m` whose ids are below `n` and which `keep` selects, in ascending id order. */
  function Select<T(==)>(m: map<int, T>, n: int, keep: T -> bool): (r: seq<T>)
    ensures forall i :: 0 <= i < |r| ==> keep(r[i]) && r[i] in m.Values
    decreases n
  {
    if n <= 0 then []
    else Select(m, n - 1, keep) + (if n - 1 in m && keep(m[n - 1]) then [m[n - 1]] else [])
  }

  /** Selection finds every selected row: nothing below `n` is missed. */
  lemma {:induction false} SelectComplete<T>(m: map<int, T>, n: int, keep: T -> bool, k: int)
    requires 0 <= k < n && k in m && keep(m[k])
    ensures m[k] in Select(m, n, keep)
    decreases n
  {
    if k < n - 1 {
      SelectComplete(m, n - 1, keep, k);
    }
  }

  /** An edit that has been reviewed. */
  predicate Resolved(e: Edit) {
    e.status != UnderReview
  }

  /**
   * The invariant of the review workflow over the whole store: an edit that
   * has been approved or rejected stays exactly as it is.
   */
  predicate ResolvedKept(before: Db, after: Db) {
    && (forall k :: k in before.artifactEdits && Resolved(before.artifactEdits[k]) ==>
          k in after.artifactEdits && after.artifactEdits[k] == before.artifactEdits[k])
    && (forall k :: k in before.collectionEdits && Resolved(before.collectionEdits[k]) ==>
          k in after.collectionEdits && after.collectionEdits[k] == before.collectionEdits[k])
  }

  // ---------------------------------------------------------------------
  // What each query answers. A query never changes the store.
  // ---------------------------------------------------------------------

  function UserAnswer(db: Db, faults: set<Call>, username: string): (r: Option<User>)
    ensures r.Some? <==> GetUserObject(username) !in faults && username in db.users
    ensures r.Some? ==> r.value == db.users[username]
  {
    if GetUserObject(username) in faults || username !in db.users then None else Some(db.users[username])
  }

  function HeadCuratorAnswer(db: Db, faults: set<Call>, u: User): (r: Option<bool>)
    ensures r.Some? <==> CheckHeadCurator(u) !in faults
    ensures r.Some? ==> (r.value <==> u.id in db.headCurators)
  {
    if CheckHeadCurator(u) in faults then None else Some(u.id in db.headCurators)
  }

  function MuseumListAnswer(db: Db, faults: set<Call>): (r: Option<seq<Museum>>)
    ensures r.Some? <==> GetMuseumList !in faults
    ensures r.Some? ==> forall i :: 0 <= i < |r.value| ==> r.value[i] in db.museums.Values
  {
    if GetMuseumList in faults then None else Some(Select(db.museums, db.nextId, (m: Museum) => true))
  }

  /** On a well-formed store the museum list misses no stored museum. */
  lemma MuseumListComplete(db: Db, faults: set<Call>, k: int)
    requires db.Valid() && GetMuseumList !in faults && k in db.museums
    ensures db.museums[k] in MuseumListAnswer(db, faults).value
  {
    SelectComplete(db.museums, db.nextId, (m: Museum) => true, k);
  }

  function CuratedAnswer(db: Db, faults: set<Call>, userId: int): (r: Option<seq<Museum>>)
    ensures r.Some? <==> GetMuseumByCurator(userId) !in faults
    ensures r.Some? ==> forall i :: 0 <= i < |r.value| ==> r.value[i].owner.id == userId && r.value[i] in db.museums.Values
  {
    if GetMuseumByCurator(userId) in faults then None
    else Some(Select(db.museums, db.nextId, (m: Museum) => m.owner.id == userId))
  }

  function MuseumAnswer(db: Db, faults: set<Call>, id: int): (r: Option<Museum>)
    ensures r.Some? <==> GetMuseumObject(id) !in faults && id in db.museums
    ensures r.Some? ==> r.value == db.museums[id]
  {
    if GetMuseumObject(id) in faults || id !in db.museums then None else Some(db.museums[id])
  }

  function MuseumCollectionsAnswer(db: Db, faults: set<Call>, museumId: int): (r: Option<seq<Collection>>)
    ensures r.Some? <==> GetCollectionListByMuseumID(museumId) !in faults
    ensures r.Some? ==> forall i :: 0 <= i < |r.value| ==> r.value[i].museum.id == museumId
  {
    if GetCollectionListByMuseumID(museumId) in faults then None
    else Some(Select(db.collections, db.nextId, (c: Collection) => c.museum.id == museumId))
  }

  /** The collections an artifact belongs to; an artifact without links belongs to none. */
  function Linked(db: Db, artifactId: int): seq<Collection> {
    if artifactId in db.links then db.links[artifactId] else []
  }

  function ArtifactCollectionsAnswer(db: Db, faults: set<Call>, artifactId: int): (r: Option<seq<Collection>>)
    ensures r.Some? <==> GetCollectionsByArtifact(artifactId) !in faults
    ensures r.Some? ==> r.value == Linked(db, artifactId)
  {
    if GetCollectionsByArtifact(artifactId) in faults then None else Some(Linked(db, artifactId))
  }

  function CollectionAnswer(db: Db, faults: set<Call>, id: int): (r: Option<Collection>)
    ensures r.Some? <==> GetCollectionObject(id) !in faults && id in db.collections
    ensures r.Some? ==> r.value == db.collections[id]
  {
    if GetCollectionObject(id) in faults || id !in db.collections then None else Some(db.collections[id])
  }

  /** Whether the artifact is linked to the collection with id `collectionId`. */
  predicate InCollection(db: Db, a: Artifact, collectionId: int) {
    exists i :: 0 <= i < |Linked(db, a.id)| && Linked(db, a.id)[i].id == collectionId
  }

  function CollectionArtifactsAnswer(db: Db, faults: set<Call>, collectionId: int): (r: Option<seq<Artifact>>)
    ensures r.Some? <==> GetArtifactsByCollection(collectionId) !in faults
    ensures r.Some? ==> forall i :: 0 <= i < |r.value| ==> InCollection(db, r.value[i], collectionId)
  {
    if GetArtifactsByCollection(collectionId) in faults then None
    else Some(Select(db.artifacts, db.nextId, (a: Artifact) => InCollection(db, a, collectionId)))
  }

  function ArtifactAnswer(db: Db, faults: set<Call>, id: int): (r: Option<Artifact>)
    ensures r.Some? <==> GetArtifact(id) !in faults && id in db.artifacts
    ensures r.Some? ==> r.value == db.artifacts[id]
  {
    if GetArtifact(id) in faults || id !in db.artifacts then None else Some(db.artifacts[id])
  }

  function ArtifactEditAnswer(db: Db, faults: set<Call>, id: int): (r: Option<Edit>)
    ensures r.Some? <==> GetEditArtifactObject(id) !in faults && id in db.artifactEdits
    ensures r.Some? ==> r.value == db.artifactEdits[id]
  {
    if GetEditArtifactObject(id) in faults || id !in db.artifactEdits then None else Some(db.artifactEdits[id])
  }

  function CollectionEditAnswer(db: Db, faults: set<Call>, id: int): (r: Option<Edit>)
    ensures r.Some? <==> GetEditCollectionObject(id) !in faults && id in db.collectionEdits
    ensures r.Some? ==> r.value == db.collectionEdits[id]
  {
    if GetEditCollectionObject(id) in faults || id !in db.collectionEdits then None else Some(db.collectionEdits[id])
  }

  /** The artifact edits `userId` has proposed. */
  function ProposedArtifactEditsAnswer(db: Db, faults: set<Call>, userId: int): (r: Option<seq<Edit>>)
    ensures r.Some? <==> GetArtifactEdits(userId) !in faults
    ensures r.Some? ==> forall i :: 0 <= i < |r.value| ==> r.value[i].proposer.id == userId
  {
    if GetArtifactEdits(userId) in faults then None
    else Some(Select(db.artifactEdits, db.nextId, (e: Edit) => e.proposer.id == userId))
  }

  function ProposedCollectionEditsAnswer(db: Db, faults: set<Call>, userId: int): (r: Option<seq<Edit>>)
    ensures r.Some? <==> GetCollectionEdits(userId) !in faults
    ensures r.Some? ==> forall i :: 0 <= i < |r.value| ==> r.value[i].proposer.id == userId
  {
    if GetCollectionEdits(userId) in faults then None
    else Some(Select(db.collectionEdits, db.nextId, (e: Edit) => e.proposer.id == userId))
  }

  /** The artifact edits that target museum `museumId`, i.e. the ones its curator acts on. */
  function ArtifactActionsAnswer(db: Db, faults: set<Call>, museumId: int): (r: Option<seq<Edit>>)
    ensures r.Some? <==> GetArtifactActions(museumId) !in faults
    ensures r.Some? ==> forall i :: 0 <= i < |r.value| ==> r.value[i].subject.TargetMuseum().id == museumId
  {
    if GetArtifactActions(museumId) in faults then None
    else Some(Select(db.artifactEdits, db.nextId, (e: Edit) => e.subject.TargetMuseum().id == museumId))
  }

  function CollectionActionsAnswer(db: Db, faults: set<Call>, museumId: int): (r: Option<seq<Edit>>)
    ensures r.Some? <==> GetCollectionActions(museumId) !in faults
    ensures r.Some? ==> forall i :: 0 <= i < |r.value| ==> r.value[i].subject.TargetMuseum().id == museumId
  {
    if GetCollectionActions(museumId) in faults then None
    else Some(Select(db.collectionEdits, db.nextId, (e: Edit) => e.subject.TargetMuseum().id == museumId))
  }

  // ---------------------------------------------------------------------
  // When each change is refused, and what it does when it is not. A
  // refused change leaves the store as it was.
  // ---------------------------------------------------------------------

  /** Registration refuses a username that is already taken. */
  predicate SaveUserOk(db: Db, faults: set<Call>, u: User) {
    SaveUserToDB(u) !in faults && u.username !in db.users
  }

  function SaveUser(db: Db, u: User): (r: Db)
    ensures r.users == db.users[u.username := u.(id := db.nextId)] && r.nextId == db.nextId + 1
    ensures r == db.(users := r.users, nextId := r.nextId)
  {
    db.(users := db.users[u.username := u.(id := db.nextId)], nextId := db.nextId + 1)
  }

  predicate UpdateUserOk(db: Db, faults: set<Call>, u: User) {
    UpdateUserInDB(u) !in faults && u.username in db.users
  }

  function UpdateUser(db: Db, u: User): (r: Db)
    ensures r.users == db.users[u.username := u]
    ensures r == db.(users := r.users)
  {
    db.(users := db.users[u.username := u])
  }

  predicate SaveMuseumOk(faults: set<Call>, m: Museum) {
    SaveMuseumToDB(m) !in faults
  }

  function SaveMuseum(db: Db, m: Museum): (r: Db)
    ensures r.museums == db.museums[db.nextId := m.(id := db.nextId)] && r.nextId == db.nextId + 1
    ensures r == db.(museums := r.museums, nextId := r.nextId)
  {
    db.(museums := db.museums[db.nextId := m.(id := db.nextId)], nextId := db.nextId + 1)
  }

  predicate RemoveMuseumOk(db: Db, faults: set<Call>, m: Museum) {
    RemoveMuseumFromDB(m) !in faults && m.id in db.museums
  }

  function RemoveMuseum(db: Db, m: Museum): (r: Db)
    ensures r.museums == db.museums - {m.id}
    ensures r == db.(museums := r.museums)
  {
    db.(museums := db.museums - {m.id})
  }

  predicate SaveCollectionOk(faults: set<Call>, c: Collection) {
    SaveCollectionToDB(c) !in faults
  }

  function SaveCollection(db: Db, c: Collection): (r: Db)
    ensures r.collections == db.collections[db.nextId := c.(id := db.nextId)] && r.nextId == db.nextId + 1
    ensures r == db.(collections := r.collections, nextId := r.nextId)
  {
    db.(collections := db.collections[db.nextId := c.(id := db.nextId)], nextId := db.nextId + 1)
  }

  predicate UpdateCollectionOk(db: Db, faults: set<Call>, c: Collection) {
    UpdateCollectionInDB(c) !in faults && c.id in db.collections
  }

  function UpdateCollection(db: Db, c: Collection): (r: Db)
    ensures r.collections == db.collections[c.id := c]
    ensures r == db.(collections := r.collections)
  {
    db.(collections := db.collections[c.id := c])
  }

  predicate LinkOk(db: Db, faults: set<Call>, a: Artifact, c: Collection) {
    AddArtifactCollection(a, c) !in faults && a.id in db.artifacts && c.id in db.collections
  }

  function Link(db: Db, a: Artifact, c: Collection): (r: Db)
    ensures r.links == db.links[a.id := Linked(db, a.id) + [c]]
    ensures r == db.(links := r.links)
  {
    db.(links := db.links[a.id := Linked(db, a.id) + [c]])
  }

  predicate SaveArtifactOk(faults: set<Call>, a: Artifact) {
    SaveArtifactToDB(a) !in faults
  }

  /** A new artifact starts out in no collection. */
  function SaveArtifact(db: Db, a: Artifact): (r: Db)
    ensures r.artifacts == db.artifacts[db.nextId := a.(id := db.nextId)] && r.nextId == db.nextId + 1
    ensures r.links == db.links[db.nextId := []] && Linked(r, db.nextId) == []
    ensures r == db.(artifacts := r.artifacts, links := r.links, nextId := r.nextId)
  {
    db.(artifacts := db.artifacts[db.nextId := a.(id := db.nextId)], links := db.links[db.nextId := []], nextId := db.nextId + 1)
  }

  predicate UpdateArtifactOk(db: Db, faults: set<Call>, a: Artifact) {
    UpdateArtifactInDB(a) !in faults && a.id in db.artifacts
  }

  function UpdateArtifact(db: Db, a: Artifact): (r: Db)
    ensures r.artifacts == db.artifacts[a.id := a]
    ensures r == db.(artifacts := r.artifacts)
  {
    db.(artifacts := db.artifacts[a.id := a])
  }

  predicate RemoveArtifactOk(db: Db, faults: set<Call>, a: Artifact) {
    RemoveArtifactInDB(a) !in faults && a.id in db.artifacts
  }

  function RemoveArtifact(db: Db, a: Artifact): (r: Db)
    ensures r.artifacts == db.artifacts - {a.id} && r.links == db.links - {a.id}
    ensures r == db.(artifacts := r.artifacts, links := r.links)
  {
    db.(artifacts := db.artifacts - {a.id}, links := db.links - {a.id})
  }

  predicate UnlinkOk(db: Db, faults: set<Call>, a: Artifact) {
    RemoveArtifactCollection(a) !in faults && a.id in db.artifacts
  }

  function Unlink(db: Db, a: Artifact): (r: Db)
    ensures r.links == db.links[a.id := []] && Linked(r, a.id) == []
    ensures r == db.(links := r.links)
  {
    db.(links := db.links[a.id := []])
  }

  predicate SaveEditOk(faults: set<Call>, e: Edit) {
    SaveEditToDB(e) !in faults
  }

  /** An edit is filed with its kind under a fresh id. */
  function SaveEdit(db: Db, e: Edit): (r: Db)
    ensures e.subject.OfArtifact? ==> r.artifactEdits == db.artifactEdits[db.nextId := e.(id := db.nextId)] && r.collectionEdits == db.collectionEdits
    ensures e.subject.OfCollection? ==> r.collectionEdits == db.collectionEdits[db.nextId := e.(id := db.nextId)] && r.artifactEdits == db.artifactEdits
    ensures r.nextId == db.nextId + 1
    ensures r == db.(artifactEdits := r.artifactEdits, collectionEdits := r.collectionEdits, nextId := r.nextId)
  {
    if e.subject.OfArtifact? then
      db.(artifactEdits := db.artifactEdits[db.nextId := e.(id := db.nextId)], nextId := db.nextId + 1)
    else
      db.(collectionEdits := db.collectionEdits[db.nextId := e.(id := db.nextId)], nextId := db.nextId + 1)
  }

  /**
   * Updating an edit needs the edit to be stored. The storage layer cannot
   * carry out an approved deletion of a collection and refuses that update.
   */
  predicate UpdateEditOk(db: Db, faults: set<Call>, e: Edit) {
    && UpdateEditInDB(e) !in faults
    && (if e.subject.OfArtifact? then e.id in db.artifactEdits
        else e.id in db.collectionEdits && !(e.action == Del && e.status == Approved))
  }

  function UpdateEdit(db: Db, e: Edit): (r: Db)
    ensures e.subject.OfArtifact? ==> r.artifactEdits == db.artifactEdits[e.id := e] && r.collectionEdits == db.collectionEdits
    ensures e.subject.OfCollection? ==> r.collectionEdits == db.collectionEdits[e.id := e] && r.artifactEdits == db.artifactEdits
    ensures r == db.(artifactEdits := r.artifactEdits, collectionEdits := r.collectionEdits)
  {
    if e.subject.OfArtifact? then db.(artifactEdits := db.artifactEdits[e.id := e])
    else db.(collectionEdits := db.collectionEdits[e.id := e])
  }

  // ---------------------------------------------------------------------
  // Each change keeps the store well formed and reviewed edits untouched.
  // ---------------------------------------------------------------------

  lemma SaveUserValid(db: Db, u: User)
    requires db.Valid()
    ensures SaveUser(db, u).Valid() && ResolvedKept(db, SaveUser(db, u))
  {
  }

  lemma UpdateUserValid(db: Db, u: User)
    requires db.Valid() && u.username in db.users
    ensures UpdateUser(db, u).Valid() && ResolvedKept(db, UpdateUser(db, u))
  {
  }

  lemma SaveMuseumValid(db: Db, m: Museum)
    requires db.Valid()
    ensures SaveMuseum(db, m).Valid() && ResolvedKept(db, SaveMuseum(db, m))
  {
  }

  lemma RemoveMuseumValid(db: Db, m: Museum)
    requires db.Valid()
    ensures RemoveMuseum(db, m).Valid() && ResolvedKept(db, RemoveMuseum(db, m))
  {
  }

  lemma SaveCollectionValid(db: Db, c: Collection)
    requires db.Valid()
    ensures SaveCollection(db, c).Valid() && ResolvedKept(db, SaveCollection(db, c))
  {
  }

  lemma UpdateCollectionValid(db: Db, c: Collection)
    requires db.Valid() && c.id in db.collections
    ensures UpdateCollection(db, c).Valid() && ResolvedKept(db, UpdateCollection(db, c))
  {
  }

  lemma LinkValid(db: Db, a: Artifact, c: Collection)
    requires db.Valid() && a.id in db.artifacts
    ensures Link(db, a, c).Valid() && ResolvedKept(db, Link(db, a, c))
  {
  }

  lemma SaveArtifactValid(db: Db, a: Artifact)
    requires db.Valid()
    ensures SaveArtifact(db, a).Valid() && ResolvedKept(db, SaveArtifact(db, a))
  {
  }

  lemma UpdateArtifactValid(db: Db, a: Artifact)
    requires db.Valid() && a.id in db.artifacts
    ensures UpdateArtifact(db, a).Valid() && ResolvedKept(db, UpdateArtifact(db, a))
  {
  }

  lemma RemoveArtifactValid(db: Db, a: Artifact)
    requires db.Valid()
    ensures RemoveArtifact(db, a).Valid() && ResolvedKept(db, RemoveArtifact(db, a))
  {
  }

  lemma UnlinkValid(db: Db, a: Artifact)
    requires db.Valid() && a.id in db.artifacts
    ensures Unlink(db, a).Valid() && ResolvedKept(db, Unlink(db, a))
  {
  }

  lemma SaveEditValid(db: Db, e: Edit)
    requires db.Valid()
    ensures SaveEdit(db, e).Valid() && ResolvedKept(db, SaveEdit(db, e))
  {
  }

  /**
   * Updating an edit keeps the store well formed, and keeps reviewed edits
   * untouched provided the edit it overwrites was still under review.
   */
  lemma UpdateEditValid(db: Db, e: Edit)
    requires db.Valid() && (e.subject.OfArtifact? ==> e.id in db.artifactEdits) && (e.subject.OfCollection? ==> e.id in db.collectionEdits)
    requires e.subject.OfArtifact? ==> !Resolved(db.artifactEdits[e.id])
    requires e.subject.OfCollection? ==> !Resolved(db.collectionEdits[e.id])
    ensures UpdateEdit(db, e).Valid() && ResolvedKept(db, UpdateEdit(db, e))
  {
  }

  lemma ResolvedKeptTransitive(a: Db, b: Db, c: Db)
    requires ResolvedKept(a, b) && ResolvedKept(b, c)
    ensures ResolvedKept(a, c)
  {
  }

  lemma ResolvedKeptReflexive(a: Db)
    ensures ResolvedKept(a, a)
  {
  }
}
