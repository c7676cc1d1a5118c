/**
 * What the handler's outcomes mean, route by route: which requests never
 * reach storage, which storage calls each decision makes, and the
 * invariants every request keeps.
 */
module RouteFacts {
  import opened Wrappers
  import opened PathIds
  import opened Json
  import opened Http
  import opened Routing
  import opened Entities
  import opened Auth
  import opened Workflow
  import opened Requests
  import opened Store
  import opened Routes

  // ---------------------------------------------------------------------
  // Requests that never reach storage.
  // ---------------------------------------------------------------------

  /** PUT and DELETE are a 404 on every path, and nothing is asked of storage. */
  lemma PutAndDeleteAreNotFound(db: Db, faults: set<Call>, m: Method, path: string, body: Json, newPassword: string)
    requires m == PUT || m == DEL
    ensures Handle(db, faults, m, path, body, newPassword) == Outcome(Fail(NotFound), [], db)
  {
  }

  /** A GET outside /request serves the frontend's page without a storage call. */
  lemma GetOutsideApiServesPage(db: Db, faults: set<Call>, path: string)
    requires SplitPath(path) == [] || SplitPath(path)[0] != "request"
    ensures Handle(db, faults, GET, path, Null, []) == Outcome(Ok(IndexPage), [], db)
  {
    OnlyRequestPathsReachGateway(GET, SplitPath(path));
  }

  /** A GET of /request/{name} other than the museum list serves the page too ("/request/index.html"). */
  lemma GetUnknownNameServesPage(db: Db, faults: set<Call>, name: string)
    requires name != [] && '/' !in name && name != "museum-list"
    ensures GetRequest(db, faults, "/request/" + name) == Outcome(Ok(IndexPage), [], db)
  {
    SplitRequestPath(name);
  }

  /** A POST outside /request is a 404 before any login: no storage call at all. */
  lemma PostOutsideApiNotFound(db: Db, faults: set<Call>, path: string, body: Json, newPassword: string)
    requires SplitPath(path) == [] || SplitPath(path)[0] != "request"
    ensures PostRequest(db, faults, path, body, newPassword) == Outcome(Fail(NotFound), [], db)
  {
    OnlyRequestPathsReachGateway(POST, SplitPath(path));
  }

  /** A POST of /request/{name} with a name no route has is a 404 without a storage call. */
  lemma PostUnknownNameNotFound(db: Db, faults: set<Call>, name: string, body: Json, newPassword: string)
    requires name != [] && '/' !in name && PostAction(name) == NoRoute
    ensures PostRequest(db, faults, "/request/" + name, body, newPassword) == Outcome(Fail(NotFound), [], db)
  {
    SplitRequestPath(name);
  }

  /**
   * A POST of /request/{name}/{seg}: a segment that is not an id is a 500
   * under every name, and an id after a name that takes none is a 404;
   * neither asks storage anything.
   */
  lemma PostIdPathRefused(db: Db, faults: set<Call>, name: string, seg: string, body: Json, newPassword: string)
    requires name != [] && '/' !in name && seg != [] && '/' !in seg
    ensures ParseId(seg).None? ==>
              PostRequest(db, faults, "/request/" + name + "/" + seg, body, newPassword) == Outcome(Fail(InternalError), [], db)
    ensures ParseId(seg).Some? && name != "delete-museum" && name != "delete-artifact" ==>
              PostRequest(db, faults, "/request/" + name + "/" + seg, body, newPassword) == Outcome(Fail(NotFound), [], db)
  {
    SplitRequestIdPath(name, seg);
  }

  // ---------------------------------------------------------------------
  // Ids in GET paths.
  // ---------------------------------------------------------------------

  /** After an id-carrying prefix, a segment that is not a 32-bit id is a 500 without a lookup. */
  lemma GetMalformedIdRefused(db: Db, faults: set<Call>, kind: string, seg: string)
    requires kind == "museum" || kind == "collection" || kind == "artifact" || kind == "edit"
    requires seg != [] && '/' !in seg && ParseId(seg).None?
    ensures GetRequest(db, faults, "/request/" + kind + "/" + seg) == Outcome(Fail(InternalError), [], db)
  {
    SplitRequestIdPath(kind, seg);
    GetIdSegment(kind, seg);
  }

  /** INT_MAX is looked up as it is; one more does not fit and is a 500 without a lookup. */
  lemma MuseumIdBound(db: Db, faults: set<Call>)
    ensures GetRequest(db, faults, "/request/" + "museum" + "/" + ShowId(INT_MAX)) == MuseumRoute(db, faults, INT_MAX)
    ensures GetRequest(db, faults, "/request/" + "museum" + "/" + ShowId(INT_MAX + 1)) == Outcome(Fail(InternalError), [], db)
  {
    IntMaxMuseumIsLookedUp();
    OverflowingIdIsMalformed();
  }

  /** A museum is shown with its collections; a failed lookup is a conflict and stops there. */
  lemma MuseumRouteMeaning(db: Db, faults: set<Call>, id: int)
    ensures var o := MuseumRoute(db, faults, id);
      o.calls[0] == GetMuseumObject(id) &&
      (o.response.Success() <==> MuseumAnswer(db, faults, id).Some? && MuseumCollectionsAnswer(db, faults, id).Some?) &&
      (MuseumAnswer(db, faults, id).None? ==> o.response == Fail(Conflict) && o.calls == [GetMuseumObject(id)]) &&
      (o.response.Success() ==> o.response.payload == MuseumPayload(db.museums[id], MuseumCollectionsAnswer(db, faults, id).value))
  {
  }

  /**
   * The museum list is one listing: a conflict when it fails, and otherwise a
   * success listing stored museums and missing none of them.
   */
  lemma MuseumListMeaning(db: Db, faults: set<Call>)
    requires db.Valid()
    ensures MuseumListRoute(db, faults).calls == [GetMuseumList] && MuseumListRoute(db, faults).db == db
    ensures GetMuseumList in faults ==> MuseumListRoute(db, faults).response == Fail(Conflict)
    ensures GetMuseumList !in faults ==>
              var r := MuseumListRoute(db, faults).response;
              r.Success() && r.payload.MuseumsPayload?
              && (forall i :: 0 <= i < |r.payload.museums| ==> r.payload.museums[i] in db.museums.Values)
              && (forall k :: k in db.museums ==> db.museums[k] in r.payload.museums)
  {
    if GetMuseumList !in faults {
      forall k | k in db.museums
        ensures db.museums[k] in MuseumListRoute(db, faults).response.payload.museums
      {
        MuseumListComplete(db, faults, k);
      }
    }
  }

  /** A collection is shown with its artifacts; a failed lookup is a conflict and stops there. */
  lemma CollectionRouteMeaning(db: Db, faults: set<Call>, id: int)
    ensures var o := CollectionRoute(db, faults, id);
      o.calls[0] == GetCollectionObject(id) &&
      (o.response.Success() <==> CollectionAnswer(db, faults, id).Some? && CollectionArtifactsAnswer(db, faults, id).Some?) &&
      (CollectionAnswer(db, faults, id).None? ==> o.response == Fail(Conflict) && o.calls == [GetCollectionObject(id)]) &&
      (o.response.Success() ==> o.response.payload == CollectionPayload(db.collections[id], CollectionArtifactsAnswer(db, faults, id).value))
  {
  }

  /** An artifact is shown with the collections it belongs to; a failed lookup is a conflict and stops there. */
  lemma ArtifactRouteMeaning(db: Db, faults: set<Call>, id: int)
    ensures var o := ArtifactRoute(db, faults, id);
      o.calls[0] == GetArtifact(id) &&
      (o.response.Success() <==> ArtifactAnswer(db, faults, id).Some? && ArtifactCollectionsAnswer(db, faults, id).Some?) &&
      (ArtifactAnswer(db, faults, id).None? ==> o.response == Fail(Conflict) && o.calls == [GetArtifact(id)]) &&
      (o.response.Success() ==> o.response.payload == ArtifactPayload(db.artifacts[id], Linked(db, id)))
  {
  }

  /**
   * An edit id is tried as an artifact edit first and as a collection edit
   * only when that fails; the request is a conflict only when both fail.
   */
  lemma EditRouteFallsBack(db: Db, faults: set<Call>, id: int)
    ensures var o := EditRoute(db, faults, id);
      (o.response.Success() <==> ArtifactEditAnswer(db, faults, id).Some? || CollectionEditAnswer(db, faults, id).Some?) &&
      (ArtifactEditAnswer(db, faults, id).Some? ==>
         o.response == Ok(EditPayload(db.artifactEdits[id])) && o.calls == [GetEditArtifactObject(id)]) &&
      (ArtifactEditAnswer(db, faults, id).None? ==> o.calls == [GetEditArtifactObject(id), GetEditCollectionObject(id)]) &&
      (ArtifactEditAnswer(db, faults, id).None? && CollectionEditAnswer(db, faults, id).Some? ==>
         o.response == Ok(EditPayload(db.collectionEdits[id]))) &&
      (!o.response.Success() ==> o.response == Fail(Conflict))
  {
  }

  /** No GET changes the store. */
  lemma GetChangesNothing(db: Db, faults: set<Call>, path: string)
    ensures GetRequest(db, faults, path).db == db
  {
  }

  // ---------------------------------------------------------------------
  // Login and the accounts.
  // ---------------------------------------------------------------------

  /**
   * A login body without both keys is a 500 before any storage call;
   * otherwise the one username lookup decides: an unknown user is a
   * conflict, a wrong password unauthorized, and a match returns the user.
   */
  lemma LoginRouteMeaning(db: Db, faults: set<Call>, body: Json)
    ensures var o := LoginRoute(db, faults, body);
      (FlatCredentials(body).None? ==> o == Outcome(Fail(InternalError), [], db)) &&
      (FlatCredentials(body).Some? ==> var c := FlatCredentials(body).value;
         o.calls == [GetUserObject(c.username)] &&
         (o.response == Fail(Conflict) <==> UserAnswer(db, faults, c.username).None?) &&
         (o.response == Fail(Unauthorized) <==> UserAnswer(db, faults, c.username).Some? && db.users[c.username].password != c.password) &&
         (o.response.Success() <==> UserAnswer(db, faults, c.username).Some? && db.users[c.username].password == c.password) &&
         (o.response.Success() ==> o.response.payload == UserSummary(db.users[c.username])))
  {
  }

  /** The outcome of a protected route whose login is refused: the body was refused, or the login's status after its one lookup. */
  predicate StopsAtLogin(db: Db, faults: set<Call>, c: Credentials, o: Outcome)
    requires Authenticate(db, faults, c).Refused?
  {
    o == Outcome(Fail(InternalError), [], db) || o == Outcome(Fail(Authenticate(db, faults, c).status), LoginCalls(c), db)
  }

  predicate IsCurationAction(a: Action) {
    a.AddMuseum? || a.AddCollection? || a.EditCollection? || a.AddArtifact? || a.EditArtifact? || a.ReviewEdit?
  }

  /** The routes with credentials nested under "user": without them, a 500 before any storage call. */
  lemma CurationNeedsCredentials(db: Db, faults: set<Call>, a: Action, body: Json)
    requires IsCurationAction(a) && NestedCredentials(body).None?
    ensures CurationRequest(db, faults, a, body) == Outcome(Fail(InternalError), [], db)
  {
    NoCredentialsNoRequest(body);
  }

  /** A refused login ends every curation route: nothing is changed and nothing else is asked. */
  lemma CurationStopsAtRefusedLogin(db: Db, faults: set<Call>, a: Action, body: Json)
    requires IsCurationAction(a) && NestedCredentials(body).Some?
    requires Authenticate(db, faults, NestedCredentials(body).value).Refused?
    ensures StopsAtLogin(db, faults, NestedCredentials(body).value, CurationRequest(db, faults, a, body))
  {
  }

  /** The routes with credentials at the top level: the profile and the deletions. */
  lemma FlatRoutesNeedCredentials(db: Db, faults: set<Call>, body: Json, id: int)
    requires FlatCredentials(body).None?
    ensures ProfileRoute(db, faults, body) == Outcome(Fail(InternalError), [], db)
    ensures DeleteMuseumRoute(db, faults, body, id) == Outcome(Fail(InternalError), [], db)
    ensures DeleteArtifactRoute(db, faults, body, id) == Outcome(Fail(InternalError), [], db)
  {
  }

  lemma FlatRoutesStopAtRefusedLogin(db: Db, faults: set<Call>, body: Json, id: int)
    requires FlatCredentials(body).Some? && Authenticate(db, faults, FlatCredentials(body).value).Refused?
    ensures StopsAtLogin(db, faults, FlatCredentials(body).value, ProfileRoute(db, faults, body))
    ensures StopsAtLogin(db, faults, FlatCredentials(body).value, DeleteMuseumRoute(db, faults, body, id))
    ensures StopsAtLogin(db, faults, FlatCredentials(body).value, DeleteArtifactRoute(db, faults, body, id))
  {
  }

  /** Registration saves the user once; a taken username or a refused save is a conflict. */
  lemma RegisterMeaning(db: Db, faults: set<Call>, body: Json)
    ensures var o := RegisterRoute(db, faults, body);
      (RegistrationOf(body).None? ==> o == Outcome(Fail(InternalError), [], db)) &&
      (RegistrationOf(body).Some? ==> var r := RegistrationOf(body).value; var u := User(UNSAVED, r.username, r.email, r.password);
         o.calls == [SaveUserToDB(u)] &&
         (o.response.Success() <==> SaveUserToDB(u) !in faults && r.username !in db.users) &&
         (!o.response.Success() ==> o.response == Fail(Conflict) && o.db == db) &&
         (o.response.Success() ==> o.db.users == db.users[r.username := u.(id := db.nextId)]))
  {
  }

  /** A user who has just registered can log in with the same username and password. */
  lemma RegisterThenLogIn(db: Db, faults: set<Call>, reg: Json, r: Registration, login: Json)
    requires RegistrationOf(reg) == Some(r) && RegisterRoute(db, faults, reg).response.Success()
    requires FlatCredentials(login) == Some(Credentials(r.username, r.password)) && GetUserObject(r.username) !in faults
    ensures LoginRoute(RegisterRoute(db, faults, reg).db, faults, login).response == Ok(UserSummary(User(db.nextId, r.username, r.email, r.password)))
  {
  }

  /** A reset looks the user up, then stores the user with the new password; each step may be a conflict. */
  lemma ResetMeaning(db: Db, faults: set<Call>, body: Json, newPassword: string)
    ensures var o := ResetPasswordRoute(db, faults, body, newPassword);
      (ResetUsername(body).None? ==> o == Outcome(Fail(InternalError), [], db)) &&
      (ResetUsername(body).Some? ==> var name := ResetUsername(body).value;
         o.calls[0] == GetUserObject(name) &&
         (UserAnswer(db, faults, name).None? ==> o == Outcome(Fail(Conflict), [GetUserObject(name)], db)) &&
         (UserAnswer(db, faults, name).Some? ==> var changed := db.users[name].(password := newPassword);
            o.calls == [GetUserObject(name), UpdateUserInDB(changed)] &&
            (o.response.Success() <==> UpdateUserInDB(changed) !in faults && changed.username in db.users) &&
            (o.response.Success() ==> o.db.users == db.users[changed.username := changed])))
  {
  }

  /** After a reset, the login succeeds with exactly the new password. */
  lemma ResetThenLogIn(db: Db, faults: set<Call>, body: Json, newPassword: string, login: Json, password: string)
    requires db.Valid() && ResetPasswordRoute(db, faults, body, newPassword).response.Success()
    requires FlatCredentials(login) == Some(Credentials(ResetUsername(body).value, password))
    requires GetUserObject(ResetUsername(body).value) !in faults
    ensures LoginRoute(ResetPasswordRoute(db, faults, body, newPassword).db, faults, login).response.Success() <==> password == newPassword
  {
  }

  // ---------------------------------------------------------------------
  // Museums and collections: the owner applies, anyone else proposes.
  // ---------------------------------------------------------------------

  /** A new museum is saved once, owned by the user who logged in. */
  lemma AddMuseumMeaning(db: Db, faults: set<Call>, u: User, d: Details)
    ensures var o := AddMuseumSteps(db, faults, u, d);
      o.calls == [SaveMuseumToDB(Museum(UNSAVED, d, u))] &&
      (o.response.Success() <==> SaveMuseumToDB(Museum(UNSAVED, d, u)) !in faults) &&
      (!o.response.Success() ==> o.response == Fail(Conflict) && o.db == db) &&
      (o.response.Success() ==> o.db.museums[db.nextId] == Museum(db.nextId, d, u))
  {
  }

  /**
   * Adding a collection: a missing museum is a conflict; the museum's
   * owner saves the collection; anyone else saves one proposal to add it,
   * made by them, and the collections stay as they were.
   */
  lemma AddCollectionDecision(db: Db, faults: set<Call>, u: User, r: NewCollection)
    ensures var o := AddCollectionSteps(db, faults, u, r);
      (MuseumAnswer(db, faults, r.museumId).None? ==> o == Outcome(Fail(Conflict), [GetMuseumObject(r.museumId)], db)) &&
      (MuseumAnswer(db, faults, r.museumId).Some? ==>
         var m := db.museums[r.museumId];
         var c := Collection(UNSAVED, r.details, m);
         (IsOwner(u, m) ==>
            o.calls == [GetMuseumObject(r.museumId), SaveCollectionToDB(c)] &&
            (o.response.Success() <==> SaveCollectionToDB(c) !in faults) &&
            (o.response.Success() ==> o.db.collections == db.collections[db.nextId := c.(id := db.nextId)])) &&
         (!IsOwner(u, m) ==>
            o.calls == [GetMuseumObject(r.museumId), SaveEditToDB(Proposal(OfCollection(c), Add, u))] &&
            (o.response.Success() <==> SaveEditToDB(Proposal(OfCollection(c), Add, u)) !in faults) &&
            o.db.collections == db.collections)) &&
      (!o.response.Success() ==> o.response == Fail(Conflict) && o.db == db)
  {
  }

  /**
   * Changing a collection: the museum and then the stored collection must be
   * found; the owner updates it, anyone else saves one proposal to change it.
   */
  lemma EditCollectionDecision(db: Db, faults: set<Call>, u: User, r: ChangedCollection)
    ensures var o := EditCollectionSteps(db, faults, u, r);
      (MuseumAnswer(db, faults, r.museumId).None? ==> o == Outcome(Fail(Conflict), [GetMuseumObject(r.museumId)], db)) &&
      (MuseumAnswer(db, faults, r.museumId).Some? && CollectionAnswer(db, faults, r.collectionId).None? ==>
         o == Outcome(Fail(Conflict), [GetMuseumObject(r.museumId), GetCollectionObject(r.collectionId)], db)) &&
      (MuseumAnswer(db, faults, r.museumId).Some? && CollectionAnswer(db, faults, r.collectionId).Some? ==>
         var m := db.museums[r.museumId];
         var c := Collection(r.collectionId, r.details, m);
         (IsOwner(u, m) ==>
            o.calls == [GetMuseumObject(r.museumId), GetCollectionObject(r.collectionId), UpdateCollectionInDB(c)] &&
            (o.response.Success() <==> UpdateCollectionInDB(c) !in faults) &&
            (o.response.Success() ==> o.db.collections == db.collections[r.collectionId := c])) &&
         (!IsOwner(u, m) ==>
            o.calls == [GetMuseumObject(r.museumId), GetCollectionObject(r.collectionId), SaveEditToDB(Proposal(OfCollection(c), Modify, u))] &&
            (o.response.Success() <==> SaveEditToDB(Proposal(OfCollection(c), Modify, u)) !in faults) &&
            o.db.collections == db.collections)) &&
      (!o.response.Success() ==> o.response == Fail(Conflict) && o.db == db)
  {
  }

  // ---------------------------------------------------------------------
  // Artifacts and their collections.
  // ---------------------------------------------------------------------

  /** No call in `calls` saves an artifact. */
  predicate SavesNoArtifact(calls: seq<Call>) {
    forall i :: 0 <= i < |calls| ==> !calls[i].SaveArtifactToDB?
  }

  /**
   * Adding an artifact with no collections, or with a collection id whose
   * lookup fails, is a conflict: the artifact is never saved and nothing changes.
   */
  lemma AddArtifactRefusals(db: Db, faults: set<Call>, u: User, r: NewArtifact)
    requires MuseumAnswer(db, faults, r.museumId).None? || r.collectionIds == []
             || exists i :: 0 <= i < |r.collectionIds| && CollectionAnswer(db, faults, r.collectionIds[i]).None?
    ensures var o := AddArtifactSteps(db, faults, u, r);
      o.response == Fail(Conflict) && o.db == db && SavesNoArtifact(o.calls)
  {
    LookupAllMeaning(db, faults, r.collectionIds);
  }

  /**
   * The owner's artifact, with every collection found, whose save is refused:
   * a conflict after the lookups and the one save, with nothing linked or changed.
   */
  lemma OwnerSaveRefused(db: Db, faults: set<Call>, u: User, r: NewArtifact, m: Museum, cols: seq<Collection>)
    requires MuseumAnswer(db, faults, r.museumId) == Some(m) && IsOwner(u, m)
    requires r.collectionIds != [] && LookupAll(db, faults, r.collectionIds) == Found(cols)
    requires SaveArtifactToDB(Artifact(UNSAVED, r.details, m)) in faults
    ensures AddArtifactSteps(db, faults, u, r)
         == Outcome(Fail(Conflict), [GetMuseumObject(r.museumId)] + LookupCalls(r.collectionIds) + [SaveArtifactToDB(Artifact(UNSAVED, r.details, m))], db)
  {
    assert AddFoundArtifact(db, faults, u, m, r.details, cols) == Outcome(Fail(Conflict), [SaveArtifactToDB(Artifact(UNSAVED, r.details, m))], db);
  }

  /**
   * The owner's artifact, with every collection found and nothing refused:
   * the lookups, one save, then one link per collection id, in order. The
   * artifact is stored under a fresh id and belongs to exactly those
   * collections.
   */
  lemma OwnerAddsArtifact(db: Db, faults: set<Call>, u: User, r: NewArtifact, m: Museum, cols: seq<Collection>)
    requires db.Valid() && MuseumAnswer(db, faults, r.museumId) == Some(m) && IsOwner(u, m)
    requires r.collectionIds != [] && LookupAll(db, faults, r.collectionIds) == Found(cols)
    requires SaveArtifactToDB(Artifact(UNSAVED, r.details, m)) !in faults
    requires forall i :: 0 <= i < |cols| ==> AddArtifactCollection(Artifact(db.nextId, r.details, m), cols[i]) !in faults
    ensures var o := AddArtifactSteps(db, faults, u, r);
      var saved := Artifact(db.nextId, r.details, m);
      o.response == Ok(NoContent) &&
      o.calls == [GetMuseumObject(r.museumId)] + LookupCalls(r.collectionIds) + [SaveArtifactToDB(Artifact(UNSAVED, r.details, m))] + LinkCalls(saved, cols) &&
      |LinkCalls(saved, cols)| == |r.collectionIds| &&
      o.db.artifacts == db.artifacts[db.nextId := saved] &&
      Linked(o.db, db.nextId) == cols &&
      (forall i :: 0 <= i < |cols| ==> cols[i].id == r.collectionIds[i])
  {
    var a := Artifact(UNSAVED, r.details, m);
    var saved := Artifact(db.nextId, r.details, m);
    LookupAllMeaning(db, faults, r.collectionIds);
    assert forall i :: 0 <= i < |cols| ==> cols[i] == db.collections[r.collectionIds[i]];
    OwnerAddsFoundArtifact(db, faults, u, m, r.details, cols);
    var looked := [GetMuseumObject(r.museumId)] + LookupCalls(r.collectionIds);
    var o := AddArtifactSteps(db, faults, u, r);
    assert o == After(looked, AddFoundArtifact(db, faults, u, m, r.details, cols));
    AppendCalls(looked, [SaveArtifactToDB(a)], LinkCalls(saved, cols));
  }

  /** With the museum and the collections found, the owner's new artifact is saved and linked. */
  lemma OwnerAddsFoundArtifact(db: Db, faults: set<Call>, u: User, m: Museum, d: Details, cols: seq<Collection>)
    requires db.Valid() && IsOwner(u, m) && forall i :: 0 <= i < |cols| ==> cols[i].id in db.collections
    requires SaveArtifactToDB(Artifact(UNSAVED, d, m)) !in faults
    requires forall i :: 0 <= i < |cols| ==> AddArtifactCollection(Artifact(db.nextId, d, m), cols[i]) !in faults
    ensures var o := AddFoundArtifact(db, faults, u, m, d, cols);
      var saved := Artifact(db.nextId, d, m);
      o.response == Ok(NoContent) &&
      o.calls == [SaveArtifactToDB(Artifact(UNSAVED, d, m))] + LinkCalls(saved, cols) &&
      o.db.artifacts == db.artifacts[db.nextId := saved] &&
      Linked(o.db, db.nextId) == cols
  {
    StoreNewArtifactLinks(db, faults, Artifact(UNSAVED, d, m), cols);
  }

  /** The owner's new artifact, nothing refused: one save under a fresh id, then one link per collection. */
  lemma StoreNewArtifactLinks(db: Db, faults: set<Call>, a: Artifact, cols: seq<Collection>)
    requires db.Valid() && forall i :: 0 <= i < |cols| ==> cols[i].id in db.collections
    requires SaveArtifactToDB(a) !in faults
    requires forall i :: 0 <= i < |cols| ==> AddArtifactCollection(a.(id := db.nextId), cols[i]) !in faults
    ensures var o := StoreNewArtifact(db, faults, a, cols);
      var saved := a.(id := db.nextId);
      o.response == Ok(NoContent) &&
      o.calls == [SaveArtifactToDB(a)] + LinkCalls(saved, cols) &&
      o.db.artifacts == db.artifacts[db.nextId := saved] &&
      Linked(o.db, db.nextId) == cols
  {
    var saved := a.(id := db.nextId);
    var db1 := SaveArtifact(db, a);
    assert forall i :: 0 <= i < |cols| ==> LinkOk(db1, faults, saved, cols[i]);
    LinkAllSucceeds(db1, faults, saved, cols);
    LinkAllLinked(db1, faults, saved, cols);
    LinkAllOnlyLinks(db1, faults, saved, cols);
  }

  /** Anyone but the owner saves one proposal to add the artifact to the collections found, and the artifacts stay as they were. */
  lemma OthersProposeArtifact(db: Db, faults: set<Call>, u: User, r: NewArtifact, m: Museum, cols: seq<Collection>)
    requires MuseumAnswer(db, faults, r.museumId) == Some(m) && !IsOwner(u, m)
    requires r.collectionIds != [] && LookupAll(db, faults, r.collectionIds) == Found(cols)
    ensures var o := AddArtifactSteps(db, faults, u, r);
      var e := Proposal(OfArtifact(Artifact(UNSAVED, r.details, m), cols), Add, u);
      o.calls == [GetMuseumObject(r.museumId)] + LookupCalls(r.collectionIds) + [SaveEditToDB(e)] &&
      (o.response.Success() <==> SaveEditToDB(e) !in faults) &&
      o.db.artifacts == db.artifacts && SavesNoArtifact(o.calls)
  {
    AppendCalls([GetMuseumObject(r.museumId)], LookupCalls(r.collectionIds), [SaveEditToDB(Proposal(OfArtifact(Artifact(UNSAVED, r.details, m), cols), Add, u))]);
  }

  /**
   * The owner's change to an artifact, with every collection found and
   * nothing refused: the lookups, the stored artifact's lookup, its update,
   * the removal of its links, then one link per collection id. Afterwards
   * the artifact belongs to exactly those collections.
   */
  lemma OwnerEditsArtifact(db: Db, faults: set<Call>, u: User, r: ChangedArtifact, m: Museum, cols: seq<Collection>)
    requires db.Valid() && MuseumAnswer(db, faults, r.museumId) == Some(m) && IsOwner(u, m)
    requires r.collectionIds != [] && LookupAll(db, faults, r.collectionIds) == Found(cols)
    requires ArtifactAnswer(db, faults, r.artifactId).Some?
    requires UpdateArtifactInDB(Artifact(r.artifactId, r.details, m)) !in faults
    requires RemoveArtifactCollection(Artifact(r.artifactId, r.details, m)) !in faults
    requires forall i :: 0 <= i < |cols| ==> AddArtifactCollection(Artifact(r.artifactId, r.details, m), cols[i]) !in faults
    ensures var o := EditArtifactSteps(db, faults, u, r);
      var a := Artifact(r.artifactId, r.details, m);
      o.response == Ok(NoContent) &&
      o.calls == [GetMuseumObject(r.museumId)] + LookupCalls(r.collectionIds)
                 + [GetArtifact(r.artifactId), UpdateArtifactInDB(a), RemoveArtifactCollection(a)] + LinkCalls(a, cols) &&
      o.db.artifacts == db.artifacts[r.artifactId := a] &&
      Linked(o.db, r.artifactId) == cols
  {
    var a := Artifact(r.artifactId, r.details, m);
    LookupAllMeaning(db, faults, r.collectionIds);
    assert forall i :: 0 <= i < |cols| ==> cols[i] == db.collections[r.collectionIds[i]];
    OwnerEditsFoundArtifact(db, faults, u, m, r, cols);
    var looked := [GetMuseumObject(r.museumId)] + LookupCalls(r.collectionIds);
    var o := EditArtifactSteps(db, faults, u, r);
    assert o == After(looked, EditFoundArtifact(db, faults, u, m, r, cols));
    AppendCalls(looked, [GetArtifact(r.artifactId), UpdateArtifactInDB(a), RemoveArtifactCollection(a)], LinkCalls(a, cols));
  }

  /** With the museum and the collections found, the owner's change of a stored artifact goes through. */
  lemma OwnerEditsFoundArtifact(db: Db, faults: set<Call>, u: User, m: Museum, r: ChangedArtifact, cols: seq<Collection>)
    requires ArtifactAnswer(db, faults, r.artifactId).Some? && IsOwner(u, m)
    requires forall i :: 0 <= i < |cols| ==> cols[i].id in db.collections
    requires UpdateArtifactInDB(Artifact(r.artifactId, r.details, m)) !in faults
    requires RemoveArtifactCollection(Artifact(r.artifactId, r.details, m)) !in faults
    requires forall i :: 0 <= i < |cols| ==> AddArtifactCollection(Artifact(r.artifactId, r.details, m), cols[i]) !in faults
    ensures var o := EditFoundArtifact(db, faults, u, m, r, cols);
      var a := Artifact(r.artifactId, r.details, m);
      o.response == Ok(NoContent) &&
      o.calls == [GetArtifact(r.artifactId), UpdateArtifactInDB(a), RemoveArtifactCollection(a)] + LinkCalls(a, cols) &&
      o.db.artifacts == db.artifacts[r.artifactId := a] &&
      Linked(o.db, r.artifactId) == cols
  {
    var a := Artifact(r.artifactId, r.details, m);
    StoreChangedArtifactRelinks(db, faults, a, cols);
    assert [GetArtifact(r.artifactId)] + [UpdateArtifactInDB(a), RemoveArtifactCollection(a)]
        == [GetArtifact(r.artifactId), UpdateArtifactInDB(a), RemoveArtifactCollection(a)];
    AppendCalls([GetArtifact(r.artifactId)], [UpdateArtifactInDB(a), RemoveArtifactCollection(a)], LinkCalls(a, cols));
  }

  /** The owner's update of a stored artifact, nothing refused: update, unlink, then relink to exactly `cols`. */
  lemma StoreChangedArtifactRelinks(db: Db, faults: set<Call>, a: Artifact, cols: seq<Collection>)
    requires a.id in db.artifacts && forall i :: 0 <= i < |cols| ==> cols[i].id in db.collections
    requires UpdateArtifactInDB(a) !in faults && RemoveArtifactCollection(a) !in faults
    requires forall i :: 0 <= i < |cols| ==> AddArtifactCollection(a, cols[i]) !in faults
    ensures var o := StoreChangedArtifact(db, faults, a, cols);
      o.response == Ok(NoContent) &&
      o.calls == [UpdateArtifactInDB(a), RemoveArtifactCollection(a)] + LinkCalls(a, cols) &&
      o.db.artifacts == db.artifacts[a.id := a] &&
      Linked(o.db, a.id) == cols
  {
    var db1 := Unlink(UpdateArtifact(db, a), a);
    assert forall i :: 0 <= i < |cols| ==> LinkOk(db1, faults, a, cols[i]);
    LinkAllSucceeds(db1, faults, a, cols);
    LinkAllLinked(db1, faults, a, cols);
    LinkAllOnlyLinks(db1, faults, a, cols);
  }

  /**
   * The owner's change to a stored artifact, with every collection found,
   * whose update is refused: a conflict after the artifact's lookup and the
   * one update, with nothing unlinked or changed.
   */
  lemma OwnerUpdateRefused(db: Db, faults: set<Call>, u: User, r: ChangedArtifact, m: Museum, cols: seq<Collection>)
    requires MuseumAnswer(db, faults, r.museumId) == Some(m) && IsOwner(u, m)
    requires r.collectionIds != [] && LookupAll(db, faults, r.collectionIds) == Found(cols)
    requires ArtifactAnswer(db, faults, r.artifactId).Some?
    requires UpdateArtifactInDB(Artifact(r.artifactId, r.details, m)) in faults
    ensures var a := Artifact(r.artifactId, r.details, m);
      EditArtifactSteps(db, faults, u, r)
      == Outcome(Fail(Conflict), [GetMuseumObject(r.museumId)] + LookupCalls(r.collectionIds) + [GetArtifact(r.artifactId), UpdateArtifactInDB(a)], db)
  {
    var a := Artifact(r.artifactId, r.details, m);
    assert StoreChangedArtifact(db, faults, a, cols) == Outcome(Fail(Conflict), [UpdateArtifactInDB(a)], db);
    AppendCalls([GetMuseumObject(r.museumId)] + LookupCalls(r.collectionIds), [GetArtifact(r.artifactId)], [UpdateArtifactInDB(a)]);
  }

  /** Changing an artifact with no collections, a missing collection or no stored artifact is a conflict that changes nothing. */
  lemma EditArtifactRefusals(db: Db, faults: set<Call>, u: User, r: ChangedArtifact)
    requires MuseumAnswer(db, faults, r.museumId).None? || r.collectionIds == []
             || (exists i :: 0 <= i < |r.collectionIds| && CollectionAnswer(db, faults, r.collectionIds[i]).None?)
             || ArtifactAnswer(db, faults, r.artifactId).None?
    ensures var o := EditArtifactSteps(db, faults, u, r);
      o.response == Fail(Conflict) && o.db == db
  {
    LookupAllMeaning(db, faults, r.collectionIds);
  }

  /** Anyone but the owner saves one proposal to change the artifact, and the artifacts stay as they were. */
  lemma OthersProposeArtifactChange(db: Db, faults: set<Call>, u: User, r: ChangedArtifact, m: Museum, cols: seq<Collection>)
    requires MuseumAnswer(db, faults, r.museumId) == Some(m) && !IsOwner(u, m)
    requires r.collectionIds != [] && LookupAll(db, faults, r.collectionIds) == Found(cols)
    requires ArtifactAnswer(db, faults, r.artifactId).Some?
    ensures var o := EditArtifactSteps(db, faults, u, r);
      var e := Proposal(OfArtifact(Artifact(r.artifactId, r.details, m), cols), Modify, u);
      o.calls == [GetMuseumObject(r.museumId)] + LookupCalls(r.collectionIds) + [GetArtifact(r.artifactId), SaveEditToDB(e)] &&
      (o.response.Success() <==> SaveEditToDB(e) !in faults) &&
      o.db.artifacts == db.artifacts
  {
    var e := Proposal(OfArtifact(Artifact(r.artifactId, r.details, m), cols), Modify, u);
    AppendCalls([GetMuseumObject(r.museumId)] + LookupCalls(r.collectionIds), [GetArtifact(r.artifactId)], [SaveEditToDB(e)]);
  }

  // ---------------------------------------------------------------------
  // Reviewing edits.
  // ---------------------------------------------------------------------

  /**
   * The category is judged before any storage call: "museum" is a 501 and
   * any other unknown one a 500. "artifact" and "collection" look up the
   * matching kind of edit first, and a failed lookup is a conflict.
   */
  lemma ReviewCategory(db: Db, faults: set<Call>, u: User, r: ReviewRequest)
    ensures var o := ReviewSteps(db, faults, u, r);
      (r.category == "museum" ==> o == Outcome(Fail(NotImplemented), [], db)) &&
      (CategoryOf(r.category) == UnknownCategory ==> o == Outcome(Fail(InternalError), [], db)) &&
      (r.category == "artifact" ==>
         o.calls[0] == GetEditArtifactObject(r.editId) &&
         (ArtifactEditAnswer(db, faults, r.editId).None? ==> o == Outcome(Fail(Conflict), [GetEditArtifactObject(r.editId)], db))) &&
      (r.category == "collection" ==>
         o.calls[0] == GetEditCollectionObject(r.editId) &&
         (CollectionEditAnswer(db, faults, r.editId).None? ==> o == Outcome(Fail(Conflict), [GetEditCollectionObject(r.editId)], db)))
  {
  }

  /**
   * A found edit: one already resolved is a conflict, a reviewer who does
   * not own its museum (by id) is unauthorized, and the owner's verdict is
   * stored with one update of the edit with its new status. An approved
   * collection deletion cannot be stored and is a conflict.
   */
  lemma ReviewDecision(db: Db, faults: set<Call>, u: User, r: ReviewRequest, e: Edit)
    requires CategoryOf(r.category) == ArtifactCategory || CategoryOf(r.category) == CollectionCategory
    requires ReviewLookup(db, faults, CategoryOf(r.category), r.editId).0 == Some(e)
    ensures var o := ReviewSteps(db, faults, u, r);
      var lookup := ReviewLookup(db, faults, CategoryOf(r.category), r.editId).1;
      var verdict := e.(status := Resolution(r.approve));
      (e.status != UnderReview ==> o == Outcome(Fail(Conflict), [lookup], db)) &&
      (e.status == UnderReview && !IsOwner(u, e.subject.TargetMuseum()) ==> o == Outcome(Fail(Unauthorized), [lookup], db)) &&
      (e.status == UnderReview && IsOwner(u, e.subject.TargetMuseum()) ==>
         o.calls == [lookup, UpdateEditInDB(verdict)] &&
         (o.response.Success() <==> UpdateEditOk(db, faults, verdict)) &&
         (o.response.Success() ==> o.db == UpdateEdit(db, verdict)) &&
         (e.subject.OfCollection? && e.action == Del && r.approve ==> o.response == Fail(Conflict))) &&
      (!o.response.Success() ==> o.db == db)
  {
  }

  /**
   * A review is final: once one has been stored, reviewing the same edit
   * again, by anyone and either way, is a conflict.
   */
  lemma ReviewIsFinal(db: Db, faults: set<Call>, u: User, r: ReviewRequest, v: User, approve: bool)
    requires db.Valid() && ReviewSteps(db, faults, u, r).response.Success()
    ensures ReviewSteps(ReviewSteps(db, faults, u, r).db, faults, v, r.(approve := approve)).response == Fail(Conflict)
  {
    var c := CategoryOf(r.category);
    var e := ReviewLookup(db, faults, c, r.editId).0.value;
    var verdict := e.(status := Resolution(r.approve));
    var after := UpdateEdit(db, verdict);
    assert ReviewSteps(db, faults, u, r).db == after;
    assert ReviewLookup(after, faults, c, r.editId).0 == Some(verdict);
  }

  // ---------------------------------------------------------------------
  // The user profile.
  // ---------------------------------------------------------------------

  /** Every action collected is an edit of one of the museums it was collected for. */
  lemma {:induction false} ActionsTargetMuseums(db: Db, faults: set<Call>, ms: seq<Museum>)
    ensures var r := CollectActions(db, faults, ms);
      r.actions.Some? ==> forall i :: 0 <= i < |r.actions.value| ==>
        exists j :: 0 <= j < |ms| && r.actions.value[i].subject.TargetMuseum().id == ms[j].id
    decreases |ms|
  {
    if ms != [] {
      var front := ms[..|ms| - 1];
      var m := ms[|ms| - 1];
      ActionsTargetMuseums(db, faults, front);
      var r := CollectActions(db, faults, front);
      if r.actions.Some? {
        var all := CollectActions(db, faults, ms);
        if all.actions.Some? {
          var aa := ArtifactActionsAnswer(db, faults, m.id).value;
          var ca := CollectionActionsAnswer(db, faults, m.id).value;
          assert all.actions.value == r.actions.value + aa + ca;
          forall i | 0 <= i < |all.actions.value|
            ensures exists j :: 0 <= j < |ms| && all.actions.value[i].subject.TargetMuseum().id == ms[j].id
          {
            if i < |r.actions.value| {
              var j :| 0 <= j < |front| && r.actions.value[i].subject.TargetMuseum().id == front[j].id;
              assert ms[j] == front[j];
            } else {
              assert all.actions.value[i].subject.TargetMuseum().id == ms[|ms| - 1].id;
            }
          }
        }
      }
    }
  }

  /** The profile's last part: the head curator, and only the head curator, gets every museum. */
  lemma HeadCuratorPart(db: Db, faults: set<Call>, u: User, ms: seq<Museum>, edits: seq<Edit>, actions: seq<Edit>)
    ensures var o := HeadCuratorProfile(db, faults, u, ms, edits, actions);
      (!o.response.Success() ==> o.response == Fail(Conflict)) &&
      (o.response.Success() ==>
         var p := o.response.payload;
         p.ProfilePayload? && p.user == u && p.museums == ms && p.edits == edits && p.actions == actions &&
         (p.headCuratorList.Some? <==> u.id in db.headCurators) &&
         (p.headCuratorList.Some? ==> p.headCuratorList == MuseumListAnswer(db, faults)))
  {
  }

  /** The museums a user curates, and the proposals on exactly those museums. */
  lemma CuratorPart(db: Db, faults: set<Call>, u: User, edits: seq<Edit>)
    ensures var o := CuratorProfile(db, faults, u, edits);
      (!o.response.Success() ==> o.response == Fail(Conflict)) &&
      (o.response.Success() ==>
         var p := o.response.payload;
         p.ProfilePayload? && p.user == u && p.edits == edits &&
         (forall i :: 0 <= i < |p.museums| ==> p.museums[i].owner.id == u.id && p.museums[i] in db.museums.Values) &&
         (forall i :: 0 <= i < |p.actions| ==> exists j :: 0 <= j < |p.museums| && p.actions[i].subject.TargetMuseum().id == p.museums[j].id) &&
         (p.headCuratorList.Some? <==> u.id in db.headCurators))
  {
    match CuratedAnswer(db, faults, u.id)
    case None =>
    case Some(ms) =>
      ActionsTargetMuseums(db, faults, ms);
      var acts := CollectActions(db, faults, ms);
      if acts.actions.Some? {
        HeadCuratorPart(db, faults, u, ms, edits, acts.actions.value);
      }
  }

  /**
   * A profile lists the user, the edits they proposed, the museums they
   * curate and the proposals on those museums; a head curator also gets
   * every museum. Any failed query is a conflict, and nothing changes.
   */
  lemma ProfileMeaning(db: Db, faults: set<Call>, u: User)
    ensures var o := ProfileSteps(db, faults, u);
      o.calls[0] == GetArtifactEdits(u.id) && o.db == db &&
      (!o.response.Success() ==> o.response == Fail(Conflict)) &&
      (o.response.Success() ==>
         var p := o.response.payload;
         p.ProfilePayload? && p.user == u &&
         (forall i :: 0 <= i < |p.edits| ==> p.edits[i].proposer.id == u.id) &&
         (forall i :: 0 <= i < |p.museums| ==> p.museums[i].owner.id == u.id) &&
         (p.headCuratorList.Some? <==> u.id in db.headCurators))
  {
    match ProposedArtifactEditsAnswer(db, faults, u.id)
    case None =>
    case Some(ae) =>
      match ProposedCollectionEditsAnswer(db, faults, u.id)
      case None =>
      case Some(ce) =>
        CuratorPart(db, faults, u, ae + ce);
  }

  // ---------------------------------------------------------------------
  // Deletions.
  // ---------------------------------------------------------------------

  /**
   * Deleting a museum: a missing museum is a conflict; the head-curator
   * check follows; anyone who neither owns the museum nor is a head curator
   * is unauthorized and nothing is removed; otherwise the museum is removed
   * with one call.
   */
  lemma DeleteMuseumDecision(db: Db, faults: set<Call>, u: User, id: int)
    ensures var o := DeleteMuseumSteps(db, faults, u, id);
      (MuseumAnswer(db, faults, id).None? ==> o == Outcome(Fail(Conflict), [GetMuseumObject(id)], db)) &&
      (MuseumAnswer(db, faults, id).Some? ==>
         var m := db.museums[id];
         (HeadCuratorAnswer(db, faults, u) == Some(false) && !IsOwner(u, m) ==>
            o == Outcome(Fail(Unauthorized), [GetMuseumObject(id), CheckHeadCurator(u)], db)) &&
         (HeadCuratorAnswer(db, faults, u).Some? && (IsOwner(u, m) || u.id in db.headCurators) ==>
            o.calls == [GetMuseumObject(id), CheckHeadCurator(u), RemoveMuseumFromDB(m)] &&
            (o.response.Success() <==> RemoveMuseumFromDB(m) !in faults && m.id in db.museums) &&
            (o.response.Success() && db.Valid() ==> id !in o.db.museums))) &&
      (!o.response.Success() ==> o.db == db)
  {
  }

  /**
   * Deleting an artifact: a missing artifact is a conflict; the owner
   * removes it with one call; anyone else saves one proposal to delete it,
   * carrying the collections it belongs to, and the artifact stays.
   */
  lemma DeleteArtifactDecision(db: Db, faults: set<Call>, u: User, id: int)
    ensures var o := DeleteArtifactSteps(db, faults, u, id);
      (ArtifactAnswer(db, faults, id).None? ==> o == Outcome(Fail(Conflict), [GetArtifact(id)], db)) &&
      (ArtifactAnswer(db, faults, id).Some? ==>
         var a := db.artifacts[id];
         (IsOwner(u, a.museum) ==>
            o.calls == [GetArtifact(id), RemoveArtifactInDB(a)] &&
            (o.response.Success() <==> RemoveArtifactInDB(a) !in faults && a.id in db.artifacts) &&
            (o.response.Success() && db.Valid() ==> id !in o.db.artifacts)) &&
         (!IsOwner(u, a.museum) && GetCollectionsByArtifact(id) !in faults ==>
            var e := Proposal(OfArtifact(a, Linked(db, id)), Del, u);
            o.calls == [GetArtifact(id), GetCollectionsByArtifact(id), SaveEditToDB(e)] &&
            (o.response.Success() <==> SaveEditToDB(e) !in faults) &&
            o.db.artifacts == db.artifacts)) &&
      (!o.response.Success() ==> o.db == db)
  {
  }

  // ---------------------------------------------------------------------
  // Every request keeps the store well formed and leaves reviewed edits alone.
  // ---------------------------------------------------------------------

  /** The store after `o` is well formed, and every edit resolved before is unchanged. */
  predicate Keeps(db: Db, o: Outcome) {
    o.db.Valid() && ResolvedKept(db, o.db)
  }

  lemma RegisterKeeps(db: Db, faults: set<Call>, body: Json)
    requires db.Valid()
    ensures Keeps(db, RegisterRoute(db, faults, body))
  {
    ResolvedKeptReflexive(db);
    if RegistrationOf(body).Some? {
      var r := RegistrationOf(body).value;
      SaveUserValid(db, User(UNSAVED, r.username, r.email, r.password));
    }
  }

  lemma ResetKeeps(db: Db, faults: set<Call>, body: Json, newPassword: string)
    requires db.Valid()
    ensures Keeps(db, ResetPasswordRoute(db, faults, body, newPassword))
  {
    ResolvedKeptReflexive(db);
    if ResetUsername(body).Some? && UserAnswer(db, faults, ResetUsername(body).value).Some? {
      var changed := db.users[ResetUsername(body).value].(password := newPassword);
      if UpdateUserOk(db, faults, changed) {
        UpdateUserValid(db, changed);
      }
    }
  }

  lemma AddMuseumKeeps(db: Db, faults: set<Call>, u: User, d: Details)
    requires db.Valid()
    ensures Keeps(db, AddMuseumSteps(db, faults, u, d))
  {
    SaveMuseumValid(db, Museum(UNSAVED, d, u));
    ResolvedKeptReflexive(db);
  }

  lemma ProposeKeeps(db: Db, faults: set<Call>, e: Edit)
    requires db.Valid()
    ensures Keeps(db, Propose(db, faults, e))
  {
    SaveEditValid(db, e);
    ResolvedKeptReflexive(db);
  }

  lemma AddCollectionKeeps(db: Db, faults: set<Call>, u: User, r: NewCollection)
    requires db.Valid()
    ensures Keeps(db, AddCollectionSteps(db, faults, u, r))
  {
    ResolvedKeptReflexive(db);
    if MuseumAnswer(db, faults, r.museumId).Some? {
      var m := db.museums[r.museumId];
      var c := Collection(UNSAVED, r.details, m);
      SaveCollectionValid(db, c);
      ProposeKeeps(db, faults, Proposal(OfCollection(c), Add, u));
    }
  }

  lemma EditCollectionKeeps(db: Db, faults: set<Call>, u: User, r: ChangedCollection)
    requires db.Valid()
    ensures Keeps(db, EditCollectionSteps(db, faults, u, r))
  {
    ResolvedKeptReflexive(db);
    if MuseumAnswer(db, faults, r.museumId).Some? {
      var c := Collection(r.collectionId, r.details, db.museums[r.museumId]);
      if !IsOwner(u, db.museums[r.museumId]) {
        ProposeKeeps(db, faults, Proposal(OfCollection(c), Modify, u));
      } else if UpdateCollectionOk(db, faults, c) {
        UpdateCollectionValid(db, c);
      }
    }
  }

  lemma StoreNewArtifactKeeps(db: Db, faults: set<Call>, a: Artifact, cols: seq<Collection>)
    requires db.Valid()
    ensures Keeps(db, StoreNewArtifact(db, faults, a, cols))
  {
    ResolvedKeptReflexive(db);
    var db1 := SaveArtifact(db, a);
    SaveArtifactValid(db, a);
    LinkAllValid(db1, faults, a.(id := db.nextId), cols);
    ResolvedKeptTransitive(db, db1, LinkAll(db1, faults, a.(id := db.nextId), cols).db);
  }

  lemma AddArtifactKeeps(db: Db, faults: set<Call>, u: User, r: NewArtifact)
    requires db.Valid()
    ensures Keeps(db, AddArtifactSteps(db, faults, u, r))
  {
    ResolvedKeptReflexive(db);
    if MuseumAnswer(db, faults, r.museumId).Some? && r.collectionIds != [] {
      var m := db.museums[r.museumId];
      match LookupAll(db, faults, r.collectionIds)
      case Missing(_) =>
      case Found(cols) =>
        AddFoundArtifactKeeps(db, faults, u, m, r.details, cols);
    }
  }

  lemma AddFoundArtifactKeeps(db: Db, faults: set<Call>, u: User, m: Museum, d: Details, cols: seq<Collection>)
    requires db.Valid()
    ensures Keeps(db, AddFoundArtifact(db, faults, u, m, d, cols))
  {
    if IsOwner(u, m) {
      StoreNewArtifactKeeps(db, faults, Artifact(UNSAVED, d, m), cols);
    } else {
      ProposeKeeps(db, faults, Proposal(OfArtifact(Artifact(UNSAVED, d, m), cols), Add, u));
    }
  }

  lemma StoreChangedArtifactKeeps(db: Db, faults: set<Call>, a: Artifact, cols: seq<Collection>)
    requires db.Valid()
    ensures Keeps(db, StoreChangedArtifact(db, faults, a, cols))
  {
    ResolvedKeptReflexive(db);
    if UpdateArtifactOk(db, faults, a) {
      var db1 := UpdateArtifact(db, a);
      UpdateArtifactValid(db, a);
      if UnlinkOk(db1, faults, a) {
        var db2 := Unlink(db1, a);
        UnlinkValid(db1, a);
        LinkAllValid(db2, faults, a, cols);
        ResolvedKeptTransitive(db, db1, db2);
        ResolvedKeptTransitive(db, db2, LinkAll(db2, faults, a, cols).db);
      }
    }
  }

  lemma EditArtifactKeeps(db: Db, faults: set<Call>, u: User, r: ChangedArtifact)
    requires db.Valid()
    ensures Keeps(db, EditArtifactSteps(db, faults, u, r))
  {
    ResolvedKeptReflexive(db);
    if MuseumAnswer(db, faults, r.museumId).Some? && r.collectionIds != [] {
      var m := db.museums[r.museumId];
      match LookupAll(db, faults, r.collectionIds)
      case Missing(_) =>
      case Found(cols) =>
        EditFoundArtifactKeeps(db, faults, u, m, r, cols);
    }
  }

  lemma EditFoundArtifactKeeps(db: Db, faults: set<Call>, u: User, m: Museum, r: ChangedArtifact, cols: seq<Collection>)
    requires db.Valid()
    ensures Keeps(db, EditFoundArtifact(db, faults, u, m, r, cols))
  {
    ResolvedKeptReflexive(db);
    if ArtifactAnswer(db, faults, r.artifactId).Some? {
      var a := Artifact(r.artifactId, r.details, m);
      if IsOwner(u, m) {
        StoreChangedArtifactKeeps(db, faults, a, cols);
      } else {
        ProposeKeeps(db, faults, Proposal(OfArtifact(a, cols), Modify, u));
      }
    }
  }

  /** Only an edit still under review is ever overwritten, so a resolved one stays as it is. */
  lemma ReviewKeeps(db: Db, faults: set<Call>, u: User, r: ReviewRequest)
    requires db.Valid()
    ensures Keeps(db, ReviewSteps(db, faults, u, r))
  {
    ResolvedKeptReflexive(db);
    var c := CategoryOf(r.category);
    if c == ArtifactCategory || c == CollectionCategory {
      var found := ReviewLookup(db, faults, c, r.editId).0;
      if found.Some? && Review(found.value, u, r.approve).Accept? {
        var e2 := Review(found.value, u, r.approve).updated;
        if UpdateEditOk(db, faults, e2) {
          UpdateEditValid(db, e2);
        }
      }
    }
  }

  lemma DeleteMuseumKeeps(db: Db, faults: set<Call>, u: User, id: int)
    requires db.Valid()
    ensures Keeps(db, DeleteMuseumSteps(db, faults, u, id))
  {
    ResolvedKeptReflexive(db);
    if MuseumAnswer(db, faults, id).Some? {
      RemoveMuseumValid(db, db.museums[id]);
    }
  }

  lemma DeleteArtifactKeeps(db: Db, faults: set<Call>, u: User, id: int)
    requires db.Valid()
    ensures Keeps(db, DeleteArtifactSteps(db, faults, u, id))
  {
    ResolvedKeptReflexive(db);
    if ArtifactAnswer(db, faults, id).Some? {
      var a := db.artifacts[id];
      if IsOwner(u, a.museum) {
        RemoveArtifactValid(db, a);
      } else {
        ProposeKeeps(db, faults, Proposal(OfArtifact(a, Linked(db, id)), Del, u));
      }
    }
  }

  lemma ProfileRouteKeeps(db: Db, faults: set<Call>, body: Json)
    requires db.Valid()
    ensures Keeps(db, ProfileRoute(db, faults, body))
  {
    ResolvedKeptReflexive(db);
  }

  lemma DeleteMuseumRouteKeeps(db: Db, faults: set<Call>, body: Json, id: int)
    requires db.Valid()
    ensures Keeps(db, DeleteMuseumRoute(db, faults, body, id))
  {
    match FlatCredentials(body)
    case None => ResolvedKeptReflexive(db);
    case Some(c) =>
      match Authenticate(db, faults, c)
      case Refused(_) => ResolvedKeptReflexive(db);
      case LoggedIn(u) => DeleteMuseumKeeps(db, faults, u, id);
  }

  lemma DeleteArtifactRouteKeeps(db: Db, faults: set<Call>, body: Json, id: int)
    requires db.Valid()
    ensures Keeps(db, DeleteArtifactRoute(db, faults, body, id))
  {
    match FlatCredentials(body)
    case None => ResolvedKeptReflexive(db);
    case Some(c) =>
      match Authenticate(db, faults, c)
      case Refused(_) => ResolvedKeptReflexive(db);
      case LoggedIn(u) => DeleteArtifactKeeps(db, faults, u, id);
  }

  lemma AccountKeepsStore(db: Db, faults: set<Call>, a: Action, body: Json, newPassword: string)
    requires db.Valid()
    ensures Keeps(db, AccountRequest(db, faults, a, body, newPassword))
  {
    if a.Register? {
      RegisterKeeps(db, faults, body);
    } else if a.UserProfile? {
      ProfileRouteKeeps(db, faults, body);
    } else if a.ResetPassword? {
      ResetKeeps(db, faults, body, newPassword);
    } else {
      ResolvedKeptReflexive(db);
    }
  }

  lemma AddMuseumRouteKeeps(db: Db, faults: set<Call>, body: Json)
    requires db.Valid()
    ensures Keeps(db, AddMuseumRoute(db, faults, body))
  {
    match NewMuseumOf(body)
    case None => ResolvedKeptReflexive(db);
    case Some(r) =>
      match Authenticate(db, faults, r.creds)
      case Refused(_) => ResolvedKeptReflexive(db);
      case LoggedIn(u) => AddMuseumKeeps(db, faults, u, r.details);
  }

  lemma AddCollectionRouteKeeps(db: Db, faults: set<Call>, body: Json)
    requires db.Valid()
    ensures Keeps(db, AddCollectionRoute(db, faults, body))
  {
    match NewCollectionOf(body)
    case None => ResolvedKeptReflexive(db);
    case Some(r) =>
      match Authenticate(db, faults, r.creds)
      case Refused(_) => ResolvedKeptReflexive(db);
      case LoggedIn(u) => AddCollectionKeeps(db, faults, u, r);
  }

  lemma EditCollectionRouteKeeps(db: Db, faults: set<Call>, body: Json)
    requires db.Valid()
    ensures Keeps(db, EditCollectionRoute(db, faults, body))
  {
    match ChangedCollectionOf(body)
    case None => ResolvedKeptReflexive(db);
    case Some(r) =>
      match Authenticate(db, faults, r.creds)
      case Refused(_) => ResolvedKeptReflexive(db);
      case LoggedIn(u) => EditCollectionKeeps(db, faults, u, r);
  }

  lemma AddArtifactRouteKeeps(db: Db, faults: set<Call>, body: Json)
    requires db.Valid()
    ensures Keeps(db, AddArtifactRoute(db, faults, body))
  {
    match NewArtifactOf(body)
    case None => ResolvedKeptReflexive(db);
    case Some(r) =>
      match Authenticate(db, faults, r.creds)
      case Refused(_) => ResolvedKeptReflexive(db);
      case LoggedIn(u) => AddArtifactKeeps(db, faults, u, r);
  }

  lemma EditArtifactRouteKeeps(db: Db, faults: set<Call>, body: Json)
    requires db.Valid()
    ensures Keeps(db, EditArtifactRoute(db, faults, body))
  {
    match ChangedArtifactOf(body)
    case None => ResolvedKeptReflexive(db);
    case Some(r) =>
      match Authenticate(db, faults, r.creds)
      case Refused(_) => ResolvedKeptReflexive(db);
      case LoggedIn(u) => EditArtifactKeeps(db, faults, u, r);
  }

  lemma ReviewRouteKeeps(db: Db, faults: set<Call>, body: Json)
    requires db.Valid()
    ensures Keeps(db, ReviewRoute(db, faults, body))
  {
    match ReviewRequestOf(body)
    case None => ResolvedKeptReflexive(db);
    case Some(r) =>
      match Authenticate(db, faults, r.creds)
      case Refused(_) => ResolvedKeptReflexive(db);
      case LoggedIn(u) => ReviewKeeps(db, faults, u, r);
  }

  lemma CurationKeepsStore(db: Db, faults: set<Call>, a: Action, body: Json)
    requires db.Valid()
    ensures Keeps(db, CurationRequest(db, faults, a, body))
  {
    if a.AddMuseum? {
      assert CurationRequest(db, faults, a, body) == AddMuseumRoute(db, faults, body);
      AddMuseumRouteKeeps(db, faults, body);
    } else if a.AddCollection? {
      assert CurationRequest(db, faults, a, body) == AddCollectionRoute(db, faults, body);
      AddCollectionRouteKeeps(db, faults, body);
    } else if a.EditCollection? {
      assert CurationRequest(db, faults, a, body) == EditCollectionRoute(db, faults, body);
      EditCollectionRouteKeeps(db, faults, body);
    } else if a.AddArtifact? {
      assert CurationRequest(db, faults, a, body) == AddArtifactRoute(db, faults, body);
      AddArtifactRouteKeeps(db, faults, body);
    } else if a.EditArtifact? {
      assert CurationRequest(db, faults, a, body) == EditArtifactRoute(db, faults, body);
      EditArtifactRouteKeeps(db, faults, body);
    } else if a.ReviewEdit? {
      assert CurationRequest(db, faults, a, body) == ReviewRoute(db, faults, body);
      ReviewRouteKeeps(db, faults, body);
    } else {
      ResolvedKeptReflexive(db);
    }
  }

  lemma DeletionKeepsStore(db: Db, faults: set<Call>, a: Action, body: Json)
    requires db.Valid()
    ensures Keeps(db, DeletionRequest(db, faults, a, body))
  {
    if a.DeleteMuseum? {
      DeleteMuseumRouteKeeps(db, faults, body, a.museumId);
    } else if a.DeleteArtifact? {
      DeleteArtifactRouteKeeps(db, faults, body, a.artifactId);
    } else {
      ResolvedKeptReflexive(db);
    }
  }

  lemma PostKeepsStore(db: Db, faults: set<Call>, path: string, body: Json, newPassword: string)
    requires db.Valid()
    ensures Keeps(db, PostRequest(db, faults, path, body, newPassword))
  {
    var a := Route(POST, path);
    if a.MalformedId? || a.NoRoute? {
      ResolvedKeptReflexive(db);
    } else if IsAccountAction(a) {
      AccountKeepsStore(db, faults, a, body, newPassword);
    } else if IsDeletionAction(a) {
      DeletionKeepsStore(db, faults, a, body);
    } else {
      CurationKeepsStore(db, faults, a, body);
    }
  }

  /**
   * Whatever the request, the store stays well formed and an edit that has
   * been approved or rejected is never changed again.
   */
  lemma HandleKeepsStore(db: Db, faults: set<Call>, m: Method, path: string, body: Json, newPassword: string)
    requires db.Valid()
    ensures Keeps(db, Handle(db, faults, m, path, body, newPassword))
  {
    match m
    case GET => GetChangesNothing(db, faults, path); ResolvedKeptReflexive(db);
    case POST => PostKeepsStore(db, faults, path, body, newPassword);
    case PUT => ResolvedKeptReflexive(db);
    case DEL => ResolvedKeptReflexive(db);
  }
}
