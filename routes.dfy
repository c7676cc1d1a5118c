/**
 * What the handler does with each request, as a function of the stored state
 * and the set of storage calls that fail: the response, the exact sequence of
 * storage calls made, and the state afterwards. Every failed storage call
 * stops the request with a conflict.
 */
module Routes {
  import opened Wrappers
  import opened Json
  import opened Http
  import opened Entities
  import opened Auth
  import opened Workflow
  import opened Requests
  import opened Store
  import opened Routing

  datatype Payload =
    | NoContent
    | IndexPage
    | UserSummary(user: User)
    | MuseumsPayload(museums: seq<Museum>)
    | MuseumPayload(museum: Museum, collections: seq<Collection>)
    | CollectionPayload(collection: Collection, artifacts: seq<Artifact>)
    | ArtifactPayload(artifact: Artifact, collections: seq<Collection>)
    | EditPayload(edit: Edit)
    | ProfilePayload(user: User, museums: seq<Museum>, edits: seq<Edit>, actions: seq<Edit>, headCuratorList: Option<seq<Museum>>)

  /** Every response says whether it succeeded; failures carry no payload. */
  datatype Response = Response(status: Status, payload: Payload) {
    predicate Success() { status == OK }
  }

  function Ok(p: Payload): Response { Response(OK, p) }

  function Fail(s: Status): Response { Response(s, NoContent) }

  datatype Outcome = Outcome(response: Response, calls: seq<Call>, db: Db)

  /** Call logs compose associatively: the handler's proofs append one call at a time. */
  lemma AppendCalls(a: seq<Call>, b: seq<Call>, c: seq<Call>)
    ensures (a + b) + c == a + (b + c)
  {
  }

  lemma CallsAssociate()
    ensures forall a: seq<Call>, b: seq<Call>, c: seq<Call> :: (a + b) + c == a + (b + c)
  {
    forall a: seq<Call>, b: seq<Call>, c: seq<Call> ensures (a + b) + c == a + (b + c) {
      AppendCalls(a, b, c);
    }
  }

  /** A request refused before it reaches storage. */
  function Refuse(db: Db, s: Status): (o: Outcome)
    ensures o.calls == [] && o.db == db && !o.response.Success()
    requires s != OK
  {
    Outcome(Fail(s), [], db)
  }

  /** The outcome `o` preceded by the calls already made. */
  function After(prefix: seq<Call>, o: Outcome): (r: Outcome)
    ensures r.response == o.response && r.db == o.db && r.calls == prefix + o.calls
  {
    o.(calls := prefix + o.calls)
  }

  /** The last step of a mutating request: `call` either succeeds with state `after` or is a conflict. */
  function Commit(db: Db, ok: bool, call: Call, after: Db): (o: Outcome)
    ensures o.calls == [call]
    ensures o.response.Success() <==> ok
    ensures o.db == (if ok then after else db)
  {
    if ok then Outcome(Ok(NoContent), [call], after) else Outcome(Fail(Conflict), [call], db)
  }

  /** A change proposed for review: the edit is saved, or the request is a conflict. */
  function Propose(db: Db, faults: set<Call>, e: Edit): (o: Outcome)
    ensures o.calls == [SaveEditToDB(e)]
    ensures o.response.Success() <==> SaveEditOk(faults, e)
    ensures o.db == db.(artifactEdits := o.db.artifactEdits, collectionEdits := o.db.collectionEdits, nextId := o.db.nextId)
  {
    Commit(db, SaveEditOk(faults, e), SaveEditToDB(e), SaveEdit(db, e))
  }

  // ---------------------------------------------------------------------
  // Sequential lookups of collection ids and linking of collections.
  // ---------------------------------------------------------------------

  function LookupCalls(ids: seq<int>): (r: seq<Call>)
    ensures |r| == |ids|
  {
    seq(|ids|, i requires 0 <= i < |ids| => GetCollectionObject(ids[i]))
  }

  datatype Lookup = Found(collections: seq<Collection>) | Missing(at: nat)

  /**
   * Looks the ids up in order and stops at the first that fails. Found: every
   * id was found and the collections are in the ids' order. Missing(k): the
   * ids before k were found and the k-th was not.
   */
  function LookupAll(db: Db, faults: set<Call>, ids: seq<int>): (r: Lookup)
    ensures r.Found? ==> |r.collections| == |ids|
    ensures r.Missing? ==> r.at < |ids|
    decreases |ids|
  {
    if ids == [] then Found([])
    else
      var front := ids[..|ids| - 1];
      match LookupAll(db, faults, front)
      case Missing(k) => Missing(k)
      case Found(cs) =>
        match CollectionAnswer(db, faults, ids[|ids| - 1])
        case None => Missing(|ids| - 1)
        case Some(c) => Found(cs + [c])
  }

  /**
   * What LookupAll finds. Found: every id was found and the collections are
   * in the ids' order. Missing(k): the ids before k were found and the k-th
   * was not. So the lookup is Found exactly when every id can be found.
   */
  lemma {:induction false} LookupAllMeaning(db: Db, faults: set<Call>, ids: seq<int>)
    ensures var r := LookupAll(db, faults, ids);
      (r.Found? ==> forall i :: 0 <= i < |ids| ==> CollectionAnswer(db, faults, ids[i]) == Some(r.collections[i])) &&
      (r.Missing? ==> CollectionAnswer(db, faults, ids[r.at]).None?) &&
      (r.Missing? ==> forall i :: 0 <= i < r.at ==> CollectionAnswer(db, faults, ids[i]).Some?) &&
      (r.Found? <==> forall i :: 0 <= i < |ids| ==> CollectionAnswer(db, faults, ids[i]).Some?)
    decreases |ids|
  {
    if ids != [] {
      var front := ids[..|ids| - 1];
      LookupAllMeaning(db, faults, front);
      assert forall i :: 0 <= i < |front| ==> front[i] == ids[i];
    }
  }

  /** The calls made by LookupAll: up to and including the first failure. */
  function LookupRunCalls(ids: seq<int>, r: Lookup): seq<Call>
    requires r.Missing? ==> r.at < |ids|
  {
    match r
    case Found(_) => LookupCalls(ids)
    case Missing(k) => LookupCalls(ids[..k + 1])
  }

  /** One call per collection, in order. */
  function LinkCalls(a: Artifact, cols: seq<Collection>): (r: seq<Call>)
    ensures |r| == |cols|
  {
    seq(|cols|, i requires 0 <= i < |cols| => AddArtifactCollection(a, cols[i]))
  }

  datatype LinkRun = LinkRun(ok: bool, db: Db, calls: seq<Call>)

  /** Links `a` into each collection in order, stopping at the first refusal; links already made stay. */
  function LinkAll(db: Db, faults: set<Call>, a: Artifact, cols: seq<Collection>): (r: LinkRun)
    ensures r.ok ==> r.calls == LinkCalls(a, cols)
    ensures !r.ok ==> 0 < |r.calls| <= |cols| && r.calls == LinkCalls(a, cols[..|r.calls|])
    decreases |cols|
  {
    if cols == [] then LinkRun(true, db, [])
    else
      var r := LinkAll(db, faults, a, cols[..|cols| - 1]);
      var c := cols[|cols| - 1];
      if !r.ok then r
      else if LinkOk(r.db, faults, a, c) then LinkRun(true, Link(r.db, a, c), r.calls + [AddArtifactCollection(a, c)])
      else LinkRun(false, r.db, r.calls + [AddArtifactCollection(a, c)])
  }

  function LinkOutcome(r: LinkRun): (o: Outcome)
    ensures o.response.Success() <==> r.ok
  {
    Outcome(if r.ok then Ok(NoContent) else Fail(Conflict), r.calls, r.db)
  }

  /** Once a prefix of the ids has a missing collection, the whole list stops there. */
  lemma {:induction false} LookupPrefixStops(db: Db, faults: set<Call>, ids: seq<int>, j: int)
    requires 0 <= j <= |ids| && LookupAll(db, faults, ids[..j]).Missing?
    ensures LookupAll(db, faults, ids) == LookupAll(db, faults, ids[..j])
    decreases |ids| - j
  {
    if j < |ids| {
      var front := ids[..|ids| - 1];
      assert front[..j] == ids[..j];
      LookupPrefixStops(db, faults, front, j);
    } else {
      assert ids[..j] == ids;
    }
  }

  /** Once linking a prefix of the collections is refused, linking the whole list stops there. */
  lemma {:induction false} LinkPrefixStops(db: Db, faults: set<Call>, a: Artifact, cols: seq<Collection>, j: int)
    requires 0 <= j <= |cols| && !LinkAll(db, faults, a, cols[..j]).ok
    ensures LinkAll(db, faults, a, cols) == LinkAll(db, faults, a, cols[..j])
    decreases |cols| - j
  {
    if j < |cols| {
      var front := cols[..|cols| - 1];
      assert front[..j] == cols[..j];
      LinkPrefixStops(db, faults, a, front, j);
    } else {
      assert cols[..j] == cols;
    }
  }

  /** Linking changes nothing but the links. */
  lemma {:induction false} LinkAllOnlyLinks(db: Db, faults: set<Call>, a: Artifact, cols: seq<Collection>)
    ensures LinkAll(db, faults, a, cols).db == db.(links := LinkAll(db, faults, a, cols).db.links)
    decreases |cols|
  {
    if cols != [] {
      LinkAllOnlyLinks(db, faults, a, cols[..|cols| - 1]);
    }
  }

  /** A successful linking leaves the artifact in its earlier collections followed by `cols`, in order. */
  lemma {:induction false} LinkAllLinked(db: Db, faults: set<Call>, a: Artifact, cols: seq<Collection>)
    requires LinkAll(db, faults, a, cols).ok
    ensures Linked(LinkAll(db, faults, a, cols).db, a.id) == Linked(db, a.id) + cols
    decreases |cols|
  {
    if cols != [] {
      var front := cols[..|cols| - 1];
      var c := cols[|cols| - 1];
      LinkAllLinked(db, faults, a, front);
      var r := LinkAll(db, faults, a, front);
      assert Linked(Link(r.db, a, c), a.id) == Linked(r.db, a.id) + [c];
      assert front + [c] == cols;
    }
  }

  /** Linking succeeds whenever the artifact and every collection are stored and no link is refused. */
  lemma {:induction false} LinkAllSucceeds(db: Db, faults: set<Call>, a: Artifact, cols: seq<Collection>)
    requires forall i :: 0 <= i < |cols| ==> LinkOk(db, faults, a, cols[i])
    ensures LinkAll(db, faults, a, cols).ok
    decreases |cols|
  {
    if cols != [] {
      var front := cols[..|cols| - 1];
      assert forall i :: 0 <= i < |front| ==> front[i] == cols[i];
      LinkAllSucceeds(db, faults, a, front);
      LinkAllOnlyLinks(db, faults, a, front);
      assert LinkOk(db, faults, a, cols[|cols| - 1]);
    }
  }

  /** Linking keeps the store well formed and leaves every edit alone. */
  lemma {:induction false} LinkAllValid(db: Db, faults: set<Call>, a: Artifact, cols: seq<Collection>)
    requires db.Valid()
    ensures LinkAll(db, faults, a, cols).db.Valid() && ResolvedKept(db, LinkAll(db, faults, a, cols).db)
    decreases |cols|
  {
    if cols != [] {
      var front := cols[..|cols| - 1];
      LinkAllValid(db, faults, a, front);
      LinkAllOnlyLinks(db, faults, a, front);
      var r := LinkAll(db, faults, a, front);
      if r.ok && LinkOk(r.db, faults, a, cols[|cols| - 1]) {
        LinkValid(r.db, a, cols[|cols| - 1]);
      }
    }
  }

  // ---------------------------------------------------------------------
  // The curator's actions, museum by museum, for the user profile.
  // ---------------------------------------------------------------------

  function ActionCalls(ms: seq<Museum>): (r: seq<Call>)
    ensures |r| == 2 * |ms|
    decreases |ms|
  {
    if ms == [] then [] else [GetArtifactActions(ms[0].id), GetCollectionActions(ms[0].id)] + ActionCalls(ms[1..])
  }

  datatype ActionsRun = ActionsRun(actions: Option<seq<Edit>>, calls: seq<Call>)

  /** One museum more: its artifact actions, then its collection actions, unless a query has failed. */
  function ActionsAfter(db: Db, faults: set<Call>, r: ActionsRun, m: Museum): (next: ActionsRun)
    ensures r.actions.None? ==> next == r
    ensures r.actions.Some? ==> next.calls == r.calls + [GetArtifactActions(m.id)] || next.calls == r.calls + [GetArtifactActions(m.id), GetCollectionActions(m.id)]
    ensures next.actions.Some? ==> next.calls == r.calls + [GetArtifactActions(m.id), GetCollectionActions(m.id)]
  {
    if r.actions.None? then r
    else match ArtifactActionsAnswer(db, faults, m.id)
      case None => ActionsRun(None, r.calls + [GetArtifactActions(m.id)])
      case Some(aa) =>
        match CollectionActionsAnswer(db, faults, m.id)
        case None => ActionsRun(None, r.calls + [GetArtifactActions(m.id), GetCollectionActions(m.id)])
        case Some(ca) => ActionsRun(Some(r.actions.value + aa + ca), r.calls + [GetArtifactActions(m.id), GetCollectionActions(m.id)])
  }

  /** For each museum in turn, its artifact actions then its collection actions; stops at the first failure. */
  function CollectActions(db: Db, faults: set<Call>, ms: seq<Museum>): (r: ActionsRun)
    ensures r.actions.Some? ==> r.calls == ActionCalls(ms)
    decreases |ms|
  {
    if ms == [] then ActionsRun(Some([]), [])
    else
      var front := ms[..|ms| - 1];
      var m := ms[|ms| - 1];
      assert front + [m] == ms;
      ActionCallsAppend(front, m);
      ActionsAfter(db, faults, CollectActions(db, faults, front), m)
  }

  /** Collecting over one museum more is one step of ActionsAfter. */
  lemma CollectActionsSnoc(db: Db, faults: set<Call>, ms: seq<Museum>, i: int)
    requires 0 <= i < |ms|
    ensures CollectActions(db, faults, ms[..i + 1]) == ActionsAfter(db, faults, CollectActions(db, faults, ms[..i]), ms[i])
  {
    assert ms[..i + 1][..i] == ms[..i];
  }

  lemma {:induction false} ActionCallsAppend(ms: seq<Museum>, m: Museum)
    ensures ActionCalls(ms + [m]) == ActionCalls(ms) + [GetArtifactActions(m.id), GetCollectionActions(m.id)]
    decreases |ms|
  {
    if ms != [] {
      assert (ms + [m])[1..] == ms[1..] + [m];
      ActionCallsAppend(ms[1..], m);
    } else {
      assert ms + [m] == [m];
    }
  }

  /** Once a prefix of the museums has a failed query, collecting over the whole list stops there. */
  lemma {:induction false} ActionsPrefixStops(db: Db, faults: set<Call>, ms: seq<Museum>, j: int)
    requires 0 <= j <= |ms| && CollectActions(db, faults, ms[..j]).actions.None?
    ensures CollectActions(db, faults, ms) == CollectActions(db, faults, ms[..j])
    decreases |ms| - j
  {
    if j < |ms| {
      var front := ms[..|ms| - 1];
      assert front[..j] == ms[..j];
      ActionsPrefixStops(db, faults, front, j);
    } else {
      assert ms[..j] == ms;
    }
  }

  // ---------------------------------------------------------------------
  // The GET routes.
  // ---------------------------------------------------------------------

  function MuseumListRoute(db: Db, faults: set<Call>): (o: Outcome)
    ensures o.calls == [GetMuseumList] && o.db == db
    ensures o.response == (if GetMuseumList in faults then Fail(Conflict) else Ok(MuseumsPayload(MuseumListAnswer(db, faults).value)))
  {
    match MuseumListAnswer(db, faults)
    case None => Outcome(Fail(Conflict), [GetMuseumList], db)
    case Some(ms) => Outcome(Ok(MuseumsPayload(ms)), [GetMuseumList], db)
  }

  function MuseumRoute(db: Db, faults: set<Call>, id: int): (o: Outcome)
    ensures o.db == db
  {
    match MuseumAnswer(db, faults, id)
    case None => Outcome(Fail(Conflict), [GetMuseumObject(id)], db)
    case Some(m) =>
      match MuseumCollectionsAnswer(db, faults, id)
      case None => Outcome(Fail(Conflict), [GetMuseumObject(id), GetCollectionListByMuseumID(id)], db)
      case Some(cs) => Outcome(Ok(MuseumPayload(m, cs)), [GetMuseumObject(id), GetCollectionListByMuseumID(id)], db)
  }

  function CollectionRoute(db: Db, faults: set<Call>, id: int): (o: Outcome)
    ensures o.db == db
  {
    match CollectionAnswer(db, faults, id)
    case None => Outcome(Fail(Conflict), [GetCollectionObject(id)], db)
    case Some(c) =>
      match CollectionArtifactsAnswer(db, faults, id)
      case None => Outcome(Fail(Conflict), [GetCollectionObject(id), GetArtifactsByCollection(id)], db)
      case Some(arts) => Outcome(Ok(CollectionPayload(c, arts)), [GetCollectionObject(id), GetArtifactsByCollection(id)], db)
  }

  function ArtifactRoute(db: Db, faults: set<Call>, id: int): (o: Outcome)
    ensures o.db == db
  {
    match ArtifactAnswer(db, faults, id)
    case None => Outcome(Fail(Conflict), [GetArtifact(id)], db)
    case Some(a) =>
      match ArtifactCollectionsAnswer(db, faults, id)
      case None => Outcome(Fail(Conflict), [GetArtifact(id), GetCollectionsByArtifact(id)], db)
      case Some(cs) => Outcome(Ok(ArtifactPayload(a, cs)), [GetArtifact(id), GetCollectionsByArtifact(id)], db)
  }

  /** An edit id names an artifact edit if there is one, and a collection edit otherwise. */
  function EditRoute(db: Db, faults: set<Call>, id: int): (o: Outcome)
    ensures o.db == db
  {
    match ArtifactEditAnswer(db, faults, id)
    case Some(e) => Outcome(Ok(EditPayload(e)), [GetEditArtifactObject(id)], db)
    case None =>
      match CollectionEditAnswer(db, faults, id)
      case None => Outcome(Fail(Conflict), [GetEditArtifactObject(id), GetEditCollectionObject(id)], db)
      case Some(e) => Outcome(Ok(EditPayload(e)), [GetEditArtifactObject(id), GetEditCollectionObject(id)], db)
  }

  // ---------------------------------------------------------------------
  // Login, registration and password reset.
  // ---------------------------------------------------------------------

  function Authenticate(db: Db, faults: set<Call>, c: Credentials): LoginResult {
    CheckLogin(UserAnswer(db, faults, c.username), c.password)
  }

  /** The first step of every protected route: one username lookup. */
  function LoginCalls(c: Credentials): seq<Call> {
    [GetUserObject(c.username)]
  }

  function LoginRoute(db: Db, faults: set<Call>, body: Json): (o: Outcome)
    ensures o.db == db
  {
    match FlatCredentials(body)
    case None => Refuse(db, InternalError)
    case Some(c) =>
      match Authenticate(db, faults, c)
      case Refused(s) => Outcome(Fail(s), LoginCalls(c), db)
      case LoggedIn(u) => Outcome(Ok(UserSummary(u)), LoginCalls(c), db)
  }

  function RegisterRoute(db: Db, faults: set<Call>, body: Json): (o: Outcome)
    ensures RegistrationOf(body).None? ==> o == Refuse(db, InternalError)
    ensures RegistrationOf(body).Some? ==>
              |o.calls| == 1 && o.calls[0].SaveUserToDB? && o.calls[0].user.username == RegistrationOf(body).value.username
  {
    match RegistrationOf(body)
    case None => Refuse(db, InternalError)
    case Some(r) =>
      var u := User(UNSAVED, r.username, r.email, r.password);
      Commit(db, SaveUserOk(db, faults, u), SaveUserToDB(u), SaveUser(db, u))
  }

  /** The user's password becomes `newPassword`; how it is generated and sent is not modelled. */
  function ResetPasswordRoute(db: Db, faults: set<Call>, body: Json, newPassword: string): (o: Outcome)
    ensures ResetUsername(body).None? ==> o == Refuse(db, InternalError)
    ensures ResetUsername(body).Some? ==> |o.calls| > 0 && o.calls[0] == GetUserObject(ResetUsername(body).value)
  {
    match ResetUsername(body)
    case None => Refuse(db, InternalError)
    case Some(name) =>
      match UserAnswer(db, faults, name)
      case None => Outcome(Fail(Conflict), [GetUserObject(name)], db)
      case Some(u) =>
        var changed := u.(password := newPassword);
        After([GetUserObject(name)], Commit(db, UpdateUserOk(db, faults, changed), UpdateUserInDB(changed), UpdateUser(db, changed)))
  }

  // ---------------------------------------------------------------------
  // The protected routes: the body is checked, then the user logged in,
  // then the route's own steps run as that user.
  // ---------------------------------------------------------------------

  /** Runs `steps` as the logged-in user, or stops with the login's refusal. */
  function AsUser(db: Db, faults: set<Call>, c: Credentials, steps: User -> Outcome): (o: Outcome)
    ensures Authenticate(db, faults, c).Refused? ==>
              o == Outcome(Fail(Authenticate(db, faults, c).status), LoginCalls(c), db)
    ensures Authenticate(db, faults, c).LoggedIn? ==>
              o == After(LoginCalls(c), steps(Authenticate(db, faults, c).user))
  {
    match Authenticate(db, faults, c)
    case Refused(s) => Outcome(Fail(s), LoginCalls(c), db)
    case LoggedIn(u) => After(LoginCalls(c), steps(u))
  }

  function AddMuseumSteps(db: Db, faults: set<Call>, u: User, d: Details): (o: Outcome)
    ensures |o.calls| == 1 && o.calls[0].SaveMuseumToDB? && o.calls[0].museum.owner == u && o.calls[0].museum.details == d
  {
    var m := Museum(UNSAVED, d, u);
    Commit(db, SaveMuseumOk(faults, m), SaveMuseumToDB(m), SaveMuseum(db, m))
  }

  function AddMuseumRoute(db: Db, faults: set<Call>, body: Json): (o: Outcome)
    ensures NewMuseumOf(body).None? ==> o == Refuse(db, InternalError)
    ensures NewMuseumOf(body).Some? ==> |o.calls| > 0 && o.calls[0] == GetUserObject(NewMuseumOf(body).value.creds.username)
  {
    match NewMuseumOf(body)
    case None => Refuse(db, InternalError)
    case Some(r) => AsUser(db, faults, r.creds, u => AddMuseumSteps(db, faults, u, r.details))
  }

  /** The owner saves the collection; anyone else proposes it. */
  function AddCollectionSteps(db: Db, faults: set<Call>, u: User, r: NewCollection): (o: Outcome)
    ensures |o.calls| > 0 && o.calls[0] == GetMuseumObject(r.museumId)
  {
    match MuseumAnswer(db, faults, r.museumId)
    case None => Outcome(Fail(Conflict), [GetMuseumObject(r.museumId)], db)
    case Some(m) =>
      var c := Collection(UNSAVED, r.details, m);
      if IsOwner(u, m) then
        After([GetMuseumObject(r.museumId)], Commit(db, SaveCollectionOk(faults, c), SaveCollectionToDB(c), SaveCollection(db, c)))
      else
        var e := Proposal(OfCollection(c), Add, u);
        After([GetMuseumObject(r.museumId)], Propose(db, faults, e))
  }

  function AddCollectionRoute(db: Db, faults: set<Call>, body: Json): (o: Outcome)
    ensures NewCollectionOf(body).None? ==> o == Refuse(db, InternalError)
    ensures NewCollectionOf(body).Some? ==> |o.calls| > 0 && o.calls[0] == GetUserObject(NewCollectionOf(body).value.creds.username)
  {
    match NewCollectionOf(body)
    case None => Refuse(db, InternalError)
    case Some(r) => AsUser(db, faults, r.creds, u => AddCollectionSteps(db, faults, u, r))
  }

  /** The stored collection must exist; the owner updates it, anyone else proposes the change. */
  function EditCollectionSteps(db: Db, faults: set<Call>, u: User, r: ChangedCollection): (o: Outcome)
    ensures |o.calls| > 0 && o.calls[0] == GetMuseumObject(r.museumId)
  {
    match MuseumAnswer(db, faults, r.museumId)
    case None => Outcome(Fail(Conflict), [GetMuseumObject(r.museumId)], db)
    case Some(m) =>
      var looked := [GetMuseumObject(r.museumId), GetCollectionObject(r.collectionId)];
      match CollectionAnswer(db, faults, r.collectionId)
      case None => Outcome(Fail(Conflict), looked, db)
      case Some(_) =>
        var c := Collection(r.collectionId, r.details, m);
        if IsOwner(u, m) then
          After(looked, Commit(db, UpdateCollectionOk(db, faults, c), UpdateCollectionInDB(c), UpdateCollection(db, c)))
        else
          var e := Proposal(OfCollection(c), Modify, u);
          After(looked, Propose(db, faults, e))
  }

  function EditCollectionRoute(db: Db, faults: set<Call>, body: Json): (o: Outcome)
    ensures ChangedCollectionOf(body).None? ==> o == Refuse(db, InternalError)
    ensures ChangedCollectionOf(body).Some? ==> |o.calls| > 0 && o.calls[0] == GetUserObject(ChangedCollectionOf(body).value.creds.username)
  {
    match ChangedCollectionOf(body)
    case None => Refuse(db, InternalError)
    case Some(r) => AsUser(db, faults, r.creds, u => EditCollectionSteps(db, faults, u, r))
  }

  /** The owner's new artifact, once saved, is linked to each collection in turn. */
  function StoreNewArtifact(db: Db, faults: set<Call>, a: Artifact, cols: seq<Collection>): (o: Outcome)
    ensures |o.calls| > 0 && o.calls[0] == SaveArtifactToDB(a)
  {
    if !SaveArtifactOk(faults, a) then Outcome(Fail(Conflict), [SaveArtifactToDB(a)], db)
    else
      var saved := a.(id := db.nextId);
      After([SaveArtifactToDB(a)], LinkOutcome(LinkAll(SaveArtifact(db, a), faults, saved, cols)))
  }

  /** With the museum and every collection found, the owner stores the artifact and anyone else proposes it. */
  function AddFoundArtifact(db: Db, faults: set<Call>, u: User, m: Museum, d: Details, cols: seq<Collection>): (o: Outcome)
    ensures IsOwner(u, m) ==> |o.calls| > 0 && o.calls[0] == SaveArtifactToDB(Artifact(UNSAVED, d, m))
    ensures !IsOwner(u, m) ==> o.db == db.(artifactEdits := o.db.artifactEdits, collectionEdits := o.db.collectionEdits, nextId := o.db.nextId)
  {
    var a := Artifact(UNSAVED, d, m);
    if IsOwner(u, m) then StoreNewArtifact(db, faults, a, cols)
    else Propose(db, faults, Proposal(OfArtifact(a, cols), Add, u))
  }

  /**
   * The museum is looked up, an empty collection list is refused, every
   * collection is looked up; then the artifact is added.
   */
  function AddArtifactSteps(db: Db, faults: set<Call>, u: User, r: NewArtifact): (o: Outcome)
    ensures |o.calls| > 0 && o.calls[0] == GetMuseumObject(r.museumId)
  {
    match MuseumAnswer(db, faults, r.museumId)
    case None => Outcome(Fail(Conflict), [GetMuseumObject(r.museumId)], db)
    case Some(m) =>
      if r.collectionIds == [] then Outcome(Fail(Conflict), [GetMuseumObject(r.museumId)], db)
      else
        var found := LookupAll(db, faults, r.collectionIds);
        var looked := [GetMuseumObject(r.museumId)] + LookupRunCalls(r.collectionIds, found);
        match found
        case Missing(_) => Outcome(Fail(Conflict), looked, db)
        case Found(cols) => After(looked, AddFoundArtifact(db, faults, u, m, r.details, cols))
  }

  function AddArtifactRoute(db: Db, faults: set<Call>, body: Json): (o: Outcome)
    ensures NewArtifactOf(body).None? ==> o == Refuse(db, InternalError)
    ensures NewArtifactOf(body).Some? ==> |o.calls| > 0 && o.calls[0] == GetUserObject(NewArtifactOf(body).value.creds.username)
  {
    match NewArtifactOf(body)
    case None => Refuse(db, InternalError)
    case Some(r) => AsUser(db, faults, r.creds, u => AddArtifactSteps(db, faults, u, r))
  }

  /** The owner's update: the artifact row, then its links are cleared and made again. */
  function StoreChangedArtifact(db: Db, faults: set<Call>, a: Artifact, cols: seq<Collection>): (o: Outcome)
    ensures |o.calls| > 0 && o.calls[0] == UpdateArtifactInDB(a)
  {
    if !UpdateArtifactOk(db, faults, a) then Outcome(Fail(Conflict), [UpdateArtifactInDB(a)], db)
    else
      var updated := UpdateArtifact(db, a);
      if !UnlinkOk(updated, faults, a) then Outcome(Fail(Conflict), [UpdateArtifactInDB(a), RemoveArtifactCollection(a)], updated)
      else After([UpdateArtifactInDB(a), RemoveArtifactCollection(a)], LinkOutcome(LinkAll(Unlink(updated, a), faults, a, cols)))
  }

  /** With the museum and every collection found: the stored artifact must exist; the owner updates it, anyone else proposes the change. */
  function EditFoundArtifact(db: Db, faults: set<Call>, u: User, m: Museum, r: ChangedArtifact, cols: seq<Collection>): (o: Outcome)
    ensures |o.calls| > 0 && o.calls[0] == GetArtifact(r.artifactId)
    ensures !IsOwner(u, m) ==> o.db == db.(artifactEdits := o.db.artifactEdits, collectionEdits := o.db.collectionEdits, nextId := o.db.nextId)
  {
    match ArtifactAnswer(db, faults, r.artifactId)
    case None => Outcome(Fail(Conflict), [GetArtifact(r.artifactId)], db)
    case Some(_) =>
      var a := Artifact(r.artifactId, r.details, m);
      After([GetArtifact(r.artifactId)],
        if IsOwner(u, m) then StoreChangedArtifact(db, faults, a, cols)
        else Propose(db, faults, Proposal(OfArtifact(a, cols), Modify, u)))
  }

  /** As for adding, and the stored artifact must exist before anything changes. */
  function EditArtifactSteps(db: Db, faults: set<Call>, u: User, r: ChangedArtifact): (o: Outcome)
    ensures |o.calls| > 0 && o.calls[0] == GetMuseumObject(r.museumId)
  {
    match MuseumAnswer(db, faults, r.museumId)
    case None => Outcome(Fail(Conflict), [GetMuseumObject(r.museumId)], db)
    case Some(m) =>
      if r.collectionIds == [] then Outcome(Fail(Conflict), [GetMuseumObject(r.museumId)], db)
      else
        var found := LookupAll(db, faults, r.collectionIds);
        var looked := [GetMuseumObject(r.museumId)] + LookupRunCalls(r.collectionIds, found);
        match found
        case Missing(_) => Outcome(Fail(Conflict), looked, db)
        case Found(cols) => After(looked, EditFoundArtifact(db, faults, u, m, r, cols))
  }

  function EditArtifactRoute(db: Db, faults: set<Call>, body: Json): (o: Outcome)
    ensures ChangedArtifactOf(body).None? ==> o == Refuse(db, InternalError)
    ensures ChangedArtifactOf(body).Some? ==> |o.calls| > 0 && o.calls[0] == GetUserObject(ChangedArtifactOf(body).value.creds.username)
  {
    match ChangedArtifactOf(body)
    case None => Refuse(db, InternalError)
    case Some(r) => AsUser(db, faults, r.creds, u => EditArtifactSteps(db, faults, u, r))
  }

  /** The stored edit a review looks up, and the lookup call, for the two reviewable categories. */
  function ReviewLookup(db: Db, faults: set<Call>, c: Category, id: int): (r: (Option<Edit>, Call))
    requires c == ArtifactCategory || c == CollectionCategory
  {
    if c == ArtifactCategory then (ArtifactEditAnswer(db, faults, id), GetEditArtifactObject(id))
    else (CollectionEditAnswer(db, faults, id), GetEditCollectionObject(id))
  }

  /** The category is judged, the edit looked up and reviewed, and the verdict stored. */
  function ReviewSteps(db: Db, faults: set<Call>, u: User, r: ReviewRequest): (o: Outcome)
    ensures CategoryOf(r.category) == MuseumCategory ==> o == Outcome(Fail(NotImplemented), [], db)
    ensures CategoryOf(r.category) == UnknownCategory ==> o == Outcome(Fail(InternalError), [], db)
    ensures o.db == db.(artifactEdits := o.db.artifactEdits, collectionEdits := o.db.collectionEdits)
  {
    var c := CategoryOf(r.category);
    if c == MuseumCategory || c == UnknownCategory then Outcome(Fail(CategoryRefusal(c)), [], db)
    else
      var (found, lookup) := ReviewLookup(db, faults, c, r.editId);
      match found
      case None => Outcome(Fail(Conflict), [lookup], db)
      case Some(e) =>
        match Review(e, u, r.approve)
        case Deny(s) => Outcome(Fail(s), [lookup], db)
        case Accept(e2) => After([lookup], Commit(db, UpdateEditOk(db, faults, e2), UpdateEditInDB(e2), UpdateEdit(db, e2)))
  }

  function ReviewRoute(db: Db, faults: set<Call>, body: Json): (o: Outcome)
    ensures ReviewRequestOf(body).None? ==> o == Refuse(db, InternalError)
    ensures ReviewRequestOf(body).Some? ==> |o.calls| > 0 && o.calls[0] == GetUserObject(ReviewRequestOf(body).value.creds.username)
  {
    match ReviewRequestOf(body)
    case None => Refuse(db, InternalError)
    case Some(r) => AsUser(db, faults, r.creds, u => ReviewSteps(db, faults, u, r))
  }

  /** The last part of the profile: every museum, for a head curator only. */
  function HeadCuratorProfile(db: Db, faults: set<Call>, u: User, ms: seq<Museum>, edits: seq<Edit>, actions: seq<Edit>): (o: Outcome)
    ensures o.db == db
  {
    match HeadCuratorAnswer(db, faults, u)
    case None => Outcome(Fail(Conflict), [CheckHeadCurator(u)], db)
    case Some(false) => Outcome(Ok(ProfilePayload(u, ms, edits, actions, None)), [CheckHeadCurator(u)], db)
    case Some(true) =>
      match MuseumListAnswer(db, faults)
      case None => Outcome(Fail(Conflict), [CheckHeadCurator(u), GetMuseumList], db)
      case Some(all) => Outcome(Ok(ProfilePayload(u, ms, edits, actions, Some(all))), [CheckHeadCurator(u), GetMuseumList], db)
  }

  /** The museums the user curates and the proposals on them, then the head-curator part. */
  function CuratorProfile(db: Db, faults: set<Call>, u: User, edits: seq<Edit>): (o: Outcome)
    ensures o.db == db
  {
    match CuratedAnswer(db, faults, u.id)
    case None => Outcome(Fail(Conflict), [GetMuseumByCurator(u.id)], db)
    case Some(ms) =>
      var acts := CollectActions(db, faults, ms);
      match acts.actions
      case None => Outcome(Fail(Conflict), [GetMuseumByCurator(u.id)] + acts.calls, db)
      case Some(actions) => After([GetMuseumByCurator(u.id)] + acts.calls, HeadCuratorProfile(db, faults, u, ms, edits, actions))
  }

  /**
   * The profile: the user's own proposals, the museums they curate and the
   * proposals on those museums, and, for a head curator only, every museum.
   */
  function ProfileSteps(db: Db, faults: set<Call>, u: User): (o: Outcome)
    ensures o.db == db
  {
    match ProposedArtifactEditsAnswer(db, faults, u.id)
    case None => Outcome(Fail(Conflict), [GetArtifactEdits(u.id)], db)
    case Some(ae) =>
      match ProposedCollectionEditsAnswer(db, faults, u.id)
      case None => Outcome(Fail(Conflict), [GetArtifactEdits(u.id), GetCollectionEdits(u.id)], db)
      case Some(ce) => After([GetArtifactEdits(u.id), GetCollectionEdits(u.id)], CuratorProfile(db, faults, u, ae + ce))
  }

  function ProfileRoute(db: Db, faults: set<Call>, body: Json): (o: Outcome)
    ensures FlatCredentials(body).None? ==> o == Refuse(db, InternalError)
    ensures FlatCredentials(body).Some? ==> |o.calls| > 0 && o.calls[0] == GetUserObject(FlatCredentials(body).value.username)
  {
    match FlatCredentials(body)
    case None => Refuse(db, InternalError)
    case Some(c) => AsUser(db, faults, c, u => ProfileSteps(db, faults, u))
  }

  /** The owner or a head curator removes the museum; anyone else is unauthorized. */
  function DeleteMuseumSteps(db: Db, faults: set<Call>, u: User, id: int): (o: Outcome)
    ensures |o.calls| > 0 && o.calls[0] == GetMuseumObject(id)
    ensures o.db == db || (id in db.museums && o.db == RemoveMuseum(db, db.museums[id]))
  {
    match MuseumAnswer(db, faults, id)
    case None => Outcome(Fail(Conflict), [GetMuseumObject(id)], db)
    case Some(m) =>
      var checked := [GetMuseumObject(id), CheckHeadCurator(u)];
      match HeadCuratorAnswer(db, faults, u)
      case None => Outcome(Fail(Conflict), checked, db)
      case Some(head) =>
        if IsOwner(u, m) || head then
          After(checked, Commit(db, RemoveMuseumOk(db, faults, m), RemoveMuseumFromDB(m), RemoveMuseum(db, m)))
        else Outcome(Fail(Unauthorized), checked, db)
  }

  function DeleteMuseumRoute(db: Db, faults: set<Call>, body: Json, id: int): (o: Outcome)
    ensures FlatCredentials(body).None? ==> o == Refuse(db, InternalError)
    ensures FlatCredentials(body).Some? ==> |o.calls| > 0 && o.calls[0] == GetUserObject(FlatCredentials(body).value.username)
  {
    match FlatCredentials(body)
    case None => Refuse(db, InternalError)
    case Some(c) => AsUser(db, faults, c, u => DeleteMuseumSteps(db, faults, u, id))
  }

  /** The owner removes the artifact; anyone else proposes its deletion, with its current collections. */
  function DeleteArtifactSteps(db: Db, faults: set<Call>, u: User, id: int): (o: Outcome)
    ensures |o.calls| > 0 && o.calls[0] == GetArtifact(id)
  {
    match ArtifactAnswer(db, faults, id)
    case None => Outcome(Fail(Conflict), [GetArtifact(id)], db)
    case Some(a) =>
      if IsOwner(u, a.museum) then
        After([GetArtifact(id)], Commit(db, RemoveArtifactOk(db, faults, a), RemoveArtifactInDB(a), RemoveArtifact(db, a)))
      else
        match ArtifactCollectionsAnswer(db, faults, id)
        case None => Outcome(Fail(Conflict), [GetArtifact(id), GetCollectionsByArtifact(id)], db)
        case Some(cols) =>
          var e := Proposal(OfArtifact(a, cols), Del, u);
          After([GetArtifact(id), GetCollectionsByArtifact(id)], Propose(db, faults, e))
  }

  function DeleteArtifactRoute(db: Db, faults: set<Call>, body: Json, id: int): (o: Outcome)
    ensures FlatCredentials(body).None? ==> o == Refuse(db, InternalError)
    ensures FlatCredentials(body).Some? ==> |o.calls| > 0 && o.calls[0] == GetUserObject(FlatCredentials(body).value.username)
  {
    match FlatCredentials(body)
    case None => Refuse(db, InternalError)
    case Some(c) => AsUser(db, faults, c, u => DeleteArtifactSteps(db, faults, u, id))
  }

  // ---------------------------------------------------------------------
  // The whole handler.
  // ---------------------------------------------------------------------

  /** The GET routes: the API under /request, and the frontend's page for every other path. */
  function GetRequest(db: Db, faults: set<Call>, path: string): Outcome {
    match Route(GET, path)
    case MuseumList => MuseumListRoute(db, faults)
    case MuseumById(id) => MuseumRoute(db, faults, id)
    case CollectionById(id) => CollectionRoute(db, faults, id)
    case ArtifactById(id) => ArtifactRoute(db, faults, id)
    case EditById(id) => EditRoute(db, faults, id)
    case MalformedId => Refuse(db, InternalError)
    case _ => Outcome(Ok(IndexPage), [], db)
  }

  /** The account routes: login, registration, the user profile and the password reset. */
  function AccountRequest(db: Db, faults: set<Call>, a: Action, body: Json, newPassword: string): Outcome {
    if a.Login? then LoginRoute(db, faults, body)
    else if a.Register? then RegisterRoute(db, faults, body)
    else if a.UserProfile? then ProfileRoute(db, faults, body)
    else if a.ResetPassword? then ResetPasswordRoute(db, faults, body, newPassword)
    else Refuse(db, NotFound)
  }

  /** The curation routes: adding and changing museums, collections and artifacts, and reviewing edits. */
  function CurationRequest(db: Db, faults: set<Call>, a: Action, body: Json): Outcome {
    if a.AddMuseum? then AddMuseumRoute(db, faults, body)
    else if a.AddCollection? then AddCollectionRoute(db, faults, body)
    else if a.EditCollection? then EditCollectionRoute(db, faults, body)
    else if a.AddArtifact? then AddArtifactRoute(db, faults, body)
    else if a.EditArtifact? then EditArtifactRoute(db, faults, body)
    else if a.ReviewEdit? then ReviewRoute(db, faults, body)
    else Refuse(db, NotFound)
  }

  /** The deletion routes, with the id taken from the path. */
  function DeletionRequest(db: Db, faults: set<Call>, a: Action, body: Json): Outcome {
    if a.DeleteMuseum? then DeleteMuseumRoute(db, faults, body, a.museumId)
    else if a.DeleteArtifact? then DeleteArtifactRoute(db, faults, body, a.artifactId)
    else Refuse(db, NotFound)
  }

  predicate IsAccountAction(a: Action) {
    a.Login? || a.Register? || a.UserProfile? || a.ResetPassword?
  }

  predicate IsDeletionAction(a: Action) {
    a.DeleteMuseum? || a.DeleteArtifact?
  }

  /** The POST routes: a malformed id is a 500 and an unknown path a 404, before anything else. */
  function PostRequest(db: Db, faults: set<Call>, path: string, body: Json, newPassword: string): Outcome {
    var a := Route(POST, path);
    if a.MalformedId? then Refuse(db, InternalError)
    else if a.NoRoute? then Refuse(db, NotFound)
    else if IsAccountAction(a) then AccountRequest(db, faults, a, body, newPassword)
    else if IsDeletionAction(a) then DeletionRequest(db, faults, a, body)
    else CurationRequest(db, faults, a, body)
  }

  /** The outcome of one request; `newPassword` is the password a reset assigns. PUT and DELETE have no routes. */
  function Handle(db: Db, faults: set<Call>, m: Method, path: string, body: Json, newPassword: string): Outcome {
    match m
    case GET => GetRequest(db, faults, path)
    case POST => PostRequest(db, faults, path, body, newPassword)
    case PUT => Refuse(db, NotFound)
    case DEL => Refuse(db, NotFound)
  }
}
