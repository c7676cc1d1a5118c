/**
 * The request handler: it holds the storage gateway and answers each request
 * by calling the gateway step by step. Every method is proved to give the
 * response, make the storage calls and leave the state that Routes
 * prescribes for the request.
 */
module Handlers {
  import opened Wrappers
  import opened Json
  import opened Http
  import opened Entities
  import opened Auth
  import opened Workflow
  import opened Requests
  import opened Routing
  import opened Gateway
  import Store
  import opened Routes

  class Handler {
    const model: ModelGateway

    constructor (model: ModelGateway)
      ensures this.model == model
    {
      this.model := model;
    }

    // --- dispatch ---------------------------------------------------------

    /** GET: the API routes under /request, and the frontend's page for everything else. */
    method HandleGet(path: string) returns (r: Response)
      modifies model
      ensures var o := GetRequest(old(model.db), model.faults, path);
        r == o.response && model.log == old(model.log) + o.calls && model.db == o.db
    {
      match Route(GET, path)
      case MuseumList => r := ReturnMuseumList();
      case MuseumById(id) => r := ReturnMuseumById(id);
      case CollectionById(id) => r := ReturnCollectionById(id);
      case ArtifactById(id) => r := ReturnArtifactById(id);
      case EditById(id) => r := ReturnEditById(id);
      case MalformedId => r := Fail(InternalError);
      case _ => r := Ok(IndexPage);
    }

    /** PUT has no routes. */
    method HandlePut(path: string) returns (r: Response)
      ensures r == Routes.Handle(model.db, model.faults, PUT, path, Null, []).response
      ensures r == Fail(NotFound)
    {
      r := Fail(NotFound);
    }

    /** DELETE has no routes; deletions are POST requests. */
    method HandleDelete(path: string) returns (r: Response)
      ensures r == Routes.Handle(model.db, model.faults, DEL, path, Null, []).response
      ensures r == Fail(NotFound)
    {
      r := Fail(NotFound);
    }

    /** POST: the account, curation and deletion routes. */
    method HandlePost(path: string, body: Json, newPassword: string) returns (r: Response)
      modifies model
      ensures var o := PostRequest(old(model.db), model.faults, path, body, newPassword);
        r == o.response && model.log == old(model.log) + o.calls && model.db == o.db
    {
      var a := Route(POST, path);
      if a.MalformedId? {
        r := Fail(InternalError);
      } else if a.NoRoute? {
        r := Fail(NotFound);
      } else if IsAccountAction(a) {
        r := HandleAccount(a, body, newPassword);
      } else if IsDeletionAction(a) {
        r := HandleDeletion(a, body);
      } else {
        r := HandleCuration(a, body);
      }
    }

    method HandleAccount(a: Action, body: Json, newPassword: string) returns (r: Response)
      modifies model
      ensures var o := AccountRequest(old(model.db), model.faults, a, body, newPassword);
        r == o.response && model.log == old(model.log) + o.calls && model.db == o.db
    {
      match a
      case Login => r := ValidateLogin(body);
      case Register => r := AddUser(body);
      case UserProfile => r := GetUserProfile(body);
      case ResetPassword => r := ResetPassword(body, newPassword);
      case _ => r := Fail(NotFound);
    }

    method HandleCuration(a: Action, body: Json) returns (r: Response)
      modifies model
      ensures var o := CurationRequest(old(model.db), model.faults, a, body);
        r == o.response && model.log == old(model.log) + o.calls && model.db == o.db
    {
      match a
      case AddMuseum => r := AddMuseum(body);
      case AddCollection => r := AddCollection(body);
      case EditCollection => r := EditCollection(body);
      case AddArtifact => r := AddArtifact(body);
      case EditArtifact => r := EditArtifact(body);
      case ReviewEdit => r := ReviewEdit(body);
      case _ => r := Fail(NotFound);
    }

    method HandleDeletion(a: Action, body: Json) returns (r: Response)
      modifies model
      ensures var o := DeletionRequest(old(model.db), model.faults, a, body);
        r == o.response && model.log == old(model.log) + o.calls && model.db == o.db
    {
      match a
      case DeleteMuseum(id) => r := DeleteMuseum(body, id);
      case DeleteArtifact(id) => r := DeleteArtifact(body, id);
      case _ => r := Fail(NotFound);
    }

    // --- GET routes ---------------------------------------------------------

    method ReturnMuseumList() returns (r: Response)
      modifies model
      ensures var o := MuseumListRoute(old(model.db), model.faults);
        r == o.response && model.log == old(model.log) + o.calls && model.db == o.db
    {
      CallsAssociate();
      var ms := model.GetMuseumList();
      r := if ms.None? then Fail(Conflict) else Ok(MuseumsPayload(ms.value));
    }

    method ReturnMuseumById(id: int) returns (r: Response)
      modifies model
      ensures var o := MuseumRoute(old(model.db), model.faults, id);
        r == o.response && model.log == old(model.log) + o.calls && model.db == o.db
    {
      CallsAssociate();
      var m := model.GetMuseumObject(id);
      if m.None? {
        return Fail(Conflict);
      }
      var cs := model.GetCollectionListByMuseumID(id);
      r := if cs.None? then Fail(Conflict) else Ok(MuseumPayload(m.value, cs.value));
    }

    method ReturnCollectionById(id: int) returns (r: Response)
      modifies model
      ensures var o := CollectionRoute(old(model.db), model.faults, id);
        r == o.response && model.log == old(model.log) + o.calls && model.db == o.db
    {
      CallsAssociate();
      var c := model.GetCollectionObject(id);
      if c.None? {
        return Fail(Conflict);
      }
      var arts := model.GetArtifactsByCollection(id);
      r := if arts.None? then Fail(Conflict) else Ok(CollectionPayload(c.value, arts.value));
    }

    method ReturnArtifactById(id: int) returns (r: Response)
      modifies model
      ensures var o := ArtifactRoute(old(model.db), model.faults, id);
        r == o.response && model.log == old(model.log) + o.calls && model.db == o.db
    {
      CallsAssociate();
      var a := model.GetArtifact(id);
      if a.None? {
        return Fail(Conflict);
      }
      var cs := model.GetCollectionsByArtifact(id);
      r := if cs.None? then Fail(Conflict) else Ok(ArtifactPayload(a.value, cs.value));
    }

    method ReturnEditById(id: int) returns (r: Response)
      modifies model
      ensures var o := EditRoute(old(model.db), model.faults, id);
        r == o.response && model.log == old(model.log) + o.calls && model.db == o.db
    {
      CallsAssociate();
      var e := model.GetEditArtifactObject(id);
      if e.Some? {
        return Ok(EditPayload(e.value));
      }
      e := model.GetEditCollectionObject(id);
      r := if e.None? then Fail(Conflict) else Ok(EditPayload(e.value));
    }

    // --- login, registration, password reset ------------------------------

    /** The login every protected route starts with. */
    method LogIn(c: Credentials) returns (res: LoginResult)
      modifies model
      ensures res == Authenticate(old(model.db), model.faults, c)
      ensures model.db == old(model.db) && model.log == old(model.log) + LoginCalls(c)
    {
      CallsAssociate();
      var found := model.GetUserObject(c.username);
      res := CheckLogin(found, c.password);
    }

    method ValidateLogin(body: Json) returns (r: Response)
      modifies model
      ensures var o := LoginRoute(old(model.db), model.faults, body);
        r == o.response && model.log == old(model.log) + o.calls && model.db == o.db
    {
      CallsAssociate();
      var c := FlatCredentials(body);
      if c.None? {
        return Fail(InternalError);
      }
      var login := LogIn(c.value);
      r := if login.Refused? then Fail(login.status) else Ok(UserSummary(login.user));
    }

    method AddUser(body: Json) returns (r: Response)
      modifies model
      ensures var o := RegisterRoute(old(model.db), model.faults, body);
        r == o.response && model.log == old(model.log) + o.calls && model.db == o.db
    {
      CallsAssociate();
      var reg := RegistrationOf(body);
      if reg.None? {
        return Fail(InternalError);
      }
      var ok := model.SaveUserToDB(User(UNSAVED, reg.value.username, reg.value.email, reg.value.password));
      r := if ok then Ok(NoContent) else Fail(Conflict);
    }

    method ResetPassword(body: Json, newPassword: string) returns (r: Response)
      modifies model
      ensures var o := ResetPasswordRoute(old(model.db), model.faults, body, newPassword);
        r == o.response && model.log == old(model.log) + o.calls && model.db == o.db
    {
      CallsAssociate();
      var name := ResetUsername(body);
      if name.None? {
        return Fail(InternalError);
      }
      var u := model.GetUserObject(name.value);
      if u.None? {
        return Fail(Conflict);
      }
      var ok := model.UpdateUserInDB(u.value.(password := newPassword));
      r := if ok then Ok(NoContent) else Fail(Conflict);
    }

    // --- museums and collections ---------------------------------------------

    method AddMuseum(body: Json) returns (r: Response)
      modifies model
      ensures var o := AddMuseumRoute(old(model.db), model.faults, body);
        r == o.response && model.log == old(model.log) + o.calls && model.db == o.db
    {
      CallsAssociate();
      var req := NewMuseumOf(body);
      if req.None? {
        return Fail(InternalError);
      }
      var login := LogIn(req.value.creds);
      if login.Refused? {
        return Fail(login.status);
      }
      var ok := model.SaveMuseumToDB(Museum(UNSAVED, req.value.details, login.user));
      r := if ok then Ok(NoContent) else Fail(Conflict);
    }

    method AddCollection(body: Json) returns (r: Response)
      modifies model
      ensures var o := AddCollectionRoute(old(model.db), model.faults, body);
        r == o.response && model.log == old(model.log) + o.calls && model.db == o.db
    {
      CallsAssociate();
      var req := NewCollectionOf(body);
      if req.None? {
        return Fail(InternalError);
      }
      var login := LogIn(req.value.creds);
      if login.Refused? {
        return Fail(login.status);
      }
      r := AddCollectionAs(login.user, req.value);
    }

    method AddCollectionAs(u: User, req: NewCollection) returns (r: Response)
      modifies model
      ensures var o := AddCollectionSteps(old(model.db), model.faults, u, req);
        r == o.response && model.log == old(model.log) + o.calls && model.db == o.db
    {
      CallsAssociate();
      var m := model.GetMuseumObject(req.museumId);
      if m.None? {
        return Fail(Conflict);
      }
      var c := Collection(UNSAVED, req.details, m.value);
      var ok;
      if IsOwner(u, m.value) {
        ok := model.SaveCollectionToDB(c);
      } else {
        ok := model.SaveEditToDB(Proposal(OfCollection(c), Add, u));
      }
      r := if ok then Ok(NoContent) else Fail(Conflict);
    }

    method EditCollection(body: Json) returns (r: Response)
      modifies model
      ensures var o := EditCollectionRoute(old(model.db), model.faults, body);
        r == o.response && model.log == old(model.log) + o.calls && model.db == o.db
    {
      CallsAssociate();
      var req := ChangedCollectionOf(body);
      if req.None? {
        return Fail(InternalError);
      }
      var login := LogIn(req.value.creds);
      if login.Refused? {
        return Fail(login.status);
      }
      r := EditCollectionAs(login.user, req.value);
    }

    method EditCollectionAs(u: User, req: ChangedCollection) returns (r: Response)
      modifies model
      ensures var o := EditCollectionSteps(old(model.db), model.faults, u, req);
        r == o.response && model.log == old(model.log) + o.calls && model.db == o.db
    {
      CallsAssociate();
      var m := model.GetMuseumObject(req.museumId);
      if m.None? {
        return Fail(Conflict);
      }
      var stored := model.GetCollectionObject(req.collectionId);
      if stored.None? {
        return Fail(Conflict);
      }
      var c := Collection(req.collectionId, req.details, m.value);
      var ok;
      if IsOwner(u, m.value) {
        ok := model.UpdateCollectionInDB(c);
      } else {
        ok := model.SaveEditToDB(Proposal(OfCollection(c), Modify, u));
      }
      r := if ok then Ok(NoContent) else Fail(Conflict);
    }

    // --- artifacts ---------------------------------------------------------

    /** Looks the collection ids up one by one, stopping at the first that fails. */
    method LookUpCollections(ids: seq<int>) returns (found: Lookup)
      modifies model
      ensures found == LookupAll(old(model.db), model.faults, ids)
      ensures found.Missing? ==> found.at < |ids|
      ensures model.db == old(model.db) && model.log == old(model.log) + LookupRunCalls(ids, found)
    {
      var cols: seq<Collection> := [];
      var i := 0;
      while i < |ids|
        invariant 0 <= i <= |ids|
        invariant model.db == old(model.db)
        invariant LookupAll(model.db, model.faults, ids[..i]) == Found(cols)
        invariant model.log == old(model.log) + LookupCalls(ids[..i])
      {
        AppendCalls(old(model.log), LookupCalls(ids[..i]), [Store.GetCollectionObject(ids[i])]);
        var c := model.GetCollectionObject(ids[i]);
        assert ids[..i + 1][..i] == ids[..i];
        assert LookupCalls(ids[..i]) + [Store.GetCollectionObject(ids[i])] == LookupCalls(ids[..i + 1]);
        if c.None? {
          assert LookupAll(model.db, model.faults, ids[..i + 1]) == Missing(i);
          LookupPrefixStops(model.db, model.faults, ids, i + 1);
          return Missing(i);
        }
        cols := cols + [c.value];
        i := i + 1;
      }
      assert ids[..i] == ids;
      found := Found(cols);
    }

    /** Links the artifact into each collection in turn, stopping at the first refusal. */
    method LinkEach(a: Artifact, cols: seq<Collection>) returns (ok: bool)
      modifies model
      ensures var run := LinkAll(old(model.db), model.faults, a, cols);
        ok == run.ok && model.db == run.db && model.log == old(model.log) + run.calls
    {
      var i := 0;
      while i < |cols|
        invariant 0 <= i <= |cols|
        invariant LinkAll(old(model.db), model.faults, a, cols[..i]) == LinkRun(true, model.db, LinkCalls(a, cols[..i]))
        invariant model.log == old(model.log) + LinkCalls(a, cols[..i])
      {
        AppendCalls(old(model.log), LinkCalls(a, cols[..i]), [Store.AddArtifactCollection(a, cols[i])]);
        ok := model.AddArtifactCollection(a, cols[i]);
        assert cols[..i + 1][..i] == cols[..i];
        assert LinkCalls(a, cols[..i]) + [Store.AddArtifactCollection(a, cols[i])] == LinkCalls(a, cols[..i + 1]);
        if !ok {
          LinkPrefixStops(old(model.db), model.faults, a, cols, i + 1);
          return false;
        }
        i := i + 1;
      }
      assert cols[..i] == cols;
      ok := true;
    }

    method AddArtifact(body: Json) returns (r: Response)
      modifies model
      ensures var o := AddArtifactRoute(old(model.db), model.faults, body);
        r == o.response && model.log == old(model.log) + o.calls && model.db == o.db
    {
      CallsAssociate();
      var req := NewArtifactOf(body);
      if req.None? {
        return Fail(InternalError);
      }
      var login := LogIn(req.value.creds);
      if login.Refused? {
        return Fail(login.status);
      }
      r := AddArtifactAs(login.user, req.value);
    }

    method AddArtifactAs(u: User, req: NewArtifact) returns (r: Response)
      modifies model
      ensures var o := AddArtifactSteps(old(model.db), model.faults, u, req);
        r == o.response && model.log == old(model.log) + o.calls && model.db == o.db
    {
      CallsAssociate();
      var m := model.GetMuseumObject(req.museumId);
      if m.None? || req.collectionIds == [] {
        return Fail(Conflict);
      }
      var found := LookUpCollections(req.collectionIds);
      if found.Missing? {
        return Fail(Conflict);
      }
      r := AddFoundArtifact(u, m.value, req.details, found.collections);
    }

    method AddFoundArtifact(u: User, m: Museum, d: Details, cols: seq<Collection>) returns (r: Response)
      modifies model
      ensures var o := Routes.AddFoundArtifact(old(model.db), model.faults, u, m, d, cols);
        r == o.response && model.log == old(model.log) + o.calls && model.db == o.db
    {
      CallsAssociate();
      var a := Artifact(UNSAVED, d, m);
      if IsOwner(u, m) {
        r := StoreNewArtifact(a, cols);
      } else {
        r := Propose(Proposal(OfArtifact(a, cols), Add, u));
      }
    }

    /** The owner's new artifact: saved, then linked to each collection in turn. */
    method StoreNewArtifact(a: Artifact, cols: seq<Collection>) returns (r: Response)
      modifies model
      ensures var o := Routes.StoreNewArtifact(old(model.db), model.faults, a, cols);
        r == o.response && model.log == old(model.log) + o.calls && model.db == o.db
    {
      CallsAssociate();
      var saved := model.SaveArtifactToDB(a);
      if saved.None? {
        return Fail(Conflict);
      }
      var ok := LinkEach(saved.value, cols);
      r := if ok then Ok(NoContent) else Fail(Conflict);
    }

    /** A change proposed for review. */
    method Propose(e: Edit) returns (r: Response)
      modifies model
      ensures var o := Routes.Propose(old(model.db), model.faults, e);
        r == o.response && model.log == old(model.log) + o.calls && model.db == o.db
    {
      CallsAssociate();
      var ok := model.SaveEditToDB(e);
      r := if ok then Ok(NoContent) else Fail(Conflict);
    }

    method EditArtifact(body: Json) returns (r: Response)
      modifies model
      ensures var o := EditArtifactRoute(old(model.db), model.faults, body);
        r == o.response && model.log == old(model.log) + o.calls && model.db == o.db
    {
      CallsAssociate();
      var req := ChangedArtifactOf(body);
      if req.None? {
        return Fail(InternalError);
      }
      var login := LogIn(req.value.creds);
      if login.Refused? {
        return Fail(login.status);
      }
      r := EditArtifactAs(login.user, req.value);
    }

    /** The owner's update of a stored artifact: the row, then its links cleared and made again. */
    method StoreChangedArtifact(a: Artifact, cols: seq<Collection>) returns (r: Response)
      modifies model
      ensures var o := Routes.StoreChangedArtifact(old(model.db), model.faults, a, cols);
        r == o.response && model.log == old(model.log) + o.calls && model.db == o.db
    {
      ghost var log0 := model.log;
      var ok := model.UpdateArtifactInDB(a);
      if !ok {
        return Fail(Conflict);
      }
      ok := model.RemoveArtifactCollection(a);
      if !ok {
        return Fail(Conflict);
      }
      ghost var unlinked := model.db;
      ghost var done := [Store.UpdateArtifactInDB(a), Store.RemoveArtifactCollection(a)];
      assert model.log == log0 + done;
      ok := LinkEach(a, cols);
      AppendCalls(log0, done, LinkAll(unlinked, model.faults, a, cols).calls);
      r := if ok then Ok(NoContent) else Fail(Conflict);
    }

    method EditArtifactAs(u: User, req: ChangedArtifact) returns (r: Response)
      modifies model
      ensures var o := EditArtifactSteps(old(model.db), model.faults, u, req);
        r == o.response && model.log == old(model.log) + o.calls && model.db == o.db
    {
      CallsAssociate();
      var m := model.GetMuseumObject(req.museumId);
      if m.None? || req.collectionIds == [] {
        return Fail(Conflict);
      }
      var found := LookUpCollections(req.collectionIds);
      if found.Missing? {
        return Fail(Conflict);
      }
      r := EditFoundArtifact(u, m.value, req, found.collections);
    }

    method EditFoundArtifact(u: User, m: Museum, req: ChangedArtifact, cols: seq<Collection>) returns (r: Response)
      modifies model
      ensures var o := Routes.EditFoundArtifact(old(model.db), model.faults, u, m, req, cols);
        r == o.response && model.log == old(model.log) + o.calls && model.db == o.db
    {
      CallsAssociate();
      var stored := model.GetArtifact(req.artifactId);
      if stored.None? {
        return Fail(Conflict);
      }
      var a := Artifact(req.artifactId, req.details, m);
      if IsOwner(u, m) {
        r := StoreChangedArtifact(a, cols);
      } else {
        r := Propose(Proposal(OfArtifact(a, cols), Modify, u));
      }
    }

    // --- review --------------------------------------------------------------

    method ReviewEdit(body: Json) returns (r: Response)
      modifies model
      ensures var o := ReviewRoute(old(model.db), model.faults, body);
        r == o.response && model.log == old(model.log) + o.calls && model.db == o.db
    {
      CallsAssociate();
      var req := ReviewRequestOf(body);
      if req.None? {
        return Fail(InternalError);
      }
      var login := LogIn(req.value.creds);
      if login.Refused? {
        return Fail(login.status);
      }
      r := ReviewEditAs(login.user, req.value);
    }

    method ReviewEditAs(u: User, req: ReviewRequest) returns (r: Response)
      modifies model
      ensures var o := ReviewSteps(old(model.db), model.faults, u, req);
        r == o.response && model.log == old(model.log) + o.calls && model.db == o.db
    {
      CallsAssociate();
      var c := CategoryOf(req.category);
      if c == MuseumCategory || c == UnknownCategory {
        return Fail(CategoryRefusal(c));
      }
      var e;
      if c == ArtifactCategory {
        e := model.GetEditArtifactObject(req.editId);
      } else {
        e := model.GetEditCollectionObject(req.editId);
      }
      if e.None? {
        return Fail(Conflict);
      }
      var verdict := Review(e.value, u, req.approve);
      if verdict.Deny? {
        return Fail(verdict.status);
      }
      var ok := model.UpdateEditInDB(verdict.updated);
      r := if ok then Ok(NoContent) else Fail(Conflict);
    }

    // --- user profile --------------------------------------------------------

    /** For each curated museum in turn, its artifact then its collection actions. */
    method CollectCuratorActions(ms: seq<Museum>) returns (acts: Option<seq<Edit>>)
      modifies model
      ensures var run := CollectActions(old(model.db), model.faults, ms);
        acts == run.actions && model.db == old(model.db) && model.log == old(model.log) + run.calls
    {
      var all: seq<Edit> := [];
      var i := 0;
      while i < |ms|
        invariant 0 <= i <= |ms|
        invariant model.db == old(model.db)
        invariant CollectActions(model.db, model.faults, ms[..i]).actions == Some(all)
        invariant model.log == old(model.log) + CollectActions(model.db, model.faults, ms[..i]).calls
      {
        CollectActionsSnoc(model.db, model.faults, ms, i);
        ghost var done := CollectActions(model.db, model.faults, ms[..i]).calls;
        AppendCalls(old(model.log), done, [Store.GetArtifactActions(ms[i].id)]);
        AppendCalls(old(model.log) + done, [Store.GetArtifactActions(ms[i].id)], [Store.GetCollectionActions(ms[i].id)]);
        AppendCalls(old(model.log), done, [Store.GetArtifactActions(ms[i].id), Store.GetCollectionActions(ms[i].id)]);
        var aa := model.GetArtifactActions(ms[i].id);
        if aa.None? {
          ActionsPrefixStops(model.db, model.faults, ms, i + 1);
          return None;
        }
        var ca := model.GetCollectionActions(ms[i].id);
        if ca.None? {
          ActionsPrefixStops(model.db, model.faults, ms, i + 1);
          return None;
        }
        all := all + aa.value + ca.value;
        i := i + 1;
      }
      assert ms[..i] == ms;
      acts := Some(all);
    }

    method GetUserProfile(body: Json) returns (r: Response)
      modifies model
      ensures var o := ProfileRoute(old(model.db), model.faults, body);
        r == o.response && model.log == old(model.log) + o.calls && model.db == o.db
    {
      CallsAssociate();
      var c := FlatCredentials(body);
      if c.None? {
        return Fail(InternalError);
      }
      var login := LogIn(c.value);
      if login.Refused? {
        return Fail(login.status);
      }
      r := ProfileOf(login.user);
    }

    method ProfileOf(u: User) returns (r: Response)
      modifies model
      ensures var o := ProfileSteps(old(model.db), model.faults, u);
        r == o.response && model.log == old(model.log) + o.calls && model.db == o.db
    {
      var ae := model.GetArtifactEdits(u.id);
      if ae.None? {
        return Fail(Conflict);
      }
      var ce := model.GetCollectionEdits(u.id);
      if ce.None? {
        return Fail(Conflict);
      }
      ghost var listed := [Store.GetArtifactEdits(u.id), Store.GetCollectionEdits(u.id)];
      assert model.log == old(model.log) + listed by {
        AppendCalls(old(model.log), [Store.GetArtifactEdits(u.id)], [Store.GetCollectionEdits(u.id)]);
      }
      ghost var rest := Routes.CuratorProfile(model.db, model.faults, u, ae.value + ce.value).calls;
      AppendCalls(old(model.log), listed, rest);
      r := CuratorProfile(u, ae.value + ce.value);
    }

    method CuratorProfile(u: User, edits: seq<Edit>) returns (r: Response)
      modifies model
      ensures var o := Routes.CuratorProfile(old(model.db), model.faults, u, edits);
        r == o.response && model.log == old(model.log) + o.calls && model.db == o.db
    {
      CallsAssociate();
      var ms := model.GetMuseumByCurator(u.id);
      if ms.None? {
        return Fail(Conflict);
      }
      var actions := CollectCuratorActions(ms.value);
      if actions.None? {
        return Fail(Conflict);
      }
      r := HeadCuratorProfile(u, ms.value, edits, actions.value);
    }

    method HeadCuratorProfile(u: User, ms: seq<Museum>, edits: seq<Edit>, actions: seq<Edit>) returns (r: Response)
      modifies model
      ensures var o := Routes.HeadCuratorProfile(old(model.db), model.faults, u, ms, edits, actions);
        r == o.response && model.log == old(model.log) + o.calls && model.db == o.db
    {
      CallsAssociate();
      var head := model.CheckHeadCurator(u);
      if head.None? {
        return Fail(Conflict);
      }
      if !head.value {
        return Ok(ProfilePayload(u, ms, edits, actions, None));
      }
      var all := model.GetMuseumList();
      r := if all.None? then Fail(Conflict) else Ok(ProfilePayload(u, ms, edits, actions, Some(all.value)));
    }

    // --- deletions -----------------------------------------------------------

    method DeleteMuseum(body: Json, id: int) returns (r: Response)
      modifies model
      ensures var o := DeleteMuseumRoute(old(model.db), model.faults, body, id);
        r == o.response && model.log == old(model.log) + o.calls && model.db == o.db
    {
      CallsAssociate();
      var c := FlatCredentials(body);
      if c.None? {
        return Fail(InternalError);
      }
      var login := LogIn(c.value);
      if login.Refused? {
        return Fail(login.status);
      }
      r := DeleteMuseumAs(login.user, id);
    }

    method DeleteMuseumAs(u: User, id: int) returns (r: Response)
      modifies model
      ensures var o := DeleteMuseumSteps(old(model.db), model.faults, u, id);
        r == o.response && model.log == old(model.log) + o.calls && model.db == o.db
    {
      CallsAssociate();
      var m := model.GetMuseumObject(id);
      if m.None? {
        return Fail(Conflict);
      }
      var head := model.CheckHeadCurator(u);
      if head.None? {
        return Fail(Conflict);
      }
      if !(IsOwner(u, m.value) || head.value) {
        return Fail(Unauthorized);
      }
      var ok := model.RemoveMuseumFromDB(m.value);
      r := if ok then Ok(NoContent) else Fail(Conflict);
    }

    method DeleteArtifact(body: Json, id: int) returns (r: Response)
      modifies model
      ensures var o := DeleteArtifactRoute(old(model.db), model.faults, body, id);
        r == o.response && model.log == old(model.log) + o.calls && model.db == o.db
    {
      CallsAssociate();
      var c := FlatCredentials(body);
      if c.None? {
        return Fail(InternalError);
      }
      var login := LogIn(c.value);
      if login.Refused? {
        return Fail(login.status);
      }
      r := DeleteArtifactAs(login.user, id);
    }

    method DeleteArtifactAs(u: User, id: int) returns (r: Response)
      modifies model
      ensures var o := DeleteArtifactSteps(old(model.db), model.faults, u, id);
        r == o.response && model.log == old(model.log) + o.calls && model.db == o.db
    {
      CallsAssociate();
      var a := model.GetArtifact(id);
      if a.None? {
        return Fail(Conflict);
      }
      if IsOwner(u, a.value.museum) {
        var ok := model.RemoveArtifactInDB(a.value);
        r := if ok then Ok(NoContent) else Fail(Conflict);
      } else {
        var cols := model.GetCollectionsByArtifact(id);
        if cols.None? {
          return Fail(Conflict);
        }
        r := Propose(Proposal(OfArtifact(a.value, cols.value), Del, u));
      }
    }
  }
}
