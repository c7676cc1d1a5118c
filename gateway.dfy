/**
 * The storage layer as an object the handler holds: the stored state, the
 * calls it refuses, and the log of every call made to it, in order. Each
 * operation records its call, answers as Store says, and changes the state
 * only when it succeeds.
 */
module Gateway {
  import opened Wrappers
  import opened Entities
  import Store

  class ModelGateway {
    var db: Store.Db
    const faults: set<Store.Call>
    var log: seq<Store.Call>

    predicate Valid()
      reads this
    {
      db.Valid()
    }

    constructor (initial: Store.Db, refused: set<Store.Call>)
      ensures db == initial && faults == refused && log == []
    {
      db := initial;
      faults := refused;
      log := [];
    }

    // --- users -----------------------------------------------------------

    method GetUserObject(username: string) returns (r: Option<User>)
      modifies this
      ensures r == Store.UserAnswer(db, faults, username)
      ensures db == old(db) && log == old(log) + [Store.GetUserObject(username)]
    {
      log := log + [Store.GetUserObject(username)];
      r := Store.UserAnswer(db, faults, username);
    }

    method SaveUserToDB(u: User) returns (ok: bool)
      modifies this
      ensures ok == Store.SaveUserOk(old(db), faults, u)
      ensures db == (if ok then Store.SaveUser(old(db), u) else old(db))
      ensures log == old(log) + [Store.SaveUserToDB(u)]
    {
      log := log + [Store.SaveUserToDB(u)];
      ok := Store.SaveUserOk(db, faults, u);
      if ok {
        db := Store.SaveUser(db, u);
      }
    }

    method UpdateUserInDB(u: User) returns (ok: bool)
      modifies this
      ensures ok == Store.UpdateUserOk(old(db), faults, u)
      ensures db == (if ok then Store.UpdateUser(old(db), u) else old(db))
      ensures log == old(log) + [Store.UpdateUserInDB(u)]
    {
      log := log + [Store.UpdateUserInDB(u)];
      ok := Store.UpdateUserOk(db, faults, u);
      if ok {
        db := Store.UpdateUser(db, u);
      }
    }

    method CheckHeadCurator(u: User) returns (r: Option<bool>)
      modifies this
      ensures r == Store.HeadCuratorAnswer(db, faults, u)
      ensures db == old(db) && log == old(log) + [Store.CheckHeadCurator(u)]
    {
      log := log + [Store.CheckHeadCurator(u)];
      r := Store.HeadCuratorAnswer(db, faults, u);
    }

    // --- museums ---------------------------------------------------------

    method GetMuseumList() returns (r: Option<seq<Museum>>)
      modifies this
      ensures r == Store.MuseumListAnswer(db, faults)
      ensures db == old(db) && log == old(log) + [Store.GetMuseumList]
    {
      log := log + [Store.GetMuseumList];
      r := Store.MuseumListAnswer(db, faults);
    }

    method GetMuseumByCurator(userId: int) returns (r: Option<seq<Museum>>)
      modifies this
      ensures r == Store.CuratedAnswer(db, faults, userId)
      ensures db == old(db) && log == old(log) + [Store.GetMuseumByCurator(userId)]
    {
      log := log + [Store.GetMuseumByCurator(userId)];
      r := Store.CuratedAnswer(db, faults, userId);
    }

    method GetMuseumObject(id: int) returns (r: Option<Museum>)
      modifies this
      ensures r == Store.MuseumAnswer(db, faults, id)
      ensures db == old(db) && log == old(log) + [Store.GetMuseumObject(id)]
    {
      log := log + [Store.GetMuseumObject(id)];
      r := Store.MuseumAnswer(db, faults, id);
    }

    method SaveMuseumToDB(m: Museum) returns (ok: bool)
      modifies this
      ensures ok == Store.SaveMuseumOk(faults, m)
      ensures db == (if ok then Store.SaveMuseum(old(db), m) else old(db))
      ensures log == old(log) + [Store.SaveMuseumToDB(m)]
    {
      log := log + [Store.SaveMuseumToDB(m)];
      ok := Store.SaveMuseumOk(faults, m);
      if ok {
        db := Store.SaveMuseum(db, m);
      }
    }

    method RemoveMuseumFromDB(m: Museum) returns (ok: bool)
      modifies this
      ensures ok == Store.RemoveMuseumOk(old(db), faults, m)
      ensures db == (if ok then Store.RemoveMuseum(old(db), m) else old(db))
      ensures log == old(log) + [Store.RemoveMuseumFromDB(m)]
    {
      log := log + [Store.RemoveMuseumFromDB(m)];
      ok := Store.RemoveMuseumOk(db, faults, m);
      if ok {
        db := Store.RemoveMuseum(db, m);
      }
    }

    // --- collections -----------------------------------------------------

    method GetCollectionListByMuseumID(museumId: int) returns (r: Option<seq<Collection>>)
      modifies this
      ensures r == Store.MuseumCollectionsAnswer(db, faults, museumId)
      ensures db == old(db) && log == old(log) + [Store.GetCollectionListByMuseumID(museumId)]
    {
      log := log + [Store.GetCollectionListByMuseumID(museumId)];
      r := Store.MuseumCollectionsAnswer(db, faults, museumId);
    }

    method GetCollectionsByArtifact(artifactId: int) returns (r: Option<seq<Collection>>)
      modifies this
      ensures r == Store.ArtifactCollectionsAnswer(db, faults, artifactId)
      ensures db == old(db) && log == old(log) + [Store.GetCollectionsByArtifact(artifactId)]
    {
      log := log + [Store.GetCollectionsByArtifact(artifactId)];
      r := Store.ArtifactCollectionsAnswer(db, faults, artifactId);
    }

    method GetCollectionObject(id: int) returns (r: Option<Collection>)
      modifies this
      ensures r == Store.CollectionAnswer(db, faults, id)
      ensures db == old(db) && log == old(log) + [Store.GetCollectionObject(id)]
    {
      log := log + [Store.GetCollectionObject(id)];
      r := Store.CollectionAnswer(db, faults, id);
    }

    method SaveCollectionToDB(c: Collection) returns (ok: bool)
      modifies this
      ensures ok == Store.SaveCollectionOk(faults, c)
      ensures db == (if ok then Store.SaveCollection(old(db), c) else old(db))
      ensures log == old(log) + [Store.SaveCollectionToDB(c)]
    {
      log := log + [Store.SaveCollectionToDB(c)];
      ok := Store.SaveCollectionOk(faults, c);
      if ok {
        db := Store.SaveCollection(db, c);
      }
    }

    method UpdateCollectionInDB(c: Collection) returns (ok: bool)
      modifies this
      ensures ok == Store.UpdateCollectionOk(old(db), faults, c)
      ensures db == (if ok then Store.UpdateCollection(old(db), c) else old(db))
      ensures log == old(log) + [Store.UpdateCollectionInDB(c)]
    {
      log := log + [Store.UpdateCollectionInDB(c)];
      ok := Store.UpdateCollectionOk(db, faults, c);
      if ok {
        db := Store.UpdateCollection(db, c);
      }
    }

    // --- artifacts -------------------------------------------------------

    method GetArtifactsByCollection(collectionId: int) returns (r: Option<seq<Artifact>>)
      modifies this
      ensures r == Store.CollectionArtifactsAnswer(db, faults, collectionId)
      ensures db == old(db) && log == old(log) + [Store.GetArtifactsByCollection(collectionId)]
    {
      log := log + [Store.GetArtifactsByCollection(collectionId)];
      r := Store.CollectionArtifactsAnswer(db, faults, collectionId);
    }

    method AddArtifactCollection(a: Artifact, c: Collection) returns (ok: bool)
      modifies this
      ensures ok == Store.LinkOk(old(db), faults, a, c)
      ensures db == (if ok then Store.Link(old(db), a, c) else old(db))
      ensures log == old(log) + [Store.AddArtifactCollection(a, c)]
    {
      log := log + [Store.AddArtifactCollection(a, c)];
      ok := Store.LinkOk(db, faults, a, c);
      if ok {
        db := Store.Link(db, a, c);
      }
    }

    /** On success, answers the stored artifact, which carries its new id. */
    method SaveArtifactToDB(a: Artifact) returns (r: Option<Artifact>)
      modifies this
      ensures r.Some? <==> Store.SaveArtifactOk(faults, a)
      ensures r.Some? ==> r.value == a.(id := old(db).nextId) && r.value.id in db.artifacts
      ensures db == (if r.Some? then Store.SaveArtifact(old(db), a) else old(db))
      ensures log == old(log) + [Store.SaveArtifactToDB(a)]
    {
      log := log + [Store.SaveArtifactToDB(a)];
      if Store.SaveArtifactOk(faults, a) {
        r := Some(a.(id := db.nextId));
        db := Store.SaveArtifact(db, a);
      } else {
        r := None;
      }
    }

    method GetArtifact(id: int) returns (r: Option<Artifact>)
      modifies this
      ensures r == Store.ArtifactAnswer(db, faults, id)
      ensures db == old(db) && log == old(log) + [Store.GetArtifact(id)]
    {
      log := log + [Store.GetArtifact(id)];
      r := Store.ArtifactAnswer(db, faults, id);
    }

    method UpdateArtifactInDB(a: Artifact) returns (ok: bool)
      modifies this
      ensures ok == Store.UpdateArtifactOk(old(db), faults, a)
      ensures db == (if ok then Store.UpdateArtifact(old(db), a) else old(db))
      ensures log == old(log) + [Store.UpdateArtifactInDB(a)]
    {
      log := log + [Store.UpdateArtifactInDB(a)];
      ok := Store.UpdateArtifactOk(db, faults, a);
      if ok {
        db := Store.UpdateArtifact(db, a);
      }
    }

    method RemoveArtifactInDB(a: Artifact) returns (ok: bool)
      modifies this
      ensures ok == Store.RemoveArtifactOk(old(db), faults, a)
      ensures db == (if ok then Store.RemoveArtifact(old(db), a) else old(db))
      ensures log == old(log) + [Store.RemoveArtifactInDB(a)]
    {
      log := log + [Store.RemoveArtifactInDB(a)];
      ok := Store.RemoveArtifactOk(db, faults, a);
      if ok {
        db := Store.RemoveArtifact(db, a);
      }
    }

    method RemoveArtifactCollection(a: Artifact) returns (ok: bool)
      modifies this
      ensures ok == Store.UnlinkOk(old(db), faults, a)
      ensures db == (if ok then Store.Unlink(old(db), a) else old(db))
      ensures log == old(log) + [Store.RemoveArtifactCollection(a)]
    {
      log := log + [Store.RemoveArtifactCollection(a)];
      ok := Store.UnlinkOk(db, faults, a);
      if ok {
        db := Store.Unlink(db, a);
      }
    }

    // --- edits -----------------------------------------------------------

    method GetEditArtifactObject(id: int) returns (r: Option<Edit>)
      modifies this
      ensures r == Store.ArtifactEditAnswer(db, faults, id)
      ensures db == old(db) && log == old(log) + [Store.GetEditArtifactObject(id)]
    {
      log := log + [Store.GetEditArtifactObject(id)];
      r := Store.ArtifactEditAnswer(db, faults, id);
    }

    method GetEditCollectionObject(id: int) returns (r: Option<Edit>)
      modifies this
      ensures r == Store.CollectionEditAnswer(db, faults, id)
      ensures db == old(db) && log == old(log) + [Store.GetEditCollectionObject(id)]
    {
      log := log + [Store.GetEditCollectionObject(id)];
      r := Store.CollectionEditAnswer(db, faults, id);
    }

    method GetArtifactEdits(userId: int) returns (r: Option<seq<Edit>>)
      modifies this
      ensures r == Store.ProposedArtifactEditsAnswer(db, faults, userId)
      ensures db == old(db) && log == old(log) + [Store.GetArtifactEdits(userId)]
    {
      log := log + [Store.GetArtifactEdits(userId)];
      r := Store.ProposedArtifactEditsAnswer(db, faults, userId);
    }

    method GetCollectionEdits(userId: int) returns (r: Option<seq<Edit>>)
      modifies this
      ensures r == Store.ProposedCollectionEditsAnswer(db, faults, userId)
      ensures db == old(db) && log == old(log) + [Store.GetCollectionEdits(userId)]
    {
      log := log + [Store.GetCollectionEdits(userId)];
      r := Store.ProposedCollectionEditsAnswer(db, faults, userId);
    }

    method GetArtifactActions(museumId: int) returns (r: Option<seq<Edit>>)
      modifies this
      ensures r == Store.ArtifactActionsAnswer(db, faults, museumId)
      ensures db == old(db) && log == old(log) + [Store.GetArtifactActions(museumId)]
    {
      log := log + [Store.GetArtifactActions(museumId)];
      r := Store.ArtifactActionsAnswer(db, faults, museumId);
    }

    method GetCollectionActions(museumId: int) returns (r: Option<seq<Edit>>)
      modifies this
      ensures r == Store.CollectionActionsAnswer(db, faults, museumId)
      ensures db == old(db) && log == old(log) + [Store.GetCollectionActions(museumId)]
    {
      log := log + [Store.GetCollectionActions(museumId)];
      r := Store.CollectionActionsAnswer(db, faults, museumId);
    }

    method SaveEditToDB(e: Edit) returns (ok: bool)
      modifies this
      ensures ok == Store.SaveEditOk(faults, e)
      ensures db == (if ok then Store.SaveEdit(old(db), e) else old(db))
      ensures log == old(log) + [Store.SaveEditToDB(e)]
    {
      log := log + [Store.SaveEditToDB(e)];
      ok := Store.SaveEditOk(faults, e);
      if ok {
        db := Store.SaveEdit(db, e);
      }
    }

    method UpdateEditInDB(e: Edit) returns (ok: bool)
      modifies this
      ensures ok == Store.UpdateEditOk(old(db), faults, e)
      ensures db == (if ok then Store.UpdateEdit(old(db), e) else old(db))
      ensures log == old(log) + [Store.UpdateEditInDB(e)]
    {
      log := log + [Store.UpdateEditInDB(e)];
      ok := Store.UpdateEditOk(db, faults, e);
      if ok {
        db := Store.UpdateEdit(db, e);
      }
    }
  }
}
