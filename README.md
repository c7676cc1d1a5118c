# Request handling of the lafayette53 museum catalogue backend

The backend answers the catalogue's REST API. A request arrives as an HTTP method, a path and a JSON body. The `Handler` class routes it, checks the body, logs the user in, and then calls the storage layer (`ModelClass`) step by step. The result is a status code and a JSON answer. This project models that request handling. It follows the behaviour that `tests/backend/handlertest.cpp` pins down against a mocked storage layer.

Modules:

- `Wrappers`: `Option`.
- `PathIds`: a path segment as a 32-bit id (`ParseId`, `ShowId`).
- `Json`: the request body as a value, with typed member readers.
- `Http`: response statuses.
- `Routing`: path splitting and the route each method and path select.
- `Entities`: users, museums, collections, artifacts and proposed edits. A curator owns a museum, compared by id.
- `Auth`: the three-way login decision.
- `Workflow`: review categories and verdicts.
- `Requests`: the body reader of each route.
- `Store`: the storage layer as values.
  - one `Call` per mocked operation, with its arguments;
  - the stored state `Db`;
  - what each query answers, and how each change alters the state;
  - the well-formedness invariant `Db.Valid`;
  - the review invariant `ResolvedKept`.
- `Routes`: what the handler does with each request, as functions. Each gives an `Outcome`:
  - the response;
  - the exact sequence of storage calls;
  - the state afterwards.
  `faults` is the set of calls the storage layer refuses. It plays the part of the mock's `WillOnce(Throw(ModelException))`, and lookups also fail on an absent key.
- `RouteFacts`: what each outcome means, route by route, and the invariant that every request keeps the store well formed and never alters a reviewed edit.
- `Gateway`: the storage layer as an object (`ModelGateway`). It has the stored state, the refused calls, and a log of every call made, in order. Each method records its call, answers as `Store` says, and changes the state only on success.
- `Handlers`: the `Handler` class, holding its gateway. Each request method calls the gateway step by step, with loops where the handler loops:
  - the collection ids;
  - the links of an artifact;
  - the curated museums of a profile.
  Each method is proved to give the response, make the calls and leave the state that `Routes` prescribes.

Decisions on the behaviour:

- Every failed storage call ends the request with 409 Conflict.
- A body that lacks a key, or holds a value of the wrong kind, is a 500 before any storage call. The review category is the exception: it is judged after the login lookup, so an unknown category is a 500 after `getUserObject` (tests/backend/handlertest.cpp:1979-1990).
- Protected routes look the user up by username once. They answer 409 when the user is unknown and 401 when the password is wrong.
- The login route, the user profile and both deletions read the credentials at the top level of the body. The other protected routes read them under `"user"`.
- Adding or changing a collection or an artifact decides ownership on the museum named in the body. The stored collection or artifact is only checked to exist.
- Deleting an artifact decides ownership on the stored artifact's museum, and deleting a museum on the stored museum. A review decides it on the museum of the stored edit's subject.
- A review checks the edit's status (409 once resolved) before authority (401): those tests hold under either order, and the model takes this one.
- The password-reset tests post the username in the body to `/request/reset-password`. The model follows them.

## Model

| member | source | states |
|---|---|---|
| PathIds.ParseId | tests/backend/handlertest.cpp:351-374 | a parsed id is between 0 and INT_MAX |
| PathIds.ParseShowRoundTrip | tests/backend/handlertest.cpp:365-374 | every id from 0 to INT_MAX is parsed back from its decimal spelling |
| PathIds.ShowValueRoundTrip | tests/backend/handlertest.cpp:351-374 | a digit run without a leading zero is the spelling of the id it denotes |
| PathIds.TooLongIsRefused | tests/backend/handlertest.cpp:358-362 | more than ten digits without a leading zero never parse |
| PathIds.NonDigitIsRefused | tests/backend/handlertest.cpp:351-356 | a segment with any non-digit is refused |
| PathIds.IntMaxIsAccepted | tests/backend/handlertest.cpp:365-374 | "2147483647" parses to INT_MAX |
| PathIds.IntMaxPlusOneIsRefused | tests/backend/handlertest.cpp:358-362 | "2147483648" does not parse |
| Http.Code | tests/backend/handlertest.cpp:53-106 | codes are HTTP codes, and 200 exactly for OK |
| Routing.SplitPath | tests/backend/handlertest.cpp:114-201 | every segment is non-empty and holds no '/' |
| Routing.SplitJoinRoundTrip | tests/backend/handlertest.cpp:174-191 | splitting a joined path gives its segments back |
| Routing.RouteGet | tests/backend/handlertest.cpp:114-201 | an unmatched GET is never a 404 |
| Routing.RoutePost | tests/backend/handlertest.cpp:213-266 | a POST never falls back to the frontend page |
| Routing.GetById | tests/backend/handlertest.cpp:344-719 | exactly the four id-carrying GET prefixes give an action, and each reaches storage |
| Routing.PostAction | tests/backend/handlertest.cpp:213-249 | exactly the ten id-less POST names route, and none of them is a deletion |
| Routing.Route | tests/backend/handlertest.cpp:53-106 | PUT and DEL have no route; GET always has one |
| Routing.GetIdSegment | tests/backend/handlertest.cpp:351-374 | after an id prefix, a malformed segment is a 500 and a well-formed one routes to its lookup |
| Routing.PostIdSegment | tests/backend/handlertest.cpp:253-257 | a malformed third segment is a 500 under every POST name |
| Routing.OnlyRequestPathsReachGateway | tests/backend/handlertest.cpp:118-170 | no path outside /request reaches storage |
| Routing.SplitRequestPath | tests/backend/handlertest.cpp:239-249 | /request/{name} splits into its two segments |
| Routing.SplitRequestIdPath | tests/backend/handlertest.cpp:253-264 | /request/{name}/{seg} splits into its three segments |
| Routing.IntMaxMuseumIsLookedUp | tests/backend/handlertest.cpp:365-374 | /request/museum/2147483647 routes to the lookup of INT_MAX |
| Routing.OverflowingIdIsMalformed | tests/backend/handlertest.cpp:358-362 | /request/museum/2147483648 is a malformed id |
| Auth.CheckLogin | tests/backend/handlertest.cpp:743-787 | unknown user is 409, wrong password 401, match logs in the stored user, each iff |
| Workflow.CategoryOf | tests/backend/handlertest.cpp:1979-2018 | "artifact", "collection" and "museum" are their categories, each iff |
| Workflow.CategoryRefusal | tests/backend/handlertest.cpp:1979-2003 | a museum category is 501 and an unknown one 500, each iff |
| Workflow.Review | tests/backend/handlertest.cpp:2021-2201 | resolved gives 409; non-owner (by id) 401; else only the status changes, to a resolved one |
| Workflow.ReviewIsOneShot | tests/backend/handlertest.cpp:2021-2034 | an accepted review cannot be accepted again, by anyone |
| Workflow.AuthorityIsById | tests/backend/handlertest.cpp:2036-2049 | a reviewer with the owner's username but another id is unauthorized |
| Json.Numbers | tests/backend/handlertest.cpp:1437-1493 | an array is read iff every item is a number, and gives those numbers in order |
| Json.IntArrayMember | tests/backend/handlertest.cpp:1437-1493 | an id list is read only from an array member, item by item |
| Requests.FlatCredentials | tests/backend/handlertest.cpp:808-861 | credentials are read iff both keys are strings, and carry them |
| Requests.NestedCredentials | tests/backend/handlertest.cpp:743-787 | the "user" object's credentials, iff present |
| Requests.DetailsOf | tests/backend/handlertest.cpp:1003-1021 | details are read iff all four strings are present, and carry exactly the name, description, introduction and image given |
| Requests.RegistrationOf | tests/backend/handlertest.cpp:914-950 | a registration is read iff username, password and email are present, and carries exactly those three strings |
| Requests.NewMuseumOf | tests/backend/handlertest.cpp:996-1034 | the add-museum body is accepted iff credentials and museum details are present, and carries both |
| Requests.NewCollectionOf | tests/backend/handlertest.cpp:1096-1146 | the add-collection body is accepted iff credentials, details and museum id are present, and carries all three |
| Requests.ChangedCollectionOf | tests/backend/handlertest.cpp:1253-1304 | the edit-collection body is accepted iff all its parts are present, and carries the credentials, the details, the collection id and the museum id that decides ownership |
| Requests.NewArtifactOf | tests/backend/handlertest.cpp:1437-1493 | the add-artifact body is accepted iff all its parts are present, and carries the credentials, the details, the museum id and the collection ids |
| Requests.ChangedArtifactOf | tests/backend/handlertest.cpp:1646-1702 | the edit-artifact body is accepted iff all its parts are present, and carries the credentials, the details, the artifact id, the museum id and the collection ids |
| Requests.ReviewRequestOf | tests/backend/handlertest.cpp:1893-1927 | the review body is accepted iff credentials, editId, category and action are present |
| Requests.NoCredentialsNoRequest | tests/backend/handlertest.cpp:750-759 | no nested-credential route accepts a body without credentials |
| Requests.MissingPasswordRefused | tests/backend/handlertest.cpp:750-759 | a "user" object without a password is not credentials |
| Requests.EmptyBodyRefused | tests/backend/handlertest.cpp:814-820 | the empty body is refused by every reader: flat and nested credentials, registration, reset, the new museum, new and changed collection, new and changed artifact, and the review request |
| Store.EmptyDb | tests/backend/mockmodelclass.h:19-64 | the empty store is well formed |
| Entities.IsOwner | tests/backend/handlertest.cpp:2036-2049 | a definition: ownership compares user ids (its consequence: Workflow.AuthorityIsById) |
| Store.SelectComplete | tests/backend/mockmodelclass.h:29-30 | a list query misses no selected row |
| Store.UserAnswer | tests/backend/mockmodelclass.h:23 | a user is found iff not refused and stored under that username |
| Store.HeadCuratorAnswer | tests/backend/mockmodelclass.h:26 | the check answers whether the user's id is a head curator's |
| Store.MuseumListAnswer | tests/backend/mockmodelclass.h:29 | the list holds stored museums only |
| Store.MuseumListComplete | tests/backend/mockmodelclass.h:29 | on a well-formed store every stored museum is in the list |
| Store.CuratedAnswer | tests/backend/mockmodelclass.h:30 | the curated museums are stored and owned by that user id |
| Store.MuseumAnswer | tests/backend/mockmodelclass.h:31 | a museum is found iff not refused and stored |
| Store.MuseumCollectionsAnswer | tests/backend/mockmodelclass.h:36 | the collections listed belong to that museum |
| Store.ArtifactCollectionsAnswer | tests/backend/mockmodelclass.h:37 | the collections an artifact is linked to |
| Store.CollectionAnswer | tests/backend/mockmodelclass.h:38 | a collection is found iff not refused and stored |
| Store.CollectionArtifactsAnswer | tests/backend/mockmodelclass.h:44 | the artifacts listed are linked to that collection |
| Store.ArtifactAnswer | tests/backend/mockmodelclass.h:47 | an artifact is found iff not refused and stored |
| Store.ArtifactEditAnswer | tests/backend/mockmodelclass.h:52 | an artifact edit is found iff not refused and stored |
| Store.CollectionEditAnswer | tests/backend/mockmodelclass.h:55 | a collection edit is found iff not refused and stored |
| Store.ProposedArtifactEditsAnswer | tests/backend/mockmodelclass.h:53 | the artifact edits listed were proposed by that user |
| Store.ProposedCollectionEditsAnswer | tests/backend/mockmodelclass.h:56 | the collection edits listed were proposed by that user |
| Store.ArtifactActionsAnswer | tests/backend/mockmodelclass.h:54 | the artifact edits listed target that museum |
| Store.CollectionActionsAnswer | tests/backend/mockmodelclass.h:57 | the collection edits listed target that museum |
| Store.SaveUser | tests/backend/mockmodelclass.h:24 | the user is stored under its username with a fresh id; nothing else changes |
| Store.SaveUserOk | tests/backend/handlertest.cpp:914-971 | a definition: a registration is accepted only when not refused and the username is free (its effect: RouteFacts.RegisterMeaning) |
| Store.UpdateUser | tests/backend/mockmodelclass.h:25 | the user's record is replaced; nothing else changes |
| Store.SaveMuseum | tests/backend/mockmodelclass.h:32 | the museum is stored under a fresh id; nothing else changes |
| Store.RemoveMuseum | tests/backend/mockmodelclass.h:33 | the museum's id is removed; nothing else changes |
| Store.SaveCollection | tests/backend/mockmodelclass.h:39 | the collection is stored under a fresh id; nothing else changes |
| Store.UpdateCollection | tests/backend/mockmodelclass.h:40 | the collection's record is replaced; nothing else changes |
| Store.Link | tests/backend/mockmodelclass.h:45 | the collection is appended to the artifact's links; nothing else changes |
| Store.SaveArtifact | tests/backend/mockmodelclass.h:46 | the artifact is stored under a fresh id, in no collection; nothing else changes |
| Store.UpdateArtifact | tests/backend/mockmodelclass.h:48 | the artifact's record is replaced; nothing else changes |
| Store.RemoveArtifact | tests/backend/mockmodelclass.h:49 | the artifact and its links are removed; nothing else changes |
| Store.Unlink | tests/backend/mockmodelclass.h:62 | the artifact is in no collection afterwards; nothing else changes |
| Store.SaveEdit | tests/backend/mockmodelclass.h:58-59 | the edit is filed with its kind under a fresh id, the other kind untouched; nothing but the edits changes |
| Store.UpdateEdit | tests/backend/mockmodelclass.h:60-61 | the edit is replaced within its kind, the other kind untouched; nothing but the edits changes |
| Store.UpdateEditOk | tests/backend/handlertest.cpp:2204-2221 | a definition: an edit is updated only when stored, and an approved collection deletion is refused (its effect: RouteFacts.ReviewDecision) |
| Store.SaveUserValid | tests/backend/mockmodelclass.h:24 | saving a user keeps the store well formed and reviewed edits unchanged |
| Store.UpdateUserValid | tests/backend/mockmodelclass.h:25 | the same for updating a user |
| Store.SaveMuseumValid | tests/backend/mockmodelclass.h:32 | the same for saving a museum |
| Store.RemoveMuseumValid | tests/backend/mockmodelclass.h:33 | the same for removing a museum |
| Store.SaveCollectionValid | tests/backend/mockmodelclass.h:39 | the same for saving a collection |
| Store.UpdateCollectionValid | tests/backend/mockmodelclass.h:40 | the same for updating a stored collection |
| Store.LinkValid | tests/backend/mockmodelclass.h:45 | the same for linking a stored artifact |
| Store.SaveArtifactValid | tests/backend/mockmodelclass.h:46 | the same for saving an artifact |
| Store.UpdateArtifactValid | tests/backend/mockmodelclass.h:48 | the same for updating a stored artifact |
| Store.RemoveArtifactValid | tests/backend/mockmodelclass.h:49 | the same for removing an artifact |
| Store.UnlinkValid | tests/backend/mockmodelclass.h:62 | the same for unlinking a stored artifact |
| Store.SaveEditValid | tests/backend/mockmodelclass.h:58-59 | the same for saving an edit |
| Store.UpdateEditValid | tests/backend/mockmodelclass.h:60-61 | updating an edit still under review keeps the store well formed and reviewed edits unchanged |
| Store.ResolvedKeptTransitive | tests/backend/handlertest.cpp:2021-2034 | keeping reviewed edits composes over steps |
| Store.ResolvedKeptReflexive | tests/backend/handlertest.cpp:2021-2034 | a step that changes nothing keeps reviewed edits |
| Routes.Commit | tests/backend/handlertest.cpp:1053-1068 | the final call is made once; success iff it is accepted, and only then the state changes |
| Routes.Propose | tests/backend/handlertest.cpp:1207-1222 | a proposal is one save of the edit, success iff accepted; only the edits change |
| Routes.LookupAll | tests/backend/handlertest.cpp:1535-1551 | found lists one collection per id; missing names a position in the list |
| Routes.LookupAllMeaning | tests/backend/handlertest.cpp:1535-1595 | found iff every id is found, in order; missing(k) means ids before k were found and the k-th was not |
| Routes.LinkAll | tests/backend/handlertest.cpp:1574-1595 | one link call per collection, in order, up to the first refusal |
| Routes.LookupPrefixStops | tests/backend/handlertest.cpp:1535-1551 | after a missing collection no further id is looked up |
| Routes.LinkPrefixStops | tests/backend/handlertest.cpp:1574-1595 | after a refused link no further link is made |
| Routes.LinkAllOnlyLinks | tests/backend/handlertest.cpp:1574-1595 | linking changes nothing but links |
| Routes.LinkAllLinked | tests/backend/handlertest.cpp:1574-1595 | successful linking leaves the earlier links followed by exactly the collections given |
| Routes.LinkAllSucceeds | tests/backend/handlertest.cpp:1574-1595 | linking succeeds when every link is acceptable |
| Routes.LinkAllValid | tests/backend/handlertest.cpp:1574-1595 | linking keeps the store well formed and edits unchanged |
| Routes.ActionsAfter | tests/backend/handlertest.cpp:2336-2440 | one museum more: its artifact then its collection actions, unless a query failed |
| Routes.CollectActions | tests/backend/handlertest.cpp:2336-2440 | when every query succeeds, two calls per curated museum, in order |
| Routes.CollectActionsSnoc | tests/backend/handlertest.cpp:2336-2440 | collecting over one museum more is one step |
| Routes.ActionCallsAppend | tests/backend/handlertest.cpp:2336-2440 | the actions queries of one museum more come last |
| Routes.ActionsPrefixStops | tests/backend/handlertest.cpp:2336-2440 | after a failed actions query no further museum is asked |
| Routes.AsUser | tests/backend/handlertest.cpp:743-787 | a refused login is its status after one lookup; otherwise the route runs as the stored user |
| Routes.LoginRoute | tests/backend/handlertest.cpp:877-901 | a login changes no stored state |
| Routes.MuseumListRoute | tests/backend/handlertest.cpp:281-331 | one getMuseumList call and nothing changed; a 409 when the listing fails, otherwise a 200 carrying the list |
| Routes.MuseumRoute | tests/backend/handlertest.cpp:344-420 | showing a museum changes nothing (its meaning: RouteFacts.MuseumRouteMeaning) |
| Routes.CollectionRoute | tests/backend/handlertest.cpp:433-513 | showing a collection changes nothing (its meaning: RouteFacts.CollectionRouteMeaning) |
| Routes.ArtifactRoute | tests/backend/handlertest.cpp:526-612 | showing an artifact changes nothing (its meaning: RouteFacts.ArtifactRouteMeaning) |
| Routes.EditRoute | tests/backend/handlertest.cpp:627-719 | showing an edit changes nothing (its meaning: RouteFacts.EditRouteFallsBack) |
| Routes.RegisterRoute | tests/backend/handlertest.cpp:914-971 | a malformed body is a 500 with no call; otherwise exactly one saveUserToDB, for the username read |
| Routes.ResetPasswordRoute | tests/backend/handlertest.cpp:2655-2697 | a malformed body is a 500 with no call; otherwise the username read is looked up first |
| Routes.AddMuseumSteps | tests/backend/handlertest.cpp:1039-1068 | exactly one saveMuseumToDB, of a museum owned by the logged-in user with the details read |
| Routes.AddMuseumRoute | tests/backend/handlertest.cpp:989-1068 | a malformed body is a 500 with no call; otherwise the first call is the login lookup of the body's username |
| Routes.AddCollectionSteps | tests/backend/handlertest.cpp:1159-1222 | the museum named in the body is looked up first |
| Routes.AddCollectionRoute | tests/backend/handlertest.cpp:1088-1224 | a malformed body is a 500 with no call; otherwise the login lookup comes first |
| Routes.EditCollectionSteps | tests/backend/handlertest.cpp:1316-1408 | the museum named in the body is looked up first |
| Routes.EditCollectionRoute | tests/backend/handlertest.cpp:1245-1410 | a malformed body is a 500 with no call; otherwise the login lookup comes first |
| Routes.StoreNewArtifact | tests/backend/handlertest.cpp:1574-1595 | the owner's new artifact is saved before anything else |
| Routes.AddFoundArtifact | tests/backend/handlertest.cpp:1574-1618 | the owner's first call saves the artifact; for anyone else only the edits change |
| Routes.AddArtifactSteps | tests/backend/handlertest.cpp:1507-1618 | the museum named in the body is looked up first |
| Routes.AddArtifactRoute | tests/backend/handlertest.cpp:1432-1618 | a malformed body is a 500 with no call; otherwise the login lookup comes first |
| Routes.StoreChangedArtifact | tests/backend/handlertest.cpp:1807-1834 | the owner's change updates the artifact before anything else |
| Routes.EditFoundArtifact | tests/backend/handlertest.cpp:1781-1859 | the stored artifact is looked up first; for anyone but the owner only the edits change |
| Routes.EditArtifactSteps | tests/backend/handlertest.cpp:1716-1859 | the museum named in the body is looked up first |
| Routes.EditArtifactRoute | tests/backend/handlertest.cpp:1641-1859 | a malformed body is a 500 with no call; otherwise the login lookup comes first |
| Routes.ReviewLookup | tests/backend/handlertest.cpp:2005-2034 | a definition: the edit lookup of each reviewable category (its use: RouteFacts.ReviewCategory) |
| Routes.ReviewSteps | tests/backend/handlertest.cpp:1979-2221 | a museum category is a 501 and an unknown one a 500, with no call and nothing changed; a review only ever changes edits |
| Routes.ReviewRoute | tests/backend/handlertest.cpp:1888-2224 | a malformed body is a 500 with no call; otherwise the login lookup comes first |
| Routes.HeadCuratorProfile | tests/backend/handlertest.cpp:2398-2440 | the head-curator part changes nothing (its meaning: RouteFacts.HeadCuratorPart) |
| Routes.CuratorProfile | tests/backend/handlertest.cpp:2336-2440 | the curator part changes nothing (its meaning: RouteFacts.CuratorPart) |
| Routes.ProfileSteps | tests/backend/handlertest.cpp:2243-2440 | the profile changes nothing (its meaning: RouteFacts.ProfileMeaning) |
| Routes.ProfileRoute | tests/backend/handlertest.cpp:2243-2440 | a body without top-level credentials is a 500 with no call; otherwise the login lookup comes first |
| Routes.DeleteMuseumSteps | tests/backend/handlertest.cpp:2477-2549 | the museum is looked up first; afterwards the store is unchanged or has lost exactly that museum |
| Routes.DeleteMuseumRoute | tests/backend/handlertest.cpp:2459-2549 | a body without top-level credentials is a 500 with no call; otherwise the login lookup comes first |
| Routes.DeleteArtifactSteps | tests/backend/handlertest.cpp:2593-2644 | the artifact is looked up first |
| Routes.DeleteArtifactRoute | tests/backend/handlertest.cpp:2567-2644 | a body without top-level credentials is a 500 with no call; otherwise the login lookup comes first |
| Routes.GetRequest | backend/handler.h:98-105 | a definition: the GET dispatch (its meaning: RouteFacts.GetChangesNothing and the GET lemmas) |
| Routes.AccountRequest | backend/handler.h:107-112 | a definition: login, registration, profile and reset dispatch (their meaning: RouteFacts.AccountKeepsStore and the account lemmas) |
| Routes.CurationRequest | backend/handler.h:111-114 | a definition: the curation dispatch (its meaning: RouteFacts.CurationKeepsStore and the curation lemmas) |
| Routes.DeletionRequest | tests/backend/handlertest.cpp:2459-2644 | a definition: the deletion dispatch (its meaning: RouteFacts.DeletionKeepsStore) |
| Routes.PostRequest | backend/handler.h:110-114 | a definition: the POST dispatch (its meaning: RouteFacts.PostKeepsStore and the POST lemmas) |
| Routes.Handle | backend/handler.h:70-76 | a definition: one request by method (its meaning: RouteFacts.HandleKeepsStore) |
| RouteFacts.PutAndDeleteAreNotFound | tests/backend/handlertest.cpp:53-106 | PUT and DEL are a 404 on every path, with no storage call |
| RouteFacts.GetOutsideApiServesPage | tests/backend/handlertest.cpp:118-191 | a GET outside /request serves the page with no call |
| RouteFacts.GetUnknownNameServesPage | tests/backend/handlertest.cpp:195-198 | a GET of an unknown /request name serves the page |
| RouteFacts.PostOutsideApiNotFound | tests/backend/handlertest.cpp:225-249 | a POST outside /request is a 404 with no call |
| RouteFacts.PostUnknownNameNotFound | tests/backend/handlertest.cpp:239-242 | a POST of an unknown name is a 404 with no call |
| RouteFacts.PostIdPathRefused | tests/backend/handlertest.cpp:253-264 | a malformed id segment is a 500, an id after a name that takes none a 404, without storage |
| RouteFacts.GetMalformedIdRefused | tests/backend/handlertest.cpp:351-362 | a malformed id after any id prefix is a 500 without lookup |
| RouteFacts.MuseumIdBound | tests/backend/handlertest.cpp:351-374 | INT_MAX is looked up, INT_MAX + 1 is a 500 without lookup |
| RouteFacts.MuseumListMeaning | tests/backend/handlertest.cpp:281-331 | one call, store unchanged; a 409 iff the listing fails; otherwise a 200 listing stored museums and missing none |
| RouteFacts.MuseumRouteMeaning | tests/backend/handlertest.cpp:344-420 | the first call, success iff both queries answer, 409 stopping at a missing museum, the payload |
| RouteFacts.CollectionRouteMeaning | tests/backend/handlertest.cpp:433-513 | the same for a collection and its artifacts |
| RouteFacts.ArtifactRouteMeaning | tests/backend/handlertest.cpp:526-612 | the same for an artifact and its collections |
| RouteFacts.EditRouteFallsBack | tests/backend/handlertest.cpp:627-719 | artifact edit first, collection edit only after it fails; 409 iff both fail |
| RouteFacts.GetChangesNothing | tests/backend/handlertest.cpp:114-719 | no GET changes the store |
| RouteFacts.LoginRouteMeaning | tests/backend/handlertest.cpp:877-901 | 500 on a malformed body; one lookup; 409, 401 and success each iff their condition; the user's summary |
| RouteFacts.CurationNeedsCredentials | tests/backend/handlertest.cpp:750-759 | every curation route is a 500 without credentials, with no call |
| RouteFacts.CurationStopsAtRefusedLogin | tests/backend/handlertest.cpp:743-787 | a refused login ends every curation route after the one lookup, nothing changed |
| RouteFacts.FlatRoutesNeedCredentials | tests/backend/handlertest.cpp:814-831 | the profile and both deletions are a 500 without credentials |
| RouteFacts.FlatRoutesStopAtRefusedLogin | tests/backend/handlertest.cpp:808-861 | a refused login ends them after the one lookup |
| RouteFacts.RegisterMeaning | tests/backend/handlertest.cpp:914-971 | one save; success iff accepted and the username is free; 409 otherwise with nothing changed |
| RouteFacts.RegisterThenLogIn | tests/backend/handlertest.cpp:914-971 | a new user can log in with the password just registered |
| RouteFacts.ResetMeaning | tests/backend/handlertest.cpp:2655-2697 | lookup then update with the new password; 409 at either step; the user's password replaced |
| RouteFacts.ResetThenLogIn | tests/backend/handlertest.cpp:2655-2697 | after a reset the login succeeds iff the new password is given |
| RouteFacts.AddMuseumMeaning | tests/backend/handlertest.cpp:1039-1068 | one save, success iff accepted, the museum owned by the user under a fresh id |
| RouteFacts.AddCollectionDecision | tests/backend/handlertest.cpp:1159-1222 | missing museum 409; owner saves the collection; others save one add proposal and collections stay |
| RouteFacts.EditCollectionDecision | tests/backend/handlertest.cpp:1316-1408 | missing museum or collection 409; owner updates; others save one change proposal, which gives 200 exactly when saveEditToDB is not refused |
| RouteFacts.AddArtifactRefusals | tests/backend/handlertest.cpp:1507-1551 | missing museum, no collections or a missing collection: 409, nothing saved or changed |
| RouteFacts.OwnerSaveRefused | tests/backend/handlertest.cpp:1553-1570 | the owner's artifact with every collection found, whose saveArtifactToDB is refused: 409 after the lookups and the save, with no link and the store unchanged |
| RouteFacts.OwnerAddsArtifact | tests/backend/handlertest.cpp:1574-1595 | lookups, one save, one link per id; stored under a fresh id in exactly those collections |
| RouteFacts.OwnerAddsFoundArtifact | tests/backend/handlertest.cpp:1574-1595 | with museum and collections found, the owner's save and links, under a fresh id in exactly those collections |
| RouteFacts.StoreNewArtifactLinks | tests/backend/handlertest.cpp:1574-1595 | the owner's save and links, nothing refused |
| RouteFacts.OthersProposeArtifact | tests/backend/handlertest.cpp:1597-1618 | anyone else saves one add proposal with the collections found; artifacts unchanged |
| RouteFacts.OwnerEditsArtifact | tests/backend/handlertest.cpp:1807-1834 | lookups, update, unlink, relink; the artifact in exactly the collections given |
| RouteFacts.OwnerEditsFoundArtifact | tests/backend/handlertest.cpp:1807-1834 | with museum and collections found, the lookup, update, unlink and relink; exactly the collections given |
| RouteFacts.StoreChangedArtifactRelinks | tests/backend/handlertest.cpp:1807-1834 | update, unlink, then one link per collection, nothing refused |
| RouteFacts.EditArtifactRefusals | tests/backend/handlertest.cpp:1716-1781 | missing museum, no collections, a missing collection or artifact: 409, nothing changed |
| RouteFacts.OwnerUpdateRefused | tests/backend/handlertest.cpp:1783-1804 | the owner's change to a found artifact whose updateArtifactInDB is refused: 409 after getArtifact and the update, with no unlink and the store unchanged |
| RouteFacts.OthersProposeArtifactChange | tests/backend/handlertest.cpp:1836-1859 | anyone else saves one change proposal; artifacts unchanged |
| RouteFacts.ReviewCategory | tests/backend/handlertest.cpp:1979-2018 | museum 501, unknown 500, both without storage; a failed edit lookup 409 |
| RouteFacts.ReviewDecision | tests/backend/handlertest.cpp:2021-2221 | resolved 409; non-owner 401; owner stores the verdict with one update; approved collection deletion 409 |
| RouteFacts.ReviewIsFinal | tests/backend/handlertest.cpp:2021-2034 | once a review is stored, any further review of that edit is a 409 |
| RouteFacts.ActionsTargetMuseums | tests/backend/handlertest.cpp:2336-2440 | every action collected targets one of the curated museums |
| RouteFacts.HeadCuratorPart | tests/backend/handlertest.cpp:2398-2440 | the museum list is added iff the user is a head curator |
| RouteFacts.CuratorPart | tests/backend/handlertest.cpp:2336-2440 | the curated museums are the user's, the actions are on those museums |
| RouteFacts.ProfileMeaning | tests/backend/handlertest.cpp:2243-2440 | the profile: the user's own proposals, own museums, head-curator list iff head curator; 409 on failure; nothing changes |
| RouteFacts.DeleteMuseumDecision | tests/backend/handlertest.cpp:2477-2549 | missing 409; then the head-curator check; neither owner nor head curator 401; else one removal |
| RouteFacts.DeleteArtifactDecision | tests/backend/handlertest.cpp:2593-2644 | missing 409; owner removes; others save one delete proposal with its collections |
| RouteFacts.RegisterKeeps | tests/backend/handlertest.cpp:914-971 | registration keeps the store well formed and reviewed edits unchanged |
| RouteFacts.ResetKeeps | tests/backend/handlertest.cpp:2655-2697 | the same for a reset |
| RouteFacts.AddMuseumKeeps | tests/backend/handlertest.cpp:1039-1068 | the same for adding a museum |
| RouteFacts.ProposeKeeps | tests/backend/handlertest.cpp:1207-1222 | the same for a proposal |
| RouteFacts.AddCollectionKeeps | tests/backend/handlertest.cpp:1156-1222 | the same for adding a collection |
| RouteFacts.EditCollectionKeeps | tests/backend/handlertest.cpp:1316-1408 | the same for changing a collection |
| RouteFacts.StoreNewArtifactKeeps | tests/backend/handlertest.cpp:1574-1595 | the same for the owner's new artifact |
| RouteFacts.AddArtifactKeeps | tests/backend/handlertest.cpp:1507-1618 | the same for adding an artifact |
| RouteFacts.AddFoundArtifactKeeps | tests/backend/handlertest.cpp:1574-1618 | the same once the museum and collections are found, for the owner and for anyone else |
| RouteFacts.StoreChangedArtifactKeeps | tests/backend/handlertest.cpp:1807-1834 | the same for the owner's changed artifact |
| RouteFacts.EditArtifactKeeps | tests/backend/handlertest.cpp:1716-1859 | the same for changing an artifact |
| RouteFacts.EditFoundArtifactKeeps | tests/backend/handlertest.cpp:1781-1859 | the same once the museum and collections are found, for the owner and for anyone else |
| RouteFacts.ReviewKeeps | tests/backend/handlertest.cpp:2021-2221 | a review only resolves an edit still under review |
| RouteFacts.DeleteMuseumKeeps | tests/backend/handlertest.cpp:2477-2549 | the same for deleting a museum |
| RouteFacts.DeleteArtifactKeeps | tests/backend/handlertest.cpp:2593-2644 | the same for deleting an artifact |
| RouteFacts.ProfileRouteKeeps | tests/backend/handlertest.cpp:2243-2440 | the same for the profile route |
| RouteFacts.DeleteMuseumRouteKeeps | tests/backend/handlertest.cpp:2459-2549 | the same for the delete-museum route |
| RouteFacts.DeleteArtifactRouteKeeps | tests/backend/handlertest.cpp:2567-2644 | the same for the delete-artifact route |
| RouteFacts.AccountKeepsStore | tests/backend/handlertest.cpp:877-971 | the same for every account route |
| RouteFacts.AddMuseumRouteKeeps | tests/backend/handlertest.cpp:989-1068 | the same for the add-museum route |
| RouteFacts.AddCollectionRouteKeeps | tests/backend/handlertest.cpp:1088-1224 | the same for the add-collection route |
| RouteFacts.EditCollectionRouteKeeps | tests/backend/handlertest.cpp:1245-1410 | the same for the edit-collection route |
| RouteFacts.AddArtifactRouteKeeps | tests/backend/handlertest.cpp:1432-1618 | the same for the add-artifact route |
| RouteFacts.EditArtifactRouteKeeps | tests/backend/handlertest.cpp:1641-1859 | the same for the edit-artifact route |
| RouteFacts.ReviewRouteKeeps | tests/backend/handlertest.cpp:1888-2224 | the same for the review route |
| RouteFacts.CurationKeepsStore | tests/backend/handlertest.cpp:989-2224 | the same for every curation route |
| RouteFacts.DeletionKeepsStore | tests/backend/handlertest.cpp:2459-2644 | the same for both deletions |
| RouteFacts.PostKeepsStore | tests/backend/handlertest.cpp:213-266 | the same for every POST |
| RouteFacts.HandleKeepsStore | backend/handler.h:98-117 | whatever the request, the store stays well formed and a reviewed edit never changes |
| Gateway.ModelGateway.constructor | tests/backend/mockmodelclass.h:19-21 | starts from the given state and refusals with an empty log |
| Gateway.ModelGateway.GetUserObject | tests/backend/mockmodelclass.h:23 | logs the call, answers as Store, changes nothing |
| Gateway.ModelGateway.SaveUserToDB | tests/backend/mockmodelclass.h:24 | logs the call; on acceptance the user is saved |
| Gateway.ModelGateway.UpdateUserInDB | tests/backend/mockmodelclass.h:25 | logs the call; on acceptance the user is updated |
| Gateway.ModelGateway.CheckHeadCurator | tests/backend/mockmodelclass.h:26 | logs the call, answers as Store, changes nothing |
| Gateway.ModelGateway.GetMuseumList | tests/backend/mockmodelclass.h:29 | logs the call, answers as Store, changes nothing |
| Gateway.ModelGateway.GetMuseumByCurator | tests/backend/mockmodelclass.h:30 | logs the call, answers as Store, changes nothing |
| Gateway.ModelGateway.GetMuseumObject | tests/backend/mockmodelclass.h:31 | logs the call, answers as Store, changes nothing |
| Gateway.ModelGateway.SaveMuseumToDB | tests/backend/mockmodelclass.h:32 | logs the call; on acceptance the museum is saved |
| Gateway.ModelGateway.RemoveMuseumFromDB | tests/backend/mockmodelclass.h:33 | logs the call; on acceptance the museum is removed |
| Gateway.ModelGateway.GetCollectionListByMuseumID | tests/backend/mockmodelclass.h:36 | logs the call, answers as Store, changes nothing |
| Gateway.ModelGateway.GetCollectionsByArtifact | tests/backend/mockmodelclass.h:37 | logs the call, answers as Store, changes nothing |
| Gateway.ModelGateway.GetCollectionObject | tests/backend/mockmodelclass.h:38 | logs the call, answers as Store, changes nothing |
| Gateway.ModelGateway.SaveCollectionToDB | tests/backend/mockmodelclass.h:39 | logs the call; on acceptance the collection is saved |
| Gateway.ModelGateway.UpdateCollectionInDB | tests/backend/mockmodelclass.h:40 | logs the call; on acceptance the collection is updated |
| Gateway.ModelGateway.GetArtifactsByCollection | tests/backend/mockmodelclass.h:44 | logs the call, answers as Store, changes nothing |
| Gateway.ModelGateway.AddArtifactCollection | tests/backend/mockmodelclass.h:45 | logs the call; on acceptance the link is added |
| Gateway.ModelGateway.SaveArtifactToDB | tests/backend/mockmodelclass.h:46 | logs the call; on acceptance answers the artifact with its new id, now stored |
| Gateway.ModelGateway.GetArtifact | tests/backend/mockmodelclass.h:47 | logs the call, answers as Store, changes nothing |
| Gateway.ModelGateway.UpdateArtifactInDB | tests/backend/mockmodelclass.h:48 | logs the call; on acceptance the artifact is updated |
| Gateway.ModelGateway.RemoveArtifactInDB | tests/backend/mockmodelclass.h:49 | logs the call; on acceptance the artifact is removed |
| Gateway.ModelGateway.RemoveArtifactCollection | tests/backend/mockmodelclass.h:62 | logs the call; on acceptance the artifact's links are cleared |
| Gateway.ModelGateway.GetEditArtifactObject | tests/backend/mockmodelclass.h:52 | logs the call, answers as Store, changes nothing |
| Gateway.ModelGateway.GetEditCollectionObject | tests/backend/mockmodelclass.h:55 | logs the call, answers as Store, changes nothing |
| Gateway.ModelGateway.GetArtifactEdits | tests/backend/mockmodelclass.h:53 | logs the call, answers as Store, changes nothing |
| Gateway.ModelGateway.GetCollectionEdits | tests/backend/mockmodelclass.h:56 | logs the call, answers as Store, changes nothing |
| Gateway.ModelGateway.GetArtifactActions | tests/backend/mockmodelclass.h:54 | logs the call, answers as Store, changes nothing |
| Gateway.ModelGateway.GetCollectionActions | tests/backend/mockmodelclass.h:57 | logs the call, answers as Store, changes nothing |
| Gateway.ModelGateway.SaveEditToDB | tests/backend/mockmodelclass.h:58-59 | logs the call; on acceptance the edit is filed |
| Gateway.ModelGateway.UpdateEditInDB | tests/backend/mockmodelclass.h:60-61 | logs the call; on acceptance the edit is replaced |
| Handlers.Handler.constructor | backend/handler.h:70-76 | the handler holds the given storage gateway |
| Handlers.Handler.HandleGet | backend/handler.h:98-105 | response, calls and new state are those of Routes.GetRequest |
| Handlers.Handler.HandlePut | backend/handler.h:116 | always a 404, as Routes.Handle says |
| Handlers.Handler.HandleDelete | backend/handler.h:117 | always a 404, as Routes.Handle says |
| Handlers.Handler.HandlePost | backend/handler.h:110-114 | response, calls and new state are those of Routes.PostRequest |
| Handlers.Handler.HandleAccount | tests/backend/handlertest.cpp:877-971 | those of Routes.AccountRequest |
| Handlers.Handler.HandleCuration | tests/backend/handlertest.cpp:989-2224 | those of Routes.CurationRequest |
| Handlers.Handler.HandleDeletion | tests/backend/handlertest.cpp:2459-2644 | those of Routes.DeletionRequest |
| Handlers.Handler.ReturnMuseumList | tests/backend/handlertest.cpp:281-331 | those of the museum-list route |
| Handlers.Handler.ReturnMuseumById | tests/backend/handlertest.cpp:344-420 | those of the museum route |
| Handlers.Handler.ReturnCollectionById | tests/backend/handlertest.cpp:433-513 | those of the collection route |
| Handlers.Handler.ReturnArtifactById | tests/backend/handlertest.cpp:526-612 | those of the artifact route |
| Handlers.Handler.ReturnEditById | tests/backend/handlertest.cpp:627-719 | those of the edit route, with its fallback |
| Handlers.Handler.LogIn | tests/backend/handlertest.cpp:743-787 | the login step: one lookup, the login decision |
| Handlers.Handler.ValidateLogin | tests/backend/handlertest.cpp:877-901 | those of the login route |
| Handlers.Handler.AddUser | tests/backend/handlertest.cpp:914-971 | those of the registration route |
| Handlers.Handler.ResetPassword | tests/backend/handlertest.cpp:2655-2697 | those of the reset route |
| Handlers.Handler.AddMuseum | tests/backend/handlertest.cpp:989-1068 | those of the add-museum route |
| Handlers.Handler.AddCollection | tests/backend/handlertest.cpp:1088-1224 | those of the add-collection route |
| Handlers.Handler.AddCollectionAs | tests/backend/handlertest.cpp:1156-1222 | those of its steps as the logged-in user |
| Handlers.Handler.EditCollection | tests/backend/handlertest.cpp:1245-1410 | those of the edit-collection route |
| Handlers.Handler.EditCollectionAs | tests/backend/handlertest.cpp:1316-1408 | those of its steps as the logged-in user |
| Handlers.Handler.LookUpCollections | tests/backend/handlertest.cpp:1535-1551 | the loop finds what Routes.LookupAll finds, with exactly its calls, nothing changed |
| Handlers.Handler.LinkEach | tests/backend/handlertest.cpp:1574-1595 | the loop links as Routes.LinkAll does: result, calls and state |
| Handlers.Handler.AddArtifact | tests/backend/handlertest.cpp:1432-1618 | those of the add-artifact route |
| Handlers.Handler.AddArtifactAs | tests/backend/handlertest.cpp:1507-1618 | those of its steps as the logged-in user |
| Handlers.Handler.AddFoundArtifact | tests/backend/handlertest.cpp:1574-1618 | owner stores, anyone else proposes |
| Handlers.Handler.StoreNewArtifact | tests/backend/handlertest.cpp:1553-1595 | save, then the links |
| Handlers.Handler.Propose | tests/backend/handlertest.cpp:1597-1618 | one save of the proposal |
| Handlers.Handler.EditArtifact | tests/backend/handlertest.cpp:1641-1859 | those of the edit-artifact route |
| Handlers.Handler.StoreChangedArtifact | tests/backend/handlertest.cpp:1783-1834 | update, unlink, relink |
| Handlers.Handler.EditArtifactAs | tests/backend/handlertest.cpp:1716-1859 | those of its steps as the logged-in user |
| Handlers.Handler.EditFoundArtifact | tests/backend/handlertest.cpp:1763-1859 | the stored artifact is looked up; owner changes it, anyone else proposes |
| Handlers.Handler.ReviewEdit | tests/backend/handlertest.cpp:1888-2224 | those of the review route |
| Handlers.Handler.ReviewEditAs | tests/backend/handlertest.cpp:1979-2221 | those of its steps as the logged-in user |
| Handlers.Handler.CollectCuratorActions | tests/backend/handlertest.cpp:2336-2440 | the loop collects as Routes.CollectActions does: actions and calls, nothing changed |
| Handlers.Handler.GetUserProfile | tests/backend/handlertest.cpp:2243-2440 | those of the profile route |
| Handlers.Handler.ProfileOf | tests/backend/handlertest.cpp:2269-2440 | the profile's queries, in order |
| Handlers.Handler.CuratorProfile | tests/backend/handlertest.cpp:2336-2440 | the curated museums and their actions |
| Handlers.Handler.HeadCuratorProfile | tests/backend/handlertest.cpp:2398-2440 | the head-curator check and its museum list |
| Handlers.Handler.DeleteMuseum | tests/backend/handlertest.cpp:2459-2549 | those of the delete-museum route |
| Handlers.Handler.DeleteMuseumAs | tests/backend/handlertest.cpp:2477-2549 | those of its steps as the logged-in user |
| Handlers.Handler.DeleteArtifact | tests/backend/handlertest.cpp:2567-2644 | those of the delete-artifact route |
| Handlers.Handler.DeleteArtifactAs | tests/backend/handlertest.cpp:2593-2644 | those of its steps as the logged-in user |

## Left out

- The HTTP listener, the pplx tasks, the sleeps between requests and the server start-up test are left out: I/O and concurrency.
- Serving static files and their MIME types is left out. Every GET outside the API answers the frontend's index page (`IndexPage`).
- The JSON text of the answers is left out. A payload holds the entities it carries, not their serialisation.
- Password hashing is left out: `User.password` is compared as given.
- Percent-decoding of paths is left out. Segments are compared as written.
- Narrowing JSON numbers to C++ `int` is left out: body ids are unbounded integers. Only path ids are parsed as 32-bit.
- The timestamps of reviews are left out.
- Carrying out an approved edit on the catalogue is left out. Only the stored edit's new status is observable through the storage calls.
- `getArtifactsByMuseum` (tests/backend/mockmodelclass.h:43) is not called by any route, so it has no gateway method.
- How a reset password is generated and sent by email is left out. The new password is a parameter of `Handle`.
- RouteFacts.DeleteMuseumDecision: the route always asks `checkHeadCurator` after `getMuseumObject` (tests/backend/handlertest.cpp:2491-2546), and the model lets a head curator remove a museum they do not own. Only an owned museum is removed in those cases.
- Store.UpdateEditOk: the storage layer refuses an approved deletion of a collection (review case 19). The model states that refusal rather than its cause.
- backend/handler.cpp is not part of this model. The behaviour follows backend/handler.h and the tests.
- The storage layer's own implementation (tests/model/devtests.cpp, backend/modelclassext.cpp) is left out. It is modelled only as far as the mock's answers.
