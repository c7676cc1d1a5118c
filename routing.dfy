/**
 * The request router: an HTTP method and a path select one handler action.
 * Paths are split into their non-empty segments; ids after a known prefix
 * are parsed with PathIds.ParseId.
 */
module Routing {
  import opened Wrappers
  import opened PathIds
  import opened Http

  datatype Action =
    | ServeFrontend          // GET fallback: the frontend's index page
    | NoRoute                // 404
    | MalformedId            // 500: the id segment is not a 32-bit decimal
    | MuseumList
    | MuseumById(museumId: int)
    | CollectionById(collectionId: int)
    | ArtifactById(artifactId: int)
    | EditById(editId: int)
    | Login
    | Register
    | AddMuseum
    | AddCollection
    | EditCollection
    | AddArtifact
    | EditArtifact
    | ReviewEdit
    | UserProfile
    | ResetPassword
    | DeleteMuseum(museumId: int)
    | DeleteArtifact(artifactId: int)
  {
    /** The actions that read or change the gateway. */
    predicate ReachesGateway() {
      !(ServeFrontend? || NoRoute? || MalformedId?)
    }
  }

  /** Splits `p` on '/', `cur` being the segment read so far. */
  function SplitFrom(p: string, cur: string): (segs: seq<string>)
    requires '/' !in cur
    ensures forall i :: 0 <= i < |segs| ==> segs[i] != [] && '/' !in segs[i]
    decreases |p|
  {
    if p == [] then
      (if cur == [] then [] else [cur])
    else if p[0] == '/' then
      (if cur == [] then [] else [cur]) + SplitFrom(p[1..], [])
    else
      SplitFrom(p[1..], cur + [p[0]])
  }

  /** The non-empty segments of a path: "/request//museum/" gives ["request", "museum"]. */
  function SplitPath(p: string): (segs: seq<string>)
    ensures forall i :: 0 <= i < |segs| ==> segs[i] != [] && '/' !in segs[i]
  {
    SplitFrom(p, [])
  }

  /** A path spelt with one '/' before each segment. */
  function JoinPath(segs: seq<string>): string {
    if segs == [] then [] else "/" + segs[0] + JoinPath(segs[1..])
  }

  lemma {:induction false} SplitFromSegment(s: string, cur: string, rest: string)
    requires '/' !in cur && '/' !in s
    requires rest == [] || rest[0] == '/'
    ensures SplitFrom(s + rest, cur) == SplitFrom(rest, cur + s)
    decreases |s|
  {
    if s != [] {
      assert s[0] in s;
      assert (s + rest)[0] == s[0] != '/';
      assert (s + rest)[1..] == s[1..] + rest;
      assert SplitFrom(s + rest, cur) == SplitFrom(s[1..] + rest, cur + [s[0]]);
      assert forall c :: c in s[1..] ==> c in s;
      SplitFromSegment(s[1..], cur + [s[0]], rest);
      assert cur + [s[0]] + s[1..] == cur + s;
    } else {
      assert s + rest == rest && cur + s == cur;
    }
  }

  /** Splitting a joined path gives back its segments. */
  lemma {:induction false} SplitJoinRoundTrip(segs: seq<string>)
    requires forall i :: 0 <= i < |segs| ==> segs[i] != [] && '/' !in segs[i]
    ensures SplitPath(JoinPath(segs)) == segs
    decreases |segs|
  {
    if segs != [] {
      var rest := JoinPath(segs[1..]);
      assert rest == [] || rest[0] == '/';
      assert JoinPath(segs) == "/" + (segs[0] + rest);
      assert SplitFrom("/" + (segs[0] + rest), []) == SplitFrom(segs[0] + rest, []);
      SplitFromSegment(segs[0], [], rest);
      assert [] + segs[0] == segs[0];
      SplitJoinRoundTrip(segs[1..]);
      if rest == [] {
        assert SplitFrom(rest, segs[0]) == [segs[0]];
        assert segs == [segs[0]];
      } else {
        assert SplitFrom(rest, segs[0]) == [segs[0]] + SplitFrom(rest[1..], []);
        assert rest[1..] == segs[1] + JoinPath(segs[2..]);
        assert SplitFrom(rest, []) == SplitFrom(rest[1..], []);
        assert segs == [segs[0]] + segs[1..];
      }
    }
  }

  /** The id-carrying GET prefixes: /request/{museum,collection,artifact,edit}/{id}. */
  function GetById(kind: string, id: int): (r: Option<Action>)
    ensures r.Some? <==> kind == "museum" || kind == "collection" || kind == "artifact" || kind == "edit"
    ensures r.Some? ==> r.value.ReachesGateway() && !r.value.MuseumList?
  {
    if kind == "museum" then Some(MuseumById(id))
    else if kind == "collection" then Some(CollectionById(id))
    else if kind == "artifact" then Some(ArtifactById(id))
    else if kind == "edit" then Some(EditById(id))
    else None
  }

  /** GET routing: unmatched paths fall back to the frontend, never to 404. */
  function RouteGet(segs: seq<string>): (a: Action)
    ensures a != NoRoute
  {
    if segs == ["request", "museum-list"] then MuseumList
    else if |segs| == 3 && segs[0] == "request" && GetById(segs[1], 0).Some? then
      match ParseId(segs[2])
      case None => MalformedId
      case Some(id) => GetById(segs[1], id).value
    else ServeFrontend
  }

  /** The POST routes without an id segment. */
  function PostAction(name: string): (a: Action)
    ensures a != NoRoute <==> name in {"login", "register", "add-museum", "add-collection", "edit-collection",
                                       "add-artifact", "edit-artifact", "review-edit", "user-profile", "reset-password"}
    ensures a != NoRoute ==> a.ReachesGateway() && !a.DeleteMuseum? && !a.DeleteArtifact?
  {
    if name == "login" then Login
    else if name == "register" then Register
    else if name == "add-museum" then AddMuseum
    else if name == "add-collection" then AddCollection
    else if name == "edit-collection" then EditCollection
    else if name == "add-artifact" then AddArtifact
    else if name == "edit-artifact" then EditArtifact
    else if name == "review-edit" then ReviewEdit
    else if name == "user-profile" then UserProfile
    else if name == "reset-password" then ResetPassword
    else NoRoute
  }

  /**
   * POST routing: /request/{name} and /request/{name}/{id}. The third segment
   * is parsed before the name is looked at, so a malformed one is a 500 under
   * every name and a well-formed one is a 404 unless the name takes an id.
   */
  function RoutePost(segs: seq<string>): (a: Action)
    ensures a != ServeFrontend
  {
    if |segs| == 2 && segs[0] == "request" then PostAction(segs[1])
    else if |segs| == 3 && segs[0] == "request" then
      match ParseId(segs[2])
      case None => MalformedId
      case Some(id) =>
        if segs[1] == "delete-museum" then DeleteMuseum(id)
        else if segs[1] == "delete-artifact" then DeleteArtifact(id)
        else NoRoute
    else NoRoute
  }

  /** The route of a request; PUT and DEL have none. */
  function Route(m: Method, path: string): (a: Action)
    ensures m == PUT || m == DEL ==> a == NoRoute
    ensures m == GET ==> a != NoRoute
  {
    match m
    case GET => RouteGet(SplitPath(path))
    case POST => RoutePost(SplitPath(path))
    case PUT => NoRoute
    case DEL => NoRoute
  }

  /** A malformed id after an id-carrying GET prefix is a 500, a well-formed one reaches the lookup. */
  lemma GetIdSegment(kind: string, seg: string)
    requires kind in ["museum", "collection", "artifact", "edit"]
    ensures ParseId(seg).None? ==> RouteGet(["request", kind, seg]) == MalformedId
    ensures ParseId(seg).Some? ==> RouteGet(["request", kind, seg]) == GetById(kind, ParseId(seg).value).value
  {
  }

  /** POST to any three-segment /request path with a malformed third segment is a 500. */
  lemma PostIdSegment(name: string, seg: string)
    requires ParseId(seg).None?
    ensures RoutePost(["request", name, seg]) == MalformedId
  {
  }

  /** Only paths under /request reach the gateway. */
  lemma OnlyRequestPathsReachGateway(m: Method, segs: seq<string>)
    requires segs == [] || segs[0] != "request"
    ensures !RouteGet(segs).ReachesGateway()
    ensures !RoutePost(segs).ReachesGateway()
  {
  }

  /** /request/{name} splits into "request" and the name. */
  lemma SplitRequestPath(name: string)
    requires name != [] && '/' !in name
    ensures SplitPath("/request/" + name) == ["request", name]
  {
    var segs := ["request", name];
    assert JoinPath(segs[1..]) == "/" + name by {
      assert JoinPath(segs[2..]) == [];
    }
    assert JoinPath(segs) == "/request/" + name;
    SplitJoinRoundTrip(segs);
  }

  /** /request/{name}/{seg} splits into "request", the name and the segment. */
  lemma SplitRequestIdPath(name: string, seg: string)
    requires name != [] && '/' !in name
    requires seg != [] && '/' !in seg
    ensures SplitPath("/request/" + name + "/" + seg) == ["request", name, seg]
  {
    var segs := ["request", name, seg];
    assert JoinPath(segs[2..]) == "/" + seg by {
      assert JoinPath(segs[3..]) == [];
    }
    assert JoinPath(segs[1..]) == "/" + name + "/" + seg;
    assert JoinPath(segs) == "/request/" + name + "/" + seg;
    SplitJoinRoundTrip(segs);
  }

  lemma DigitsHaveNoSlash(s: string)
    requires AllDigits(s)
    ensures '/' !in s
  {
  }

  /** /request/museum/{INT_MAX} reaches the museum lookup with INT_MAX. */
  lemma IntMaxMuseumIsLookedUp()
    ensures Route(GET, "/request/" + "museum" + "/" + ShowId(INT_MAX)) == MuseumById(INT_MAX)
  {
    var seg := ShowId(INT_MAX);
    ParseShowRoundTrip(INT_MAX);
    DigitsHaveNoSlash(seg);
    SplitRequestIdPath("museum", seg);
    GetIdSegment("museum", seg);
  }

  /** /request/museum/{INT_MAX + 1} is a 500: the id does not fit, and nothing is looked up. */
  lemma OverflowingIdIsMalformed()
    ensures Route(GET, "/request/" + "museum" + "/" + ShowId(INT_MAX + 1)) == MalformedId
  {
    var seg := ShowId(INT_MAX + 1);
    ValueOfShow(INT_MAX + 1);
    DigitsHaveNoSlash(seg);
    SplitRequestIdPath("museum", seg);
    GetIdSegment("museum", seg);
  }
}
