/**
 * How the server picks a handler: routes are tried in the order they are
 * registered and the first whose method and path pattern match the
 * request handles it. A pattern segment `:name` matches any non-empty
 * path segment.
 */
module Routing {
  import opened Js

  datatype Verb = GET | POST | PUT | DELETE

  datatype Segment = Lit(text: string) | Param(name: string)

  datatype Endpoint =
    | Register | Login
    | ViewUser | UpdateUser | DeleteUser
    | ViewRole | CreateRole | UpdateRole | DeleteRole
    | ViewExpert | CreateExpert | UpdateExpert | DeleteExpert
    | ViewExpertises | CreateExpertises | UpdateExpertises | DeleteExpertises
    | ViewDocuments | CreateDocuments | UpdateDocuments | DeleteDocuments | Download
    | ViewPaiements | CreatePaiements | UpdatePaiements | DeletePaiements
    | ViewPolices | CreatePolices | UpdatePolices | DeletePolices
    | SinistresOfUser | SinistresOfExpert | ViewSinistres | CreateSinistres | UpdateSinistres | DeleteSinistres

  datatype Route = Route(verb: Verb, pattern: seq<Segment>, endpoint: Endpoint)

  /** The server's routes in the order they are registered. */
  const Routes: seq<Route> := [
    Route(POST, [Lit("register")], Register),
    Route(POST, [Lit("login")], Login),
    Route(GET, [Lit("viewuser")], ViewUser),
    Route(PUT, [Lit("updateuser"), Param("id")], UpdateUser),
    Route(DELETE, [Lit("deleteuser"), Param("id")], DeleteUser),
    Route(GET, [Lit("viewrole")], ViewRole),
    Route(POST, [Lit("createrole")], CreateRole),
    Route(PUT, [Lit("updaterole"), Param("id")], UpdateRole),
    Route(DELETE, [Lit("deleterole"), Param("id")], DeleteRole),
    Route(GET, [Lit("viewexpert")], ViewExpert),
    Route(POST, [Lit("createexpert")], CreateExpert),
    Route(PUT, [Lit("updateexpert"), Param("id")], UpdateExpert),
    Route(DELETE, [Lit("deleteexpert"), Param("id")], DeleteExpert),
    Route(GET, [Lit("viewexpertises")], ViewExpertises),
    Route(POST, [Lit("createexpertises")], CreateExpertises),
    Route(PUT, [Lit("updateexpertises"), Param("id")], UpdateExpertises),
    Route(DELETE, [Lit("deleteexpertises"), Param("id")], DeleteExpertises),
    Route(GET, [Lit("viewdocuments")], ViewDocuments),
    Route(POST, [Lit("createdocuments")], CreateDocuments),
    Route(PUT, [Lit("updatedocuments"), Param("id")], UpdateDocuments),
    Route(DELETE, [Lit("deletedocuments"), Param("id")], DeleteDocuments),
    Route(GET, [Lit("download"), Param("id")], Download),
    Route(GET, [Lit("viewpaiements")], ViewPaiements),
    Route(POST, [Lit("createpaiements")], CreatePaiements),
    Route(PUT, [Lit("updatepaiements"), Param("id")], UpdatePaiements),
    Route(DELETE, [Lit("deletepaiements"), Param("id")], DeletePaiements),
    Route(GET, [Lit("viewpolices")], ViewPolices),
    Route(POST, [Lit("createpolices")], CreatePolices),
    Route(PUT, [Lit("updatepolices"), Param("id")], UpdatePolices),
    Route(DELETE, [Lit("deletepolices"), Param("id")], DeletePolices),
    Route(GET, [Lit("viewsinistres"), Param("userId")], SinistresOfUser),
    Route(GET, [Lit("viewsinistres"), Param("expertId")], SinistresOfExpert),
    Route(GET, [Lit("viewsinistres")], ViewSinistres),
    Route(POST, [Lit("createsinistres")], CreateSinistres),
    Route(PUT, [Lit("updatesinistres"), Param("id")], UpdateSinistres),
    Route(DELETE, [Lit("deletesinistres"), Param("id")], DeleteSinistres)
  ]

  /** A pattern matches a path of as many segments, literal for literal. */
  predicate Matches(pattern: seq<Segment>, path: seq<string>) {
    |pattern| == |path| &&
    forall i :: 0 <= i < |pattern| ==>
      (pattern[i].Lit? ==> path[i] == pattern[i].text) && (pattern[i].Param? ==> path[i] != "")
  }

  predicate Handles(r: Route, verb: Verb, path: seq<string>) {
    r.verb == verb && Matches(r.pattern, path)
  }

  /** The position of the first route, from `from` on, that handles the request. */
  function Dispatch(routes: seq<Route>, verb: Verb, path: seq<string>, from: nat): (r: Option<nat>)
    requires from <= |routes|
    ensures r.Some? ==> from <= r.value < |routes| && Handles(routes[r.value], verb, path)
    ensures r.Some? ==> forall k :: from <= k < r.value ==> !Handles(routes[k], verb, path)
    ensures r.None? ==> forall k :: from <= k < |routes| ==> !Handles(routes[k], verb, path)
    decreases |routes| - from
  {
    if from == |routes| then None
    else if Handles(routes[from], verb, path) then Some(from)
    else Dispatch(routes, verb, path, from + 1)
  }

  /** The values a matched path gives to the pattern's parameters. */
  function Params(pattern: seq<Segment>, path: seq<string>): (m: map<string, string>)
    requires |pattern| == |path|
    ensures forall i :: 0 <= i < |pattern| && pattern[i].Param? ==> pattern[i].name in m
    decreases |pattern|
  {
    if pattern == [] then map[]
    else
      var rest := Params(pattern[1..], path[1..]);
      if pattern[0].Param? then rest[pattern[0].name := path[0]] else rest
  }

  /** Two patterns that differ only in the names of their parameters. */
  predicate SameShape(p: seq<Segment>, q: seq<Segment>) {
    |p| == |q| &&
    forall i :: 0 <= i < |p| ==> p[i].Lit? == q[i].Lit? && (p[i].Lit? ==> p[i].text == q[i].text)
  }

  /**
   * A route registered after another with the same method and the same
   * shape of path is never chosen: every request it would match is taken
   * by the earlier one.
   */
  lemma ShadowedNeverChosen(routes: seq<Route>, i: nat, j: nat, verb: Verb, path: seq<string>)
    requires i < j < |routes|
    requires routes[i].verb == routes[j].verb && SameShape(routes[i].pattern, routes[j].pattern)
    ensures Dispatch(routes, verb, path, 0) != Some(j)
  {
    if Handles(routes[j], verb, path) {
      assert Handles(routes[i], verb, path);
    }
  }

  /** Dispatch picks the first route that handles the request. */
  lemma {:induction false} DispatchFindsFirst(routes: seq<Route>, verb: Verb, path: seq<string>, from: nat, to: nat)
    requires from <= to < |routes| && Handles(routes[to], verb, path)
    requires forall k :: from <= k < to ==> !Handles(routes[k], verb, path)
    ensures Dispatch(routes, verb, path, from) == Some(to)
    decreases |routes| - from
  {
    if from < to {
      DispatchFindsFirst(routes, verb, path, from + 1, to);
    }
  }

  /** `GET /viewsinistres/<id>` is served by the per-user route, with the id as userId. */
  lemma UserClaimsRouteServes(id: string)
    requires id != ""
    ensures Dispatch(Routes, GET, ["viewsinistres", id], 0) == Some(30)
  {
    var path := ["viewsinistres", id];
    var user := Routes[30];
    assert user == Route(GET, [Lit("viewsinistres"), Param("userId")], SinistresOfUser);
    assert Handles(user, GET, path);
    forall k | 0 <= k < 30 ensures !Handles(Routes[k], GET, path) {
      EarlierRouteDiffers(k);
      NotHandledByOther(Routes[k], path);
    }
    DispatchFindsFirst(Routes, GET, path, 0, 30);
  }

  lemma NotHandledByOther(r: Route, path: seq<string>)
    requires |path| > 0 && (r.verb != GET || (|r.pattern| > 0 && r.pattern[0].Lit? && r.pattern[0].text != path[0]))
    ensures !Handles(r, GET, path)
  {
  }

  /** The per-user route passes the path segment on as userId. */
  lemma UserClaimsParams(id: string)
    ensures Params(Routes[30].pattern, ["viewsinistres", id]) == map["userId" := id]
  {
    assert Routes[30].pattern == [Lit("viewsinistres"), Param("userId")];
  }

  /** No route before position 30 is a GET under /viewsinistres. */
  lemma EarlierRouteDiffers(k: nat)
    requires k < 30
    ensures Routes[k].verb != GET || (|Routes[k].pattern| > 0 && Routes[k].pattern[0].Lit? && Routes[k].pattern[0].text != "viewsinistres")
  {
  }

  /** Only position 31 serves the claims of an expert. */
  lemma ExpertRouteIsThirtyOne(k: nat)
    requires k < |Routes| && Routes[k].endpoint == SinistresOfExpert
    ensures k == 31
  {
  }

  /**
   * `GET /viewsinistres/:expertId` never runs: `GET /viewsinistres/:userId`
   * is registered just before it with the same shape, so whatever the
   * request, the route chosen is not the expert one.
   */
  lemma ExpertClaimsRouteUnreachable(verb: Verb, path: seq<string>)
    ensures var r := Dispatch(Routes, verb, path, 0);
            r.Some? ==> Routes[r.value].endpoint != SinistresOfExpert
  {
    assert Routes[30] == Route(GET, [Lit("viewsinistres"), Param("userId")], SinistresOfUser);
    assert Routes[31] == Route(GET, [Lit("viewsinistres"), Param("expertId")], SinistresOfExpert);
    forall k | 0 <= k < |Routes| && Routes[k].endpoint == SinistresOfExpert ensures k == 31 {
      ExpertRouteIsThirtyOne(k);
    }
    ShadowedEndpointUnreachable(Routes, 30, 31, verb, path);
  }

  /** An endpoint served only by a shadowed route is never reached. */
  lemma ShadowedEndpointUnreachable(routes: seq<Route>, i: nat, j: nat, verb: Verb, path: seq<string>)
    requires i < j < |routes|
    requires routes[i].verb == routes[j].verb && SameShape(routes[i].pattern, routes[j].pattern)
    requires forall k :: 0 <= k < |routes| && routes[k].endpoint == routes[j].endpoint ==> k == j
    ensures var r := Dispatch(routes, verb, path, 0);
            r.Some? ==> routes[r.value].endpoint != routes[j].endpoint
  {
    ShadowedNeverChosen(routes, i, j, verb, path);
  }

  /** No route has the shape `GET /viewpolices/<id>`. */
  lemma NoPolicesOfUserRoute(k: nat)
    requires k < |Routes|
    ensures Routes[k].verb != GET || |Routes[k].pattern| != 2 ||
            (Routes[k].pattern[0].Lit? && Routes[k].pattern[0].text != "viewpolices")
  {
  }

  /** `GET /viewpolices/<uid>` is served by no route: the framework answers 404. */
  lemma PolicesOfUserNotRouted(uid: string)
    ensures Dispatch(Routes, GET, ["viewpolices", uid], 0).None?
  {
    var path := ["viewpolices", uid];
    forall k | 0 <= k < |Routes| ensures !Handles(Routes[k], GET, path) {
      NoPolicesOfUserRoute(k);
    }
  }

  /** No route is a POST to /createuser: the users page's add request has no handler. */
  lemma CreateUserNotRouted()
    ensures Dispatch(Routes, POST, ["createuser"], 0).None?
  {
    var path := ["createuser"];
    forall k | 0 <= k < |Routes| ensures !Handles(Routes[k], POST, path) {
      NoCreateUserRoute(k);
    }
  }

  lemma NoCreateUserRoute(k: nat)
    requires k < |Routes|
    ensures Routes[k].verb != POST || |Routes[k].pattern| != 1 ||
            (Routes[k].pattern[0].Lit? && Routes[k].pattern[0].text != "createuser")
  {
  }

  /** No route before position 26 is a GET under /viewpolices. */
  lemma BeforePolicesListing(k: nat)
    requires k < 26
    ensures Routes[k].verb != GET || (|Routes[k].pattern| > 0 && Routes[k].pattern[0].Lit? && Routes[k].pattern[0].text != "viewpolices")
  {
  }

  /**
   * `GET /viewpolices`, with or without a query string (which is not part
   * of the path), is served by the full policy listing.
   */
  lemma PolicesListingServes()
    ensures Dispatch(Routes, GET, ["viewpolices"], 0) == Some(26)
    ensures Routes[26].endpoint == ViewPolices
  {
    var path := ["viewpolices"];
    assert Routes[26] == Route(GET, [Lit("viewpolices")], ViewPolices);
    assert Handles(Routes[26], GET, path);
    forall k | 0 <= k < 26 ensures !Handles(Routes[k], GET, path) {
      BeforePolicesListing(k);
      NotHandledByOther(Routes[k], path);
    }
    DispatchFindsFirst(Routes, GET, path, 0, 26);
  }
}
