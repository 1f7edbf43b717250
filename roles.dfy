/**
 * The role administration page: the search over role names, the delete
 * that compares ids strictly, and the one-field add and rename bodies.
 */
module Roles {
  import opened Js
  import opened Lists

  /** A role as /viewrole lists it; a role whose name column is NULL arrives with a null `nom`. */
  datatype Role = Role(id: int, nom: JsValue)

  /** `role.nom.toLowerCase().includes(...)`: a role without a text name throws (None). */
  function Test(x: Role, term: string): Option<bool> {
    LowerIncludes(x.nom, term)
  }

  predicate Kept(x: Role, term: string) {
    Test(x, term) == Some(true)
  }

  /**
   * `filteredRoles`: the rendering throws (None) when some role has no
   * text name, whatever the term; otherwise the roles whose name holds
   * the term without regard to case, in order.
   */
  function Search(roles: seq<Role>, term: string): (r: Option<seq<Role>>)
    ensures r.None? <==> exists x :: x in roles && !x.nom.Str?
    ensures r.Some? ==> IsSubsequence(r.value, roles)
    ensures r.Some? ==> forall x :: x in r.value <==> x in roles && CiIncludes(x.nom.s, term)
  {
    if exists x :: x in roles && Test(x, term).None? then None
    else
      FilterMembership(roles, (x: Role) => Kept(x, term));
      FilterIsSubsequence(roles, (x: Role) => Kept(x, term));
      Some(Filter(roles, (x: Role) => Kept(x, term)))
  }

  /** One role with a NULL name, as the rename handler stores it, breaks the page for every term. */
  lemma NullNameBreaksSearch(roles: seq<Role>, i: int, term: string)
    requires 0 <= i < |roles| && roles[i].nom == Null
    ensures Search(roles, term).None?
  {
    assert roles[i] in roles;
  }

  /** Roles that all have text names are never refused, and the empty term keeps all of them. */
  lemma EmptySearchKeepsAll(roles: seq<Role>)
    requires forall x :: x in roles ==> x.nom.Str?
    ensures Search(roles, "") == Some(roles)
  {
    forall x | x in roles ensures Kept(x, "") {
      CiIncludesEmpty(x.nom.s);
    }
    FilterKeepsAll(roles, (x: Role) => Kept(x, ""));
  }

  /** Whether the page renders does not depend on the term, and typing more of it only narrows the result. */
  lemma SearchNarrows(roles: seq<Role>, t: string, u: string)
    ensures Search(roles, t).Some? <==> Search(roles, t + u).Some?
    ensures Search(roles, t).Some? ==> forall x :: x in Search(roles, t + u).value ==> x in Search(roles, t).value
  {
    if Search(roles, t).Some? {
      forall x | x in Search(roles, t + u).value ensures x in Search(roles, t).value {
        CiIncludesExtend(x.nom.s, t, u);
      }
    }
  }

  /** A role is found by its own name typed in any case. */
  lemma FoundByName(roles: seq<Role>, i: int, typed: string)
    requires 0 <= i < |roles| && roles[i].nom.Str? && Lower(typed) == Lower(roles[i].nom.s)
    ensures Kept(roles[i], typed)
    ensures Search(roles, typed).Some? ==> roles[i] in Search(roles, typed).value
  {
    CiIncludesSameLower(roles[i].nom.s, typed);
  }

  /** `prev.filter(role => role.id !== id)`, where the id may be a number or a string. */
  function RemoveRole(roles: seq<Role>, id: JsValue): (r: seq<Role>)
    ensures IsSubsequence(r, roles)
    ensures forall x :: x in r <==> x in roles && Number(Num(x.id)) != id
  {
    FilterMembership(roles, (x: Role) => !StrictEquals(Number(Num(x.id)), id));
    FilterIsSubsequence(roles, (x: Role) => !StrictEquals(Number(Num(x.id)), id));
    Filter(roles, (x: Role) => !StrictEquals(Number(Num(x.id)), id))
  }

  /** A numeric id removes exactly the roles with that id. */
  lemma NumericIdRemovesThatRole(roles: seq<Role>, n: int)
    ensures forall x :: x in RemoveRole(roles, Number(Num(n))) <==> x in roles && x.id != n
  {
  }

  /** An id given as text is never strictly equal to a numeric id, so nothing is removed. */
  lemma TextIdRemovesNothing(roles: seq<Role>, s: string)
    ensures RemoveRole(roles, Str(s)) == roles
  {
    FilterKeepsAll(roles, (x: Role) => !StrictEquals(Number(Num(x.id)), Str(s)));
  }

  /** The page's role list. */
  class Page {
    var roles: seq<Role>

    constructor(initial: seq<Role>)
      ensures roles == initial
    {
      roles := initial;
    }

    /** `handleDelete`: a delete that succeeded drops the matching roles; a failed one changes nothing. */
    method HandleDelete(id: JsValue, succeeded: bool)
      modifies this
      ensures succeeded ==> roles == RemoveRole(old(roles), id)
      ensures !succeeded ==> roles == old(roles)
    {
      if succeeded {
        roles := RemoveRole(roles, id);
      }
    }
  }

  /** Deleting a listed role by its id leaves no role with that id and keeps every other role. */
  method DeleteListedRole(initial: seq<Role>, i: int) returns (after: seq<Role>)
    requires 0 <= i < |initial|
    ensures forall x :: x in after ==> x.id != initial[i].id
    ensures forall x :: x in initial && x.id != initial[i].id ==> x in after
  {
    var page := new Page(initial);
    page.HandleDelete(Number(Num(initial[i].id)), true);
    after := page.roles;
  }

  /** The add and rename bodies: the typed name under `nom`. */
  function NameBody(roleName: string): (o: Object)
    ensures o.Keys == {"nom"} && Get(o, "nom") == Str(roleName)
  {
    map["nom" := Str(roleName)]
  }

  /** `handleUpdateRole`: nothing is sent while no role is selected. */
  function UpdateRequest(selected: Option<Role>, roleName: string): (r: Option<(int, Object)>)
    ensures selected.None? <==> r.None?
    ensures r.Some? ==> r.value.0 == selected.value.id && r.value.1 == NameBody(roleName)
  {
    match selected
    case None => None
    case Some(x) => Some((x.id, NameBody(roleName)))
  }
}
