/**
 * The expert's claim page (the `Sinistre` component): every claim is
 * fetched, its expert normalised to a number or null, and the page
 * shows only the claims of the expert whose id is in storage, narrowed
 * by the search box.
 */
module ExpertClaims {
  import opened Js
  import opened Lists
  import opened Records

  /** A claim; `numero` is None when the row has no Numero_Sinistre. */
  datatype Claim = Claim(id: int, numero: Option<string>, utilisateurId: JsValue, expert: JsValue, kind: string)

  /** The normalisation of one fetched claim: a missing or null expert becomes null, any other `Number(expert)`. */
  function Normalize(c: Claim): (n: Claim)
    ensures IsNullish(c.expert) ==> n.expert == Null
    ensures !IsNullish(c.expert) ==> n.expert == Number(ToNumber(c.expert))
    ensures n.(expert := c.expert) == c
  {
    c.(expert := if IsNullish(c.expert) then Null else Number(ToNumber(c.expert)))
  }

  function NormalizeAll(claims: seq<Claim>): (r: seq<Claim>)
    ensures |r| == |claims| && forall i :: 0 <= i < |claims| ==> r[i] == Normalize(claims[i])
  {
    seq(|claims|, i requires 0 <= i < |claims| => Normalize(claims[i]))
  }

  /** After normalisation every expert is null or a number, never text or undefined. */
  lemma NormalizedExperts(claims: seq<Claim>)
    ensures forall c :: c in NormalizeAll(claims) ==> c.expert.Null? || c.expert.Number?
  {
    var r := NormalizeAll(claims);
    forall c | c in r ensures c.expert.Null? || c.expert.Number? {
      var i :| 0 <= i < |r| && r[i] == c;
    }
  }

  /** `currentExpertId`: the stored user id when it is non-empty, else "". */
  function CurrentExpertId(stored: Option<string>): (id: string)
    ensures stored.Some? ==> id == stored.value
    ensures stored.None? ==> id == ""
  {
    if stored.Some? && stored.value != "" then stored.value else ""
  }

  /** The first stage: `s.expert === Number(currentExpertId)`. */
  predicate AssignedTo(c: Claim, currentExpertId: string) {
    StrictEquals(c.expert, Number(ParseNumber(currentExpertId)))
  }

  function Assigned(claims: seq<Claim>, currentExpertId: string): (r: seq<Claim>)
    ensures IsSubsequence(r, claims)
    ensures forall c :: c in r ==>
      c in claims && ParseNumber(currentExpertId).Num? && c.expert == Number(ParseNumber(currentExpertId))
    ensures forall c :: c in claims && ParseNumber(currentExpertId).Num? && c.expert == Number(ParseNumber(currentExpertId)) ==>
      c in r
  {
    FilterMembership(claims, c => AssignedTo(c, currentExpertId));
    FilterIsSubsequence(claims, c => AssignedTo(c, currentExpertId));
    Filter(claims, c => AssignedTo(c, currentExpertId))
  }

  /** A claim whose expert is null is never shown, whoever is signed in. */
  lemma UnassignedNeverShown(claims: seq<Claim>, currentExpertId: string)
    ensures forall c :: c in Assigned(claims, currentExpertId) ==> !c.expert.Null?
  {
  }

  /** A stored id that is not a number shows no claim at all. */
  lemma NonNumericIdShowsNothing(claims: seq<Claim>, currentExpertId: string)
    requires ParseNumber(currentExpertId) == NaN
    ensures Assigned(claims, currentExpertId) == []
  {
    FilterKeepsNone(claims, c => AssignedTo(c, currentExpertId));
  }

  /** Without a stored id the page compares with `Number("")`, which is 0. */
  lemma NoStoredIdMeansExpertZero(claims: seq<Claim>)
    ensures forall c :: c in Assigned(claims, CurrentExpertId(None)) <==> c in claims && c.expert == Number(Num(0))
  {
    assert Trim("") == "";
  }

  function ClientName(c: Claim, users: seq<User>): string {
    NameOr(users, c.utilisateurId, "")
  }

  /** The second stage: a missing Numero_Sinistre does not match. */
  predicate Matches(c: Claim, users: seq<User>, term: string) {
    (c.numero.Some? && CiIncludes(c.numero.value, term)) ||
    CiIncludes(ClientName(c, users), term) || CiIncludes(c.kind, term)
  }

  function Search(claims: seq<Claim>, users: seq<User>, term: string): (r: seq<Claim>)
    ensures IsSubsequence(r, claims)
    ensures forall c :: c in r ==> c in claims && Matches(c, users, term)
    ensures forall c :: c in claims && Matches(c, users, term) ==> c in r
  {
    FilterMembership(claims, c => Matches(c, users, term));
    FilterIsSubsequence(claims, c => Matches(c, users, term));
    Filter(claims, c => Matches(c, users, term))
  }

  /** `filteredSinistres` over the fetched list. */
  function Shown(fetched: seq<Claim>, stored: Option<string>, users: seq<User>, term: string): seq<Claim> {
    Search(Assigned(NormalizeAll(fetched), CurrentExpertId(stored)), users, term)
  }

  /** Every claim shown is a normalised claim of the signed-in expert that matches the search. */
  lemma ShownAreOwnMatches(fetched: seq<Claim>, stored: Option<string>, users: seq<User>, term: string)
    ensures IsSubsequence(Shown(fetched, stored, users, term), Assigned(NormalizeAll(fetched), CurrentExpertId(stored)))
    ensures forall c :: c in Shown(fetched, stored, users, term) ==>
      c in NormalizeAll(fetched) && c.expert == Number(ParseNumber(CurrentExpertId(stored))) && Matches(c, users, term)
  {
  }

  /** An empty search keeps the whole first stage. */
  lemma EmptySearchKeepsAssigned(claims: seq<Claim>, users: seq<User>)
    ensures Search(claims, users, "") == claims
  {
    forall c | c in claims ensures Matches(c, users, "") {
      CiIncludesEmpty(c.kind);
    }
    FilterKeepsAll(claims, c => Matches(c, users, ""));
  }

  /** `expertNameFor` */
  function ExpertNameFor(users: seq<User>, id: JsValue): (name: string)
    ensures IsNullish(id) ==> name == "N/A"
    ensures !IsNullish(id) && UserById(users, id).Some? && Truthy(UserById(users, id).value.nom) ==>
      name == ToStr(UserById(users, id).value.nom)
    ensures !IsNullish(id) && (UserById(users, id).None? || !Truthy(UserById(users, id).value.nom)) ==>
      name == ToStr(id)
  {
    if IsNullish(id) then "N/A" else NameOr(users, id, ToStr(id))
  }
}
