/**
 * The admin expertise page: the search over the expertises, whose claim
 * and expert columns fall back to the raw ids, and the expert list.
 */
module Expertises {
  import opened Js
  import opened Lists
  import opened Records

  datatype Expertise = Expertise(id: int, sinistreId: JsValue, expert: JsValue, rapport: string, dateEvaluation: string)

  /**
   * `(sinistres.find(...)?.Numero_Sinistre || d.sinistre_id).toString()`:
   * the claim's number, else the raw claim id as text; a null or missing
   * raw id throws (None).
   */
  function ClaimLabel(e: Expertise, claims: seq<ClaimRef>): (r: Option<string>)
    ensures ClaimNumberOr(claims, e.sinistreId, "") != "" ==> r == Some(ClaimNumberOr(claims, e.sinistreId, ""))
    ensures ClaimNumberOr(claims, e.sinistreId, "") == "" ==> r == CallToString(e.sinistreId)
  {
    var n := ClaimNumberOr(claims, e.sinistreId, "");
    if n != "" then Some(n) else CallToString(e.sinistreId)
  }

  /** `(users.find(...)?.nom || d.expert).toString()`: the expert's name, else the raw expert id as text, which throws when null. */
  function ExpertLabel(e: Expertise, experts: seq<User>): (r: Option<string>)
    ensures NameOr(experts, e.expert, "") != "" ==> r == Some(NameOr(experts, e.expert, ""))
    ensures NameOr(experts, e.expert, "") == "" ==> r == CallToString(e.expert)
  {
    var n := NameOr(experts, e.expert, "");
    if n != "" then Some(n) else CallToString(e.expert)
  }

  /** `label.toLowerCase().includes(search.toLowerCase())` on a label that may have thrown. */
  function LabelTest(shown: Option<string>, term: string): Option<bool> {
    match shown
    case Some(text) => Some(CiIncludes(text, term))
    case None => None
  }

  /** The test: claim, expert, report, date, left to right; the two labels are read only when reached. */
  function Test(e: Expertise, claims: seq<ClaimRef>, experts: seq<User>, term: string): Option<bool> {
    OrThen(LabelTest(ClaimLabel(e, claims), term),
      OrThen(LabelTest(ExpertLabel(e, experts), term),
        Some(CiIncludes(e.rapport, term) || CiIncludes(e.dateEvaluation, term))))
  }

  /** The test throws exactly when the claim label throws, or the claim misses and the expert label throws. */
  lemma TestThrows(e: Expertise, claims: seq<ClaimRef>, experts: seq<User>, term: string)
    ensures Test(e, claims, experts, term).None? <==>
              ClaimLabel(e, claims).None? ||
              (!CiIncludes(ClaimLabel(e, claims).value, term) && ExpertLabel(e, experts).None?)
  {
  }

  predicate Kept(e: Expertise, claims: seq<ClaimRef>, experts: seq<User>, term: string) {
    Test(e, claims, experts, term) == Some(true)
  }

  /** `filteredData`: None when the test throws for some expertise; else the kept expertises, in order. */
  function Search(data: seq<Expertise>, claims: seq<ClaimRef>, experts: seq<User>, term: string): (r: Option<seq<Expertise>>)
    ensures r.None? <==> exists e :: e in data && Test(e, claims, experts, term).None?
    ensures r.Some? ==> IsSubsequence(r.value, data)
    ensures r.Some? ==> forall e :: e in r.value <==> e in data && Kept(e, claims, experts, term)
  {
    if exists e :: e in data && Test(e, claims, experts, term).None? then None
    else
      FilterMembership(data, e => Kept(e, claims, experts, term));
      FilterIsSubsequence(data, e => Kept(e, claims, experts, term));
      Some(Filter(data, e => Kept(e, claims, experts, term)))
  }

  /** An expertise without a claim id breaks the page for every term: no claim has a null id. */
  lemma NullClaimIdBreaksSearch(data: seq<Expertise>, claims: seq<ClaimRef>, experts: seq<User>, i: int, term: string)
    requires 0 <= i < |data| && IsNullish(data[i].sinistreId)
    ensures Search(data, claims, experts, term).None?
  {
    assert ClaimLabel(data[i], claims).None?;
    assert data[i] in data;
  }

  /** The empty term renders exactly when every claim label can be read, and then keeps every expertise. */
  lemma EmptySearchKeepsAll(data: seq<Expertise>, claims: seq<ClaimRef>, experts: seq<User>)
    ensures Search(data, claims, experts, "").Some? <==> forall e :: e in data ==> ClaimLabel(e, claims).Some?
    ensures Search(data, claims, experts, "").Some? ==> Search(data, claims, experts, "") == Some(data)
  {
    forall e | e in data && ClaimLabel(e, claims).Some? ensures Kept(e, claims, experts, "") {
      CiIncludesEmpty(ClaimLabel(e, claims).value);
    }
    if forall e :: e in data ==> ClaimLabel(e, claims).Some? {
      FilterKeepsAll(data, e => Kept(e, claims, experts, ""));
    }
  }

  /** A page that renders for the longer term renders for the shorter one, and shows at least as much. */
  lemma SearchNarrows(data: seq<Expertise>, claims: seq<ClaimRef>, experts: seq<User>, t: string, u: string)
    ensures Search(data, claims, experts, t + u).Some? ==>
              Search(data, claims, experts, t).Some? &&
              forall e :: e in Search(data, claims, experts, t + u).value ==> e in Search(data, claims, experts, t).value
  {
    forall e | e in data && Test(e, claims, experts, t + u).Some?
      ensures Test(e, claims, experts, t).Some?
      ensures Kept(e, claims, experts, t + u) ==> Kept(e, claims, experts, t)
    {
      TestNarrows(e, claims, experts, t, u);
    }
  }

  lemma TestNarrows(e: Expertise, claims: seq<ClaimRef>, experts: seq<User>, t: string, u: string)
    requires Test(e, claims, experts, t + u).Some?
    ensures Test(e, claims, experts, t).Some?
    ensures Kept(e, claims, experts, t + u) ==> Kept(e, claims, experts, t)
  {
    var c := ClaimLabel(e, claims).value;
    if CiIncludes(c, t + u) {
      CiIncludesExtend(c, t, u);
    } else {
      var x := ExpertLabel(e, experts).value;
      if CiIncludes(x, t + u) {
        CiIncludesExtend(x, t, u);
      } else if CiIncludes(e.rapport, t + u) {
        CiIncludesExtend(e.rapport, t, u);
      } else if CiIncludes(e.dateEvaluation, t + u) {
        CiIncludesExtend(e.dateEvaluation, t, u);
      }
    }
  }

  /**
   * An expertise whose claim is not in the claim list is still found by
   * its claim id, and one whose expert is not in the list by its expert id.
   */
  lemma FoundByRawIds(data: seq<Expertise>, claims: seq<ClaimRef>, experts: seq<User>, i: int, claimId: int, expertId: int)
    requires 0 <= i < |data| && data[i].sinistreId == Number(Num(claimId)) && data[i].expert == Number(Num(expertId))
    requires forall c :: c in claims ==> c.id != claimId
    requires forall u :: u in experts ==> u.id != expertId
    ensures Kept(data[i], claims, experts, IntToString(claimId))
    ensures Kept(data[i], claims, experts, IntToString(expertId))
    ensures Search(data, claims, experts, IntToString(claimId)).Some? ==>
              data[i] in Search(data, claims, experts, IntToString(claimId)).value
  {
    assert ClaimLabel(data[i], claims) == Some(IntToString(claimId));
    assert ExpertLabel(data[i], experts) == Some(IntToString(expertId));
    CiIncludesSameLower(IntToString(claimId), IntToString(claimId));
    CiIncludesSameLower(IntToString(expertId), IntToString(expertId));
  }

  /** The page keeps only the users whose role id is exactly 8. */
  function ExpertsListed(users: seq<User>): (r: seq<User>)
    ensures forall u :: u in r <==> u in users && u.roleId == Number(Num(8))
  {
    UsersWithRole(users, 8)
  }

  /** `handleDelete`: the list shown after the delete request, which went through or failed. */
  method HandleDelete(shown: seq<Expertise>, id: int, succeeded: bool) returns (after: seq<Expertise>)
    ensures succeeded ==> IsSubsequence(after, shown)
    ensures succeeded ==> forall e :: e in after <==> e in shown && e.id != id
    ensures !succeeded ==> after == shown
  {
    var page := new Displayed(shown, (e: Expertise) => e.id);
    page.HandleDelete(id, succeeded);
    after := page.items;
  }
}
