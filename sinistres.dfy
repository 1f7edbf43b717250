/**
 * The admin claim page: the search over the claim list, the two role
 * pickers and the expert column's fallbacks.
 */
module Sinistres {
  import opened Js
  import opened Lists
  import opened Records

  /** A claim as the page lists it; `expert` may be missing or null. */
  datatype Sinistre = Sinistre(id: int, numero: string, utilisateurId: JsValue, policeId: JsValue, expert: JsValue,
                               dateDeclaration: string, kind: string, description: string, statut: string)

  datatype PoliceRef = PoliceRef(id: int, numeroPolice: string)

  /** `polices.find(p => p.id === s.police_id)?.numero_police || ""` */
  function PoliceNumber(s: Sinistre, polices: seq<PoliceRef>): (n: string)
    ensures n != "" ==> exists p :: p in polices && s.policeId == Number(Num(p.id)) && p.numeroPolice == n
  {
    match Find(polices, (p: PoliceRef) => StrictEquals(Number(Num(p.id)), s.policeId))
    case Some(p) => p.numeroPolice
    case None => ""
  }

  function ClientName(s: Sinistre, users: seq<User>): string {
    NameOr(users, s.utilisateurId, "")
  }

  /**
   * The search test. The id's digits are searched for the lower-cased
   * term without lowering the id; every other field is compared without
   * regard to case.
   */
  predicate Matches(s: Sinistre, users: seq<User>, polices: seq<PoliceRef>, term: string) {
    Includes(IntToString(s.id), Lower(term)) ||
    CiIncludes(ClientName(s, users), term) || CiIncludes(PoliceNumber(s, polices), term) ||
    CiIncludes(s.kind, term) || CiIncludes(s.description, term) || CiIncludes(s.statut, term)
  }

  /** `filteredSinistres` */
  function Search(sinistres: seq<Sinistre>, users: seq<User>, polices: seq<PoliceRef>, term: string): (r: seq<Sinistre>)
    ensures IsSubsequence(r, sinistres)
    ensures forall s :: s in r ==> s in sinistres && Matches(s, users, polices, term)
    ensures forall s :: s in sinistres && Matches(s, users, polices, term) ==> s in r
  {
    FilterMembership(sinistres, s => Matches(s, users, polices, term));
    FilterIsSubsequence(sinistres, s => Matches(s, users, polices, term));
    Filter(sinistres, s => Matches(s, users, polices, term))
  }

  lemma EmptySearchKeepsAll(sinistres: seq<Sinistre>, users: seq<User>, polices: seq<PoliceRef>)
    ensures Search(sinistres, users, polices, "") == sinistres
  {
    forall s | s in sinistres ensures Matches(s, users, polices, "") {
      CiIncludesEmpty(s.kind);
    }
    FilterKeepsAll(sinistres, s => Matches(s, users, polices, ""));
  }

  /** A claim is found by the decimal digits of its id. */
  lemma FoundById(sinistres: seq<Sinistre>, users: seq<User>, polices: seq<PoliceRef>, i: int)
    requires 0 <= i < |sinistres|
    ensures sinistres[i] in Search(sinistres, users, polices, IntToString(sinistres[i].id))
  {
    var digits := IntToString(sinistres[i].id);
    LowerOfNumeral(sinistres[i].id);
    IncludesSelf(digits);
  }

  /** Lowering the decimal form of a number changes nothing: it has no letters. */
  lemma LowerOfNumeral(n: int)
    ensures Lower(IntToString(n)) == IntToString(n)
  {
    var s := IntToString(n);
    forall i | 0 <= i < |s| ensures LowerChar(s[i]) == s[i] {
      NumeralChars(n, i);
    }
  }

  lemma NumeralChars(n: int, i: int)
    requires 0 <= i < |IntToString(n)|
    ensures IntToString(n)[i] == '-' || IsDigit(IntToString(n)[i])
  {
  }

  lemma SearchNarrows(sinistres: seq<Sinistre>, users: seq<User>, polices: seq<PoliceRef>, t: string, u: string)
    ensures forall s :: s in Search(sinistres, users, polices, t + u) ==> s in Search(sinistres, users, polices, t)
  {
    forall s | s in Search(sinistres, users, polices, t + u) ensures Matches(s, users, polices, t) {
      if Includes(IntToString(s.id), Lower(t + u)) {
        assert Lower(t + u) == Lower(t) + Lower(u);
        IncludesExtend(IntToString(s.id), Lower(t), Lower(u));
      } else if CiIncludes(ClientName(s, users), t + u) {
        CiIncludesExtend(ClientName(s, users), t, u);
      } else if CiIncludes(PoliceNumber(s, polices), t + u) {
        CiIncludesExtend(PoliceNumber(s, polices), t, u);
      } else if CiIncludes(s.kind, t + u) {
        CiIncludesExtend(s.kind, t, u);
      } else if CiIncludes(s.description, t + u) {
        CiIncludesExtend(s.description, t, u);
      } else {
        CiIncludesExtend(s.statut, t, u);
      }
    }
  }

  /** The two pickers of the claim forms. */
  function ClientPicker(users: seq<User>): (r: seq<User>)
    ensures forall u :: u in r <==> u in users && u.roleId == Number(Num(6))
  {
    UsersWithRole(users, 6)
  }

  function ExpertPicker(users: seq<User>): (r: seq<User>)
    ensures forall u :: u in r <==> u in users && u.roleId == Number(Num(8))
  {
    UsersWithRole(users, 8)
  }

  /** The expert column: the expert's name, else the raw expert id, else "-". */
  function ExpertColumn(s: Sinistre, users: seq<User>): (c: string)
    ensures UserById(users, s.expert).Some? && Truthy(UserById(users, s.expert).value.nom) ==>
      c == ToStr(UserById(users, s.expert).value.nom)
    ensures (UserById(users, s.expert).None? || !Truthy(UserById(users, s.expert).value.nom)) && Truthy(s.expert) ==>
      c == ToStr(s.expert)
    ensures (UserById(users, s.expert).None? || !Truthy(UserById(users, s.expert).value.nom)) && !Truthy(s.expert) ==>
      c == "-"
  {
    var name := NameOr(users, s.expert, "");
    if name != "" then name else if Truthy(s.expert) then ToStr(s.expert) else "-"
  }

  /** No user has a missing or null id, so an unassigned claim always shows "-". */
  lemma UnassignedShowsDash(s: Sinistre, users: seq<User>)
    requires IsNullish(s.expert)
    ensures ExpertColumn(s, users) == "-"
  {
  }

  /** `handleDelete`: the list shown after the delete request, which went through or failed. */
  method HandleDelete(shown: seq<Sinistre>, id: int, succeeded: bool) returns (after: seq<Sinistre>)
    ensures succeeded ==> IsSubsequence(after, shown)
    ensures succeeded ==> forall s :: s in after <==> s in shown && s.id != id
    ensures !succeeded ==> after == shown
  {
    var page := new Displayed(shown, (s: Sinistre) => s.id);
    page.HandleDelete(id, succeeded);
    after := page.items;
  }
}
