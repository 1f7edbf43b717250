/**
 * The admin policy page: the search over the policy list, the client
 * picker and the body of the add and update requests.
 */
module Polices {
  import opened Js
  import opened Lists
  import opened Records

  datatype Police = Police(id: int, numeroPolice: string, utilisateurId: JsValue, kind: string,
                           dateDebut: string, dateFin: string, statut: string)

  /** The client column: the name of the first user with the policy's user id, or "". */
  function ClientName(p: Police, users: seq<User>): string {
    NameOr(users, p.utilisateurId, "")
  }

  /** The search test: the term in the number, the type, the status or the client name. */
  predicate Matches(p: Police, users: seq<User>, term: string) {
    CiIncludes(p.numeroPolice, term) || CiIncludes(p.kind, term) ||
    CiIncludes(p.statut, term) || CiIncludes(ClientName(p, users), term)
  }

  /** `filteredPolices` */
  function Search(polices: seq<Police>, users: seq<User>, term: string): (r: seq<Police>)
    ensures IsSubsequence(r, polices)
    ensures forall p :: p in r ==> p in polices && Matches(p, users, term)
    ensures forall p :: p in polices && Matches(p, users, term) ==> p in r
  {
    FilterMembership(polices, p => Matches(p, users, term));
    FilterIsSubsequence(polices, p => Matches(p, users, term));
    Filter(polices, p => Matches(p, users, term))
  }

  /** An empty search shows every policy. */
  lemma EmptySearchKeepsAll(polices: seq<Police>, users: seq<User>)
    ensures Search(polices, users, "") == polices
  {
    forall p | p in polices ensures Matches(p, users, "") {
      CiIncludesEmpty(p.numeroPolice);
    }
    FilterKeepsAll(polices, p => Matches(p, users, ""));
  }

  /** Typing more of the term only removes policies from the list. */
  lemma SearchNarrows(polices: seq<Police>, users: seq<User>, t: string, u: string)
    ensures forall p :: p in Search(polices, users, t + u) ==> p in Search(polices, users, t)
  {
    forall p | p in Search(polices, users, t + u) ensures Matches(p, users, t) {
      if CiIncludes(p.numeroPolice, t + u) {
        CiIncludesExtend(p.numeroPolice, t, u);
      } else if CiIncludes(p.kind, t + u) {
        CiIncludesExtend(p.kind, t, u);
      } else if CiIncludes(p.statut, t + u) {
        CiIncludesExtend(p.statut, t, u);
      } else {
        CiIncludesExtend(ClientName(p, users), t, u);
      }
    }
  }

  /** A policy whose number contains the term is found whatever its client. */
  lemma FoundByNumber(polices: seq<Police>, users: seq<User>, i: int)
    requires 0 <= i < |polices|
    ensures polices[i] in Search(polices, users, polices[i].numeroPolice)
  {
    CiIncludesSameLower(polices[i].numeroPolice, polices[i].numeroPolice);
  }

  /** The client pickers of the add and update forms. */
  function ClientPicker(users: seq<User>): (r: seq<User>)
    ensures forall u :: u in r <==> u in users && u.roleId == Number(Num(6))
  {
    UsersWithRole(users, 6)
  }

  /** The form's values as the page holds them; the client comes from the picker as text. */
  datatype Form = Form(numeroPolice: string, utilisateurId: string, kind: string,
                       dateDebut: string, dateFin: string, statut: string)

  /** The body of POST /createpolices and PUT /updatepolices/:id: every form field under its column's name. */
  function RequestBody(f: Form): (o: Object)
    ensures o.Keys == {"numero_police", "utilisateur_id", "type", "date_debut", "date_fin", "statut"}
    ensures Get(o, "numero_police") == Str(f.numeroPolice) && Get(o, "utilisateur_id") == Str(f.utilisateurId)
    ensures Get(o, "type") == Str(f.kind) && Get(o, "statut") == Str(f.statut)
    ensures Get(o, "date_debut") == Str(f.dateDebut) && Get(o, "date_fin") == Str(f.dateFin)
  {
    map["numero_police" := Str(f.numeroPolice), "utilisateur_id" := Str(f.utilisateurId), "type" := Str(f.kind),
        "date_debut" := Str(f.dateDebut), "date_fin" := Str(f.dateFin), "statut" := Str(f.statut)]
  }

  /** `handleUpdatePolice`: nothing is sent while no policy is selected. */
  function UpdateRequest(selected: Option<Police>, f: Form): (r: Option<(int, Object)>)
    ensures selected.None? <==> r.None?
    ensures r.Some? ==> r.value.0 == selected.value.id && r.value.1 == RequestBody(f)
  {
    match selected
    case None => None
    case Some(p) => Some((p.id, RequestBody(f)))
  }

  /** `handleDelete`: the list shown after the delete request, which went through or failed. */
  method HandleDelete(shown: seq<Police>, id: int, succeeded: bool) returns (after: seq<Police>)
    ensures succeeded ==> IsSubsequence(after, shown)
    ensures succeeded ==> forall p :: p in after <==> p in shown && p.id != id
    ensures !succeeded ==> after == shown
  {
    var page := new Displayed(shown, (p: Police) => p.id);
    page.HandleDelete(id, succeeded);
    after := page.items;
  }
}
