/**
 * The payment page: the search over the payments, where the amount and
 * the date are compared with the term as typed and the other fields
 * without regard to case.
 */
module Paiements {
  import opened Js
  import opened Lists
  import opened Records

  /** A payment; the amount is modelled as a whole number. */
  datatype Paiement = Paiement(id: int, sinistreId: JsValue, montant: int, datePaiement: string,
                               methode: string, statut: string)

  /** `sinistres.find(s => s.id === p.sinistre_id)?.type || ""` */
  function ClaimType(p: Paiement, claims: seq<ClaimRef>): (t: string)
    ensures ClaimById(claims, p.sinistreId).None? ==> t == ""
    ensures ClaimById(claims, p.sinistreId).Some? ==> t == ClaimById(claims, p.sinistreId).value.kind
  {
    match ClaimById(claims, p.sinistreId)
    case Some(c) => if c.kind != "" then c.kind else ""
    case None => ""
  }

  predicate Matches(p: Paiement, claims: seq<ClaimRef>, term: string) {
    CiIncludes(ClaimType(p, claims), term) ||
    Includes(IntToString(p.montant), term) || Includes(p.datePaiement, term) ||
    CiIncludes(p.methode, term) || CiIncludes(p.statut, term)
  }

  /** `filteredPaiements` */
  function Search(paiements: seq<Paiement>, claims: seq<ClaimRef>, term: string): (r: seq<Paiement>)
    ensures IsSubsequence(r, paiements)
    ensures forall p :: p in r ==> p in paiements && Matches(p, claims, term)
    ensures forall p :: p in paiements && Matches(p, claims, term) ==> p in r
  {
    FilterMembership(paiements, p => Matches(p, claims, term));
    FilterIsSubsequence(paiements, p => Matches(p, claims, term));
    Filter(paiements, p => Matches(p, claims, term))
  }

  lemma EmptySearchKeepsAll(paiements: seq<Paiement>, claims: seq<ClaimRef>)
    ensures Search(paiements, claims, "") == paiements
  {
    forall p | p in paiements ensures Matches(p, claims, "") {
      CiIncludesEmpty(p.methode);
    }
    FilterKeepsAll(paiements, p => Matches(p, claims, ""));
  }

  lemma SearchNarrows(paiements: seq<Paiement>, claims: seq<ClaimRef>, t: string, u: string)
    ensures forall p :: p in Search(paiements, claims, t + u) ==> p in Search(paiements, claims, t)
  {
    forall p | p in Search(paiements, claims, t + u) ensures Matches(p, claims, t) {
      if CiIncludes(ClaimType(p, claims), t + u) {
        CiIncludesExtend(ClaimType(p, claims), t, u);
      } else if Includes(IntToString(p.montant), t + u) {
        IncludesExtend(IntToString(p.montant), t, u);
      } else if Includes(p.datePaiement, t + u) {
        IncludesExtend(p.datePaiement, t, u);
      } else if CiIncludes(p.methode, t + u) {
        CiIncludesExtend(p.methode, t, u);
      } else {
        CiIncludesExtend(p.statut, t, u);
      }
    }
  }

  /** A payment is found by its amount written in full. */
  lemma FoundByAmount(paiements: seq<Paiement>, claims: seq<ClaimRef>, i: int)
    requires 0 <= i < |paiements|
    ensures paiements[i] in Search(paiements, claims, IntToString(paiements[i].montant))
  {
    IncludesSelf(IntToString(paiements[i].montant));
  }

  /**
   * The date is compared as typed: once the other fields miss the term, a
   * payment is found exactly when its date holds the term with its case
   * unchanged, whatever the lowered forms of the two are.
   */
  lemma DateComparedAsTyped(p: Paiement, claims: seq<ClaimRef>, term: string)
    requires !CiIncludes(ClaimType(p, claims), term) && !Includes(IntToString(p.montant), term)
    requires !CiIncludes(p.methode, term) && !CiIncludes(p.statut, term)
    ensures Matches(p, claims, term) <==> Includes(p.datePaiement, term)
  {
  }

  /** The fields of the payment form, held as typed. */
  datatype Form = Form(sinistreId: string, montant: string, datePaiement: string, methode: string, statut: string)

  /** The body of the add and update requests: the form's text under the backend's own column names. */
  function RequestBody(f: Form): (o: Object)
    ensures o.Keys == {"sinistre_id", "montant", "date_paiement", "méthode", "statut"}
    ensures Get(o, "sinistre_id") == Str(f.sinistreId) && Get(o, "montant") == Str(f.montant)
    ensures Get(o, "date_paiement") == Str(f.datePaiement) && Get(o, "méthode") == Str(f.methode)
    ensures Get(o, "statut") == Str(f.statut)
  {
    map["sinistre_id" := Str(f.sinistreId), "montant" := Str(f.montant), "date_paiement" := Str(f.datePaiement),
        "méthode" := Str(f.methode), "statut" := Str(f.statut)]
  }

  /** `handleUpdatePaiement`: nothing is sent while no payment is selected. */
  function UpdateRequest(selected: Option<Paiement>, f: Form): (r: Option<(int, Object)>)
    ensures selected.None? <==> r.None?
    ensures r.Some? ==> r.value.0 == selected.value.id && r.value.1 == RequestBody(f)
  {
    match selected
    case None => None
    case Some(p) => Some((p.id, RequestBody(f)))
  }

  /** `handleDelete`: the list shown after the delete request, which went through or failed. */
  method HandleDelete(shown: seq<Paiement>, id: int, succeeded: bool) returns (after: seq<Paiement>)
    ensures succeeded ==> IsSubsequence(after, shown)
    ensures succeeded ==> forall p :: p in after <==> p in shown && p.id != id
    ensures !succeeded ==> after == shown
  {
    var page := new Displayed(shown, (p: Paiement) => p.id);
    page.HandleDelete(id, succeeded);
    after := page.items;
  }
}
