/**
 * The client's claim page (the `Claims` component): which claims and
 * policies it asks for, the body of a new claim, the guard on adding a
 * document, and the search over the client's claims.
 */
module Claims {
  import opened Js
  import opened Lists
  import opened Records

  /** The path `fetchSinistres` asks for: the per-user listing when there is an id. */
  function SinistresPath(uid: string): (path: seq<string>)
    ensures uid != "" ==> path == ["viewsinistres", uid]
    ensures uid == "" ==> path == ["viewsinistres"]
  {
    if uid != "" then ["viewsinistres", uid] else ["viewsinistres"]
  }

  /** The owner test of the local fallback: `String(p.utilisateur_id ?? p.user_id ?? "") === String(uid)`. */
  predicate OwnedBy(p: Object, uid: string) {
    ToStr(Coalesce(Coalesce(Get(p, "utilisateur_id"), Get(p, "user_id")), Str(""))) == uid
  }

  function OwnPolicies(data: seq<Object>, uid: string): (r: seq<Object>)
    ensures IsSubsequence(r, data)
    ensures forall p :: p in r ==> p in data && OwnedBy(p, uid)
    ensures forall p :: p in data && OwnedBy(p, uid) ==> p in r
  {
    FilterMembership(data, p => OwnedBy(p, uid));
    FilterIsSubsequence(data, p => OwnedBy(p, uid));
    Filter(data, p => OwnedBy(p, uid))
  }

  /** A policy whose utilisateur_id is the number n belongs to the id written n. */
  lemma NumericOwnerKept(p: Object, n: int)
    requires Get(p, "utilisateur_id") == Number(Num(n))
    ensures OwnedBy(p, IntToString(n))
  {
  }

  /** The owner test compares text: the same number written "07" is not the owner 7. */
  lemma OwnerComparedAsText(p: Object)
    requires Get(p, "utilisateur_id") == Number(Num(7))
    ensures !OwnedBy(p, "07")
  {
    assert IntToString(7) == "7";
  }

  /**
   * `fetchPolices(uid)`. Each argument after uid is the answer to one
   * request, None when it fails: GET /viewpolices/<uid>, GET /viewpolices
   * with the query `utilisateur_id=<uid>`, and the plain GET /viewpolices.
   * With an id the first two are tried in turn and the first that
   * answers is shown as it came; only when both fail is the plain listing
   * filtered by owner. Without an id the plain listing is shown whole,
   * and when it fails too the list is emptied.
   */
  function FetchPolices(uid: string, perUser: Option<seq<Object>>, byQuery: Option<seq<Object>>,
                        all: Option<seq<Object>>): (r: seq<Object>)
    ensures uid != "" && perUser.Some? ==> r == perUser.value
    ensures uid != "" && perUser.None? && byQuery.Some? ==> r == byQuery.value
    ensures uid != "" && perUser.None? && byQuery.None? && all.Some? ==> r == OwnPolicies(all.value, uid)
    ensures uid == "" && all.Some? ==> r == all.value
    ensures (uid == "" || (perUser.None? && byQuery.None?)) && all.None? ==> r == []
  {
    if uid != "" && perUser.Some? then perUser.value
    else if uid != "" && byQuery.Some? then byQuery.value
    else match all
      case None => []
      case Some(data) => if uid != "" then OwnPolicies(data, uid) else data
  }

  /**
   * The list the page evidently means to show a signed-in client: only the
   * policies the listing attributes to them, whichever request answers.
   */
  function FetchOwnPolicies(uid: string, all: Option<seq<Object>>): (r: seq<Object>)
    requires uid != ""
    ensures forall p :: p in r ==> OwnedBy(p, uid)
    ensures all.Some? ==> forall p :: p in all.value && OwnedBy(p, uid) ==> p in r
    ensures all.None? ==> r == []
  {
    match all
    case None => []
    case Some(data) => OwnPolicies(data, uid)
  }

  /** When only the plain listing answers, the page already shows the client's own policies. */
  lemma FallbackIsOwnPolicies(uid: string, all: Option<seq<Object>>)
    requires uid != ""
    ensures FetchPolices(uid, None, None, all) == FetchOwnPolicies(uid, all)
  {
  }

  /** The form of a new claim; the user id is the one read from storage. */
  datatype ClaimForm = ClaimForm(userId: string, policeId: string, dateDeclaration: string, kind: string, description: string)

  const ClaimKeys: set<string> :=
    {"utilisateur_id", "police_id", "date_declaration", "type", "description", "statut", "montant_requis", "montant_approuvé"}

  /** The body of POST /createsinistres from the client page. */
  function NewClaimBody(f: ClaimForm): (o: Object)
    ensures o.Keys == ClaimKeys
    ensures Get(o, "statut") == Str("en attente")
    ensures Get(o, "montant_requis") == Number(Num(0)) && Get(o, "montant_approuvé") == Number(Num(0))
    ensures Get(o, "utilisateur_id") == Str(f.userId) && Get(o, "police_id") == Number(ParseNumber(f.policeId))
    ensures Get(o, "date_declaration") == Str(f.dateDeclaration) && Get(o, "type") == Str(f.kind)
    ensures Get(o, "description") == Str(f.description)
    ensures "expert" !in o
  {
    map["utilisateur_id" := Str(f.userId), "police_id" := Number(ParseNumber(f.policeId)),
        "date_declaration" := Str(f.dateDeclaration), "type" := Str(f.kind), "description" := Str(f.description),
        "statut" := Str("en attente"), "montant_requis" := Number(Num(0)), "montant_approuvé" := Number(Num(0))]
  }

  /** The document form of the client page. */
  datatype DocumentForm = DocumentForm(nomFichier: string, typeDocument: string, dateUpload: string)

  const MissingFields := "Veuillez compléter tous les champs et sélectionner un fichier."

  /**
   * `handleAddDocument`: without a selected claim (none, or id 0) or
   * without a file, the user is told to complete the form and nothing is
   * sent; otherwise the five parts go to POST /createdocuments.
   */
  function AddDocument(selected: Option<int>, file: Option<Upload>, f: DocumentForm): (r: Submit<seq<FormPart>>)
    ensures r.Refused? <==> selected.None? || selected.value == 0 || file.None?
    ensures r.Refused? ==> r.alert == MissingFields
    ensures r.Sent? ==> |r.request| == 5 && FilePart("contenu_fichier", file.value) in r.request
    ensures r.Sent? ==> TextPart("sinistre_id", IntToString(selected.value)) in r.request
    ensures r.Refused? || r.Sent?
  {
    if selected.None? || selected.value == 0 || file.None? then Refused(MissingFields)
    else Sent([TextPart("sinistre_id", IntToString(selected.value)), TextPart("nom_fichier", f.nomFichier),
               TextPart("type_document", f.typeDocument), FilePart("contenu_fichier", file.value),
               TextPart("date_upload", f.dateUpload)])
  }

  /** A claim as the client page lists it; description and statut may be missing. */
  datatype Claim = Claim(id: int, kind: string, description: Option<string>, statut: Option<string>)

  /** `x ?? ""` on an optional text. */
  function OrEmpty(t: Option<string>): string {
    if t.Some? then t.value else ""
  }

  predicate Matches(c: Claim, term: string) {
    CiIncludes(c.kind, term) || CiIncludes(OrEmpty(c.description), term) || CiIncludes(OrEmpty(c.statut), term)
  }

  /** `filteredSinistres` */
  function Search(claims: seq<Claim>, term: string): (r: seq<Claim>)
    ensures IsSubsequence(r, claims)
    ensures forall c :: c in r ==> c in claims && Matches(c, term)
    ensures forall c :: c in claims && Matches(c, term) ==> c in r
  {
    FilterMembership(claims, c => Matches(c, term));
    FilterIsSubsequence(claims, c => Matches(c, term));
    Filter(claims, c => Matches(c, term))
  }

  lemma EmptySearchKeepsAll(claims: seq<Claim>)
    ensures Search(claims, "") == claims
  {
    forall c | c in claims ensures Matches(c, "") {
      CiIncludesEmpty(c.kind);
    }
    FilterKeepsAll(claims, c => Matches(c, ""));
  }

  /** A missing description or status matches only the empty term. */
  lemma MissingFieldsMatchOnlyEmpty(c: Claim, term: string)
    requires c.description.None? && c.statut.None? && !CiIncludes(c.kind, term)
    ensures Matches(c, term) <==> term == ""
  {
    if term == "" {
      CiIncludesEmpty("");
    } else {
      assert !IsPrefix(Lower(term), "");
    }
  }

  lemma SearchNarrows(claims: seq<Claim>, t: string, u: string)
    ensures forall c :: c in Search(claims, t + u) ==> c in Search(claims, t)
  {
    forall c | c in Search(claims, t + u) ensures Matches(c, t) {
      if CiIncludes(c.kind, t + u) {
        CiIncludesExtend(c.kind, t, u);
      } else if CiIncludes(OrEmpty(c.description), t + u) {
        CiIncludesExtend(OrEmpty(c.description), t, u);
      } else {
        CiIncludesExtend(OrEmpty(c.statut), t, u);
      }
    }
  }
}
