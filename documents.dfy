/**
 * The admin document page: the search over the documents, the expert
 * picker and the multipart form of the add and update requests, which
 * carries the file only when one was chosen.
 */
module Documents {
  import opened Js
  import opened Lists
  import opened Records

  /** A document row as the pages read it; the file itself is not searched. */
  datatype Document = Document(id: int, sinistreId: JsValue, expert: JsValue, nomFichier: string,
                               typeDocument: string, dateUpload: string)

  /** The claim number column: the number of the claim with the document's claim id, or "". */
  function ClaimNumber(d: Document, claims: seq<ClaimRef>): string {
    ClaimNumberOr(claims, d.sinistreId, "")
  }

  /** The four text fields, compared without regard to case; each is text, so none of them throws. */
  predicate TextMatches(d: Document, claims: seq<ClaimRef>, term: string) {
    CiIncludes(d.nomFichier, term) || CiIncludes(ClaimNumber(d, claims), term) ||
    CiIncludes(d.typeDocument, term) || CiIncludes(d.dateUpload, term)
  }

  /**
   * The search test. When no text field holds the term, the claim id's
   * `toString()` is searched for it as typed; that call throws (None) on a
   * null or missing claim id.
   */
  function Test(d: Document, claims: seq<ClaimRef>, term: string): (r: Option<bool>)
    ensures r.None? <==> !TextMatches(d, claims, term) && IsNullish(d.sinistreId)
    ensures r == Some(true) <==> TextMatches(d, claims, term) || (!IsNullish(d.sinistreId) && Includes(ToStr(d.sinistreId), term))
  {
    if TextMatches(d, claims, term) then Some(true)
    else match CallToString(d.sinistreId)
      case None => None
      case Some(text) => Some(Includes(text, term))
  }

  predicate Kept(d: Document, claims: seq<ClaimRef>, term: string) {
    Test(d, claims, term) == Some(true)
  }

  /**
   * `filteredData`: the rendering throws (None) when the test throws for
   * some document; otherwise the documents the test keeps, in order.
   */
  function Search(docs: seq<Document>, claims: seq<ClaimRef>, term: string): (r: Option<seq<Document>>)
    ensures r.None? <==> exists d :: d in docs && !TextMatches(d, claims, term) && IsNullish(d.sinistreId)
    ensures r.Some? ==> IsSubsequence(r.value, docs)
    ensures r.Some? ==> forall d :: d in r.value <==> d in docs && Kept(d, claims, term)
  {
    if exists d :: d in docs && Test(d, claims, term).None? then None
    else
      FilterMembership(docs, d => Kept(d, claims, term));
      FilterIsSubsequence(docs, d => Kept(d, claims, term));
      Some(Filter(docs, d => Kept(d, claims, term)))
  }

  /** The empty term is held by every file name, so it never reaches a claim id and keeps every document. */
  lemma EmptySearchKeepsAll(docs: seq<Document>, claims: seq<ClaimRef>)
    ensures Search(docs, claims, "") == Some(docs)
  {
    forall d | d in docs ensures TextMatches(d, claims, "") && Kept(d, claims, "") {
      CiIncludesEmpty(d.nomFichier);
    }
    FilterKeepsAll(docs, d => Kept(d, claims, ""));
  }

  /** A document with no claim id breaks the page for any term that none of its text fields holds. */
  lemma NullClaimIdBreaksSearch(docs: seq<Document>, claims: seq<ClaimRef>, i: int, term: string)
    requires 0 <= i < |docs| && IsNullish(docs[i].sinistreId) && !TextMatches(docs[i], claims, term)
    ensures Search(docs, claims, term).None?
  {
    assert docs[i] in docs;
  }

  /** With every claim id present the page never throws. */
  lemma ClaimIdsPresentNeverThrow(docs: seq<Document>, claims: seq<ClaimRef>, term: string)
    requires forall d :: d in docs ==> !IsNullish(d.sinistreId)
    ensures Search(docs, claims, term).Some?
  {
  }

  /** A page that renders for the longer term renders for the shorter one, and shows at least as much. */
  lemma SearchNarrows(docs: seq<Document>, claims: seq<ClaimRef>, t: string, u: string)
    ensures Search(docs, claims, t + u).Some? ==>
              Search(docs, claims, t).Some? &&
              forall d :: d in Search(docs, claims, t + u).value ==> d in Search(docs, claims, t).value
  {
    forall d | d in docs && Test(d, claims, t + u).Some?
      ensures Test(d, claims, t).Some? && (Kept(d, claims, t + u) ==> Kept(d, claims, t))
    {
      TextMatchesExtend(d, claims, t, u);
      if !TextMatches(d, claims, t + u) && Kept(d, claims, t + u) {
        IncludesExtend(ToStr(d.sinistreId), t, u);
      }
    }
  }

  /** A text field that holds t + u holds t. */
  lemma TextMatchesExtend(d: Document, claims: seq<ClaimRef>, t: string, u: string)
    ensures TextMatches(d, claims, t + u) ==> TextMatches(d, claims, t)
  {
    if CiIncludes(d.nomFichier, t + u) {
      CiIncludesExtend(d.nomFichier, t, u);
    } else if CiIncludes(ClaimNumber(d, claims), t + u) {
      CiIncludesExtend(ClaimNumber(d, claims), t, u);
    } else if CiIncludes(d.typeDocument, t + u) {
      CiIncludesExtend(d.typeDocument, t, u);
    } else if CiIncludes(d.dateUpload, t + u) {
      CiIncludesExtend(d.dateUpload, t, u);
    }
  }

  /** The expert picker: users whose role id is exactly 8. */
  function ExpertPicker(users: seq<User>): (r: seq<User>)
    ensures forall u :: u in r <==> u in users && u.roleId == Number(Num(8))
  {
    UsersWithRole(users, 8)
  }

  /** Some part of the form has that name. */
  predicate HasPart(parts: seq<FormPart>, name: string) {
    exists i :: 0 <= i < |parts| && parts[i].name == name
  }

  /** The text fields of the document form, as the page holds them. */
  datatype Form = Form(sinistreId: string, expertId: string, nomFichier: string, typeDocument: string, dateUpload: string)

  /**
   * The FormData the add and update handlers build, in the order of the
   * appends; `contenu_fichier` is appended only when a file was chosen.
   */
  function FormParts(f: Form, file: Option<Upload>): (parts: seq<FormPart>)
    ensures HasPart(parts, "contenu_fichier") <==> file.Some?
    ensures file.Some? ==> FilePart("contenu_fichier", file.value) in parts && |parts| == 6
    ensures file.None? ==> |parts| == 5
    ensures TextPart("sinistre_id", f.sinistreId) in parts && TextPart("expert", f.expertId) in parts
    ensures TextPart("nom_fichier", f.nomFichier) in parts && TextPart("type_document", f.typeDocument) in parts
    ensures TextPart("date_upload", f.dateUpload) in parts
  {
    var head := [TextPart("sinistre_id", f.sinistreId), TextPart("expert", f.expertId),
                 TextPart("nom_fichier", f.nomFichier), TextPart("type_document", f.typeDocument)];
    var filePart := if file.Some? then [FilePart("contenu_fichier", file.value)] else [];
    var parts := head + filePart + [TextPart("date_upload", f.dateUpload)];
    assert parts[|parts| - 1] == TextPart("date_upload", f.dateUpload);
    assert file.Some? ==> parts[4] == FilePart("contenu_fichier", file.value);
    parts
  }

  /** `handleUpdateDocument`: nothing is sent while no document is selected. */
  function UpdateRequest(selected: Option<Document>, f: Form, file: Option<Upload>): (r: Submit<(int, seq<FormPart>)>)
    ensures selected.None? <==> r.Ignored?
    ensures r.Sent? ==> r.request == (selected.value.id, FormParts(f, file))
    ensures r.Ignored? || r.Sent?
  {
    match selected
    case None => Ignored
    case Some(d) => Sent((d.id, FormParts(f, file)))
  }

  /** `handleDelete`: the list shown after the delete request, which went through or failed. */
  method HandleDelete(shown: seq<Document>, id: int, succeeded: bool) returns (after: seq<Document>)
    ensures succeeded ==> IsSubsequence(after, shown)
    ensures succeeded ==> forall d :: d in after <==> d in shown && d.id != id
    ensures !succeeded ==> after == shown
  {
    var page := new Displayed(shown, (d: Document) => d.id);
    page.HandleDelete(id, succeeded);
    after := page.items;
  }
}
