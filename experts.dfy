/**
 * The expert page: the listing's rows are renamed for the page
 * (`spécialité` to specialite, `téléphone` to telephone), searched on the
 * four text fields, and written back under the page's own names.
 */
module Experts {
  import opened Js
  import opened Lists
  import opened Records

  /**
   * An expert as the page holds it. The fields come straight from the
   * row, so a column the row lacks is undefined and a NULL column null.
   */
  datatype Expert = Expert(id: int, nom: JsValue, specialite: JsValue, email: JsValue, telephone: JsValue)

  /** The mapping of one listing row: id, nom and email keep their names; the accented columns are renamed. */
  function ExpertOf(id: int, row: Object): (e: Expert)
    ensures e.id == id && e.nom == Get(row, "nom") && e.email == Get(row, "email")
    ensures e.specialite == Get(row, "spécialité") && e.telephone == Get(row, "téléphone")
  {
    Expert(id, Get(row, "nom"), Get(row, "spécialité"), Get(row, "email"), Get(row, "téléphone"))
  }

  /** The unaccented names are not columns: a row that only had them would map to undefined fields. */
  lemma UnaccentedNamesAreNotRead(id: int, row: Object)
    requires "spécialité" !in row && "téléphone" !in row
    ensures ExpertOf(id, row).specialite == Undefined && ExpertOf(id, row).telephone == Undefined
  {
  }

  /** The filter's test for one expert: nom, specialite, email, telephone, left to right. */
  function Test(e: Expert, term: string): Option<bool> {
    OrThen(LowerIncludes(e.nom, term),
      OrThen(LowerIncludes(e.specialite, term),
        OrThen(LowerIncludes(e.email, term), LowerIncludes(e.telephone, term))))
  }

  /** The test answers true exactly when some field read before the first non-text one holds the term. */
  lemma TestTrue(e: Expert, term: string)
    ensures Test(e, term) == Some(true) <==>
      (e.nom.Str? && (CiIncludes(e.nom.s, term) ||
        (e.specialite.Str? && (CiIncludes(e.specialite.s, term) ||
          (e.email.Str? && (CiIncludes(e.email.s, term) ||
            (e.telephone.Str? && CiIncludes(e.telephone.s, term))))))))
  {
  }

  /** All four fields are text. */
  predicate Complete(e: Expert) {
    e.nom.Str? && e.specialite.Str? && e.email.Str? && e.telephone.Str?
  }

  /** With every field text, the test never throws and is the four-way case-insensitive or. */
  lemma CompleteNeverThrows(e: Expert, term: string)
    requires Complete(e)
    ensures Test(e, term) == Some(CiIncludes(e.nom.s, term) || CiIncludes(e.specialite.s, term) ||
                                  CiIncludes(e.email.s, term) || CiIncludes(e.telephone.s, term))
  {
  }

  predicate Kept(e: Expert, term: string) {
    Test(e, term) == Some(true)
  }

  /**
   * `filteredData`: the rendering throws (None) when the test throws for
   * any expert; otherwise the experts whose test is true, in order.
   */
  function Search(experts: seq<Expert>, term: string): (r: Option<seq<Expert>>)
    ensures r.None? <==> exists e :: e in experts && Test(e, term).None?
    ensures r.Some? ==> IsSubsequence(r.value, experts)
    ensures r.Some? ==> forall e :: e in r.value <==> e in experts && Test(e, term) == Some(true)
  {
    if exists e :: e in experts && Test(e, term).None? then None
    else
      FilterMembership(experts, e => Kept(e, term));
      FilterIsSubsequence(experts, e => Kept(e, term));
      Some(Filter(experts, e => Kept(e, term)))
  }

  /** A list of complete experts is never refused, and an empty term then keeps all of them. */
  lemma EmptySearchKeepsAll(experts: seq<Expert>)
    requires forall e :: e in experts ==> Complete(e)
    ensures Search(experts, "") == Some(experts)
  {
    forall e | e in experts ensures Kept(e, "") {
      CiIncludesEmpty(e.nom.s);
    }
    FilterKeepsAll(experts, e => Kept(e, ""));
  }

  /** An expert whose name holds the term is kept however the other fields look. */
  lemma NameMatchShortCircuits(e: Expert, term: string)
    requires e.nom.Str? && CiIncludes(e.nom.s, term)
    ensures Kept(e, term)
  {
  }

  /** One expert whose first field is missing breaks the search for every term. */
  lemma MissingNameBreaksSearch(experts: seq<Expert>, i: int, term: string)
    requires 0 <= i < |experts| && !experts[i].nom.Str?
    ensures Search(experts, term).None?
  {
    assert experts[i] in experts && Test(experts[i], term).None?;
  }

  /** Over complete experts, typing more of the term only narrows the result. */
  lemma SearchNarrows(experts: seq<Expert>, t: string, u: string)
    requires forall e :: e in experts ==> Complete(e)
    ensures Search(experts, t).Some? && Search(experts, t + u).Some?
    ensures forall e :: e in Search(experts, t + u).value ==> e in Search(experts, t).value
  {
    forall e | e in experts
      ensures Test(e, t).Some? && Test(e, t + u).Some?
      ensures Kept(e, t + u) ==> Kept(e, t)
    {
      CompleteNeverThrows(e, t);
      CompleteNeverThrows(e, t + u);
      if CiIncludes(e.nom.s, t + u) {
        CiIncludesExtend(e.nom.s, t, u);
      } else if CiIncludes(e.specialite.s, t + u) {
        CiIncludesExtend(e.specialite.s, t, u);
      } else if CiIncludes(e.email.s, t + u) {
        CiIncludesExtend(e.email.s, t, u);
      } else if CiIncludes(e.telephone.s, t + u) {
        CiIncludesExtend(e.telephone.s, t, u);
      }
    }
  }

  /** The fields of the expert form. */
  datatype Form = Form(nom: string, specialite: string, email: string, telephone: string)

  /** The add and update bodies: the four fields under the page's unaccented names. */
  function RequestBody(f: Form): (o: Object)
    ensures o.Keys == {"nom", "specialite", "email", "telephone"}
    ensures Get(o, "nom") == Str(f.nom) && Get(o, "specialite") == Str(f.specialite)
    ensures Get(o, "email") == Str(f.email) && Get(o, "telephone") == Str(f.telephone)
  {
    map["nom" := Str(f.nom), "specialite" := Str(f.specialite), "email" := Str(f.email), "telephone" := Str(f.telephone)]
  }

  /** `handleUpdateExpert`: nothing is sent while no expert is selected. */
  function UpdateRequest(selected: Option<Expert>, f: Form): (r: Option<(int, Object)>)
    ensures selected.None? <==> r.None?
    ensures r.Some? ==> r.value.0 == selected.value.id && r.value.1 == RequestBody(f)
  {
    match selected
    case None => None
    case Some(e) => Some((e.id, RequestBody(f)))
  }

  /** `handleDelete`: the list shown after the delete request, which went through or failed. */
  method HandleDelete(shown: seq<Expert>, id: int, succeeded: bool) returns (after: seq<Expert>)
    ensures succeeded ==> IsSubsequence(after, shown)
    ensures succeeded ==> forall e :: e in after <==> e in shown && e.id != id
    ensures !succeeded ==> after == shown
  {
    var page := new Displayed(shown, (e: Expert) => e.id);
    page.HandleDelete(id, succeeded);
    after := page.items;
  }
}
