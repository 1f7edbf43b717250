/**
 * The user administration page: the listing's rows mapped for the page,
 * the search that skips empty fields and the role id coercion of the form.
 */
module Users {
  import opened Js
  import opened Lists
  import opened Records

  /** A user as the page holds it; every field but the id may be null. */
  datatype Account = Account(id: int, nom: JsValue, email: JsValue, telephone: JsValue,
                             roleId: JsValue, dateInscription: JsValue)

  /** The mapping of one listing row: `téléphone` becomes telephone, and three fields default to null. */
  function AccountOf(id: int, row: Object): (a: Account)
    ensures a.id == id && a.nom == Get(row, "nom") && a.email == Get(row, "email")
    ensures a.telephone == (if IsNullish(Get(row, "téléphone")) then Null else Get(row, "téléphone"))
    ensures a.roleId == (if IsNullish(Get(row, "role_id")) then Null else Get(row, "role_id"))
    ensures a.dateInscription == (if IsNullish(Get(row, "date_inscription")) then Null else Get(row, "date_inscription"))
    ensures a.telephone != Undefined && a.roleId != Undefined && a.dateInscription != Undefined
  {
    Account(id, Get(row, "nom"), Get(row, "email"), Coalesce(Get(row, "téléphone"), Null),
            Coalesce(Get(row, "role_id"), Null), Coalesce(Get(row, "date_inscription"), Null))
  }

  /**
   * One field of `[nom, email, telephone].filter(Boolean).some(...)`: a
   * falsy field is dropped (false), a text field is searched, and a truthy
   * non-text field throws on `toLowerCase` (None).
   */
  function FieldTest(v: JsValue, term: string): (r: Option<bool>)
    ensures !Truthy(v) ==> r == Some(false)
    ensures Truthy(v) && v.Str? ==> r == Some(CiIncludes(v.s, term))
    ensures r.None? <==> Truthy(v) && !v.Str?
  {
    if !Truthy(v) then Some(false)
    else match v
      case Str(s) => Some(CiIncludes(s, term))
      case _ => None
  }

  /** The test for one user; `some` stops at the first field that holds the term. */
  function Test(a: Account, term: string): Option<bool> {
    OrThen(FieldTest(a.nom, term), OrThen(FieldTest(a.email, term), FieldTest(a.telephone, term)))
  }

  predicate Kept(a: Account, term: string) {
    Test(a, term) == Some(true)
  }

  /** A field that takes part in the search: non-empty text. */
  predicate Searchable(v: JsValue) {
    v.Str? && v.s != ""
  }

  /** Fields that are text or null or undefined: what the listing sends. */
  predicate TextOrNull(v: JsValue) {
    v.Str? || IsNullish(v)
  }

  /** With text-or-null fields the test never throws, and keeps a user exactly when a non-empty field holds the term. */
  lemma TestOfTextFields(a: Account, term: string)
    requires TextOrNull(a.nom) && TextOrNull(a.email) && TextOrNull(a.telephone)
    ensures Test(a, term).Some?
    ensures Kept(a, term) <==>
      (Searchable(a.nom) && CiIncludes(a.nom.s, term)) ||
      (Searchable(a.email) && CiIncludes(a.email.s, term)) ||
      (Searchable(a.telephone) && CiIncludes(a.telephone.s, term))
  {
  }

  /** A user whose three searched fields are all empty or null is shown for no term, not even "". */
  lemma BlankUserNeverShown(a: Account, term: string)
    requires !Truthy(a.nom) && !Truthy(a.email) && !Truthy(a.telephone)
    ensures Test(a, term) == Some(false)
  {
  }

  /** `filteredUsers`: None when the test throws for some user; else the kept users, in order. */
  function Search(accounts: seq<Account>, term: string): (r: Option<seq<Account>>)
    ensures r.None? <==> exists a :: a in accounts && Test(a, term).None?
    ensures r.Some? ==> IsSubsequence(r.value, accounts)
    ensures r.Some? ==> forall a :: a in r.value <==> a in accounts && Test(a, term) == Some(true)
  {
    if exists a :: a in accounts && Test(a, term).None? then None
    else
      FilterMembership(accounts, a => Kept(a, term));
      FilterIsSubsequence(accounts, a => Kept(a, term));
      Some(Filter(accounts, a => Kept(a, term)))
  }

  /** An empty term keeps exactly the users with some non-empty searched field. */
  lemma EmptySearchKeepsNonBlank(accounts: seq<Account>)
    requires forall a :: a in accounts ==> TextOrNull(a.nom) && TextOrNull(a.email) && TextOrNull(a.telephone)
    ensures Search(accounts, "").Some?
    ensures forall a :: a in Search(accounts, "").value <==>
      a in accounts && (Searchable(a.nom) || Searchable(a.email) || Searchable(a.telephone))
  {
    forall a | a in accounts
      ensures Test(a, "").Some?
      ensures Kept(a, "") <==> Searchable(a.nom) || Searchable(a.email) || Searchable(a.telephone)
    {
      TestOfTextFields(a, "");
      if a.nom.Str? { CiIncludesEmpty(a.nom.s); }
      if a.email.Str? { CiIncludesEmpty(a.email.s); }
      if a.telephone.Str? { CiIncludesEmpty(a.telephone.s); }
    }
  }

  /** Over text-or-null fields, typing more of the term only narrows the result. */
  lemma SearchNarrows(accounts: seq<Account>, t: string, u: string)
    requires forall a :: a in accounts ==> TextOrNull(a.nom) && TextOrNull(a.email) && TextOrNull(a.telephone)
    ensures Search(accounts, t).Some? && Search(accounts, t + u).Some?
    ensures forall a :: a in Search(accounts, t + u).value ==> a in Search(accounts, t).value
  {
    forall a | a in accounts
      ensures Test(a, t).Some? && Test(a, t + u).Some?
      ensures Kept(a, t + u) ==> Kept(a, t)
    {
      TestOfTextFields(a, t);
      TestOfTextFields(a, t + u);
      if Searchable(a.nom) && CiIncludes(a.nom.s, t + u) {
        CiIncludesExtend(a.nom.s, t, u);
      } else if Searchable(a.email) && CiIncludes(a.email.s, t + u) {
        CiIncludesExtend(a.email.s, t, u);
      } else if Searchable(a.telephone) && CiIncludes(a.telephone.s, t + u) {
        CiIncludesExtend(a.telephone.s, t, u);
      }
    }
  }

  /** `roleId ? Number(roleId) : null` */
  function RoleIdPayload(field: string): (v: JsValue)
    ensures field == "" <==> v == Null
    ensures field != "" ==> v == Number(ParseNumber(field))
  {
    if field != "" then Number(ParseNumber(field)) else Null
  }

  /** A role id typed as its decimal digits is sent as that number. */
  lemma RoleIdPayloadReadsDigits(n: nat)
    ensures RoleIdPayload(IntToString(n)) == Number(Num(n))
  {
    NumberOfIntToString(n);
  }

  /** The fields of the user form. */
  datatype Form = Form(nom: string, email: string, telephone: string, roleId: string)

  /** The add and update bodies. */
  function RequestBody(f: Form): (o: Object)
    ensures o.Keys == {"nom", "email", "telephone", "role_id"}
    ensures Get(o, "nom") == Str(f.nom) && Get(o, "email") == Str(f.email)
    ensures Get(o, "telephone") == Str(f.telephone) && Get(o, "role_id") == RoleIdPayload(f.roleId)
  {
    map["nom" := Str(f.nom), "email" := Str(f.email), "telephone" := Str(f.telephone), "role_id" := RoleIdPayload(f.roleId)]
  }

  /** `handleUpdateUser`: nothing is sent while no user is selected. */
  function UpdateRequest(selected: Option<Account>, f: Form): (r: Option<(int, Object)>)
    ensures selected.None? <==> r.None?
    ensures r.Some? ==> r.value.0 == selected.value.id && r.value.1 == RequestBody(f)
  {
    match selected
    case None => None
    case Some(a) => Some((a.id, RequestBody(f)))
  }

  /** `handleDelete`: the list shown after the delete request, which went through or failed. */
  method HandleDelete(shown: seq<Account>, id: int, succeeded: bool) returns (after: seq<Account>)
    ensures succeeded ==> IsSubsequence(after, shown)
    ensures succeeded ==> forall a :: a in after <==> a in shown && a.id != id
    ensures !succeeded ==> after == shown
  {
    var page := new Displayed(shown, (a: Account) => a.id);
    page.HandleDelete(id, succeeded);
    after := page.items;
  }
}
