/**
 * The expert's expertise page (the `Expertise` component): the fetched
 * expertises are normalised and narrowed to the signed-in expert, the
 * expert is typed by name and looked up among the role-8 users, and the
 * add and update handlers refuse what they cannot send.
 */
module ExpertExpertises {
  import opened Js
  import opened Lists
  import opened Records
  import opened Session

  /** An expertise as the listing sends it: the expert may be under `expert` or `expert_id`. */
  datatype Expertise = Expertise(id: int, sinistreId: JsValue, expert: JsValue, expertId: JsValue,
                                 rapport: string, dateEvaluation: string)

  /**
   * The normalisation: take `expert` when it is neither undefined nor
   * null, else `expert_id`; the value chosen becomes `Number` of it when
   * truthy and null otherwise.
   */
  function Normalize(e: Expertise): (n: Expertise)
    ensures n.(expert := e.expert) == e
    ensures var chosen := Coalesce(e.expert, e.expertId);
            n.expert == (if Truthy(chosen) then Number(ToNumber(chosen)) else Null)
  {
    var chosen := if !IsNullish(e.expert) then e.expert else e.expertId;
    e.(expert := if Truthy(chosen) then Number(ToNumber(chosen)) else Null)
  }

  function NormalizeAll(data: seq<Expertise>): (r: seq<Expertise>)
    ensures |r| == |data| && forall i :: 0 <= i < |data| ==> r[i] == Normalize(data[i])
  {
    seq(|data|, i requires 0 <= i < |data| => Normalize(data[i]))
  }

  /** An expert of 0 is dropped in favour of null, but expert_id is still there for the filter. */
  lemma ZeroExpertFallsBack(e: Expertise)
    requires e.expert == Number(Num(0))
    ensures Normalize(e).expert == Null && Normalize(e).expertId == e.expertId
  {
  }

  /** `Number(e.expert || e.expert_id) === Number(loggedInUserId)` */
  predicate OwnedBy(e: Expertise, loggedIn: JsNumber) {
    NumberStrictEquals(ToNumber(OrElse(e.expert, e.expertId)), loggedIn)
  }

  function Own(data: seq<Expertise>, loggedIn: JsNumber): (r: seq<Expertise>)
    ensures IsSubsequence(r, data)
    ensures forall e :: e in r ==> e in data && loggedIn.Num? && ToNumber(OrElse(e.expert, e.expertId)) == loggedIn
    ensures forall e :: e in data && loggedIn.Num? && ToNumber(OrElse(e.expert, e.expertId)) == loggedIn ==> e in r
  {
    FilterMembership(data, e => OwnedBy(e, loggedIn));
    FilterIsSubsequence(data, e => OwnedBy(e, loggedIn));
    Filter(data, e => OwnedBy(e, loggedIn))
  }

  /** The list `fetchExpertises` stores: the normalised expertises of the signed-in expert. */
  function Fetched(data: seq<Expertise>, loggedIn: JsNumber): seq<Expertise> {
    Own(NormalizeAll(data), loggedIn)
  }

  /** An expertise recorded for the expert n under either name is kept for expert n. */
  lemma RecordedExpertIsKept(data: seq<Expertise>, i: int, n: int)
    requires 0 <= i < |data| && n != 0
    requires data[i].expert == Number(Num(n)) || (IsNullish(data[i].expert) && data[i].expertId == Number(Num(n)))
    ensures Normalize(data[i]) in Fetched(data, Num(n))
  {
    assert NormalizeAll(data)[i] == Normalize(data[i]);
  }

  /** An expertise with neither an expert nor an expert id is kept for nobody. */
  lemma UnassignedNeverKept(data: seq<Expertise>, n: int)
    requires n != 0
    requires forall e :: e in data ==> IsNullish(e.expert) && IsNullish(e.expertId)
    ensures Fetched(data, Num(n)) == []
  {
    var norm := NormalizeAll(data);
    forall e | e in norm ensures !OwnedBy(e, Num(n)) {
      var i :| 0 <= i < |norm| && norm[i] == e;
      assert data[i] in data;
    }
    FilterKeepsNone(norm, e => OwnedBy(e, Num(n)));
  }

  /** `u.nom.toLowerCase() === expertName.toLowerCase().trim()` holds: the name is text and equal once lowered. */
  predicate NamedAs(u: User, expertName: string) {
    u.nom.Str? && Lower(u.nom.s) == Trim(Lower(expertName))
  }

  /** Where `users.find` stops: at a match, or at a name that is not text, whose `toLowerCase` throws. */
  predicate Stops(u: User, expertName: string) {
    NamedAs(u, expertName) || !u.nom.Str?
  }

  /** How the lookup ends: the id found, no match (null), or a throw. */
  datatype Lookup = Found(id: int) | NoMatch | LookupThrows

  /**
   * `findExpertIdByName`: `find` tests the experts in order and throws at
   * the first name that is not text unless a match comes before it.
   */
  function FindExpertIdByName(experts: seq<User>, expertName: string): (r: Lookup)
    ensures r.Found? ==> exists u :: u in experts && u.id == r.id && NamedAs(u, expertName)
    ensures r.NoMatch? <==> forall u :: u in experts ==> !Stops(u, expertName)
    ensures r.LookupThrows? ==> exists u :: u in experts && !u.nom.Str?
  {
    match Find(experts, (u: User) => Stops(u, expertName))
    case Some(u) => if u.nom.Str? then Found(u.id) else LookupThrows
    case None => NoMatch
  }

  /** The id is the first match's: an earlier expert with the same name wins. */
  lemma FindsFirstNamed(experts: seq<User>, expertName: string, i: int)
    requires 0 <= i < |experts| && NamedAs(experts[i], expertName)
    requires forall k :: 0 <= k < i ==> !Stops(experts[k], expertName)
    ensures FindExpertIdByName(experts, expertName) == Found(experts[i].id)
  {
    FirstFound(experts, (u: User) => Stops(u, expertName), i);
  }

  /** A name that is not text, listed before any match, makes the lookup throw. */
  lemma NullNameBeforeMatchThrows(experts: seq<User>, expertName: string, i: int)
    requires 0 <= i < |experts| && !experts[i].nom.Str?
    requires forall k :: 0 <= k < i ==> !NamedAs(experts[k], expertName)
    ensures FindExpertIdByName(experts, expertName) == LookupThrows
  {
    assert experts[i] in experts && Stops(experts[i], expertName);
    FindIsFirst(experts, (u: User) => Stops(u, expertName));
    var j :| 0 <= j < |experts| && experts[j] == Find(experts, (u: User) => Stops(u, expertName)).value &&
             forall k :: 0 <= k < j ==> !Stops(experts[k], expertName);
    assert j <= i;
  }

  const ClaimAndNameMissing := "Veuillez choisir un sinistre et saisir un expert."
  const ExpertNotFound := "Expert non trouvé."

  /** The fields of the expertise form. */
  datatype Form = Form(sinistreId: string, expertName: string, rapport: string, dateEvaluation: string)

  /** The body the add and update handlers send, once the expert's id is known. */
  function RequestBody(f: Form, expertId: int): (o: Object)
    ensures o.Keys == {"sinistre_id", "expert", "rapport", "date_evaluation"}
    ensures Get(o, "sinistre_id") == ClaimValue(f) && Get(o, "expert") == Number(Num(expertId))
    ensures Get(o, "rapport") == Str(f.rapport) && Get(o, "date_evaluation") == Str(f.dateEvaluation)
  {
    map["sinistre_id" := ClaimValue(f), "expert" := Number(Num(expertId)),
        "rapport" := Str(f.rapport), "date_evaluation" := Str(f.dateEvaluation)]
  }

  /** `Number(sinistreId)` */
  function ClaimValue(f: Form): JsValue {
    Number(ParseNumber(f.sinistreId))
  }

  /** A found id of 0 is refused like a missing one (`!expertId`). */
  predicate Usable(l: Lookup) {
    l.Found? && l.id != 0
  }

  /**
   * The handlers' common tail once the guards passed: a throwing lookup
   * rejects the handler's promise, an unusable id is refused, and a
   * usable one is sent.
   */
  function Dispatch<T>(l: Lookup, request: int -> T): (r: Submit<T>)
    ensures l.LookupThrows? <==> r.Throws?
    ensures !l.LookupThrows? && !Usable(l) <==> r == Refused(ExpertNotFound)
    ensures r.Sent? <==> Usable(l)
    ensures Usable(l) ==> r == Sent(request(l.id))
  {
    match l
    case LookupThrows => Throws
    case Found(id) => if id != 0 then Sent(request(id)) else Refused(ExpertNotFound)
    case NoMatch => Refused(ExpertNotFound)
  }

  /**
   * `handleAddExpertise`: an empty claim or name is refused first; the
   * lookup, outside the `try`, may then throw; a name that finds no usable
   * expert is refused; otherwise the body is posted.
   */
  function AddExpertise(f: Form, experts: seq<User>): (r: Submit<Object>)
    ensures f.sinistreId == "" || f.expertName == "" ==> r == Refused(ClaimAndNameMissing)
    ensures f.sinistreId != "" && f.expertName != "" ==>
      (r.Throws? <==> FindExpertIdByName(experts, f.expertName).LookupThrows?)
    ensures (f.sinistreId != "" && f.expertName != "" && !FindExpertIdByName(experts, f.expertName).LookupThrows? &&
             !Usable(FindExpertIdByName(experts, f.expertName))) ==> r == Refused(ExpertNotFound)
    ensures r.Sent? ==> exists u :: u in experts && NamedAs(u, f.expertName) && u.id != 0 &&
                                   r.request == RequestBody(f, u.id)
    ensures !r.Ignored?
  {
    if f.sinistreId == "" || f.expertName == "" then Refused(ClaimAndNameMissing)
    else Dispatch(FindExpertIdByName(experts, f.expertName), id => RequestBody(f, id))
  }

  /**
   * `handleUpdateExpertise`: nothing happens without a selection; the
   * lookup may throw; a name that finds no usable expert is refused;
   * otherwise the body is put to the selected expertise. The claim may be
   * empty here.
   */
  function UpdateExpertise(selected: Option<Expertise>, f: Form, experts: seq<User>): (r: Submit<(int, Object)>)
    ensures selected.None? <==> r.Ignored?
    ensures selected.Some? ==> (r.Throws? <==> FindExpertIdByName(experts, f.expertName).LookupThrows?)
    ensures (selected.Some? && !FindExpertIdByName(experts, f.expertName).LookupThrows? &&
             !Usable(FindExpertIdByName(experts, f.expertName))) ==> r == Refused(ExpertNotFound)
    ensures r.Sent? ==> exists u :: u in experts && NamedAs(u, f.expertName) && u.id != 0 &&
                                   r.request == (selected.value.id, RequestBody(f, u.id))
  {
    if selected.None? then Ignored
    else Dispatch(FindExpertIdByName(experts, f.expertName), id => (selected.value.id, RequestBody(f, id)))
  }

  /** A NULL name listed before the typed one blocks both forms: no alert, no request. */
  lemma NullNameBlocksSubmit(selected: Expertise, f: Form, experts: seq<User>, i: int)
    requires f.sinistreId != "" && f.expertName != ""
    requires 0 <= i < |experts| && !experts[i].nom.Str?
    requires forall k :: 0 <= k < i ==> !NamedAs(experts[k], f.expertName)
    ensures AddExpertise(f, experts) == Throws
    ensures UpdateExpertise(Some(selected), f, experts) == Throws
  {
    NullNameBeforeMatchThrows(experts, f.expertName, i);
  }

  /** A blank claim is refused on add but goes through on update, as `Number("")`, which is 0. */
  lemma UpdateSendsBlankClaimAsZero(selected: Expertise, f: Form, experts: seq<User>)
    requires f.sinistreId == "" && Usable(FindExpertIdByName(experts, f.expertName))
    ensures AddExpertise(f, experts).Refused?
    ensures var r := UpdateExpertise(Some(selected), f, experts);
            r.Sent? && Get(r.request.1, "sinistre_id") == Number(Num(0))
  {
    assert Trim("") == "";
  }

  /** The expert list of this page. */
  function ExpertsListed(users: seq<User>): (r: seq<User>)
    ensures forall u :: u in r <==> u in users && u.roleId == Number(Num(8))
  {
    UsersWithRole(users, 8)
  }

  /** The search: claim number (else ""), expert name (else ""), report and date. */
  predicate Matches(e: Expertise, claims: seq<ClaimRef>, experts: seq<User>, term: string) {
    CiIncludes(ClaimNumberOr(claims, e.sinistreId, ""), term) ||
    CiIncludes(NameOr(experts, OrElse(e.expert, e.expertId), ""), term) ||
    CiIncludes(e.rapport, term) || CiIncludes(e.dateEvaluation, term)
  }

  /** `filteredData` */
  function Search(data: seq<Expertise>, claims: seq<ClaimRef>, experts: seq<User>, term: string): (r: seq<Expertise>)
    ensures IsSubsequence(r, data)
    ensures forall e :: e in r ==> e in data && Matches(e, claims, experts, term)
    ensures forall e :: e in data && Matches(e, claims, experts, term) ==> e in r
  {
    FilterMembership(data, e => Matches(e, claims, experts, term));
    FilterIsSubsequence(data, e => Matches(e, claims, experts, term));
    Filter(data, e => Matches(e, claims, experts, term))
  }

  lemma EmptySearchKeepsAll(data: seq<Expertise>, claims: seq<ClaimRef>, experts: seq<User>)
    ensures Search(data, claims, experts, "") == data
  {
    forall e | e in data ensures Matches(e, claims, experts, "") {
      CiIncludesEmpty(e.rapport);
    }
    FilterKeepsAll(data, e => Matches(e, claims, experts, ""));
  }

  /** The page's state: the id read from "user-id" at mount and the list fetched for it. */
  class Page {
    const loggedInUserId: Option<JsNumber>
    var expertises: seq<Expertise>

    constructor(stored: Option<string>)
      ensures loggedInUserId == LoggedInUserId(stored) && expertises == []
    {
      loggedInUserId := LoggedInUserId(stored);
      expertises := [];
    }

    /**
     * `fetchExpertises`, which runs only for a truthy id: a listing that
     * came back replaces the list; a failed one, or no fetch, changes nothing.
     */
    method Load(data: Option<seq<Expertise>>)
      modifies this
      ensures ShouldFetch(loggedInUserId) && data.Some? ==> expertises == Fetched(data.value, loggedInUserId.value)
      ensures !ShouldFetch(loggedInUserId) || data.None? ==> expertises == old(expertises)
    {
      if ShouldFetch(loggedInUserId) && data.Some? {
        expertises := Fetched(data.value, loggedInUserId.value);
      }
    }
  }

  /** Without a stored id, or with one that reads as 0, nothing is fetched and the page stays empty. */
  method SignedOutPageStaysEmpty(stored: Option<string>, data: Option<seq<Expertise>>) returns (shown: seq<Expertise>)
    requires stored.None? || ParseNumber(stored.value) == Num(0)
    ensures shown == []
  {
    var page := new Page(stored);
    page.Load(data);
    shown := page.expertises;
  }

  /** Whatever the listing holds, an expertise with neither an expert nor an expert id never reaches the page. */
  method UnassignedNeverLoaded(stored: Option<string>, data: seq<Expertise>) returns (shown: seq<Expertise>)
    requires forall e :: e in data ==> IsNullish(e.expert) && IsNullish(e.expertId)
    ensures shown == []
  {
    var page := new Page(stored);
    page.Load(Some(data));
    if ShouldFetch(page.loggedInUserId) {
      UnassignedNeverKept(data, page.loggedInUserId.value.n);
    }
    shown := page.expertises;
  }

  /** `handleDelete`: the list shown after the delete request, which went through or failed. */
  method HandleDelete(shown: seq<Expertise>, id: int, succeeded: bool) returns (after: seq<Expertise>)
    ensures succeeded ==> IsSubsequence(after, shown)
    ensures succeeded ==> forall e :: e in after <==> e in shown && e.id != id
    ensures !succeeded ==> after == shown
  {
    var page := new Displayed(shown, (e: Expertise) => e.id);
    page.HandleDelete(id, succeeded);
    after := page.items;
  }
}
