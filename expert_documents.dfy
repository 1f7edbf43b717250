/**
 * The expert's document page (the `Document` component): once a user id
 * is in storage it fetches every document, keeps those whose expert is
 * that user, and narrows them by the search box.
 */
module ExpertDocuments {
  import opened Js
  import opened Lists
  import opened Records
  import opened Session
  import Documents

  /** `Number(d.expert) === Number(loggedInUserId)` */
  predicate AssignedTo(d: Documents.Document, id: JsNumber) {
    NumberStrictEquals(ToNumber(d.expert), id)
  }

  function Assigned(docs: seq<Documents.Document>, id: JsNumber): (r: seq<Documents.Document>)
    ensures IsSubsequence(r, docs)
    ensures forall d :: d in r ==> d in docs && id.Num? && ToNumber(d.expert) == id
    ensures forall d :: d in docs && id.Num? && ToNumber(d.expert) == id ==> d in r
  {
    FilterMembership(docs, d => AssignedTo(d, id));
    FilterIsSubsequence(docs, d => AssignedTo(d, id));
    Filter(docs, d => AssignedTo(d, id))
  }

  /** `filteredDocuments`: file name, claim number, type and upload date, without regard to case. */
  function SearchOwn(docs: seq<Documents.Document>, claims: seq<ClaimRef>, term: string): (r: seq<Documents.Document>)
    ensures IsSubsequence(r, docs)
    ensures forall d :: d in r <==> d in docs && Documents.TextMatches(d, claims, term)
  {
    FilterMembership(docs, d => Documents.TextMatches(d, claims, term));
    FilterIsSubsequence(docs, d => Documents.TextMatches(d, claims, term));
    Filter(docs, d => Documents.TextMatches(d, claims, term))
  }

  /** This page's search finds no more than the admin page's search would. */
  lemma SearchWithinAdminSearch(docs: seq<Documents.Document>, claims: seq<ClaimRef>, term: string)
    ensures forall d :: d in SearchOwn(docs, claims, term) ==> Documents.Kept(d, claims, term)
    ensures Documents.Search(docs, claims, term).Some? ==>
              forall d :: d in SearchOwn(docs, claims, term) ==> d in Documents.Search(docs, claims, term).value
  {
  }

  /** A document without an expert is shown to nobody who passes the fetch guard. */
  lemma UnassignedNeverShown(docs: seq<Documents.Document>, stored: Option<string>)
    requires ShouldFetch(LoggedInUserId(stored))
    requires forall d :: d in docs ==> IsNullish(d.expert)
    ensures Assigned(docs, LoggedInUserId(stored).value) == []
  {
    FilterKeepsNone(docs, d => AssignedTo(d, LoggedInUserId(stored).value));
  }

  /** The page's document list and the id it was loaded for. */
  class Page {
    var loggedInUserId: Option<JsNumber>
    var documents: seq<Documents.Document>

    constructor(stored: Option<string>)
      ensures loggedInUserId == LoggedInUserId(stored) && documents == []
    {
      loggedInUserId := LoggedInUserId(stored);
      documents := [];
    }

    /**
     * `fetchDocuments` as the effect runs it: nothing happens for a falsy
     * id; otherwise a listing that came back replaces the list with the
     * user's documents, and a failed one leaves the list as it was.
     */
    method Load(fetched: Option<seq<Documents.Document>>)
      modifies this
      ensures loggedInUserId == old(loggedInUserId)
      ensures ShouldFetch(loggedInUserId) && fetched.Some? ==> documents == Assigned(fetched.value, loggedInUserId.value)
      ensures !ShouldFetch(loggedInUserId) || fetched.None? ==> documents == old(documents)
    {
      if ShouldFetch(loggedInUserId) && fetched.Some? {
        documents := Assigned(fetched.value, loggedInUserId.value);
      }
    }

    /** What the table shows for a search term. */
    function Shown(claims: seq<ClaimRef>, term: string): (r: seq<Documents.Document>)
      reads this
      ensures forall d :: d in r ==> d in documents && Documents.TextMatches(d, claims, term)
    {
      SearchOwn(documents, claims, term)
    }
  }

  /** Without a stored id, or with one that reads as 0, the page stays empty. */
  method SignedOutPageStaysEmpty(stored: Option<string>, fetched: Option<seq<Documents.Document>>) returns (shown: seq<Documents.Document>)
    requires stored.None? || ParseNumber(stored.value) == Num(0)
    ensures shown == []
  {
    var page := new Page(stored);
    page.Load(fetched);
    shown := page.documents;
  }

  /** After a load every document on the page belongs to the signed-in expert. */
  method LoadedAreOwn(stored: Option<string>, fetched: seq<Documents.Document>) returns (shown: seq<Documents.Document>)
    ensures forall d :: d in shown ==> ShouldFetch(LoggedInUserId(stored)) && ToNumber(d.expert) == LoggedInUserId(stored).value
  {
    var page := new Page(stored);
    page.Load(Some(fetched));
    shown := page.documents;
  }

  /** The expert picker of the add form. */
  function UsersListed(users: seq<User>): (r: seq<User>)
    ensures forall u :: u in r <==> u in users && u.roleId == Number(Num(8))
  {
    UsersWithRole(users, 8)
  }
}
