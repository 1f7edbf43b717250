/**
 * The browser-side session: two entries of `localStorage`, "session" (the
 * role id) and "user-id", and the way every component reads the role back,
 * `session ? Number(session) : null`.
 */
module Session {
  import opened Js

  /** The two storage entries; an absent entry is None. */
  datatype Entries = Entries(session: Option<string>, userId: Option<string>)

  /** `localStorage`, restricted to the keys "session" and "user-id". */
  class Storage {
    var session: Option<string>
    var userId: Option<string>

    constructor (e: Entries)
      ensures Snapshot() == e
    {
      session := e.session;
      userId := e.userId;
    }

    function Snapshot(): Entries
      reads this
    {
      Entries(session, userId)
    }

    /** `localStorage.setItem("session", v)`: storage keeps `String(v)`. */
    method SetSession(v: JsValue)
      modifies this
      ensures session == Some(ToStr(v)) && userId == old(userId)
    {
      session := Some(ToStr(v));
    }

    /** `localStorage.setItem("user-id", v)` */
    method SetUserId(v: JsValue)
      modifies this
      ensures userId == Some(ToStr(v)) && session == old(session)
    {
      userId := Some(ToStr(v));
    }

    /** `localStorage.removeItem("session")` */
    method RemoveSession()
      modifies this
      ensures session == None && userId == old(userId)
    {
      session := None;
    }

    /** `localStorage.getItem("session")`, null when absent. */
    method GetSession() returns (v: Option<string>)
      ensures v == session
    {
      v := session;
    }
  }

  /**
   * `session ? Number(session) : null`: no role when the entry is absent or
   * empty, otherwise the entry read as a number (possibly NaN).
   */
  function ParsedRole(e: Entries): (r: Option<JsNumber>)
    ensures r.None? <==> e.session.None? || e.session.value == ""
    ensures r.Some? ==> r.value == ParseNumber(e.session.value)
  {
    if e.session.Some? && e.session.value != "" then Some(ParseNumber(e.session.value)) else None
  }

  /** `!roleId` on the parsed role: absent, 0 or NaN. */
  predicate RoleFalsy(r: Option<JsNumber>) {
    r.None? || !NumberTruthy(r.value)
  }

  /** `roleId === k` on the parsed role. */
  predicate RoleIs(r: Option<JsNumber>, k: int) {
    r == Some(Num(k))
  }

  /** The entries a session whose stored role is the integer n. */
  function WithRole(n: int, userId: Option<string>): Entries {
    Entries(Some(ToStr(Number(Num(n)))), userId)
  }

  /** A role id stored by `setItem` is read back as the same number. */
  lemma ParsedStoredRole(n: int, userId: Option<string>)
    ensures ParsedRole(WithRole(n, userId)) == Some(Num(n))
  {
    NumberOfIntToString(n);
  }

  /** A role read back from storage is falsy exactly when the stored id is 0. */
  lemma StoredRoleFalsy(n: int, userId: Option<string>)
    ensures RoleFalsy(ParsedRole(WithRole(n, userId))) <==> n == 0
  {
    ParsedStoredRole(n, userId);
  }

  /** The pages' `loggedInUserId`, read from "user-id": `Number` of the stored id when it is non-empty, else null (None). */
  function LoggedInUserId(stored: Option<string>): (id: Option<JsNumber>)
    ensures id.Some? <==> stored.Some? && stored.value != ""
    ensures id.Some? ==> id.value == ParseNumber(stored.value)
  {
    if stored.Some? && stored.value != "" then Some(ParseNumber(stored.value)) else None
  }

  /** The fetch runs only for a truthy id: not null, 0 or NaN. */
  predicate ShouldFetch(id: Option<JsNumber>) {
    id.Some? && NumberTruthy(id.value)
  }
}
