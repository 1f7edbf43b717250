/**
 * What the list pages share: the user records every page reads from
 * /viewuser, the lookups that join a row to a user by id, the role
 * pickers, the displayed list that the delete handlers shrink, and the
 * preview of a chosen file.
 */
module Records {
  import opened Js
  import opened Lists

  /** A user as the pages read it: id, name and role id, as /viewuser sends them; a NULL name is `Null`. */
  datatype User = User(id: int, nom: JsValue, roleId: JsValue)

  /** `u.role_id === role`: a role id sent as a string does not count. */
  predicate HasRole(u: User, role: int) {
    StrictEquals(u.roleId, Number(Num(role)))
  }

  /** `users.filter(u => u.role_id === role)`: the client (6) and expert (8) pickers. */
  function UsersWithRole(users: seq<User>, role: int): (r: seq<User>)
    ensures forall u :: u in r ==> u in users && u.roleId == Number(Num(role))
    ensures forall u :: u in users && u.roleId == Number(Num(role)) ==> u in r
    ensures IsSubsequence(r, users)
  {
    FilterMembership(users, u => HasRole(u, role));
    FilterIsSubsequence(users, u => HasRole(u, role));
    Filter(users, u => HasRole(u, role))
  }

  /** Picking twice by the same role is picking once: a picker of pickers is the same picker. */
  lemma UsersWithRoleIdempotent(users: seq<User>, role: int)
    ensures UsersWithRole(UsersWithRole(users, role), role) == UsersWithRole(users, role)
  {
    FilterIdempotent(users, u => HasRole(u, role));
  }

  /** The client and expert pickers never share a user. */
  lemma PickersDisjoint(users: seq<User>)
    ensures forall u :: u in UsersWithRole(users, 6) ==> u !in UsersWithRole(users, 8)
  {
  }

  /** `users.find(u => u.id === key)` */
  function UserById(users: seq<User>, key: JsValue): (r: Option<User>)
    ensures r.Some? ==> r.value in users && key == Number(Num(r.value.id))
    ensures r.None? ==> forall u :: u in users ==> key != Number(Num(u.id))
  {
    Find(users, (u: User) => StrictEquals(Number(Num(u.id)), key))
  }

  /**
   * `users.find(u => u.id === key)?.nom || fallback`, as the page shows it:
   * a truthy name as its text, and the fallback for a missing user or a
   * null or empty name.
   */
  function NameOr(users: seq<User>, key: JsValue, fallback: string): (name: string)
    ensures UserById(users, key).None? ==> name == fallback
    ensures UserById(users, key).Some? && Truthy(UserById(users, key).value.nom) ==> name == ToStr(UserById(users, key).value.nom) != ""
    ensures UserById(users, key).Some? && !Truthy(UserById(users, key).value.nom) ==> name == fallback
  {
    match UserById(users, key)
    case Some(u) => if Truthy(u.nom) then ToStr(u.nom) else fallback
    case None => fallback
  }

  /** The name shown is the name of the FIRST user with that id. */
  lemma NameOfFirstUser(users: seq<User>, i: int)
    requires 0 <= i < |users| && Truthy(users[i].nom)
    requires forall k :: 0 <= k < i ==> users[k].id != users[i].id
    ensures NameOr(users, Number(Num(users[i].id)), "") == ToStr(users[i].nom)
  {
    FirstFound(users, (u: User) => StrictEquals(Number(Num(u.id)), Number(Num(users[i].id))), i);
  }

  lemma {:induction false} FirstFound<T(!new)>(s: seq<T>, p: T -> bool, i: int)
    requires 0 <= i < |s| && p(s[i]) && forall k :: 0 <= k < i ==> !p(s[k])
    ensures Find(s, p) == Some(s[i])
    decreases i
  {
    if i > 0 {
      FirstFound(s[1..], p, i - 1);
    }
  }

  /** A claim as the other pages look it up: id, number and type. */
  datatype ClaimRef = ClaimRef(id: int, numero: string, kind: string)

  /** `sinistres.find(s => s.id === key)` */
  function ClaimById(claims: seq<ClaimRef>, key: JsValue): (r: Option<ClaimRef>)
    ensures r.Some? ==> r.value in claims && key == Number(Num(r.value.id))
    ensures r.None? ==> forall c :: c in claims ==> key != Number(Num(c.id))
  {
    Find(claims, (c: ClaimRef) => StrictEquals(Number(Num(c.id)), key))
  }

  /** `sinistres.find(s => s.id === key)?.Numero_Sinistre || fallback` */
  function ClaimNumberOr(claims: seq<ClaimRef>, key: JsValue, fallback: string): (n: string)
    ensures ClaimById(claims, key).Some? && ClaimById(claims, key).value.numero != "" ==> n == ClaimById(claims, key).value.numero
    ensures ClaimById(claims, key).None? || ClaimById(claims, key).value.numero == "" ==> n == fallback
  {
    match ClaimById(claims, key)
    case Some(c) => if c.numero != "" then c.numero else fallback
    case None => fallback
  }

  // ---------------------------------------------------------------------
  // The displayed list

  /**
   * A page's displayed rows. The delete handler removes the rows with
   * the deleted id once the server has answered with success
   * (`prev.filter(x => x.id !== id)`); when the request fails the list
   * stays as it was.
   */
  class Displayed<T(==,!new)> {
    var items: seq<T>
    const key: T -> int

    constructor(initial: seq<T>, key: T -> int)
      ensures items == initial && this.key == key
    {
      items := initial;
      this.key := key;
    }

    method HandleDelete(id: int, succeeded: bool)
      modifies this
      ensures succeeded ==> items == RemoveKey(old(items), key, id)
      ensures !succeeded ==> items == old(items)
    {
      if succeeded {
        items := RemoveKey(items, key, id);
      }
    }
  }

  // ---------------------------------------------------------------------
  // File preview

  /** A file chosen in a form: its MIME type and name. */
  datatype Upload = Upload(mime: string, name: string, bytes: seq<int>)

  datatype Preview = NoPreview | Image | Video | FileName(name: string)

  /**
   * `renderFilePreview`: nothing without a file, an image for an
   * "image/" type, a video for a "video/" type, else the file's name.
   */
  function PreviewOf(file: Option<Upload>): (p: Preview)
    ensures file.None? <==> p == NoPreview
    ensures p == Image <==> file.Some? && StartsWith(file.value.mime, "image/")
    ensures p == Video <==> file.Some? && !StartsWith(file.value.mime, "image/") && StartsWith(file.value.mime, "video/")
    ensures p.FileName? ==> file.Some? && p.name == file.value.name
  {
    match file
    case None => NoPreview
    case Some(f) =>
      if StartsWith(f.mime, "image/") then Image
      else if StartsWith(f.mime, "video/") then Video
      else FileName(f.name)
  }

  // ---------------------------------------------------------------------
  // Form submission

  /**
   * What a guarded submit handler does: refuse with an alert, send the
   * request, return without doing anything, or throw before either, so
   * that its promise rejects with no alert and no request.
   */
  datatype Submit<T> = Refused(alert: string) | Sent(request: T) | Ignored | Throws

  /** One part of a multipart form: a text field or the chosen file. */
  datatype FormPart = TextPart(name: string, text: string) | FilePart(name: string, file: Upload)

  /** The parts of a form with a given name. */
  function PartsNamed(parts: seq<FormPart>, name: string): (r: seq<FormPart>)
    ensures forall p :: p in r <==> p in parts && p.name == name
  {
    FilterMembership(parts, (p: FormPart) => p.name == name);
    Filter(parts, (p: FormPart) => p.name == name)
  }
}
