/**
 * The top bar: the role's display name and avatar letter, the home button
 * shown to clients, and logging out.
 */
module Topbar {
  import opened Js
  import opened Session
  import opened Paths

  /** `roleName`, from the parsed session role. */
  function RoleName(e: Entries): (name: string)
    ensures name in {"Admin", "Expert", "Client", "Guest"}
    ensures name == "Guest" <==> ParsedRole(e) !in {Some(Num(7)), Some(Num(8)), Some(Num(6))}
  {
    var role := ParsedRole(e);
    if RoleIs(role, 7) then "Admin"
    else if RoleIs(role, 8) then "Expert"
    else if RoleIs(role, 6) then "Client"
    else "Guest"
  }

  /** `roleName.charAt(0)` */
  function AvatarLetter(e: Entries): (c: char)
    ensures c in {'A', 'E', 'C', 'G'}
  {
    RoleName(e)[0]
  }

  /** `roleId === 6 && <button>`: the home button is for clients only. */
  predicate ShowsHomeButton(e: Entries) {
    RoleIs(ParsedRole(e), 6)
  }

  /** The name shown for each role id. */
  lemma RoleNameOfRole(e: Entries, n: int)
    requires ParsedRole(e) == Some(Num(n))
    ensures n == 7 ==> RoleName(e) == "Admin"
    ensures n == 8 ==> RoleName(e) == "Expert"
    ensures n == 6 ==> RoleName(e) == "Client"
    ensures n !in {6, 7, 8} ==> RoleName(e) == "Guest"
    ensures ShowsHomeButton(e) <==> n == 6
  {
  }

  /** The avatar is the initial of the role name. */
  lemma AvatarIsInitial(e: Entries)
    ensures AvatarLetter(e) == (if RoleName(e) == "Admin" then 'A' else if RoleName(e) == "Expert" then 'E'
                                else if RoleName(e) == "Client" then 'C' else 'G')
  {
  }

  /** A visitor without a session is a guest with no home button. */
  lemma SignedOutIsGuest(e: Entries)
    requires e.session.None?
    ensures RoleName(e) == "Guest" && AvatarLetter(e) == 'G' && !ShowsHomeButton(e)
  {
  }

  /**
   * `handleLogout`: removes the "session" entry only (the "user-id" entry
   * stays) and navigates to "/".
   */
  method HandleLogout(store: Storage) returns (to: Path)
    modifies store
    ensures store.Snapshot() == old(store.Snapshot()).(session := None)
    ensures store.userId == old(store.userId)
    ensures ParsedRole(store.Snapshot()) == None
    ensures to == Root
  {
    store.RemoveSession();
    to := Root;
  }
}
