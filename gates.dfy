/**
 * The three route guards. Each reads only the "session" entry, parses it
 * as the role, and either renders its child or redirects.
 */
module Gates {
  import opened Js
  import opened Session
  import opened Paths

  datatype Outcome = Render | Redirect(to: Path)

  /**
   * `ProtectedRoute`: no role, 0 or NaN go to Root, role 6 to /homeclient,
   * role 8 to /homeexpert; every other number renders the page.
   */
  function ProtectedRoute(e: Entries): (o: Outcome)
    ensures o == Render <==> ParsedRole(e).Some? && ParsedRole(e).value.Num?
                             && ParsedRole(e).value.n !in {0, 6, 8}
    ensures o.Redirect? ==> o.to in {Root, HomeClientPath, HomeExpertPath}
  {
    var role := ParsedRole(e);
    if RoleFalsy(role) then Redirect(Root)
    else if RoleIs(role, 6) then Redirect(HomeClientPath)
    else if RoleIs(role, 8) then Redirect(HomeExpertPath)
    else Render
  }

  /** `ProtectedRouteE`: only roles 7 and 8 render; everything else goes to Root. */
  function ProtectedRouteE(e: Entries): (o: Outcome)
    ensures o == Render <==> ParsedRole(e) in {Some(Num(7)), Some(Num(8))}
    ensures o != Render ==> o == Redirect(Root)
  {
    var role := ParsedRole(e);
    if RoleFalsy(role) || (!RoleIs(role, 7) && !RoleIs(role, 8)) then Redirect(Root) else Render
  }

  /**
   * `PublicRoute`: an already signed-in role 7, 8 or 9 is sent to its home;
   * everything else, role 6 included, sees the public page.
   */
  function PublicRoute(e: Entries): (o: Outcome)
    ensures o == Render <==> ParsedRole(e) !in {Some(Num(7)), Some(Num(8)), Some(Num(9))}
    ensures o.Redirect? ==> o.to !in {Root, RegisterPath}
  {
    var role := ParsedRole(e);
    if RoleIs(role, 7) then Redirect(HomePath)
    else if RoleIs(role, 8) then Redirect(HomeExpertPath)
    else if RoleIs(role, 9) then Redirect(HomeClientPath)
    else Render
  }

  /** No gate looks at "user-id". */
  lemma GatesIgnoreUserId(s: Option<string>, u1: Option<string>, u2: Option<string>)
    ensures ProtectedRoute(Entries(s, u1)) == ProtectedRoute(Entries(s, u2))
    ensures ProtectedRouteE(Entries(s, u1)) == ProtectedRouteE(Entries(s, u2))
    ensures PublicRoute(Entries(s, u1)) == PublicRoute(Entries(s, u2))
  {
    assert ParsedRole(Entries(s, u1)) == ParsedRole(Entries(s, u2));
  }

  /** Without a session entry, or with an empty one, the protected gates send to Root. */
  lemma NoSessionRedirectsHome(e: Entries)
    requires e.session.None? || e.session == Some("")
    ensures ProtectedRoute(e) == Redirect(Root)
    ensures ProtectedRouteE(e) == Redirect(Root)
    ensures PublicRoute(e) == Render
  {
  }

  /**
   * ProtectedRoute excludes only 0, 6 and 8: any other role id,
   * including 7, 9 and ids no role has, is let through.
   */
  lemma ProtectedRouteIsBlacklist(e: Entries, n: int)
    requires ParsedRole(e) == Some(Num(n))
    ensures ProtectedRoute(e) == Render <==> n !in {0, 6, 8}
    ensures n == 6 ==> ProtectedRoute(e) == Redirect(HomeClientPath)
    ensures n == 8 ==> ProtectedRoute(e) == Redirect(HomeExpertPath)
    ensures n == 0 ==> ProtectedRoute(e) == Redirect(Root)
  {
  }

  /** ProtectedRouteE lets exactly the roles 7 and 8 through. */
  lemma ProtectedRouteEAdmits(e: Entries, n: int)
    requires ParsedRole(e) == Some(Num(n))
    ensures ProtectedRouteE(e) == Render <==> n == 7 || n == 8
  {
  }

  /**
   * PublicRoute moves the roles 7, 8 and 9 on and shows the public
   * page to every other, role 6 included.
   */
  lemma PublicRouteMovesOn(e: Entries, n: int)
    requires ParsedRole(e) == Some(Num(n))
    ensures n == 7 ==> PublicRoute(e) == Redirect(HomePath)
    ensures n == 8 ==> PublicRoute(e) == Redirect(HomeExpertPath)
    ensures n == 9 ==> PublicRoute(e) == Redirect(HomeClientPath)
    ensures n !in {7, 8, 9} ==> PublicRoute(e) == Render
  {
  }

  /** A session entry that does not read as a number is treated like no session at all. */
  lemma NaNSessionRedirects(e: Entries)
    requires ParsedRole(e) == Some(NaN)
    ensures ProtectedRoute(e) == Redirect(Root) && ProtectedRouteE(e) == Redirect(Root)
    ensures PublicRoute(e) == Render
  {
  }
}
