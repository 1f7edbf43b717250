/**
 * How the route guards, the menus, the sign-in redirect and logout fit
 * together across components.
 */
module Navigation {
  import opened Js
  import opened Session
  import opened Paths
  import opened Gates
  import opened App
  import Sidenav
  import Login
  import Topbar

  /** Every entry of the menu a role is shown leads to a page whose guard lets that role in. */
  lemma MenuEntriesAdmitted(e: Entries, n: int, pathname: string)
    requires ParsedRole(e) == Some(Num(n))
    requires Sidenav.Render(e, pathname).Nav?
    ensures forall item :: item in Sidenav.Render(e, pathname).items ==>
              Visit(item.to, e) == Shows(RouteOf(item.to).page)
  {
    Sidenav.RenderByRole(e, n, pathname);
    if n == 7 {
      AdminEntriesAdmitted(e);
    } else {
      ExpertEntriesAdmitted(e);
    }
  }

  /** The administrator passes the guard of every page of the administrator's menu. */
  lemma AdminEntriesAdmitted(e: Entries)
    requires ParsedRole(e) == Some(Num(7))
    ensures forall item :: item in Sidenav.AdminMenu ==> Visit(item.to, e) == Shows(RouteOf(item.to).page)
  {
    ProtectedRouteEAdmits(e, 7);
    ProtectedRouteIsBlacklist(e, 7);
    forall item | item in Sidenav.AdminMenu ensures Visit(item.to, e) == Shows(RouteOf(item.to).page) {
      var k :| 0 <= k < |Sidenav.AdminMenu| && Sidenav.AdminMenu[k] == item;
      AdminMenuGuarded(k);
    }
  }

  /** Every page of the administrator's menu sits behind ProtectedRoute or ProtectedRouteE. */
  lemma AdminMenuGuarded(k: int)
    requires 0 <= k < |Sidenav.AdminMenu|
    ensures RouteOf(Sidenav.AdminMenu[k].to).gate in {Protected, ExpertOnly}
  {
  }

  /** The expert passes the guard of every page of the expert's menu. */
  lemma ExpertEntriesAdmitted(e: Entries)
    requires ParsedRole(e) == Some(Num(8))
    ensures forall item :: item in Sidenav.ExpertMenu ==> Visit(item.to, e) == Shows(RouteOf(item.to).page)
  {
    ProtectedRouteEAdmits(e, 8);
    forall item | item in Sidenav.ExpertMenu ensures Visit(item.to, e) == Shows(RouteOf(item.to).page) {
      var k :| 0 <= k < |Sidenav.ExpertMenu| && Sidenav.ExpertMenu[k] == item;
      ExpertMenuGuarded(k);
    }
  }

  /** Every page of the expert's menu sits behind ProtectedRouteE. */
  lemma ExpertMenuGuarded(k: int)
    requires 0 <= k < |Sidenav.ExpertMenu|
    ensures RouteOf(Sidenav.ExpertMenu[k].to).gate == ExpertOnly
  {
  }

  /**
   * Signing in with any non-zero role id lands on a page the same session
   * is allowed to see: 6 on the unguarded /homeclient, 8 on /homeexpert,
   * every other id on /home, which lets all of them in.
   */
  lemma LoginLandingAdmitted(e: Entries, n: int)
    requires ParsedRole(e) == Some(Num(n)) && n != 0
    ensures Visit(Login.LandingFor(Num(n)), e).Shows?
  {
    ProtectedRouteEAdmits(e, n);
    ProtectedRouteIsBlacklist(e, n);
  }

  /** The same for the session the sign-in form writes: the role id as a decimal string. */
  lemma StoredLoginLandingAdmitted(n: int, u: Option<string>)
    requires n != 0
    ensures Visit(Login.LandingFor(ParseNumber(ToStr(Number(Num(n))))), WithRole(n, u)).Shows?
  {
    ParsedStoredRole(n, u);
    var e := WithRole(n, u);
    var r := ParseNumber(ToStr(Number(Num(n))));
    assert r == Num(n);
    LoginLandingAdmitted(e, n);
  }

  /** A role id of 0 is signed in, sent to /home, and bounced back to "/". */
  lemma RoleZeroBounced(e: Entries)
    requires ParsedRole(e) == Some(Num(0))
    ensures Login.LandingFor(Num(0)) == HomePath
    ensures Visit(HomePath, e) == Redirected(Root)
  {
  }

  /** Once "session" is gone every guarded page sends to "/", which shows the sign-in form. */
  lemma SignedOutSeesSignIn(e: Entries, p: Path)
    requires e.session.None?
    ensures RouteOf(p).gate in {Protected, ExpertOnly} ==> Visit(p, e) == Redirected(Root)
    ensures Visit(Root, e) == Shows(LoginPage)
  {
    NoSessionRedirectsHome(e);
  }

  /**
   * A client (role 6) is not moved on by PublicRoute: the sign-in and
   * sign-up pages stay reachable, unlike for 7, 8 and 9.
   */
  lemma ClientSeesPublicPages(e: Entries, n: int)
    requires ParsedRole(e) == Some(Num(n))
    ensures n == 6 ==> Visit(Root, e) == Shows(LoginPage) && Visit(RegisterPath, e) == Shows(RegisterPage)
    ensures n == 9 ==> Visit(Root, e) == Redirected(HomeClientPath)
  {
    PublicRouteMovesOn(e, n);
  }

  /** Logging out and then opening any guarded page ends on the sign-in form. */
  method LogoutThenVisit(store: Storage, p: Path) returns (s: Screen)
    modifies store
    ensures store.userId == old(store.userId)
    ensures RouteOf(p).gate in {Protected, ExpertOnly} ==> s == Shows(LoginPage)
  {
    var to := Topbar.HandleLogout(store);
    NoSessionRedirectsHome(store.Snapshot());
    s := Settle(p, store.Snapshot(), 1);
  }
}
