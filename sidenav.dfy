/**
 * The side navigation: a fixed menu per role (7, the administrator, and 8,
 * the expert), chosen by the parsed session role, with the entry for the
 * current location marked active.
 */
module Sidenav {
  import opened Js
  import opened Session
  import opened Paths

  datatype MenuItem = MenuItem(to: Path, icon: string, caption: string)

  /** `menus[7]` */
  const AdminMenu: seq<MenuItem> := [
    MenuItem(HomePath, "fa-solid fa-house", "Accueil"),
    MenuItem(PolicesPath, "fa-solid fa-file-shield", "Polices"),
    MenuItem(SinistresPath, "fa-solid fa-car-burst", "Sinistres"),
    MenuItem(DocumentsPath, "fa-solid fa-file", "Documents"),
    MenuItem(PaiementsPath, "fa-solid fa-credit-card", "Paiements"),
    MenuItem(ExpertisePath, "fa-solid fa-magnifying-glass", "Expertise"),
    MenuItem(ExpertsPath, "fa-solid fa-user-tie", "Experts"),
    MenuItem(RolesPath, "fa-solid fa-user-shield", "Rôles"),
    MenuItem(UsersPath, "fa-solid fa-users", "Utilisateurs")
  ]

  /** `menus[8]` */
  const ExpertMenu: seq<MenuItem> := [
    MenuItem(HomeExpertPath, "fa-solid fa-house", "Accueil"),
    MenuItem(SinistrePath, "fa-solid fa-car-burst", "Sinistre"),
    MenuItem(DocumentPath, "fa-solid fa-file", "Document"),
    MenuItem(ExpertisesPath, "fa-solid fa-magnifying-glass", "Expertises")
  ]

  /** `menus[roleId]`: a menu for the keys 7 and 8, `undefined` (None) for any other. */
  function Menus(role: JsNumber): (m: Option<seq<MenuItem>>)
    ensures m.Some? <==> role in {Num(7), Num(8)}
  {
    if role == Num(7) then Some(AdminMenu)
    else if role == Num(8) then Some(ExpertMenu)
    else None
  }

  /**
   * What the component produces: nothing, a navigation list with one
   * active flag per entry, or a crash (reading `.length` of `undefined`).
   */
  datatype View = Nothing | Nav(items: seq<MenuItem>, active: seq<bool>) | Crash

  /** `roleId ? menus[roleId] : []`, then `if (!currentMenus.length) return null`. */
  function Render(e: Entries, pathname: string): (v: View)
    ensures v.Nav? ==> |v.items| == |v.active| &&
                       forall i :: 0 <= i < |v.items| ==> (v.active[i] <==> Text(v.items[i].to) == pathname)
  {
    var role := ParsedRole(e);
    if RoleFalsy(role) then Nothing
    else match Menus(role.value)
      case None => Crash
      case Some(m) =>
        if |m| == 0 then Nothing
        else Nav(m, seq(|m|, i requires 0 <= i < |m| => Text(m[i].to) == pathname))
  }

  /** The entries' targets, in menu order. */
  function Targets(m: seq<MenuItem>): (t: seq<Path>)
    ensures |t| == |m| && forall i :: 0 <= i < |m| ==> t[i] == m[i].to
  {
    seq(|m|, i requires 0 <= i < |m| => m[i].to)
  }

  /** The menu each signed-in role sees, and what everyone else gets. */
  lemma RenderByRole(e: Entries, n: int, pathname: string)
    requires ParsedRole(e) == Some(Num(n))
    ensures n == 7 ==> Render(e, pathname).Nav? && Render(e, pathname).items == AdminMenu
    ensures n == 8 ==> Render(e, pathname).Nav? && Render(e, pathname).items == ExpertMenu
    ensures n == 0 ==> Render(e, pathname) == Nothing
    ensures n !in {0, 7, 8} ==> Render(e, pathname) == Crash
  {
  }

  /** Without a session, or with one that reads as NaN or 0, there is no menu. */
  lemma NoRoleNoMenu(e: Entries, pathname: string)
    requires RoleFalsy(ParsedRole(e))
    ensures Render(e, pathname) == Nothing
  {
  }

  /** The administrator's nine entries and the expert's four, in order. */
  lemma MenuTargets()
    ensures Targets(AdminMenu) == [HomePath, PolicesPath, SinistresPath, DocumentsPath, PaiementsPath,
                                   ExpertisePath, ExpertsPath, RolesPath, UsersPath]
    ensures Targets(ExpertMenu) == [HomeExpertPath, SinistrePath, DocumentPath, ExpertisesPath]
  {
  }

  /** Within each menu the targets are distinct. */
  lemma TargetsDistinct(m: seq<MenuItem>)
    requires m == AdminMenu || m == ExpertMenu
    ensures forall i, j :: 0 <= i < j < |m| ==> m[i].to != m[j].to
  {
  }

  /** At most one entry is active, whatever the current location. */
  lemma AtMostOneActive(e: Entries, pathname: string)
    requires Render(e, pathname).Nav?
    ensures forall i, j :: 0 <= i < j < |Render(e, pathname).items| && Render(e, pathname).active[i]
                           ==> !Render(e, pathname).active[j]
  {
    var v := Render(e, pathname);
    assert v.items == AdminMenu || v.items == ExpertMenu;
    TargetsDistinct(v.items);
    forall i, j | 0 <= i < j < |v.items| && v.active[i] ensures !v.active[j] {
      if v.active[j] {
        TextInjective(v.items[i].to, v.items[j].to);
      }
    }
  }
}
