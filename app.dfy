/**
 * The application's route table: each path, the guard wrapped around its
 * page (if any), and the page itself; and what visiting a path shows.
 */
module App {
  import opened Js
  import opened Session
  import opened Gates
  import opened Paths

  datatype Gate = Public | Protected | ExpertOnly | Ungated

  datatype Page =
    | LoginPage | RegisterPage | HomePage | HomeExpertPage | HomeClientPage
    | UsersPage | SinistresPage | SinistrePage | ClaimsPage | DocumentsPage
    | DocumentPage | PaiementsPage | ExpertisesPage | ExpertisePage
    | ExpertsPage | PolicesPage | RolesPage

  datatype Route = Route(path: Path, gate: Gate, page: Page)

  /**
   * The `<Route>` elements: every declared path with its guard and page.
   * Paths are distinct (`Paths.TextInjective`), so the table is a function.
   */
  function RouteOf(p: Path): (r: Route)
    ensures r.path == p
  {
    match p
    case Root => Route(Root, Public, LoginPage)
    case RegisterPath => Route(RegisterPath, Public, RegisterPage)
    case HomePath => Route(HomePath, Protected, HomePage)
    case HomeExpertPath => Route(HomeExpertPath, ExpertOnly, HomeExpertPage)
    case HomeClientPath => Route(HomeClientPath, Ungated, HomeClientPage)
    case UsersPath => Route(UsersPath, Protected, UsersPage)
    case SinistresPath => Route(SinistresPath, ExpertOnly, SinistresPage)
    case SinistrePath => Route(SinistrePath, ExpertOnly, SinistrePage)
    case ClaimsPath => Route(ClaimsPath, Ungated, ClaimsPage)
    case DocumentsPath => Route(DocumentsPath, ExpertOnly, DocumentsPage)
    case DocumentPath => Route(DocumentPath, ExpertOnly, DocumentPage)
    case PaiementsPath => Route(PaiementsPath, ExpertOnly, PaiementsPage)
    case ExpertisesPath => Route(ExpertisesPath, ExpertOnly, ExpertisesPage)
    case ExpertisePath => Route(ExpertisePath, ExpertOnly, ExpertisePage)
    case ExpertsPath => Route(ExpertsPath, Protected, ExpertsPage)
    case PolicesPath => Route(PolicesPath, Protected, PolicesPage)
    case RolesPath => Route(RolesPath, Protected, RolesPage)
  }

  /** What a guard decides; an unguarded page always renders. */
  function Guard(g: Gate, e: Entries): Outcome {
    match g
    case Public => PublicRoute(e)
    case Protected => ProtectedRoute(e)
    case ExpertOnly => ProtectedRouteE(e)
    case Ungated => Render
  }

  datatype Screen = Shows(page: Page) | Redirected(to: Path)

  /** Visiting a path: its guard either shows its page or redirects. */
  function Visit(path: Path, e: Entries): (s: Screen)
    ensures s.Shows? <==> Guard(RouteOf(path).gate, e) == Render
    ensures s.Shows? ==> s.page == RouteOf(path).page
  {
    var r := RouteOf(path);
    match Guard(r.gate, e)
    case Render => Shows(r.page)
    case Redirect(to) => Redirected(to)
  }

  /** Visiting a path and following `<Navigate>` redirects, at most `hops` of them. */
  function Settle(path: Path, e: Entries, hops: nat): Screen
    decreases hops
  {
    match Visit(path, e)
    case Redirected(to) => if hops == 0 then Redirected(to) else Settle(to, e, hops - 1)
    case s => s
  }

  /** The guard on each path, as declared. */
  lemma GateOfEachPath(p: Path)
    ensures RouteOf(p).gate == Public <==> p in {Root, RegisterPath}
    ensures RouteOf(p).gate == Protected <==> p in {HomePath, UsersPath, ExpertsPath, PolicesPath, RolesPath}
    ensures RouteOf(p).gate == ExpertOnly <==>
              p in {HomeExpertPath, SinistresPath, SinistrePath, DocumentsPath, DocumentPath,
                    PaiementsPath, ExpertisesPath, ExpertisePath}
    ensures RouteOf(p).gate == Ungated <==> p in {HomeClientPath, ClaimsPath}
  {
  }

  /** /homeclient and /claims are reached whatever the session holds. */
  lemma UngatedAlwaysShown(e: Entries)
    ensures Visit(HomeClientPath, e) == Shows(HomeClientPage)
    ensures Visit(ClaimsPath, e) == Shows(ClaimsPage)
  {
  }

  /**
   * Redirects never loop: from any path and any session, following at most
   * two redirects ends on a page.
   */
  lemma SettlesWithinTwoRedirects(path: Path, e: Entries)
    ensures Settle(path, e, 2).Shows?
  {
    if Visit(path, e).Redirected? {
      RedirectSettles(path, e);
    }
  }

  /** The target of any redirect ends on a page after at most one more. */
  lemma RedirectSettles(path: Path, e: Entries)
    requires Visit(path, e).Redirected?
    ensures Settle(Visit(path, e).to, e, 1).Shows?
  {
    var to := Visit(path, e).to;
    match RouteOf(path).gate
    case Public =>
      PublicTargetShown(e);
    case Protected =>
      if to == Root {
        RootSettles(e);
      } else {
        assert to in {HomeClientPath, HomeExpertPath};
        assert Visit(to, e).Shows?;
      }
    case ExpertOnly =>
      RootSettles(e);
    case Ungated =>
  }

  /** Where PublicRoute sends a signed-in role, that role is let in. */
  lemma PublicTargetShown(e: Entries)
    requires PublicRoute(e).Redirect?
    ensures Visit(PublicRoute(e).to, e).Shows?
  {
  }

  /** The sign-in page ends on a page after at most one redirect. */
  lemma RootSettles(e: Entries)
    ensures Settle(Root, e, 1).Shows?
  {
    if PublicRoute(e).Redirect? {
      PublicTargetShown(e);
    }
  }
}
