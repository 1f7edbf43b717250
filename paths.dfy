/** The client-side paths the application declares and navigates to. */
module Paths {

  datatype Path =
    | Root | RegisterPath | HomePath | HomeExpertPath | HomeClientPath
    | UsersPath | SinistresPath | SinistrePath | ClaimsPath | DocumentsPath
    | DocumentPath | PaiementsPath | ExpertisesPath | ExpertisePath
    | ExpertsPath | PolicesPath | RolesPath

  /** The URL path each one stands for. */
  function Text(p: Path): string {
    match p
    case Root => "/"
    case RegisterPath => "/register"
    case HomePath => "/home"
    case HomeExpertPath => "/homeexpert"
    case HomeClientPath => "/homeclient"
    case UsersPath => "/users"
    case SinistresPath => "/sinistres"
    case SinistrePath => "/sinistre"
    case ClaimsPath => "/claims"
    case DocumentsPath => "/documents"
    case DocumentPath => "/document"
    case PaiementsPath => "/paiements"
    case ExpertisesPath => "/expertises"
    case ExpertisePath => "/expertise"
    case ExpertsPath => "/experts"
    case PolicesPath => "/polices"
    case RolesPath => "/roles"
  }

  /** Distinct paths are distinct URLs, so a URL names at most one path. */
  lemma TextInjective(p: Path, q: Path)
    requires Text(p) == Text(q)
    ensures p == q
  {
    var s, t := Text(p), Text(q);
    assert |s| == |t|;
    if |s| > 1 { assert s[1] == t[1]; }
    if |s| > 2 { assert s[2] == t[2]; }
    if |s| > 5 { assert s[5] == t[5]; }
    if |s| > 10 { assert s[10] == t[10]; }
  }
}
