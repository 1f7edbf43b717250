# Gestion des sinistres — a Dafny model

Gestion des sinistres is an insurance-claims application. It has a React
front end for administrators (role 7), experts (role 8) and clients
(role 6), and an Express/MySQL back end. This project models the parts
of it that decide things, and proves what they promise.

- **Who sees which page.** The browser session is two storage entries,
  `session` (the role id) and `user-id`. The three route guards are
  `ProtectedRoute`, `ProtectedRouteE` and `PublicRoute`. The model covers:
  - the route table;
  - the landing page after sign-in;
  - logout;
  - the role label and the role menus of the top bar and the side menu.

  Modules: `Session`, `Gates`, `Paths`, `App`, `Login`, `Registration`,
  `Topbar`, `Sidenav`, `Navigation`, `Home`.
- **The server.** The MySQL tables are an abstract store (`Tables`), and
  the database is a class whose handlers change it (`Server.Database`). The
  model covers:
  - the sign-in decision and registration;
  - the generic create, update and delete handlers;
  - the document handlers and the base64 form of stored files (`Base64`,
    section 4 of RFC 4648);
  - the download;
  - dispatch, first match wins, over the registered routes (`Routing`).
- **The list logic of every page.** This covers the search boxes, the
  joins by id with their defaults, the per-user and per-expert filters,
  the delete on the displayed list (`Records.Displayed`), the role
  pickers, the form guards and the request bodies. Modules: `Polices`,
  `Sinistres`, `Paiements`, `Experts`, `Users`, `Roles`, `Claims`,
  `Documents`, `ExpertDocuments`, `Expertises`, `ExpertExpertises`,
  `ExpertClaims`, `Addresses`.
- **End-to-end exchanges** (`Exchanges`). A page's request body goes
  through the handler's column list into a table, and the listing comes
  back through the page's own mapping.

## JavaScript values

JavaScript values are modelled in `Js`: undefined, null, numbers (whole
or NaN) and strings. The model gives these operators their JavaScript
meaning:

- truthiness, `===`, `??` and `||`;
- `Number(text)` and `String(v)`;
- `includes` and `toLowerCase`.

A filter that calls `toLowerCase` on a field that is not text throws in
the browser. Where a page can hit that, its search answers `None`.

## Facts the model establishes across files

- A client signed in on the claim page is shown every policy of every
  client (`Exchanges.ClientSeesEveryPolicy`). The per-user address has no
  route, and the full listing ignores the query string.
- Renaming a role from the role page stores NULL as its name
  (`Exchanges.RoleRenameStoresNull`). One role with a NULL name then
  makes the role page's search throw for every term
  (`Roles.NullNameBreaksSearch`).
- A claim created from the claims page is stored without its number:
  neither claim statement names `Numero_Sinistre`
  (`Exchanges.ClaimNumberNeverWritten`).
- Updating a user from the users page stores NULL as the name, the
  password, the phone and the registration date
  (`Exchanges.UserUpdateClearsColumns`). The page sends `nom` and
  `telephone`, but the handler reads `name`, `password`, `phone` and
  `date_inscription`.
  An expert whose name is NULL, listed before the expert typed in the
  expert's expertise form, makes its add and update throw with no alert
  and no request (`ExpertExpertises.NullNameBlocksSubmit`).
- The users page's add request goes to `/createuser`, which no route
  handles (`Routing.CreateUserNotRouted`).
- A claim a client declares is stored without an expert, so no expert's
  claim page ever shows it (`Exchanges.NewClaimShownToNoExpert`).
- No document handler stores an expert, so the expert's document page is
  empty whatever is uploaded (`Exchanges.ExpertDocumentPageEmpty`).
- An expert saved from the experts page is listed back by the page
  exactly as typed (`Exchanges.ExpertFormRoundTrip`).
- `GET /viewsinistres/:expertId` is registered after
  `GET /viewsinistres/:userId` and is never reached
  (`Routing.ExpertClaimsRouteUnreachable`).

## Model

| member | source | states |
|---|---|---|
| Session.Storage.SetSession | frontend/src/components/Login.tsx:16 | after `setItem("session", v)` the entry holds `String(v)` and "user-id" is untouched |
| Session.Storage.SetUserId | frontend/src/components/Login.tsx:17 | after `setItem("user-id", v)` the entry holds `String(v)` and "session" is untouched |
| Session.Storage.RemoveSession | frontend/src/components/topbar.tsx:7 | `removeItem("session")` leaves no session entry and keeps "user-id" |
| Session.Storage.GetSession | frontend/src/components/Login.tsx:18 | `getItem("session")` answers the stored entry, or none |
| Session.ParsedRole | frontend/src/components/protectedroute.tsx:9-10 | there is no role exactly when the entry is absent or empty; otherwise the role is the entry read by `Number` |
| Session.ParsedStoredRole | frontend/src/components/Login.tsx:16-18 | an integer role id written by `setItem` reads back as the same number |
| Session.StoredRoleFalsy | frontend/src/components/protectedroute.tsx:11 | a role read back from storage is falsy exactly when the stored id is 0 |
| Gates.ProtectedRoute | frontend/src/components/protectedroute.tsx:8-16 | renders exactly for a parsed numeric role outside {0, 6, 8}; every redirect goes to "/", /homeclient or /homeexpert |
| Gates.ProtectedRouteE | frontend/src/components/protectedrouteE.tsx:8-13 | renders exactly for roles 7 and 8; every other input redirects to "/" |
| Gates.PublicRoute | frontend/src/components/publicroute.tsx:8-17 | renders exactly when the role is not 7, 8 or 9; no redirect goes to "/" or /register |
| Gates.GatesIgnoreUserId | frontend/src/components/protectedroute.tsx:9-10 | none of the three gates depends on the "user-id" entry |
| Gates.NoSessionRedirectsHome | frontend/src/components/protectedroute.tsx:9-11 | an absent or empty session sends both protected gates to "/" and lets PublicRoute render |
| Gates.ProtectedRouteIsBlacklist | frontend/src/components/protectedroute.tsx:11-15 | a numeric role n renders iff n is not 0, 6 or 8; 6 goes to /homeclient, 8 to /homeexpert, 0 to "/" |
| Gates.ProtectedRouteEAdmits | frontend/src/components/protectedrouteE.tsx:11-12 | a numeric role renders iff it is 7 or 8 |
| Gates.PublicRouteMovesOn | frontend/src/components/publicroute.tsx:12-16 | 7 goes to /home, 8 to /homeexpert, 9 to /homeclient; any other role, 6 included, sees the public page |
| Gates.NaNSessionRedirects | frontend/src/components/protectedroute.tsx:10-11 | a session that reads as NaN is sent to "/" by both protected gates and passes PublicRoute |
| Paths.TextInjective | frontend/src/App.tsx:30-46 | distinct paths have distinct URLs |
| App.RouteOf | frontend/src/App.tsx:30-46 | each declared path has exactly one route, and the route is for that path |
| App.Visit | frontend/src/App.tsx:30-46 | a visit shows the route's page exactly when its guard renders |
| App.GateOfEachPath | frontend/src/App.tsx:30-46 | "/" and /register are public; /home, /users, /experts, /polices and /roles use ProtectedRoute; the eight expert paths use ProtectedRouteE; /homeclient and /claims have no guard |
| App.UngatedAlwaysShown | frontend/src/App.tsx:34-38 | /homeclient and /claims show their page for every session state |
| App.SettlesWithinTwoRedirects | frontend/src/App.tsx:30-46 | from any path and session, at most two redirects end on a page: the guards never loop |
| App.RedirectSettles | frontend/src/App.tsx:30-46 | wherever a guard redirects, the target shows its page after at most one more redirect |
| App.PublicTargetShown | frontend/src/components/publicroute.tsx:12-14 | the page PublicRoute sends a signed-in role 7, 8 or 9 to lets that role in |
| App.RootSettles | frontend/src/App.tsx:30 | the sign-in page shows a page after at most one redirect, whatever the session |
| Login.LandingFor | frontend/src/components/Login.tsx:22-28 | role 6 lands on /homeclient, 8 on /homeexpert, every other value on /home |
| Login.FailureText | frontend/src/components/Login.tsx:31 | the failure alert is the server's message when truthy, the default text otherwise |
| Login.LoginForm.constructor | frontend/src/components/Login.tsx:6-9 | the form starts empty and not loading |
| Login.LoginForm.BeginSubmit | frontend/src/components/Login.tsx:13-15 | `loading` is set and the request carries the typed name and password |
| Login.LoginForm.CompleteSubmit | frontend/src/components/Login.tsx:15-34 | on success both entries are written and the landing is chosen from the role read back; on failure storage is unchanged and the message is alerted; `loading` ends false either way |
| Login.LoginForm.SignIn | frontend/src/components/Login.tsx:16-28 | the success path writes both entries as strings and lands by the role read back from storage |
| Login.LoginForm.Land | frontend/src/components/Login.tsx:18-28 | the role read back with `Number` picks the landing page and the success alert is shown |
| Login.LandingOfNumericRole | frontend/src/components/Login.tsx:16-28 | a numeric role id from the server lands by its own value |
| Topbar.RoleName | frontend/src/components/topbar.tsx:12-20 | the name is one of Admin, Expert, Client, Guest, and Guest exactly when the role is not 7, 8 or 6 |
| Topbar.AvatarLetter | frontend/src/components/topbar.tsx:43 | the avatar is one of the four initials |
| Topbar.RoleNameOfRole | frontend/src/components/topbar.tsx:16-30 | 7 is Admin, 8 Expert, 6 Client, any other Guest; the home button shows iff the role is 6 |
| Topbar.AvatarIsInitial | frontend/src/components/topbar.tsx:43 | the avatar letter is the first letter of the role name |
| Topbar.SignedOutIsGuest | frontend/src/components/topbar.tsx:12-30 | with no session the bar shows Guest, G and no home button |
| Topbar.HandleLogout | frontend/src/components/topbar.tsx:6-9 | logout removes only "session", keeps "user-id", leaves no parsed role and goes to "/" |
| Sidenav.Menus | frontend/src/components/sidenav.tsx:15-34 | a menu exists exactly for the keys 7 and 8 |
| Sidenav.Render | frontend/src/components/sidenav.tsx:36-51 | a rendered menu marks an entry active exactly when its target is the current pathname |
| Sidenav.RenderByRole | frontend/src/components/sidenav.tsx:15-38 | role 7 gets the admin menu, 8 the expert menu, 0 nothing, and every other role crashes on `undefined.length` |
| Sidenav.NoRoleNoMenu | frontend/src/components/sidenav.tsx:36-38 | no session, 0 or NaN renders nothing |
| Sidenav.MenuTargets | frontend/src/components/sidenav.tsx:16-33 | the nine admin targets and the four expert targets, in the listed order |
| Sidenav.TargetsDistinct | frontend/src/components/sidenav.tsx:16-33 | within each menu the targets are distinct |
| Sidenav.AtMostOneActive | frontend/src/components/sidenav.tsx:50-51 | at most one entry is active for any pathname |
| Navigation.MenuEntriesAdmitted | frontend/src/App.tsx:32-46 | every entry of the menu a role sees leads to a page whose guard admits that role |
| Navigation.AdminEntriesAdmitted | frontend/src/components/sidenav.tsx:16-26 | role 7 passes the guard of each of the nine administrator pages |
| Navigation.ExpertEntriesAdmitted | frontend/src/components/sidenav.tsx:27-33 | role 8 passes the guard of each of the four expert pages |
| Navigation.AdminMenuGuarded | frontend/src/App.tsx:32-46 | every administrator menu page sits behind ProtectedRoute or ProtectedRouteE, none behind PublicRoute |
| Navigation.ExpertMenuGuarded | frontend/src/App.tsx:33-43 | every expert menu page sits behind ProtectedRouteE |
| Navigation.LoginLandingAdmitted | frontend/src/App.tsx:32-34 | for any non-zero role, the page Login lands on lets that session in |
| Navigation.StoredLoginLandingAdmitted | frontend/src/components/Login.tsx:16-28 | the same for the session the sign-in form writes |
| Navigation.RoleZeroBounced | frontend/src/components/Login.tsx:22-28 | role 0 is sent to /home, and /home bounces it back to "/" |
| Navigation.SignedOutSeesSignIn | frontend/src/components/topbar.tsx:6-9 | without a session every guarded page redirects to "/", which shows the sign-in form |
| Navigation.ClientSeesPublicPages | frontend/src/components/publicroute.tsx:12-16 | a role-6 session still sees the sign-in and sign-up pages, while role 9 is moved to /homeclient |
| Navigation.LogoutThenVisit | frontend/src/components/topbar.tsx:6-9 | after logout any guarded page ends on the sign-in form, and "user-id" is unchanged |
| Registration.FailureText | frontend/src/components/Registration.tsx:51 | the failure alert is the server's message when truthy, the default text otherwise |
| Registration.RegistrationForm.constructor | frontend/src/components/Registration.tsx:8-16 | every field starts empty and the form is not loading |
| Registration.RegistrationForm.BeginSubmit | frontend/src/components/Registration.tsx:27-43 | a password that differs from its confirmation alerts, sends nothing and leaves `loading` alone; a matching one sets `loading` and sends the six fields exactly as entered |
| Registration.RegistrationForm.CompleteSubmit | frontend/src/components/Registration.tsx:44-53 | success alerts and goes to "/", failure alerts the server's message or the default; `loading` ends false and the fields are kept |
| Home.LengthOf | frontend/src/components/home.tsx:26-34 | `experts.length` is the list's length for a list and undefined exactly for the error object |
| Home.Compute | frontend/src/components/home.tsx:28-37 | the total is the number of claims, the two counts are the claims whose statut is exactly "en attente" and exactly "resolu", pending plus resolved never exceeds the total, and the expert count is the value given |
| Home.PendingIsExact | frontend/src/components/home.tsx:29-30 | the status comparison is exact: case and padding matter |
| Home.PendingCountsExactlyPending | frontend/src/components/home.tsx:29 | a claim is counted as pending iff it is a claim whose statut is "en attente" |
| Home.Dashboard.constructor | frontend/src/components/home.tsx:9-14 | the counters start at zero |
| Home.Dashboard.FetchData | frontend/src/components/home.tsx:17-41 | when the claims arrive as a list and the experts request is answered, the counters are computed from them, even when the experts answer is the error object; a claims answer that is not a list, or no experts answer, leaves them as they were |
| Home.FailedFetchShowsZeros | frontend/src/components/home.tsx:9-40 | a dashboard whose claims answer is not a list, or whose experts request is not answered, shows zeros |
| Home.ExpertErrorKeepsClaimCounts | frontend/src/components/home.tsx:26-37 | a failing /viewexpert still sets the three claim counters, and the expert count becomes undefined |
| Base64.EncodeChar | backend/index.js:273 | every 6-bit value is spelt by a character of the base64 alphabet (table 1 of RFC 4648) |
| Base64.EncodeLength | backend/index.js:273 | an encoding is always a whole number of four-character groups: 4 * ceil(n / 3) characters |
| Base64.DecodeEncode | backend/index.js:273 | decoding the encoding of any bytes gives the bytes back |
| Base64.EncodeDecode | backend/index.js:273 | every text the decoder accepts is the encoding of what it decodes to |
| Base64.EncodeInjective | backend/index.js:273 | two byte strings with the same encoding are equal |
| Tables.Bind | backend/index.js:97-101 | a request field that is missing (undefined) is bound as NULL; any other value as itself |
| Tables.SqlEqualsNull | backend/index.js:438 | a `WHERE column = ?` test never holds with NULL on either side |
| Tables.SelectWhere | backend/index.js:438-439 | the selected rows are exactly the rows whose column equals the value, in table order |
| Tables.SelectByKey | backend/index.js:327-328 | the selected rows are exactly the rows with that id, in table order |
| Tables.Insert | backend/index.js:38-39 | INSERT appends one row with the next AUTO_INCREMENT id and keeps the earlier rows |
| Tables.Assign | backend/index.js:100 | the assigned columns take the new values and every other column keeps its value |
| Tables.UpdateByKey | backend/index.js:100-101 | UPDATE by id rewrites exactly the rows with that id and leaves every other row as it was |
| Tables.DeleteByKey | backend/index.js:111-112 | DELETE by id keeps exactly the rows without that id, in order |
| Tables.InsertValid | backend/index.js:38-39 | INSERT keeps ids increasing and below the next id |
| Tables.UpdateValid | backend/index.js:100-101 | UPDATE keeps ids increasing and below the next id |
| Tables.DeleteValid | backend/index.js:111-112 | DELETE keeps ids increasing and below the next id |
| Tables.KeySelectsAtMostOne | backend/index.js:327-333 | in a valid table an id selects at most one row |
| Tables.AbsentKeyChangesNothing | backend/index.js:100-117 | UPDATE or DELETE by an id no row has changes nothing |
| Tables.UpdateIdempotent | backend/index.js:100-106 | repeating an UPDATE has no further effect |
| Tables.DeleteIdempotent | backend/index.js:109-117 | repeating a DELETE has no further effect |
| Tables.DeleteRemovesKey | backend/index.js:109-117 | after DELETE no row has the id |
| Tables.InsertThenSelect | backend/index.js:38-39 | the row an INSERT adds is the only row its new id selects |
| Server.ListingStatus | backend/index.js:91 | the user listing answers 201, every other listing 200 |
| Server.Cells | backend/index.js:100-101 | the bound values name exactly the statement's columns |
| Server.CellsRead | backend/index.js:97-101 | each column is bound to the request field the handler destructures for it |
| Server.CellsAbsent | backend/index.js:97-101 | a column the statement does not name is not bound |
| Server.UserCells | backend/index.js:97-101 | the user statements bind nom to `name`, mot_de_passe to `password`, téléphone to `phone`, and email, role_id and date_inscription to themselves |
| Server.Named | backend/index.js:56-57 | the sign-in query selects exactly the users whose nom equals the name sent |
| Server.LoginDecision | backend/index.js:57-77 | 500 on a query error, 401 "incorrect credentials" with no such user, otherwise only the first such user is checked: no response when compare rejects, 401 "incorrect password" on a mismatch, 200 with id, nom and role_id on a match |
| Server.LoginSuccessIsNamedUser | backend/index.js:64-76 | a 200 answer is about a user of that name whose digest matched, and carries only id, name and role id |
| Server.LoginChecksFirstOnly | backend/index.js:64-67 | when the first user of the name has a mismatching digest sign-in fails, whatever later users of that name hold |
| Server.ViewAll | backend/index.js:84-94 | a listing answers the whole table in order; on a query error it answers 500 with "selecting error" for users, "Error fetching roles" for roles and "Error getting info" elsewhere |
| Server.ViewSinistresOfUser | backend/index.js:435-446 | the per-user claim listing holds exactly the claims whose utilisateur_id equals the parameter, in order, or 500 |
| Server.ShownFile | backend/index.js:273 | a stored file is shown as its base64 text, anything else as null |
| Server.ShownDocument | backend/index.js:271-274 | a listed document is the stored row with only contenu_fichier replaced |
| Server.ViewDocuments | backend/index.js:263-278 | every document row, in order, with its file shown as base64 text or null; 500 on a query error |
| Server.ListedFilesDecode | backend/index.js:271-274 | the text listed for a stored file decodes back to its bytes, and a row without a file lists null |
| Server.ContentType | backend/index.js:335 | the content type is type_document when truthy, application/octet-stream otherwise |
| Server.Download | backend/index.js:325-338 | 404 exactly on a query error or when no row has the id; otherwise the first such row's file, name and content type |
| Server.DownloadSendsThatDocument | backend/index.js:327-336 | a successful download sends the file of a document with that id |
| Server.RegisteredCells | backend/index.js:35-39 | /register stores the digest under mot_de_passe and the request's other fields as the user statements bind them |
| Server.PasswordStorage | backend/index.js:37-101 | /register stores the digest of the password while /updateuser stores the `password` field as sent |
| Server.DocumentCells | backend/index.js:293-308 | the document update writes the file column only when a file was sent, and the four text columns in both cases |
| Server.NewDocumentCells | backend/index.js:281-287 | a new document stores the file sent, or NULL, with the four text columns |
| Server.UpdateKeepsFile | backend/index.js:298-308 | an update without a file leaves the stored file; with one it replaces it |
| Server.Database.constructor | backend/index.js:17-22 | a fresh database: every table empty and valid |
| Server.Database.Register | backend/index.js:34-50 | a password bcrypt refuses answers "something went off course" with no write; a query error answers 500; otherwise 201 and one new user row holding the digest |
| Server.Database.CreateRow | backend/index.js:134-143 | the generic create handlers: 500 and no change on a query error, else the success status and one new row from the request's fields |
| Server.Database.UpdateRow | backend/index.js:96-107 | the generic update handlers: 500 and no change on a query error, else success and only the rows with that id rewritten, whether or not one exists |
| Server.Database.DeleteRow | backend/index.js:109-118 | the generic delete handlers: 500 and no change on a query error, else success and only the rows with that id removed, whether or not one exists |
| Server.Database.CreateDocument | backend/index.js:281-291 | 500 and no change on a query error, else 201 and one new document row |
| Server.Database.UpdateDocument | backend/index.js:293-314 | 500 and no change on a query error, else 200 and the row with that id rewritten, keeping its file when none was sent |
| Routing.Dispatch | backend/index.js:435-461 | the chosen route handles the request and no earlier route does; with none chosen, no route handles it |
| Routing.Params | backend/index.js:436 | every parameter of a matched pattern gets a value from the path |
| Routing.ShadowedNeverChosen | backend/index.js:435-459 | a route registered after one of the same method and shape is never chosen |
| Routing.UserClaimsRouteServes | backend/index.js:435-446 | `GET /viewsinistres/<id>` is served by the per-user route |
| Routing.UserClaimsParams | backend/index.js:435-436 | that route passes the path segment on as userId |
| Routing.ExpertClaimsRouteUnreachable | backend/index.js:448-459 | no request ever reaches the handler for claims by expert |
| Routing.ShadowedEndpointUnreachable | backend/index.js:435-459 | an endpoint served only by a shadowed route is never reached |
| Routing.PolicesOfUserNotRouted | backend/index.js:388-396 | `GET /viewpolices/<uid>` is served by no route |
| Routing.PolicesListingServes | backend/index.js:388-396 | `GET /viewpolices` is served by the full policy listing |
| Records.UsersWithRole | frontend/src/components/Polices.tsx:242 | a picker lists exactly the users whose role_id is strictly that number, in order |
| Records.UsersWithRoleIdempotent | frontend/src/components/Polices.tsx:242 | picking by a role twice is picking once |
| Records.PickersDisjoint | frontend/src/components/Sinistres.tsx:290-303 | the client (6) and the expert (8) pickers never share a user |
| Records.UserById | frontend/src/components/Polices.tsx:131 | a found user is one whose id is strictly the key; none found means no user has it |
| Records.NameOr | frontend/src/components/Polices.tsx:131 | a truthy name of the user found, as its non-empty text; the fallback when no user has the id or the name is null or empty |
| Records.NameOfFirstUser | frontend/src/components/Polices.tsx:131 | the name shown is the one of the first user with that id |
| Records.ClaimById | frontend/src/components/Documents.tsx:206 | a found claim is one whose id is strictly the key; none found means no claim has it |
| Records.ClaimNumberOr | frontend/src/components/Documents.tsx:206 | the number of the claim found when non-empty, the fallback otherwise |
| Records.Displayed.HandleDelete | frontend/src/components/Polices.tsx:76 | a delete that succeeded removes exactly the entries with that id; a failed one changes nothing |
| Records.PreviewOf | frontend/src/components/claims.tsx:572-581 | nothing without a file, an image for an "image/" type, a video for a "video/" type, the file name otherwise |
| Polices.Search | frontend/src/components/Polices.tsx:130-138 | the list shown is an order-preserving subsequence whose members are exactly the policies with the term, case-insensitively, in the number, type, status or client name |
| Polices.EmptySearchKeepsAll | frontend/src/components/Polices.tsx:130-138 | an empty term shows every policy |
| Polices.SearchNarrows | frontend/src/components/Polices.tsx:130-138 | typing more of the term only removes policies |
| Polices.FoundByNumber | frontend/src/components/Polices.tsx:132-133 | a policy is found by its own number |
| Polices.ClientPicker | frontend/src/components/Polices.tsx:242 | the client picker lists exactly the users with role 6 |
| Polices.RequestBody | frontend/src/components/Polices.tsx:84-91 | the add and update bodies carry exactly the six form fields under the column names |
| Polices.UpdateRequest | frontend/src/components/Polices.tsx:100-110 | no request without a selected policy; otherwise the update is for its id with the form's body |
| Polices.HandleDelete | frontend/src/components/Polices.tsx:73-79 | after a successful delete the list is the shown list without exactly the entries of that id, in order; after a failed one it is unchanged |
| Sinistres.PoliceNumber | frontend/src/components/Sinistres.tsx:164 | a non-empty policy label is the number of a policy whose id is the claim's police_id |
| Sinistres.Search | frontend/src/components/Sinistres.tsx:162-174 | an order-preserving subsequence whose members are exactly the claims whose id digits hold the lowered term, or whose client name, policy number, type, description or status holds it case-insensitively |
| Sinistres.EmptySearchKeepsAll | frontend/src/components/Sinistres.tsx:162-174 | an empty term shows every claim |
| Sinistres.FoundById | frontend/src/components/Sinistres.tsx:167 | a claim is found by the decimal digits of its id |
| Sinistres.LowerOfNumeral | frontend/src/components/Sinistres.tsx:167 | lowering an id's digits changes nothing |
| Sinistres.SearchNarrows | frontend/src/components/Sinistres.tsx:162-174 | typing more of the term only removes claims |
| Sinistres.ClientPicker | frontend/src/components/Sinistres.tsx:290 | the client picker lists exactly the users with role 6 |
| Sinistres.ExpertPicker | frontend/src/components/Sinistres.tsx:303 | the expert picker lists exactly the users with role 8 |
| Sinistres.ExpertColumn | frontend/src/components/Sinistres.tsx:232 | the truthy name of the user with the expert id, else the raw expert id when truthy, else "-" |
| Sinistres.UnassignedShowsDash | frontend/src/components/Sinistres.tsx:232 | a claim without an expert shows "-" |
| Sinistres.HandleDelete | frontend/src/components/Sinistres.tsx:94-97 | after a successful delete exactly the entries of that id are gone, order kept; a failed one changes nothing |
| Paiements.ClaimType | frontend/src/components/Paiements.tsx:126 | the type of the claim whose id is the payment's sinistre_id, or "" when none matches |
| Paiements.Search | frontend/src/components/Paiements.tsx:125-134 | an order-preserving subsequence whose members are exactly the payments matching on claim type, method or status without regard to case, or on amount or date as typed |
| Paiements.EmptySearchKeepsAll | frontend/src/components/Paiements.tsx:125-134 | an empty term shows every payment |
| Paiements.SearchNarrows | frontend/src/components/Paiements.tsx:125-134 | typing more of the term only removes payments |
| Paiements.FoundByAmount | frontend/src/components/Paiements.tsx:129 | a payment is found by its amount written out |
| Paiements.DateComparedAsTyped | frontend/src/components/Paiements.tsx:130 | for every payment and term, once the other fields miss the term, the payment is found exactly when its date holds the term with its case unchanged |
| Paiements.RequestBody | frontend/src/components/Paiements.tsx:82-88 | the add and update bodies carry exactly the five form fields under the column names, méthode included |
| Paiements.UpdateRequest | frontend/src/components/Paiements.tsx:97-106 | no request without a selected payment; otherwise the update is for its id with the form's body |
| Paiements.HandleDelete | frontend/src/components/Paiements.tsx:71-78 | after a successful delete exactly the entries of that id are gone, order kept; a failed one changes nothing |
| Experts.ExpertOf | frontend/src/components/Experts.tsx:60-66 | id, nom and email are copied; specialite is read from `spécialité` and telephone from `téléphone` |
| Experts.UnaccentedNamesAreNotRead | frontend/src/components/Experts.tsx:63-65 | a row with only the unaccented names maps to undefined specialite and telephone |
| Js.LowerIncludes | frontend/src/components/Experts.tsx:128-131 | a text value answers whether it holds the term case-insensitively; null, undefined and numbers throw, as `toLowerCase` does on them |
| Js.CallToString | frontend/src/components/Documents.tsx:213 | `toString()` throws exactly on null and undefined, and otherwise gives the value as text |
| Experts.TestTrue | frontend/src/components/Experts.tsx:126-132 | an expert is kept exactly when some field, read before the first non-text one, holds the term |
| Experts.CompleteNeverThrows | frontend/src/components/Experts.tsx:126-132 | with four text fields the test is the four-way case-insensitive or |
| Experts.Search | frontend/src/components/Experts.tsx:126-132 | the filter throws exactly when the test throws for some expert; otherwise it is an order-preserving subsequence of exactly the kept experts |
| Experts.EmptySearchKeepsAll | frontend/src/components/Experts.tsx:126-132 | over complete experts an empty term shows all of them |
| Experts.NameMatchShortCircuits | frontend/src/components/Experts.tsx:128 | an expert whose name holds the term is kept whatever its other fields hold |
| Experts.MissingNameBreaksSearch | frontend/src/components/Experts.tsx:128 | one expert without a text name makes the filter throw for every term |
| Experts.SearchNarrows | frontend/src/components/Experts.tsx:126-132 | over complete experts, typing more of the term only removes experts |
| Experts.RequestBody | frontend/src/components/Experts.tsx:83-88 | the add and update bodies carry exactly nom, specialite, email and telephone |
| Experts.UpdateRequest | frontend/src/components/Experts.tsx:97-108 | no request without a selected expert; otherwise the update is for its id with the form's body |
| Experts.HandleDelete | frontend/src/components/Experts.tsx:72-79 | after a successful delete exactly the entries of that id are gone, order kept; a failed one changes nothing |
| Users.AccountOf | frontend/src/components/users.tsx:63-70 | id, nom and email are copied; telephone is read from `téléphone`; a missing telephone, role_id or date_inscription becomes null |
| Users.FieldTest | frontend/src/components/users.tsx:128-130 | a falsy field is skipped, a text field is searched case-insensitively, and a truthy non-text field throws |
| Users.TestOfTextFields | frontend/src/components/users.tsx:127-131 | with text-or-null fields a user is kept exactly when a non-empty field holds the term |
| Users.BlankUserNeverShown | frontend/src/components/users.tsx:127-131 | a user with empty or null nom, email and telephone is never shown, not even for "" |
| Users.Search | frontend/src/components/users.tsx:127-131 | the filter throws exactly when the test throws for some user; otherwise it is an order-preserving subsequence of exactly the kept users |
| Users.EmptySearchKeepsNonBlank | frontend/src/components/users.tsx:127-131 | an empty term shows exactly the users with some non-empty searched field |
| Users.SearchNarrows | frontend/src/components/users.tsx:127-131 | typing more of the term only removes users |
| Users.RoleIdPayload | frontend/src/components/users.tsx:91 | an empty role field is sent as null, any other as `Number` of the text |
| Users.RoleIdPayloadReadsDigits | frontend/src/components/users.tsx:108 | a role id typed as its digits is sent as that number |
| Users.RequestBody | frontend/src/components/users.tsx:104-109 | the add and update bodies carry exactly nom, email, telephone and role_id |
| Users.UpdateRequest | frontend/src/components/users.tsx:101-109 | no request without a selected user; otherwise the update is for its id with the form's body |
| Users.HandleDelete | frontend/src/components/users.tsx:76-83 | after a successful delete exactly the entries of that id are gone, order kept; a failed one changes nothing |
| Roles.Search | frontend/src/components/Roles.tsx:83-85 | the rendering throws exactly when some role's name is not text; otherwise an order-preserving subsequence whose members are exactly the roles whose name holds the term case-insensitively |
| Roles.NullNameBreaksSearch | frontend/src/components/Roles.tsx:84 | one role with a NULL name makes the search throw for every term |
| Roles.EmptySearchKeepsAll | frontend/src/components/Roles.tsx:83-85 | when every name is text, an empty term shows every role |
| Roles.SearchNarrows | frontend/src/components/Roles.tsx:83-85 | whether the search throws does not depend on the term, and typing more of the term only removes roles |
| Roles.FoundByName | frontend/src/components/Roles.tsx:84 | a role with a text name is kept for its name typed in any case, and is shown whenever the search renders |
| Roles.RemoveRole | frontend/src/components/Roles.tsx:52 | the roles kept are exactly those whose id is not strictly equal to the argument, in order |
| Roles.NumericIdRemovesThatRole | frontend/src/components/Roles.tsx:52 | a numeric id removes exactly the roles with that id |
| Roles.TextIdRemovesNothing | frontend/src/components/Roles.tsx:49-52 | an id passed as text is never strictly equal to a numeric id, so nothing is removed |
| Roles.Page.constructor | frontend/src/components/Roles.tsx:31 | the page holds the roles it was given |
| Roles.Page.HandleDelete | frontend/src/components/Roles.tsx:49-56 | a delete that succeeded removes the strictly matching roles; a failed one changes nothing |
| Roles.DeleteListedRole | frontend/src/components/Roles.tsx:49-56 | deleting a listed role by its id leaves no role with that id and keeps every other role |
| Roles.NameBody | frontend/src/components/Roles.tsx:60 | the add and rename bodies are exactly `{nom: roleName}` |
| Roles.UpdateRequest | frontend/src/components/Roles.tsx:69-72 | no request without a selected role; otherwise the rename is for its id with the name body |
| Addresses.ApiUrl | frontend/src/components/users.tsx:6 | the configured base address when non-empty, else the placeholder text |
| Addresses.ItemUrl | frontend/src/components/users.tsx:78 | delete and update addresses start with the base, the action and "/" |
| Addresses.CollectionUrlIgnoresConfiguration | frontend/src/components/users.tsx:61 | as written, a configured base address never reaches a listing or create request |
| Addresses.CollectionUrl | frontend/src/components/users.tsx:61 | the intended listing and create addresses start with the configured base |
| Addresses.CollectionAndItemShareBase | frontend/src/components/Roles.tsx:44-51 | with the intended addresses, listings and deletes go to the same base |
| Claims.SinistresPath | frontend/src/components/claims.tsx:448-451 | with a user id the per-user listing is asked for, without one the full listing |
| Claims.OwnPolicies | frontend/src/components/claims.tsx:487-493 | an order-preserving subsequence holding exactly the policies whose utilisateur_id, else user_id, written as text equals the user id |
| Claims.NumericOwnerKept | frontend/src/components/claims.tsx:491 | a policy whose utilisateur_id is the number n belongs to the id written n |
| Claims.OwnerComparedAsText | frontend/src/components/claims.tsx:491 | the owner test compares text: utilisateur_id 7 is not the owner "07" |
| Claims.FetchPolices | frontend/src/components/claims.tsx:461-501 | with an id the per-user answer, else the query answer, is shown as it came; when both fail the full listing is filtered by owner; without an id the full listing is shown; when the last request fails the list is empty |
| Claims.FetchOwnPolicies | frontend/src/components/claims.tsx:483-493 | the intended list: only policies of the signed-in client, and all of them |
| Claims.FallbackIsOwnPolicies | frontend/src/components/claims.tsx:483-496 | when only the full listing answers, the page already shows exactly the client's own policies |
| Claims.NewClaimBody | frontend/src/components/claims.tsx:505-514 | the new claim carries exactly eight keys: status "en attente", zero amounts, the stored user id, the policy id as a number, and no expert |
| Claims.AddDocument | frontend/src/components/claims.tsx:533-548 | refused with the completion alert exactly when no claim is selected (none or 0) or no file is chosen; otherwise five parts are sent, with the file and the claim id |
| Claims.Search | frontend/src/components/claims.tsx:585-590 | an order-preserving subsequence whose members are exactly the claims whose type, description or status holds the term case-insensitively, a missing description or status read as "" |
| Claims.EmptySearchKeepsAll | frontend/src/components/claims.tsx:585-590 | an empty term shows every claim |
| Claims.MissingFieldsMatchOnlyEmpty | frontend/src/components/claims.tsx:588-589 | a claim whose type does not match and whose description and status are missing is shown only for the empty term |
| Claims.SearchNarrows | frontend/src/components/claims.tsx:585-590 | typing more of the term only removes claims |
| Documents.Test | frontend/src/components/Documents.tsx:209-213 | the test keeps a document whose file name, claim number, type or upload date holds the term case-insensitively, or whose claim id's text holds it as typed; it throws exactly when no text field holds the term and the claim id is null or missing |
| Documents.Search | frontend/src/components/Documents.tsx:205-215 | the rendering throws exactly when some document's test throws; otherwise an order-preserving subsequence whose members are exactly the documents the test keeps |
| Documents.NullClaimIdBreaksSearch | frontend/src/components/Documents.tsx:213 | a document without a claim id makes the search throw for any term none of its text fields holds |
| Documents.ClaimIdsPresentNeverThrow | frontend/src/components/Documents.tsx:213 | when every document has a claim id the search never throws |
| Documents.EmptySearchKeepsAll | frontend/src/components/Documents.tsx:205-215 | an empty term is held by every file name, so it never throws and shows every document |
| Documents.SearchNarrows | frontend/src/components/Documents.tsx:205-215 | a search that renders for a longer term renders for its prefix, and typing more only removes documents |
| Documents.ExpertPicker | frontend/src/components/Documents.tsx:96 | the picker lists exactly the users with role 8 |
| Documents.FormParts | frontend/src/components/Documents.tsx:109-119 | the form carries the five text parts, and a file part exactly when a file was chosen |
| Documents.UpdateRequest | frontend/src/components/Documents.tsx:133-144 | nothing is sent without a selected document; otherwise its id with the same parts as an add |
| Documents.HandleDelete | frontend/src/components/Documents.tsx:100-107 | after a successful delete exactly the entries of that id are gone, order kept; a failed one changes nothing |
| Session.LoggedInUserId | frontend/src/components/Document.tsx:73-77 | an id exactly when a non-empty id is stored, and then `Number` of it (the same at Expertise.tsx:67-70) |
| ExpertDocuments.Assigned | frontend/src/components/Document.tsx:97-102 | an order-preserving subsequence holding exactly the documents whose expert reads as the signed-in id, never under a NaN id |
| ExpertDocuments.SearchOwn | frontend/src/components/Document.tsx:194-203 | an order-preserving subsequence whose members are exactly the documents whose file name, claim number, type or upload date holds the term case-insensitively; this page's filter has no claim-id test and never throws |
| ExpertDocuments.SearchWithinAdminSearch | frontend/src/components/Document.tsx:194-203 | every document this page's search finds is kept by the admin page's test for the same term, and is shown by the admin page whenever that page renders |
| ExpertDocuments.UnassignedNeverShown | frontend/src/components/Document.tsx:97-102 | documents without an expert are kept for no signed-in id |
| ExpertDocuments.Page.constructor | frontend/src/components/Document.tsx:71-78 | the page starts empty with the id read from storage |
| ExpertDocuments.Page.Load | frontend/src/components/Document.tsx:80-109 | for a truthy id an answered listing is replaced by the user's documents; a falsy id or a failed request changes nothing |
| ExpertDocuments.Page.Shown | frontend/src/components/Document.tsx:194-203 | every document shown is on the page and matches the term |
| ExpertDocuments.SignedOutPageStaysEmpty | frontend/src/components/Document.tsx:74-86 | without a stored id, or one that reads as 0, the page stays empty |
| ExpertDocuments.LoadedAreOwn | frontend/src/components/Document.tsx:80-105 | after a load every document shown is assigned to the signed-in expert |
| ExpertDocuments.UsersListed | frontend/src/components/Document.tsx:123 | the picker lists exactly the users with role 8 |
| Expertises.ClaimLabel | frontend/src/components/Expertises.tsx:145-146 | the claim's number when it is non-empty, else the raw claim id as text, which throws on a null or missing id |
| Expertises.ExpertLabel | frontend/src/components/Expertises.tsx:147-148 | the expert's name when it is non-empty, else the raw expert id as text, which throws on a null or missing id |
| Expertises.TestThrows | frontend/src/components/Expertises.tsx:150-155 | the test throws exactly when the claim label throws, or the claim label misses the term and the expert label throws |
| Expertises.Search | frontend/src/components/Expertises.tsx:144-156 | the rendering throws exactly when some expertise's test throws; otherwise an order-preserving subsequence whose members are exactly the expertises whose claim label, expert label, report or date holds the term case-insensitively |
| Expertises.NullClaimIdBreaksSearch | frontend/src/components/Expertises.tsx:151 | an expertise without a claim id makes the search throw for every term |
| Expertises.EmptySearchKeepsAll | frontend/src/components/Expertises.tsx:144-156 | an empty term renders exactly when every claim label can be read, and then shows every expertise |
| Expertises.SearchNarrows | frontend/src/components/Expertises.tsx:144-156 | a search that renders for a longer term renders for its prefix, and typing more only removes expertises |
| Expertises.FoundByRawIds | frontend/src/components/Expertises.tsx:145-148 | an expertise whose claim or expert is not listed is kept for its raw claim id and for its raw expert id, and shown for the claim id whenever the search renders |
| Expertises.ExpertsListed | frontend/src/components/Expertises.tsx:87 | the expert list is exactly the users with role 8 |
| Expertises.HandleDelete | frontend/src/components/Expertises.tsx:91-98 | after a successful delete exactly the entries of that id are gone, order kept; a failed one changes nothing |
| ExpertExpertises.Normalize | frontend/src/components/Expertise.tsx:84-95 | only the expert changes: `expert` unless nullish, else `expert_id`, turned into a number when truthy and into null otherwise |
| ExpertExpertises.NormalizeAll | frontend/src/components/Expertise.tsx:84 | each expertise is normalised in place, and the length is kept |
| ExpertExpertises.ZeroExpertFallsBack | frontend/src/components/Expertise.tsx:85-93 | an expert of 0 becomes null while expert_id is kept |
| ExpertExpertises.Own | frontend/src/components/Expertise.tsx:97-100 | an order-preserving subsequence holding exactly the expertises whose `expert || expert_id` reads as the signed-in id, never under a NaN id |
| ExpertExpertises.RecordedExpertIsKept | frontend/src/components/Expertise.tsx:84-100 | an expertise recorded for expert n under either name is kept for n |
| ExpertExpertises.UnassignedNeverKept | frontend/src/components/Expertise.tsx:84-100 | an expertise with neither expert nor expert_id is kept for nobody |
| ExpertExpertises.FindExpertIdByName | frontend/src/components/Expertise.tsx:129-134 | a found id belongs to a listed expert whose name is text and, lowered, equals the typed name lowered and trimmed; no match exactly when every name is text and none matches; a throw only when some listed name is not text |
| ExpertExpertises.NullNameBeforeMatchThrows | frontend/src/components/Expertise.tsx:130-132 | a name that is not text, listed before any match, makes `u.nom.toLowerCase()` throw, so the lookup throws |
| ExpertExpertises.FindsFirstNamed | frontend/src/components/Expertise.tsx:130-133 | the first expert with that name wins when every earlier name is text |
| ExpertExpertises.RequestBody | frontend/src/components/Expertise.tsx:147-152 | the body carries exactly sinistre_id as a number, the found expert's id, the report and the date |
| ExpertExpertises.Dispatch | frontend/src/components/Expertise.tsx:141-144 | after the guards, a throwing lookup rejects the handler, no expert or id 0 gives the "Expert non trouvé." alert, and a usable id is sent |
| ExpertExpertises.AddExpertise | frontend/src/components/Expertise.tsx:136-152 | an empty claim or name is refused first; then the handler throws exactly when the lookup does; a name with no expert, or one whose id is 0, is refused; otherwise the body with that expert's id is sent |
| ExpertExpertises.NullNameBlocksSubmit | frontend/src/components/Expertise.tsx:141-166 | with a NULL name listed before the typed one, both the add and the update throw: no alert and no request |
| ExpertExpertises.UpdateExpertise | frontend/src/components/Expertise.tsx:162-179 | nothing happens without a selection; then the handler throws exactly when the lookup does; a name with no usable expert is refused; otherwise the body is put to the selected expertise |
| ExpertExpertises.UpdateSendsBlankClaimAsZero | frontend/src/components/Expertise.tsx:137-174 | a blank claim is refused on add but sent as 0 on update |
| ExpertExpertises.ExpertsListed | frontend/src/components/Expertise.tsx:116 | the expert list is exactly the users with role 8 |
| ExpertExpertises.Search | frontend/src/components/Expertise.tsx:199-211 | an order-preserving subsequence whose members are exactly the expertises whose claim number, expert name, report or date holds the term case-insensitively, the first two "" when not found |
| ExpertExpertises.EmptySearchKeepsAll | frontend/src/components/Expertise.tsx:199-211 | an empty term shows every expertise |
| ExpertExpertises.Page.constructor | frontend/src/components/Expertise.tsx:58-70 | the page starts with no expertises and the id read from "user-id" |
| ExpertExpertises.Page.Load | frontend/src/components/Expertise.tsx:71-105 | for a truthy id an answered listing is replaced by the signed-in expert's normalised expertises; a falsy id or a failed request changes nothing |
| ExpertExpertises.SignedOutPageStaysEmpty | frontend/src/components/Expertise.tsx:66-77 | without a stored id, or with one that reads as 0, the page stays empty |
| ExpertExpertises.UnassignedNeverLoaded | frontend/src/components/Expertise.tsx:84-102 | expertises with neither an expert nor an expert id never reach the page, whatever id is stored |
| ExpertExpertises.HandleDelete | frontend/src/components/Expertise.tsx:190-197 | after a successful delete exactly the entries of that id are gone, order kept; a failed one changes nothing |
| ExpertClaims.Normalize | frontend/src/components/sinistre.tsx:57-60 | only the expert changes: a missing or null expert becomes null, any other `Number(expert)` |
| ExpertClaims.NormalizeAll | frontend/src/components/sinistre.tsx:57 | each claim is normalised in place, and the length is kept |
| ExpertClaims.NormalizedExperts | frontend/src/components/sinistre.tsx:57-60 | after normalisation every expert is null or a number |
| ExpertClaims.CurrentExpertId | frontend/src/components/sinistre.tsx:41-47 | the stored id when there is one, else "" |
| ExpertClaims.Assigned | frontend/src/components/sinistre.tsx:79 | an order-preserving subsequence holding exactly the claims whose expert is the number the stored id reads as, never under a NaN id |
| ExpertClaims.UnassignedNeverShown | frontend/src/components/sinistre.tsx:79 | a claim whose expert is null is never shown |
| ExpertClaims.NonNumericIdShowsNothing | frontend/src/components/sinistre.tsx:79 | a stored id that is not a number shows no claim |
| ExpertClaims.NoStoredIdMeansExpertZero | frontend/src/components/sinistre.tsx:41-79 | without a stored id exactly the claims of expert 0 are kept |
| ExpertClaims.Search | frontend/src/components/sinistre.tsx:80-87 | an order-preserving subsequence whose members are exactly the claims whose number (when present), client name or type holds the term case-insensitively |
| ExpertClaims.ShownAreOwnMatches | frontend/src/components/sinistre.tsx:78-87 | every claim shown is a normalised claim of the signed-in expert that matches the term |
| ExpertClaims.EmptySearchKeepsAssigned | frontend/src/components/sinistre.tsx:80-87 | an empty term keeps the whole first stage |
| ExpertClaims.ExpertNameFor | frontend/src/components/sinistre.tsx:89-92 | "N/A" for a nullish id, else the truthy name of the user with that id, else the id as text |
| Exchanges.JsonCell | backend/index.js:271-274 | a stored value goes out as it is; a file goes out as null in a plain listing |
| Exchanges.Json | backend/index.js:389-394 | a listed row has exactly the table's columns and its id, a column the row never got being NULL |
| Exchanges.JsonRows | backend/index.js:389-394 | one JSON object per row, in table order |
| Exchanges.ClientSeesEveryPolicy | frontend/src/components/claims.tsx:461-496 | as written, for a signed-in client the per-user request finds no route, the query request is served by the full listing, and the page shows that whole listing |
| Exchanges.OtherClientsPolicyShown | frontend/src/components/claims.tsx:461-496 | as written, client 1 is shown the policy of user 2, which the owner filter would drop |
| Exchanges.RoleCreateStoresName | backend/index.js:134-143 | a role added from the page stores the typed name |
| Exchanges.RoleRenameStoresNull | backend/index.js:145-156 | as written, a rename from the page stores NULL as the role's name |
| Exchanges.RenameCells | backend/index.js:145-156 | the intended rename binds only `nom`, to the request's `nom` |
| Exchanges.RenameStoresName | backend/index.js:145-156 | with the intended binding, a rename stores the typed name in the matching role and leaves other rows' names alone |
| Exchanges.UserUpdateClearsColumns | backend/index.js:96-107 | an update from the users page stores the email and role id it sent, and NULL as the name, password, phone and registration date |
| Exchanges.UserColumns | backend/index.js:100-101 | the user update binds each of its six columns to the paired request field |
| Exchanges.UserUpdateCells | backend/index.js:97-101 | for the page's body, four columns are bound to NULL, the email to the typed email, and the role id to the role payload |
| Exchanges.UpdatedColumn | backend/index.js:100-101 | a row the update matched holds, in every column the update names, the value bound |
| Exchanges.UserUpdateBody | frontend/src/components/users.tsx:104-109 | the page's update body has no `name`, `password`, `phone` or `date_inscription` |
| Exchanges.ExpertFormRoundTrip | backend/index.js:181-190 | an expert saved from the form is listed back by the page as that form, with the accented columns renamed back |
| Exchanges.SavedExpertSearchable | frontend/src/components/Experts.tsx:126-132 | a saved expert has four text fields, so the page's search never throws on it |
| Exchanges.NewClaimStoredUnassigned | backend/index.js:471-480 | a claim declared by a client is stored with a NULL expert |
| Exchanges.ClaimNumberNeverWritten | backend/index.js:471-491 | as written, a claim created from the claims page has a NULL `Numero_Sinistre` whatever number was sent, and an update keeps the row's number |
| Exchanges.ClaimFieldsOmitNumber | backend/index.js:472-486 | neither claim statement names the `Numero_Sinistre` column |
| Exchanges.IntendedClaimStoresNumber | frontend/src/components/Sinistres.tsx:105-106 | with the number column added to the insert, a created claim stores the number the page sent |
| Exchanges.ClaimExpertCell | backend/index.js:472-474 | the claim insert binds its expert column to the request's `expert` |
| Exchanges.NewClaimShownToNoExpert | frontend/src/components/sinistre.tsx:57-79 | a newly declared claim, listed and normalised, is shown to no expert |
| Exchanges.DocumentWritesHaveNoExpert | backend/index.js:281-314 | no document insert or update stores an expert column |
| Exchanges.DocumentWithoutExpertNotAssigned | frontend/src/components/Document.tsx:97-102 | a listed document without an expert is assigned to no signed-in expert |
| Exchanges.ExpertDocumentPageEmpty | frontend/src/components/Document.tsx:88-105 | in a document table written only by the handlers, the expert's document page is empty for every signed-in expert |
| Routing.CreateUserNotRouted | frontend/src/components/users.tsx:87 | the `POST /createuser` that the users page sends is handled by no route |
| Exchanges.IntendedUserUpdateStoresForm | backend/index.js:96-107 | with the intended statement, an update from the users page stores the typed name, email, phone and role id in the matched row, and keeps its password and registration date |
| Exchanges.IntendedUserCells | backend/index.js:97-101 | the intended statement binds nom, email, téléphone and role_id to the fields the page sends, and binds neither mot_de_passe nor date_inscription |
| Exchanges.IntendedColumns | backend/index.js:97-101 | the intended statement binds each of its four columns to the same-named request field and binds neither mot_de_passe nor date_inscription |
| Exchanges.UntouchedColumn | backend/index.js:100-101 | a column the update does not name keeps its value in every row |

## Left out

- HTTP transport. Each request is its arguments and each response a status and a body. Axios, Express wiring, CORS and multer parsing are not modelled. The write handlers' message texts ("Insert Successfull", "Error Inserting", "Error creating expert" and the like) are one acknowledgement body (`Ack`) here, since no page reads them.
- The MySQL connection and engine. The tables are values in one store, and a query error is a boolean parameter. The single shared connection and concurrent requests are not modelled.
- bcrypt. `hash` and `compare` are function parameters, and nothing cryptographic is proved.
- React rendering: JSX, modals, `useEffect` scheduling, the form setters and `clearForm`. The effects that load a page are modelled as the method that stores the answer.
- Browser download and preview plumbing (`URL.createObjectURL`, `Blob`, link clicks). Only the choice of preview kind is modelled (`Records.PreviewOf`).
- The `setTimeout` timers that clear success messages.
- The commented-out code in `frontend/src/components/Polices.tsx` and `frontend/src/components/claims.tsx`.
- `frontend/src/components/homeclient.tsx` and `frontend/src/components/homeexpert.tsx`. They hold only navigation buttons and a copy of the new-claim body.
- Js.Lower: `toLowerCase` is ASCII lowering here. Unicode case mapping, and accented capitals in particular, is not modelled.
- Js.ParseNumber: `Number(text)` reads only an optional sign and decimal digits, after trimming. Fractions, exponents, hexadecimal and `Infinity` read as NaN here.
- Monetary amounts (`montant`, `montant_requis`, `montant_approuvé`) are whole numbers. JavaScript floats are not modelled.
- Tables.SelectWhere: `WHERE column = ?` is exact equality. MySQL's default collation compares text without regard to case and trailing spaces. A text compared with a number is read with `Number` here, so '5abc' is NaN and equals nothing; MySQL reads its numeric prefix, so '5abc' = 5 holds there, for the URL ids of `Tables.HasKey` too.
- Experts.EmptySearchKeepsAll: stated only for experts whose four fields are text. The source's filter throws otherwise (`Experts.MissingNameBreaksSearch`).
- Experts.SearchNarrows: stated only for experts whose four fields are text, for the same reason.
- Users.SearchNarrows: stated only for users whose searched fields are text or null. A truthy non-text field makes the filter throw.
- Server.LoginDecision: when `compare` rejects, the request gets no answer, and the model stops there ("no response"). The query callback (backend/index.js:57) is `async`, so the rejected `await bcrypt.compare` (backend/index.js:65) is an unhandled promise rejection. From Node 15 on that ends the process, so every later request is lost too. The process and the requests after it are not modelled.
- Server.ViewAll and the other handlers: the two-argument `res.status(n).json(body, extra)` is read as Express 5 reads it, where the second argument is ignored and `body` is sent. Under Express 4 the two-argument form is the deprecated `json(status, body)`: with an object as its second argument it takes the body object as the status code, which Node refuses, so it throws in the query callback and no response is sent.
- Tables: columns carry no constraints. The schema is not part of the source, so NOT NULL, column types, coercion and foreign keys are not modelled. Whether a NULL bound by a handler (the rename and user update in Findings, `Numero_Sinistre`) is stored or refused with a 500 depends on that schema. The model stores it.
- Documents.Search: `nom_fichier`, `type_document` and `date_upload` are text in the model. A NULL in one of them would also make the filter throw. Only the throw from a null claim id is modelled.
- ExpertDocuments.SearchOwn: the same three fields are text here, so this page's filter never throws in the model.
- Expertises.Search: `rapport` and `date_evaluation` are text in the model. A NULL one would also throw once the two labels miss the term.
- ExpertExpertises.Search: `rapport` and `date_evaluation` are text here as well. On the expert's page a NULL one would throw once the claim number and the expert name miss the term (frontend/src/components/Expertise.tsx:207-208).
- Records.NameOr: a truthy name that is not text, such as a number, is joined as its text. The searches that then call `toLowerCase` on the joined name would throw on it. A NULL name, the one the handlers store, is falsy and takes the fallback.
- Exchanges.ExpertDocumentPageEmpty: stated for the intended listing address. As written, Document.tsx:90 requests the literal text "${API_URL}/viewdocuments" (see Findings), and the page stays empty for that reason alone.
- Routing.Dispatch: query strings are not part of the path, and an unmatched request is `None`, which stands for the framework's 404.
- Home.ExpertErrorKeepsClaimCounts: the model stops at the stored counters. When `expertsActifs` is undefined, the render's `stats.expertsActifs.toString()` (frontend/src/components/home.tsx:64) throws, so the dashboard does not display those counters. Rendering is not modelled.
- Routing.Matches: a path segment is compared literally. Express's default routing ignores case and accepts a trailing slash, and that normalisation is not modelled.
- Server.Download: the two headers are values here. Node's `setHeader` throws when the file name is not Latin-1 or holds a CR or LF, and that throw is not modelled.
- The page handlers that only re-fetch after a write. The model states the request they send and the store change it causes, but not the re-fetch itself.

## Findings

| source | as written | input that shows it | evidently intended | confidence | as-written member | corrected member |
|---|---|---|---|---|---|---|
| frontend/src/components/claims.tsx:461-496 | a signed-in client's policies come from the first request that answers. `GET /viewpolices/<uid>` has no route, and `GET /viewpolices?utilisateur_id=<uid>` is served by the full listing, so every policy is shown unfiltered | client "1" and a table with one policy whose utilisateur_id is 2: the page shows that policy | only the client's own policies are shown, as the last fallback's owner filter does | not executed | Exchanges.OtherClientsPolicyShown | Claims.FetchOwnPolicies |
| backend/index.js:145-156 | the role page sends `{nom}` (frontend/src/components/Roles.tsx:72), but the update handler reads `name` and binds the missing field as NULL | rename any listed role to "Expert": its nom becomes NULL | the handler reads `nom`, as `/createrole` does | not executed | Exchanges.RoleRenameStoresNull | Exchanges.RenameStoresName |
| backend/index.js:96-107 | the users page sends nom, email, telephone and role_id (frontend/src/components/users.tsx:104-109). The handler reads name, password, phone and date_inscription, so four columns are overwritten with NULL | update any listed user from the page: nom, mot_de_passe, téléphone and date_inscription become NULL | the statement binds the fields the page sends, and leaves the password and the registration date alone | not executed | Exchanges.UserUpdateClearsColumns | Exchanges.IntendedUserUpdateStoresForm |
| frontend/src/components/users.tsx:61 | the listing and create addresses are double-quoted strings, so `${API_URL}` is sent as literal text. The same holds at users.tsx:87, Roles.tsx:44 and 60, Documents.tsx:81, 88, 95 and 121, and Document.tsx:90, 113, 122 and 139 | VITE_API_URL set to "http://localhost:3000": the listing goes to "${API_URL}/viewuser" | template literals, as the delete and update addresses of the same pages are | not executed | Addresses.CollectionUrlIgnoresConfiguration | Addresses.CollectionUrl |
| backend/index.js:471-479 | the claims page sends `Numero_Sinistre` (frontend/src/components/Sinistres.tsx:106, 129), but neither claim statement binds that column | create a claim with number "S-1": its stored `Numero_Sinistre` is NULL | the insert names and binds `Numero_Sinistre` | not executed | Exchanges.ClaimNumberNeverWritten | Exchanges.IntendedClaimStoresNumber |

The role and user findings in the second and third rows reach the table from the pages only once the addresses of the fourth row are fixed: as written, those pages never load the listing they edit.
