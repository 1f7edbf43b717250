/**
 * What happens when a page's request meets the server: the body a page
 * sends is bound by the handler's column list, and the rows a listing
 * returns are read back by the page's own mapping. Each lemma follows one
 * such exchange end to end.
 */
module Exchanges {
  import opened Js
  import opened Lists
  import opened Tables
  import Server
  import Routing
  import Records
  import Roles
  import Users
  import Experts
  import Claims
  import ExpertClaims
  import Documents
  import ExpertDocuments
  import Session
  import Base64

  /** A column as JSON carries it; a BLOB is shown as null, since no page reads a raw blob. */
  function JsonCell(c: Cell): (v: JsValue)
    ensures c.Val? ==> v == c.v
  {
    match c
    case Val(v) => v
    case Blob(_) => Null
  }

  /**
   * A row as `SELECT *` sends it: its id and every column of the table,
   * a column the row was never given being NULL.
   */
  function Json(r: Row, columns: set<string>): (o: Object)
    ensures o.Keys == columns + {"id"}
    ensures Get(o, "id") == Number(Num(r.id))
    ensures forall c :: c in columns && c != "id" ==> Get(o, c) == JsonCell(Column(r, c))
  {
    (map c | c in columns :: JsonCell(Column(r, c)))["id" := Number(Num(r.id))]
  }

  function JsonRows(rows: seq<Row>, columns: set<string>): (r: seq<Object>)
    ensures |r| == |rows| && forall i :: 0 <= i < |rows| ==> r[i] == Json(rows[i], columns)
  {
    seq(|rows|, i requires 0 <= i < |rows| => Json(rows[i], columns))
  }

  // ---------------------------------------------------------------------
  // The client's policies

  /**
   * As written, a signed-in client sees every policy: the per-user
   * address has no route (404), so the second attempt is made, and
   * /viewpolices ignores the query and answers the whole table, which the
   * page keeps without filtering.
   */
  lemma ClientSeesEveryPolicy(uid: string, polices: Table, columns: set<string>)
    requires uid != ""
    ensures Routing.Dispatch(Routing.Routes, Routing.GET, ["viewpolices", uid], 0).None?
    ensures Routing.Dispatch(Routing.Routes, Routing.GET, ["viewpolices"], 0) == Some(26)
    ensures var listing := JsonRows(Server.ViewAll(Server.Polices, polices, false).body.rows, columns);
            Claims.FetchPolices(uid, None, Some(listing), Some(listing)) == listing
  {
    Routing.PolicesOfUserNotRouted(uid);
    Routing.PolicesListingServes();
  }

  /** The policy of user 2 that client 1 is shown as written, and that the owner filter drops. */
  lemma OtherClientsPolicyShown(columns: set<string>)
    requires "utilisateur_id" in columns
    ensures var polices := Table([Row(1, map["utilisateur_id" := Val(Number(Num(2)))])], 2);
            var listing := JsonRows(Server.ViewAll(Server.Polices, polices, false).body.rows, columns);
            Claims.FetchPolices("1", None, Some(listing), Some(listing)) == listing && |listing| == 1 &&
            Claims.FetchOwnPolicies("1", Some(listing)) == []
  {
    var polices := Table([Row(1, map["utilisateur_id" := Val(Number(Num(2)))])], 2);
    var listing := JsonRows(Server.ViewAll(Server.Polices, polices, false).body.rows, columns);
    var p := listing[0];
    assert Get(p, "utilisateur_id") == Number(Num(2));
    assert IntToString(2) == "2";
    assert !Claims.OwnedBy(p, "1");
    assert listing == [p];
    FilterKeepsNone(listing, (q: Object) => Claims.OwnedBy(q, "1"));
  }

  // ---------------------------------------------------------------------
  // Roles

  /** A role created from the page stores the typed name. */
  lemma RoleCreateStoresName(roles: Table, roleName: string)
    ensures var after := Insert(roles, Server.Cells(Server.Fields(Server.Roles, Server.Create), Roles.NameBody(roleName)));
            Column(after.rows[|roles.rows|], "nom") == Val(Str(roleName))
  {
  }

  /**
   * As written, renaming a role erases its name: the page sends `nom`,
   * the update handler reads `name`, and the missing field is bound as NULL.
   */
  lemma RoleRenameStoresNull(roles: Table, id: string, roleName: string, i: int)
    requires 0 <= i < |roles.rows| && HasKey(roles.rows[i], id)
    ensures var after := UpdateByKey(roles, id, Server.Cells(Server.Fields(Server.Roles, Server.Update), Roles.NameBody(roleName)));
            Column(after.rows[i], "nom") == Val(Null)
  {
  }

  /** The role update as evidently intended: read `nom`, as the create handler does. */
  function RenameCells(body: Object): (m: map<string, Cell>)
    ensures m.Keys == {"nom"} && m["nom"] == Bind(Get(body, "nom"))
  {
    Server.Cells(Server.Fields(Server.Roles, Server.Create), body)
  }

  /** With the intended column list, a rename stores the typed name in that role and nowhere else. */
  lemma RenameStoresName(roles: Table, id: string, roleName: string, i: int)
    requires 0 <= i < |roles.rows|
    ensures var after := UpdateByKey(roles, id, RenameCells(Roles.NameBody(roleName)));
            Column(after.rows[i], "nom") == (if HasKey(roles.rows[i], id) then Val(Str(roleName)) else Column(roles.rows[i], "nom"))
  {
  }

  // ---------------------------------------------------------------------
  // Users

  /**
   * The user page's update overwrites the columns it does not send under
   * the handler's names: nom (sent as `nom`, read as `name`), the
   * password, the phone (sent as `telephone`, read as `phone`) and the
   * registration date all become NULL; email and role id are stored.
   */
  lemma UserUpdateClearsColumns(users: Table, id: string, f: Users.Form, i: int)
    requires 0 <= i < |users.rows| && HasKey(users.rows[i], id)
    ensures var after := UpdateByKey(users, id, Server.Cells(Server.Fields(Server.Users, Server.Update), Users.RequestBody(f))).rows[i];
            Column(after, "nom") == Val(Null) && Column(after, "mot_de_passe") == Val(Null) &&
            Column(after, "téléphone") == Val(Null) && Column(after, "date_inscription") == Val(Null) &&
            Column(after, "email") == Val(Str(f.email)) && Column(after, "role_id") == Bind(Users.RoleIdPayload(f.roleId))
  {
    var m := Server.Cells(Server.Fields(Server.Users, Server.Update), Users.RequestBody(f));
    UserUpdateCells(f);
    UpdatedColumn(users, id, m, i, "nom");
    UpdatedColumn(users, id, m, i, "mot_de_passe");
    UpdatedColumn(users, id, m, i, "téléphone");
    UpdatedColumn(users, id, m, i, "date_inscription");
    UpdatedColumn(users, id, m, i, "email");
    UpdatedColumn(users, id, m, i, "role_id");
  }

  /** The row an update matched holds, in a column the update names, the value written. */
  lemma UpdatedColumn(t: Table, id: string, m: map<string, Cell>, i: int, c: string)
    requires 0 <= i < |t.rows| && HasKey(t.rows[i], id) && c in m
    ensures Column(UpdateByKey(t, id, m).rows[i], c) == m[c]
  {
  }

  /** The update body lacks the names the handler reads for name, password, phone and date. */
  lemma UserUpdateBody(f: Users.Form)
    ensures var body := Users.RequestBody(f);
            Get(body, "name") == Undefined && Get(body, "password") == Undefined && Get(body, "phone") == Undefined &&
            Get(body, "date_inscription") == Undefined && Get(body, "email") == Str(f.email) &&
            Get(body, "role_id") == Users.RoleIdPayload(f.roleId)
  {
    var body := Users.RequestBody(f);
    assert "name" !in body && "password" !in body && "phone" !in body && "date_inscription" !in body;
  }

  /** The user statement binds each column to the request field it is paired with. */
  lemma UserColumns(body: Object)
    ensures var m := Server.Cells(Server.UserFields, body);
            "nom" in m && "mot_de_passe" in m && "téléphone" in m && "date_inscription" in m && "email" in m && "role_id" in m &&
            m["nom"] == Bind(Get(body, "name")) && m["mot_de_passe"] == Bind(Get(body, "password")) &&
            m["téléphone"] == Bind(Get(body, "phone")) && m["date_inscription"] == Bind(Get(body, "date_inscription")) &&
            m["email"] == Bind(Get(body, "email")) && m["role_id"] == Bind(Get(body, "role_id"))
  {
    Server.UserCells(body);
    var m := Server.Cells(Server.UserFields, body);
    assert Server.UserFields[0].0 in m && Server.UserFields[1].0 in m && Server.UserFields[2].0 in m;
    assert Server.UserFields[3].0 in m && Server.UserFields[4].0 in m && Server.UserFields[5].0 in m;
  }

  /** The values the user update binds for the page's body. */
  lemma UserUpdateCells(f: Users.Form)
    ensures var m := Server.Cells(Server.Fields(Server.Users, Server.Update), Users.RequestBody(f));
            "nom" in m && "mot_de_passe" in m && "téléphone" in m && "date_inscription" in m && "email" in m && "role_id" in m &&
            m["nom"] == Val(Null) && m["mot_de_passe"] == Val(Null) && m["téléphone"] == Val(Null) &&
            m["date_inscription"] == Val(Null) && m["email"] == Val(Str(f.email)) && m["role_id"] == Bind(Users.RoleIdPayload(f.roleId))
  {
    assert Server.Fields(Server.Users, Server.Update) == Server.UserFields;
    UserUpdateBody(f);
    UserColumns(Users.RequestBody(f));
  }

  /**
   * The user update as evidently intended: the four columns the page
   * edits, each read under the name the page sends it. The password and
   * the registration date are left out of the statement.
   */
  const IntendedUserFields: seq<(string, string)> :=
    [("nom", "nom"), ("email", "email"), ("téléphone", "telephone"), ("role_id", "role_id")]

  /** With the intended statement, an update stores the form as typed and keeps the password and the date. */
  lemma IntendedUserUpdateStoresForm(users: Table, id: string, f: Users.Form, i: int)
    requires 0 <= i < |users.rows| && HasKey(users.rows[i], id)
    ensures var after := UpdateByKey(users, id, Server.Cells(IntendedUserFields, Users.RequestBody(f))).rows[i];
            Column(after, "nom") == Val(Str(f.nom)) && Column(after, "email") == Val(Str(f.email)) &&
            Column(after, "téléphone") == Val(Str(f.telephone)) &&
            Column(after, "role_id") == Bind(Users.RoleIdPayload(f.roleId)) &&
            Column(after, "mot_de_passe") == Column(users.rows[i], "mot_de_passe") &&
            Column(after, "date_inscription") == Column(users.rows[i], "date_inscription")
  {
    var m := Server.Cells(IntendedUserFields, Users.RequestBody(f));
    IntendedUserCells(f);
    UpdatedColumn(users, id, m, i, "nom");
    UpdatedColumn(users, id, m, i, "email");
    UpdatedColumn(users, id, m, i, "téléphone");
    UpdatedColumn(users, id, m, i, "role_id");
    UntouchedColumn(users, id, m, i, "mot_de_passe");
    UntouchedColumn(users, id, m, i, "date_inscription");
  }

  /** The values the intended user update binds for the page's body. */
  lemma IntendedUserCells(f: Users.Form)
    ensures var m := Server.Cells(IntendedUserFields, Users.RequestBody(f));
            "nom" in m && "email" in m && "téléphone" in m && "role_id" in m &&
            "mot_de_passe" !in m && "date_inscription" !in m &&
            m["nom"] == Val(Str(f.nom)) && m["email"] == Val(Str(f.email)) &&
            m["téléphone"] == Val(Str(f.telephone)) && m["role_id"] == Bind(Users.RoleIdPayload(f.roleId))
  {
    IntendedColumns(Users.RequestBody(f));
  }

  /** The columns the intended user update names, each bound to its request field. */
  lemma IntendedColumns(body: Object)
    ensures var m := Server.Cells(IntendedUserFields, body);
            "nom" in m && "email" in m && "téléphone" in m && "role_id" in m &&
            "mot_de_passe" !in m && "date_inscription" !in m &&
            m["nom"] == Bind(Get(body, "nom")) && m["email"] == Bind(Get(body, "email")) &&
            m["téléphone"] == Bind(Get(body, "telephone")) && m["role_id"] == Bind(Get(body, "role_id"))
  {
    IntendedColumnsRead(body);
    IntendedFieldsOmit();
    Server.CellsAbsent(IntendedUserFields, body, "mot_de_passe");
    Server.CellsAbsent(IntendedUserFields, body, "date_inscription");
  }

  lemma IntendedColumnsRead(body: Object)
    ensures var m := Server.Cells(IntendedUserFields, body);
            "nom" in m && "email" in m && "téléphone" in m && "role_id" in m &&
            m["nom"] == Bind(Get(body, "nom")) && m["email"] == Bind(Get(body, "email")) &&
            m["téléphone"] == Bind(Get(body, "telephone")) && m["role_id"] == Bind(Get(body, "role_id"))
  {
    var m := Server.Cells(IntendedUserFields, body);
    assert Server.DistinctColumns(IntendedUserFields);
    Server.CellsRead(IntendedUserFields, body, 0);
    Server.CellsRead(IntendedUserFields, body, 1);
    Server.CellsRead(IntendedUserFields, body, 2);
    Server.CellsRead(IntendedUserFields, body, 3);
    assert IntendedUserFields[0].0 in m && IntendedUserFields[1].0 in m;
    assert IntendedUserFields[2].0 in m && IntendedUserFields[3].0 in m;
  }

  /** The intended update names neither the password nor the sign-up date. */
  lemma IntendedFieldsOmit()
    ensures forall i :: 0 <= i < |IntendedUserFields| ==>
              IntendedUserFields[i].0 != "mot_de_passe" && IntendedUserFields[i].0 != "date_inscription"
  {
  }

  /** A column the update does not name keeps its value in every row. */
  lemma UntouchedColumn(t: Table, id: string, m: map<string, Cell>, i: int, c: string)
    requires 0 <= i < |t.rows| && c !in m
    ensures Column(UpdateByKey(t, id, m).rows[i], c) == Column(t.rows[i], c)
  {
  }

  // ---------------------------------------------------------------------
  // Experts

  /**
   * An expert saved from the form is listed back as the form: the page
   * sends unaccented names, the handler stores them under the accented
   * columns, and the page's mapping renames them back.
   */
  lemma ExpertFormRoundTrip(experts: Table, f: Experts.Form, columns: set<string>)
    requires {"nom", "spécialité", "email", "téléphone"} <= columns
    ensures var stored := Insert(experts, Server.Cells(Server.Fields(Server.Experts, Server.Create), Experts.RequestBody(f))).rows[|experts.rows|];
            Experts.ExpertOf(stored.id, Json(stored, columns)) ==
            Experts.Expert(stored.id, Str(f.nom), Str(f.specialite), Str(f.email), Str(f.telephone))
  {
    var fields := Server.Fields(Server.Experts, Server.Create);
    var body := Experts.RequestBody(f);
    Server.FieldsDistinct(Server.Experts, Server.Create);
    Server.CellsRead(fields, body, 0);
    Server.CellsRead(fields, body, 1);
    Server.CellsRead(fields, body, 2);
    Server.CellsRead(fields, body, 3);
  }

  /** A saved expert has four text fields, so the page's search never throws on it. */
  lemma SavedExpertSearchable(experts: Table, f: Experts.Form, columns: set<string>, term: string)
    requires {"nom", "spécialité", "email", "téléphone"} <= columns
    ensures var stored := Insert(experts, Server.Cells(Server.Fields(Server.Experts, Server.Create), Experts.RequestBody(f))).rows[|experts.rows|];
            Experts.Test(Experts.ExpertOf(stored.id, Json(stored, columns)), term).Some?
  {
    ExpertFormRoundTrip(experts, f, columns);
    var stored := Insert(experts, Server.Cells(Server.Fields(Server.Experts, Server.Create), Experts.RequestBody(f))).rows[|experts.rows|];
    Experts.CompleteNeverThrows(Experts.ExpertOf(stored.id, Json(stored, columns)), term);
  }

  // ---------------------------------------------------------------------
  // Claims

  /** The claim a client declares is stored with a NULL expert: the body has no expert field. */
  lemma NewClaimStoredUnassigned(sinistres: Table, f: Claims.ClaimForm)
    ensures var stored := Insert(sinistres, Server.Cells(Server.Fields(Server.Sinistres, Server.Create), Claims.NewClaimBody(f))).rows[|sinistres.rows|];
            Column(stored, "expert") == Val(Null)
  {
    var body := Claims.NewClaimBody(f);
    ClaimExpertCell(body);
    assert Get(body, "expert") == Undefined;
  }

  /** The claim statement binds its expert column to the request's `expert` field. */
  lemma ClaimExpertCell(body: Object)
    ensures Lookup(Server.Cells(Server.Fields(Server.Sinistres, Server.Create), body), "expert") == Bind(Get(body, "expert"))
  {
    var fields := Server.Fields(Server.Sinistres, Server.Create);
    assert fields[2] == ("expert", "expert");
    Server.FieldsDistinct(Server.Sinistres, Server.Create);
    Server.CellsRead(fields, body, 2);
  }

  /** The row id a page reads, as the number it is in every listing. */
  function IdOf(o: Object): int {
    match Get(o, "id")
    case Number(Num(n)) => n
    case _ => 0
  }

  /** The expert's claim page, read from a listing row. */
  function ListedClaim(o: Object): ExpertClaims.Claim {
    var numero := Get(o, "Numero_Sinistre");
    ExpertClaims.Claim(IdOf(o),
                       if numero.Str? then Some(numero.s) else None,
                       Get(o, "utilisateur_id"), Get(o, "expert"), ToStr(Get(o, "type")))
  }

  /** ...so no expert's claim page shows a newly declared claim, whatever id is stored. */
  lemma NewClaimShownToNoExpert(sinistres: Table, f: Claims.ClaimForm, columns: set<string>, expertId: string)
    requires "expert" in columns
    ensures var stored := Insert(sinistres, Server.Cells(Server.Fields(Server.Sinistres, Server.Create), Claims.NewClaimBody(f))).rows[|sinistres.rows|];
            !ExpertClaims.AssignedTo(ExpertClaims.Normalize(ListedClaim(Json(stored, columns))), expertId)
  {
    NewClaimStoredUnassigned(sinistres, f);
  }

  /**
   * The claim page sends `Numero_Sinistre`, but neither claim statement
   * names that column: a created claim has no number, and an edit keeps
   * the number the row had.
   */
  lemma ClaimNumberNeverWritten(t: Table, id: string, body: Object, i: int)
    requires 0 <= i < |t.rows|
    ensures Column(Insert(t, Server.Cells(Server.Fields(Server.Sinistres, Server.Create), body)).rows[|t.rows|], "Numero_Sinistre") == Val(Null)
    ensures Column(UpdateByKey(t, id, Server.Cells(Server.Fields(Server.Sinistres, Server.Update), body)).rows[i], "Numero_Sinistre") ==
              Column(t.rows[i], "Numero_Sinistre")
  {
    ClaimFieldsOmitNumber(Server.Create);
    ClaimFieldsOmitNumber(Server.Update);
    Server.CellsAbsent(Server.Fields(Server.Sinistres, Server.Create), body, "Numero_Sinistre");
    Server.CellsAbsent(Server.Fields(Server.Sinistres, Server.Update), body, "Numero_Sinistre");
    UntouchedColumn(t, id, Server.Cells(Server.Fields(Server.Sinistres, Server.Update), body), i, "Numero_Sinistre");
  }

  lemma ClaimFieldsOmitNumber(op: Server.Op)
    ensures forall k :: 0 <= k < |Server.Fields(Server.Sinistres, op)| ==> Server.Fields(Server.Sinistres, op)[k].0 != "Numero_Sinistre"
  {
  }

  /** The claim statement with the number column the page sends added at the end. */
  const IntendedClaimFields: seq<(string, string)> :=
    Server.Fields(Server.Sinistres, Server.Create) + [("Numero_Sinistre", "Numero_Sinistre")]

  /** With the number column added, a created claim stores the number the page sent. */
  lemma IntendedClaimStoresNumber(t: Table, body: Object)
    ensures Column(Insert(t, Server.Cells(IntendedClaimFields, body)).rows[|t.rows|], "Numero_Sinistre") ==
              Bind(Get(body, "Numero_Sinistre"))
  {
    var fields := IntendedClaimFields;
    assert fields[..|fields| - 1] == Server.Fields(Server.Sinistres, Server.Create);
    assert Server.Cells(fields, body) ==
             Server.Cells(Server.Fields(Server.Sinistres, Server.Create), body)["Numero_Sinistre" := Bind(Get(body, "Numero_Sinistre"))];
  }

  // ---------------------------------------------------------------------
  // Documents

  /** No document write stores an expert: the handlers' column lists have none. */
  lemma DocumentWritesHaveNoExpert(body: Object, file: Option<seq<Base64.byte>>)
    ensures "expert" !in Server.NewDocumentCells(body, file) && "expert" !in Server.DocumentCells(body, file)
  {
    forall i | 0 <= i < |Server.DocumentFields| ensures Server.DocumentFields[i].0 != "expert" {
    }
  }

  /** A document as the pages read it from the document listing. */
  function ListedDocument(o: Object): Documents.Document {
    Documents.Document(IdOf(o),
                       Get(o, "sinistre_id"), Get(o, "expert"), ToStr(Get(o, "nom_fichier")),
                       ToStr(Get(o, "type_document")), ToStr(Get(o, "date_upload")))
  }

  /**
   * A row that holds no expert is shown to no expert who passes the fetch
   * guard: the column reads as null (0) or is absent (NaN), and the id is
   * neither.
   */
  lemma DocumentWithoutExpertNotAssigned(d: Row, columns: set<string>, stored: Option<string>)
    requires "expert" !in d.cells
    requires Session.ShouldFetch(Session.LoggedInUserId(stored))
    ensures !ExpertDocuments.AssignedTo(ListedDocument(Json(Server.ShownDocument(d), columns)),
                                        Session.LoggedInUserId(stored).value)
  {
    var shown := Server.ShownDocument(d);
    assert "expert" !in shown.cells;
  }

  /**
   * Uploading from either document page never reaches the expert's
   * document page: in a table written only by the document handlers, the
   * expert page's list is empty for every signed-in expert.
   */
  lemma ExpertDocumentPageEmpty(docs: Table, columns: set<string>, stored: Option<string>)
    requires forall r :: r in docs.rows ==> "expert" !in r.cells
    requires Session.ShouldFetch(Session.LoggedInUserId(stored))
    ensures var listing := Server.ViewDocuments(docs, false).body.rows;
            var shown := seq(|listing|, i requires 0 <= i < |listing| => ListedDocument(Json(listing[i], columns)));
            ExpertDocuments.Assigned(shown, Session.LoggedInUserId(stored).value) == []
  {
    var listing := Server.ViewDocuments(docs, false).body.rows;
    var shown := seq(|listing|, i requires 0 <= i < |listing| => ListedDocument(Json(listing[i], columns)));
    var id := Session.LoggedInUserId(stored).value;
    forall d | d in shown ensures !ExpertDocuments.AssignedTo(d, id) {
      var i :| 0 <= i < |shown| && shown[i] == d;
      assert docs.rows[i] in docs.rows;
      DocumentWithoutExpertNotAssigned(docs.rows[i], columns, stored);
    }
    FilterKeepsNone(shown, (d: Documents.Document) => ExpertDocuments.AssignedTo(d, id));
  }
}
