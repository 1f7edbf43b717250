/**
 * The server's handlers over the tables of the database. Reading handlers
 * are functions of the table they read; the handlers that write are
 * methods of `Database`, which holds one table per name.
 *
 * The database's failure to run a statement is the parameter `dbError`.
 * bcrypt's `hash` and `compare` are parameters too: `hash` gives `None`
 * where bcrypt throws (a password that is not a string), and `compare`
 * gives `None` where it rejects (a stored digest that is not a string).
 */
module Server {
  import opened Js
  import opened Lists
  import opened Tables
  import Base64

  datatype TableName = Users | Roles | Experts | Expertises | Documents | Paiements | Polices | Sinistres

  /** The JSON a handler answers with. */
  datatype Body =
    | Message(text: string)
    | Failure(error: string)
    | Ack
    | SignedIn(id: int, name: Cell, roleId: Cell)
    | Listing(rows: seq<Row>)
    | File(disposition: string, contentType: string, content: Cell)

  /** A response, or none at all when the handler's promise rejects unhandled. */
  datatype Response = Response(status: int, body: Body) | NoResponse

  datatype Op = Create | Update | Delete

  /**
   * The success status of the generic handlers: roles are created with
   * 200; users, roles and documents are updated and deleted with 200; all
   * other writes answer 201.
   */
  function SuccessStatus(t: TableName, op: Op): (s: int)
    ensures s in {200, 201}
  {
    match op
    case Create => if t == Roles then 200 else 201
    case _ => if t in {Users, Roles, Documents} then 200 else 201
  }

  /** `SELECT *` of the whole table: /viewuser answers 201, the other listings 200. */
  function ListingStatus(t: TableName): (s: int)
    ensures s == 201 <==> t == Users
  {
    if t == Users then 201 else 200
  }

  /**
   * The columns a handler writes, each with the request field it reads:
   * the statement's column list and the names destructured from
   * `req.body`. Documents list their four text columns; the file is
   * handled apart.
   */
  function Fields(t: TableName, op: Op): seq<(string, string)> {
    match t
    case Users => UserFields
    case Roles => if op == Create then [("nom", "nom")] else [("nom", "name")]
    case Experts => [("nom", "nom"), ("spécialité", "specialite"), ("email", "email"), ("téléphone", "telephone")]
    case Expertises =>
      [("sinistre_id", "sinistre_id"), ("expert", "expert"), ("rapport", "rapport"), ("date_evaluation", "date_evaluation")]
    case Documents => DocumentFields
    case Paiements =>
      [("sinistre_id", "sinistre_id"), ("montant", "montant"), ("date_paiement", "date_paiement"),
       ("méthode", "méthode"), ("statut", "statut")]
    case Polices =>
      [("numero_police", "numero_police"), ("utilisateur_id", "utilisateur_id"), ("type", "type"),
       ("date_debut", "date_debut"), ("date_fin", "date_fin"), ("statut", "statut")]
    case Sinistres =>
      [("utilisateur_id", "utilisateur_id"), ("police_id", "police_id"), ("expert", "expert"),
       ("date_declaration", "date_declaration"), ("type", "type"), ("description", "description"),
       ("statut", "statut"), ("montant_requis", "montant_requis"), ("montant_approuvé", "montant_approuvé")]
  }

  const UserFields: seq<(string, string)> :=
    [("nom", "name"), ("email", "email"), ("mot_de_passe", "password"), ("téléphone", "phone"),
     ("role_id", "role_id"), ("date_inscription", "date_inscription")]

  const DocumentFields: seq<(string, string)> :=
    [("sinistre_id", "sinistre_id"), ("nom_fichier", "nom_fichier"), ("type_document", "type_document"), ("date_upload", "date_upload")]

  predicate DistinctColumns(fields: seq<(string, string)>) {
    forall i, j :: 0 <= i < j < |fields| ==> fields[i].0 != fields[j].0
  }

  /** The values bound to the statement's placeholders, by column. */
  function Cells(fields: seq<(string, string)>, body: Object): (m: map<string, Cell>)
    ensures forall i :: 0 <= i < |fields| ==> fields[i].0 in m
    ensures forall c :: c in m ==> exists i :: 0 <= i < |fields| && fields[i].0 == c
    decreases |fields|
  {
    if fields == [] then map[]
    else
      var last := fields[|fields| - 1];
      Cells(fields[..|fields| - 1], body)[last.0 := Bind(Get(body, last.1))]
  }

  /** With distinct columns, every column holds the request field it is paired with. */
  lemma {:induction false} CellsRead(fields: seq<(string, string)>, body: Object, i: int)
    requires DistinctColumns(fields) && 0 <= i < |fields|
    ensures Lookup(Cells(fields, body), fields[i].0) == Bind(Get(body, fields[i].1))
    decreases |fields|
  {
    if i < |fields| - 1 {
      CellsRead(fields[..|fields| - 1], body, i);
    }
  }

  /** A column no pair names is not bound. */
  lemma {:induction false} CellsAbsent(fields: seq<(string, string)>, body: Object, c: string)
    requires forall i :: 0 <= i < |fields| ==> fields[i].0 != c
    ensures c !in Cells(fields, body)
    decreases |fields|
  {
    if fields != [] {
      CellsAbsent(fields[..|fields| - 1], body, c);
    }
  }

  /** No statement names a column twice. */
  lemma FieldsDistinct(t: TableName, op: Op)
    ensures DistinctColumns(Fields(t, op))
  {
    match t
    case Users => UserFieldsDistinct();
    case Documents => DocumentFieldsDistinct();
    case _ =>
  }

  lemma UserFieldsDistinct()
    ensures DistinctColumns(UserFields)
  {
  }

  lemma DocumentFieldsDistinct()
    ensures DistinctColumns(DocumentFields)
  {
  }

  /** Each column of a user row holds its request field: the password under mot_de_passe. */
  lemma UserCells(body: Object)
    ensures Lookup(Cells(UserFields, body), "nom") == Bind(Get(body, "name"))
    ensures Lookup(Cells(UserFields, body), "email") == Bind(Get(body, "email"))
    ensures Lookup(Cells(UserFields, body), "mot_de_passe") == Bind(Get(body, "password"))
    ensures Lookup(Cells(UserFields, body), "téléphone") == Bind(Get(body, "phone"))
    ensures Lookup(Cells(UserFields, body), "role_id") == Bind(Get(body, "role_id"))
    ensures Lookup(Cells(UserFields, body), "date_inscription") == Bind(Get(body, "date_inscription"))
  {
    UserFieldsDistinct();
    CellsRead(UserFields, body, 0);
    CellsRead(UserFields, body, 1);
    CellsRead(UserFields, body, 2);
    CellsRead(UserFields, body, 3);
    CellsRead(UserFields, body, 4);
    CellsRead(UserFields, body, 5);
  }

  // ---------------------------------------------------------------------
  // POST /login

  /** `SELECT * FROM users WHERE nom = ?` */
  function Named(users: Table, name: JsValue): (r: seq<Row>)
    ensures forall x :: x in r <==> x in users.rows && SqlEquals(Column(x, "nom"), Bind(name))
  {
    SelectWhere(users, "nom", Bind(name))
  }

  /**
   * The sign-in decision: 500 when the query fails, 401 "incorrect
   * credentials" when no user has the name, then only the FIRST user of
   * that name is checked: 401 "incorrect password" when the password does
   * not match its digest, else 200 with its id, name and role id.
   */
  function LoginDecision(users: Table, name: JsValue, password: JsValue, dbError: bool,
                         compare: (JsValue, Cell) -> Option<bool>): (r: Response)
    ensures dbError ==> r == Response(500, Message("error selecting"))
    ensures !dbError && Named(users, name) == [] ==> r == Response(401, Message("incorrect credentials"))
    ensures !dbError && Named(users, name) != [] ==>
      var u := Named(users, name)[0];
      match compare(password, Column(u, "mot_de_passe"))
      case None => r == NoResponse
      case Some(false) => r == Response(401, Message("incorrect password"))
      case Some(true) => r == Response(200, SignedIn(u.id, Column(u, "nom"), Column(u, "role_id")))
  {
    if dbError then Response(500, Message("error selecting"))
    else
      var data := Named(users, name);
      if |data| == 0 then Response(401, Message("incorrect credentials"))
      else
        var user := data[0];
        match compare(password, Column(user, "mot_de_passe"))
        case None => NoResponse
        case Some(false) => Response(401, Message("incorrect password"))
        case Some(true) => Response(200, SignedIn(user.id, Column(user, "nom"), Column(user, "role_id")))
  }

  /**
   * A successful sign-in answers with a user of that name whose digest
   * matched; the reply carries no digest, only id, name and role id.
   */
  lemma LoginSuccessIsNamedUser(users: Table, name: JsValue, password: JsValue, dbError: bool,
                                compare: (JsValue, Cell) -> Option<bool>)
    requires LoginDecision(users, name, password, dbError, compare).Response?
    requires LoginDecision(users, name, password, dbError, compare).status == 200
    ensures exists u :: u in users.rows && SqlEquals(Column(u, "nom"), Bind(name))
                     && compare(password, Column(u, "mot_de_passe")) == Some(true)
                     && LoginDecision(users, name, password, dbError, compare).body == SignedIn(u.id, Column(u, "nom"), Column(u, "role_id"))
  {
    var u := Named(users, name)[0];
    assert u in Named(users, name);
  }

  /**
   * Only the first user of a name is checked: when its digest does not
   * match, sign-in fails even if a later user of the same name has a
   * matching one.
   */
  lemma LoginChecksFirstOnly(users: Table, name: JsValue, password: JsValue,
                             compare: (JsValue, Cell) -> Option<bool>, i: int)
    requires 0 <= i < |users.rows| && SqlEquals(Column(users.rows[i], "nom"), Bind(name))
    requires forall k :: 0 <= k < i ==> !SqlEquals(Column(users.rows[k], "nom"), Bind(name))
    requires compare(password, Column(users.rows[i], "mot_de_passe")) == Some(false)
    ensures LoginDecision(users, name, password, false, compare) == Response(401, Message("incorrect password"))
  {
    FirstSelected(users.rows, x => SqlEquals(Column(x, "nom"), Bind(name)), i);
  }

  /** The first element a filter keeps is the first element satisfying it. */
  lemma {:induction false} FirstSelected(s: seq<Row>, p: Row -> bool, i: int)
    requires 0 <= i < |s| && p(s[i]) && forall k :: 0 <= k < i ==> !p(s[k])
    ensures Filter(s, p) != [] && Filter(s, p)[0] == s[i]
    decreases i
  {
    if i > 0 {
      FirstSelected(s[1..], p, i - 1);
    }
  }

  // ---------------------------------------------------------------------
  // Listings and download

  /** GET /viewuser, /viewrole, /viewexpert, ...: the whole table. */
  function ViewAll(t: TableName, table: Table, dbError: bool): (r: Response)
    ensures dbError ==> r.Response? && r.status == 500 && r.body.Message?
    ensures dbError && t == Users ==> r.body == Message("selecting error")
    ensures dbError && t == Roles ==> r.body == Message("Error fetching roles")
    ensures dbError && t !in {Users, Roles} ==> r.body == Message("Error getting info")
    ensures !dbError ==> r == Response(ListingStatus(t), Listing(table.rows))
  {
    if dbError then
      Response(500, Message(if t == Users then "selecting error" else if t == Roles then "Error fetching roles" else "Error getting info"))
    else Response(ListingStatus(t), Listing(table.rows))
  }

  /** GET /viewsinistres/:userId: the claims whose utilisateur_id is the parameter. */
  function ViewSinistresOfUser(sinistres: Table, userId: string, dbError: bool): (r: Response)
    ensures dbError ==> r == Response(500, Failure("Erreur de serveur"))
    ensures !dbError ==> r.Response? && r.status == 200 && r.body.Listing?
    ensures !dbError ==> forall x :: x in r.body.rows <==>
              x in sinistres.rows && SqlEquals(Column(x, "utilisateur_id"), Val(Str(userId)))
    ensures !dbError ==> IsSubsequence(r.body.rows, sinistres.rows)
  {
    if dbError then Response(500, Failure("Erreur de serveur"))
    else Response(200, Listing(SelectWhere(sinistres, "utilisateur_id", Val(Str(userId)))))
  }

  /** A stored file as the listing shows it: its base64 text, or null when there is none. */
  function ShownFile(c: Cell): (r: Cell)
    ensures c.Blob? ==> r == Val(Str(Base64.Encode(c.bytes)))
    ensures !c.Blob? ==> IsNull(r)
  {
    match c
    case Blob(b) => Val(Str(Base64.Encode(b)))
    case Val(_) => Val(Null)
  }

  function ShownDocument(d: Row): (r: Row)
    ensures r.id == d.id && r.cells.Keys == d.cells.Keys + {"contenu_fichier"}
    ensures r.cells["contenu_fichier"] == ShownFile(Column(d, "contenu_fichier"))
    ensures forall c :: c in d.cells && c != "contenu_fichier" ==> r.cells[c] == d.cells[c]
  {
    Row(d.id, d.cells["contenu_fichier" := ShownFile(Column(d, "contenu_fichier"))])
  }

  /** GET /viewdocuments: every row, in order, with its file as base64 text. */
  function ViewDocuments(docs: Table, dbError: bool): (r: Response)
    ensures dbError ==> r == Response(500, Message("Error getting info"))
    ensures !dbError ==> r.Response? && r.status == 200 && r.body.Listing? && |r.body.rows| == |docs.rows|
    ensures !dbError ==> forall i :: 0 <= i < |docs.rows| ==> r.body.rows[i] == ShownDocument(docs.rows[i])
  {
    if dbError then Response(500, Message("Error getting info"))
    else Response(200, Listing(seq(|docs.rows|, i requires 0 <= i < |docs.rows| => ShownDocument(docs.rows[i]))))
  }

  /**
   * The listing loses no file: decoding the text shown for a stored file
   * gives back its bytes, and a document without one shows null.
   */
  lemma ListedFilesDecode(docs: Table, i: int)
    requires 0 <= i < |docs.rows|
    ensures var shown := ViewDocuments(docs, false).body.rows[i].cells["contenu_fichier"];
            match Column(docs.rows[i], "contenu_fichier")
            case Blob(b) => shown.Val? && shown.v.Str? && Base64.Decode(shown.v.s) == Some(b)
            case Val(_) => IsNull(shown)
  {
    var c := Column(docs.rows[i], "contenu_fichier");
    if c.Blob? {
      Base64.DecodeEncode(c.bytes);
    }
  }

  /** `String(v)` of a column, as a template literal or a header writes it. */
  function CellText(c: Cell): string {
    match c
    case Val(v) => ToStr(v)
    case Blob(_) => "[object Object]"
  }

  /** `doc.type_document || "application/octet-stream"` */
  function ContentType(c: Cell): (s: string)
    ensures c.Val? && Truthy(c.v) ==> s == ToStr(c.v)
    ensures c.Val? && !Truthy(c.v) ==> s == "application/octet-stream"
  {
    match c
    case Val(v) => if Truthy(v) then ToStr(v) else "application/octet-stream"
    case Blob(_) => CellText(c)
  }

  /** GET /download/:id */
  function Download(docs: Table, id: string, dbError: bool): (r: Response)
    ensures dbError || SelectByKey(docs, id) == [] <==> r == Response(404, Message("Fichier non trouvé"))
    ensures !dbError && SelectByKey(docs, id) != [] ==>
      var d := SelectByKey(docs, id)[0];
      r == Response(200, File("attachment; filename=" + CellText(Column(d, "nom_fichier")),
                              ContentType(Column(d, "type_document")), Column(d, "contenu_fichier")))
  {
    var results := SelectByKey(docs, id);
    if dbError || |results| == 0 then Response(404, Message("Fichier non trouvé"))
    else
      var d := results[0];
      Response(200, File("attachment; filename=" + CellText(Column(d, "nom_fichier")),
                         ContentType(Column(d, "type_document")), Column(d, "contenu_fichier")))
  }

  /** A download that succeeds sends the file of the document with that id. */
  lemma DownloadSendsThatDocument(docs: Table, id: string)
    requires Download(docs, id, false).status == 200
    ensures exists d :: d in docs.rows && HasKey(d, id)
                     && Download(docs, id, false).body.content == Column(d, "contenu_fichier")
  {
    var d := SelectByKey(docs, id)[0];
    assert d in SelectByKey(docs, id);
  }

  // ---------------------------------------------------------------------
  // Writes

  /** The columns /register inserts: the request's fields with the digest for the password. */
  function RegisteredCells(body: Object, digest: string): (m: map<string, Cell>)
    ensures Lookup(m, "mot_de_passe") == Val(Str(digest))
    ensures forall c :: c != "mot_de_passe" ==> Lookup(m, c) == Lookup(Cells(UserFields, body), c)
  {
    Cells(UserFields, body)["mot_de_passe" := Val(Str(digest))]
  }

  /**
   * /register stores the digest of the password, /updateuser the password
   * as sent.
   */
  lemma PasswordStorage(body: Object, digest: string)
    ensures Lookup(RegisteredCells(body, digest), "mot_de_passe") == Val(Str(digest))
    ensures Lookup(RegisteredCells(body, digest), "nom") == Bind(Get(body, "name"))
    ensures Lookup(Cells(Fields(Users, Update), body), "mot_de_passe") == Bind(Get(body, "password"))
  {
    UserCells(body);
  }

  /** The columns /updatedocuments writes: the file only when one was sent. */
  function DocumentCells(body: Object, file: Option<seq<Base64.byte>>): (m: map<string, Cell>)
    ensures file.Some? ==> "contenu_fichier" in m && m["contenu_fichier"] == Blob(file.value)
    ensures file.None? ==> "contenu_fichier" !in m
    ensures forall c :: c != "contenu_fichier" ==> Lookup(m, c) == Lookup(Cells(DocumentFields, body), c)
  {
    var text := Cells(DocumentFields, body);
    if file.Some? then text["contenu_fichier" := Blob(file.value)] else text
  }

  /** The columns /createdocuments inserts: the file, or NULL when none was sent. */
  function NewDocumentCells(body: Object, file: Option<seq<Base64.byte>>): (m: map<string, Cell>)
    ensures Lookup(m, "contenu_fichier") == (if file.Some? then Blob(file.value) else Val(Null))
    ensures forall c :: c != "contenu_fichier" ==> Lookup(m, c) == Lookup(Cells(DocumentFields, body), c)
  {
    Cells(DocumentFields, body)["contenu_fichier" := if file.Some? then Blob(file.value) else Val(Null)]
  }

  /** The file an update without one leaves is the file that was there; with one, the new file. */
  lemma UpdateKeepsFile(docs: Table, id: string, body: Object, file: Option<seq<Base64.byte>>, i: int)
    requires 0 <= i < |docs.rows| && HasKey(docs.rows[i], id)
    ensures var after := UpdateByKey(docs, id, DocumentCells(body, file)).rows[i];
            Column(after, "contenu_fichier") == (if file.Some? then Blob(file.value) else Column(docs.rows[i], "contenu_fichier"))
  {
  }

  class Database {
    var tables: map<TableName, Table>

    predicate Valid()
      reads this
    {
      forall t: TableName :: t in tables && Tables.Valid(tables[t])
    }

    constructor()
      ensures Valid()
      ensures forall t: TableName :: t in tables && tables[t] == Empty()
    {
      tables := map[Users := Empty(), Roles := Empty(), Experts := Empty(), Expertises := Empty(),
                    Documents := Empty(), Paiements := Empty(), Polices := Empty(), Sinistres := Empty()];
      new;
      forall t: TableName ensures t in tables && tables[t] == Empty() {
        match t
        case Users =>
        case Roles =>
        case Experts =>
        case Expertises =>
        case Documents =>
        case Paiements =>
        case Polices =>
        case Sinistres =>
      }
    }

    /** The table a statement on t runs against after this write. */
    method Commit(t: TableName, table: Table)
      requires Valid() && Tables.Valid(table)
      modifies this
      ensures Valid() && tables == old(tables)[t := table]
    {
      tables := tables[t := table];
    }

    /** POST /register */
    method Register(body: Object, hash: JsValue -> Option<string>, dbError: bool) returns (r: Response)
      requires Valid()
      modifies this
      ensures Valid()
      ensures hash(Get(body, "password")).None? ==>
        (r == Response(200, Message("something went off course")) && tables == old(tables))
      ensures hash(Get(body, "password")).Some? && dbError ==>
        (r == Response(500, Message("error inserting data")) && tables == old(tables))
      ensures hash(Get(body, "password")).Some? && !dbError ==>
        (r == Response(201, Message("inserting success")) &&
         tables == old(tables)[Users := Insert(old(tables)[Users], RegisteredCells(body, hash(Get(body, "password")).value))])
    {
      var digest := hash(Get(body, "password"));
      if digest.None? {
        return Response(200, Message("something went off course"));
      }
      if dbError {
        return Response(500, Message("error inserting data"));
      }
      InsertValid(tables[Users], RegisteredCells(body, digest.value));
      Commit(Users, Insert(tables[Users], RegisteredCells(body, digest.value)));
      r := Response(201, Message("inserting success"));
    }

    /** POST /create<table>: insert the request's fields as a new row. */
    method CreateRow(t: TableName, body: Object, dbError: bool) returns (r: Response)
      requires Valid() && t !in {Users, Documents}
      modifies this
      ensures Valid()
      ensures dbError ==> r == Response(500, Ack) && tables == old(tables)
      ensures !dbError ==>
        (r == Response(SuccessStatus(t, Create), Ack) &&
         tables == old(tables)[t := Insert(old(tables)[t], Cells(Fields(t, Create), body))])
    {
      if dbError {
        return Response(500, Ack);
      }
      InsertValid(tables[t], Cells(Fields(t, Create), body));
      Commit(t, Insert(tables[t], Cells(Fields(t, Create), body)));
      r := Response(SuccessStatus(t, Create), Ack);
    }

    /**
     * PUT /update<table>/:id: overwrite the request's fields in the row
     * with that id. It succeeds whether or not such a row exists.
     */
    method UpdateRow(t: TableName, id: string, body: Object, dbError: bool) returns (r: Response)
      requires Valid() && t != Documents
      modifies this
      ensures Valid()
      ensures dbError ==> r == Response(500, Ack) && tables == old(tables)
      ensures !dbError ==>
        (r == Response(SuccessStatus(t, Update), Ack) &&
         tables == old(tables)[t := UpdateByKey(old(tables)[t], id, Cells(Fields(t, Update), body))])
    {
      if dbError {
        return Response(500, Ack);
      }
      UpdateValid(tables[t], id, Cells(Fields(t, Update), body));
      Commit(t, UpdateByKey(tables[t], id, Cells(Fields(t, Update), body)));
      r := Response(SuccessStatus(t, Update), Ack);
    }

    /** DELETE /delete<table>/:id. It succeeds whether or not such a row exists. */
    method DeleteRow(t: TableName, id: string, dbError: bool) returns (r: Response)
      requires Valid()
      modifies this
      ensures Valid()
      ensures dbError ==> r == Response(500, Ack) && tables == old(tables)
      ensures !dbError ==>
        (r == Response(SuccessStatus(t, Delete), Ack) &&
         tables == old(tables)[t := DeleteByKey(old(tables)[t], id)])
    {
      if dbError {
        return Response(500, Ack);
      }
      DeleteValid(tables[t], id);
      Commit(t, DeleteByKey(tables[t], id));
      r := Response(SuccessStatus(t, Delete), Ack);
    }

    /** POST /createdocuments: the file, or NULL when none was sent, with the text fields. */
    method CreateDocument(body: Object, file: Option<seq<Base64.byte>>, dbError: bool) returns (r: Response)
      requires Valid()
      modifies this
      ensures Valid()
      ensures dbError ==> r == Response(500, Message("Error creating document")) && tables == old(tables)
      ensures !dbError ==>
        (r == Response(201, Message("Insert Successful")) &&
         tables == old(tables)[Documents := Insert(old(tables)[Documents], NewDocumentCells(body, file))])
    {
      if dbError {
        return Response(500, Message("Error creating document"));
      }
      var cells := NewDocumentCells(body, file);
      InsertValid(tables[Documents], cells);
      Commit(Documents, Insert(tables[Documents], cells));
      r := Response(201, Message("Insert Successful"));
    }

    /** PUT /updatedocuments/:id: the file column is written only when a file was sent. */
    method UpdateDocument(id: string, body: Object, file: Option<seq<Base64.byte>>, dbError: bool) returns (r: Response)
      requires Valid()
      modifies this
      ensures Valid()
      ensures dbError ==> r == Response(500, Message("Error updating document")) && tables == old(tables)
      ensures !dbError ==>
        (r == Response(200, Message("Update Successful")) &&
         tables == old(tables)[Documents := UpdateByKey(old(tables)[Documents], id, DocumentCells(body, file))])
    {
      if dbError {
        return Response(500, Message("Error updating document"));
      }
      UpdateValid(tables[Documents], id, DocumentCells(body, file));
      Commit(Documents, UpdateByKey(tables[Documents], id, DocumentCells(body, file)));
      r := Response(200, Message("Update Successful"));
    }
  }
}
