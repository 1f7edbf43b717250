/**
 * The database behind the server, as per-table lists of rows. A row has
 * the id that AUTO_INCREMENT gave it and a map from column name to value;
 * a table remembers the next id to hand out. The operations are the three
 * statements the handlers issue: INSERT, UPDATE ... WHERE id = ? and
 * DELETE ... WHERE id = ?, plus the WHERE test of a SELECT.
 */
module Tables {
  import opened Js
  import opened Lists
  import Base64

  /** A column value: a JSON-level value, or the bytes of a BLOB column. */
  datatype Cell = Val(v: JsValue) | Blob(bytes: seq<Base64.byte>)

  /**
   * A value bound to a `?` placeholder. The driver sends `undefined`, which
   * is what a missing request field reads as, as SQL NULL.
   */
  function Bind(v: JsValue): (c: Cell)
    ensures c.Val? && !c.v.Undefined?
    ensures !v.Undefined? ==> c.v == v
  {
    if v.Undefined? then Val(Null) else Val(v)
  }

  predicate IsNull(c: Cell) {
    c == Val(Null)
  }

  /**
   * `a = b` in a WHERE clause: NULL is equal to nothing, numbers compare by
   * value, and a string compared with a number is read as a number.
   */
  predicate SqlEquals(a: Cell, b: Cell) {
    match (a, b)
    case (Val(Number(Num(x))), Val(Number(Num(y)))) => x == y
    case (Val(Number(Num(x))), Val(Str(s))) => ParseNumber(s) == Num(x)
    case (Val(Str(s)), Val(Number(Num(y)))) => ParseNumber(s) == Num(y)
    case (Val(Str(s)), Val(Str(t))) => s == t
    case (Blob(x), Blob(y)) => x == y
    case _ => false
  }

  lemma SqlEqualsNull(a: Cell)
    ensures !SqlEquals(a, Val(Null)) && !SqlEquals(Val(Null), a)
  {
  }

  datatype Row = Row(id: int, cells: map<string, Cell>)

  /** The value given to a column; a column not given reads as NULL. */
  function Lookup(cells: map<string, Cell>, name: string): (c: Cell)
    ensures name in cells ==> c == cells[name]
    ensures name !in cells ==> IsNull(c)
  {
    if name in cells then cells[name] else Val(Null)
  }

  /** A column of a row. */
  function Column(r: Row, name: string): Cell {
    Lookup(r.cells, name)
  }

  datatype Table = Table(rows: seq<Row>, nextId: int)

  /**
   * What insertion by AUTO_INCREMENT guarantees: rows appear in increasing
   * id order and every id is below the next one to be handed out.
   */
  predicate Valid(t: Table) {
    IdsIncreasing(t.rows) && forall i :: 0 <= i < |t.rows| ==> t.rows[i].id < t.nextId
  }

  predicate IdsIncreasing(rows: seq<Row>) {
    forall i, j :: 0 <= i < j < |rows| ==> rows[i].id < rows[j].id
  }

  /** The empty table of a fresh database. */
  function Empty(): (t: Table)
    ensures Valid(t) && t.rows == []
  {
    Table([], 1)
  }

  // ---------------------------------------------------------------------
  // Statements

  /** `WHERE id = ?` with the id sent as text in the URL. */
  predicate HasKey(r: Row, key: string) {
    SqlEquals(Val(Number(Num(r.id))), Val(Str(key)))
  }

  /** `SELECT * ... WHERE column = ?` */
  function SelectWhere(t: Table, column: string, v: Cell): (r: seq<Row>)
    ensures forall x :: x in r ==> x in t.rows && SqlEquals(Column(x, column), v)
    ensures forall x :: x in t.rows && SqlEquals(Column(x, column), v) ==> x in r
    ensures IsSubsequence(r, t.rows)
  {
    FilterMembership(t.rows, x => SqlEquals(Column(x, column), v));
    FilterIsSubsequence(t.rows, x => SqlEquals(Column(x, column), v));
    Filter(t.rows, x => SqlEquals(Column(x, column), v))
  }

  /** `SELECT ... WHERE id = ?` */
  function SelectByKey(t: Table, key: string): (r: seq<Row>)
    ensures forall x :: x in r ==> x in t.rows && HasKey(x, key)
    ensures forall x :: x in t.rows && HasKey(x, key) ==> x in r
    ensures IsSubsequence(r, t.rows)
  {
    FilterMembership(t.rows, x => HasKey(x, key));
    FilterIsSubsequence(t.rows, x => HasKey(x, key));
    Filter(t.rows, x => HasKey(x, key))
  }

  /** `INSERT INTO ... VALUES (...)`: a new row at the end with the next id. */
  function Insert(t: Table, cells: map<string, Cell>): (r: Table)
    ensures |r.rows| == |t.rows| + 1 && r.rows[..|t.rows|] == t.rows
    ensures r.rows[|t.rows|] == Row(t.nextId, cells)
    ensures r.nextId > t.nextId
  {
    Table(t.rows + [Row(t.nextId, cells)], t.nextId + 1)
  }

  /** The row an UPDATE leaves: the assigned columns overwritten, all others kept. */
  function Assign(r: Row, values: map<string, Cell>): (s: Row)
    ensures s.id == r.id && s.cells.Keys == r.cells.Keys + values.Keys
    ensures forall c :: c in values ==> s.cells[c] == values[c]
    ensures forall c :: c in r.cells && c !in values ==> s.cells[c] == r.cells[c]
  {
    Row(r.id, r.cells + values)
  }

  /** `UPDATE ... SET ... WHERE id = ?` */
  function UpdateByKey(t: Table, key: string, values: map<string, Cell>): (r: Table)
    ensures |r.rows| == |t.rows| && r.nextId == t.nextId
    ensures forall i :: 0 <= i < |t.rows| && HasKey(t.rows[i], key) ==> r.rows[i] == Assign(t.rows[i], values)
    ensures forall i :: 0 <= i < |t.rows| && !HasKey(t.rows[i], key) ==> r.rows[i] == t.rows[i]
  {
    Table(seq(|t.rows|, i requires 0 <= i < |t.rows| =>
      if HasKey(t.rows[i], key) then Assign(t.rows[i], values) else t.rows[i]), t.nextId)
  }

  /** `DELETE FROM ... WHERE id = ?` */
  function DeleteByKey(t: Table, key: string): (r: Table)
    ensures forall x :: x in r.rows ==> x in t.rows && !HasKey(x, key)
    ensures forall x :: x in t.rows && !HasKey(x, key) ==> x in r.rows
    ensures IsSubsequence(r.rows, t.rows)
    ensures r.nextId == t.nextId
  {
    FilterMembership(t.rows, x => !HasKey(x, key));
    FilterIsSubsequence(t.rows, x => !HasKey(x, key));
    Table(Filter(t.rows, x => !HasKey(x, key)), t.nextId)
  }

  // ---------------------------------------------------------------------
  // What the statements preserve

  lemma InsertValid(t: Table, cells: map<string, Cell>)
    requires Valid(t)
    ensures Valid(Insert(t, cells))
  {
  }

  lemma UpdateValid(t: Table, key: string, values: map<string, Cell>)
    requires Valid(t)
    ensures Valid(UpdateByKey(t, key, values))
  {
  }

  /** A filter keeps ids increasing. */
  lemma {:induction false} FilterIdsIncreasing(rows: seq<Row>, p: Row -> bool)
    requires IdsIncreasing(rows)
    ensures IdsIncreasing(Filter(rows, p))
    decreases |rows|
  {
    if rows != [] {
      FilterIdsIncreasing(rows[1..], p);
      FilterMembership(rows[1..], p);
      var tail := Filter(rows[1..], p);
      forall x | x in tail ensures rows[0].id < x.id {
        var k :| 0 <= k < |rows[1..]| && rows[1..][k] == x;
        assert rows[k + 1] == x;
      }
      var r := Filter(rows, p);
      assert r == (if p(rows[0]) then [rows[0]] else []) + tail;
      if p(rows[0]) {
        forall i, j | 0 <= i < j < |r| ensures r[i].id < r[j].id {
          assert r[j] == tail[j - 1] && tail[j - 1] in tail;
          if i > 0 { assert r[i] == tail[i - 1]; }
        }
      }
    }
  }

  lemma DeleteValid(t: Table, key: string)
    requires Valid(t)
    ensures Valid(DeleteByKey(t, key))
  {
    FilterIdsIncreasing(t.rows, x => !HasKey(x, key));
    var r := DeleteByKey(t, key);
    forall i | 0 <= i < |r.rows| ensures r.rows[i].id < r.nextId {
      assert r.rows[i] in r.rows;
    }
  }

  /** In a valid table an id names at most one row: the key selects zero or one row. */
  lemma {:induction false} KeySelectsAtMostOne(t: Table, key: string)
    requires Valid(t)
    ensures |SelectByKey(t, key)| <= 1
  {
    var r := SelectByKey(t, key);
    if |r| > 1 {
      assert r[0] in r && r[1] in r;
      assert HasKey(r[0], key) && HasKey(r[1], key);
      assert r[0].id == r[1].id;
      FilterIdsIncreasing(t.rows, x => HasKey(x, key));
      assert false;
    }
  }

  /** UPDATE by a key no row has, and DELETE by it, change nothing. */
  lemma AbsentKeyChangesNothing(t: Table, key: string, values: map<string, Cell>)
    requires forall x :: x in t.rows ==> !HasKey(x, key)
    ensures UpdateByKey(t, key, values) == t
    ensures DeleteByKey(t, key) == t
  {
    var u := UpdateByKey(t, key, values);
    forall i | 0 <= i < |t.rows| ensures u.rows[i] == t.rows[i] {
      assert t.rows[i] in t.rows;
    }
    assert u.rows == t.rows;
    FilterKeepsAll(t.rows, x => !HasKey(x, key));
  }

  /** Repeating an UPDATE or a DELETE has no further effect. */
  lemma UpdateIdempotent(t: Table, key: string, values: map<string, Cell>)
    ensures UpdateByKey(UpdateByKey(t, key, values), key, values) == UpdateByKey(t, key, values)
  {
    var once := UpdateByKey(t, key, values);
    var twice := UpdateByKey(once, key, values);
    forall i | 0 <= i < |t.rows| ensures twice.rows[i] == once.rows[i] {
      if HasKey(t.rows[i], key) {
        assert once.rows[i].cells + values == once.rows[i].cells;
      }
    }
  }

  lemma DeleteIdempotent(t: Table, key: string)
    ensures DeleteByKey(DeleteByKey(t, key), key) == DeleteByKey(t, key)
  {
    FilterIdempotent(t.rows, x => !HasKey(x, key));
  }

  /** After DELETE no row has the key any more. */
  lemma DeleteRemovesKey(t: Table, key: string)
    ensures SelectByKey(DeleteByKey(t, key), key) == []
  {
    var d := DeleteByKey(t, key);
    FilterKeepsNone(d.rows, x => HasKey(x, key));
  }

  /** The row an INSERT adds is the one its id selects afterwards. */
  lemma InsertThenSelect(t: Table, cells: map<string, Cell>)
    requires Valid(t)
    ensures SelectByKey(Insert(t, cells), IntToString(t.nextId)) == [Row(t.nextId, cells)]
  {
    var u := Insert(t, cells);
    var key := IntToString(t.nextId);
    NumberOfIntToString(t.nextId);
    assert HasKey(Row(t.nextId, cells), key);
    forall x | x in u.rows && x != Row(t.nextId, cells) ensures !HasKey(x, key) {
      var k :| 0 <= k < |u.rows| && u.rows[k] == x;
      assert k < |t.rows|;
    }
    InsertValid(t, cells);
    KeySelectsAtMostOne(u, key);
    var r := SelectByKey(u, key);
    assert Row(t.nextId, cells) in u.rows;
    assert r[0] in r;
  }
}
