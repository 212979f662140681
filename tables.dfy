/**
 * The table model shared by the dashboard and the Europe extract: a frame is
 * an ordered list of column names and an ordered list of rows, each row a
 * map from column name to cell value. The operations here are the pandas
 * idioms the two scripts use: `df[mask]`, `df[name] = ...`, `df[cols]` and
 * `Series.unique()`.
 */
module Tables {
  import opened Opt
  import opened Calendar

  /** A cell: missing (NaN/None/NaT), text, a number, or a parsed timestamp. */
  datatype Value = Null | Str(s: string) | Num(n: int) | Time(t: Timestamp)

  type Row = map<string, Value>

  datatype Frame = Frame(columns: seq<string>, rows: seq<Row>)

  /** A selectbox answer naming a column, or nothing. */
  type Pick = Option<string>

  /** Python truthiness of a selectbox answer: a non-empty column name. */
  predicate Chosen(p: Pick) {
    p.Some? && p.value != ""
  }

  /** The cell of a row in a column; a column the row lacks reads as missing. */
  function Get(r: Row, c: string): Value {
    if c in r then r[c] else Null
  }

  /** The values of one column, in row order (`df[c]`). */
  function Column(rows: seq<Row>, c: string): (vs: seq<Value>)
    ensures |vs| == |rows|
    ensures forall i :: 0 <= i < |rows| ==> vs[i] == Get(rows[i], c)
    ensures forall r :: r in rows ==> Get(r, c) in vs
    ensures forall v :: v in vs ==> exists r :: r in rows && Get(r, c) == v
  {
    var vs := seq(|rows|, i requires 0 <= i < |rows| => Get(rows[i], c));
    assert forall i :: 0 <= i < |rows| ==> vs[i] == Get(rows[i], c);
    vs
  }

  predicate Distinct<T(==)>(s: seq<T>) {
    forall i, j :: 0 <= i < j < |s| ==> s[i] != s[j]
  }

  function ColumnSet(cols: seq<string>): set<string> {
    set c | c in cols
  }

  /** Column names are unique and every row has exactly the frame's columns. */
  predicate WellFormed(f: Frame) {
    Distinct(f.columns) && forall r :: r in f.rows ==> r.Keys == ColumnSet(f.columns)
  }

  /** Applies a per-row transformation, keeping row order. */
  function MapRows(rows: seq<Row>, f: Row -> Row): (out: seq<Row>)
    ensures |out| == |rows|
    ensures forall i :: 0 <= i < |rows| ==> out[i] == f(rows[i])
  {
    if rows == [] then [] else [f(rows[0])] + MapRows(rows[1..], f)
  }

  /** Transforming a concatenation transforms each part. */
  lemma MapRowsAppend(a: seq<Row>, b: seq<Row>, f: Row -> Row)
    ensures MapRows(a + b, f) == MapRows(a, f) + MapRows(b, f)
  {
    assert forall i :: 0 <= i < |a + b| ==> MapRows(a + b, f)[i] == (MapRows(a, f) + MapRows(b, f))[i];
  }

  /** Boolean-mask selection: the rows that satisfy `keep`, in their original order. */
  function Select(rows: seq<Row>, keep: Row -> bool): (out: seq<Row>)
    ensures |out| <= |rows|
    ensures forall r :: r in out <==> r in rows && keep(r)
  {
    if rows == [] then []
    else (if keep(rows[0]) then [rows[0]] else []) + Select(rows[1..], keep)
  }

  /** Selection distributes over concatenation, so relative order is preserved. */
  lemma {:induction false} SelectAppend(a: seq<Row>, b: seq<Row>, keep: Row -> bool)
    ensures Select(a + b, keep) == Select(a, keep) + Select(b, keep)
  {
    if a == [] {
      assert a + b == b;
    } else {
      assert (a + b)[0] == a[0];
      assert (a + b)[1..] == a[1..] + b;
      SelectAppend(a[1..], b, keep);
    }
  }

  /** Selection from a single row. */
  lemma SelectOne(r: Row, keep: Row -> bool)
    ensures Select([r], keep) == if keep(r) then [r] else []
  {
    assert [r][1..] == [];
  }

  /** Selecting twice is selecting once with the conjunction of the two masks (`m1 & m2`). */
  lemma {:induction false} SelectSelect(rows: seq<Row>, p: Row -> bool, q: Row -> bool, both: Row -> bool)
    requires forall r :: r in rows ==> both(r) == (p(r) && q(r))
    ensures Select(Select(rows, p), q) == Select(rows, both)
  {
    if rows != [] {
      SelectSelect(rows[1..], p, q, both);
      var head := if p(rows[0]) then [rows[0]] else [];
      SelectAppend(head, Select(rows[1..], p), q);
    }
  }

  /** A mask that every row passes selects the whole table. */
  lemma {:induction false} SelectAll(rows: seq<Row>, keep: Row -> bool)
    requires forall r :: r in rows ==> keep(r)
    ensures Select(rows, keep) == rows
  {
    if rows != [] {
      SelectAll(rows[1..], keep);
    }
  }

  /** Masks that agree on every row select the same rows. */
  lemma {:induction false} SelectSame(rows: seq<Row>, p: Row -> bool, q: Row -> bool)
    requires forall r :: r in rows ==> p(r) == q(r)
    ensures Select(rows, p) == Select(rows, q)
  {
    if rows != [] {
      SelectSame(rows[1..], p, q);
    }
  }

  /** `df[mask]`: keeps the columns and selects the rows. */
  function Filter(f: Frame, keep: Row -> bool): (g: Frame)
    ensures g.columns == f.columns && g.rows == Select(f.rows, keep)
    ensures WellFormed(f) ==> WellFormed(g)
  {
    Frame(f.columns, Select(f.rows, keep))
  }

  /** The column list after assigning `df[name]`: an existing column keeps its place, a new one goes last. */
  function AddColumnName(cols: seq<string>, name: string): (r: seq<string>)
    ensures ColumnSet(r) == ColumnSet(cols) + {name}
    ensures Distinct(cols) ==> Distinct(r)
    ensures |cols| <= |r| && r[..|cols|] == cols
  {
    if name in cols then cols else cols + [name]
  }

  /** `df[name] = value(row)` for every row. */
  function WithColumn(f: Frame, name: string, value: Row -> Value): (g: Frame)
    ensures g.columns == AddColumnName(f.columns, name)
    ensures |g.rows| == |f.rows|
    ensures forall i :: 0 <= i < |f.rows| ==> g.rows[i] == f.rows[i][name := value(f.rows[i])]
    ensures WellFormed(f) ==> WellFormed(g)
  {
    var rows := MapRows(f.rows, r => r[name := value(r)]);
    AssignedColumnWellFormed(f, name, rows);
    Frame(AddColumnName(f.columns, name), rows)
  }

  lemma AssignedColumnWellFormed(f: Frame, name: string, rows: seq<Row>)
    requires |rows| == |f.rows|
    requires forall i :: 0 <= i < |f.rows| ==> rows[i].Keys == f.rows[i].Keys + {name}
    ensures WellFormed(f) ==> WellFormed(Frame(AddColumnName(f.columns, name), rows))
  {
    if WellFormed(f) {
      forall r | r in rows ensures r.Keys == ColumnSet(AddColumnName(f.columns, name)) {
        var i :| 0 <= i < |rows| && rows[i] == r;
        assert f.rows[i] in f.rows;
      }
    }
  }

  /** A row cut down to the given columns (`row[cols]`). */
  function Restrict(r: Row, cols: seq<string>): (p: Row)
    ensures p.Keys == ColumnSet(cols)
    ensures forall c :: c in cols ==> p[c] == Get(r, c)
  {
    map c | c in cols :: Get(r, c)
  }

  /** `df[cols]`: every listed column must exist (pandas raises KeyError otherwise). */
  function Project(f: Frame, cols: seq<string>): (g: Frame)
    requires forall c :: c in cols ==> c in f.columns
    ensures g.columns == cols && |g.rows| == |f.rows|
    ensures forall i :: 0 <= i < |f.rows| ==> g.rows[i] == Restrict(f.rows[i], cols)
    ensures Distinct(cols) ==> WellFormed(g)
  {
    Frame(cols, MapRows(f.rows, r => Restrict(r, cols)))
  }

  /**
   * `Series.unique().tolist()`: every value of the column once, in the order
   * of first appearance.
   */
  function Uniques(vals: seq<Value>): (u: seq<Value>)
    ensures Distinct(u)
    ensures forall v :: v in u <==> v in vals
    ensures |u| <= |vals|
  {
    if vals == [] then []
    else
      var u := Uniques(vals[..|vals| - 1]);
      var v := vals[|vals| - 1];
      assert vals == vals[..|vals| - 1] + [v];
      if v in u then u else u + [v]
  }

  /** First-appearance order: the unique values of a prefix come first, in the same order. */
  lemma {:induction false} UniquesPrefix(a: seq<Value>, b: seq<Value>)
    ensures |Uniques(a)| <= |Uniques(a + b)|
    ensures Uniques(a + b)[..|Uniques(a)|] == Uniques(a)
  {
    if b != [] {
      var b' := b[..|b| - 1];
      assert (a + b)[..|a + b| - 1] == a + b';
      UniquesPrefix(a, b');
    } else {
      assert a + b == a;
    }
  }
}
