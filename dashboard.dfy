/**
 * The filter-and-shape pipeline of the dashboard script
 * (DataSetProject.py, lines 31-63): the chosen column is parsed as dates,
 * unparsable rows are dropped, year and month-name columns are derived, the
 * date bounds are computed, and the table is narrowed by an inclusive date
 * range and by a categorical selection.
 */
module Dashboard {
  import opened Opt
  import opened Calendar
  import opened Tables
  import Text

  /** Names of the two derived columns. */
  const YearColumn := "Yıl"
  const MonthColumn := "Ay"

  /**
   * The date parser behind `pd.to_datetime`, left uninterpreted: it maps a
   * raw cell to a timestamp or reports failure.
   */
  type Parser = Value -> Option<Timestamp>

  /**
   * `pd.to_datetime(..., errors='coerce')` on one cell: a timestamp is kept
   * as it is, a missing cell stays missing, anything else goes to the parser.
   */
  function ToDatetime(parse: Parser, v: Value): (t: Option<Timestamp>)
    ensures v.Time? ==> t == Some(v.t)
    ensures v.Null? ==> t.None?
  {
    match v
    case Null => None
    case Time(s) => Some(s)
    case _ => parse(v)
  }

  /** A coerced cell: NaT for a failed parse. */
  function AsCell(t: Option<Timestamp>): Value {
    match t
    case None => Null
    case Some(s) => Time(s)
  }

  /** `.dt.year.astype(str)` on one cell. */
  function YearCell(v: Value): Value {
    match v
    case Time(t) => Str(Text.NatToString(t.date.year))
    case _ => Null
  }

  /** `.dt.month_name()` on one cell. */
  function MonthCell(v: Value): Value {
    match v
    case Time(t) => Str(MonthName(t.date.month))
    case _ => Null
  }

  // The statements of the script, one function each.

  /** Line 41: the date column replaced by its coerced timestamps. */
  function ParseDates(parse: Parser, f: Frame, c: string): (g: Frame)
    ensures c in f.columns ==> g.columns == f.columns
    ensures |g.rows| == |f.rows|
    ensures forall r :: r in g.rows ==> Get(r, c).Time? || Get(r, c).Null?
    ensures forall i :: 0 <= i < |f.rows| ==> Get(g.rows[i], c) == AsCell(ToDatetime(parse, Get(f.rows[i], c)))
  {
    WithColumn(f, c, r => AsCell(ToDatetime(parse, Get(r, c))))
  }

  /** Line 42: `dropna(subset=[c])`. */
  function DropUnparsed(f: Frame, c: string): (g: Frame)
    ensures g.columns == f.columns && |g.rows| <= |f.rows|
    ensures forall r :: r in g.rows <==> r in f.rows && Get(r, c) != Null
  {
    Filter(f, r => Get(r, c) != Null)
  }

  /** Line 46: the year column. */
  function AddYear(f: Frame, c: string): (g: Frame)
    requires DateColumnOk(c)
    ensures |g.rows| == |f.rows| && YearColumn in g.columns
    ensures forall r :: r in g.rows && Get(r, c).Time? ==> Get(r, YearColumn) == Str(Text.NatToString(Get(r, c).t.date.year))
  {
    WithColumn(f, YearColumn, r => YearCell(Get(r, c)))
  }

  /** Line 47: the month-name column. */
  function AddMonth(f: Frame, c: string): (g: Frame)
    requires DateColumnOk(c)
    ensures |g.rows| == |f.rows| && MonthColumn in g.columns
    ensures forall r :: r in g.rows && Get(r, c).Time? ==> Get(r, MonthColumn) == Str(MonthName(Get(r, c).t.date.month))
  {
    WithColumn(f, MonthColumn, r => MonthCell(Get(r, c)))
  }

  /** Line 56's mask: the calendar date of the cell lies in [lo, hi]; the time of day plays no part. */
  predicate InRange(r: Row, c: string, lo: Date, hi: Date)
    ensures InRange(r, c, lo, hi) ==> Get(r, c).Time? && DateLe(lo, hi)
  {
    match Get(r, c)
    case Time(t) => DateLe(lo, t.date) && DateLe(t.date, hi)
    case _ => false
  }

  /** Line 56. */
  function RestrictToRange(f: Frame, c: string, lo: Date, hi: Date): (g: Frame)
    ensures g.columns == f.columns && |g.rows| <= |f.rows|
    ensures forall r :: r in g.rows ==> r in f.rows && Get(r, c).Time? && DateLe(lo, Get(r, c).t.date) && DateLe(Get(r, c).t.date, hi)
    ensures forall r :: r in f.rows && Get(r, c).Time? && DateLe(lo, Get(r, c).t.date) && DateLe(Get(r, c).t.date, hi) ==> r in g.rows
  {
    Filter(f, r => InRange(r, c, lo, hi))
  }

  /** Line 63: `df[df[c].isin(sel)]`. */
  function RestrictToSelection(f: Frame, c: string, sel: seq<Value>): (g: Frame)
    ensures g.columns == f.columns && |g.rows| <= |f.rows|
    ensures forall r :: r in g.rows <==> r in f.rows && Get(r, c) in sel
  {
    Filter(f, r => Get(r, c) in sel)
  }

  // The reference definition of date normalisation, one row at a time.

  /** The normalised form of a row whose date cell parsed to `t`. */
  function Derived(r: Row, c: string, t: Timestamp): Row {
    r[c := Time(t)][YearColumn := Str(Text.NatToString(t.date.year))][MonthColumn := Str(MonthName(t.date.month))]
  }

  /** A date column that is not overwritten by one of the derived columns. */
  predicate DateColumnOk(c: string) {
    c != YearColumn && c != MonthColumn
  }

  /** A normalised row: its date cell holds a timestamp and the derived cells agree with it. */
  predicate Normalised(r: Row, c: string) {
    && Get(r, c).Time?
    && Get(r, YearColumn) == Str(Text.NatToString(Get(r, c).t.date.year))
    && Get(r, MonthColumn) == Str(MonthName(Get(r, c).t.date.month))
  }

  /**
   * Date normalisation: every row whose date cell parses is kept, in order,
   * with its timestamp and derived year and month; every other row is dropped.
   */
  function NormalizeRows(parse: Parser, rows: seq<Row>, c: string): (out: seq<Row>)
    requires DateColumnOk(c)
    ensures |out| <= |rows|
    ensures forall r :: r in out ==> Normalised(r, c)
  {
    if rows == [] then []
    else
      var rest := NormalizeRows(parse, rows[1..], c);
      match ToDatetime(parse, Get(rows[0], c))
      case None => rest
      case Some(t) => [Derived(rows[0], c, t)] + rest
  }

  /** The column list after normalisation (line 50). */
  function NormalizedColumns(cols: seq<string>): (r: seq<string>)
    ensures ColumnSet(r) == ColumnSet(cols) + {YearColumn, MonthColumn}
    ensures |cols| <= |r| && r[..|cols|] == cols
    ensures Distinct(cols) ==> Distinct(r)
  {
    AddColumnName(AddColumnName(cols, YearColumn), MonthColumn)
  }

  /** The four pandas statements of lines 41-47 compute the reference normalisation. */
  lemma {:induction false} NormalizeStagesMatch(parse: Parser, f: Frame, c: string)
    requires DateColumnOk(c)
    ensures AddMonth(AddYear(DropUnparsed(ParseDates(parse, f, c), c), c), c).rows == NormalizeRows(parse, f.rows, c)
    decreases |f.rows|
  {
    if f.rows != [] {
      var t := Frame(f.columns, f.rows[1..]);
      NormalizeStagesMatch(parse, t, c);
      var p, p' := ParseDates(parse, f, c).rows, ParseDates(parse, t, c).rows;
      assert p == [p[0]] + p';
      var keep := (r: Row) => Get(r, c) != Null;
      SelectAppend([p[0]], p', keep);
      SelectOne(p[0], keep);
      var d, d' := DropUnparsed(ParseDates(parse, f, c), c), DropUnparsed(ParseDates(parse, t, c), c);
      var y, y' := AddYear(d, c).rows, AddYear(d', c).rows;
      var m, m' := AddMonth(AddYear(d, c), c).rows, AddMonth(AddYear(d', c), c).rows;
      match ToDatetime(parse, Get(f.rows[0], c))
      case None =>
        assert d.rows == d'.rows;
        assert y == y';
        assert m == m';
      case Some(s) =>
        assert d.rows == [p[0]] + d'.rows;
        assert y == [y[0]] + y';
        assert m == [m[0]] + m';
        assert m[0] == Derived(f.rows[0], c, s);
    }
  }

  /** Normalisation is row by row: normalising a concatenation normalises each part, keeping order. */
  lemma {:induction false} NormalizeAppend(parse: Parser, a: seq<Row>, b: seq<Row>, c: string)
    requires DateColumnOk(c)
    ensures NormalizeRows(parse, a + b, c) == NormalizeRows(parse, a, c) + NormalizeRows(parse, b, c)
  {
    if a == [] {
      assert a + b == b;
    } else {
      assert (a + b)[0] == a[0];
      assert (a + b)[1..] == a[1..] + b;
      NormalizeAppend(parse, a[1..], b, c);
    }
  }

  /** A row whose date cell parses survives normalisation, in its derived form. */
  lemma {:induction false} NormalizeKeepsParsed(parse: Parser, rows: seq<Row>, c: string, i: nat)
    requires DateColumnOk(c) && i < |rows|
    requires ToDatetime(parse, Get(rows[i], c)).Some?
    ensures Derived(rows[i], c, ToDatetime(parse, Get(rows[i], c)).value) in NormalizeRows(parse, rows, c)
  {
    if i > 0 {
      NormalizeKeepsParsed(parse, rows[1..], c, i - 1);
    }
  }

  /** Every normalised row comes from an input row whose date cell parsed. */
  lemma {:induction false} NormalizeOnlyParsed(parse: Parser, rows: seq<Row>, c: string, x: Row)
    requires DateColumnOk(c) && x in NormalizeRows(parse, rows, c)
    ensures exists r :: r in rows && ToDatetime(parse, Get(r, c)).Some? && x == Derived(r, c, ToDatetime(parse, Get(r, c)).value)
  {
    if x !in NormalizeRows(parse, rows[1..], c) {
      assert x == Derived(rows[0], c, ToDatetime(parse, Get(rows[0], c)).value);
    } else {
      NormalizeOnlyParsed(parse, rows[1..], c, x);
      var r :| r in rows[1..] && ToDatetime(parse, Get(r, c)).Some? && x == Derived(r, c, ToDatetime(parse, Get(r, c)).value);
      assert r in rows;
    }
  }

  /** Cells outside the date and derived columns are carried over unchanged. */
  lemma {:induction false} NormalizeKeepsOtherCells(parse: Parser, rows: seq<Row>, c: string, k: string, x: Row)
    requires DateColumnOk(c) && k != c && k != YearColumn && k != MonthColumn
    requires x in NormalizeRows(parse, rows, c)
    ensures Get(x, k) in Column(rows, k)
  {
    NormalizeOnlyParsed(parse, rows, c, x);
    var r :| r in rows && ToDatetime(parse, Get(r, c)).Some? && x == Derived(r, c, ToDatetime(parse, Get(r, c)).value);
    assert Get(x, k) == Get(r, k);
  }

  /** Normalising an already normalised table on the same column changes nothing. */
  lemma {:induction false} NormalizeIdempotent(parse: Parser, rows: seq<Row>, c: string)
    requires DateColumnOk(c)
    ensures NormalizeRows(parse, NormalizeRows(parse, rows, c), c) == NormalizeRows(parse, rows, c)
  {
    if rows != [] {
      var rest := NormalizeRows(parse, rows[1..], c);
      NormalizeIdempotent(parse, rows[1..], c);
      match ToDatetime(parse, Get(rows[0], c))
      case None =>
      case Some(t) =>
        var d := Derived(rows[0], c, t);
        var out := [d] + rest;
        assert out[0] == d && out[1..] == rest;
        assert ToDatetime(parse, Get(d, c)) == Some(t);
        assert Derived(d, c, t) == d;
    }
  }

  // Date bounds (lines 52-53).

  predicate AllStamped(rows: seq<Row>, c: string) {
    forall r :: r in rows ==> Get(r, c).Time?
  }

  /** `df[c].min()`. */
  function Earliest(rows: seq<Row>, c: string): (t: Timestamp)
    requires rows != [] && AllStamped(rows, c)
    ensures exists r :: r in rows && Get(r, c) == Time(t)
    ensures forall r :: r in rows ==> StampLe(t, Get(r, c).t)
  {
    var h := Get(rows[0], c).t;
    if |rows| == 1 then h
    else
      var m := Earliest(rows[1..], c);
      assert forall r :: r in rows ==> r == rows[0] || r in rows[1..];
      if StampLe(h, m) then h else m
  }

  /** `df[c].max()`. */
  function Latest(rows: seq<Row>, c: string): (t: Timestamp)
    requires rows != [] && AllStamped(rows, c)
    ensures exists r :: r in rows && Get(r, c) == Time(t)
    ensures forall r :: r in rows ==> StampLe(Get(r, c).t, t)
  {
    var h := Get(rows[0], c).t;
    if |rows| == 1 then h
    else
      var m := Latest(rows[1..], c);
      assert forall r :: r in rows ==> r == rows[0] || r in rows[1..];
      if StampLe(m, h) then h else m
  }

  datatype DateBounds = DateBounds(lo: Date, hi: Date)

  /**
   * The calendar dates of the earliest and latest timestamps: lo <= hi, each
   * is the date of some row, and every row's date lies between them.
   */
  function BoundsOf(rows: seq<Row>, c: string): (b: DateBounds)
    requires rows != [] && AllStamped(rows, c)
    ensures DateLe(b.lo, b.hi)
    ensures exists r :: r in rows && Get(r, c).Time? && Get(r, c).t.date == b.lo
    ensures exists r :: r in rows && Get(r, c).Time? && Get(r, c).t.date == b.hi
    ensures forall r :: r in rows ==> DateLe(b.lo, Get(r, c).t.date) && DateLe(Get(r, c).t.date, b.hi)
  {
    var lo, hi := Earliest(rows, c), Latest(rows, c);
    assert StampLe(lo, hi) by {
      var r :| r in rows && Get(r, c) == Time(lo);
      StampLeTotalOrder(lo, Get(rows[0], c).t, hi);
    }
    forall r | r in rows ensures DateLe(lo.date, Get(r, c).t.date) && DateLe(Get(r, c).t.date, hi.date) {
      StampLeDate(lo, Get(r, c).t);
      StampLeDate(Get(r, c).t, hi);
    }
    StampLeDate(lo, hi);
    DateBounds(lo.date, hi.date)
  }

  /** Time of day never matters to the range test: only the calendar date is compared. */
  lemma InRangeIgnoresTime(r: Row, c: string, lo: Date, hi: Date, d: Date, s: SecondOfDay)
    ensures InRange(r[c := Time(Timestamp(d, s))], c, lo, hi) == (DateLe(lo, d) && DateLe(d, hi))
  {
  }

  // The widget answers and the combined filter.

  /**
   * What the user picked: the date column, the tuple returned by the date
   * range widget, the categorical filter column and its multiselect.
   */
  datatype Controls = Controls(dateCol: Pick, picked: seq<Date>, locCol: Pick, sel: seq<Value>)

  /** The script's own preconditions on the picks (a KeyError or a clobbered date column otherwise). */
  predicate ValidControls(df: Frame, ctl: Controls) {
    && (Chosen(ctl.dateCol) ==> ctl.dateCol.value in df.columns && DateColumnOk(ctl.dateCol.value))
    && (Chosen(ctl.locCol) ==> ctl.locCol.value in df.columns)
  }

  /** The range filter runs only for a chosen date column and a full two-date range (line 55). */
  predicate RangeApplies(ctl: Controls) {
    Chosen(ctl.dateCol) && |ctl.picked| == 2
  }

  predicate RangeOk(ctl: Controls, r: Row) {
    RangeApplies(ctl) ==> InRange(r, ctl.dateCol.value, ctl.picked[0], ctl.picked[1])
  }

  /** An empty multiselect filters nothing (line 63). */
  predicate SelectionApplies(ctl: Controls) {
    Chosen(ctl.locCol) && |ctl.sel| > 0
  }

  predicate SelectionOk(ctl: Controls, r: Row) {
    SelectionApplies(ctl) ==> Get(r, ctl.locCol.value) in ctl.sel
  }

  predicate Keep(ctl: Controls, r: Row) {
    RangeOk(ctl, r) && SelectionOk(ctl, r)
  }

  /** The rows the filters see: the normalised rows when a date column is chosen, else the table's own. */
  function Base(parse: Parser, rows: seq<Row>, ctl: Controls): seq<Row>
    requires Chosen(ctl.dateCol) ==> DateColumnOk(ctl.dateCol.value)
  {
    if Chosen(ctl.dateCol) then NormalizeRows(parse, rows, ctl.dateCol.value) else rows
  }

  /**
   * The filtered table: a row survives iff its date parsed (when a date
   * column is chosen), its date lies in the range (when one is applied) and
   * its category is selected (when the selection is non-empty).
   */
  function Survivors(parse: Parser, rows: seq<Row>, ctl: Controls): (out: seq<Row>)
    requires Chosen(ctl.dateCol) ==> DateColumnOk(ctl.dateCol.value)
    ensures |out| <= |rows|
    ensures forall r :: r in out <==> r in Base(parse, rows, ctl) && RangeOk(ctl, r) && SelectionOk(ctl, r)
  {
    Select(Base(parse, rows, ctl), r => Keep(ctl, r))
  }

  /** Filtering is row by row, so relative row order is preserved. */
  lemma SurvivorsAppend(parse: Parser, a: seq<Row>, b: seq<Row>, ctl: Controls)
    requires Chosen(ctl.dateCol) ==> DateColumnOk(ctl.dateCol.value)
    ensures Survivors(parse, a + b, ctl) == Survivors(parse, a, ctl) + Survivors(parse, b, ctl)
  {
    if Chosen(ctl.dateCol) {
      NormalizeAppend(parse, a, b, ctl.dateCol.value);
    }
    SelectAppend(Base(parse, a, ctl), Base(parse, b, ctl), r => Keep(ctl, r));
  }

  /** With no date column and no effective selection, the table passes through unchanged. */
  lemma NoFiltersKeepTable(parse: Parser, rows: seq<Row>, ctl: Controls)
    requires !Chosen(ctl.dateCol) && !SelectionApplies(ctl)
    ensures Survivors(parse, rows, ctl) == rows
  {
    SelectAll(rows, r => Keep(ctl, r));
  }

  /** An empty multiselect is the same as no categorical filter at all, not an exclude-all. */
  lemma EmptySelectionIsNoFilter(parse: Parser, rows: seq<Row>, ctl: Controls)
    requires Chosen(ctl.dateCol) ==> DateColumnOk(ctl.dateCol.value)
    requires ctl.sel == []
    ensures Survivors(parse, rows, ctl) == Survivors(parse, rows, ctl.(locCol := None))
  {
    var none := ctl.(locCol := None);
    assert Base(parse, rows, ctl) == Base(parse, rows, none);
    assert forall r :: Keep(ctl, r) == Keep(none, r);
    SelectSame(Base(parse, rows, ctl), r => Keep(ctl, r), r => Keep(none, r));
  }

  /**
   * The default selection, every unique value of the original column
   * (lines 61-62), keeps every row: it filters exactly as no selection does.
   * This needs the filter column to be neither the date column nor a derived one,
   * whose cells the normalisation rewrites.
   */
  lemma DefaultSelectionKeepsEveryRow(parse: Parser, df: Frame, ctl: Controls)
    requires Chosen(ctl.dateCol) ==> DateColumnOk(ctl.dateCol.value)
    requires Chosen(ctl.locCol) && ctl.sel == Uniques(Column(df.rows, ctl.locCol.value))
    requires Chosen(ctl.dateCol) ==> ctl.locCol.value != ctl.dateCol.value && DateColumnOk(ctl.locCol.value)
    ensures Survivors(parse, df.rows, ctl) == Survivors(parse, df.rows, ctl.(sel := []))
  {
    var k := ctl.locCol.value;
    var all := ctl.(sel := []);
    var base := Base(parse, df.rows, ctl);
    assert base == Base(parse, df.rows, all);
    BaseKeepsCells(parse, df.rows, ctl, k);
    forall r | r in base ensures Keep(ctl, r) == Keep(all, r) {
      assert Get(r, k) in Column(df.rows, k);
    }
    SelectSame(base, r => Keep(ctl, r), r => Keep(all, r));
  }

  /** The cells of a column that normalisation does not rewrite come from the original table. */
  lemma BaseKeepsCells(parse: Parser, rows: seq<Row>, ctl: Controls, k: string)
    requires Chosen(ctl.dateCol) ==> DateColumnOk(ctl.dateCol.value)
    requires Chosen(ctl.dateCol) ==> k != ctl.dateCol.value && DateColumnOk(k)
    ensures forall r :: r in Base(parse, rows, ctl) ==> Get(r, k) in Column(rows, k)
  {
    forall r | r in Base(parse, rows, ctl) ensures Get(r, k) in Column(rows, k) {
      if Chosen(ctl.dateCol) {
        NormalizeKeepsOtherCells(parse, rows, ctl.dateCol.value, k, r);
      }
    }
  }

  /**
   * Lines 31-63: the table is copied and threaded through the stages; the
   * original is never changed. Returns the filtered table, the column list
   * offered to the chart settings, the date bounds when there are any, and
   * the options of the categorical multiselect.
   */
  method Pipeline(parse: Parser, df: Frame, ctl: Controls)
    returns (filtered: Frame, columns: seq<string>, bounds: Option<DateBounds>, options: seq<Value>)
    requires WellFormed(df) && ValidControls(df, ctl)
    ensures filtered.rows == Survivors(parse, df.rows, ctl)
    ensures filtered.columns == if Chosen(ctl.dateCol) then NormalizedColumns(df.columns) else df.columns
    ensures columns == filtered.columns
    ensures WellFormed(filtered)
    ensures bounds.Some? <==> Chosen(ctl.dateCol) && Base(parse, df.rows, ctl) != []
    ensures bounds.Some? ==> bounds.value == BoundsOf(Base(parse, df.rows, ctl), ctl.dateCol.value)
    ensures options == if Chosen(ctl.locCol) then Uniques(Column(df.rows, ctl.locCol.value)) else []
  {
    filtered := df;
    columns := df.columns;
    bounds := None;
    options := [];
    var base := Base(parse, df.rows, ctl);
    if Chosen(ctl.dateCol) {
      var c := ctl.dateCol.value;
      filtered := ParseDates(parse, filtered, c);
      filtered := DropUnparsed(filtered, c);
      filtered := AddYear(filtered, c);
      filtered := AddMonth(filtered, c);
      NormalizeStagesMatch(parse, df, c);
      columns := filtered.columns;
      if |filtered.rows| > 0 {
        bounds := Some(BoundsOf(filtered.rows, c));
        if |ctl.picked| == 2 {
          filtered := RestrictToRange(filtered, c, ctl.picked[0], ctl.picked[1]);
          SelectSame(base, r => InRange(r, c, ctl.picked[0], ctl.picked[1]), r => RangeOk(ctl, r));
        }
      }
    }
    if !RangeApplies(ctl) {
      SelectAll(base, r => RangeOk(ctl, r));
    }
    assert filtered.rows == Select(base, r => RangeOk(ctl, r));
    ghost var ranged := filtered.rows;
    if Chosen(ctl.locCol) {
      var k := ctl.locCol.value;
      options := Uniques(Column(df.rows, k));
      if |ctl.sel| > 0 {
        filtered := RestrictToSelection(filtered, k, ctl.sel);
        SelectSame(ranged, r => Get(r, k) in ctl.sel, r => SelectionOk(ctl, r));
      }
    }
    if !SelectionApplies(ctl) {
      SelectAll(ranged, r => SelectionOk(ctl, r));
    }
    SelectSelect(base, r => RangeOk(ctl, r), r => SelectionOk(ctl, r), r => Keep(ctl, r));
  }
}
