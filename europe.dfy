/**
 * The Europe extract (filter.py): keep the rows whose continent is Europe,
 * then keep ten fixed columns in a fixed order.
 */
module Europe {
  import opened Tables

  const ContinentColumn := "continent"
  const TargetContinent := "Europe"

  /** The ten kept columns, in output order. */
  const KeptColumns: seq<string> := [
    "continent", "location", "date", "total_cases", "new_cases",
    "total_deaths", "new_deaths", "total_tests", "new_tests", "aged_65_older"
  ]

  /** Line 28's mask: `df['continent'] == 'Europe'`; a missing continent never matches. */
  predicate InTarget(r: Row)
    ensures InTarget(r) ==> ContinentColumn in r && r[ContinentColumn] == Str(TargetContinent)
  {
    Get(r, ContinentColumn) == Str(TargetContinent)
  }

  /** Lines 28 and 31: select the European rows, then project onto the kept columns. */
  function Extract(df: Frame): (out: Frame)
    requires forall c :: c in KeptColumns ==> c in df.columns
    ensures out.columns == KeptColumns
    ensures WellFormed(out)
    ensures |out.rows| <= |df.rows|
    ensures forall r :: r in out.rows ==> Get(r, ContinentColumn) == Str(TargetContinent)
    ensures forall r :: r in df.rows && InTarget(r) ==> Restrict(r, KeptColumns) in out.rows
    ensures forall x :: x in out.rows ==> exists r :: r in df.rows && InTarget(r) && x == Restrict(r, KeptColumns)
  {
    var europe := Filter(df, InTarget);
    KeptColumnsDistinct();
    ProjectionKeepsRows(europe);
    Project(europe, KeptColumns)
  }

  lemma KeptColumnsDistinct()
    ensures Distinct(KeptColumns)
  {
  }

  /** A row is in the projection iff it is the cut-down form of some row of the frame. */
  lemma ProjectionKeepsRows(f: Frame)
    requires forall c :: c in KeptColumns ==> c in f.columns
    ensures forall r :: r in f.rows ==> Restrict(r, KeptColumns) in Project(f, KeptColumns).rows
    ensures forall x :: x in Project(f, KeptColumns).rows ==> exists r :: r in f.rows && x == Restrict(r, KeptColumns)
  {
    var out := Project(f, KeptColumns);
    forall r | r in f.rows ensures Restrict(r, KeptColumns) in out.rows {
      var i :| 0 <= i < |f.rows| && f.rows[i] == r;
      assert out.rows[i] == Restrict(r, KeptColumns);
    }
    forall x | x in out.rows ensures exists r :: r in f.rows && x == Restrict(r, KeptColumns) {
      var i :| 0 <= i < |out.rows| && out.rows[i] == x;
      assert f.rows[i] in f.rows;
    }
  }

  /** The extract works row by row: the output keeps the input's relative order. */
  lemma {:induction false} ExtractAppend(cols: seq<string>, a: seq<Row>, b: seq<Row>)
    requires forall c :: c in KeptColumns ==> c in cols
    ensures Extract(Frame(cols, a + b)).rows == Extract(Frame(cols, a)).rows + Extract(Frame(cols, b)).rows
  {
    SelectAppend(a, b, InTarget);
    MapRowsAppend(Select(a, InTarget), Select(b, InTarget), r => Restrict(r, KeptColumns));
  }

  /** A single row: kept, cut to the ten columns with its values unchanged, iff its continent is Europe. */
  lemma ExtractOne(cols: seq<string>, r: Row)
    requires forall c :: c in KeptColumns ==> c in cols
    ensures Extract(Frame(cols, [r])).rows == if InTarget(r) then [Restrict(r, KeptColumns)] else []
  {
    SelectOne(r, InTarget);
  }
}
