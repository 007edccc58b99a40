/** Tables as the pipeline's dataframes hold them: an ordered list of column
    names and a list of rows, each row a map from column name to cell.
    Geometry is opaque: only equality between geometries is ever used. */
module Frames {

  datatype Option<T> = None | Some(value: T)

  /** The exceptions the pipeline can raise, by Python class. */
  datatype Error =
    | KeyError(column: string)
    | ValueError(message: string)
    | TypeError(column: string)
    | MergeError
    | IndexError(message: string)
    | AttributeError(name: string)

  datatype Result<T> = Ok(value: T) | Err(error: Error)

  /** A point in geographic coordinates, or a road segment's line. */
  datatype Geom = Point(x: real, y: real) | Line(coords: seq<(real, real)>)

  /** A calendar day, as a parsed `tag` holds it. */
  datatype Date = Date(year: nat, month: nat, day: nat)

  /** One cell of a dataframe. `Missing` stands for NaN, None and NaT alike. */
  datatype Cell =
    | Missing
    | Int(i: int)
    | Num(r: real)
    | Text(s: string)
    | TextList(items: seq<string>)
    | Geo(g: Geom)
    | Day(d: Date)

  type Row = map<string, Cell>

  datatype Table = Table(columns: seq<string>, rows: seq<Row>)

  /** The value of column `c` in row `r`; a row without the column reads as missing. */
  function Get(r: Row, c: string): Cell
  {
    if c in r then r[c] else Missing
  }

  /** The numeric value of a cell, if it has one. */
  function AsReal(c: Cell): Option<real>
  {
    match c
    case Int(i) => Some(i as real)
    case Num(r) => Some(r)
    case _ => None
  }

  predicate Distinct<T(==)>(s: seq<T>)
  {
    forall i, j :: 0 <= i < j < |s| ==> s[i] != s[j]
  }

  function ColumnSet(cols: seq<string>): set<string>
  {
    set c | c in cols
  }

  /** Column names are unique and every row has exactly the table's columns. */
  predicate WellFormed(t: Table)
  {
    Distinct(t.columns) && forall r :: r in t.rows ==> r.Keys == ColumnSet(t.columns)
  }

  /** The elements of `s` that satisfy `p`, in their original order. */
  function Filter<T(!new)>(s: seq<T>, p: T -> bool): (r: seq<T>)
    ensures |r| <= |s|
    ensures forall x :: x in r <==> x in s && p(x)
    ensures forall i :: 0 <= i < |r| ==> p(r[i])
  {
    if s == [] then [] else (if p(s[0]) then [s[0]] else []) + Filter(s[1..], p)
  }

  /** The positions `i..` of `s` whose element satisfies `p`, in increasing order. */
  function KeptPositions<T(!new)>(s: seq<T>, p: T -> bool, i: nat): seq<nat>
    requires i <= |s|
    decreases |s| - i
  {
    if i == |s| then [] else (if p(s[i]) then [i] else []) + KeptPositions(s, p, i + 1)
  }

  /** Filtering keeps exactly the positions that satisfy `p`, in increasing
      order, and adds nothing: the result is an order-preserving selection. */
  lemma {:induction false} FilterSelectsInOrder<T(!new)>(s: seq<T>, p: T -> bool, i: nat)
    requires i <= |s|
    ensures |KeptPositions(s, p, i)| == |Filter(s[i..], p)|
    ensures forall k :: 0 <= k < |KeptPositions(s, p, i)| ==>
              i <= KeptPositions(s, p, i)[k] < |s| && Filter(s[i..], p)[k] == s[KeptPositions(s, p, i)[k]]
    ensures forall k, l :: 0 <= k < l < |KeptPositions(s, p, i)| ==> KeptPositions(s, p, i)[k] < KeptPositions(s, p, i)[l]
    ensures forall j :: i <= j < |s| ==> (p(s[j]) <==> j in KeptPositions(s, p, i))
    decreases |s| - i
  {
    if i < |s| {
      FilterSelectsInOrder(s, p, i + 1);
      assert s[i..][0] == s[i] && s[i..][1..] == s[i + 1..];
    }
  }

  /** Filtering keeps every copy of a satisfying element and no copy of the others. */
  lemma {:induction false} FilterMultiplicity<T(!new)>(s: seq<T>, p: T -> bool, x: T)
    ensures multiset(Filter(s, p))[x] == if p(x) then multiset(s)[x] else 0
  {
    if s != [] {
      FilterMultiplicity(s[1..], p, x);
      assert s == [s[0]] + s[1..];
    }
  }

  /** Filtering a concatenation filters each part. */
  lemma {:induction false} FilterConcat<T(!new)>(a: seq<T>, b: seq<T>, p: T -> bool)
    ensures Filter(a + b, p) == Filter(a, p) + Filter(b, p)
  {
    if a != [] {
      FilterConcat(a[1..], b, p);
      assert (a + b)[0] == a[0] && (a + b)[1..] == a[1..] + b;
      assert Filter(a + b, p) == (if p(a[0]) then [a[0]] else []) + Filter(a[1..] + b, p);
    } else {
      assert a + b == b;
    }
  }

  /** Filtering with a condition no element meets keeps nothing. */
  lemma {:induction false} FilterNone<T(!new)>(s: seq<T>, p: T -> bool)
    requires forall i :: 0 <= i < |s| ==> !p(s[i])
    ensures Filter(s, p) == []
  {
    if s != [] {
      FilterNone(s[1..], p);
      assert forall i :: 0 <= i < |s[1..]| ==> s[1..][i] == s[i + 1];
    }
  }

  /** Filtering with a condition every element meets keeps everything. */
  lemma {:induction false} FilterAll<T(!new)>(s: seq<T>, p: T -> bool)
    requires forall i :: 0 <= i < |s| ==> p(s[i])
    ensures Filter(s, p) == s
  {
    if s != [] {
      FilterAll(s[1..], p);
      assert s == [s[0]] + s[1..];
    }
  }

  /** Filtering keeps distinct elements distinct. */
  lemma {:induction false} FilterDistinct<T(!new)>(s: seq<T>, p: T -> bool)
    requires Distinct(s)
    ensures Distinct(Filter(s, p))
  {
    if s != [] {
      FilterDistinct(s[1..], p);
      assert forall x :: x in Filter(s[1..], p) ==> x in s[1..];
      assert forall k :: 0 <= k < |s[1..]| ==> s[1..][k] == s[k + 1];
    }
  }

  /** The distinct elements of `s` (pandas `unique`); the contract states the
      elements, not the order in which they come. */
  function Unique<T(==,!new)>(s: seq<T>): (r: seq<T>)
    ensures Distinct(r)
    ensures forall x :: x in r <==> x in s
  {
    UniqueAfter(s, [])
  }

  function UniqueAfter<T(==,!new)>(s: seq<T>, seen: seq<T>): (r: seq<T>)
    requires Distinct(seen)
    ensures Distinct(r)
    ensures forall x :: x in r <==> x in seen || x in s
    ensures |seen| <= |r| && r[..|seen|] == seen
  {
    if s == [] then seen
    else if s[0] in seen then UniqueAfter(s[1..], seen)
    else UniqueAfter(s[1..], seen + [s[0]])
  }

  /** The cells of one column, row by row. */
  function ColumnValues(t: Table, c: string): (cells: seq<Cell>)
    ensures |cells| == |t.rows|
  {
    seq(|t.rows|, i requires 0 <= i < |t.rows| => Get(t.rows[i], c))
  }

  /** `df[c] = cells`: replaces column `c`, or appends it when it is new. */
  function SetColumn(t: Table, c: string, cells: seq<Cell>): (r: Table)
    requires |cells| == |t.rows|
    ensures |r.rows| == |t.rows|
    ensures r.columns == if c in t.columns then t.columns else t.columns + [c]
    ensures forall i :: 0 <= i < |r.rows| ==>
              Get(r.rows[i], c) == cells[i] &&
              forall d :: d != c ==> Get(r.rows[i], d) == Get(t.rows[i], d)
    ensures WellFormed(t) ==> WellFormed(r)
  {
    var rows := seq(|t.rows|, i requires 0 <= i < |t.rows| => t.rows[i][c := cells[i]]);
    var cols := if c in t.columns then t.columns else t.columns + [c];
    assert ColumnSet(cols) == ColumnSet(t.columns) + {c};
    assert forall r :: r in rows ==> exists i :: 0 <= i < |t.rows| && r == t.rows[i][c := cells[i]];
    Table(cols, rows)
  }

  /** `df.drop(columns=[c])` on a table that has column `c`. */
  function DropColumn(t: Table, c: string): (r: Table)
    ensures r.columns == Filter(t.columns, d => d != c)
    ensures c !in r.columns
    ensures |r.rows| == |t.rows|
    ensures forall i :: 0 <= i < |r.rows| ==>
              Get(r.rows[i], c) == Missing &&
              forall d :: d != c ==> Get(r.rows[i], d) == Get(t.rows[i], d)
  {
    Table(Filter(t.columns, d => d != c), seq(|t.rows|, i requires 0 <= i < |t.rows| => t.rows[i] - {c}))
  }

  /** `df.rename(columns={from: to})`: a column that is absent is ignored. */
  function RenameColumn(t: Table, from: string, to: string): (r: Table)
    ensures from !in t.columns ==> r == t
    ensures |r.columns| == |t.columns|
    ensures forall k :: 0 <= k < |t.columns| ==> r.columns[k] == if t.columns[k] == from then to else t.columns[k]
    ensures |r.rows| == |t.rows|
    ensures from in t.columns ==> forall i :: 0 <= i < |r.rows| ==>
              Get(r.rows[i], to) == Get(t.rows[i], from) &&
              forall d :: d != from && d != to ==> Get(r.rows[i], d) == Get(t.rows[i], d)
  {
    if from !in t.columns then t
    else
      Table(seq(|t.columns|, k requires 0 <= k < |t.columns| => if t.columns[k] == from then to else t.columns[k]),
            seq(|t.rows|, i requires 0 <= i < |t.rows| => (t.rows[i] - {from})[to := Get(t.rows[i], from)]))
  }
}
