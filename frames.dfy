/** Tables as the pipeline's scripts handle them: an ordered list of column
    names, a dtype per column, and rows that map column names to cells.
    Also the sequence helpers the column filters are built from. */
module Frames {

  type Name = string

  /** A cell. `Missing` is a null (NaN or None). */
  datatype Value = Int(i: int) | Real(r: real) | Text(s: string) | Bool(b: bool) | Missing

  /** The dtype of a column; only integer and float columns are "number" columns. */
  datatype DType = IntDType | FloatDType | BoolDType | ObjectDType

  type Row = map<Name, Value>

  datatype Frame = Frame(columns: seq<Name>, dtypes: map<Name, DType>, rows: seq<Row>)

  /** The exceptions the modelled code raises or lets through. */
  datatype Error = KeyError(keys: seq<Name>) | TypeError | ValueError | AttributeError

  datatype Result<T> = Ok(value: T) | Err(error: Error)

  datatype Option<T> = None | Some(value: T)

  /** The cell of `row` in column `c`; a row without that key reads as null. */
  function Cell(row: Row, c: Name): Value {
    if c in row then row[c] else Missing
  }

  /** Column `c` of `f`, top to bottom. */
  function Column(f: Frame, c: Name): (vs: seq<Value>)
    ensures |vs| == |f.rows|
    ensures forall i :: 0 <= i < |f.rows| ==> vs[i] == Cell(f.rows[i], c)
  {
    seq(|f.rows|, i requires 0 <= i < |f.rows| => Cell(f.rows[i], c))
  }

  /** `select_dtypes(include="number")` keeps integer and float columns; booleans and objects are not numbers. */
  predicate IsNumber(d: DType) {
    d == IntDType || d == FloatDType
  }

  predicate IsNumeric(f: Frame, c: Name) {
    c in f.dtypes && IsNumber(f.dtypes[c])
  }

  /** `a` can be obtained from `b` by deleting elements: the order of what is kept is the order in `b`. */
  ghost predicate IsSubsequence<T>(a: seq<T>, b: seq<T>)
    decreases |b|
  {
    if a == [] then true
    else if b == [] then false
    else (a[0] == b[0] && IsSubsequence(a[1..], b[1..])) || IsSubsequence(a, b[1..])
  }

  lemma {:induction false} SubsequenceTransitive<T>(a: seq<T>, b: seq<T>, c: seq<T>)
    requires IsSubsequence(a, b) && IsSubsequence(b, c)
    ensures IsSubsequence(a, c)
    decreases |c|
  {
    if a != [] && b != [] && c != [] {
      if b[0] == c[0] && IsSubsequence(b[1..], c[1..]) {
        if a[0] == b[0] && IsSubsequence(a[1..], b[1..]) {
          SubsequenceTransitive(a[1..], b[1..], c[1..]);
        } else {
          SubsequenceTransitive(a, b[1..], c[1..]);
        }
      } else {
        SubsequenceTransitive(a, b, c[1..]);
      }
    }
  }

  /** The elements of `s` satisfying `p`, in their order in `s` (a list comprehension with a condition). */
  function Filter<T(==,!new)>(s: seq<T>, p: T -> bool): (r: seq<T>)
    ensures forall x :: x in r <==> x in s && p(x)
    ensures IsSubsequence(r, s)
    ensures |r| <= |s|
    ensures forall x {:trigger multiset(r)[x]} :: multiset(r)[x] == if p(x) then multiset(s)[x] else 0
  {
    if s == [] then []
    else
      assert s == [s[0]] + s[1..];
      if p(s[0]) then [s[0]] + Filter(s[1..], p)
      else Filter(s[1..], p)
  }

  /** One step of the filter: the first element is kept exactly when it satisfies `p`. */
  lemma FilterStep<T(!new)>(s: seq<T>, p: T -> bool)
    requires s != []
    ensures Filter(s, p) == if p(s[0]) then [s[0]] + Filter(s[1..], p) else Filter(s[1..], p)
  {
  }

  lemma {:induction false} FilterCongruent<T(!new)>(s: seq<T>, p: T -> bool, q: T -> bool)
    requires forall x :: x in s ==> p(x) == q(x)
    ensures Filter(s, p) == Filter(s, q)
  {
    if s != [] {
      FilterCongruent(s[1..], p, q);
    }
  }

  /** Filtering by `p` and then by `q` is filtering once by their conjunction `r`. */
  lemma {:induction false} FilterCompose<T(!new)>(s: seq<T>, p: T -> bool, q: T -> bool, r: T -> bool)
    requires forall x :: x in s ==> r(x) == (p(x) && q(x))
    ensures Filter(Filter(s, p), q) == Filter(s, r)
  {
    if s != [] {
      FilterCompose(s[1..], p, q, r);
      if p(s[0]) {
        assert Filter(s, p) == [s[0]] + Filter(s[1..], p);
        assert ([s[0]] + Filter(s[1..], p))[1..] == Filter(s[1..], p);
      }
    }
  }

  lemma {:induction false} FilterAppend<T(!new)>(a: seq<T>, b: seq<T>, p: T -> bool)
    ensures Filter(a + b, p) == Filter(a, p) + Filter(b, p)
  {
    if a == [] {
      assert a + b == b;
    } else {
      assert (a + b)[0] == a[0];
      assert (a + b)[1..] == a[1..] + b;
      FilterAppend(a[1..], b, p);
    }
  }

  lemma {:induction false} FilterAll<T(!new)>(s: seq<T>, p: T -> bool)
    requires forall x :: x in s ==> p(x)
    ensures Filter(s, p) == s
  {
    if s != [] {
      FilterAll(s[1..], p);
      assert [s[0]] + s[1..] == s;
    }
  }

  lemma {:induction false} FilterNone<T(!new)>(s: seq<T>, p: T -> bool)
    requires forall x :: x in s ==> !p(x)
    ensures Filter(s, p) == []
  {
    if s != [] {
      FilterNone(s[1..], p);
    }
  }

  /** `s` with every occurrence of `x` removed. */
  function Without(s: seq<Name>, x: Name): (r: seq<Name>)
    ensures forall c :: c in r <==> c in s && c != x
    ensures IsSubsequence(r, s)
    ensures forall c :: multiset(r)[c] == if c == x then 0 else multiset(s)[c]
  {
    if s == [] then []
    else
      assert s == [s[0]] + s[1..];
      if s[0] != x then [s[0]] + Without(s[1..], x)
      else Without(s[1..], x)
  }

  lemma {:induction false} WithoutAppend(a: seq<Name>, b: seq<Name>, x: Name)
    ensures Without(a + b, x) == Without(a, x) + Without(b, x)
  {
    if a == [] {
      assert a + b == b;
    } else {
      assert (a + b)[0] == a[0];
      assert (a + b)[1..] == a[1..] + b;
      WithoutAppend(a[1..], b, x);
    }
  }

  lemma {:induction false} WithoutAbsent(s: seq<Name>, x: Name)
    requires x !in s
    ensures Without(s, x) == s
  {
    if s != [] {
      WithoutAbsent(s[1..], x);
      assert [s[0]] + s[1..] == s;
    }
  }

  /** `df.select_dtypes(include="number").columns`: the number columns in frame order. */
  function SelectNumeric(f: Frame): (r: seq<Name>)
    ensures forall c :: c in r <==> c in f.columns && IsNumeric(f, c)
    ensures IsSubsequence(r, f.columns)
  {
    Filter(f.columns, c => IsNumeric(f, c))
  }

  /** `df.drop(columns=names, errors="ignore")`: a new frame without those columns; `f` itself is a value and is left as it was. */
  function Drop(f: Frame, names: seq<Name>): (g: Frame)
    ensures g.columns == Filter(f.columns, c => c !in names)
    ensures |g.rows| == |f.rows|
    ensures forall c :: c !in names ==> (IsNumeric(g, c) <==> IsNumeric(f, c))
    ensures forall c :: c in names ==> !IsNumeric(g, c)
    ensures forall i, c :: 0 <= i < |f.rows| && c !in names ==> Cell(g.rows[i], c) == Cell(f.rows[i], c)
  {
    Frame(Filter(f.columns, c => c !in names),
          map k | k in f.dtypes && k !in names :: f.dtypes[k],
          seq(|f.rows|, i requires 0 <= i < |f.rows| => map k | k in f.rows[i] && k !in names :: f.rows[i][k]))
  }

  /** Reference definition: the columns of `f` that are numeric and not named in `excluded`, in frame order. */
  function NumericNotExcluded(f: Frame, excluded: seq<Name>): (r: seq<Name>)
    ensures forall c :: c in r <==> c in f.columns && IsNumeric(f, c) && c !in excluded
    ensures IsSubsequence(r, f.columns)
  {
    Filter(f.columns, c => IsNumeric(f, c) && c !in excluded)
  }
}
