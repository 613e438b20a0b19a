/** The selections `main` of the exploratory analysis makes before plotting:
    the columns to drop, the columns of the correlation matrix, the education
    categories frequent enough to keep, and the subplot grid width. Both
    versions of the script compute these the same way. */
module EnglishScoreEda {
  import opened Frames
  import opened Sorting
  import Categories
  import HistogramExclusions

  /** The twenty fixed names of `drop_feats`, in their order. */
  const FixedDropFeats: seq<Name> := [
    "id", "date", "time", "Unnamed: 0", "tests", "elogit", "dyslexia",
    "dictionary", "already_participated", "natlangs", "primelangs",
    "Can_region", "Ir_region", "US_region", "UK_region", "UK_constituency",
    "gender", "type", "currcountry", "countries"
  ]

  /** `col.startswith("q")`. */
  predicate IsQuestion(c: Name) {
    |c| > 0 && c[0] == 'q'
  }

  /** `[col for col in train_df.columns if col.startswith("q")]`. */
  function QuestionColumns(columns: seq<Name>): (r: seq<Name>)
    ensures forall c :: c in r <==> c in columns && IsQuestion(c)
    ensures IsSubsequence(r, columns)
  {
    Filter(columns, IsQuestion)
  }

  /** The finished drop list: it starts with the fixed names in their order, continues with the question columns
      in frame order, and holds nothing else. */
  function DropFeats(columns: seq<Name>): (r: seq<Name>)
    ensures |r| == |FixedDropFeats| + |QuestionColumns(columns)|
    ensures r[..|FixedDropFeats|] == FixedDropFeats
    ensures IsSubsequence(r[|FixedDropFeats|..], columns)
    ensures forall c :: c in r <==> c in FixedDropFeats || (c in columns && IsQuestion(c))
  {
    var questions := QuestionColumns(columns);
    var r := FixedDropFeats + questions;
    assert r[|FixedDropFeats|..] == questions;
    r
  }

  /** `drop_feats = [...]; drop_feats += question_columns_to_drop`. */
  method BuildDropFeats(columns: seq<Name>) returns (dropFeats: seq<Name>)
    ensures dropFeats == DropFeats(columns)
    ensures |dropFeats| >= |FixedDropFeats| && dropFeats[..|FixedDropFeats|] == FixedDropFeats
  {
    dropFeats := FixedDropFeats;
    var questionColumnsToDrop := QuestionColumns(columns);
    dropFeats := dropFeats + questionColumnsToDrop;
  }

  /** The numeric columns plotted with `columns_to_exclude=drop_feats`: no question column and no fixed name. */
  lemma PlottedFeatures(train: Frame, c: Name)
    ensures c in HistogramExclusions.HistogramColumns(HistogramExclusions.FrameArg(train), Some(DropFeats(train.columns))).value
      <==> c in train.columns && IsNumeric(train, c) && !IsQuestion(c) && c !in FixedDropFeats
  {
  }

  /** The four names removed besides the question columns for the correlation matrix. */
  const NotCorrelated: seq<Name> := ["Unnamed: 0", "date", "time", "id"]

  /** `list(set(columns) - set(question columns + [...]))`: a set, since the list order of a Python set is unspecified. */
  function NormalCols(columns: seq<Name>): (r: set<Name>)
    ensures forall c :: c in r <==> c in columns && !IsQuestion(c) && c !in NotCorrelated
  {
    (set c | c in columns) - (set c | c in QuestionColumns(columns) + NotCorrelated)
  }

  /** The correlation columns are exactly what remains of the frame once the question columns and the four names are removed. */
  lemma NormalColsPartition(columns: seq<Name>)
    ensures forall c :: c in columns ==>
      (c in NormalCols(columns) <==> !(c in NotCorrelated || c in QuestionColumns(columns)))
    ensures NormalCols(columns) !! (set c | c in QuestionColumns(columns))
  {
  }

  /** The number of times `v` occurs in `vs`. */
  function Count(vs: seq<Value>, v: Value): (n: nat)
    ensures n <= |vs|
    ensures n > 0 <==> v in vs
  {
    if vs == [] then 0 else (if vs[0] == v then 1 else 0) + Count(vs[1..], v)
  }

  /** Each element at most once. */
  ghost predicate NoDuplicates<T>(s: seq<T>) {
    forall i, j :: 0 <= i < j < |s| ==> s[i] != s[j]
  }

  /** The distinct non-null values of `vs`, in order of first occurrence (the index of `value_counts()`). */
  function DistinctValues(vs: seq<Value>): (r: seq<Value>)
    ensures forall v :: v in r <==> v in vs && v != Missing
    ensures NoDuplicates(r)
    decreases |vs|
  {
    if vs == [] then []
    else
      var init := DistinctValues(vs[..|vs| - 1]);
      var last := vs[|vs| - 1];
      assert vs == vs[..|vs| - 1] + [last];
      if last == Missing || last in init then init else init + [last]
  }

  /** The multiset of a duplicate-free sequence has each element once. */
  lemma {:induction false} NoDuplicatesMultiset<T>(s: seq<T>)
    requires NoDuplicates(s)
    ensures forall x :: x in s ==> multiset(s)[x] == 1
  {
    if s != [] {
      var tail := s[1..];
      assert NoDuplicates(tail) by {
        forall i, j | 0 <= i < j < |tail| ensures tail[i] != tail[j] {
          assert tail[i] == s[i + 1] && tail[j] == s[j + 1];
        }
      }
      NoDuplicatesMultiset(tail);
      assert s == [s[0]] + tail;
      assert s[0] !in tail by {
        forall j | 0 <= j < |tail| ensures tail[j] != s[0] {
          assert tail[j] == s[j + 1];
        }
      }
    }
  }

  /** A sequence whose multiset has each element once has no duplicates. */
  lemma MultisetNoDuplicates<T>(s: seq<T>)
    requires forall x :: x in s ==> multiset(s)[x] == 1
    ensures NoDuplicates(s)
  {
    forall i, j | 0 <= i < j < |s| ensures s[i] != s[j] {
      assert s == s[..j] + s[j..];
      assert s[j] in s[j..];
      assert multiset(s)[s[j]] == multiset(s[..j])[s[j]] + multiset(s[j..])[s[j]];
      assert s[j] !in s[..j];
      assert s[i] in s[..j];
    }
  }

  /** The threshold of `education_counts[education_counts > 100]`. */
  const Threshold: nat := 100

  function ByCount(vs: seq<Value>): Value -> real {
    v => -(Count(vs, v) as real)
  }

  /** `train_df["education"].value_counts()` filtered to counts above 100, as a list: a value is kept exactly when
      it is not null and occurs more than 100 times; each appears once, and the list runs from the most frequent down. */
  function CategoriesList(vs: seq<Value>): (r: seq<Value>)
    ensures forall v :: v in r <==> v != Missing && Count(vs, v) > Threshold
    ensures NoDuplicates(r)
    ensures forall i, j :: 0 <= i <= j < |r| ==> Count(vs, r[i]) >= Count(vs, r[j])
  {
    var distinct := DistinctValues(vs);
    var sorted := SortBy(distinct, ByCount(vs));
    var frequent := v => Count(vs, v) > Threshold;
    assert forall v :: v in sorted <==> v in distinct by {
      forall v ensures v in sorted <==> v in distinct {
        assert v in sorted <==> v in multiset(sorted);
        assert v in distinct <==> v in multiset(distinct);
      }
    }
    NoDuplicatesMultiset(distinct);
    MultisetNoDuplicates(sorted);
    FilterKeepsOrder(sorted, frequent, ByCount(vs));
    FilterKeepsDistinct(sorted, frequent);
    Filter(sorted, frequent)
  }

  /** Filtering keeps a sequence ordered by any key. */
  lemma {:induction false} FilterKeepsOrder<T(!new)>(s: seq<T>, p: T -> bool, key: T -> real)
    requires SortedBy(s, key)
    ensures SortedBy(Filter(s, p), key)
  {
    if s != [] {
      SortedTail(s, key);
      FilterKeepsOrder(s[1..], p, key);
      if p(s[0]) {
        var rest := Filter(s[1..], p);
        assert forall y :: y in rest ==> y in s;
        SortedCons(s[0], rest, key);
      }
    }
  }

  /** Filtering keeps a sequence free of duplicates. */
  lemma FilterKeepsDistinct<T(!new)>(s: seq<T>, p: T -> bool)
    requires NoDuplicates(s)
    ensures NoDuplicates(Filter(s, p))
  {
    var r := Filter(s, p);
    NoDuplicatesMultiset(s);
    forall x | x in r ensures multiset(r)[x] == 1 {
    }
    MultisetNoDuplicates(r);
  }


  /** `categories_list` of the training frame; reading the "education" column raises KeyError when there is none. */
  function TrainCategories(trainDf: Frame): (r: Result<seq<Value>>)
    ensures r.Ok? <==> Categories.Education in trainDf.columns
    ensures r.Err? ==> r.error == KeyError([Categories.Education])
    ensures r.Ok? ==> r.value == CategoriesList(Column(trainDf, Categories.Education))
  {
    if Categories.Education !in trainDf.columns then Err(KeyError([Categories.Education]))
    else Ok(CategoriesList(Column(trainDf, Categories.Education)))
  }

  /** The nested `map_to_other(df)`, which reads `categories_list` from the enclosing `main`: a value is kept when it
      occurs more than 100 times in the training frame's education column, and becomes "Others" otherwise. */
  lemma MapToOtherClosure(trainDf: Frame, df: Frame, i: nat)
    requires TrainCategories(trainDf).Ok? && Categories.Education in df.columns && i < |df.rows|
    ensures var v := Cell(df.rows[i], Categories.Education);
      var train := Column(trainDf, Categories.Education);
      var out := Column(Categories.MapToOther(df, TrainCategories(trainDf).value).value, Categories.Education);
      (v != Missing && Count(train, v) > Threshold ==> out[i] == v) &&
      (!(v != Missing && Count(train, v) > Threshold) ==> out[i] == Categories.Others)
  {
  }

  /** `cols = plot_1.size // rows` with `rows = 3`. */
  function GridCols(size: nat): (cols: nat)
    ensures 3 * cols <= size < 3 * cols + 3
  {
    size / 3
  }

  /** `plt.subplot(rows, cols, i + 1)` draws into one of the `rows * cols` cells of the grid. */
  predicate SubplotFits(size: nat, i: nat) {
    i + 1 <= 3 * GridCols(size)
  }

  /** The loop over the `size` plots places subplots 1 to `size`; every one of them fits the 3-row grid
      exactly when the size is a multiple of 3. */
  lemma GridFitsIff(size: nat)
    ensures (forall i :: 0 <= i < size ==> SubplotFits(size, i)) <==> size % 3 == 0
  {
    if size % 3 != 0 {
      assert !SubplotFits(size, size - 1);
    }
  }
}
