/** `fit_and_return_top_models`: fit a hyper-parameter search, then report
    its best N configurations as a transposed table. The fit itself is
    library work: the results table it produces (`cv_results_`) is an input
    of the model. */
module SearchTopModels {
  import opened Frames
  import opened Sorting

  function RankColumn(scoring: Name): Name { "rank_test_" + scoring }
  function MeanTestColumn(scoring: Name): Name { "mean_test_" + scoring }
  function MeanTrainColumn(scoring: Name): Name { "mean_train_" + scoring }
  const FitTimeColumn: Name := "mean_fit_time"

  /** The columns the report selects, in order. */
  function SelectedColumns(scoring: Name, returnTrainScore: bool, additional: seq<Name>): (cols: seq<Name>)
    ensures |cols| == 3 + (if returnTrainScore then 1 else 0) + |additional|
    ensures cols[..3] == [RankColumn(scoring), MeanTestColumn(scoring), FitTimeColumn]
    ensures returnTrainScore ==> cols[3] == MeanTrainColumn(scoring)
    ensures cols[|cols| - |additional|..] == additional
  {
    [RankColumn(scoring), MeanTestColumn(scoring), FitTimeColumn]
      + (if returnTrainScore then [MeanTrainColumn(scoring)] else [])
      + additional
  }

  /** The names of `names` that are not among `present`, in order. */
  function Absent(names: seq<Name>, present: seq<Name>): seq<Name> {
    Filter(names, c => c !in present)
  }

  /** `frame[cols]`: KeyError naming the absent columns, or the frame cut down to `cols`. */
  function Project(f: Frame, cols: seq<Name>): (r: Result<Frame>)
    ensures r.Err? <==> Absent(cols, f.columns) != []
    ensures r.Err? ==> r.error == KeyError(Absent(cols, f.columns))
    ensures r.Ok? ==> r.value.columns == cols && |r.value.rows| == |f.rows|
    ensures r.Ok? ==> forall i, c :: 0 <= i < |f.rows| && c in cols ==> Cell(r.value.rows[i], c) == Cell(f.rows[i], c)
  {
    var absent := Absent(cols, f.columns);
    if absent != [] then Err(KeyError(absent))
    else Ok(Frame(cols,
                  map k | k in f.dtypes && k in cols :: f.dtypes[k],
                  seq(|f.rows|, i requires 0 <= i < |f.rows| => map k | k in f.rows[i] && k in cols :: f.rows[i][k])))
  }

  /** One configuration once the rank is its label: the rank and the other selected cells, in column order. */
  datatype Entry = Entry(rank: int, attrs: seq<Value>)

  /** A table re-indexed by column `name`: `columns` are the remaining columns, one entry per row. */
  datatype Indexed = Indexed(name: Name, columns: seq<Name>, entries: seq<Entry>)

  /** The transposed report: rows labelled by `index` (the attributes), columns labelled by
      `columns` (the ranks, under the name `columnsName`); `data[i][j]` is attribute
      `index[i]` of the j-th configuration shown. */
  datatype Report = Report(index: seq<Name>, columnsName: Name, columns: seq<int>, data: seq<seq<Value>>)

  /** Search results always carry integer ranks; the model sorts only those. */
  predicate RanksAreIntegers(f: Frame, key: Name) {
    forall i | 0 <= i < |f.rows| :: Cell(f.rows[i], key).Int?
  }

  function EntryOf(row: Row, key: Name, attrs: seq<Name>): Entry
    requires Cell(row, key).Int?
  {
    Entry(Cell(row, key).i, seq(|attrs|, k requires 0 <= k < |attrs| => Cell(row, attrs[k])))
  }

  /** `set_index(key)`: KeyError when there is no such column; ValueError when the label names
      several columns (a repeated label selects a two-dimensional block, which cannot be an index). */
  function SetIndex(f: Frame, key: Name): (r: Result<Indexed>)
    ensures r.Ok? <==> key in f.columns && multiset(f.columns)[key] == 1 && RanksAreIntegers(f, key)
    ensures key !in f.columns ==> r == Err(KeyError([key]))
    ensures multiset(f.columns)[key] > 1 ==> r == Err(ValueError)
    ensures r.Ok? ==> r.value.name == key && r.value.columns == Without(f.columns, key)
    ensures r.Ok? ==> WellShaped(r.value) && |r.value.entries| == |f.rows|
    ensures r.Ok? ==> forall i :: 0 <= i < |f.rows| ==>
              && Cell(f.rows[i], key) == Int(r.value.entries[i].rank)
              && forall k :: 0 <= k < |r.value.columns| ==>
                   r.value.entries[i].attrs[k] == Cell(f.rows[i], r.value.columns[k])
  {
    if key !in f.columns then Err(KeyError([key]))
    else if multiset(f.columns)[key] > 1 then Err(ValueError)
    else if !RanksAreIntegers(f, key) then Err(TypeError)
    else
      var rest := Without(f.columns, key);
      Ok(Indexed(key, rest, seq(|f.rows|, i requires 0 <= i < |f.rows| => EntryOf(f.rows[i], key, rest))))
  }

  function RankKey(e: Entry): real { e.rank as real }

  /** `sort_index()`: entries by non-decreasing rank; ties in no promised order. */
  function SortIndex(ix: Indexed): (r: Indexed)
    ensures r.name == ix.name && r.columns == ix.columns
    ensures SortedBy(r.entries, RankKey) && multiset(r.entries) == multiset(ix.entries)
  {
    ix.(entries := SortBy(ix.entries, RankKey))
  }

  /** How many rows `head(n)` keeps of `len`: the first n, or all but the last -n when n is negative. */
  function HeadCount(n: int, len: nat): (k: nat)
    ensures k <= len
    ensures 0 <= n <= len ==> k == n
    ensures n < 0 && -n <= len ==> k == len + n
    ensures n > len || -n > len ==> k == (if n > len then len else 0)
  {
    if n >= 0 then (if n < len then n else len)
    else if len + n > 0 then len + n else 0
  }

  /** `head(n)`. */
  function Head(ix: Indexed, n: int): (r: Indexed)
    ensures r.name == ix.name && r.columns == ix.columns
    ensures r.entries == ix.entries[..HeadCount(n, |ix.entries|)]
  {
    ix.(entries := ix.entries[..HeadCount(n, |ix.entries|)])
  }

  predicate WellShaped(ix: Indexed) {
    forall j | 0 <= j < |ix.entries| :: |ix.entries[j].attrs| == |ix.columns|
  }

  /** `.T`: each entry becomes a column, each attribute a row. */
  function Transpose(ix: Indexed): (r: Report)
    requires WellShaped(ix)
    ensures r.index == ix.columns && r.columnsName == ix.name && Shaped(r)
    ensures Entries(r) == ix.entries
  {
    var r := Report(ix.columns, ix.name,
                    seq(|ix.entries|, j requires 0 <= j < |ix.entries| => ix.entries[j].rank),
                    seq(|ix.columns|, i requires 0 <= i < |ix.columns| =>
                      seq(|ix.entries|, j requires 0 <= j < |ix.entries| => ix.entries[j].attrs[i])));
    assert Entries(r) == ix.entries by {
      forall j | 0 <= j < |ix.entries| ensures Entries(r)[j] == ix.entries[j] {
        assert Entries(r)[j].attrs == ix.entries[j].attrs;
      }
    }
    r
  }

  predicate Shaped(r: Report) {
    |r.data| == |r.index| && forall i | 0 <= i < |r.data| :: |r.data[i]| == |r.columns|
  }

  /** The configurations a report shows, read column by column. */
  function Entries(r: Report): seq<Entry>
    requires Shaped(r)
  {
    seq(|r.columns|, j requires 0 <= j < |r.columns| =>
      Entry(r.columns[j], seq(|r.data|, i requires 0 <= i < |r.data| => r.data[i][j])))
  }

  /** The project / set_index / sort_index / head / transpose chain over an already built column list:
      the report exists exactly when every column is present, the index label names one column and
      every rank is an integer, and it shows the result rows' entries sorted by rank and cut after
      HeadCount(n) of them. */
  function Chain(results: Frame, columns: seq<Name>, key: Name, n: int): (r: Result<Report>)
    ensures r.Ok? <==> Absent(columns, results.columns) == [] && multiset(columns)[key] == 1
                       && RanksAreIntegers(results, key)
    ensures Absent(columns, results.columns) != [] ==> r == Err(KeyError(Absent(columns, results.columns)))
    ensures Absent(columns, results.columns) == [] && key !in columns ==> r == Err(KeyError([key]))
    ensures Absent(columns, results.columns) == [] && multiset(columns)[key] > 1 ==> r == Err(ValueError)
    ensures r.Ok? ==> && r.value.index == Without(columns, key) && r.value.columnsName == key && Shaped(r.value)
                      && Entries(r.value) == SortBy(ResultEntries(results, key, Without(columns, key)), RankKey)
                                               [..HeadCount(n, |results.rows|)]
  {
    match Project(results, columns)
    case Err(e) => Err(e)
    case Ok(selected) =>
      SelectedRanks(results, selected, columns, key);
      match SetIndex(selected, key)
      case Err(e) => Err(e)
      case Ok(indexed) =>
        SelectedEntries(results, selected, columns, key);
        TopWellShaped(indexed, n);
        Ok(Transpose(Head(SortIndex(indexed), n)))
  }

  /** Sorting and cutting keep every entry's attributes in line with the columns. */
  lemma TopWellShaped(ix: Indexed, n: int)
    requires WellShaped(ix)
    ensures WellShaped(Head(SortIndex(ix), n))
  {
    var top := Head(SortIndex(ix), n);
    forall j | 0 <= j < |top.entries| ensures |top.entries[j].attrs| == |top.columns| {
      assert top.entries[j] in multiset(ix.entries);
    }
  }

  /** Projecting onto columns that include the rank keeps every rank. */
  lemma SelectedRanks(results: Frame, selected: Frame, cols: seq<Name>, key: Name)
    requires selected.columns == cols && |selected.rows| == |results.rows|
    requires forall i, c :: 0 <= i < |results.rows| && c in cols ==> Cell(selected.rows[i], c) == Cell(results.rows[i], c)
    ensures key in cols ==> (RanksAreIntegers(selected, key) <==> RanksAreIntegers(results, key))
  {
    if key in cols {
      forall i | 0 <= i < |results.rows| ensures Cell(selected.rows[i], key) == Cell(results.rows[i], key) {
      }
    }
  }

  /** Entries built from the selected columns are the entries of the result rows themselves. */
  lemma SelectedEntries(results: Frame, selected: Frame, cols: seq<Name>, key: Name)
    requires selected.columns == cols && |selected.rows| == |results.rows|
    requires forall i, c :: 0 <= i < |results.rows| && c in cols ==> Cell(selected.rows[i], c) == Cell(results.rows[i], c)
    requires SetIndex(selected, key).Ok?
    ensures RanksAreIntegers(results, key)
    ensures SetIndex(selected, key).value.entries == ResultEntries(results, key, Without(cols, key))
  {
    SelectedRanks(results, selected, cols, key);
    var index := Without(cols, key);
    assert forall c :: c in index ==> c in cols;
    var indexed := SetIndex(selected, key).value;
    var all := ResultEntries(results, key, index);
    forall i | 0 <= i < |results.rows| ensures indexed.entries[i] == all[i] {
      assert Cell(selected.rows[i], key) == Cell(results.rows[i], key);
      forall k | 0 <= k < |index| ensures Cell(selected.rows[i], index[k]) == Cell(results.rows[i], index[k]) {
        assert index[k] in index;
      }
    }
  }

  /** The rank label occurs once in the column list exactly when `additional_columns` does not repeat it. */
  lemma RankOnce(scoring: Name, returnTrainScore: bool, additional: seq<Name>)
    ensures RankColumn(scoring) in SelectedColumns(scoring, returnTrainScore, additional)
    ensures multiset(SelectedColumns(scoring, returnTrainScore, additional))[RankColumn(scoring)] == 1
            <==> RankColumn(scoring) !in additional
  {
    RankColumnIsNotAnAttribute(scoring);
    var key := RankColumn(scoring);
    var attrs := [MeanTestColumn(scoring), FitTimeColumn] + (if returnTrainScore then [MeanTrainColumn(scoring)] else []);
    assert SelectedColumns(scoring, returnTrainScore, additional) == [key] + attrs + additional;
    assert key !in attrs;
  }

  /** The report `fit_and_return_top_models` returns for the fitted results `results`: a KeyError
      naming the absent columns when some selected column is missing, a ValueError when
      `additional_columns` repeats the rank column, and otherwise a report exactly when the ranks
      are integers. */
  function TopModels(results: Frame, n: int, additional: seq<Name>, returnTrainScore: bool, scoring: Name): (r: Result<Report>)
    ensures var cols := SelectedColumns(scoring, returnTrainScore, additional);
            && (r.Ok? <==> Absent(cols, results.columns) == [] && RankColumn(scoring) !in additional
                           && RanksAreIntegers(results, RankColumn(scoring)))
            && (Absent(cols, results.columns) != [] ==> r == Err(KeyError(Absent(cols, results.columns))))
            && (Absent(cols, results.columns) == [] && RankColumn(scoring) in additional ==> r == Err(ValueError))
  {
    RankOnce(scoring, returnTrainScore, additional);
    Chain(results, SelectedColumns(scoring, returnTrainScore, additional), RankColumn(scoring), n)
  }

  /** Every result row as an entry: its rank and its cells in the attribute columns `index`. */
  function ResultEntries(results: Frame, key: Name, index: seq<Name>): (es: seq<Entry>)
    requires RanksAreIntegers(results, key)
    ensures |es| == |results.rows|
  {
    seq(|results.rows|, i requires 0 <= i < |results.rows| => EntryOf(results.rows[i], key, index))
  }

  /** The report is made of the sorted result entries, cut after HeadCount(n) of them. */
  lemma {:induction false} TopModelsUnfold(results: Frame, n: int, additional: seq<Name>, returnTrainScore: bool, scoring: Name)
    requires TopModels(results, n, additional, returnTrainScore, scoring).Ok?
    ensures RanksAreIntegers(results, RankColumn(scoring))
    ensures var cols := SelectedColumns(scoring, returnTrainScore, additional);
            var index := Without(cols, RankColumn(scoring));
            var all := ResultEntries(results, RankColumn(scoring), index);
            var sorted := SortBy(all, RankKey);
            var r := TopModels(results, n, additional, returnTrainScore, scoring).value;
            && RankColumn(scoring) in cols
            && r.index == index && r.columnsName == RankColumn(scoring)
            && Shaped(r)
            && Entries(r) == sorted[..HeadCount(n, |all|)]
  {
    RankOnce(scoring, returnTrainScore, additional);
  }

  /** The report's row labels are the selected columns without the rank, its columns are labelled
      by rank, and it shows min(N, number of results) configurations (head semantics for negative N). */
  lemma TopModelsShape(results: Frame, n: int, additional: seq<Name>, returnTrainScore: bool, scoring: Name)
    requires TopModels(results, n, additional, returnTrainScore, scoring).Ok?
    ensures var r := TopModels(results, n, additional, returnTrainScore, scoring).value;
            && r.index == Without(SelectedColumns(scoring, returnTrainScore, additional), RankColumn(scoring))
            && r.columnsName == RankColumn(scoring)
            && |r.columns| == HeadCount(n, |results.rows|)
            && Shaped(r)
  {
    TopModelsUnfold(results, n, additional, returnTrainScore, scoring);
  }

  lemma RankColumnIsNotAnAttribute(scoring: Name)
    ensures MeanTestColumn(scoring) != RankColumn(scoring)
    ensures FitTimeColumn != RankColumn(scoring)
    ensures MeanTrainColumn(scoring) != RankColumn(scoring)
    ensures MeanTrainColumn(scoring) != MeanTestColumn(scoring)
    ensures MeanTrainColumn(scoring) != FitTimeColumn
  {
    assert MeanTestColumn(scoring)[0] == 'm' && FitTimeColumn[0] == 'm' && MeanTrainColumn(scoring)[0] == 'm';
    assert RankColumn(scoring)[0] == 'r';
    assert MeanTrainColumn(scoring)[6] == 'r' && MeanTestColumn(scoring)[6] == 'e';
    assert FitTimeColumn[5] == 'f' && MeanTrainColumn(scoring)[5] == 't';
  }

  /** The report's rows are exactly mean test score, fit time, mean train score (only if requested),
      then `additional_columns` in order (a report means the rank column was not repeated). */
  lemma {:induction false} TopModelsRowOrder(results: Frame, n: int, additional: seq<Name>, returnTrainScore: bool, scoring: Name)
    requires TopModels(results, n, additional, returnTrainScore, scoring).Ok?
    ensures TopModels(results, n, additional, returnTrainScore, scoring).value.index
            == [MeanTestColumn(scoring), FitTimeColumn]
               + (if returnTrainScore then [MeanTrainColumn(scoring)] else [])
               + additional
  {
    TopModelsShape(results, n, additional, returnTrainScore, scoring);
    AttributeRows(scoring, returnTrainScore, additional);
  }

  /** Taking the rank out of the selected columns leaves the other selected columns in order. */
  lemma AttributeRows(scoring: Name, returnTrainScore: bool, additional: seq<Name>)
    requires RankColumn(scoring) !in additional
    ensures Without(SelectedColumns(scoring, returnTrainScore, additional), RankColumn(scoring))
            == [MeanTestColumn(scoring), FitTimeColumn]
               + (if returnTrainScore then [MeanTrainColumn(scoring)] else [])
               + additional
  {
    RankColumnIsNotAnAttribute(scoring);
    var key := RankColumn(scoring);
    var attrs := [MeanTestColumn(scoring), FitTimeColumn] + (if returnTrainScore then [MeanTrainColumn(scoring)] else []);
    assert SelectedColumns(scoring, returnTrainScore, additional) == [key] + attrs + additional;
    WithoutAppend([key] + attrs, additional, key);
    WithoutAppend([key], attrs, key);
    WithoutAbsent(attrs, key);
    WithoutAbsent(additional, key);
    assert Without([key], key) == [];
  }

  /** The train-score row appears when `return_train_score` is set, and is absent otherwise
      (unless the caller names it in `additional_columns`), whatever the results contain. */
  lemma TopModelsTrainRow(results: Frame, n: int, additional: seq<Name>, returnTrainScore: bool, scoring: Name)
    requires TopModels(results, n, additional, returnTrainScore, scoring).Ok?
    ensures var r := TopModels(results, n, additional, returnTrainScore, scoring).value;
            && (returnTrainScore ==> MeanTrainColumn(scoring) in r.index)
            && (!returnTrainScore && MeanTrainColumn(scoring) !in additional ==> MeanTrainColumn(scoring) !in r.index)
  {
    TopModelsShape(results, n, additional, returnTrainScore, scoring);
    RankColumnIsNotAnAttribute(scoring);
    var cols := SelectedColumns(scoring, returnTrainScore, additional);
    if returnTrainScore {
      assert cols[3] == MeanTrainColumn(scoring);
    } else if MeanTrainColumn(scoring) !in additional {
      assert cols == [RankColumn(scoring), MeanTestColumn(scoring), FitTimeColumn] + additional;
    }
  }

  /** The report's columns are in non-decreasing rank order. */
  lemma TopModelsRanksSorted(results: Frame, n: int, additional: seq<Name>, returnTrainScore: bool, scoring: Name)
    requires TopModels(results, n, additional, returnTrainScore, scoring).Ok?
    ensures var r := TopModels(results, n, additional, returnTrainScore, scoring).value;
            forall j, k :: 0 <= j <= k < |r.columns| ==> r.columns[j] <= r.columns[k]
  {
    TopModelsUnfold(results, n, additional, returnTrainScore, scoring);
    var r := TopModels(results, n, additional, returnTrainScore, scoring).value;
    var es := Entries(r);
    forall j, k | 0 <= j <= k < |r.columns| ensures r.columns[j] <= r.columns[k] {
      assert es[j].rank == r.columns[j] && es[k].rank == r.columns[k];
      assert RankKey(es[j]) <= RankKey(es[k]);
    }
  }

  /** The configurations shown are result rows (each at most as often as it occurs), carried whole
      with their rank and cells, and every configuration left out ranks no better than any shown. */
  lemma TopModelsKeepsBest(results: Frame, n: int, additional: seq<Name>, returnTrainScore: bool, scoring: Name)
    requires TopModels(results, n, additional, returnTrainScore, scoring).Ok?
    ensures RanksAreIntegers(results, RankColumn(scoring))
    ensures var r := TopModels(results, n, additional, returnTrainScore, scoring).value;
            var all := ResultEntries(results, RankColumn(scoring), r.index);
            && Shaped(r)
            && multiset(Entries(r)) <= multiset(all)
            && forall x, y :: x in multiset(Entries(r)) && y in multiset(all) - multiset(Entries(r)) ==> x.rank <= y.rank
  {
    TopModelsUnfold(results, n, additional, returnTrainScore, scoring);
    var r := TopModels(results, n, additional, returnTrainScore, scoring).value;
    var all := ResultEntries(results, RankColumn(scoring), r.index);
    var sorted := SortBy(all, RankKey);
    var m := HeadCount(n, |all|);
    SortedPrefixIsSmallest(sorted, RankKey, m);
    forall x, y | x in multiset(Entries(r)) && y in multiset(all) - multiset(Entries(r)) ensures x.rank <= y.rank {
      assert RankKey(x) <= RankKey(y);
    }
  }

  /** The configurations shown are among the result entries, each at most as often as it occurs. */
  lemma TopModelsShowsResults(results: Frame, n: int, additional: seq<Name>, returnTrainScore: bool, scoring: Name)
    requires TopModels(results, n, additional, returnTrainScore, scoring).Ok?
    ensures RanksAreIntegers(results, RankColumn(scoring))
    ensures var r := TopModels(results, n, additional, returnTrainScore, scoring).value;
            Shaped(r) && multiset(Entries(r)) <= multiset(ResultEntries(results, RankColumn(scoring), r.index))
  {
    TopModelsUnfold(results, n, additional, returnTrainScore, scoring);
    var r := TopModels(results, n, additional, returnTrainScore, scoring).value;
    var all := ResultEntries(results, RankColumn(scoring), r.index);
    var sorted := SortBy(all, RankKey);
    SortedPrefixIsSmallest(sorted, RankKey, HeadCount(n, |all|));
  }

  /** An entry built from the result rows is the entry of one particular row. */
  lemma EntryFromRow(results: Frame, key: Name, index: seq<Name>, e: Entry)
    requires RanksAreIntegers(results, key)
    requires e in multiset(ResultEntries(results, key, index))
    ensures exists k :: 0 <= k < |results.rows| && e == EntryOf(results.rows[k], key, index)
  {
    var all := ResultEntries(results, key, index);
    assert e in all;
    var k :| 0 <= k < |all| && all[k] == e;
  }

  /** Column j of report r holds the rank and the attribute cells of one result row. */
  predicate ColumnIsRow(results: Frame, key: Name, r: Report, j: int)
    requires Shaped(r) && 0 <= j < |r.columns|
  {
    exists k :: 0 <= k < |results.rows|
      && Cell(results.rows[k], key) == Int(r.columns[j])
      && forall i :: 0 <= i < |r.index| ==> r.data[i][j] == Cell(results.rows[k], r.index[i])
  }

  /** A report whose entries come from the result rows shows, in each column, the cells of one row. */
  lemma CellsOfShown(results: Frame, key: Name, r: Report)
    requires RanksAreIntegers(results, key) && Shaped(r)
    requires multiset(Entries(r)) <= multiset(ResultEntries(results, key, r.index))
    ensures forall j :: 0 <= j < |r.columns| ==> ColumnIsRow(results, key, r, j)
  {
    var es := Entries(r);
    forall j | 0 <= j < |r.columns| ensures ColumnIsRow(results, key, r, j) {
      assert es[j] in multiset(es);
      EntryFromRow(results, key, r.index, es[j]);
      var k :| 0 <= k < |results.rows| && es[j] == EntryOf(results.rows[k], key, r.index);
      assert forall i :: 0 <= i < |r.index| ==> r.data[i][j] == es[j].attrs[i];
    }
  }

  /** Cell (attribute, j) of the report is that attribute of one result row whose rank labels column j. */
  lemma TopModelsCells(results: Frame, n: int, additional: seq<Name>, returnTrainScore: bool, scoring: Name)
    requires TopModels(results, n, additional, returnTrainScore, scoring).Ok?
    ensures var r := TopModels(results, n, additional, returnTrainScore, scoring).value;
            && Shaped(r)
            && forall j :: 0 <= j < |r.columns| ==> ColumnIsRow(results, RankColumn(scoring), r, j)
  {
    TopModelsShowsResults(results, n, additional, returnTrainScore, scoring);
    var r := TopModels(results, n, additional, returnTrainScore, scoring).value;
    CellsOfShown(results, RankColumn(scoring), r);
  }

  /** When anything is shown, the first column carries the best (smallest) rank of all results. */
  lemma TopModelsFirstIsBest(results: Frame, n: int, additional: seq<Name>, returnTrainScore: bool, scoring: Name)
    requires TopModels(results, n, additional, returnTrainScore, scoring).Ok?
    ensures RanksAreIntegers(results, RankColumn(scoring))
    ensures var r := TopModels(results, n, additional, returnTrainScore, scoring).value;
            |r.columns| > 0 ==>
              forall k :: 0 <= k < |results.rows| ==> r.columns[0] <= Cell(results.rows[k], RankColumn(scoring)).i
  {
    TopModelsUnfold(results, n, additional, returnTrainScore, scoring);
    var r := TopModels(results, n, additional, returnTrainScore, scoring).value;
    var key := RankColumn(scoring);
    var all := ResultEntries(results, key, r.index);
    var sorted := SortBy(all, RankKey);
    if |r.columns| > 0 {
      assert Entries(r)[0] == sorted[0];
      SortedFirstIsLeast(sorted, all, RankKey);
      forall k | 0 <= k < |results.rows| ensures r.columns[0] <= Cell(results.rows[k], key).i {
        assert RankKey(sorted[0]) <= RankKey(all[k]);
      }
    }
  }

  /** The first element of a sorted rearrangement has the least key of all. */
  lemma SortedFirstIsLeast<T>(sorted: seq<T>, all: seq<T>, key: T -> real)
    requires SortedBy(sorted, key) && multiset(sorted) == multiset(all) && |sorted| > 0
    ensures forall k :: 0 <= k < |all| ==> key(sorted[0]) <= key(all[k])
  {
    forall k | 0 <= k < |all| ensures key(sorted[0]) <= key(all[k]) {
      assert all[k] in multiset(sorted);
      var j :| 0 <= j < |sorted| && sorted[j] == all[k];
    }
  }

  /** The caller's list of additional columns: a Python list is shared, not copied. */
  class ColumnList {
    var items: seq<Name>

    constructor (items: seq<Name>)
      ensures this.items == items
    {
      this.items := items;
    }
  }

  /** The search object as the function uses it: a settable train-score flag, a fit, and after the
      fit its results table. */
  class SearchCV {
    var returnTrainScore: bool
    var cvResults: Option<Frame>
    /** The train-score flag the last fit ran with (false before any fit). */
    var fittedWithTrainScore: bool

    constructor (returnTrainScore: bool)
      ensures this.returnTrainScore == returnTrainScore && cvResults == None && !fittedWithTrainScore
    {
      this.returnTrainScore := returnTrainScore;
      cvResults := None;
      fittedWithTrainScore := false;
    }

    /** The library's cross-validated fit, which reads the flag; `fitted` stands for the results table it computes. */
    method Fit(fitted: Frame)
      modifies this
      ensures cvResults == Some(fitted)
      ensures fittedWithTrainScore == returnTrainScore
      ensures returnTrainScore == old(returnTrainScore)
    {
      cvResults := Some(fitted);
      fittedWithTrainScore := returnTrainScore;
    }
  }

  /** `fit_and_return_top_models`: sets the train-score flag, fits, builds the column list in a
      fresh list and returns the report (or the error). The caller's list is never written. */
  method FitAndReturnTopModels(search: SearchCV, n: int, fitted: Frame, additional: ColumnList,
                               returnTrainScore: bool, scoring: Name)
    returns (report: Result<Report>)
    modifies search
    ensures search.returnTrainScore == returnTrainScore
    ensures search.fittedWithTrainScore == returnTrainScore
    ensures search.cvResults == Some(fitted)
    ensures unchanged(additional)
    ensures report == TopModels(fitted, n, additional.items, returnTrainScore, scoring)
  {
    search.returnTrainScore := returnTrainScore;
    search.Fit(fitted);

    var columns := [RankColumn(scoring), MeanTestColumn(scoring), FitTimeColumn];
    if returnTrainScore {
      columns := columns + [MeanTrainColumn(scoring)];
    }
    columns := columns + additional.items;
    assert columns == SelectedColumns(scoring, returnTrainScore, additional.items);

    report := Chain(search.cvResults.value, columns, RankColumn(scoring), n);
  }
}
