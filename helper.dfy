/** The helper module: `sum`, and the altair version of
    `plot_histogram_with_exclusions`, whose charts are modelled by the column
    each one draws and its title. */
module Helper {
  import opened Frames

  /** The example function `sum`, on integers. */
  function Sum(a: int, b: int): int {
    a + b
  }

  /** `sum` is addition: it is commutative and 0 is neutral. */
  lemma SumIsAddition(a: int, b: int)
    ensures Sum(a, b) == Sum(b, a)
    ensures Sum(a, 0) == a
    ensures Sum(Sum(a, b), -b) == a
  {
  }

  /** The four cases of the unit test. */
  lemma SumExamples()
    ensures Sum(1, 2) == 3 && Sum(1, -1) == 0 && Sum(1, 0) == 1 && Sum(1, 1) == 2
  {
  }

  /** `[col for col in columns_to_exclude if col in df.columns]`: the given names that are columns, in the given order. */
  function ExistingExclusions(excl: seq<Name>, columns: seq<Name>): (r: seq<Name>)
    ensures forall c :: c in r <==> c in excl && c in columns
    ensures IsSubsequence(r, excl)
  {
    Filter(excl, c => c in columns)
  }

  /** The charted columns: drop the existing exclusions, then take the number columns of what is left. */
  function ChartedColumns(df: Frame, excl: seq<Name>): (r: seq<Name>)
    ensures r == NumericNotExcluded(df, excl)
  {
    var existing := ExistingExclusions(excl, df.columns);
    var dropped := Drop(df, existing);
    var notDropped := (c: Name) => c !in existing;
    var numeric := (c: Name) => IsNumeric(dropped, c);
    FilterCompose(df.columns, notDropped, numeric, c => IsNumeric(df, c) && c !in excl);
    SelectNumeric(dropped)
  }

  /** A chart: the column it draws and its title. */
  datatype Chart = Chart(column: Name, title: string)

  const TitlePrefix: string := "Histogram of "

  /** The chart title `f"Histogram of {col}"`: it starts with the prefix, and the column can be read back from it. */
  function Title(col: Name): (t: string)
    ensures |t| >= |TitlePrefix| && t[..|TitlePrefix|] == TitlePrefix
    ensures TitledColumn(t) == col
  {
    var t := TitlePrefix + col;
    assert t[|TitlePrefix|..] == col;
    assert t[..|TitlePrefix|] == TitlePrefix;
    t
  }

  /** The column a title was made for. */
  function TitledColumn(title: string): Name
    requires |title| >= |TitlePrefix|
  {
    title[|TitlePrefix|..]
  }

  /** `alt.vconcat(*charts)`: one chart per charted column, in the same order. */
  function PlotHistogramWithExclusions(df: Frame, excl: seq<Name>): (r: seq<Chart>)
    ensures |r| == |NumericNotExcluded(df, excl)|
    ensures forall i :: 0 <= i < |r| ==>
      r[i].column == NumericNotExcluded(df, excl)[i] &&
      |r[i].title| >= |TitlePrefix| && r[i].title[..|TitlePrefix|] == TitlePrefix &&
      TitledColumn(r[i].title) == r[i].column
  {
    var cols := ChartedColumns(df, excl);
    seq(|cols|, i requires 0 <= i < |cols| => Chart(cols[i], Title(cols[i])))
  }

  /** Every charted column is a number column of the frame that was not excluded, and each such column gets a chart. */
  lemma ChartsCoverCharted(df: Frame, excl: seq<Name>, c: Name)
    ensures (exists i :: 0 <= i < |PlotHistogramWithExclusions(df, excl)| &&
               PlotHistogramWithExclusions(df, excl)[i].column == c)
            <==> c in df.columns && IsNumeric(df, c) && c !in excl
  {
    var r := PlotHistogramWithExclusions(df, excl);
    var cols := NumericNotExcluded(df, excl);
    if c in cols {
      var i :| 0 <= i < |cols| && cols[i] == c;
      assert r[i].column == c;
    }
  }

  /** Excluding names that are not columns changes no chart. */
  lemma {:induction false} NonColumnsIgnored(df: Frame, excl: seq<Name>, extra: seq<Name>)
    requires forall c :: c in extra ==> c !in df.columns
    ensures PlotHistogramWithExclusions(df, excl + extra) == PlotHistogramWithExclusions(df, excl)
  {
    FilterCongruent(df.columns, c => IsNumeric(df, c) && c !in excl + extra, c => IsNumeric(df, c) && c !in excl);
    assert NumericNotExcluded(df, excl + extra) == NumericNotExcluded(df, excl);
  }
}
