/** `plot_histogram_with_exclusions` (matplotlib version): which columns get a
    histogram. The drawing itself (`df[numeric_cols].hist(...)`) is not modelled;
    the model returns the list of columns handed to it. */
module HistogramExclusions {
  import opened Frames

  /** The first argument: a DataFrame, or any other object. */
  datatype Arg = FrameArg(frame: Frame) | OtherArg

  /** The condition `if columns_to_exclude:` — `None` and the empty list are false. */
  predicate Truthy(excl: Option<seq<Name>>) {
    excl.Some? && excl.value != []
  }

  /** The numeric columns to plot, or TypeError for an argument that is not a DataFrame. */
  function HistogramColumns(arg: Arg, excl: Option<seq<Name>>): (r: Result<seq<Name>>)
    ensures r.Err? <==> arg.OtherArg?
    ensures r.Err? ==> r.error == TypeError
    ensures r.Ok? ==> IsSubsequence(r.value, arg.frame.columns)
    ensures r.Ok? ==> forall c :: c in r.value <==>
      c in arg.frame.columns && IsNumeric(arg.frame, c) && !(excl.Some? && c in excl.value)
  {
    match arg
    case OtherArg => Err(TypeError)
    case FrameArg(df) =>
      var numeric := SelectNumeric(df);
      if Truthy(excl) then
        var exclusions := excl.value;
        var kept := Filter(numeric, c => c !in exclusions);
        SubsequenceTransitive(kept, numeric, df.columns);
        Ok(kept)
      else Ok(numeric)
  }

  /** `df[numeric_cols].hist(...)` on the selection: pandas refuses an empty selection with ValueError
      ("nothing to plot"); otherwise one histogram per selected column, given here by its column. */
  function PlotHistogramWithExclusions(arg: Arg, excl: Option<seq<Name>>): (r: Result<seq<Name>>)
    ensures arg.OtherArg? ==> r == Err(TypeError)
    ensures arg.FrameArg? && HistogramColumns(arg, excl).value == [] ==> r == Err(ValueError)
    ensures r.Ok? <==> arg.FrameArg? && HistogramColumns(arg, excl).value != []
    ensures r.Ok? ==> r.value == HistogramColumns(arg, excl).value
  {
    match HistogramColumns(arg, excl)
    case Err(e) => Err(e)
    case Ok(cols) => if cols == [] then Err(ValueError) else Ok(cols)
  }

  /** Without exclusions (`None` or `[]`), every number column is plotted, in frame order. */
  lemma NoExclusionsSelectsAllNumeric(df: Frame, excl: Option<seq<Name>>)
    requires !Truthy(excl)
    ensures HistogramColumns(FrameArg(df), excl) == Ok(Filter(df.columns, c => IsNumeric(df, c)))
  {
  }

  /** With an exclusion list, the selection is that single filter over the frame's columns. */
  lemma {:induction false} ExclusionIsOneFilter(df: Frame, excl: seq<Name>)
    ensures HistogramColumns(FrameArg(df), Some(excl)) == Ok(NumericNotExcluded(df, excl))
  {
    var numeric := (c: Name) => IsNumeric(df, c);
    var notExcluded := (c: Name) => c !in excl;
    var both := (c: Name) => IsNumeric(df, c) && c !in excl;
    if excl == [] {
      FilterCongruent(df.columns, numeric, both);
    } else {
      FilterCompose(df.columns, numeric, notExcluded, both);
    }
  }

  /** Names that are not columns of the frame have no effect on the selection. */
  lemma {:induction false} NonColumnsIgnored(df: Frame, excl: seq<Name>, extra: seq<Name>)
    requires forall c :: c in extra ==> c !in df.columns
    ensures HistogramColumns(FrameArg(df), Some(excl + extra)) == HistogramColumns(FrameArg(df), Some(excl))
  {
    ExclusionIsOneFilter(df, excl);
    ExclusionIsOneFilter(df, excl + extra);
    FilterCongruent(df.columns, c => IsNumeric(df, c) && c !in excl + extra, c => IsNumeric(df, c) && c !in excl);
    assert NumericNotExcluded(df, excl + extra) == NumericNotExcluded(df, excl);
  }

  /** Excluding every number column leaves nothing to plot. */
  lemma ExcludingAllNumericIsEmpty(df: Frame, excl: seq<Name>)
    requires forall c :: c in df.columns && IsNumeric(df, c) ==> c in excl
    ensures HistogramColumns(FrameArg(df), Some(excl)) == Ok([])
  {
    ExclusionIsOneFilter(df, excl);
    FilterNone(df.columns, c => IsNumeric(df, c) && c !in excl);
  }

  /** Excluding every number column leaves nothing to plot, and the plot call raises ValueError. */
  lemma ExcludingAllNumericRaises(df: Frame, excl: seq<Name>)
    requires forall c :: c in df.columns && IsNumeric(df, c) ==> c in excl
    ensures PlotHistogramWithExclusions(FrameArg(df), Some(excl)) == Err(ValueError)
  {
    ExcludingAllNumericIsEmpty(df, excl);
  }

  /** A column that is not a number column is never plotted, whatever is excluded. */
  lemma NonNumericNeverSelected(df: Frame, excl: Option<seq<Name>>, c: Name)
    requires !IsNumeric(df, c)
    ensures c !in HistogramColumns(FrameArg(df), excl).value
  {
  }
}
