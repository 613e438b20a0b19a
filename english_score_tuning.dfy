/** The tuning script's own pieces: `map_to_other` with its fixed list of
    education levels, and the split of a loaded frame into features and the
    target column "correct" done by `get_train_data` and `get_test_data`. */
module EnglishScoreTuning {
  import opened Frames
  import Categories

  /** The eight categories of `map_to_other`, "Others" last. */
  const EducationCategories: seq<Value> := [
    Text("Graduate Degree"),
    Text("Some Graduate School"),
    Text("Undergraduate Degree (3-5 years higher ed)"),
    Text("Some Undergrad (higher ed)"),
    Text("High School Degree (12-13 years)"),
    Text("Haven't Finished High School (less than 13 years ed)"),
    Text("Didn't Finish High School (less than 13 years ed)"),
    Text("Others")
  ]

  /** `map_to_other(df)` with the fixed list. */
  function MapToOther(df: Frame): (r: Result<Frame>)
    ensures r.Ok? <==> Categories.Education in df.columns
    ensures r.Err? ==> r.error == KeyError([Categories.Education])
    ensures r.Ok? ==> r.value.columns == [Categories.Education] && |r.value.rows| == |df.rows|
    ensures r.Ok? ==> forall i :: 0 <= i < |df.rows| ==>
      var v := Cell(df.rows[i], Categories.Education);
      Column(r.value, Categories.Education)[i] == (if v in EducationCategories then v else Categories.Others)
  {
    Categories.MapToOther(df, EducationCategories)
  }

  /** Each of the eight listed values comes out unchanged. */
  lemma ListedValuesUnchanged(df: Frame, i: nat)
    requires Categories.Education in df.columns && i < |df.rows|
    requires Cell(df.rows[i], Categories.Education) in EducationCategories
    ensures Column(MapToOther(df).value, Categories.Education)[i] == Cell(df.rows[i], Categories.Education)
  {
  }

  /** Every value that comes out is one of the eight, because "Others" is itself in the list. */
  lemma OutputsAreListed(df: Frame)
    requires Categories.Education in df.columns
    ensures forall v :: v in Column(MapToOther(df).value, Categories.Education) ==> v in EducationCategories
  {
    Categories.CollapseRange(Column(df, Categories.Education), EducationCategories);
    assert Categories.Others == EducationCategories[7];
  }

  /** Mapping a second time changes nothing. */
  lemma MapToOtherIdempotent(df: Frame)
    requires Categories.Education in df.columns
    ensures MapToOther(MapToOther(df).value) == MapToOther(df)
  {
    Categories.MapToOtherIdempotent(df, EducationCategories);
  }

  /** The name of the target column. */
  const Target: Name := "correct"

  /** Features and target of one split. */
  datatype Split = Split(x: Frame, y: seq<Value>)

  /** `X = df.drop(columns="correct")` and `y = df["correct"]`; without that column `drop` raises KeyError. */
  function SplitTarget(df: Frame): (r: Result<Split>)
    ensures r.Ok? <==> Target in df.columns
    ensures r.Err? ==> r.error == KeyError([Target])
    ensures r.Ok? ==> forall c :: c in r.value.x.columns <==> c in df.columns && c != Target
    ensures r.Ok? ==> IsSubsequence(r.value.x.columns, df.columns)
    ensures r.Ok? ==> |r.value.x.rows| == |df.rows| && r.value.y == Column(df, Target)
    ensures r.Ok? ==> forall i, c :: 0 <= i < |df.rows| && c != Target ==>
      Cell(r.value.x.rows[i], c) == Cell(df.rows[i], c)
  {
    if Target !in df.columns then Err(KeyError([Target]))
    else Ok(Split(Drop(df, [Target]), Column(df, Target)))
  }

  /** The split loses nothing: every cell of the frame is either in X or in y. */
  lemma SplitRecombines(df: Frame, i: nat, c: Name)
    requires SplitTarget(df).Ok? && i < |df.rows|
    ensures Cell(df.rows[i], c) ==
      (if c == Target then SplitTarget(df).value.y[i] else Cell(SplitTarget(df).value.x.rows[i], c))
  {
  }

  /** The target is not among the features. */
  lemma TargetNotAFeature(df: Frame)
    requires SplitTarget(df).Ok?
    ensures Target !in SplitTarget(df).value.x.columns
    ensures |SplitTarget(df).value.y| == |SplitTarget(df).value.x.rows|
  {
  }
}
