/** Collapsing the education column onto a list of allowed categories:
    `df["education"].apply(lambda x: x if x in categories_list else "Others").to_frame()`,
    the body shared by every `map_to_other` of the pipeline. */
module Categories {
  import opened Frames

  const Education: Name := "education"
  const Others: Value := Text("Others")

  /** Each value is kept when it is one of `allowed` and replaced by "Others" otherwise. */
  function Collapse(vs: seq<Value>, allowed: seq<Value>): (r: seq<Value>)
    ensures |r| == |vs|
  {
    seq(|vs|, i requires 0 <= i < |vs| => if vs[i] in allowed then vs[i] else Others)
  }

  lemma CollapseKeepsAllowed(vs: seq<Value>, allowed: seq<Value>, i: nat)
    requires i < |vs|
    ensures vs[i] in allowed ==> Collapse(vs, allowed)[i] == vs[i]
    ensures vs[i] !in allowed ==> Collapse(vs, allowed)[i] == Others
  {
  }

  /** Every collapsed value is an allowed category or "Others". */
  lemma CollapseRange(vs: seq<Value>, allowed: seq<Value>)
    ensures forall v :: v in Collapse(vs, allowed) ==> v in allowed || v == Others
  {
  }

  /** Collapsing twice is collapsing once. */
  lemma CollapseIdempotent(vs: seq<Value>, allowed: seq<Value>)
    ensures Collapse(Collapse(vs, allowed), allowed) == Collapse(vs, allowed)
  {
  }

  /** `map_to_other`: the one-column frame "education", row for row, with the values collapsed.
      A frame without an "education" column raises KeyError. */
  function MapToOther(df: Frame, allowed: seq<Value>): (r: Result<Frame>)
    ensures r.Ok? <==> Education in df.columns
    ensures r.Err? ==> r.error == KeyError([Education])
    ensures r.Ok? ==> r.value.columns == [Education] && |r.value.rows| == |df.rows|
    ensures r.Ok? ==> Column(r.value, Education) == Collapse(Column(df, Education), allowed)
  {
    if Education !in df.columns then Err(KeyError([Education]))
    else
      var collapsed := Collapse(Column(df, Education), allowed);
      Ok(Frame([Education], map[Education := ObjectDType],
               seq(|df.rows|, i requires 0 <= i < |df.rows| => map[Education := collapsed[i]])))
  }

  /** Applying `map_to_other` to its own output changes nothing. */
  lemma {:induction false} MapToOtherIdempotent(df: Frame, allowed: seq<Value>)
    requires Education in df.columns
    ensures MapToOther(MapToOther(df, allowed).value, allowed) == MapToOther(df, allowed)
  {
    var once := MapToOther(df, allowed).value;
    CollapseIdempotent(Column(df, Education), allowed);
    var twice := MapToOther(once, allowed).value;
    assert twice.rows == once.rows by {
      forall i | 0 <= i < |once.rows| ensures twice.rows[i] == once.rows[i] {
        assert Column(twice, Education)[i] == Column(once, Education)[i];
      }
    }
  }
}
