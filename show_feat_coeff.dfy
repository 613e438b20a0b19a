/** `show_feat_coeff`: the fitted model's coefficients, one row per feature,
    labelled by position and sorted by descending coefficient. The
    coefficients come from an already fitted pipeline and are inputs here. */
module ShowFeatCoeff {
  import opened Frames
  import opened Sorting

  /** A pipeline step: `coef_` is present on a fitted linear model and absent otherwise. */
  datatype Estimator = Estimator(coef: Option<seq<real>>)

  /** `pipe_obj.named_steps`. */
  type NamedSteps = map<string, Estimator>

  /** One row of the result: its index label and its "Coefficients" cell. */
  datatype CoefRow = CoefRow(feature: Name, coefficient: real)

  datatype CoefTable = CoefTable(columns: seq<Name>, rows: seq<CoefRow>)

  const CoefficientsColumn: Name := "Coefficients"

  /** The labels of rows, top to bottom. */
  function Features(rows: seq<CoefRow>): (r: seq<Name>)
    ensures |r| == |rows|
  {
    if rows == [] then [] else [rows[0].feature] + Features(rows[1..])
  }

  /** The index of a table. */
  function Index(t: CoefTable): seq<Name> {
    Features(t.rows)
  }

  /** `pipe_obj.named_steps[model_name].coef_`: KeyError for an unknown step, AttributeError for a step without coefficients. */
  function Coefficients(steps: NamedSteps, modelName: string): (r: Result<seq<real>>)
    ensures r.Ok? <==> modelName in steps && steps[modelName].coef.Some?
    ensures modelName !in steps ==> r == Err(KeyError([modelName]))
    ensures modelName in steps && steps[modelName].coef.None? ==> r == Err(AttributeError)
    ensures r.Ok? ==> r.value == steps[modelName].coef.value
  {
    if modelName !in steps then Err(KeyError([modelName]))
    else match steps[modelName].coef
      case None => Err(AttributeError)
      case Some(c) => Ok(c)
  }

  /** The i-th name paired with the i-th coefficient. */
  function Pair(names: seq<Name>, coefs: seq<real>): (r: seq<CoefRow>)
    requires |names| == |coefs|
    ensures |r| == |names|
    ensures forall i :: 0 <= i < |r| ==> r[i] == CoefRow(names[i], coefs[i])
  {
    seq(|names|, i requires 0 <= i < |names| => CoefRow(names[i], coefs[i]))
  }

  function Descending(r: CoefRow): real {
    -r.coefficient
  }

  /** `pd.DataFrame(data=coefs, index=names, columns=["Coefficients"]).sort_values(by="Coefficients", ascending=False)`.
      DataFrame construction fails with ValueError when the index and the data differ in length. */
  function CoefficientTable(names: seq<Name>, coefs: seq<real>): (r: Result<CoefTable>)
    ensures r.Ok? <==> |names| == |coefs|
    ensures r.Err? ==> r.error == ValueError
    ensures r.Ok? ==> r.value.columns == [CoefficientsColumn] && |r.value.rows| == |coefs|
    ensures r.Ok? ==> forall i, j :: 0 <= i <= j < |r.value.rows| ==>
      r.value.rows[i].coefficient >= r.value.rows[j].coefficient
    ensures r.Ok? ==> multiset(r.value.rows) == multiset(Pair(names, coefs))
  {
    if |names| != |coefs| then Err(ValueError)
    else Ok(CoefTable([CoefficientsColumn], SortBy(Pair(names, coefs), Descending)))
  }

  /** The argument X: a DataFrame, known by its column labels, or an array-like without `.columns`. */
  datatype Examples = Table(columns: seq<Name>) | ArrayLike

  /** `show_feat_coeff(pipe_obj, model_name, X)`: the step lookup (line 49) comes first, then `X.columns`
      (AttributeError for an array-like), then the table. */
  function ShowFeatCoeff(steps: NamedSteps, modelName: string, x: Examples): (r: Result<CoefTable>)
    ensures Coefficients(steps, modelName).Err? ==> r == Err(Coefficients(steps, modelName).error)
    ensures Coefficients(steps, modelName).Ok? && x.ArrayLike? ==> r == Err(AttributeError)
    ensures Coefficients(steps, modelName).Ok? && x.Table? ==>
      r == CoefficientTable(x.columns, Coefficients(steps, modelName).value)
  {
    match Coefficients(steps, modelName)
    case Err(e) => Err(e)
    case Ok(coefs) =>
      match x
      case ArrayLike => Err(AttributeError)
      case Table(columns) => CoefficientTable(columns, coefs)
  }

  /** The call succeeds exactly when the step exists, has coefficients, X is a DataFrame, and there is
      one coefficient per column of X. */
  lemma ShowFeatCoeffOkIff(steps: NamedSteps, modelName: string, x: Examples)
    ensures ShowFeatCoeff(steps, modelName, x).Ok? <==>
      modelName in steps && steps[modelName].coef.Some? && x.Table? && |steps[modelName].coef.value| == |x.columns|
  {
  }

  /** Every row keeps its own coefficient: each (column, coefficient) pair appears as often as in the positional pairing,
      so a repeated column name stays as several rows. */
  lemma {:induction false} RowsArePairs(names: seq<Name>, coefs: seq<real>, k: nat)
    requires |names| == |coefs| && k < |names|
    ensures CoefRow(names[k], coefs[k]) in CoefficientTable(names, coefs).value.rows
    ensures |CoefficientTable(names, coefs).value.rows| == |names|
  {
    var rows := CoefficientTable(names, coefs).value.rows;
    var pairs := Pair(names, coefs);
    assert pairs[k] in multiset(pairs);
    assert pairs[k] in multiset(rows);
  }

  /** The labels of the result are X's columns, each as often as it occurs there: a repeated column name gives several rows. */
  lemma LabelsAreColumns(names: seq<Name>, coefs: seq<real>)
    requires |names| == |coefs|
    ensures multiset(Index(CoefficientTable(names, coefs).value)) == multiset(names)
  {
    var pairs := Pair(names, coefs);
    FeaturesOfPermutation(SortBy(pairs, Descending), pairs);
    FeaturesOfPair(names, coefs);
  }

  /** Rearranging rows rearranges their labels the same way. */
  lemma {:induction false} FeaturesOfPermutation(s: seq<CoefRow>, t: seq<CoefRow>)
    requires multiset(s) == multiset(t)
    ensures multiset(Features(s)) == multiset(Features(t))
    decreases |s|
  {
    if s == [] {
      assert |t| == |multiset(t)| == |multiset(s)| == 0;
    } else {
      assert s[0] in multiset(t);
      var k :| 0 <= k < |t| && t[k] == s[0];
      var a, b := t[..k], t[k + 1..];
      var rest := a + b;
      assert t == a + [s[0]] + b;
      RemoveOne(a, s[0], b);
      RemoveLabel(a, s[0], b);
      assert s == [s[0]] + s[1..];
      assert multiset(s) == multiset(s[1..]) + multiset{s[0]};
      Cancel(multiset(s[1..]), multiset(rest), s[0]);
      FeaturesAppend([s[0]], s[1..]);
      FeaturesOfPermutation(s[1..], rest);
    }
  }

  /** Taking out one row takes out its label. */
  lemma RemoveLabel(a: seq<CoefRow>, x: CoefRow, b: seq<CoefRow>)
    ensures multiset(Features(a + [x] + b)) == multiset(Features(a + b)) + multiset{x.feature}
  {
    FeaturesAppend(a + [x], b);
    FeaturesAppend(a, [x]);
    FeaturesAppend(a, b);
    assert Features([x]) == [x.feature];
    RemoveOne(Features(a), x.feature, Features(b));
  }

  lemma {:induction false} FeaturesOfPair(names: seq<Name>, coefs: seq<real>)
    requires |names| == |coefs|
    ensures Features(Pair(names, coefs)) == names
  {
    if names != [] {
      assert Pair(names, coefs)[1..] == Pair(names[1..], coefs[1..]);
      FeaturesOfPair(names[1..], coefs[1..]);
      assert [names[0]] + names[1..] == names;
    }
  }

  lemma Cancel<T>(a: multiset<T>, b: multiset<T>, x: T)
    requires a + multiset{x} == b + multiset{x}
    ensures a == b
  {
    assert forall y :: a[y] == (a + multiset{x})[y] - multiset{x}[y];
    assert forall y :: b[y] == (b + multiset{x})[y] - multiset{x}[y];
  }

  lemma RemoveOne<T>(a: seq<T>, x: T, b: seq<T>)
    ensures multiset(a + [x] + b) == multiset(a + b) + multiset{x}
  {
  }

  lemma {:induction false} FeaturesAppend(a: seq<CoefRow>, b: seq<CoefRow>)
    ensures Features(a + b) == Features(a) + Features(b)
  {
    if a != [] {
      assert (a + b)[1..] == a[1..] + b;
      FeaturesAppend(a[1..], b);
    } else {
      assert a + b == b;
    }
  }

  /** With strictly decreasing coefficients the rows stay in X's column order. */
  lemma StrictlyDecreasingKeepsOrder(names: seq<Name>, coefs: seq<real>)
    requires |names| == |coefs|
    requires forall i, j :: 0 <= i < j < |coefs| ==> coefs[i] > coefs[j]
    ensures Index(CoefficientTable(names, coefs).value) == names
  {
    var pairs := Pair(names, coefs);
    SortByStrictlySorted(pairs, Descending);
    FeaturesOfPair(names, coefs);
  }

  /** The index need not be X's column order: with coefficients 0 and 1 the second column comes first. */
  lemma IndexCanDifferFromColumns()
    ensures Index(CoefficientTable(["a", "b"], [0.0, 1.0]).value) == ["b", "a"]
  {
    var pairs := Pair(["a", "b"], [0.0, 1.0]);
    assert pairs == [CoefRow("a", 0.0), CoefRow("b", 1.0)];
    assert pairs[1..] == [CoefRow("b", 1.0)];
    assert SortBy(pairs[1..], Descending) == [CoefRow("b", 1.0)];
  }
}
