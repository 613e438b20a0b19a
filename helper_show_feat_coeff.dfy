/** The helper version of `show_feat_coeff`: its labels are the preprocessor's
    output feature names, each cut down to its last piece under
    `name.split('__')[-1]`. */
module HelperShowFeatCoeff {
  import opened Frames
  import Coef = ShowFeatCoeff

  const Separator: string := "__"

  /** `s` holds two consecutive underscores somewhere. */
  ghost predicate ContainsSeparator(s: string) {
    exists i :: 0 <= i < |s| - 1 && s[i] == '_' && s[i + 1] == '_'
  }

  /** Python's `s.split('__')`: scanning left to right, every non-overlapping "__" ends a piece. */
  function Split(s: string): (r: seq<string>)
    ensures |r| >= 1
    decreases |s|
  {
    if |s| < 2 then [s]
    else if s[0] == '_' && s[1] == '_' then [""] + Split(s[2..])
    else
      var rest := Split(s[1..]);
      [[s[0]] + rest[0]] + rest[1..]
  }

  /** `'__'.join(pieces)`. */
  function Join(pieces: seq<string>): string
    requires |pieces| >= 1
  {
    if |pieces| == 1 then pieces[0] else pieces[0] + Separator + Join(pieces[1..])
  }

  lemma {:induction false} JoinPrepend(c: char, pieces: seq<string>)
    requires |pieces| >= 1
    ensures Join([[c] + pieces[0]] + pieces[1..]) == [c] + Join(pieces)
  {
    var ps := [[c] + pieces[0]] + pieces[1..];
    assert ps[1..] == pieces[1..];
  }

  /** Joining the pieces with "__" gives back the name: splitting loses nothing. */
  lemma {:induction false} JoinSplit(s: string)
    ensures Join(Split(s)) == s
    decreases |s|
  {
    if |s| < 2 {
    } else if s[0] == '_' && s[1] == '_' {
      JoinSplit(s[2..]);
      var ps := [""] + Split(s[2..]);
      assert ps[1..] == Split(s[2..]);
      assert s == Separator + s[2..];
    } else {
      JoinSplit(s[1..]);
      JoinPrepend(s[0], Split(s[1..]));
      assert s == [s[0]] + s[1..];
    }
  }

  /** The first piece is where the name starts. */
  lemma {:induction false} FirstPieceIsPrefix(s: string)
    ensures |Split(s)[0]| <= |s| && Split(s)[0] == s[..|Split(s)[0]|]
    decreases |s|
  {
    if |s| >= 2 && !(s[0] == '_' && s[1] == '_') {
      FirstPieceIsPrefix(s[1..]);
    }
  }

  /** No piece contains "__". */
  lemma {:induction false} PiecesHaveNoSeparator(s: string)
    ensures forall p :: p in Split(s) ==> !ContainsSeparator(p)
    decreases |s|
  {
    if |s| < 2 {
    } else if s[0] == '_' && s[1] == '_' {
      PiecesHaveNoSeparator(s[2..]);
    } else {
      var rest := Split(s[1..]);
      PiecesHaveNoSeparator(s[1..]);
      FirstPieceIsPrefix(s[1..]);
      var first := [s[0]] + rest[0];
      assert rest[0] in rest;
      forall i | 0 <= i < |first| - 1 ensures !(first[i] == '_' && first[i + 1] == '_') {
        if i == 0 {
          assert first[1] == rest[0][0] == s[1];
        } else {
          assert first[i] == rest[0][i - 1] && first[i + 1] == rest[0][i];
        }
      }
      assert forall p :: p in rest[1..] ==> p in rest;
    }
  }

  /** The name splits into a single piece exactly when it holds no "__". */
  lemma SplitIsSingleIff(s: string)
    ensures |Split(s)| == 1 <==> !ContainsSeparator(s)
  {
    JoinSplit(s);
    PiecesHaveNoSeparator(s);
    var ps := Split(s);
    assert ps[0] in ps;
    if |ps| > 1 {
      var k := |ps[0]|;
      assert s == ps[0] + Separator + Join(ps[1..]);
      assert s[k] == '_' && s[k + 1] == '_';
    }
  }

  /** The last piece is where the name ends. */
  lemma LastPieceIsSuffix(s: string)
    ensures var last := Split(s)[|Split(s)| - 1]; |last| <= |s| && last == s[|s| - |last|..]
  {
    var ps := Split(s);
    JoinSplit(s);
    if |ps| >= 2 {
      JoinLast(ps);
    }
  }

  /** The label made from an output feature name, `name.split('__')[-1]`: an end of the name holding no "__". */
  function FeatureName(s: string): (r: string)
    ensures |r| <= |s| && r == s[|s| - |r|..]
    ensures !ContainsSeparator(r)
  {
    var ps := Split(s);
    PiecesHaveNoSeparator(s);
    LastPieceIsSuffix(s);
    assert ps[|ps| - 1] in ps;
    ps[|ps| - 1]
  }

  lemma {:induction false} JoinLast(pieces: seq<string>)
    requires |pieces| >= 2
    ensures Join(pieces) == Join(pieces[..|pieces| - 1]) + Separator + pieces[|pieces| - 1]
  {
    if |pieces| > 2 {
      JoinLast(pieces[1..]);
      assert pieces[1..][..|pieces| - 2] == pieces[..|pieces| - 1][1..];
    }
  }

  /** A name without "__" is its own label. */
  lemma FeatureNameOfPlainName(s: string)
    requires !ContainsSeparator(s)
    ensures FeatureName(s) == s
  {
    SplitIsSingleIff(s);
    JoinSplit(s);
  }

  /** A name with "__" ends in "__" followed by its label. */
  lemma FeatureNameIsLastPiece(s: string)
    requires ContainsSeparator(s)
    ensures exists p :: s == p + Separator + FeatureName(s)
  {
    SplitIsSingleIff(s);
    JoinSplit(s);
    var ps := Split(s);
    JoinLast(ps);
    var p := Join(ps[..|ps| - 1]);
    assert s == p + Separator + FeatureName(s);
  }

  /** The labels for a list of output feature names, position by position. */
  function FeatureNames(names: seq<string>): (r: seq<Name>)
    ensures |r| == |names|
    ensures forall i :: 0 <= i < |names| ==> r[i] == FeatureName(names[i])
  {
    seq(|names|, i requires 0 <= i < |names| => FeatureName(names[i]))
  }

  /** `show_feat_coeff(pipe_obj, model_name, preprocessor_obj)`, given `get_feature_names_out()` as `namesOut`. */
  function ShowFeatCoeff(steps: Coef.NamedSteps, modelName: string, namesOut: seq<string>)
    : (r: Result<Coef.CoefTable>)
    ensures Coef.Coefficients(steps, modelName).Err? ==>
      r == Err(Coef.Coefficients(steps, modelName).error)
    ensures Coef.Coefficients(steps, modelName).Ok? ==>
      r == Coef.CoefficientTable(FeatureNames(namesOut), Coef.Coefficients(steps, modelName).value)
  {
    match Coef.Coefficients(steps, modelName)
    case Err(e) => Err(e)
    case Ok(coefs) => Coef.CoefficientTable(FeatureNames(namesOut), coefs)
  }

  /** On success: one row per output feature, labelled by the feature's last piece, none of which contains "__". */
  lemma ShowFeatCoeffLabels(steps: Coef.NamedSteps, modelName: string, namesOut: seq<string>)
    requires ShowFeatCoeff(steps, modelName, namesOut).Ok?
    ensures multiset(Coef.Index(ShowFeatCoeff(steps, modelName, namesOut).value)) ==
            multiset(FeatureNames(namesOut))
    ensures forall l :: l in Coef.Index(ShowFeatCoeff(steps, modelName, namesOut).value) ==>
            !ContainsSeparator(l)
  {
    var coefs := Coef.Coefficients(steps, modelName).value;
    var labels := FeatureNames(namesOut);
    Coef.LabelsAreColumns(labels, coefs);
    forall l | l in Coef.Index(ShowFeatCoeff(steps, modelName, namesOut).value)
      ensures !ContainsSeparator(l)
    {
      assert l in multiset(labels);
      var i :| 0 <= i < |labels| && labels[i] == l;
    }
  }

  /** "a___b" splits as "a" and "_b": the label keeps an underscore that belongs to an overlapping "__". */
  lemma OverlappingSeparator()
    ensures FeatureName("a___b") == "_b"
  {
    assert "a___b"[1..] == "___b";
    assert "___b"[2..] == "_b";
    assert "_b"[1..] == "b" && Split("b") == ["b"];
    assert "_b"[0] == '_' && ['_'] + "b" == "_b";
    assert Split("_b") == ["_b"];
    assert Split("___b") == ["", "_b"];
    assert "a___b"[0] == 'a' && ['a'] + "" == "a";
  }
}
