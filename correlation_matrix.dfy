/** `pearson_correlation_matrix`: which features enter the correlation matrix,
    and how the matrix is labelled. The correlation values are floating-point
    library work and are not modelled. */
module CorrelationMatrix {
  import opened Frames

  /** `Series.nunique()`: the number of distinct non-null values. */
  function NUnique(vs: seq<Value>): (n: nat)
    ensures n == 0 <==> forall i :: 0 <= i < |vs| ==> vs[i] == Missing
  {
    var distinct := set v | v in vs && v != Missing;
    assert (exists i :: 0 <= i < |vs| && vs[i] != Missing) ==> distinct != {} by {
      if exists i :: 0 <= i < |vs| && vs[i] != Missing {
        var i :| 0 <= i < |vs| && vs[i] != Missing;
        assert vs[i] in distinct;
      }
    }
    |distinct|
  }

  /** The column holds two different non-null values. */
  ghost predicate Varies(vs: seq<Value>) {
    exists i, j :: 0 <= i < |vs| && 0 <= j < |vs| && vs[i] != Missing && vs[j] != Missing && vs[i] != vs[j]
  }

  /** More than one distinct non-null value means exactly: two different non-null values occur. */
  lemma NUniqueAboveOne(vs: seq<Value>)
    ensures NUnique(vs) > 1 <==> Varies(vs)
  {
    var s := set v | v in vs && v != Missing;
    if Varies(vs) {
      var i, j :| 0 <= i < |vs| && 0 <= j < |vs| && vs[i] != Missing && vs[j] != Missing && vs[i] != vs[j];
      assert vs[i] in s && vs[j] in s;
      assert vs[j] in s - {vs[i]};
      assert |s - {vs[i]}| == |s| - 1;
    }
    if |s| > 1 {
      var a :| a in s;
      assert |s - {a}| == |s| - 1;
      var b :| b in s - {a};
      var i :| 0 <= i < |vs| && vs[i] == a;
      var j :| 0 <= j < |vs| && vs[j] == b;
    }
  }

  /** A null adds no distinct value. */
  lemma NullNotCounted(vs: seq<Value>)
    ensures NUnique(vs + [Missing]) == NUnique(vs)
  {
    assert (set v | v in vs + [Missing] && v != Missing) == (set v | v in vs && v != Missing);
  }

  /** The selected features: number columns with more than one distinct non-null value, in frame order. */
  function SelectedFeatures(df: Frame): (r: seq<Name>)
    ensures forall c :: c in r <==> c in df.columns && IsNumeric(df, c) && NUnique(Column(df, c)) > 1
    ensures IsSubsequence(r, df.columns)
  {
    FilterCompose(df.columns, c => IsNumeric(df, c), c => NUnique(Column(df, c)) > 1,
                  c => IsNumeric(df, c) && NUnique(Column(df, c)) > 1);
    Filter(SelectNumeric(df), c => NUnique(Column(df, c)) > 1)
  }

  /** The labels of the matrix `selected_features.corr()`: one row and one column per feature. */
  datatype Labels = Labels(index: seq<Name>, columns: seq<Name>)

  function PearsonCorrelationMatrix(df: Frame): (m: Labels)
    ensures m.index == m.columns
    ensures forall c :: c in m.index <==> c in df.columns && IsNumeric(df, c) && Varies(Column(df, c))
    ensures IsSubsequence(m.index, df.columns)
  {
    var features := SelectedFeatures(df);
    assert forall c :: c in df.columns ==> (NUnique(Column(df, c)) > 1 <==> Varies(Column(df, c))) by {
      forall c | c in df.columns ensures NUnique(Column(df, c)) > 1 <==> Varies(Column(df, c)) {
        NUniqueAboveOne(Column(df, c));
      }
    }
    Labels(features, features)
  }

  /** A frame without columns selects nothing. */
  lemma EmptyFrameSelectsNothing(df: Frame)
    requires df.columns == []
    ensures PearsonCorrelationMatrix(df).index == []
  {
  }

  /** A frame whose columns are all constant (apart from nulls) selects nothing. */
  lemma ConstantColumnsSelectNothing(df: Frame)
    requires forall c :: c in df.columns ==> !Varies(Column(df, c))
    ensures PearsonCorrelationMatrix(df).index == []
  {
  }

  /** Of a constant and a varying number column, only the varying one is kept. */
  lemma {:induction false} ConstantAndVarying(df: Frame, constant: Name, varying: Name)
    requires df.columns == [constant, varying] && constant != varying
    requires IsNumeric(df, constant) && IsNumeric(df, varying)
    requires !Varies(Column(df, constant)) && Varies(Column(df, varying))
    ensures PearsonCorrelationMatrix(df).index == [varying]
  {
    NUniqueAboveOne(Column(df, constant));
    NUniqueAboveOne(Column(df, varying));
    FilterCompose(df.columns, c => IsNumeric(df, c), c => NUnique(Column(df, c)) > 1,
                  c => IsNumeric(df, c) && NUnique(Column(df, c)) > 1);
    assert df.columns[1..] == [varying];
    assert df.columns[1..][1..] == [];
  }

  /** Nulls do not exclude a column: a number column with a null and two different values is kept. */
  lemma NullsDoNotExclude(df: Frame, c: Name)
    requires c in df.columns && IsNumeric(df, c)
    requires Missing in Column(df, c) && Varies(Column(df, c))
    ensures c in PearsonCorrelationMatrix(df).index
  {
  }

  /** The frame of the unit tests: A and B vary, C and D are constant, E varies and holds a null. */
  function SampleFrame(): Frame {
    var types := map["A" := IntDType, "B" := IntDType, "C" := IntDType, "D" := IntDType, "E" := FloatDType];
    var e := [Real(1.0), Real(2.0), Real(1.0), Real(2.0), Missing];
    Frame(["A", "B", "C", "D", "E"], types,
          seq(5, i requires 0 <= i < 5 =>
            map["A" := Int(i + 1), "B" := Int(i + 5), "C" := Int(1), "D" := Int(2), "E" := e[i]]))
  }

  lemma SampleVarying(c: Name)
    requires c in ["A", "B", "E"]
    ensures NUnique(Column(SampleFrame(), c)) > 1
  {
    var vs := Column(SampleFrame(), c);
    assert vs[0] != Missing && vs[1] != Missing && vs[0] != vs[1];
    NUniqueAboveOne(vs);
  }

  lemma SampleConstantC()
    ensures !(NUnique(Column(SampleFrame(), "C")) > 1)
  {
    var vs := Column(SampleFrame(), "C");
    assert forall i :: 0 <= i < |vs| ==> vs[i] == Int(1);
    NUniqueAboveOne(vs);
  }

  lemma SampleConstantD()
    ensures !(NUnique(Column(SampleFrame(), "D")) > 1)
  {
    var vs := Column(SampleFrame(), "D");
    assert forall i :: 0 <= i < |vs| ==> vs[i] == Int(2);
    NUniqueAboveOne(vs);
  }

  /** The test frame has five number columns, A to E. */
  lemma SampleFrameIsNumeric()
    ensures SampleFrame().columns == ["A", "B", "C", "D", "E"]
    ensures forall c :: c in SampleFrame().columns ==> IsNumeric(SampleFrame(), c)
  {
  }

  /** On that frame the code keeps E as well: a null does not exclude a column. */
  lemma {:induction false} SampleFrameKeepsNullColumn()
    ensures PearsonCorrelationMatrix(SampleFrame()).index == ["A", "B", "E"]
  {
    SampleVarying("A");
    SampleVarying("B");
    SampleVarying("E");
    SampleConstantC();
    SampleConstantD();
    SampleFrameIsNumeric();
    KeepsFirstSecondFifth(SampleFrame());
  }

  /** Five number columns of which the first, second and fifth vary: exactly those three are kept, in order. */
  lemma {:induction false} KeepsFirstSecondFifth(df: Frame)
    requires |df.columns| == 5 && forall c :: c in df.columns ==> IsNumeric(df, c)
    requires NUnique(Column(df, df.columns[0])) > 1 && NUnique(Column(df, df.columns[1])) > 1
    requires !(NUnique(Column(df, df.columns[2])) > 1) && !(NUnique(Column(df, df.columns[3])) > 1)
    requires NUnique(Column(df, df.columns[4])) > 1
    ensures PearsonCorrelationMatrix(df).index == [df.columns[0], df.columns[1], df.columns[4]]
  {
    var numeric := (c: Name) => IsNumeric(df, c);
    var varies := (c: Name) => NUnique(Column(df, c)) > 1;
    FilterAll(df.columns, numeric);
    assert SelectNumeric(df) == df.columns;
    KeepFirstSecondFifth(df.columns, varies);
    assert SelectedFeatures(df) == Filter(df.columns, varies);
  }

  lemma KeepFirstSecondFifth<T(!new)>(s: seq<T>, p: T -> bool)
    requires |s| == 5 && p(s[0]) && p(s[1]) && !p(s[2]) && !p(s[3]) && p(s[4])
    ensures Filter(s, p) == [s[0], s[1], s[4]]
  {
    var front, back := s[..2], s[2..];
    assert s == front + back;
    FilterAppend(front, back, p);
    FilterAll(front, p);
    KeepThird(back, p);
  }

  lemma KeepThird<T(!new)>(t: seq<T>, p: T -> bool)
    requires |t| == 3 && !p(t[0]) && !p(t[1]) && p(t[2])
    ensures Filter(t, p) == [t[2]]
  {
    var t1, t2 := t[1..], t[2..];
    assert t2[1..] == [] && Filter(t2[1..], p) == [];
    FilterStep(t2, p);
    assert t1[1..] == t2 && t1[0] == t[1];
    FilterStep(t1, p);
    FilterStep(t, p);
  }


}
