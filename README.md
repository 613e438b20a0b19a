# english-score-predictor: the table and list logic, in Dafny

This project models the exact logic that sits under the plotting and
model-tuning pipeline of english-score-predictor. That logic consists of
the table and list transformations the pipeline applies before any library
does numerical work:

- **`fit_and_return_top_models`** (module `SearchTopModels`). The
  hyper-parameter search object is modelled as a class with a settable
  train-score flag and a fit that records the results table. The function:
  - builds the list of report columns in a fresh list;
  - projects the results onto it;
  - re-indexes by the rank column;
  - sorts by rank;
  - keeps the first N;
  - transposes.
- **`pearson_correlation_matrix`** (module `CorrelationMatrix`): which
  columns enter the matrix (number columns with more than one distinct
  non-null value) and how the matrix is labelled.
- **`plot_histogram_with_exclusions`**, the matplotlib version (module
  `HistogramExclusions`): the DataFrame type check and the column filter.
- **`src/helper.py`** (module `Helper`): `sum` and the altair version of
  `plot_histogram_with_exclusions`. The latter keeps the exclusions that are
  columns, drops them, selects the number columns, and makes one chart per
  column titled "Histogram of <column>".
- **`show_feat_coeff`**, in both versions:
  - `ShowFeatCoeff` labels the rows with `X.columns`;
  - `HelperShowFeatCoeff` labels them with the preprocessor's output names,
    cut to their last piece by `split('__')[-1]`.

  Both versions pair labels with coefficients by position and sort by
  descending coefficient.
- **The exploratory analysis script** (module `EnglishScoreEda`). It covers
  `src/scripts/english_score_eda.py` and `src/english_score_eda.py`, which
  compute the same things:
  - the `drop_feats` list (twenty fixed names, then every column starting
    with "q");
  - the `normal_cols` set;
  - `categories_list`: the education values seen more than 100 times, most
    frequent first;
  - both forms of `map_to_other`: the top-level one taking the list, and the
    nested closure reading it;
  - the grid width `size // 3`.
- **The tuning script** (module `EnglishScoreTuning`). It covers
  `src/scripts/english_score_tuning.py` and `src/english_score_tuning.py`:
  - `map_to_other` with its fixed list of eight education levels;
  - the split of a loaded frame into `X` (everything but "correct") and `y`
    (the "correct" column).

Shared building blocks:

- **`Frames`**: values, dtypes, frames, errors, an order-preserving
  `Filter`, `drop` and `select_dtypes`.
- **`Sorting`**: an insertion sort by a real-valued key, specified by
  sortedness and multiset equality.
- **`Categories`**: the "education" collapse shared by every
  `map_to_other`.

Frames are values: a sequence of column names, a dtype per column, and rows
mapping names to values, with null as `Missing`. The pandas and
scikit-learn errors the model covers become `Err` results:
- `KeyError` for absent columns or steps;
- `TypeError` for a non-DataFrame argument and for a rank column that does
  not hold integers;
- `ValueError` for an index/data length mismatch, for a histogram with
  nothing to plot, and for a `set_index` label that names more than one
  column;
- `AttributeError` for a step without `coef_` and for an `X` without
  `.columns`.

"## Left out" names the errors that are not modelled.

Inputs that come from I/O or libraries are parameters of the model:
- the fitted `cv_results_` table;
- `coef_`;
- `get_feature_names_out()`;
- `plot_1.size`.

### Where tests and code disagree

The model follows the code in all four cases below.

- **`tests/test_correlation_matrix.py:28-40`** expects columns `["A", "B"]`
  for a frame whose column E holds 1, 2, 1, 2 and a null.
  - The code keeps E: `nunique()` ignores the null and counts two values.
  - `CorrelationMatrix.SampleFrameKeepsNullColumn` proves the result
    `["A", "B", "E"]`.
  - The comment at `src/correlation_matrix.py:11` ("without null values")
    does not describe the code either.
- **`tests/test-show_feat_coeff.py:71-74`** expects the index to equal
  `X.columns`. The code sorts by coefficient.
  - `ShowFeatCoeff.IndexCanDifferFromColumns` gives two columns whose order
    is reversed.
  - `ShowFeatCoeff.StrictlyDecreasingKeepsOrder` gives the condition under
    which the order is kept.
- **`tests/test_correlation_matrix.py:13`** imports
  `src.helper.correlation_matrix` and calls it with a frame alone. The
  function is defined in `src/correlation_matrix.py`, and its signature
  (line 4) also requires `colormap`. The model follows
  `src/correlation_matrix.py` and takes no colour map, since the map only
  styles the output.
- **`src/english_score_eda.py:131`** has a comment that says "greater than
  1". The code filters on counts above 100, and the model uses 100.

## Model

| member | source | states |
|---|---|---|
| SearchTopModels.SelectedColumns | src/search_top_models.py:58-68 | the column list is rank, mean test score and mean fit time, then the mean train score only when the flag is set, then the additional columns in the order given |
| SearchTopModels.Project | src/search_top_models.py:72 | `frame[columns]` fails with KeyError naming exactly the absent names; otherwise it has those columns, the same number of rows, and the same cells |
| SearchTopModels.SetIndex | src/search_top_models.py:73 | re-indexing succeeds exactly when the rank column occurs once and holds integers. An absent label gives KeyError naming it, and a label on several columns gives ValueError. The remaining columns are the selected ones without the rank. There is one entry per row, with that row's rank and, in order, its other cells |
| SearchTopModels.SortIndex | src/search_top_models.py:74 | entries end up in non-decreasing rank order and are a permutation of the input's; tie order is not promised |
| SearchTopModels.HeadCount | src/search_top_models.py:75 | `head(n)` keeps n rows when 0 <= n <= length, all but the last -n when n is negative, and is clamped to [0, length] |
| SearchTopModels.Head | src/search_top_models.py:75 | `head(n)` is the prefix of length HeadCount(n) |
| SearchTopModels.Transpose | src/search_top_models.py:76 | `.T` gives a report whose row labels are the attribute columns and whose column axis is named by the rank. Reading it column by column gives back the entries, so the transpose neither mixes nor reorders them |
| SearchTopModels.Chain | src/search_top_models.py:71-77 | the chained expression succeeds exactly when every selected column is present and the key occurs once among them with integer ranks. Absent columns give KeyError naming them, and a repeated key gives ValueError. On success the report is the result rows' entries, sorted by rank and cut after HeadCount(N) |
| SearchTopModels.SelectedRanks | src/search_top_models.py:72-73 | projection keeps the rank column's cells, so the ranks are integers after it exactly when they were before |
| SearchTopModels.RankOnce | src/search_top_models.py:58-68 | the rank column is among the selected columns, and occurs only once there exactly when the additional columns do not name it |
| SearchTopModels.TopModelsUnfold | src/search_top_models.py:71-77 | the report is the result rows' entries, sorted by rank and cut after HeadCount(N) of them |
| SearchTopModels.TopModels | src/search_top_models.py:58-77 | a report exists exactly when every selected column is in the results, the additional columns do not name the rank, and the ranks are integers. A missing column gives KeyError naming the missing columns; naming the rank again gives ValueError |
| SearchTopModels.TopModelsShape | src/search_top_models.py:73-76 | the rows of the report are the selected columns without the rank; the columns are labelled by the rank column; `min(N, number of results)` configurations are shown; negative N follows `head` |
| SearchTopModels.AttributeRows | src/search_top_models.py:58-68 | taking the rank out of the column list leaves mean test score, fit time, the optional train score, then the additional columns |
| SearchTopModels.TopModelsRowOrder | src/search_top_models.py:58-76 | when the additional columns do not name the rank, the report's rows are exactly those names in that order |
| SearchTopModels.TopModelsTrainRow | src/search_top_models.py:64-65 | a train-score row appears when the flag is set; when the flag is clear it is absent (unless passed as an additional column), whatever the results hold |
| SearchTopModels.TopModelsRanksSorted | src/search_top_models.py:74-76 | the report's columns run in non-decreasing rank |
| SearchTopModels.TopModelsKeepsBest | src/search_top_models.py:74-75 | the configurations shown are result rows, each at most as often as it occurs, and none left out ranks better than any shown |
| SearchTopModels.TopModelsShowsResults | src/search_top_models.py:72-76 | the configurations shown form a sub-multiset of the result rows' entries |
| SearchTopModels.CellsOfShown | src/search_top_models.py:72-76 | in a report built from result entries, each column holds the rank and the cells of one result row |
| SearchTopModels.TopModelsCells | src/search_top_models.py:72-76 | cell (attribute, j) of the report is that attribute of one result row, and that row's rank labels column j |
| SearchTopModels.TopModelsFirstIsBest | src/search_top_models.py:74-75 | when anything is shown, the first column has the smallest rank of all results |
| SearchTopModels.SearchCV.Fit | src/search_top_models.py:55 | the fit records the results table and the train-score flag it ran with, and leaves the flag alone |
| SearchTopModels.FitAndReturnTopModels | src/search_top_models.py:13-77 | the flag is set to the argument before the fit, which runs with it. The returned report (or error) is TopModels of the fitted results, and the caller's list of additional columns is unchanged |
| CorrelationMatrix.NUniqueAboveOne | src/correlation_matrix.py:13 | `nunique() > 1` holds exactly when two different non-null values occur in the column |
| CorrelationMatrix.NUnique | src/correlation_matrix.py:13 | `nunique()` is 0 exactly when every value of the column is null |
| CorrelationMatrix.NullNotCounted | src/correlation_matrix.py:13 | a null adds no distinct value |
| CorrelationMatrix.SelectedFeatures | src/correlation_matrix.py:12-14 | a column is selected exactly when it is a number column with more than one distinct non-null value; selected columns keep the frame's order |
| CorrelationMatrix.PearsonCorrelationMatrix | src/correlation_matrix.py:12-18 | the matrix's row labels equal its column labels, which are exactly the varying number columns, in frame order |
| CorrelationMatrix.EmptyFrameSelectsNothing | tests/test_correlation_matrix.py:42-47 | a frame without columns gives an empty matrix |
| CorrelationMatrix.ConstantColumnsSelectNothing | tests/test_correlation_matrix.py:49-59 | a frame of constant columns gives an empty matrix |
| CorrelationMatrix.ConstantAndVarying | tests/test_correlation_matrix.py:61-71 | of a constant and a varying number column, only the varying one is kept |
| CorrelationMatrix.NullsDoNotExclude | src/correlation_matrix.py:12-14 | a number column that holds a null and two different values is kept |
| CorrelationMatrix.SampleVarying | tests/test_correlation_matrix.py:19-25 | columns A, B and E of the test frame have more than one distinct non-null value |
| CorrelationMatrix.SampleConstantC | tests/test_correlation_matrix.py:22 | column C of the test frame has a single value |
| CorrelationMatrix.SampleConstantD | tests/test_correlation_matrix.py:23 | column D of the test frame has a single value |
| CorrelationMatrix.SampleFrameIsNumeric | tests/test_correlation_matrix.py:19-25 | the test frame has five number columns, A to E |
| CorrelationMatrix.KeepsFirstSecondFifth | src/correlation_matrix.py:12-14 | for five number columns where only the third and fourth are constant, exactly the first, second and fifth are kept, in order |
| CorrelationMatrix.SampleFrameKeepsNullColumn | tests/test_correlation_matrix.py:28-40 | on the test frame the code selects A, B and E (the test expects A and B) |
| HistogramExclusions.HistogramColumns | src/plot_histogram_with_exclusions.py:47-53 | a non-DataFrame raises TypeError; otherwise a column is plotted exactly when it is a number column not in the exclusions; columns keep frame order |
| HistogramExclusions.NoExclusionsSelectsAllNumeric | src/plot_histogram_with_exclusions.py:51-52 | with `None` or an empty list every number column is plotted, in order |
| HistogramExclusions.ExclusionIsOneFilter | src/plot_histogram_with_exclusions.py:51-53 | with a list, the selection is the frame's columns filtered to "number and not excluded" |
| HistogramExclusions.NonColumnsIgnored | src/plot_histogram_with_exclusions.py:53 | excluding names that are not columns changes nothing |
| HistogramExclusions.ExcludingAllNumericIsEmpty | src/plot_histogram_with_exclusions.py:51-53 | excluding every number column leaves nothing to plot |
| HistogramExclusions.PlotHistogramWithExclusions | src/plot_histogram_with_exclusions.py:47-56 | a non-DataFrame raises TypeError, and an empty selection raises ValueError from `hist` as there is nothing to plot; otherwise one histogram per selected column |
| HistogramExclusions.ExcludingAllNumericRaises | src/plot_histogram_with_exclusions.py:51-56 | excluding every number column makes the call raise ValueError |
| HistogramExclusions.NonNumericNeverSelected | src/plot_histogram_with_exclusions.py:51 | a non-number column is never plotted |
| Helper.Sum | src/helper.py:6-8 | `sum(a, b)` is `a + b` on unbounded integers; it has no contract of its own, and SumIsAddition and SumExamples state its properties |
| Helper.SumIsAddition | src/helper.py:6-8 | `sum` is commutative, has 0 as neutral element, and adding then subtracting b gives back a |
| Helper.SumExamples | tests/helper_test.py:8-11 | the four cases of the unit test |
| Helper.ExistingExclusions | src/helper.py:44-45 | the kept exclusions are exactly the given names that are columns, in the given order |
| Helper.ChartedColumns | src/helper.py:44-54 | the charted columns are exactly the frame's number columns not named in the exclusions, in frame order |
| Helper.Title | src/helper.py:61 | a title starts with "Histogram of ", and the rest of it is the column |
| Helper.PlotHistogramWithExclusions | src/helper.py:55-64 | one chart per charted column, in the same order, each titled "Histogram of " plus its column |
| Helper.ChartsCoverCharted | src/helper.py:48-62 | a column has a chart exactly when it is a number column of the frame that was not excluded |
| Helper.NonColumnsIgnored | src/helper.py:44-45 | excluding names that are not columns changes no chart |
| ShowFeatCoeff.Coefficients | src/show_feat_coeff.py:49 | `named_steps[model_name].coef_`: KeyError for an unknown step, AttributeError for a step without coefficients, the coefficients otherwise |
| ShowFeatCoeff.Pair | src/show_feat_coeff.py:52-53 | the i-th label is paired with the i-th coefficient |
| ShowFeatCoeff.CoefficientTable | src/show_feat_coeff.py:52-54 | a length mismatch gives ValueError; otherwise there is a single "Coefficients" column, one row per coefficient, rows in non-increasing coefficient, and the rows are a permutation of the positional pairs |
| ShowFeatCoeff.ShowFeatCoeff | src/show_feat_coeff.py:49-54 | errors of the step lookup propagate. An array-like `X` then gives AttributeError at `X.columns`; otherwise the result is the coefficient table for `X.columns` |
| ShowFeatCoeff.ShowFeatCoeffOkIff | src/show_feat_coeff.py:49-54 | the call succeeds exactly when the step exists and has coefficients, `X` is a DataFrame, and there is one coefficient per column of X |
| ShowFeatCoeff.RowsArePairs | src/show_feat_coeff.py:50-54 | every (column, coefficient) pair by position is a row of the result, so a repeated column name stays as separate rows |
| ShowFeatCoeff.LabelsAreColumns | src/show_feat_coeff.py:50-54 | the multiset of index labels equals the multiset of X's columns |
| ShowFeatCoeff.FeaturesOfPermutation | src/show_feat_coeff.py:54 | rearranging rows rearranges their labels the same way |
| ShowFeatCoeff.StrictlyDecreasingKeepsOrder | src/show_feat_coeff.py:52-54 | with strictly decreasing coefficients the index is X's columns in order |
| ShowFeatCoeff.IndexCanDifferFromColumns | tests/test-show_feat_coeff.py:71-74 | with columns a, b and coefficients 0, 1 the index is b, a: the test's expectation does not hold in general |
| HelperShowFeatCoeff.JoinSplit | src/helper/show_feat_coeff.py:49 | `'__'.join(name.split('__'))` gives back the name |
| HelperShowFeatCoeff.Split | src/helper/show_feat_coeff.py:49 | `split('__')` always gives at least one piece |
| HelperShowFeatCoeff.PiecesHaveNoSeparator | src/helper/show_feat_coeff.py:49 | no piece of the split contains "__" |
| HelperShowFeatCoeff.SplitIsSingleIff | src/helper/show_feat_coeff.py:49 | a name has a single piece exactly when it holds no "__" |
| HelperShowFeatCoeff.FeatureName | src/helper/show_feat_coeff.py:49 | the label is an end of the output name, and never contains "__" |
| HelperShowFeatCoeff.LastPieceIsSuffix | src/helper/show_feat_coeff.py:49 | the last piece of the split is where the name ends |
| HelperShowFeatCoeff.FeatureNameOfPlainName | src/helper/show_feat_coeff.py:49 | a name without "__" is its own label |
| HelperShowFeatCoeff.FeatureNameIsLastPiece | src/helper/show_feat_coeff.py:49 | a name with "__" is some prefix, then "__", then its label |
| HelperShowFeatCoeff.OverlappingSeparator | src/helper/show_feat_coeff.py:49 | "a___b" gives the label "_b": the split is left to right and non-overlapping |
| HelperShowFeatCoeff.FeatureNames | src/helper/show_feat_coeff.py:49 | one label per output name, position by position |
| HelperShowFeatCoeff.ShowFeatCoeff | src/helper/show_feat_coeff.py:48-53 | step-lookup errors propagate; otherwise the result is the coefficient table over the labels of the output names |
| HelperShowFeatCoeff.ShowFeatCoeffLabels | src/helper/show_feat_coeff.py:48-53 | on success, the index labels are the labels of the output names, each as often as it occurs, and none contains "__" |
| EnglishScoreEda.QuestionColumns | src/scripts/english_score_eda.py:79 | exactly the columns starting with "q", in frame order |
| EnglishScoreEda.BuildDropFeats | src/scripts/english_score_eda.py:71-80 | the list built in place is the twenty fixed names, then the question columns |
| EnglishScoreEda.DropFeats | src/english_score_eda.py:34-43 | `drop_feats` starts with the twenty fixed names in their order, continues with the question columns in frame order, and holds nothing else |
| EnglishScoreEda.PlottedFeatures | src/english_score_eda.py:46 | a column is plotted exactly when it is a number column, is not a question column, and is not a fixed name |
| EnglishScoreEda.NormalCols | src/scripts/english_score_eda.py:143-149 | `normal_cols` holds exactly the columns that are neither question columns nor "Unnamed: 0", "date", "time" or "id" (a set: no order) |
| EnglishScoreEda.NormalColsPartition | src/english_score_eda.py:89-95 | each column is either in `normal_cols` or among the removed names, and no question column is in it |
| EnglishScoreEda.Count | src/scripts/english_score_eda.py:210 | a count is positive exactly when the value occurs |
| EnglishScoreEda.DistinctValues | src/scripts/english_score_eda.py:210 | `value_counts()` has one entry per distinct non-null value |
| EnglishScoreEda.CategoriesList | src/english_score_eda.py:129-134 | a value is in `categories_list` exactly when it is non-null and occurs more than 100 times; each appears once; most frequent first |
| EnglishScoreEda.TrainCategories | src/scripts/english_score_eda.py:210-215 | without an "education" column, KeyError; otherwise the frequent-value list of that column |
| EnglishScoreEda.MapToOtherClosure | src/english_score_eda.py:138-142 | the closure keeps a value when it occurs more than 100 times in the training column, and maps it to "Others" otherwise |
| EnglishScoreEda.GridCols | src/scripts/english_score_eda.py:89-90 | `cols = size // 3`: 3·cols <= size < 3·cols + 3 |
| EnglishScoreEda.GridFitsIff | src/english_score_eda.py:49-54 | the loop's subplots 1 to `size` all fit a 3-row grid of `size // 3` columns exactly when size is a multiple of 3 |
| Categories.Collapse | src/scripts/english_score_eda.py:255 | the collapse keeps the column's length |
| Categories.CollapseKeepsAllowed | src/scripts/english_score_eda.py:255 | a value in the list is kept, and any other value becomes "Others" |
| Categories.CollapseRange | src/scripts/english_score_eda.py:255 | every output value is in the list or is "Others" |
| Categories.CollapseIdempotent | src/english_score_eda.py:140-141 | collapsing twice equals collapsing once |
| Categories.MapToOther | src/scripts/english_score_eda.py:253-256 | KeyError without an "education" column; otherwise a one-column frame "education", row for row, with each value kept if listed and "Others" if not |
| Categories.MapToOtherIdempotent | src/english_score_eda.py:138-142 | applying `map_to_other` to its own output changes nothing |
| EnglishScoreTuning.MapToOther | src/scripts/english_score_tuning.py:187-202 | with the fixed list of eight: KeyError without "education"; otherwise length and order kept, listed values kept, others become "Others" |
| EnglishScoreTuning.ListedValuesUnchanged | src/english_score_tuning.py:187-196 | each of the eight listed values comes out unchanged |
| EnglishScoreTuning.OutputsAreListed | src/scripts/english_score_tuning.py:197-201 | every output value is one of the eight, since "Others" is among them |
| EnglishScoreTuning.MapToOtherIdempotent | src/english_score_tuning.py:195-200 | mapping twice equals mapping once |
| EnglishScoreTuning.SplitTarget | src/scripts/english_score_tuning.py:163-164 | without "correct", KeyError; otherwise X has every other column in order and every other cell, with the same row count, and y is the "correct" column |
| EnglishScoreTuning.SplitRecombines | src/english_score_tuning.py:161-162 | every cell of the frame is in y (the "correct" column) or in X (all others) |
| EnglishScoreTuning.TargetNotAFeature | src/scripts/english_score_tuning.py:169-176 | the target is not a column of X, and y has one value per row of X |
| Frames.Filter | src/helper.py:45 | a comprehension filter keeps exactly the elements satisfying the condition, in order |
| Frames.Without | src/search_top_models.py:73 | `set_index` takes exactly the index column out of the column list, keeping the order |
| Frames.SelectNumeric | src/helper.py:54 | `select_dtypes(include="number")` gives exactly the number columns, in order |
| Frames.Drop | src/helper.py:48 | `drop(columns=..., errors="ignore")` keeps exactly the other columns, in order, row count and cells; the frame it is given is not modified |
| Frames.NumericNotExcluded | src/helper.py:48-54 | number columns not excluded, in frame order |
| Sorting.SortBy | src/show_feat_coeff.py:54 | the sort gives a sequence ordered by the key that is a permutation of its input |
| Sorting.SortedPrefixIsSmallest | src/search_top_models.py:74-75 | a prefix of a sorted sequence is part of it, and nothing outside the prefix has a smaller key |

## Left out

- Fitting and cross-validation (`search.fit`, `RandomizedSearchCV`/`GridSearchCV`, `loguniform` sampling): library work. `cv_results_` is an input table and `SearchCV.Fit` only records it.
- Floating-point work: correlation values (`corr()`), the styler's background gradient, regression coefficients, imputation and scaling. Coefficients are `real`, and only the selection and ordering logic around them is modelled.
- All plotting and export: matplotlib, altair rendering, `dfi.export`, the subplot loops, figure sizes and bins. The matplotlib histogram returns the columns it would draw; the altair version returns a (column, title) per chart; `plot_1.size` is a parameter of `GridCols`.
- File and command-line I/O: `read_csv`, `to_csv`, pickle, click options, `print` and `click.echo`. `get_train_data`/`get_test_data` start from the frame they read.
- The column-transformer pipelines (`make_column_transformer`, `OrdinalEncoder`, `FunctionTransformer`): object wiring. The transformers are never run.
- src/helper/plot_histogram_with_exclusions.py, imported by the script version of the analysis, is not part of this model. The plotted columns are those of the top-level version.
- src/scripts/preprocessor-unpickle-reference.py, src/english_score_get_data.py, src/scripts/english_score_results.py and the regression-prediction plots: I/O and plotting only.
- Helper.ChartedColumns: only a list of exclusions is modelled; what `drop(columns=None)` does when `columns_to_exclude` is `None` depends on pandas.
- SearchTopModels.SortIndex: ties between equal ranks are in no promised order (pandas' default sort is not stable); the model sorts stably, but no contract mentions tie order.
- SearchTopModels.SetIndex: a rank column holding non-integers is modelled as a TypeError; scikit-learn always produces integer ranks. A label that names several columns is modelled as the ValueError pandas raises when the key selects more than one column; the message is not modelled.
- ShowFeatCoeff.CoefficientTable: order among equal coefficients is not promised. A 2-D `coef_` (multi-output models) is not modelled; coefficients are one sequence.
- EnglishScoreEda.CategoriesList: states the order by count only; the order among equally frequent values is not promised.
- HelperShowFeatCoeff.FeatureName: models Python's left-to-right, non-overlapping `split`. With three or more consecutive underscores the label is not "the text after the last __" (see `OverlappingSeparator`).
- HelperShowFeatCoeff.ShowFeatCoeff: where the output names come from (`get_feature_names_out()`) is an input.
- The errors of `plt.subplot` when the grid is too small (GridFitsIff gives the condition) and the errors matplotlib raises inside `hist` are not modelled, as the plots are not.
- Python's cross-type equality (`1 == 1.0 == True`) is not modelled: values of different kinds are distinct, so a column mixing them can count more distinct values than pandas does.
- CorrelationMatrix.PearsonCorrelationMatrix: only the labels of the matrix are modelled, not its entries.
