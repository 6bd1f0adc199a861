# Data-mining backend core, modelled in Dafny

This project models the algorithmic core of a Django data-mining tool. The
core is three Python modules. Each is a set of sequential functions over an
in-memory dataset: a list of rows, where a row maps column names to cells.

- `backend/api/processing_logic.py` holds the descriptive statistics, the
  three normalisations, equal-width binning, missing-value handling, the
  chi-square test and the chart data.
- `backend/api/classification_logic.py` holds the classifiers:
  - decision-tree preprocessing, impurity measures and ID3-style induction;
  - k-nearest neighbours;
  - Gaussian naive Bayes;
  - 1R rule learning;
  - linear regression;
  - the perceptron.
- `backend/api/evaluation_logic.py` holds the train/test split, tree
  prediction, the confusion matrix and `evaluate_model`, which dispatches a
  task and scores it.

**Data.** A cell is a `Value`:
- `Num` for a float;
- `Str` for any other text;
- `Null` for Python `None`;
- three structured forms for the labels the backend writes back into cells:
  - `Interval` is the tree preprocessing's `"[lo-hi]"`;
  - `BinLabel` is binning's `"Bin i: [lo - hi]"`;
  - `PointBin` is binning's `"Bin 1: (v)"`.

A `Row` is a `map<string, Value>` and a `Dataset` is a `seq<Row>`. Python
exceptions become `Outcome<T> = Ok(value) | Raise(error)`, so every error
path is a value that the contracts speak about.

**Imperative and pure parts.**
- Code that overwrites `row[column]` in a loop is a `method` over an
  `array<Row>`, with `modifies` and loop invariants. This covers the
  normalisations, binning, `fill_mean` and `_discretize_column`.
- Code that fills dicts or lists in a loop is a `method` with a `while`
  loop. This covers the chi-square table, histogram counts, `train_1r`,
  `train_naive_bayes`, the perceptron, the confusion matrix, the shuffle and
  the prediction loops of `evaluate_model`.
- Each method is proved equal to a specification function. The properties
  are lemmas about those functions.
- Recursive or expression-only code is a function:
  - statistics, impurity, `build_decision_tree`'s result, `predict_knn`,
    `predict_1r` and `predict_with_tree`;
  - the tree itself is `Leaf(target) | Node(attr, branches: map<Value, Tree>)`.

**Inputs passed in as parameters.** Whatever the core takes from the outside
world is an argument:
- `random.shuffle` is a sequence of draws `draws[i] <= i`, as CPython's
  Fisher-Yates loop makes them;
- `random.choice` is an index function;
- the perceptron's `random.uniform` weights are an initial weight list;
- `math.log2`, `log`, `log10`, `sqrt` and the Gaussian density come in as a
  `Maths` record of functions;
- the dataset's column list, which the source takes from the first row's
  keys, is a `columns` argument.

## Model

| member | source | states |
|---|---|---|
| Statistics.Mean | backend/api/processing_logic.py:46-48 | 0 for no data; otherwise the mean lies between the minimum and the maximum |
| Statistics.SortedCopy | backend/api/processing_logic.py:52 | the sorted copy is ordered and a permutation of the data |
| Statistics.MedianSplitsData | backend/api/processing_logic.py:50-55 | at least half the values are ≤ the median and at least half are ≥ it, and it lies within [min, max] |
| Statistics.MedianBetween | backend/api/processing_logic.py:50-55 | the median of non-empty data lies within [min, max] |
| Statistics.Mode | backend/api/processing_logic.py:57-61 | empty exactly for empty data; it holds exactly the values of maximal count, each once |
| Statistics.Variance | backend/api/processing_logic.py:63-66 | 0 for fewer than two values, never negative |
| Statistics.VarianceZeroIffConstant | backend/api/processing_logic.py:63-66 | the sample variance is 0 exactly when all values are equal |
| Statistics.Covariance | backend/api/processing_logic.py:71-74 | 0 when the lengths differ or are below 2 |
| Statistics.CovarianceSymmetric | backend/api/processing_logic.py:71-74 | cov(a, b) = cov(b, a), and cov(a, a) is the variance of a |
| Statistics.CorrelationBounded | backend/api/processing_logic.py:76-79 | the correlation lies in [-1, 1] (Cauchy–Schwarz on the deviation sums), given a sqrt that returns the non-negative root of each variance |
| Normalization.RescaleColumn | backend/api/processing_logic.py:89-91 | the in-place loop rewrites every numeric cell of the column to (x - shift) / divisor and leaves the rest |
| Normalization.RescaledFrame | backend/api/processing_logic.py:89-91 | a rescaled row keeps its keys, its other cells and its non-numeric cells; a numeric cell becomes (x - shift) / divisor |
| Normalization.NormalizeMinMax | backend/api/processing_logic.py:83-92 | the rows after the call are the min-max normalised rows of the old ones |
| Normalization.MinMaxUnitInterval | backend/api/processing_logic.py:83-92 | every numeric cell of the column ends in [0, 1]; the minimum maps to 0 and the maximum to 1 |
| Normalization.MinMaxCell | backend/api/processing_logic.py:86-91 | each numeric cell is (x - min) / (max - min), lies in [0, 1], and the row count is kept |
| Normalization.MinMaxFrame | backend/api/processing_logic.py:84-92 | keys, other columns and non-numeric cells are unchanged; with no numbers or a zero range the dataset is returned as it was |
| Normalization.MinMaxMonotone | backend/api/processing_logic.py:89-91 | normalisation preserves the order of any two numeric cells, in both directions |
| Normalization.NormalizeZScore | backend/api/processing_logic.py:94-102 | the rows after the call are the z-score normalised rows of the old ones |
| Normalization.ZScoreCentred | backend/api/processing_logic.py:94-102 | after z-score normalisation the numeric cells of the column have mean 0 |
| Normalization.DecimalDivisor | backend/api/processing_logic.py:107-110 | the decimal-scaling divisor is positive |
| Normalization.NormalizeDecimalScaling | backend/api/processing_logic.py:104-114 | the rows after the call are the decimal-scaled rows of the old ones |
| Normalization.DecimalScalingBounded | backend/api/processing_logic.py:104-114 | every scaled cell lies in [-1, 1] and keeps its sign, when log10 and ceil give 10^k ≥ max abs value |
| Binning.DiscretizeByBinning | backend/api/processing_logic.py:116-135 | the rows after the call are the binned rows of the old ones |
| Binning.LabelConstant | backend/api/processing_logic.py:121-124 | a zero-width column labels every number "Bin 1" at the minimum |
| Binning.LabelBins | backend/api/processing_logic.py:127-134 | the labelling loop gives each numeric cell the bin found for it |
| Binning.FindBin | backend/api/processing_logic.py:130-134 | the inner loop returns the first bin whose closed edges hold the value, skipping an interior upper edge |
| Binning.EdgesIncreasing | backend/api/processing_logic.py:125-126 | the edges start at min, end exactly at max and increase strictly |
| Binning.BinOfUnique | backend/api/processing_logic.py:130-134 | a bin label is the unique i in 1..n with edge[i-1] ≤ x < edge[i]; max goes to bin n, an interior edge to the higher bin |
| Binning.BinningLabels | backend/api/processing_logic.py:119-134 | each numeric cell of a non-constant column gets exactly one bin in 1..n; a value equal to max gets bin n |
| Binning.BinningConstant | backend/api/processing_logic.py:120-124 | a constant column gets the single label "Bin 1" at its value |
| Binning.BinningFrame | backend/api/processing_logic.py:116-135 | row count, keys and every non-binned cell are unchanged; with num_bins ≤ 0 or no numbers the dataset is unchanged |
| Cleaning.HandleMissingValues | backend/api/processing_logic.py:139-155 | 'remove_rows' returns the rows without blanks and leaves the input; 'fill_mean' fills the column in place; no column, or any other method, raises ValueError with the source's message |
| Cleaning.WithoutBlankRows | backend/api/processing_logic.py:142 | the result holds exactly the rows of the input without an empty or None cell |
| Cleaning.WithoutBlankRowsCount | backend/api/processing_logic.py:142 | each blank-free row keeps its multiplicity, each row with a blank cell is gone, so the original order is kept |
| Cleaning.WithoutBlankRowsFixed | backend/api/processing_logic.py:142 | removal changes nothing exactly when no row has a blank cell |
| Cleaning.WithoutBlankRowsIdempotent | backend/api/processing_logic.py:142 | removing blank rows twice equals removing them once |
| Cleaning.FillColumn | backend/api/processing_logic.py:149-152 | the in-place loop sets exactly the blank cells of the column to the fill value |
| Cleaning.FilledFrame | backend/api/processing_logic.py:149-152 | a blank cell becomes the fill value, a non-blank row is unchanged, and no other column changes |
| Cleaning.FilledColumnSum | backend/api/processing_logic.py:146-152 | filling adds one number per blank cell to the column, and the column sum grows by that count times the fill value |
| Cleaning.MeanFilledKeepsMean | backend/api/processing_logic.py:146-152 | filling with the mean leaves the column's mean unchanged |
| Cleaning.MeanFilledCells | backend/api/processing_logic.py:146-152 | after 'fill_mean' no cell of the column is blank, and each filled cell lies within [min, max] of the numbers |
| Cleaning.MeanFilledIdempotent | backend/api/processing_logic.py:146-152 | filling a second time changes nothing |
| ChiSquare.Categories | backend/api/processing_logic.py:161-162 | the sorted distinct categories of the column; KeyError when a row lacks it, TypeError when two categories cannot be ordered |
| ChiSquare.CountTable | backend/api/processing_logic.py:163-165 | the counting loop builds the contingency table of the rows' category pairs |
| ChiSquare.ContingencyTotals | backend/api/processing_logic.py:167-169 | row and column totals count each category's rows, are ≥ 1, and both sum to the number of rows |
| ChiSquare.ExpectedPositive | backend/api/processing_logic.py:175-176 | on a non-empty dataset every expected count is positive, so the skip of expected = 0 never fires |
| ChiSquare.SumChiTerms | backend/api/processing_logic.py:172-178 | the nested loop sums the (observed - expected)² / expected terms |
| ChiSquare.ChiStatNonNegative | backend/api/processing_logic.py:172-178 | the statistic is ≥ 0, and 0 exactly when every observed count equals its expected count |
| ChiSquare.BuildDisplayRows | backend/api/processing_logic.py:181-184 | the loop builds the header row and then one row per category |
| ChiSquare.DisplayTableCounts | backend/api/processing_logic.py:181-184 | the display table has a header of the column2 categories, then each column1 category with its pair counts |
| ChiSquare.CalculateChiSquare | backend/api/processing_logic.py:159-185 | the method returns the chi-square result of the dataset |
| ChiSquare.ChiSquareOutcomes | backend/api/processing_logic.py:159-170 | the call fails exactly on a missing column or mixed categories; the empty dataset gives (0, 0, {}), and only it gives {} |
| ChiSquare.ChiSquareShape | backend/api/processing_logic.py:180-185 | df = (\|cat1\| - 1)(\|cat2\| - 1), and the table has 1 + \|cat1\| rows of 1 + \|cat2\| cells holding the pair counts |
| ChiSquare.ChiSquareNonNegative | backend/api/processing_logic.py:172-178 | a successful call has a non-negative statistic |
| Charts.PrepareHistogramData | backend/api/processing_logic.py:189-203 | the method returns the histogram of the column |
| Charts.CountBins | backend/api/processing_logic.py:198-202 | the counting loop yields, for each bin, the number of values whose index is that bin |
| Charts.BinIndexBounds | backend/api/processing_logic.py:200-201 | the index of a value is the bin whose left edge ≤ value < right edge, or the last bin for max |
| Charts.HistogramTotal | backend/api/processing_logic.py:189-203 | there are as many labels as counts, and the counts sum to the number of numeric values |
| Charts.HistogramLabels | backend/api/processing_logic.py:195-197 | a spread column has num_bins contiguous ranges from min to max |
| Charts.HistogramConstant | backend/api/processing_logic.py:194 | a constant column gives one bin that holds every value |
| Charts.HistogramMatchesBinning | backend/api/processing_logic.py:199-202 | the histogram puts each value in the same bin as discretize_by_binning labels it with |
| Charts.ScatterPointsFrom | backend/api/processing_logic.py:205-207 | the points are exactly the (x, y) pairs of rows numeric in both columns |
| Charts.ScatterCoordinates | backend/api/processing_logic.py:205-207 | when every row is numeric in both columns or in neither, the x's are the first column's numbers and the y's the second's |
| Knn.EuclideanDistance | backend/api/classification_logic.py:8-15 | the loop computes sqrt of the sum of squared differences over the attributes numeric in both rows |
| Knn.SquaredDistanceNonNegative | backend/api/classification_logic.py:8-15 | the squared distance is ≥ 0 |
| Knn.SquaredDistanceSymmetric | backend/api/classification_logic.py:8-15 | the distance from a to b equals the distance from b to a |
| Knn.SquaredDistanceSelf | backend/api/classification_logic.py:8-15 | a row is at distance 0 from itself |
| Knn.SquaredDistanceIgnoresNonNumeric | backend/api/classification_logic.py:12-14 | pairs that are not both numeric contribute nothing |
| Knn.SquaredDistanceZero | backend/api/classification_logic.py:8-15 | the distance is 0 exactly when the rows agree on every attribute numeric in both |
| Knn.RankedIsSorted | backend/api/classification_logic.py:136 | the ranked list is a permutation of the scored training rows, in non-decreasing distance |
| Knn.KnnNeighbours | backend/api/classification_logic.py:135-139 | IndexError exactly when no neighbour is taken; otherwise min(k, \|train\|) nearest neighbours in order, none farther than the rest, and a most frequent target among them |
| TreePreprocessing.DiscretizeColumn | backend/api/classification_logic.py:19-40 | the rows after the call are the discretised rows of the old ones |
| TreePreprocessing.DiscretizeCell | backend/api/classification_logic.py:30-40 | the loop body relabels one row and leaves every other row alone |
| TreePreprocessing.DiscretizedCell | backend/api/classification_logic.py:27-40 | each number becomes one of four intervals of width (max - min) / 4 within [min, max] that contains it; only max sits on an upper end |
| TreePreprocessing.DiscretizedFrame | backend/api/classification_logic.py:21-40 | keys and non-numeric cells are kept; no numbers or a constant column leaves the dataset unchanged |
| TreePreprocessing.DiscretizedNoNumbers | backend/api/classification_logic.py:29-40 | after discretisation the column holds no numbers |
| TreePreprocessing.DiscretizeIdempotent | backend/api/classification_logic.py:19-40 | discretising twice equals discretising once |
| TreePreprocessing.PreprocessForTree | backend/api/classification_logic.py:42-53 | the method returns the copy with each attribute discretised in turn |
| TreePreprocessing.PreprocessedCells | backend/api/classification_logic.py:42-53 | every attribute cell of the result is the original cell or an interval label |
| Impurity.ProportionsFacts | backend/api/classification_logic.py:58-62 | the class proportions are each in (0, 1] and sum to 1 |
| Impurity.CalculateEntropy | backend/api/classification_logic.py:55-63 | the loop computes the entropy of the target column |
| Impurity.EntropyZeroIffUniform | backend/api/classification_logic.py:55-63 | entropy is ≥ 0, and 0 exactly when all targets agree, for any log2 that is negative below 1 and 0 at 1 |
| Impurity.CalculateInformationGain | backend/api/classification_logic.py:65-72 | the loop computes the entropy minus the weighted subset entropies |
| Impurity.EntropyShare | backend/api/classification_logic.py:70-71 | one loop step adds the subset's weighted entropy |
| Impurity.WeightedFacts | backend/api/classification_logic.py:68-71 | the weighted sum is ≥ 0, and 0 exactly when every subset has impurity 0 |
| Impurity.InformationGainBounded | backend/api/classification_logic.py:65-72 | the gain is at most the entropy, with equality exactly when every subset is pure |
| Impurity.CalculateSplitInfo | backend/api/classification_logic.py:74-82 | the loop computes the entropy of the attribute's values |
| Impurity.CalculateGainRatio | backend/api/classification_logic.py:84-87 | the method returns gain / split info, or 0 when split info is 0 |
| Impurity.GainRatioOfConstant | backend/api/classification_logic.py:84-87 | an attribute with a single value has split info 0 and gain ratio 0 |
| Impurity.CalculateGiniIndex | backend/api/classification_logic.py:89-95 | the loop computes 1 minus the sum of squared proportions |
| Impurity.GiniBounds | backend/api/classification_logic.py:89-95 | Gini lies in [0, 1), and is 0 exactly when all targets agree |
| Impurity.CalculateGiniGain | backend/api/classification_logic.py:97-104 | the loop computes Gini minus the weighted subset Gini values |
| Impurity.GiniShare | backend/api/classification_logic.py:102-103 | one loop step adds the subset's weighted Gini |
| Impurity.GiniGainBounded | backend/api/classification_logic.py:97-104 | the Gini gain is at most the Gini index, with equality exactly when every subset is pure |
| Impurity.BestAttribute | backend/api/classification_logic.py:106-116 | None exactly for no attributes or an unknown criterion; otherwise one of the attributes |
| Impurity.BestAttributeIsFirstMax | backend/api/classification_logic.py:116 | the chosen attribute scores ≥ every attribute and > every attribute before it |
| Impurity.FindBestAttribute | backend/api/classification_logic.py:106-116 | the loop returns the best attribute |
| DecisionTree.Without | backend/api/classification_logic.py:127 | the remaining attributes are exactly the others, and fewer when the best was present |
| DecisionTree.BuildTree | backend/api/classification_logic.py:118-132 | IndexError exactly on empty data with no attribute or no criterion; empty data with a criterion gives an empty node |
| DecisionTree.BuildTreeCases | backend/api/classification_logic.py:118-126 | one target value gives that leaf; no best attribute gives the majority leaf; otherwise a node on the best attribute |
| DecisionTree.GrowShape | backend/api/classification_logic.py:119-129 | leaf cases as above; a node's branch keys are exactly the attribute's distinct values in the rows |
| DecisionTree.GrowBranches | backend/api/classification_logic.py:126-131 | each branch is the tree grown on the non-empty subset of rows with that value, without the node's attribute |
| DecisionTree.BuildDecisionTree | backend/api/classification_logic.py:118-132 | the recursive method returns the specified tree or error |
| DecisionTree.BuildBranches | backend/api/classification_logic.py:129-131 | the branch loop builds one subtree per distinct value of the attribute |
| DecisionTree.GrowLeaves | backend/api/classification_logic.py:118-132 | every leaf is one of the training targets |
| DecisionTree.GrowTestsWithin | backend/api/classification_logic.py:118-132 | every node tests one of the given attributes |
| DecisionTree.NoAttributeTwice | backend/api/classification_logic.py:127-131 | the attribute of a node is never tested again in its subtrees |
| DecisionTree.TreeDepth | backend/api/classification_logic.py:118-132 | the depth of the tree is at most the number of attributes |
| NaiveBayes.PopulationVariance | backend/api/classification_logic.py:151 | the population variance is ≥ 0 |
| NaiveBayes.TrainNaiveBayes | backend/api/classification_logic.py:141-153 | the loops build priors = count / n per class and per (attribute, class) the mean and population std of the class's numbers |
| NaiveBayes.ClassTable | backend/api/classification_logic.py:147-152 | the inner loop fills the statistics of exactly the classes |
| NaiveBayes.TrainedOnUnique | backend/api/classification_logic.py:141-153 | any model meeting that description is the trained model |
| NaiveBayes.PriorsSumToOne | backend/api/classification_logic.py:143-144 | every class has a prior in (0, 1], and the priors sum to 1; no rows gives no classes |
| NaiveBayes.ClassStatsFacts | backend/api/classification_logic.py:148-152 | a class with no numbers gets (0, 0); otherwise its mean lies within [min, max] and its std is sqrt of the population variance, 0 exactly for equal numbers |
| NaiveBayes.GaussianPdf | backend/api/classification_logic.py:155-158 | with std 0 the density is positive, and 1 exactly at the mean |
| NaiveBayes.PredictNaiveBayes | backend/api/classification_logic.py:160-169 | the scoring loop returns the specified prediction |
| NaiveBayes.PredictionIsBest | backend/api/classification_logic.py:160-169 | it raises exactly when there is no class; otherwise it returns the first class of maximal log score |
| OneRule.Train1R | backend/api/classification_logic.py:171-180 | the loop returns the specified 1R model |
| OneRule.OneRFacts | backend/api/classification_logic.py:171-180 | ZeroDivisionError exactly for no rows; the chosen attribute has minimal error, strictly less than every earlier one; error_rate = min_error / n in [0, 1] |
| OneRule.RulesForFacts | backend/api/classification_logic.py:174-176 | there is one rule per distinct value, in first-seen order, predicting a most frequent target for that value |
| OneRule.AttributeRules | backend/api/classification_logic.py:174-176 | the counting loops build exactly those rules |
| OneRule.TallyTargets | backend/api/classification_logic.py:175 | the counts dict records, for every value, each target's count and first-seen order |
| OneRule.CountErrors | backend/api/classification_logic.py:177 | the loop counts the rows the rules misclassify |
| OneRule.Lookup | backend/api/classification_logic.py:211 | a value without a rule gets the default |
| OneRule.LookupRule | backend/api/classification_logic.py:176-177 | looking up a seen value gives its most-frequent-target rule |
| OneRule.IntervalRule | backend/api/classification_logic.py:196-206 | a numeric value gets the label of the first interval rule with lo ≤ x ≤ hi, and None exactly when no interval holds it |
| OneRule.Predict1RFacts | backend/api/classification_logic.py:183-211 | the no-attribute and missing-value sentinels; a numeric value inside an interval gets an interval's label; other values fall back to exact lookup |
| OneRule.PredictTrainingRow | backend/api/classification_logic.py:171-211 | for categorical data, a training row is predicted by the rule of its value |
| OneRule.NegativeIntervalSkipped | backend/api/classification_logic.py:199-208 | as written, a value inside "[-1.00-1.00]" finds no rule, while the intended prediction is the label |
| OneRule.AsWrittenAgrees | backend/api/classification_logic.py:199-208 | with no negative interval bound, the as-written matching equals the intended one |
| Regression.NumericPairs | backend/api/classification_logic.py:214-215 | there are at most as many pairs as rows |
| Regression.FitFacts | backend/api/classification_logic.py:216-223 | ValueError for fewer than 2 or unequal counts and exactly for a constant x; otherwise b0 + b1·x̄ = ȳ and b1 = cov / var |
| Regression.FitRecoversLine | backend/api/classification_logic.py:216-223 | data lying on y = a + c·x with two distinct x's is fitted with exactly b0 = a, b1 = c |
| Regression.RegressionRecoversLine | backend/api/classification_logic.py:213-223 | with x and y paired by row, rows on a line give back that line |
| Regression.MispairedRows | backend/api/classification_logic.py:214-216 | as written, a row with only an x and a row with only a y shift the pairs and the fit has slope -1.5; pairing by row fits the complete rows' line y = 4 + x |
| Perceptron.TargetMap | backend/api/classification_logic.py:226 | the two sorted classes map to 0 and 1 |
| Perceptron.Predict | backend/api/classification_logic.py:235-236 | the prediction is 0 or 1 |
| Perceptron.TrainPerceptron | backend/api/classification_logic.py:225-243 | the method returns the specified outcome |
| Perceptron.RunEpochs | backend/api/classification_logic.py:230-242 | the epoch loop leaves the weights and error list of the specified run, and fails only on an unusable input |
| Perceptron.RunEpoch | backend/api/classification_logic.py:231-242 | one epoch updates the weights and sums the squared errors row by row |
| Perceptron.TrainRow | backend/api/classification_logic.py:233-241 | the error is target - prediction under the old weights, and each weight moves by rate·error·input |
| Perceptron.UpdateWeights | backend/api/classification_logic.py:239-241 | the bias moves by d and each weight by d times its input |
| Perceptron.OutcomeOfClasses | backend/api/classification_logic.py:226-243 | with two classes the outcome is the run from the initial weights, or TypeError on an unusable cell |
| Perceptron.PerceptronFacts | backend/api/classification_logic.py:225-243 | ValueError unless there are exactly two classes; then \|attributes\| + 1 weights, exactly max(epochs, 0) error totals, each in [0, \|train\|] |
| Perceptron.EpochErrorBounded | backend/api/classification_logic.py:231-238 | an epoch's error total lies in [0, \|rows\|] |
| Perceptron.RunErrorsBounded | backend/api/classification_logic.py:230-242 | every epoch's total lies in [0, \|rows\|] |
| Perceptron.ZeroErrorEpoch | backend/api/classification_logic.py:232-241 | an epoch with no error leaves the weights unchanged |
| Perceptron.Converged | backend/api/classification_logic.py:230-242 | after an error-free epoch every later epoch is error-free and the weights stay fixed |
| Evaluation.Swap | backend/api/evaluation_logic.py:7 | a swap exchanges two entries and keeps the multiset |
| Evaluation.ShuffledBelow | backend/api/evaluation_logic.py:7 | shuffling a prefix keeps the multiset and leaves the rest in place |
| Evaluation.Shuffle | backend/api/evaluation_logic.py:7 | the in-place shuffle of the copy leaves the specified permutation |
| Evaluation.LastDrawn | backend/api/evaluation_logic.py:7 | the last position receives the element at the last draw |
| Evaluation.ShuffleWithoutMoves | backend/api/evaluation_logic.py:7 | draws that never move anything leave the order unchanged |
| Evaluation.TrainTestSplit | backend/api/evaluation_logic.py:5-9 | the method returns the specified split, and the caller's dataset is a value it cannot change |
| Evaluation.SplitFacts | backend/api/evaluation_logic.py:5-9 | train ++ test is the shuffled copy and a permutation of the input; \|train\| = ⌊n·(1 - test_size)⌋, which is ⌊4n/5⌋ for 0.2, so a non-empty dataset gives a non-empty test set |
| Evaluation.SplitIndexFloor | backend/api/evaluation_logic.py:8 | int() of the non-negative product is its floor |
| Evaluation.SplitIndexFifth | backend/api/evaluation_logic.py:8 | for test_size 0.2 the split index is ⌊4n/5⌋ |
| Evaluation.PredictionFollowsPath | backend/api/evaluation_logic.py:11-23 | the prediction is the leaf reached by following the instance's values, or the default at a node whose attribute is missing or whose value has no branch |
| Evaluation.PredictionIsLeafOrDefault | backend/api/evaluation_logic.py:11-23 | the prediction is a leaf of the tree or the default |
| Evaluation.LabelIndex | backend/api/evaluation_logic.py:27 | the index of a label is its last position, and None exactly for an unknown label |
| Evaluation.GenerateConfusionMatrix | backend/api/evaluation_logic.py:25-36 | the loop tabulates the zipped pairs against the labels |
| Evaluation.TabulatedCells | backend/api/evaluation_logic.py:26-31 | entry [a][p] counts the pairs with actual a and predicted p (0 for a duplicated label's earlier copy) |
| Evaluation.TabulatedSums | backend/api/evaluation_logic.py:29-31 | the total is the number of fully known pairs, the trace their agreements, row sums the actual counts and column sums the predicted counts |
| Evaluation.AccuracyFacts | backend/api/evaluation_logic.py:89-90 | accuracy is 0 for an empty test set, lies in [0, 100], and is within 0.005 of correct / n · 100 |
| ModelEvaluation.Collect | backend/api/evaluation_logic.py:67-77 | the prediction loop succeeds exactly when every step does; otherwise it raises the first step's error |
| ModelEvaluation.ActualAreLabels | backend/api/evaluation_logic.py:47-52 | every actual test target is one of the class labels |
| ModelEvaluation.TaskPredictionsLength | backend/api/evaluation_logic.py:51-84 | a supported task gives one prediction per test row |
| ModelEvaluation.PredictAllWithTree | backend/api/evaluation_logic.py:61-63 | the loop predicts every test row with the tree and a drawn default |
| ModelEvaluation.PredictAllKnn | backend/api/evaluation_logic.py:67-70 | the loop collects the k-NN predictions, stopping at the first error |
| ModelEvaluation.PredictAllNaiveBayes | backend/api/evaluation_logic.py:73-77 | the loop collects the naive-Bayes predictions, stopping at the first error |
| ModelEvaluation.PredictAll1R | backend/api/evaluation_logic.py:80-84 | the loop predicts every test row with the 1R model |
| ModelEvaluation.RunTask | backend/api/evaluation_logic.py:54-87 | the dispatch returns the specified predictions, or None for an unsupported task |
| ModelEvaluation.EvaluateModel | backend/api/evaluation_logic.py:38-99 | the method returns the specified evaluation |
| ModelEvaluation.EvaluationFacts | backend/api/evaluation_logic.py:38-87 | an error value for an empty dataset, a missing target or an unsupported task, and KeyError for a target absent from a row; a report is over a non-empty test set |
| ModelEvaluation.ReportFacts | backend/api/evaluation_logic.py:89-98 | accuracy in [0, 100] and 0 for no test rows; the matrix is square over the labels, its trace the correct count, its total at most the test size; at most 10 samples, each (prediction, actual) |
| ModelEvaluation.ReportMargins | backend/api/evaluation_logic.py:92 | with every label known, row sums are the per-class actual counts and column sums the per-class predicted counts |
| ModelEvaluation.EvaluatedFacts | backend/api/evaluation_logic.py:89-99 | a report has accuracy in [0, 100] within 0.005 of the trace over the test size, labels = the distinct targets, and min(10, \|test\|) samples |
| ModelEvaluation.MissingClassifiers | backend/api/evaluation_logic.py:65-77 | as written, the knn and naive_bayes branches raise AttributeError |

## Left out

- `backend/api/views.py`, `urls.py` and `models.py` are not part of this model. They are HTTP routing, JSON responses and database models.
- `load_column_data` and `load_full_data` (`processing_logic.py:8-42`) are not modelled. They read CSV files. The model takes the dataset as a value in which numbers are already `Num`.
- Floating point is not modelled: reals are exact.
  - `int(len * 0.8)` is ⌊4n/5⌋ exactly.
  - `round(x, 2)` is exact round-half-even on the real value.
  - The `1e-9` density is exact.
- The `f"{x:.2f}"` label texts are structured values: `Interval`, `BinLabel` and `PointBin`.
  - OneRule.IntervalRule reads these structured keys rather than parsing text. The text parse is modelled only where it matters, in OneRule.Predict1RAsWritten.
- Python does not separate `int` from `float` values here, because the loader only makes floats. So `preprocess_for_tree`'s integer branch (`classification_logic.py:49-52`) never fires and is not modelled.
- Python sets and dict key order are modelled as first-occurrence order. This affects the class labels, the attribute values and `Counter`'s tie-breaking.
- The attribute list of `evaluate_model`, which is the first row's keys, is a `columns` argument, and every row is required to have those columns.
- A `KeyError` from a row missing an attribute or target column is excluded by `requires HasColumn(...)`, except in chi-square and `evaluate_model`, where it is modelled.
- `int(params['k'])` failing on text is not modelled: `k` is an `Option<int>`.
- Randomness is passed in as arguments: the shuffle draws, the default label choice and the initial weights.
- `log2`, `log`, `log10`, `sqrt`, `exp` and the Gaussian density are function arguments, constrained only where a property needs it:
  - log2 is negative below 1 and 0 at 1;
  - sqrt is non-negative;
  - 10^ceil(log10(m)) ≥ m.
- Statistics.CorrelationBounded requires a `sqrt` that returns the non-negative root of each variance. A floating-point `sqrt` only approximates this.
- Knn.KnnNeighbours: the source stops at the first `row[target_attr]` of a neighbour, and training rows are required to have the target.
- OneRule.Predict1RFacts states that a numeric value inside some interval gets some interval's label. The first-match order is stated by OneRule.IntervalRule's contract. Falling back to exact lookup when no interval matches a number is not restated there.
- Normalization.ZScoreCentred depends on the standard deviation only through a non-zero divisor. The `std_dev == 0` early return is in the function, but no lemma relates it to the variance.
- Decision-tree evaluation follows the source as written. It predicts the raw test rows against a tree built on the discretised training rows, so numeric test values usually miss every branch and take the drawn default.
- Apriori, PageRank, HITS, k-means and k-medoids have no implementation in these modules, so they are not modelled.

## Findings

| source | as written | input that shows it | evidently intended | confidence | as-written member | corrected member |
|---|---|---|---|---|---|---|
| backend/api/classification_logic.py:199-208 | an interval key with a negative bound, such as "[-1.00-1.00]", splits on '-' into more than two parts, so the rule is skipped | model on attribute t with the single rule [-1, 1] → "yes", test value 0.0 | the value lies in [-1, 1] and gets "yes" | not executed | OneRule.NegativeIntervalSkipped | OneRule.IntervalRule |
| backend/api/classification_logic.py:214-216 | x and y are filtered separately, so when the rows missing an x and the rows missing a y differ, the lists have equal length but pair values from different rows | rows (x, y) = (1, "a"), ("b", 10), (2, 6), (3, 7): the xs 1, 2, 3 are paired with the ys 10, 6, 7 and the slope is -1.5, while the two complete rows lie on y = 4 + x | fit only rows where both cells are numeric | not executed | Regression.MispairedRows | Regression.RegressionRecoversLine |
| backend/api/evaluation_logic.py:65-77 | the knn and naive_bayes branches call classification_logic.knn_classify and naive_bayes_predict, which are not defined, so AttributeError | any non-empty dataset with task "knn" and a non-empty test set, or task "naive_bayes" | call predict_knn and predict_naive_bayes | not executed | ModelEvaluation.MissingClassifiers | ModelEvaluation.RunTask |
