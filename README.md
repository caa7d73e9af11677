# SoundRecognitionDSP: the DMNN classifier, verified

SoundRecognitionDSP records or loads a voice signal, cuts it, extracts
pitch and MFCC features, files the feature rows as labelled patterns under
class slots, and classifies them with a dendrite morphological neural
network (DMNN). A DMNN class owns a number of dendrites. Each dendrite is
a hyperbox: a (high, low) pair per input dimension. This project models
the classification engine and the state it works on:

- the forward pass `ExecuteDMNN`: input tiling, per-dimension margins
  `min(high - x, x - low)`, dendrite activations (min over dimensions),
  class scores (max over the class's dendrites), the first-argmax decision
  and the probability normalisation;
- the time compaction `meanTrozos`;
- the k-means `Kmedias`, with its random initial centres given as a
  parameter;
- the initialiser `inicializaDMNN`;
- the hill-climbing trainer `HiloTrainNet` (its chunk `run`, `funError`
  and the driver in `trainNet` / `finHiloTrainNet`);
- the evaluator `HiloAccuracyNet` and the metrics of `finHiloAccuracyNet`;
- the window state touched by `cutSignal`, the slot lookup of
  `finGeneralExtract`, and the `exportNet` / `importNet` file layout.

Modules, one file each:

- `Numeric` holds exact counterparts of the numpy reductions (min, max,
  sum, first argmax and argmin).
- `Compaction` models `meanTrozos`.
- `Dmnn` models `ExecuteDMNN`.
- `KMeans` models `Kmedias`.
- `Initializer` models `inicializaDMNN`.
- `Trainer` models `HiloTrainNet` and the training driver.
- `Evaluator` models `HiloAccuracyNet` and the metrics.
- `NetFile` models the text layout of a saved net.
- `Gui` models the main window's state and handlers.

The loops of the source are methods with loop invariants:

- the tiling and score loops of `ExecuteDMNN`;
- the while-loop of `meanTrozos`;
- the assignment, update and pass loops of `Kmedias`;
- the class loop of `inicializaDMNN`;
- the pattern loop of `funError` and the mutation loop of `run`;
- the counting loop of `HiloAccuracyNet.run`;
- the slot searches of `finGeneralExtract`;
- the join loops of `exportNet` and the conversion loops of `importNet`.

Each of these methods is proved equal to a recursive specification
function. Lemmas prove the source's promises about those functions.

The objects whose fields the source updates are classes:

- `HiloTrainNet` updates its step counter, weights and error history;
- `HiloAccuracyNet` fills its confusion matrix, an `array2` incremented
  in place;
- `GUI` changes its signal, class slot names, patterns and net.

Numbers are `real`, so sums, means and comparisons are exact. The
following are parameters:

- the random samples (`np.random.random_sample` in `Kmedias`,
  `np.random.rand` in `run`);
- the user's abort requests;
- the number/text conversions (`str`, `float`, `int`).

## Model

| member | source | states |
|---|---|---|
| Numeric.MaxOf | SoundRecognitionDSP/SoundRecognitionDSP.py:1054 | `.max()` of a non-empty block is an element of it and bounds every element |
| Numeric.MinOf | SoundRecognitionDSP/SoundRecognitionDSP.py:1051 | `.min()` of a non-empty row is an element of it and below every element |
| Numeric.FirstArgMax | SoundRecognitionDSP/SoundRecognitionDSP.py:1062 | `np.argmax` returns an index holding the maximum, and every earlier index holds strictly less (ties go to the lowest index) |
| Numeric.FirstArgMin | SoundRecognitionDSP/SoundRecognitionDSP.py:1241 | `np.argmin` returns an index holding the minimum, and every earlier index holds strictly more |
| Numeric.MeanBounds | SoundRecognitionDSP/SoundRecognitionDSP.py:1037 | the mean of values in [lo, hi] lies in [lo, hi] |
| Compaction.BlockMeanWithinColumn | SoundRecognitionDSP/SoundRecognitionDSP.py:1037 | every coordinate of a block mean lies between that column's minimum and maximum over the block |
| Compaction.BlockMeanOfOne | SoundRecognitionDSP/SoundRecognitionDSP.py:1037 | the mean of one row is that row |
| Compaction.CompactedLength | SoundRecognitionDSP/SoundRecognitionDSP.py:1032-1040 | the result has ceil(L / grupo) rows (the least n with n * grupo >= L), and none for an empty matrix |
| Compaction.CompactedRow | SoundRecognitionDSP/SoundRecognitionDSP.py:1036-1039 | output row j is the mean of input rows [j * grupo, min(L, (j + 1) * grupo)) |
| Compaction.CompactedByOne | SoundRecognitionDSP/SoundRecognitionDSP.py:1032-1040 | compaction with grupo = 1 returns the matrix unchanged |
| Compaction.MeanTrozos | SoundRecognitionDSP/SoundRecognitionDSP.py:1032-1040 | the while-loop returns the block-mean compaction for grupo >= 1, with the column count kept; an empty matrix gives no rows |
| Dmnn.Margin | SoundRecognitionDSP/SoundRecognitionDSP.py:1047-1049 | the margin is the smaller of high - x and x - low |
| Dmnn.MarginInsideBox | SoundRecognitionDSP/SoundRecognitionDSP.py:1047-1049 | the margin is non-negative exactly when low <= x <= high |
| Dmnn.TileInput | SoundRecognitionDSP/SoundRecognitionDSP.py:1043-1045 | the tiling loop returns whole copies of the input, at least half the weight count long, with no copy more than needed |
| Dmnn.RepeatAt | SoundRecognitionDSP/SoundRecognitionDSP.py:1043-1045 | position d * e + i of the tiled input holds input coordinate i |
| Dmnn.TiledLength | SoundRecognitionDSP/SoundRecognitionDSP.py:1043-1051 | on a well-shaped net the tiled input is exactly pesW.size / 2 long, one copy per dendrite |
| Dmnn.ActivationsOfTiled | SoundRecognitionDSP/SoundRecognitionDSP.py:1046-1051 | the row minima of the reshaped margin matrix are the dendrites' activations against the input |
| Dmnn.DendriteActivations | SoundRecognitionDSP/SoundRecognitionDSP.py:1043-1051 | the first half of the forward pass yields every dendrite's activation, in order |
| Dmnn.BlockOfClass | SoundRecognitionDSP/SoundRecognitionDSP.py:1052-1056 | class m's dendrite block starts at the sum of the earlier counts and is non-empty and inside the activations |
| Dmnn.ClassBlock | SoundRecognitionDSP/SoundRecognitionDSP.py:1052-1056 | the slice `Smk[n:n + numK[m]]` is exactly class m's dendrite activations |
| Dmnn.BlockMaxIsScore | SoundRecognitionDSP/SoundRecognitionDSP.py:1054 | the maximum over class m's slice is class m's score |
| Dmnn.ScoresFromBlocks | SoundRecognitionDSP/SoundRecognitionDSP.py:1052-1056 | the per-class block maxima are the class scores |
| Dmnn.ScoreClasses | SoundRecognitionDSP/SoundRecognitionDSP.py:1052-1056 | the loop fills a fresh `Zm` with the maximum of each class's slice while `n` advances by `numK[m]` |
| Dmnn.DecisionIsFirstBest | SoundRecognitionDSP/SoundRecognitionDSP.py:1061-1063 | the decision is a class index whose score is maximal, and every lower index scores strictly less |
| Dmnn.ExecuteDMNN | SoundRecognitionDSP/SoundRecognitionDSP.py:1042-1063 | decision mode returns a class index below numK.size, equal to the first-argmax of the class scores |
| Dmnn.SumDivide | SoundRecognitionDSP/SoundRecognitionDSP.py:1059 | dividing every entry by c divides the sum by c |
| Dmnn.ProbabilityAsWrittenBelowCap | SoundRecognitionDSP/SoundRecognitionDSP.py:1057-1060 | while the scores sum to at most 1e6, the source's normalisation is the division by the sum |
| Dmnn.ProbabilityAsWrittenExceedsOne | SoundRecognitionDSP/SoundRecognitionDSP.py:1059 | for the positive vector [2e6] the source's normalisation yields [2.0] |
| Dmnn.ProbabilityIsDistribution | SoundRecognitionDSP/SoundRecognitionDSP.py:1057-1060 | normalising by the full sum gives entries in (0, 1] summing to 1 |
| Dmnn.TwoBoxScores | SoundRecognitionDSP/SoundRecognitionDSP.py:1042-1056 | for one box per class, the class score of (x, x) is the margin of x against that box |
| Dmnn.TwoBoxExample | SoundRecognitionDSP/SoundRecognitionDSP.py:1042-1063 | with boxes [-1,1]^2 and [3,5]^2 the origin is class 0 and (4, 4) is class 1 |
| KMeans.SqDist | SoundRecognitionDSP/SoundRecognitionDSP.py:1240 | the squared distance is non-negative |
| KMeans.Nearest | SoundRecognitionDSP/SoundRecognitionDSP.py:1240-1241 | a point goes to a centre of least squared distance, the lowest index among ties |
| KMeans.Assign | SoundRecognitionDSP/SoundRecognitionDSP.py:1239-1241 | every point gets a label naming an existing centre |
| KMeans.AssignPoints | SoundRecognitionDSP/SoundRecognitionDSP.py:1239-1241 | the loop writes the assignment of every point into the label column |
| KMeans.UpdateCenter | SoundRecognitionDSP/SoundRecognitionDSP.py:1244-1254 | the zero-at-first-point, add, divide-by-max(t,1) loop yields the mean of the centre's points, or the old centre when it has none |
| KMeans.UpdateAllCenters | SoundRecognitionDSP/SoundRecognitionDSP.py:1243-1258 | every centre is updated in turn, and `fin` ends true exactly when every centre changed |
| KMeans.UnassignedCenterKept | SoundRecognitionDSP/SoundRecognitionDSP.py:1243-1254 | a centre no point chose keeps its previous value |
| KMeans.RepeatedMean | SoundRecognitionDSP/SoundRecognitionDSP.py:1252-1254 | summing a value once per assigned point and dividing by the count gives the value back |
| KMeans.AssignedSumBetween | SoundRecognitionDSP/SoundRecognitionDSP.py:1247-1253 | each coordinate of a centre's point sum lies between count * lo and count * hi of the points' box |
| KMeans.UpdatedCenterInBox | SoundRecognitionDSP/SoundRecognitionDSP.py:1244-1254 | the update keeps a centre of the points' box inside that box |
| KMeans.PassKeepsBox | SoundRecognitionDSP/SoundRecognitionDSP.py:1237-1258 | a whole pass keeps every centre inside the points' box |
| KMeans.InitialCentersInBox | SoundRecognitionDSP/SoundRecognitionDSP.py:1229-1232 | centres drawn as (dMax - dMin) * u + dMin with u in [0, 1) start inside the box |
| KMeans.PointsInOwnBox | SoundRecognitionDSP/SoundRecognitionDSP.py:1229-1230 | every point lies between the column minima and maxima |
| KMeans.Run | SoundRecognitionDSP/SoundRecognitionDSP.py:1234-1261 | the pass loop performs between 1 and `iteraciones` passes (none for iteraciones <= 0), keeping the centres' shape |
| KMeans.EarlyStopRule | SoundRecognitionDSP/SoundRecognitionDSP.py:1255-1261 | with two or more passes allowed, the loop stops after the first pass exactly when that pass moved every centre |
| KMeans.FixedPointRunsAllPasses | SoundRecognitionDSP/SoundRecognitionDSP.py:1255-1261 | centres that a pass leaves unchanged never stop the loop: it runs every allowed pass |
| KMeans.SettledStopIsFixed | SoundRecognitionDSP/SoundRecognitionDSP.py:1255-1261 | a loop that stops after the first step leaving its state unchanged ends before its last allowed step only at a fixed point of the step |
| KMeans.IntendedRunStopsAtFixedPoint | SoundRecognitionDSP/SoundRecognitionDSP.py:1255-1261 | with the stop rule the comments describe (stop when no centre moved), the centres keep their shape, and an early stop happens only at a fixed point of the pass |
| KMeans.IntendedRunAtFixedPoint | SoundRecognitionDSP/SoundRecognitionDSP.py:1255-1261 | with that rule, centres a pass leaves unchanged stop the loop after one pass |
| KMeans.KmediasLoop | SoundRecognitionDSP/SoundRecognitionDSP.py:1234-1261 | the loop returns the centres of the pass specification and keeps them in the points' box |
| KMeans.CentersShape | SoundRecognitionDSP/SoundRecognitionDSP.py:1224-1262 | Kmedias returns `clusters` centres of D coordinates each |
| KMeans.CentersFail | SoundRecognitionDSP/SoundRecognitionDSP.py:1226-1241 | Kmedias fails exactly on an empty matrix, or with no centres when a pass must run |
| KMeans.Kmedias | SoundRecognitionDSP/SoundRecognitionDSP.py:1224-1262 | the method returns the specified centres, fails exactly where the source raises, and its centres lie in the points' box |
| Initializer.ClassFeatures | SoundRecognitionDSP/SoundRecognitionDSP.py:1274 | the rows of class m are empty exactly when no pattern has label m, and share the feature count |
| Initializer.ClassFeaturesFromPatterns | SoundRecognitionDSP/SoundRecognitionDSP.py:1274 | every row selected for class m is a pattern's feature row |
| Initializer.MaxLabel | SoundRecognitionDSP/SoundRecognitionDSP.py:1270 | the largest label bounds every label and is one of them |
| Initializer.Interleave | SoundRecognitionDSP/SoundRecognitionDSP.py:1277 | `np.dstack((vH, vL)).ravel()` puts vH[j] at 2j and vL[j] at 2j + 1 |
| Initializer.FlattenAt | SoundRecognitionDSP/SoundRecognitionDSP.py:1275-1276 | `.ravel()` puts entry i of row k at k * n + i |
| Initializer.BoxWeightsAt | SoundRecognitionDSP/SoundRecognitionDSP.py:1275-1277 | the pair of box k, dimension i is (cen[k][i] + dim[i], cen[k][i] - dim[i]) |
| Initializer.BoxWeightsAppend | SoundRecognitionDSP/SoundRecognitionDSP.py:1277 | the concatenation per class builds the weights of all stacked centres |
| Initializer.AddClass | SoundRecognitionDSP/SoundRecognitionDSP.py:1273-1277 | one class turn runs Kmedias on the class's rows, fails where it raises, and appends that class's boxes to the weights |
| Initializer.InicializaDMNN | SoundRecognitionDSP/SoundRecognitionDSP.py:1264-1278 | fails exactly with no patterns, a label below the maximum with no patterns, or no clusters; otherwise numK is `clusters` repeated max label + 1 times and the weights are the boxes of every class's k-means centres with half-widths from all patterns |
| Initializer.ClassBoxInside | SoundRecognitionDSP/SoundRecognitionDSP.py:1266-1268 | the box of one class's patterns lies inside the box of all patterns |
| Initializer.StackedCentreInRange | SoundRecognitionDSP/SoundRecognitionDSP.py:1266-1277 | the centre of every initial box lies inside the box of all patterns |
| Initializer.BoxPair | SoundRecognitionDSP/SoundRecognitionDSP.py:1266-1277 | every initial box is centred on its k-means centre, with the half-width from all patterns |
| Initializer.FullWidth | SoundRecognitionDSP/SoundRecognitionDSP.py:1268 | high - low = (dMax - dMin) * dimCajas / 100, which is non-negative when dimCajas >= 0 |
| Initializer.InitialNetShape | SoundRecognitionDSP/SoundRecognitionDSP.py:1270-1277 | the initial net fits the forward pass: pesW.size = 2 * D * clusters * numK.size, with class m's dendrites starting at m * clusters |
| Trainer.Predictions | SoundRecognitionDSP/SoundRecognitionDSP.py:1405-1406 | every pattern gets a predicted class below numK.size |
| Trainer.MatchesAll | SoundRecognitionDSP/SoundRecognitionDSP.py:1404-1407 | all patterns are counted as hits exactly when every prediction equals its label, none exactly when none does |
| Trainer.ErrorRateBounds | SoundRecognitionDSP/SoundRecognitionDSP.py:1401-1408 | the error `1 - hits / L` lies in [0, 1], and is 0 exactly when all patterns are hit and 1 exactly when none is |
| Trainer.CountHits | SoundRecognitionDSP/SoundRecognitionDSP.py:1403-1407 | the loop counts the patterns whose label equals the prediction |
| Trainer.MeasureError | SoundRecognitionDSP/SoundRecognitionDSP.py:1401-1408 | the error is one minus the hit rate |
| Trainer.PerturbBounded | SoundRecognitionDSP/SoundRecognitionDSP.py:1392 | a candidate moves each weight by at most muta |
| Trainer.Limit | SoundRecognitionDSP/SoundRecognitionDSP.py:1389 | the chunk limit is min(step + 10, goal) |
| Trainer.Mutation | SoundRecognitionDSP/SoundRecognitionDSP.py:1391-1398 | a step advances the counter by one, or jumps to the goal |
| Trainer.Mutate | SoundRecognitionDSP/SoundRecognitionDSP.py:1391-1398 | the method performs one mutation step: a candidate whose error is no worse is kept, and a zero error jumps to the goal |
| Trainer.ClimbSteps | SoundRecognitionDSP/SoundRecognitionDSP.py:1389-1398 | the counter never moves back or past the goal, and a chunk ends at its limit or at the goal |
| Trainer.ClimbImproves | SoundRecognitionDSP/SoundRecognitionDSP.py:1390-1398 | the best error never grows; the final weights are the starting ones or a candidate whose error is the final best |
| Trainer.ClimbZero | SoundRecognitionDSP/SoundRecognitionDSP.py:1395-1396 | reaching a zero error ends the chunk at the goal |
| Trainer.ClimbLoop | SoundRecognitionDSP/SoundRecognitionDSP.py:1390-1398 | the while-loop reaches the state of the specified mutation steps |
| Trainer.MaxFeature | SoundRecognitionDSP/SoundRecognitionDSP.py:733 | `np.max(patrones[:, :-1])` bounds every feature and is one of them |
| Trainer.HiloTrainNet.constructor | SoundRecognitionDSP/SoundRecognitionDSP.py:1378-1385 | a new trainer has no patterns, the placeholder net, step 0 of 100, mutation 1.0 and history [0.0] |
| Trainer.HiloTrainNet.Prepare | SoundRecognitionDSP/SoundRecognitionDSP.py:725-740 | session setup loads the data and sets mutation and goal; an empty history is seeded with [0, error of the weights] |
| Trainer.HiloTrainNet.FunError | SoundRecognitionDSP/SoundRecognitionDSP.py:1401-1408 | funError returns the error rate of the given weights |
| Trainer.HiloTrainNet.Run | SoundRecognitionDSP/SoundRecognitionDSP.py:1387-1399 | a chunk appends exactly one history entry, no larger than the previous last; step stays within the goal and moves at most 10 unless it jumps to the goal; the weights change only to a candidate whose error is the new best |
| Trainer.RunChunks | SoundRecognitionDSP/SoundRecognitionDSP.py:951-961 | chunks run until the goal is reached or an abort is requested, with no abort before the last chunk; the history only grows and stays non-increasing |
| Trainer.TrainSession | SoundRecognitionDSP/SoundRecognitionDSP.py:719-744 | nothing happens without patterns or weights; otherwise the trainer gets the data, goal max(1, n), the mutation size, and ends at the goal or on abort; an empty history is seeded so that entry 1 is the error of the starting weights, later entries never grow, and the last is the error of the returned weights |
| Evaluator.Zeros | SoundRecognitionDSP/SoundRecognitionDSP.py:1420 | a K by K matrix of zeros |
| Evaluator.BumpAt | SoundRecognitionDSP/SoundRecognitionDSP.py:1424 | an increment raises cell [label][prediction] by one and no other cell |
| Evaluator.ConfusionCounts | SoundRecognitionDSP/SoundRecognitionDSP.py:1421-1424 | cell (i, j) counts the patterns labelled i and predicted j |
| Evaluator.ConfusionTotal | SoundRecognitionDSP/SoundRecognitionDSP.py:1421-1424 | the entries sum to the number of patterns counted |
| Evaluator.ConfusionTrace | SoundRecognitionDSP/SoundRecognitionDSP.py:1421-1424 | the diagonal sums to the number of correctly classified patterns |
| Evaluator.TraceBelowTotal | SoundRecognitionDSP/SoundRecognitionDSP.py:981 | the diagonal sum never exceeds the sum of all entries |
| Evaluator.AtLeastOne | SoundRecognitionDSP/SoundRecognitionDSP.py:975-981 | max(1, t) is at least 1 and at least t, and equals t when t >= 1 |
| Evaluator.RatioBounds | SoundRecognitionDSP/SoundRecognitionDSP.py:975-981 | c / max(1, t) lies in [0, 1] for c <= t, and is 1 exactly when c = t > 0 |
| Evaluator.MetricsBounds | SoundRecognitionDSP/SoundRecognitionDSP.py:972-983 | precision, sensitivity and accuracy lie in [0, 1]; each is 1 exactly when its column, row or whole matrix is on the diagonal and non-empty |
| Evaluator.Counted | SoundRecognitionDSP/SoundRecognitionDSP.py:1421-1426 | the patterns counted are the leading run whose labels are classes; the first out-of-range label stops the count |
| Evaluator.AccuracyIsMatchRate | SoundRecognitionDSP/SoundRecognitionDSP.py:981 | over all patterns, accuracy is the share of patterns classified as labelled |
| Evaluator.AccuracyIsComplementOfError | SoundRecognitionDSP/SoundRecognitionDSP.py:981 | when every label is a class, accuracy is one minus funError of the same weights |
| Evaluator.Count | SoundRecognitionDSP/SoundRecognitionDSP.py:1424 | `matrix[label, res] += 1` on the array is the increment of its value |
| Evaluator.HiloAccuracyNet.constructor | SoundRecognitionDSP/SoundRecognitionDSP.py:1412-1417 | a new evaluator holds no patterns, the placeholder net and a 0 x 0 matrix |
| Evaluator.HiloAccuracyNet.Run | SoundRecognitionDSP/SoundRecognitionDSP.py:1419-1426 | run leaves the data alone and fills a fresh K x K matrix with the confusion counts of the patterns before the first out-of-range label |
| Gui.SliceIndex | SoundRecognitionDSP/SoundRecognitionDSP.py:599-601 | a Python slice index is kept when in range, counts from the end when negative, and is clamped to [0, n] |
| Gui.Slice | SoundRecognitionDSP/SoundRecognitionDSP.py:599-601 | Python slicing with in-range bounds is the plain subsequence |
| Gui.CutLimits | SoundRecognitionDSP/SoundRecognitionDSP.py:594-597 | on a non-empty signal the limits end with 0 <= limInf < limSup <= size; valid limits are kept |
| Gui.CutPartition | SoundRecognitionDSP/SoundRecognitionDSP.py:594-601 | prefix, band and suffix rebuild the signal; the band keeps at least one sample, and the outer cut keeps the rest |
| Gui.GUI.CutSignal | SoundRecognitionDSP/SoundRecognitionDSP.py:584-604 | an unreadable limit changes nothing; otherwise the signal becomes the band or the outer part between the clamped limits, blank limits meaning the ends |
| Gui.FindSlot | SoundRecognitionDSP/SoundRecognitionDSP.py:916-921 | the search returns the first slot showing the name, or none exactly when no slot shows it |
| Gui.Block | SoundRecognitionDSP/SoundRecognitionDSP.py:932-937 | each extracted row becomes the pattern [tono, coefficients..., ind] |
| Gui.ClaimSlot | SoundRecognitionDSP/SoundRecognitionDSP.py:916-928 | filing a sound picks a slot now showing its name, and fails exactly when no slot shows the name or is free |
| Gui.ClaimKeepsNamesDistinct | SoundRecognitionDSP/SoundRecognitionDSP.py:916-928 | filing never gives one name two slots, and renames only the free slot it claims |
| Gui.GUI.constructor | SoundRecognitionDSP/SoundRecognitionDSP.py:49-87 | a new window has no signal or patterns, the placeholder net and every slot free |
| Gui.GUI.FileExtract | SoundRecognitionDSP/SoundRecognitionDSP.py:912-940 | filing keeps labels inside the slots and names distinct; on success the rows are appended under the claimed slot and the training history is cleared, otherwise nothing changes |
| Gui.JoinLine | SoundRecognitionDSP/SoundRecognitionDSP.py:655-658 | the add-separator-then-cut-it loop builds the join of the items |
| Gui.ParseEach | SoundRecognitionDSP/SoundRecognitionDSP.py:628-630 | the conversion loop converts every text, or fails at the first it rejects |
| Gui.GUI.ExportNet | SoundRecognitionDSP/SoundRecognitionDSP.py:642-693 | the text written is the sixteen-line net layout, each line ended by a newline |
| Gui.GUI.ImportNet | SoundRecognitionDSP/SoundRecognitionDSP.py:618-640 | the weights and counts are replaced as far as the import gets before failing, and the history is cleared only on a complete load |
| NetFile.Split | SoundRecognitionDSP/SoundRecognitionDSP.py:623 | `str.split` yields at least one piece |
| NetFile.SplitNone | SoundRecognitionDSP/SoundRecognitionDSP.py:623 | text without the separator splits into itself |
| NetFile.SplitJoined | SoundRecognitionDSP/SoundRecognitionDSP.py:627 | splitting a join of separator-free items gives the items back |
| NetFile.ParseAll | SoundRecognitionDSP/SoundRecognitionDSP.py:628-636 | conversion succeeds exactly when every text converts, with one value per text |
| NetFile.ParseShown | SoundRecognitionDSP/SoundRecognitionDSP.py:628-636 | converting shown values gives the values back when conversion inverts showing |
| NetFile.ReadNet | SoundRecognitionDSP/SoundRecognitionDSP.py:624-638 | an untagged first line does nothing; counts are loaded only with the weights, and only on a complete load |
| NetFile.FileHead | SoundRecognitionDSP/SoundRecognitionDSP.py:649-660 | read back and split at newlines, an exported file starts with its first seven lines |
| NetFile.ImportExport | SoundRecognitionDSP/SoundRecognitionDSP.py:618-693 | importing an exported net with weights and counts restores both |
| NetFile.EmptyNetNotReloaded | SoundRecognitionDSP/SoundRecognitionDSP.py:618-660 | a net with no weights exports an empty weights line, and importing it loads nothing |
| NetFile.ImportNotAtomic | SoundRecognitionDSP/SoundRecognitionDSP.py:626-636 | an unreadable counts line fails the import after the weights were already replaced |

## Left out

- The Qt window: widgets, layouts, message boxes, plots, progress and
  status texts, and the percentage formatting of the metrics
  (`int(num * 100)`, `round`). They are display only.
- Audio recording, playback, file reading and writing, resampling, MFCC
  extraction, `sacarPitch` and `compilador`. They are device or
  floating-point library code. `ImportNet` and `ExportNet` take and give
  the file's text instead of a path.
- Thread scheduling. Each `QThread.run` is a sequential method here, and
  the `finished` signal is the call that follows it.
- `exp` in probability mode, and `multiExecuteDMNN`. The normalisation is
  modelled over any positive score vector.
- Randomness and conversions. `np.random.random_sample` and
  `np.random.rand` are injected samples in [0, 1), one set per class (or
  per mutation step). `str`, `float` and `int` are injected functions.
- Floating point. Reals are exact, so rounding and overflow are not
  modelled.
- The pattern handlers (`importPatterns`, `exportPatterns`, `patternsCut`,
  `patternsClean`), `newNet` / `finHiloNewNet` and the testing handlers.
  They sit outside the classifier core.
- Evaluator.HiloAccuracyNet.Run: requires a net and patterns that fit
  `ExecuteDMNN`. With a malformed net the source raises inside the
  forward pass and its bare `except` swallows the error; that case is not
  modelled.
- Trainer.HiloTrainNet.Run, Trainer.HiloTrainNet.Prepare,
  Trainer.TrainSession: require patterns that fit the net (`Fits`). With a
  malformed net, funError raises in two places, and neither is modelled:
  inside the thread during a chunk, and synchronously in the window's
  `trainNet` slot, which calls funError at line 739 of
  SoundRecognitionDSP.py when the error history is empty.
- Dmnn.ExecuteDMNN: requires `WellShaped`: a non-empty input of length e,
  an even weight count whose half is a multiple of e, at least one class,
  every count at least 1, and the last class's block starting at an
  existing dendrite. The sum of the counts may exceed the dendrite count, and
  the last block is then cut short as Python's slice cuts it. Most other
  shapes make the source's reshape, broadcast or empty `max`/`argmax`
  raise. Three kinds of input do not raise and are not modelled:
  - one weight pair (pesW.size 2), an input of length e >= 2 and a single
    class with at least one dendrite. The source then broadcasts the one
    pair against every coordinate and returns class 0, while `WellShaped`
    asks (pesW.size / 2) % e == 0;
  - an empty input with weights. The tiling loop at lines 1044-1045 of
    SoundRecognitionDSP.py appends empty copies and never ends, and
    `TileInput` requires a non-empty input so that its loop terminates;
  - negative dendrite counts, which `importNet` can produce through
    `int()`. Python slices `Smk[n:n + numK[m]]` then count from the end:
    with numK = [-1] against two dendrites the slice `Smk[0:-1]` is the
    first activation, and the source returns class 0. `numK` is a
    sequence of naturals in the model's forward pass.
  In probability mode, a net with no classes returns an empty vector; that
  case is not modelled either.
- Initializer.Pattern, KMeans.Kmedias, Evaluator.Counted: labels and the
  cluster count are natural numbers here. In the source a label is any
  float in the last column of the patterns, and `clusters` is whatever
  `int()` reads. The model therefore leaves out these behaviours:
  - a negative label indexes the confusion matrix from the end
    (`matrix[int(label), res]` puts label -1 in the last row);
  - a fractional label is truncated to a row there (2.7 counts in row 2);
  - funError never counts a fractional label as a hit;
  - inicializaDMNN makes `int(max + 1)` classes and selects rows by exact
    equality with each class number;
  - a negative `clusters` makes `np.random.random_sample` raise in
    Kmedias.
  The rows for `KMeans.Kmedias`, `KMeans.CentersFail` and
  `Evaluator.Counted` hold over these natural domains only.
- Compaction.MeanTrozos: requires grupo >= 1 for a non-empty matrix,
  because the source loops forever with grupo <= 0.
- Gui.GUI: `numK` holds the integers `int()` reads on import, which may be
  negative. The model's forward pass takes natural counts, and it is not
  called from the window model.

Behaviour followed as the code has it:

- importNet stores the weights before it reads the counts, so a failing
  counts line leaves new weights with the old counts.
- Kmedias clears `fin` when a centre is unchanged. It stops early only
  after a pass that moved every centre; a fixed point runs all passes.
  `KMeans.Run` keeps this rule; the comments' rule is a finding below.
- inicializaDMNN takes the box half-width from the minimum and maximum over
  all patterns, not per class.

## Findings

| source | as written | input that shows it | evidently intended | confidence | as-written member | corrected member |
|---|---|---|---|---|---|---|
| SoundRecognitionDSP/SoundRecognitionDSP.py:1059 | probability mode divides by `min(Zm.sum(), 1000000.0)` | scores whose exponentials sum past 1e6, e.g. the single entry 2e6: the "probability" is 2.0 | divide by the full sum, so entries lie in (0, 1] and sum to 1 | not executed | Dmnn.ProbabilityAsWrittenExceedsOne | Dmnn.ProbabilityIsDistribution |
| SoundRecognitionDSP/SoundRecognitionDSP.py:1255-1261 | `fin` is cleared when a centre is unchanged, and the loop breaks while `fin` holds, i.e. after a pass that moved every centre | one point [0.0] and one centre [0.0] with 5 iterations: no pass moves the centre, yet all 5 passes run | the comments at lines 1255 and 1259 (check for changes; stop if there were none): stop after a pass that moved no centre, which is then a fixed point | not executed | KMeans.FixedPointRunsAllPasses | KMeans.IntendedRunStopsAtFixedPoint |
