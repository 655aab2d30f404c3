# Verified model of the anomaly-detection engine's own algorithms

anomEngine hands inference, linear algebra and index search to other libraries, but several algorithms and
protocols are its own. This project models them in Dafny, in the form the C++ code has (classes with the same
fields, loops over the same tables and buffers), and proves what they are for:

- **Farthest-first selection** (`FarthestFirst`, `Coreset`, `MemoryBank`): both greedy loops compute one and the
  same farthest-first traversal from their cached distance tables, and that traversal is within a factor of four
  (of squared distance) of the best possible centres.
- **Streaming statistics** (`Moments`, `Checkpoint`, `StatisticalFit`): chunked merging is exact however the data
  are split, failed additions leave no trace, and a fit that is saved, restored and continued equals one that
  never stopped.
- **Calibration** (`Reservoir`, `Calibrator`): the pixel reservoir is exactly uniform, over positions and over
  whole subsets, by counting draw sequences.
- **PaDiM** (`PadimSizing`, `Covariance`, `Cholesky`, `Padim`, `PadimCovariance`, `PadimFit`): the overflow guard is
  exact, the chunked device update equals the host loop, in every run all that is written reflects whole batches, and
  covariances are positive definite unless a foreign checkpoint makes them otherwise.
- **JSON** (`JsonText`, `JsonParser`, `JsonGrammar`, `JsonCorrect`, `JsonWriter`): the parser accepts exactly the
  grammar and answers with the value the text denotes; writing and parsing undo each other in both layouts.
- **SHA-256** (`BigEndianBytes`, `Sha256`): the block buffer computes FIPS 180-4 for every cut of the message.
- **Fitter** (`Fitter`): one worker and any number of cancellations, in every interleaving of atomic actions.
- **YOLO post-processing** (`Nms`): non-maximum suppression and painting.
- **Plugin batches** (`BackendMemory`, `BackendLifetime`): who keeps libraries, instances and batches alive, over
  every run of loads, inferences, copies, writes and drops.
- **Tensor layout** (`Layout`): block copies between channel-major tensors, and flattening into patches.

`Numbers`, `Sums` and `Vectors` hold the shared arithmetic.

Conventions. Floats and doubles are reals, or `NonFinite` where the code checks for infinities and NaN; statements
are those of exact arithmetic. Integers are unbounded except where the code guards a 64-bit size, and there the
guard and its wrap-around are explicit. What the environment decides (random draws, GPU and file failures, plugin
answers, the next thread to run) is a parameter, so every theorem holds for all of it. Files are byte or value
sequences whose writes may fail after any prefix. A byte of text is a character below 256. A contract names the
values a call leaves behind; the lemmas beside it say what those values mean.

Where the code and a standard or its own comments differ, the model follows the code: the JSON parser also skips
vertical tabs and form feeds, and refuses UTF-16 surrogate escapes and duplicate keys; a cancelled fitter may still
show READY when the cancel caught a call past its checks, and only then (`Fitter.CancelledForGood`); a batch that a
plugin hands out together with a failing status is never released (`BackendLifetime.FailedBatchIsKept`).

## Model

| member | source | states |
|---|---|---|
| FarthestFirst.PickIsFarthest | src/pipeline/patchcore.cpp:256-263 | the next point exists while points are left, is not chosen yet, and is the farthest from all chosen ones, the lowest index on ties |
| FarthestFirst.NearestIsMinimum | src/pipeline/patchcore.cpp:269-274 | the value the cached table must hold is attained by a chosen point and at most the distance to every chosen point |
| FarthestFirst.TraversalDistinct | src/pipeline/patchcore.cpp:235-275 | the selected indices are pairwise different, for every number of selections |
| FarthestFirst.ChosenFarApart | src/pipeline/patchcore.cpp:255-275 | two selected points are at least as far apart as any unselected point is from the selection |
| FarthestFirst.KCentreBound | src/pipeline/patchcore_statistics.cpp:65-97 | whatever k or fewer centres cover the rows within a squared radius, the first k rows of the traversal cover them within four times that radius, from any first row |
| Vectors.SqDistIs | src/pipeline/patchcore.cpp:240-249 | the accumulated squared distance of two rows is the sum of their squared norms less twice their inner product |
| Coreset.SquaredDistance | src/pipeline/patchcore.cpp:240-249 | the loop computes the squared Euclidean distance of two rows of row-major data |
| Coreset.LowerAndScan | src/pipeline/patchcore_statistics.cpp:80-94 | one pass restores the true minimum distance of every unused row and finds the next point of the traversal |
| Coreset.ReduceBank | src/pipeline/patchcore_statistics.cpp:65-97 | a bank within the budget is returned as it is; a larger one becomes exactly the rows of the first `budget` points of the traversal from row 0, in order; either way the rows kept cover the bank within four times the squared radius of any `budget` or fewer centres |
| Coreset.ScanFarthest | src/pipeline/patchcore.cpp:256-264 | the scan always finds a point while fewer than all are selected, so the early exit is dead, and it is the traversal's next point |
| Coreset.LowerMinimum | src/pipeline/patchcore.cpp:267-274 | after a selection the cached distance of every unselected row is its true minimum over the selected ones again |
| Coreset.SelectExact | src/pipeline/patchcore.cpp:229-275 | the exact greedy path selects exactly the traversal from the drawn first row, with exactly the requested number of rows, and they cover all rows within four times the squared radius of any as many centres |
| Coreset.GatherRows | src/pipeline/patchcore.cpp:276-281 | the coreset is the selected rows of the original features, in order of selection |
| Coreset.TargetCount | src/pipeline/patchcore.cpp:172-174 | the number of rows to keep is the least at or above ratio times count, at least one and at most all |
| Coreset.ValidateConfig | src/pipeline/patchcore.cpp:39-54 | the tests accept exactly the valid configurations |
| Coreset.PatchCorePipeline.AddFeatures | src/pipeline/patchcore.cpp:136-159 | features are appended exactly when configuration, shape, finiteness and the size guard allow, and otherwise nothing changes |
| Coreset.PatchCorePipeline.BuildCoreset | src/pipeline/patchcore.cpp:161-282 | everything, a sample without replacement, or the traversal in the selection space read back in the original space, as the limits say |
| MemoryBank.Transform | src/pipeline/patchcore_statistics.cpp:195-215 | the tiled projection whitens every row, in order, and refuses empty and incomplete input: each coordinate is the scaled difference of the inner products of the row and of the mean with a basis vector |
| MemoryBank.MeanBecomesZero | src/pipeline/patchcore_statistics.cpp:203-210 | what is whitened as the transform does sends the mean to the origin |
| MemoryBank.DifferencesScale | src/pipeline/patchcore_statistics.cpp:203-210 | and differences of coordinates are the scaled inner products of the difference of the points |
| MemoryBank.Shrink | src/pipeline/patchcore_statistics.cpp:402 | a reduction is the farthest-first selection, and every row kept is still the transform of the training patch at a distinct stream position |
| MemoryBank.StreamBank | src/pipeline/patchcore_statistics.cpp:383-404 | the bank ends with min(count, budget) whitened training patches of distinct positions, holds after each chunk exactly min(start, budget) rows and the chunk, at most budget plus one chunk, and is the whole stream in order while that fits |
| Moments.CovariationOfBoth | src/pipeline/patchcore_statistics.cpp:297-300 | the co-moment of two samples together is the sum of both plus the correction for their means |
| Moments.MergeExact | src/pipeline/patchcore_statistics.cpp:293-303 | merging the moments of two groups gives exactly the count, mean and centred scatter matrix of all rows, also when the first is empty |
| Moments.AddChunksExact | src/pipeline/patchcore_statistics.cpp:276-304 | adding rows chunk by chunk to the moments of earlier rows gives the moments of all of them, for every chunk size |
| Moments.AnySplitIsExact | src/pipeline/patchcore_statistics.cpp:276-304 | any sequence of batches, each with its own chunk size, gives the direct moments of the concatenated data |
| Checkpoint.IntegerRoundTrip | src/pipeline/patchcore_statistics.cpp:25-32 | little-endian integers are read back |
| Checkpoint.ByteIs | src/pipeline/patchcore_statistics.cpp:25-32 | the first byte written is the least significant |
| Checkpoint.ValuesRoundTrip | src/pipeline/patchcore_statistics.cpp:38-46 | representable values are read back from the front of a payload, whatever follows |
| Checkpoint.SizeTest | src/pipeline/patchcore_statistics.cpp:460-471 | the loader's division and remainder tests accept exactly the one file size that fits count and dimension, within its overflow guard |
| Checkpoint.FileRoundTrip | src/pipeline/patchcore_statistics.cpp:415-471 | loading a saved state restores it exactly if and only if the matrices fit the loader's size guard |
| Checkpoint.TruncatedFileRejected | src/pipeline/patchcore_statistics.cpp:455-471 | a checkpoint cut off after any number of bytes is refused |
| Checkpoint.HeaderLayout | src/pipeline/patchcore_statistics.cpp:15-46 | the header is the eight letters of the format, then version, kind of fit, dimension and count |
| Checkpoint.AcceptedFile | src/pipeline/patchcore_statistics.cpp:455-471 | whatever is accepted has that header intact and exactly the size its count calls for |
| StatisticalFit.ForeignFitRefused | src/pipeline/patchcore_statistics.cpp:455-459 | a checkpoint of a fit with another variant or dimension is refused |
| StatisticalFit.Validate | src/pipeline/patchcore_statistics.cpp:51-63 | the tests accept exactly the valid configurations, and the last of them does not overflow |
| StatisticalFit.StatisticalFit.Clear | src/pipeline/patchcore_statistics.cpp:255-261 | clearing leaves an empty fit without a file |
| StatisticalFit.StatisticalFit.CheckBatch | src/pipeline/patchcore_statistics.cpp:264-274 | the division guards accept exactly the well-shaped finite batches that fit the sizes |
| StatisticalFit.StatisticalFit.Accumulate | src/pipeline/patchcore_statistics.cpp:275-304 | the candidate is the chunked merge of all rows, or nothing when a device chunk fails; the fields keep their values |
| StatisticalFit.StatisticalFit.Append | src/pipeline/patchcore_statistics.cpp:305-319 | an append goes behind the committed features and never changes them, whatever prefix of it is written |
| StatisticalFit.StatisticalFit.Add | src/pipeline/patchcore_statistics.cpp:263-324 | exactly when it succeeds, and then the new state; a failure at any point leaves the committed state as it was |
| StatisticalFit.StatisticalFit.SaveCheckpoint | src/pipeline/patchcore_statistics.cpp:415-441 | the file holds a prefix of the encoding of the committed state; success means that all of it was read back and accepted, and the file is whole unless closing it loses bytes unreported |
| StatisticalFit.StatisticalFit.CopyFeatures | src/pipeline/patchcore_statistics.cpp:480-492 | block-wise copying restores all values exactly when all are finite and the new file takes them |
| StatisticalFit.StatisticalFit.LoadCheckpoint | src/pipeline/patchcore_statistics.cpp:443-500 | succeeds exactly on acceptable files the environment lets it copy, then holds the decoded state; a refused file changes no field |
| StatisticalFit.StatisticalFit.SaveArtifacts | src/pipeline/patchcore_statistics.cpp:373-413 | the replayed bank holds min(count, limit) transformed training patches within the size bound, and its size and errors are as reported, those of the statistics file and of the replay included |
| StatisticalFit.StepExact | src/pipeline/patchcore_statistics.cpp:276-322 | the contract of one addition turns the exact statistics of the rows so far into those of the rows with the batch |
| StatisticalFit.Run | src/pipeline/patchcore_statistics.cpp:255-500 | any sequence of commands and faults drives the object through exactly the explained history: which commands succeed, what each save leaves behind, and what the fit holds |
| StatisticalFit.FoundIsSaved | src/pipeline/patchcore_statistics.cpp:415-500 | what a save left behind, whole or cut short, is refused or gives back the very state that was saved |
| StatisticalFit.RunExact | src/pipeline/patchcore_statistics.cpp:263-500 | after any history of additions, saves, restores and resets, with faults at any point and files whole or cut short, the fit holds the exact statistics and values of the rows it stands for: those added with success, back to the last reset or as they were at the save that was restored |
| Reservoir.PositionsValid | src/c_api/model_management.cpp:1518-1527 | the reservoir always holds distinct positions of the stream read so far |
| Reservoir.DrawsAre | src/c_api/model_management.cpp:1521-1523 | the draw sequences counted are exactly those whose draw for each later item selects one of all positions up to it |
| Reservoir.EveryPositionEquallyLikely | src/c_api/model_management.cpp:1517-1527 | for every stream length and position, the draw sequences that keep it times the length is the capacity times all sequences |
| Reservoir.EverySubsetEquallyLikely | src/c_api/model_management.cpp:1517-1527 | every set of capacity-many positions is kept by the same number of draw sequences, the factorial of the number of later items |
| Calibrator.SampledLate | src/c_api/model_management.cpp:1521-1526 | overwriting the drawn slot, or none, keeps the reservoir equal to the positions the draws select |
| Calibrator.Calibrator.AddPixel | src/c_api/model_management.cpp:1517-1527 | one pixel extends the stream, draws only when the reservoir is full, and keeps the reservoir a sample of the stream |
| Calibrator.Calibrator.AddBatch | src/c_api/model_management.cpp:1485-1531 | image scores and the pixel stream grow by everything before the first score that is not finite, success means there was none, and the draws used are those offered with the pixels that found the reservoir full |
| Calibrator.SampleBatch | src/c_api/model_management.cpp:1485-1531 | after a batch a new calibrator holds the whole stream if it fits, else the positions that the supplied draws select; over all possible draws every position is kept equally often and every set of positions too |
| Calibrator.SortedCounts | src/c_api/model_management.cpp:1551-1555 | in sorted values the position bounds how many lie above and at or above it |
| Calibrator.QuantileIndex | src/c_api/model_management.cpp:1552-1554 | the index is in range, fewer positions than the quota plus one lie above it and at least the quota |
| Calibrator.Quantile | src/c_api/model_management.cpp:1550-1556 | the threshold is the value with fewer than rate * (n - 1) + 1 values above it and at least as many at or above it |
| Calibrator.ThresholdUnique | src/c_api/model_management.cpp:1550-1556 | there is only one such value |
| Calibrator.RangeOf | src/c_api/model_management.cpp:1557-1567 | from the least to the greatest value; where all coincide, widened on both sides by the larger of one millionth and one millionth of the value |
| Calibrator.Calibrator.Compute | src/c_api/model_management.cpp:1541-1589 | ranges and thresholds of both score sets, with the defaults exactly when no pixel was seen |
| PadimSizing.GuardIsExact | src/pipeline/padim.cpp:94-104 | the guard, evaluated with wrap-around, accepts exactly the sizes whose combined byte count fits 64 bits, and its subtraction never underflows when reached |
| PadimSizing.ChunkSizesExact | src/pipeline/padim.cpp:138-169 | with an accepted configuration no size, offset or combined byte count of any chunk wraps around, and chunks stay inside the buffers |
| PadimSizing.LocationBytesExact | src/pipeline/padim.cpp:140-155 | the bytes of one location are exact and positive, so the chunk size is defined |
| Padim.ValidateConfig | src/pipeline/padim.cpp:65-110 | the tests accept exactly the valid configurations, with the error of the first that fails, and their wrapping arithmetic is that of the guard |
| Covariance.QuadraticIs | src/pipeline/padim.cpp:340-352 | the quadratic form of the regularized covariance is the mean square of the combined samples about their mean plus the regularization times the squared norm |
| Covariance.Symmetric | src/pipeline/padim.cpp:347-350 | the covariance is symmetric |
| Covariance.PositiveDefinite | src/pipeline/padim.cpp:340-360 | for every vector v the form is at least the regularization times the squared norm of v, for any data and sample count |
| Covariance.StrictlyPositive | src/pipeline/padim.cpp:340-360 | with a positive regularization the form is positive at every vector but zero |
| Padim.AccumulatedTwice | src/pipeline/padim.cpp:273-288 | adding two groups of images one after the other is adding them all |
| Padim.AddOnHost | src/pipeline/padim.cpp:273-287 | the nested host loops add to every sum and second moment exactly the contributions of all images |
| Padim.AccumulateChunk | src/pipeline/padim.cpp:160-172 | one device call changes only its own locations, in bounds, and on success adds all images there |
| Padim.ChunkLocations | src/pipeline/padim.cpp:113-117 | a chunk has at least one location and at most all, fits the budget unless it is a single one, and one location more would not fit |
| PadimFit.UpdateChunk | src/pipeline/padim.cpp:138-155 | the statistics of one call fit the budget unless it is a single location, and those of one location more would not |
| Padim.AddOnDevice | src/pipeline/padim.cpp:155-175 | for every chunk size the device path succeeds unless a chunk fails, and then meets the very contract of the host path |
| PadimCovariance.CovarianceAt | src/pipeline/padim.cpp:337-354 | means and covariance entries of a location are those its sums and moments determine |
| PadimCovariance.AccumulatedEntry | src/pipeline/padim.cpp:273-288 | what was accumulated from nothing has at every location the covariance entries of the images' samples there |
| PadimCovariance.AccumulatedMean | src/pipeline/padim.cpp:342-346 | and its means are the means of the samples |
| PadimCovariance.ArtifactsPositiveDefinite | src/pipeline/padim.cpp:340-360 | the covariance written for any location of data accumulated from nothing is positive definite |
| PadimCovariance.AccumulatedFactorizes | src/pipeline/padim.cpp:356-360 | such a covariance has positive pivots, so its factorization succeeds |
| PadimCovariance.ResumedFactorizes | src/pipeline/padim.cpp:356-360 | so does that of a fit that was saved, restored and continued |
| PadimCovariance.RestoredMayNotFactorize | src/pipeline/padim.cpp:509-571 | an acceptable checkpoint of arbitrary finite values can make a covariance that is not positive definite and does not factorize |
| PadimFit.RestoredSucceedsExactly | src/pipeline/padim.cpp:340-360 | the artifacts of a restored checkpoint can be written if and only if at every location the pivots of its covariance are positive, which is to say that the form of its lower triangle is |
| PadimCovariance.SavedIsRestored | src/pipeline/padim.cpp:421-571 | a saved checkpoint is accepted and holds the state it was taken of |
| PadimCovariance.AcceptedIsSaved | src/pipeline/padim.cpp:498-560 | nothing else is accepted: an accepted file is the saved form of the state it holds |
| Cholesky.QuadraticByPivot | src/pipeline/padim.cpp:356 | the form of a symmetric matrix is a square weighted by the first pivot plus the form of what elimination leaves |
| Cholesky.PivotsDecide | src/pipeline/padim.cpp:356-360 | a symmetric matrix factorizes if and only if its form is positive at every vector but zero |
| Cholesky.FactorizesExactly | src/pipeline/padim.cpp:356-360 | for any square matrix only the lower triangle is read, and the form it mirrors into decides |
| PadimFit.PadimPipeline.Allocate | src/pipeline/padim.cpp:141-154 | the first addition starts from zero statistics of the configured size, later ones keep what is there |
| PadimFit.PadimPipeline.Update | src/pipeline/padim.cpp:155-179 | a failed device update counts nothing and leaves the poison set; a successful one adds exactly the batch |
| PadimFit.PadimPipeline.Add | src/pipeline/padim.cpp:119-290 | exactly which additions succeed, that they add exactly the batch, that a failed one keeps base, images and unpoisoned statistics, exactly when the fit becomes poisoned, and which error is reported |
| PadimFit.PadimPipeline.SaveCheckpoint | src/pipeline/padim.cpp:421-482 | a checkpoint is refused while poisoned and otherwise reflects exactly the whole batches added |
| PadimFit.PadimPipeline.LoadCheckpoint | src/pipeline/padim.cpp:484-571 | an accepted checkpoint replaces the statistics and lifts the poison; a refused one changes nothing |
| PadimFit.PadimPipeline.SaveArtifacts | src/pipeline/padim.cpp:292-375 | means and covariances of every location, written exactly when the fit is whole, every covariance factorizes, every inverse fits float32, and device and files allow it |
| PadimFit.PadimPipeline.Clear | src/pipeline/padim.cpp:573-580 | clearing lifts the poison and drops all statistics |
| PadimFit.Run | src/pipeline/padim.cpp:119-580 | any sequence of commands and faults drives the object through exactly the explained history: which commands succeed, what they write, and what the fit holds |
| PadimFit.HoldsWholeBatches | src/pipeline/padim.cpp:119-180 | in every history a fit holds the state of the last reset and the images of exactly the successful additions since |
| PadimFit.CheckpointsAreWhole | src/pipeline/padim.cpp:421-482 | every checkpoint written in any history is the state of the last reset with exactly the successful batches since, whatever failed |
| PadimFit.ArtifactsAreWhole | src/pipeline/padim.cpp:292-415 | so are the statistics behind all artifacts written |
| PadimFit.PoisonLasts | src/pipeline/padim.cpp:119-123 | after a device failure part-way nothing more succeeds until the fit is cleared or restored |
| PadimFit.FromNothingSucceeds | src/pipeline/padim.cpp:356-360 | a fit that started from nothing is never refused its artifacts for a covariance |
| PadimFit.ResumedIsOneFit | src/pipeline/padim.cpp:421-571 | saving, restoring and going on gives the statistics of never having stopped |
| JsonText.LessTotal | src/infrastructure/json.h:17 | the order of object keys is total and strict |
| JsonText.LessIs | src/infrastructure/json.h:17 | the first difference decides by the lesser character, and a proper prefix comes first |
| JsonText.InsertCorrect | src/infrastructure/json.cpp:66-67 | inserting refuses exactly the keys already there, and otherwise keeps the order and adds one entry |
| JsonText.Utf8Decodes | src/infrastructure/json.cpp:131-139 | the bytes appended for a code point are its shortest encoding by section 3 of RFC 3629 and decode to it |
| JsonText.BlankCharacters | src/infrastructure/json.cpp:177-179 | white space is the four characters of section 2 of RFC 8259, and VT and FF |
| JsonText.ShortEscapes | src/infrastructure/json.cpp:102-114 | the two-character escapes are those of section 7 of RFC 8259, with their meanings, and no others |
| JsonText.HexDigitValue | src/infrastructure/json.cpp:119-130 | the sixteen hexadecimal digits have their values in either case |
| JsonText.OnlyHexDigits | src/infrastructure/json.cpp:119-130 | and nothing else is a hexadecimal digit |
| JsonText.CodeOfDigits | src/infrastructure/json.cpp:119-130 | four digits are read as a number, the most significant first |
| JsonText.SurrogateUnits | src/infrastructure/json.cpp:130-131 | the code units refused are those whose first five bits are 11011 |
| JsonParser.PositionAdvances | src/infrastructure/json.cpp:199-204 | line and column stay those of the offset: newlines before it, and characters since the last one |
| JsonParser.Parser.Take | src/infrastructure/json.cpp:199-204 | consumes one character and keeps the position |
| JsonParser.Parser.SkipWhitespace | src/infrastructure/json.cpp:177-179 | stops at the first character that is no white space |
| JsonParser.Parser.ParseNumber | src/infrastructure/json.cpp:142-164 | stops where the scan of sign, integer, fraction and exponent stops, with its answer or its error |
| JsonParser.Parser.ParseString | src/infrastructure/json.cpp:91-117 | reads characters and escapes to the closing quote, with its answer or its error |
| JsonParser.Parser.AppendUnicode | src/infrastructure/json.cpp:119-140 | four digits give the bytes of a code point that is no surrogate, else the error at the offending place |
| JsonParser.Parser.ParseArray | src/infrastructure/json.cpp:76-89 | the loop answers as the recursive reading of the items does |
| JsonParser.Parser.ParseObject | src/infrastructure/json.cpp:54-74 | the loop answers as the recursive reading of the members does, duplicate keys refused |
| JsonParser.Parser.ParseValue | src/infrastructure/json.cpp:37-52 | every value is dispatched on its first character; the mutual recursion terminates |
| JsonParser.Parser.ParseDocument | src/infrastructure/json.cpp:28-34 | one value between white space, and nothing after it |
| JsonGrammar.TokenComplete | src/infrastructure/json.cpp:142-157 | every number token of section 6 of RFC 8259 that is followed by no number character is read whole |
| JsonGrammar.NumberSound | src/infrastructure/json.cpp:142-157 | every token the scan accepts is a number of section 6 of RFC 8259 |
| JsonGrammar.CharactersComplete | src/infrastructure/json.cpp:91-117 | every string of legal pieces is read back as its meaning |
| JsonGrammar.CharactersSound | src/infrastructure/json.cpp:91-117 | every string the parser accepts consists of legal pieces that mean what it returns |
| JsonCorrect.ValueComplete | src/infrastructure/json.cpp:37-89 | every syntax tree of any depth, wherever it stands, is read to its end and answered with its meaning |
| JsonCorrect.ItemsComplete | src/infrastructure/json.cpp:76-89 | so is every item list, with any white space |
| JsonCorrect.MembersComplete | src/infrastructure/json.cpp:54-74 | so is every member list, with any white space and any order of distinct keys |
| JsonCorrect.ValueSound | src/infrastructure/json.cpp:37-89 | every answer comes from a syntax tree that stands where the value was read and means the answer |
| JsonCorrect.ParserAcceptsTheGrammar | src/infrastructure/json.cpp:28-34 | the parser accepts exactly the texts that denote a value and answers with that value |
| JsonCorrect.MeaningWellFormed | src/infrastructure/json.cpp:54-89 | a parsed value has distinct ordered keys and number tokens in range throughout |
| JsonCorrect.Parse | src/infrastructure/json.cpp:314-324 | a value is returned exactly for the texts that denote it; otherwise the line and column are those of the offset where reading stopped |
| JsonWriter.EscapedMeans | src/infrastructure/json.cpp:220-242 | the escaped spelling of any byte string is legal and means that string |
| JsonWriter.Writer.AppendEscaped | src/infrastructure/json.cpp:220-242 | the loop writes that spelling between quotes |
| JsonWriter.Writer.AppendValue | src/infrastructure/json.cpp:244-282 | the recursive printing with commas, line breaks and indentation writes the rendering of one syntax tree |
| JsonWriter.ArrangedMeans | src/infrastructure/json.cpp:244-282 | that tree is legal and means the value, in both layouts and at every depth |
| JsonWriter.RoundTrip | src/infrastructure/json.cpp:314-331 | parsing what was serialized gives the value back, in both layouts |
| JsonWriter.ReformattingKeepsTheValue | src/infrastructure/json.cpp:314-331 | whatever text was accepted, its value can be written in either layout and read back |
| JsonWriter.Serialize | src/infrastructure/json.cpp:326-331 | the text denotes the value |
| BigEndianBytes.DigitsSpell | src/infrastructure/sha256.cpp:49-51 | the bytes written for the bit count spell it modulo 2^64 |
| Sha256.PaddingIsTheStandards | src/infrastructure/sha256.cpp:41-51 | below the length limit the padding is the one of section 5.1.1 of FIPS 180-4, and the only one |
| Sha256.WordOfBytes | src/infrastructure/sha256.cpp:55-60 | the digest bytes spell the state words |
| Sha256.DigestSpellsTheWords | src/infrastructure/sha256.cpp:53-61 | the digest has 32 bytes: the eight words of the last hash value in order |
| Sha256.RoundConstantsAreTheStandards | src/infrastructure/sha256.cpp:12-21 | every round constant is the first 32 bits of the fractional part of the cube root of its prime, by section 4.2.2 |
| Sha256.InitialIsTheStandards | src/infrastructure/sha256.cpp:98-101 | every initial word is the first 32 bits of the fractional part of the square root of its prime, by section 5.3.3 |
| Sha256.AddCountsUp | src/infrastructure/sha256.cpp:79-95 | addition counts up and wraps around after the greatest word, by section 3.2 |
| Sha256.PlusByWords | src/infrastructure/sha256.cpp:94-95 | a new hash value is the old one plus the working variables, word by word, by section 6.2.2 |
| Sha256.ParityOfBits | src/infrastructure/sha256.cpp:76-92 | each bit of the sum of three words is their parity, by section 4.1.2 |
| Sha256.ChoiceOfBits | src/infrastructure/sha256.cpp:87 | each bit of the choice is that of the word the first selects |
| Sha256.MajorityOfBits | src/infrastructure/sha256.cpp:90 | each bit of the majority is set in at least two words |
| Sha256.ScheduleSigmas | src/infrastructure/sha256.cpp:75-80 | the shift-and-or rotations of the schedule are the standard's functions |
| Sha256.RoundSigmas | src/infrastructure/sha256.cpp:86-89 | so are those of the rounds |
| Sha256.RoundStep | src/infrastructure/sha256.cpp:85-94 | one turn of the loop is one round of section 6.2.2 |
| Sha256.Sha256.ExpandSchedule | src/infrastructure/sha256.cpp:66-80 | the table holds the message schedule of the buffered block |
| Sha256.Sha256.Transform | src/infrastructure/sha256.cpp:65-96 | the state becomes the standard's next intermediate hash value of the buffered block |
| Sha256.HashedOneMore | src/infrastructure/sha256.cpp:32-36 | hashing one more block extends the hash of the blocks before it |
| Sha256.Sha256.Put | src/infrastructure/sha256.cpp:31 | one byte is stored within the 64 bytes of the buffer and appended to the message |
| Sha256.Sha256.Update | src/infrastructure/sha256.cpp:29-38 | the object holds the message extended by the bytes, however many blocks that fills |
| Sha256.Sha256.ZeroPad | src/infrastructure/sha256.cpp:43-48 | zeros leave just the room of the length, in this block or the next |
| Sha256.Sha256.PutLength | src/infrastructure/sha256.cpp:49-51 | the shifts write the counter's eight bytes, the most significant first |
| Sha256.Sha256.Pad | src/infrastructure/sha256.cpp:41-51 | the message held becomes the padded message |
| Sha256.Sha256.Finish | src/infrastructure/sha256.cpp:40-62 | the digest is the hash of everything put in, however it was cut into updates |
| Sha256.DigestFile | src/infrastructure/sha256.cpp:109-122 | a file read in chunks of any sizes has the digest of its bytes, or an error when reading failed |
| Fitter.InvariantRun | src/c_api/model_management.cpp:961-1248 | every step of every interleaving keeps the invariant, the set flag and the published fit |
| Fitter.BatchIsCounted | src/c_api/model_management.cpp:961-1050 | a batch that nothing disturbs is added and counted whole for every chunk size and image count, and the stage is READY again |
| Fitter.FailedBatchCountsWholeChunks | src/c_api/model_management.cpp:985-1037 | a batch that fails in some chunk has added and counted exactly the whole chunks before it |
| Fitter.LoadRestores | src/c_api/model_management.cpp:1113-1156 | a checkpoint that is read restores its count; one that cannot be read changes nothing |
| Fitter.FinalizeCompletes | src/c_api/model_management.cpp:1170-1240 | a finalize that nothing disturbs publishes the fit and returns OK |
| Fitter.FailedFinalize | src/c_api/model_management.cpp:1183-1248 | one that fails in its work leaves the fit as it was |
| Fitter.RefusedAddition | src/c_api/model_management.cpp:961-979 | an addition is refused after COMPLETE, and after a cancel, which it then shows |
| Fitter.RefusedLoad | src/c_api/model_management.cpp:1116-1119 | a load is refused unless the stage is READY |
| Fitter.RefusedFinalize | src/c_api/model_management.cpp:1170-1181 | a finalize is refused without samples, unless READY, and after a cancel |
| Fitter.TrainingCompletes | src/c_api/model_management.cpp:961-1240 | a training that nothing disturbs counts every image of every batch, and its finalize returns OK |
| Fitter.FinalizedAtMostOnce | src/c_api/model_management.cpp:1170-1240 | in every interleaving finalize returns OK at most once |
| Fitter.CompleteIsFinal | src/c_api/model_management.cpp:964-971 | once COMPLETE was stored the stage is only ever COMPLETE or CANCELLED, no sample is added and no second finalize succeeds |
| Fitter.CancellationHolds | src/c_api/model_management.cpp:985-1049 | once the flag is set it stays, at most one more backend chunk is added in total, and no finalize that starts afterwards returns OK |
| Fitter.NoFinalizeAfterCancel | src/c_api/model_management.cpp:1173-1181 | once the flag is set finalize returns OK only if one had passed its check of the flag by then |
| Fitter.CancelledForGood | src/c_api/model_management.cpp:985-1051 | after a cancel the stage stays CANCELLED, whatever any thread does next, if and only if the worker was not caught between its checks and its last store |
| Fitter.CancelWhileIdle | src/c_api/model_management.cpp:1162-1168 | a cancel that begins while no call is in progress leaves the stage CANCELLED for good, in every interleaving |
| Fitter.CancelledStageMayBeOverwritten | src/c_api/model_management.cpp:1162-1168 | a completed cancel that caught a batch in flight can still be followed by the stage READY |
| Fitter.StoreOrderMatters | src/c_api/model_management.cpp:1165-1166 | a published fit stays untouched in every run if and only if a cancel stores its flag before the stage |
| Nms.OverlapSymmetric | src/adapters/yolo_adapter.cpp:24-34 | intersection over union is symmetric |
| Nms.OverlapBounded | src/adapters/yolo_adapter.cpp:24-34 | it lies between 0 and 1 for any boxes, also inverted ones |
| Nms.OverlapSelf | src/adapters/yolo_adapter.cpp:24-34 | a box of positive area overlaps itself completely, any other not at all |
| Nms.OverlapCountsCells | src/adapters/yolo_adapter.cpp:24-34 | with whole corners the overlap is the number of unit cells in both boxes over the number in either |
| Nms.OverlapScales | src/adapters/yolo_adapter.cpp:24-34 | enlarging both boxes by one factor keeps their overlap, so rational corners reduce to whole ones |
| Nms.BestClass | src/adapters/yolo_adapter.cpp:126-134 | the class scan finds the highest score, the lowest class on ties |
| Nms.Decode | src/adapters/yolo_adapter.cpp:121-139 | one box for every anchor that reaches the confidence threshold, in order, with its best class and score |
| Nms.BoxUnique | src/adapters/yolo_adapter.cpp:122-138 | an anchor determines its box |
| Nms.SortByScore | src/adapters/yolo_adapter.cpp:141-142 | the same boxes in descending score |
| Nms.SelectionExists | src/adapters/yolo_adapter.cpp:145-155 | for any order there is a set of kept boxes in which a box is kept if and only if it conflicts with no kept box before it |
| Nms.SelectionUnique | src/adapters/yolo_adapter.cpp:145-155 | and there is only one such set |
| Nms.Suppress | src/adapters/yolo_adapter.cpp:143-155 | the loops keep exactly that set, in order |
| Nms.KeptApart | src/adapters/yolo_adapter.cpp:145-155 | kept boxes of one class overlap by at most the threshold |
| Nms.DroppedForABetterBox | src/adapters/yolo_adapter.cpp:145-155 | every dropped box overlaps an earlier kept box of its class that scores at least as much |
| Nms.SuppressionIdempotent | src/adapters/yolo_adapter.cpp:143-155 | suppressing the kept boxes again keeps them all |
| Nms.PixelIsLowestCover | src/adapters/yolo_adapter.cpp:159-168 | a painted pixel ends with the lowest score among the boxes that cover it, and 0 where none does |
| Nms.PixelBelowImageScore | src/adapters/yolo_adapter.cpp:157-170 | no pixel exceeds the image score |
| Nms.PaintsWhatItMeets | src/adapters/yolo_adapter.cpp:160-166 | a box paints exactly the pixels of the map whose cells meet its inside |
| Nms.Paint | src/adapters/yolo_adapter.cpp:157-168 | every pixel of the map and the image score, all rectangles within the map |
| Nms.Predict | src/adapters/yolo_adapter.cpp:118-171 | the whole post-processing of one image: decoded, sorted, suppressed and painted as stated above |
| BackendMemory.AtMostOnce | src/backends/backend_factory.cpp:157-175 | in a safe log nothing is released, destroyed or unloaded twice |
| BackendMemory.NoReadAfterRelease | src/model/runtime_types.h:54-83 | plugin memory is only read before its batch is released |
| BackendMemory.ReleaseOrder | src/backends/backend_factory.cpp:95-101 | a batch is released after it was handed out and before its instance is destroyed |
| BackendMemory.NothingAfterUnload | src/backends/backend_factory.cpp:95-101 | unloading is the last thing that happens, after every instance was destroyed |
| BackendMemory.DropBatchKeeps | src/backends/backend_factory.cpp:169-174 | when an owner of a batch lets go, the cascade of release, destruction and unloading keeps ownership and log consistent |
| BackendMemory.LetGoKeeps | src/model/runtime_types.h:55-68 | so it is when a tensor goes or becomes a private copy |
| BackendMemory.GuardedBatchKeeps | src/backends/backend_factory.cpp:157-167 | a malformed batch, or one met by an allocation failure, is released before anything shares it |
| BackendMemory.NothingLeft | src/backends/backend_factory.cpp:140-202 | without tensors and backend nothing is alive: every instance is destroyed, the library unloaded, and exactly the batches handed out with success are released |
| BackendMemory.ReleasedExactly | src/backends/backend_factory.cpp:169-174 | between calls a batch is released if and only if it was handed out with success and no tensor keeps it |
| BackendMemory.DestroyedExactly | src/backends/backend_factory.cpp:95-101 | an instance is destroyed if and only if the backend lets go of it and no tensor keeps a batch of it |
| BackendMemory.UnloadedExactly | src/backends/backend_factory.cpp:95-101 | the library is unloaded if and only if the backend is dropped and no tensor keeps a batch |
| BackendLifetime.DynamicBackend.Load | src/backends/backend_factory.cpp:50-128 | exactly when loading succeeds; a refused load changes nothing, a failed one leaves no instance, and the log gains exactly the creation and call of one instance |
| BackendLifetime.CheckReply | src/backends/backend_factory.cpp:182-190 | the tests on one tensor of a batch accept exactly the acceptable ones |
| BackendLifetime.SetView | src/model/runtime_types.h:76-83 | a tensor views host or device memory as inference asked for, and nothing when the pointer is null |
| BackendLifetime.DynamicBackend.Collect | src/backends/backend_factory.cpp:182-201 | the batch becomes one tensor per name, the first of that name, sharing the batch; a bad tensor gives up those made before it |
| BackendLifetime.DynamicBackend.Infer | src/backends/backend_factory.cpp:140-276 | exactly when host or device inference succeeds, what it returns, and that the log gains exactly the reads of the inputs, the call and the batch handed out; after any failure the tensors are those there were |
| BackendLifetime.DynamicBackend.CopyTensor | src/model/runtime_types.h:37-52 | a copy shares the view and keeps the batch |
| BackendLifetime.DynamicBackend.Data | src/model/runtime_types.h:55-68 | mutable access turns a view into a private copy of the same bytes that lets its batch go, and refuses device tensors |
| BackendLifetime.DynamicBackend.WriteTensor | src/model/runtime_types.h:55-68 | writing through the pointer changes this tensor and no other |
| BackendLifetime.DynamicBackend.ReadTensor | src/model/runtime_types.h:71-74 | constant access reads the view or the bytes without copying |
| BackendLifetime.DynamicBackend.Drop | src/backends/backend_factory.cpp:318-326 | dropping the backend leaves the tensors and what they keep alive |
| BackendLifetime.Run | src/backends/backend_factory.cpp:140-276 | over every run each command has its stated effect on backend, tensors and log, the log only grows, and between commands exactly what nobody keeps any more has been given back |
| BackendLifetime.FailedBatchIsKept | src/backends/backend_factory.cpp:153-156 | a batch handed out with a failing status is not released even when nothing else is left |
| Layout.View | src/adapters/feature_utils.cpp:39-65 | accepts exactly the float32 tensors with four positive dimensions and as many values as they say, and has their extents and values |
| Layout.ViewValue | src/adapters/feature_utils.cpp:39-65 | the view has at image, channel, row and column the value that stands there with the last dimension varying fastest |
| Layout.CopyBlock | src/adapters/feature_utils.cpp:155 | a block copy changes exactly its block, within both buffers |
| Layout.CopyLayers | src/adapters/feature_utils.cpp:144-158 | every copy stays in bounds and every layer of every image stands at its channels |
| Layout.ConcatenateChannels | src/adapters/feature_utils.cpp:129-160 | the joined tensor has at the channels of each input, by image, row and column, exactly its values, or the error is that of the first bad input |
| Layout.SelectChannels | src/adapters/feature_utils.cpp:162-185 | succeeds exactly for an acceptable tensor and a non-empty list of existing channels, with the errors in their order, and has by image, row and column the values of the listed channels, repetitions included |
| Layout.FlattenPatches | src/adapters/feature_utils.cpp:281-298 | the triple loop puts every value at its place among the patches |
| Layout.PermutationOfPositions | src/adapters/feature_utils.cpp:289-296 | the position maps of flattening and its inverse undo each other and stay inside |
| Layout.FlatteningUndone | src/adapters/feature_utils.cpp:281-298 | the patches give every value of the tensor back |
| Layout.FlatteningInjective | src/adapters/feature_utils.cpp:281-298 | two tensors of one shape with the same patches are the same |
| Layout.OneLayer | src/adapters/feature_utils.cpp:150-157 | no two layers hold one channel of the joined tensor |
| Layout.LayoutLaw | src/adapters/feature_utils.cpp:129-298 | joining, selecting and flattening puts at each patch and selected channel the value of the layer that holds the channel, at its local channel and the patch's location |
| Layout.LayoutLawOfTensors | src/adapters/feature_utils.cpp:129-298 | the same law by image, row and column of the tensors that were joined |

## Left out

- Rounding, overflow and NaN propagation of floating-point arithmetic: the statements are those of exact arithmetic.
- CUDA, TensorRT, ONNX Runtime, FAISS and OpenCV internals, and the device versions of the coreset and of the PaDiM finalization: foreign code, entered only by its contract.
- Random projection, the Mersenne Twister and the shuffle of the coreset fallback: their results are parameters; only that a shuffle permutes and a projection keeps the row count is used.
- PatchCore models from `model()` (eigendecomposition, rank and scales): the frozen projection is a parameter of the memory bank.
- The statistics file, the FAISS index and the package commit: file-system plumbing.
- PatchCorePipeline checkpoints (raw features) and the byte layout of PaDiM checkpoints: the same shape as the modelled one, with fewer fields.
- PaDiM statistics resident on the device, their zeroing and their chunked copies: the model keeps one copy of the statistics and lets a failed device call leave anything in its locations.
- PadimFit.PadimPipeline.SaveArtifacts: leaves out the inverse itself and the layout of the two files, because inverting is a library call; whether an inverse fits float32 and whether the files can be written are parameters.
- Resizing, DFKDE, SPADE, SubspaceAD residuals and PatchCore score weighting: library calls or transcendental functions.
- Averaging pools (`averagePool2d`): the program's own loop, left out.
- Coreset.PatchCorePipeline.BuildCoreset: models the host path of the original variant; the device path hands the selection to foreign code, and the statistical variants refuse the call.
- MemoryBank.Transform: does not model the refusal of whitened values beyond float32, because its arithmetic is exact.
- StatisticalFit.StatisticalFit.SaveArtifacts: does not model failures of the index file, because a library writes it.
- JsonWriter.Writer.AppendValue: writes a number as its token, because the reformatting of doubles is left out.
- JSON number conversion: a number is its token, and the tokens that `strtod` reports out of range are a parameter; recursion depth is not limited.
- The C++ `int` sum of channel counts in `concatenateChannels`: unbounded in the model.
- Hexadecimal formatting of the digest, and lengths of 2^61 bytes and more against the standard, which does not define them; the model states what the code computes for them.
- Fitter paths compiled out of a build without PatchCore or PaDiM, and the progress counters other than the processed samples.
- Calibrator creation and image conversion: the options a calibrator can have are its constructor's precondition.
- The device-extension negotiation, error texts and status-code mapping of plugins, and views set on memory of other owners.
- Allocation failures inside the loop that makes output tensors: they unwind like the bad tensor modelled there.
- Manifest fields, C object tables, runtime candidate selection, preprocessing, geometry restoration and timing: long but readable branch by branch.
