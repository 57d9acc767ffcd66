# image-processing-edge: PerformanceMetrics in Dafny

This project models the classifier of image-processing-edge, class
`PerformanceMetrics` in `classify.py`, and proves properties of it. The class
takes the corners detected in a reference image A and in candidate images B, C,
D and E. It fills four distance lists, sorts each list with an in-place
insertion sort, reduces each sorted list to one "median" value, and flags each
median as present (1) or absent (0) against a threshold. The driver in
`detect.py` runs these steps in a fixed order, and module `Detect` models that
order.

The model keeps the source's form:

- `Classify.PerformanceMetrics` is a class. Its four distance lists are fields
  that `EuclideanDistance` and `ComputeDistance` extend.
- `SortDistances` sorts an `array<real>` in place, with the source's two loops.
- `MedianDistance` and `AdaptiveThresholding` are loops over sequences.
- Each method is proved against a functional specification:
  - `PairDistances` and `OriginDistances` for the distance lists;
  - `InsertionSort` and `Insert` for the sort, which use the same stable
    right-to-left scan with a strict `<`;
  - `MediansOf` and `MedianOf` for the medians;
  - `ClassifyMedians` and `Threshold` for the flags.
- Lemmas prove properties of those specifications.

Modules:

| file | module | models |
|---|---|---|
| results.dfy | `Results` | the IndexError the source raises, as a `Result` |
| geometry.dfy | `Geometry` | corners, the distance formula, the lists computeDistance builds |
| sorting.dfy | `Sorting` | the insertion sort as a function, and its laws |
| median.dfy | `Median` | medianDistance's index arithmetic |
| thresholding.dfy | `Thresholding` | adaptiveThresholding's threshold and flags |
| classify.dfy | `Classify` | the `PerformanceMetrics` class and its methods |
| detect.dfy | `Detect` | the driver's order of calls, end to end |

The model keeps three behaviours of the code as written:

- **The E list is measured against (0, 0).** In `computeDistance` the branch
  that reads image E's corner tests `i == 4`, but `i` runs over 0..3. So in
  the last pass `(xI, yI)` stays `(0, 0)`, and the E list holds each corner of A
  measured against the origin. The dead branch is kept in `ComputeDistance` as
  an `assert false`, which the verifier proves is never reached.
  `Geometry.OriginDistancesDifferFromPairing` proves the consequence: an image E
  equal to image A does not give an all-zero list, unless every corner of A is
  at (0, 0).
- **medianDistance does not pick the middle entry.** For a length `n` it reads
  `int(n/2)` and `int((n+1)/2)`.
  - For an even `n` both subscripts are `n/2`, so the value is the entry at
    `n/2`.
  - For an odd `n` the value is the entry at `(n+1)/2`, one past the middle.
  - Lists of length 0 or 1 raise IndexError.

  `Median.MedianOfIsUpperEntry` pins this down on concrete lists: `[1, 2, 3]`
  gives 3 and `[1, 2, 3, 4]` gives 3.
- **The driver sorts the medians before thresholding.** So the printed flags
  follow the ranks of the medians, not the order B, C, D, E. The flags come out
  non-increasing, and the last one is always 0.

Exact reals stand for Python floats. `math.sqrt` is a parameter `sqrt`, and
`Geometry.IsSquareRoot` constrains it: on a non-negative argument it returns
the non-negative root. Pixel coordinates are unbounded integers.

## Model

The functions `SquaredDistance`, `Distance`, `PairDistances`, `OriginDistances`, `InsertionSort`, `Insert`,
`MedianOf`, `MediansOf`, `Threshold`, `PresenceFlags`, `ClassifyMedians` and
`Detect.Presence` write out the source's formulas. They serve as the
specifications of the methods below and as the subjects of the lemmas, so they
have no rows of their own.

| member | source | states |
|---|---|---|
| Classify.PerformanceMetrics.constructor | classify.py:41-65 | Stores the five corner lists and starts all four distance lists empty. |
| Classify.PerformanceMetrics.EuclideanDistance | classify.py:104-129 | Appends `sqrt((xA-xI)^2 + (yA-yI)^2)` to the list that index 0..3 selects (B, C, D, E), leaves the other three lists unchanged, and changes nothing for any other index. All stored distances stay non-negative. |
| Classify.PerformanceMetrics.ComputeDistance | classify.py:83-102 | The B, C and D lists each gain one distance per corner of A, against the corner at the same index. The E list gains each corner of A measured against (0, 0), because the `i == 4` branch is never taken. Returns the four lists held by the object. |
| Classify.PerformanceMetrics.SortDistances | classify.py:146-160 | Sorts the array in place into the result of the functional insertion sort: non-decreasing and a permutation of the input. Returns the same array. |
| Classify.PerformanceMetrics.InsertEntry | classify.py:148-157 | One outer pass: the prefix up to i becomes the entry at i inserted after the last prefix entry not greater than it, with the larger entries shifted right. The suffix is unchanged. |
| Classify.PerformanceMetrics.MedianDistance | classify.py:177-195 | Succeeds exactly when every list has at least two entries. Then it returns one value per list, in order, each the entry at the picked index; otherwise IndexError. |
| Classify.PerformanceMetrics.AdaptiveThresholding | classify.py:212-224 | IndexError exactly when there are fewer than four medians. Otherwise each median gets 1 when it is strictly below the mean of the first four, else 0. |
| Geometry.SquaredDistanceProperties | classify.py:120 | The squared distance is non-negative, symmetric, and zero exactly when the corners coincide. |
| Geometry.DistanceNonNegative | classify.py:120 | Every distance is non-negative. |
| Geometry.DistanceSymmetric | classify.py:120 | The distance does not depend on which corner is the reference. |
| Geometry.RootZeroIff | classify.py:120 | The root of a non-negative value is zero exactly when the value is. |
| Geometry.DistanceZeroIff | classify.py:120 | The distance is zero exactly when the two corners coincide. |
| Geometry.RootOfSquare | classify.py:120 | The root of a square is the non-negative number squared. |
| Geometry.DistanceAlongRow | classify.py:120 | Two corners on the same row, k pixels apart, are at distance exactly k. |
| Geometry.PairDistancesNonNegative | classify.py:83-99 | Every list computeDistance builds, the origin list included, is non-negative. |
| Geometry.PairDistancesSymmetric | classify.py:88-99 | Swapping reference and candidate corners gives the same list. |
| Geometry.PairDistancesToItself | classify.py:88-99 | A candidate whose corners equal the reference's gives an all-zero list. |
| Geometry.OriginDistancesDifferFromPairing | classify.py:85-97 | When some corner of A is off the origin, the E list differs from pairing A with itself, at that corner. |
| Sorting.InsertionSortStep | classify.py:146-157 | Sorting a prefix one entry longer inserts that entry into the sorted shorter prefix. |
| Sorting.InsertAt | classify.py:153-157 | The inserted entry lands right after the last entry not greater than it, and everything after it was greater. |
| Sorting.InsertPermutes | classify.py:153-157 | One insertion adds exactly the key to the list's multiset. |
| Sorting.InsertKeepsSorted | classify.py:153-157 | Inserting into a non-decreasing list keeps it non-decreasing. |
| Sorting.InsertionSortSorted | classify.py:146-160 | The sorted list is non-decreasing. |
| Sorting.InsertionSortPermutes | classify.py:146-160 | The sorted list has the same length and the same multiset of values. |
| Sorting.InsertionSortKeepsSorted | classify.py:146-160 | A list that is already non-decreasing is left unchanged. |
| Sorting.SortedPermutationsEqual | classify.py:146-160 | Two non-decreasing lists with the same multiset are equal: the sorted output is unique. |
| Sorting.InsertionSortOrderIndependent | classify.py:146-160 | Lists with the same multiset sort to the same list. |
| Median.IntOfHalf | classify.py:188-190 | Python's `int(k/2)` (true division, then truncation) equals floor division for non-negative k. |
| Median.MedianOfPicks | classify.py:185-190 | A list yields a value exactly when it has at least two entries. The value is the entry at n/2 for an even length n and at (n+1)/2 for an odd one. |
| Median.MedianOfSortedBounds | classify.py:185-190 | On a sorted list the value lies between the first and the last entry. |
| Median.MedianOfIsUpperEntry | classify.py:187-190 | [1, 2, 3] gives 3 and [1, 2, 3, 4] gives 3: the entry above the middle, not the textbook median. |
| Median.MediansOfSpec | classify.py:177-195 | The whole reduction succeeds exactly when every list has at least two entries. It then gives one value per list, in order, each at that list's picked index. |
| Median.MediansOfUniform | classify.py:183-192 | For lists that all have n entries: success exactly when there are no lists or n ≥ 2, and the same index is read from every list. |
| Thresholding.ThresholdIsMean | classify.py:214 | The nested average equals the plain mean of the first four medians. |
| Thresholding.ThresholdOrderIndependent | classify.py:214 | Reordering the first four medians does not change the threshold. |
| Thresholding.ThresholdBounds | classify.py:214 | The threshold lies between the smallest and the largest of the first four medians. |
| Thresholding.NotAllPresent | classify.py:214-222 | At least one of the first four medians is flagged 0. |
| Thresholding.SomePresentIffUnequal | classify.py:214-222 | Some one of the first four medians is flagged 1 exactly when they are not all equal. |
| Thresholding.FlagsOfSorted | classify.py:217-222 | On non-decreasing medians the flags are non-increasing. |
| Thresholding.FlagsPermutation | classify.py:217-222 | With the threshold fixed, rearranging the medians only rearranges the flags. |
| Thresholding.SumPermutation | classify.py:214 | The sum behind the mean does not depend on the order of the values. |
| Detect.DetectPresence | detect.py:191-216 | The driver's sequence of calls produces exactly `Presence`: distances, each list sorted, the medians, the medians sorted, then the flags. When B, C or D has fewer corners than A, the result is the IndexError that computeDistance raises. |
| Detect.SortedListsLengths | detect.py:193-204 | The four sorted lists each have one entry per corner of A. |
| Detect.MediansShape | detect.py:193-206 | medianDistance succeeds on the sorted lists exactly when A has at least two corners. It then gives four values, each the entry at the picked index of its sorted list. |
| Detect.SortedMediansFlags | detect.py:213-216 | Four sorted medians give four non-increasing flags. The last is 0, and the first is 1 exactly when the medians are not all equal. |
| Detect.PresenceShape | detect.py:193-216 | The pipeline finishes exactly when A has at least two corners and B, C and D each have at least as many corners as A. Otherwise it stops with IndexError. When it finishes it yields four non-increasing flags, the last one 0. |
| Detect.SortingMediansKeepsThreshold | detect.py:213-216 | Sorting the medians before thresholding leaves the threshold unchanged. |
| Detect.SortingMediansMovesFlags | detect.py:213-216 | Sorting the medians only rearranges the flags: the same number of 1s and 0s come out. |
| Detect.LargestMedianAbsent | detect.py:213-216 | On sorted medians the last flag is 0. |
| Detect.SmallestMedianPresentIff | detect.py:213-216 | On sorted medians the first flag is 1 exactly when the smallest and the largest differ. |
| Detect.AllEqualIffPermutation | detect.py:213-216 | The sorted medians' extremes differ exactly when the unsorted medians are not all equal. |
| Detect.FlagsFollowRanks | detect.py:213-216 | When the medians of B and D are below the mean of the four and those of C and E are at or above it, in any order among themselves, the flags in candidate order are 1, 0, 1, 0, but the driver outputs 1, 1, 0, 0. |
| Detect.FlagsFollowSortedMedians | detect.py:213-216 | Medians 0, 100, 1, 50 for B, C, D, E get flags 1, 0, 1, 0 in candidate order, but the driver outputs 1, 1, 0, 0. |
| Detect.SortFour | detect.py:213 | Four medians listed as w, z, x, y with w ≤ x ≤ y ≤ z sort to w, x, y, z. |

## Left out

- Printing: the `print` of the threshold (classify.py:215) and the driver's prints (detect.py:207-218) produce no value the pipeline uses.
- Image I/O and corner detection: reading images, `goodFeaturesToTrack` and the OpenCV windows are outside the model. The corners enter as sequences of integer points, and a `None` from the detector is not represented.
- Floating point: distances, the 0.5 factor and the threshold are exact reals, so rounding in `math.sqrt` and in float addition is not modelled. `sqrt` is a parameter constrained by `IsSquareRoot`.
- Integer width: the coordinates from `np.int0` are int32 or int64, and their squares cannot overflow at pixel sizes, since every image is first scaled down to 15% (detect.py:26-33). The model uses unbounded integers.
- Classify.PerformanceMetrics.ComputeDistance: requires B, C and D to have at least as many corners as A. In the source a shorter list raises IndexError after some distances have already been appended; that partial state is not modelled. `Detect.DetectPresence` tests the lengths first and returns the same IndexError, and nothing after the error reads the partial lists.
- Aliasing: in the source the driver sorts the object's own field lists in place, so the object's fields end up sorted too. `Detect.DetectPresence` sorts copies in fresh arrays, and the object's fields keep the unsorted lists.
- The corners of E are stored by the constructor, but no reachable code reads them, so nothing in the model depends on them.
