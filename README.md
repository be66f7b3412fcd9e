# Online signature verification: a Dafny model of the feature pipeline

This project models the core of a small online-signature verifier. A pen
stroke is three sampled traces: X, Y and pressure P. The feature extractor
turns it into a fixed-length vector of 21 histograms:

- forward-difference derivatives of first and second order;
- the polar form (speed and angle) of the first and second derivatives;
- 1-D and 2-D equal-width histograms of these series, some over fixed bounds
  (±π), some over mean ± 3·std of the data, and some over each half of a series.

The template generator takes the feature vectors of several enrolled strokes.
From their per-feature mean and standard deviation it derives:

- the quantization steps `q = beta·sigma + epsilon`;
- a template, the mean of the enrolled vectors divided by `q`.

The matcher scores a test vector by the Manhattan (L1) distance between
`test / q` and the template.

Everything is stated over exact reals (`real`). The transcendental calls are
`math.hypot`, `math.atan2`, the square root inside `np.std`, and `np.pi`. They
are fields of a `MathOps` value that every operation takes as a parameter.
`MathOps.Sound()` lists the only facts the proofs use:

- π > 0;
- sqrt(0) = 0, and sqrt is non-negative on non-negative arguments;
- hypot ≥ 0;
- atan2 lies in (−π, π].

Modules, one per file:

- `Numerics` (numerics.dfy): sums, `np.mean`, population variance and
  `np.std`, elementwise division, `MathOps`.
- `Histograms` (histograms.dfy): `_hist_1d` and `_hist_2d`. This covers
  `np.linspace` edges, binning in which every bin is half-open except the last,
  which is closed, x-major flattening, normalisation, and the mean ± k·std
  range. Each binning function is paired with a reference definition: an
  interval predicate `InBin`, and counts `CountInBin` / `CountInCell` /
  `CountInRange` taken directly over the data. Lemmas connect the two.
- `FeatureExtractor` (feature_extractor.dfy):
  - `compute_derivatives` and `compute_polar_coords` as methods with loops,
    proved against the functions `Deriv`/`DerivMap` and `Polar`;
  - `process_signature` as a method that appends histogram after histogram,
    proved equal to `Features`, the concatenation of the 21 entries of the
    layout table `Layout`.
- `TemplateGenerator` (template_generator.dfy): `generate_template`.
- `Matcher` (matcher.dfy): `verify_signature`.

Where the code and its comments differ, the model follows the code. The
comments in src/feature_extractor.py number the histograms 1 to 16 (the last
label, at line 216, reads "Histogram 15-16"). The code makes 21 histogram
calls, because the angle-speed and pressure calls are done once per half, and
the model numbers all 21.

The feature vector has 1980 entries for every stroke length
(`FeatureExtractor.Features`). A stroke of at most one sample gives 1980 zeros
(`FeatureExtractor.ShortStrokeFeatures`).

## Model

| member | source | states |
|---|---|---|
| Numerics.Zeros | src/feature_extractor.py:66-67 | `np.zeros(n)` has n entries, all zero |
| Numerics.MeanBounded | src/feature_extractor.py:71 | `np.mean` of data within [lo, hi] lies within [lo, hi] |
| Numerics.MeanBetween | src/template_generator.py:24 | the mean of a non-empty column lies between its smallest and its largest entry |
| Numerics.Variance | src/template_generator.py:25 | the population variance is never negative |
| Numerics.Std | src/template_generator.py:25 | under `Sound()` the standard deviation is never negative |
| Numerics.ConstantStatistics | src/template_generator.py:24-25 | data all equal to c has mean c, variance 0 and standard deviation 0 |
| Numerics.SumDivided | src/template_generator.py:36-37 | dividing every term by d divides the sum by d |
| Numerics.SumNonnegative | src/matcher.py:21 | a sum of non-negative terms is non-negative, and zero exactly when every term is zero |
| Numerics.Quantize | src/matcher.py:18 | elementwise `v / q` keeps the length of v |
| Histograms.Linspace | src/feature_extractor.py:77 | bins + 1 edges, the first at the lower bound and the last at the upper; consecutive edges differ by (hi − lo)/bins; ordered when lo ≤ hi |
| Histograms.GridMonotone | src/feature_extractor.py:77 | evenly spaced points with a non-negative step are ordered |
| Histograms.Locate | src/feature_extractor.py:78 | the scan from bin i stops at a bin index from i up to the last bin |
| Histograms.BinOf | src/feature_extractor.py:78 | a point is binned exactly when it lies in [first edge, last edge], and then into one of the bins |
| Histograms.LocateInBin | src/feature_extractor.py:78 | the located bin holds the point: e[i] ≤ v < e[i+1], or v = e[last] in the last bin |
| Histograms.InBinUnique | src/feature_extractor.py:78 | with ordered edges, no point lies in two bins |
| Histograms.BinOfIsInterval | src/feature_extractor.py:78 | with ordered edges, BinOf(v) = i exactly when v lies in interval i (both directions) |
| Histograms.Tally | src/feature_extractor.py:78 | the count vector has one entry per bin |
| Histograms.TallyAt | src/feature_extractor.py:78 | count i of the tally is the number of points whose bin index is i |
| Histograms.TallySum | src/feature_extractor.py:78 | the counts add up to the number of points that got a bin |
| Histograms.HitsOfBinIndices | src/feature_extractor.py:78 | the number of binned points is the number of points inside [first edge, last edge] |
| Histograms.OccurrencesOfBinIndices | src/feature_extractor.py:78 | the points with bin index i are exactly the points in interval i |
| Histograms.Divisor | src/feature_extractor.py:81-82 | counts are divided by \|data\| in relative mode with data, and by 1 (left alone) in absolute mode or without data; the divisor is positive |
| Histograms.Normalize | src/feature_extractor.py:81-82 | entry i of the normalised histogram is count i divided by the divisor, for every bin |
| Histograms.SumNormalize | src/feature_extractor.py:81-82 | dividing every count by d divides the total by d |
| Histograms.CountInRangeAll | src/feature_extractor.py:81-82 | when every point lies in the range, all of them are counted |
| Histograms.EffectiveRange | src/feature_extractor.py:70-74 | with sigma_factor > 0 the range is centred on the mean and 2·sigma_factor·std wide; otherwise it is the given bounds; ordered under `Sound()` or given min ≤ max |
| Histograms.Edges | src/feature_extractor.py:70-77 | bins + 1 edges from the effective lower bound to the effective upper bound, ordered when the range is |
| Histograms.Hist1D | src/feature_extractor.py:53-84 | exactly `bins` entries; empty data gives all zeros |
| Histograms.Hist1DBins | src/feature_extractor.py:77-82 | entry i is the number of points in interval i of the edges, divided by \|data\| in relative mode |
| Histograms.Hist1DSum | src/feature_extractor.py:77-82 | the entries add up to the number of points inside the effective range, divided by \|data\| in relative mode |
| Histograms.Hist1DAbsolute | src/feature_extractor.py:78-82 | absolute mode: every entry is a non-negative whole number and the entries sum to at most \|data\| |
| Histograms.Hist1DRelative | src/feature_extractor.py:81-82 | relative mode: the entries sum to at most 1, and to exactly 1 when every point lies in the effective range (a count out of n is at most 1 by the helper `RatioAtMostOne`) |
| Histograms.CountInBinConstant | src/feature_extractor.py:78 | data repeating one value c counts entirely in each bin that holds c, and not at all elsewhere |
| Histograms.Hist1DConstant | src/feature_extractor.py:77-82 | a repeated value c puts 1 (relative) or \|data\| (absolute) in the bins whose interval holds c and 0 in all the others |
| Histograms.Hist1DSingleBin | src/feature_extractor.py:77-82 | relative mode over fixed ordered bounds: a repeated value in bin b gives 1 at b and 0 in every other bin |
| Histograms.Hist1DIgnoresGivenRange | src/feature_extractor.py:70-74 | with sigma_factor > 0 the result does not depend on min_val and max_val |
| Histograms.CellOf | src/feature_extractor.py:121 | a point gets a cell exactly when both coordinates are within their edges, and the cell is below xBins·yBins |
| Histograms.CellIndexBound | src/feature_extractor.py:127 | the x-major flat index i·ny + j of cell (i, j) is below nx·ny |
| Histograms.CellIndexUnique | src/feature_extractor.py:127 | the flat index i·ny + j with j < ny determines i and j |
| Histograms.CellOfIsCell | src/feature_extractor.py:121-127 | with ordered edges a point's flat cell is i·ny + j exactly when x lies in x-interval i and y in y-interval j |
| Histograms.HitsOfCellIndices | src/feature_extractor.py:121 | the number of points that got a cell is the number of points inside both ranges |
| Histograms.OccurrencesOfCellIndices | src/feature_extractor.py:121-127 | the points with flat index i·ny + j are exactly the points in cell (i, j) |
| Histograms.Hist2D | src/feature_extractor.py:86-127 | exactly xBins·yBins entries; either input empty gives all zeros (the early return), whatever the other's length |
| Histograms.Hist2DCell | src/feature_extractor.py:119-127 | entry i·yBins + j is the number of points in cell (i, j), divided by \|x\| in relative mode (x-major flattening) |
| Histograms.CountInBoxAll | src/feature_extractor.py:119-125 | when every pair lies inside both ranges, all of the pairs are counted |
| Histograms.Hist2DSum | src/feature_extractor.py:119-125 | the entries add up to the number of points inside both effective ranges, divided by \|x\| in relative mode |
| Histograms.Hist2DRelative | src/feature_extractor.py:124-125 | relative mode: the entries sum to at most 1, including when one input is empty, and to exactly 1 when every pair lies inside both effective ranges |
| FeatureExtractor.Diff | src/feature_extractor.py:29 | one order of forward differences is one shorter (empty stays empty), and entry i is s[i+1] − s[i] |
| FeatureExtractor.Deriv | src/feature_extractor.py:27-31 | the derivative of order k (k rounds of forward differences) has length max(0, len − k) |
| FeatureExtractor.DiffTelescopes | src/feature_extractor.py:29 | adding up the first i differences to s[0] gives back s[i] |
| FeatureExtractor.DerivOfConstant | src/feature_extractor.py:27-31 | a constant series has all-zero derivatives of every order k ≥ 1 |
| FeatureExtractor.DerivMap | src/feature_extractor.py:24-33 | the derivative map has exactly the keys 1..maxOrder, each bound to the derivative of that order |
| FeatureExtractor.Get | src/feature_extractor.py:145-147 | `.get(k, [])`: the entry for k when the map has one, and the empty series otherwise |
| FeatureExtractor.ComputeDerivatives | src/feature_extractor.py:15-33 | the loop builds exactly the map `DerivMap`: keys 1..maxOrder, key k bound to the k-th derivative |
| FeatureExtractor.Polar | src/feature_extractor.py:47-49 | both outputs have length min(\|x\|, \|y\|); entry i is hypot/atan2 of the i-th pair; under `Sound()` radii are ≥ 0 and angles in (−π, π] (one pair at a time by the helper `Numerics.PolarRange`) |
| FeatureExtractor.ComputePolarCoords | src/feature_extractor.py:35-51 | the appending loop gives radius and angle of length min(\|x\|, \|y\|) equal to the zip; radii ≥ 0 and angles in (−π, π] under `Sound()` |
| FeatureExtractor.SignatureTraces | src/feature_extractor.py:139-177 | the two series of histogram 3 have equal length max(0, \|θ1\| − 2); Δθ has length max(0, \|θ1\| − 1); \|r1\| = \|θ1\| ≤ \|x1\| |
| FeatureExtractor.DeriveTraces | src/feature_extractor.py:139-177 | the derivative and polar calls compute exactly the series of `SignatureTraces` |
| FeatureExtractor.PieceSameLength | src/feature_extractor.py:199-214 | after cutting to the shorter length, the halves at split = min_len // 2 of two series have equal length |
| FeatureExtractor.Layout | src/feature_extractor.py:155-229 | 21 entries; entry k carries the arguments of the k-th histogram call: series, half, bin counts, bounds, counting mode and sigma factors |
| FeatureExtractor.Render | src/feature_extractor.py:155-229 | each histogram of the layout is as wide as its entry says (bins, or xBins·yBins) |
| FeatureExtractor.LayoutWidths | src/feature_extractor.py:155-229 | the 21 histograms have widths 20, 20, 400, 10, 10, 4×20, 2×100, 6×200 and 4×10 |
| FeatureExtractor.Blocks | src/feature_extractor.py:155-229 | 21 histograms, histogram k of width BlockWidth(k) |
| FeatureExtractor.Features | src/feature_extractor.py:129-231 | the feature vector has exactly 1980 entries for every input length |
| FeatureExtractor.FeatureLayout | src/feature_extractor.py:155-231 | histogram k of the layout fills indices Offset(k) up to Offset(k+1) of the feature vector, which lie inside the 1980 entries |
| FeatureExtractor.RenderOfEmpty | src/feature_extractor.py:66-67 | over empty series every histogram of the layout is all zeros |
| FeatureExtractor.ShortStrokeFeatures | src/feature_extractor.py:139-231 | a stroke of at most one sample gives 1980 zeros |
| FeatureExtractor.StraightStrokeTraces | src/feature_extractor.py:139-160 | a stroke sampled at a constant step (dx, dy) has min(\|X\|, \|Y\|) − 1 directions, all atan2(dy, dx), speeds all hypot(dx, dy), and direction changes all 0 |
| FeatureExtractor.StraightStrokeDirections | src/feature_extractor.py:155-157 | for such a stroke histogram 1 is 1 in the one bin whose interval holds atan2(dy, dx) and 0 in the other 19 |
| FeatureExtractor.ConstantDirections | src/feature_extractor.py:155-157 | equal directions a in [−π, π] fill exactly one bin of histogram 1, the one holding a, with 1 |
| FeatureExtractor.StraightStrokeTurns | src/feature_extractor.py:159-162 | for such a stroke of at least three samples histogram 2 is 1 in bin 10, whose interval [0, π/10) holds 0, and 0 elsewhere |
| FeatureExtractor.NoTurns | src/feature_extractor.py:159-162 | all-zero direction changes give histogram 2 with 1 in bin 10 and 0 elsewhere |
| FeatureExtractor.Block1D | src/feature_extractor.py:155-229 | a one-dimensional layout entry is `_hist_1d` of its series, or of a half of it, with the entry's bounds, counting mode and sigma |
| FeatureExtractor.Block2D | src/feature_extractor.py:164-214 | a two-dimensional entry is `_hist_2d` of its two series cut to a common length (and halved), whose pieces have equal length |
| FeatureExtractor.CoordStep | src/feature_extractor.py:182-184 | iteration i of the coordinate loop produces histogram 6 + i |
| FeatureExtractor.PairStep | src/feature_extractor.py:187-194 | iteration i of the pair loop, after truncation to min_len, produces histogram 10 + i |
| FeatureExtractor.AngleSpeedStep | src/feature_extractor.py:197-214 | iteration i of the angle-speed loop produces histograms 12 + 2i and 13 + 2i from the two halves of the truncated pair |
| FeatureExtractor.PressureStep | src/feature_extractor.py:217-229 | iteration i of the pressure loop produces histograms 18 + 2i and 19 + 2i from the two halves of the pressure derivative |
| FeatureExtractor.AngleHistograms | src/feature_extractor.py:155-170 | the three appends give histograms 1-3 of the layout, in order |
| FeatureExtractor.SpeedHistograms | src/feature_extractor.py:172-179 | the two appends give histograms 4-5 |
| FeatureExtractor.CoordinateHistograms | src/feature_extractor.py:181-184 | the loop gives histograms 6-9 |
| FeatureExtractor.CoordinatePairHistograms | src/feature_extractor.py:186-194 | the loop gives histograms 10-11 |
| FeatureExtractor.AngleSpeedHistograms | src/feature_extractor.py:196-214 | the loop gives histograms 12-17 |
| FeatureExtractor.PressureHistograms | src/feature_extractor.py:216-229 | the loop gives histograms 18-21; the shortcut for an empty derivative (2·bins zeros) agrees with them |
| FeatureExtractor.AppendHistograms | src/feature_extractor.py:152-231 | appending the six groups in order gives exactly the concatenation of the 21 layout histograms |
| FeatureExtractor.ProcessSignature | src/feature_extractor.py:129-231 | the appended vector is exactly the concatenation `Features` of the 21 layout histograms, and is 1980 long |
| TemplateGenerator.Epsilon | src/template_generator.py:32 | the floor is 0.002 exactly for indices below 100, and 0.8 exactly for indices from 100 on |
| TemplateGenerator.Generator.QuantizationSteps | src/template_generator.py:28-33 | one step per feature, beta·std(column i) + epsilon(i); with beta ≥ 0 every step is at least its floor, so positive |
| TemplateGenerator.QuantizedColumn | src/template_generator.py:36-37 | the mean of a column after dividing it by q[i] is the column's mean divided by q[i] |
| TemplateGenerator.Generator.GenerateTemplate | src/template_generator.py:13-39 | template and q have the enrollment width; q is the step vector and positive; template[i] = mean of feature i over the enrollment / q[i] |
| TemplateGenerator.IdenticalEnrollment | src/template_generator.py:24-37 | enrolling copies of v (one copy included) gives q = epsilon exactly and template = v / epsilon |
| Matcher.L1 | src/matcher.py:21 | the Manhattan distance is non-negative and zero exactly when the vectors are equal |
| Matcher.L1Symmetric | src/matcher.py:21 | the distance does not depend on the order of its arguments |
| Matcher.L1Triangle | src/matcher.py:21 | the distance satisfies the triangle inequality |
| Matcher.L1Pointwise | src/matcher.py:21 | no single feature's difference exceeds the distance |
| Matcher.VerifySignature | src/matcher.py:7-21 | the score is ≥ 0; it is 0 exactly when test[i]/q[i] = template[i] for every i; it bounds every per-feature difference |
| Matcher.ScoreLipschitz | src/matcher.py:18-21 | two test vectors' scores against one template differ by at most the distance between their quantized forms |
| Matcher.SelfMatch | src/matcher.py:18-21 | scoring v against the template enrolled from copies of v gives 0 |

## Left out

- src/signature_reader.py (file reading, float parsing, directory listing) and
  src/main.py (orchestration, printing, the acceptance threshold) are not part
  of this model.
- IEEE-754 rounding, including the rounding of `np.linspace`. The model uses
  exact reals and does not claim bit-for-bit agreement with numpy. Its
  linspace is lo + i·(hi − lo)/bins, with the last edge exactly hi.
- `math.hypot`, `math.atan2`, the square root of `np.std`, and `np.pi` are
  parameters (`MathOps`). Results that need their ranges are stated under
  `MathOps.Sound()`.
- Zero-width ranges: when std is 0, or when given min = max, every edge is the
  same value. The model then puts every point equal to that value into the
  last bin and drops the rest. numpy does the same: `np.histogram` keeps
  exactly the points equal to the last edge and counts them in the last bin,
  and `histogramdd` (behind `np.histogram2d`) finds their bin by a
  right-sided search and then shifts points lying on the last edge back into
  the last bin. Only the rounding caveat above separates the two.
- Edges in decreasing order (given min > max): numpy refuses them, and no call
  in `process_signature` passes them. The model still computes a result, but
  it proves the interval lemmas only for ordered edges.
- Histograms.Hist2D: requires positive bin counts, and |x| = |y| when both
  series are non-empty. Either series empty gives zeros, as the source's early
  return does; for two non-empty series of different lengths numpy raises an
  error. Every call in `process_signature` passes series of one length,
  because it truncates to the shorter length first.
- Histograms.Hist1D: requires bins > 0. Every call passes a positive constant.
- The `freq_type` strings become `FreqType`: any string other than
  `'relative'` counts as absolute in the source, and the two values of
  `FreqType` cover both behaviours.
- FeatureExtractor.ProcessSignature: derives all series (`DeriveTraces`)
  before the first histogram, then appends the histograms
  (`AppendHistograms`), each group through its own method. The source interleaves derivation and histograms. Both
  orders compute the same values, because every step is pure. The loops over
  a fixed list of series (histograms 6-21) stay loops.
- FeatureExtractor.Render: cuts both series of every 2-D entry to the shorter
  length. The source does not cut the two series of histogram 3. They always
  have equal length (`SignatureTraces`), so the cut changes nothing there.
- FeatureExtractor.ComputeDerivatives: the result dict becomes a
  `map<nat, seq<real>>`, and `.get(k, [])` becomes `Get`.
- TemplateGenerator.Generator.GenerateTemplate: requires beta ≥ 0 and
  `Sound()`. They give every step its floor, q[i] ≥ epsilon(i) > 0, which
  the division by q needs. With a negative beta a step can be exactly 0, and
  numpy's division then gives inf or nan, which exact reals do not have. The
  default beta (src/template_generator.py:6) and the only constructor call
  (src/main.py:12) are both 1.5.
- TemplateGenerator.Generator.GenerateTemplate: requires a non-empty
  enrollment whose vectors all have one length (`IsMatrix`). The source does
  not return in either other case, and the requires stands for that failure.
  An empty enrollment makes `np.mean`/`np.std` over axis 0 of a shape-(0,)
  array scalar nan, and `len(q)` then raises TypeError. A ragged enrollment
  makes `np.array` raise ValueError (numpy 1.24 and later).
- Matcher.VerifySignature: requires equal lengths and q[i] ≠ 0. numpy would
  broadcast or divide by zero; these cases are not modelled.
