# ncdprime in Dafny

ncdprime computes the normalized compression distance (NCD) of byte buffers:

    NCD(x, y) = (C(x‖y) − min(C(x), C(y))) / max(C(x), C(y))

where C is the compressed length under some codec. This project models its
distance engines and the small pieces of logic around them, and proves what
they promise.

- **Rust engine** (`NcdCore`, `NcdMatrix`):
  - the Frame64 join `u64_le(len) ‖ bytes` of each operand;
  - `ncd` and `ncd_from_sizes`, with the short cut to 0 when both singleton sizes are 0, the `None` / `Min`
    symmetry policies and optional clamping;
  - `ncd_matrix` and `ncd_matrix_with_progress`, with their content-keyed cache of
    singleton sizes and the per-cell progress callback.
- **Compressor factory** (`Factory`): identifiers, building, parsing, the default.
- **Two ETA estimators**:
  - the Rust `EtaEstimator` (`Eta`);
  - the Python `CompletionTimeEstimator` (`Estimator`), with the least squares
    theory they share in `Stats`.
- **Matrix text formatters**: Rust `format_matrix` (`CliMatrix`) and TypeScript
  `formatMatrix` (`TsMatrix`), with their differences proved.
- **TypeScript and Python NCD**, which use a single 0x00 sentinel and no
  symmetrisation:
  - `TsNcd`: src/ncd.ts;
  - `TsApi`: src/api.ts;
  - `TsCache`: the sha256-keyed caches of src/api.ts and src/matrix.ts;
  - `TsMatrix`: src/matrix.ts;
  - `PyNcd`: python/src/ncdprime/core/ncd.py.
- **Synthetic dataset planner** (`PyDataset`): cell sizes per pattern,
  zero-padded cell directory names (with `Decimal`), and exact-length
  deterministic payloads cut from a stream of chained digests.

## How compressors are modelled

Every codec is an abstract deterministic function:

- Rust: `seq<byte> -> nat`, the compressed length;
- TypeScript: `seq<byte> -> seq<byte>`, the compressed bytes;
- Python: `seq<byte> -> int`, the reported size.

Each is wrapped in a class. The class has a ghost `log` of every buffer it was
asked to compress, in call order, so call counts and call orders are stated
exactly. The content hashes that key the size caches (blake3, sha256) are
modelled by the content itself, that is, the hash is taken to be injective.
Floating point values are `real`.

Shared modules:

- `Wrappers`: Option and Result;
- `Bytes`: `byte`, `u32`, `i32`, `u64` and little-endian encoding;
- `SeqUtil`: `Flatten`, `Elements`, and `FirstOccurrences`, the cache misses of
  a pass;
- `Text`: join, split and newline counting;
- `Decimal`: integer to text and back.

## Model

| member | source | states |
|---|---|---|
| `Bytes.U64LeRoundTrip` | rust/ncdprime-core/src/lib.rs:17 | the eight bytes of `to_le_bytes` decode back to the value |
| `NcdCore.LenU64` | rust/ncdprime-core/src/lib.rs:16 | a length that fits in `u64` is kept; a longer one saturates to `u64::MAX` |
| `NcdCore.Frame64Bytes` | rust/ncdprime-core/src/lib.rs:14-20 | the frame is 8 + \|d\| bytes, the first eight decode to \|d\|, and `d` follows |
| `NcdCore.JoinBytes` | rust/ncdprime-core/src/lib.rs:22-33 | the Frame64 join of x and y is 16 + \|x\| + \|y\| bytes |
| `NcdCore.JoinRoundTrip` | rust/ncdprime-core/src/lib.rs:22-33 | the join is decodable: reading it back gives (x, y) |
| `NcdCore.JoinInjective` | rust/ncdprime-core/src/lib.rs:22-33 | different operand pairs never give the same joined buffer |
| `NcdCore.Compressor.CompressedLen` | rust/ncdprime-core/src/lib.rs:35-38 | returns the codec's size of the input, and the input is logged once |
| `NcdCore.GzipCodec` | rust/ncdprime-core/src/lib.rs:164-177 | id "gzip", size given by the gzip codec at that level |
| `NcdCore.ZstdCodec` | rust/ncdprime-core/src/lib.rs:66-76 | id "zstd", size given by the zstd codec at that level |
| `NcdCore.BrotliCodec` | rust/ncdprime-core/src/lib.rs:91-111 | id "brotli", size given by brotli at that quality and window |
| `NcdCore.Lz4Codec` | rust/ncdprime-core/src/lib.rs:125-137 | id "lz4"; the acceleration does not reach the size function |
| `NcdCore.XzCodec` | rust/ncdprime-core/src/lib.rs:149-162 | id "xz", size given by xz at that level |
| `NcdCore.CompressorIds` | rust/ncdprime-core/src/lib.rs:179-181 | five identifiers |
| `NcdCore.DefaultOptions` | rust/ncdprime-core/src/lib.rs:196-204 | the default options are Frame64, `Min` symmetry, no clamping |
| `NcdCore.Clamp01` | rust/ncdprime-core/src/lib.rs:241-243 | the result lies in [0, 1], and a value already in [0, 1] is unchanged |
| `NcdCore.DistanceFromSizes` | rust/ncdprime-core/src/lib.rs:220-245 | 0 when max(cx, cy) = 0; inside [0, 1] whenever clamping is on |
| `NcdCore.NcdFromSizes` | rust/ncdprime-core/src/lib.rs:212-246 | returns the distance from sizes; the compressor sees nothing when max = 0, x‖y under `None`, and x‖y then y‖x under `Min` |
| `NcdCore.Ncd` | rust/ncdprime-core/src/lib.rs:206-210 | returns the distance; compresses x, y, then the joined buffer(s), in that order |
| `NcdCore.JoinCallsCount` | rust/ncdprime-core/src/lib.rs:223-234 | no join is compressed iff both singleton sizes are 0; otherwise one join (`None`) or two (`Min`), x‖y first |
| `NcdCore.DistanceSymmetric` | rust/ncdprime-core/src/lib.rs:220-236 | under `Min`, ncd(x, y) = ncd(y, x) for every codec |
| `NcdCore.UnclampedIsRatio` | rust/ncdprime-core/src/lib.rs:236-245 | unclamped and with max > 0, distance × max = joint size − min exactly: nothing is clipped |
| `NcdCore.DistanceInUnitInterval` | rust/ncdprime-core/src/lib.rs:236 | with min ≤ joint size ≤ cx + cy the distance lies in [0, 1], even unclamped |
| `NcdCore.DistanceOfTrivialInputs` | rust/ncdprime-core/src/lib.rs:223-225 | two inputs that compress to nothing are at distance 0, and no join is compressed |
| `NcdMatrix.CacheSizes` | rust/ncdprime-core/src/lib.rs:261-273 | one singleton pass: sizes[i] is the codec size of xs[i]; the cache only grows and stays correct; only first occurrences of unseen contents are compressed |
| `NcdMatrix.SingletonSizes` | rust/ncdprime-core/src/lib.rs:259-287 | both passes from an empty cache: correct sizes for a and b; the compressor sees the first occurrences of a ++ b exactly |
| `NcdMatrix.SingletonPasses` | rust/ncdprime-core/src/lib.rs:259-287 | the misses of the pass over a and then b are those of one pass over a ++ b |
| `NcdMatrix.DistanceRow` | rust/ncdprime-core/src/lib.rs:292-294 | entry j of a row is the scalar distance of (x, b[j]) |
| `NcdMatrix.DistanceMatrix` | rust/ncdprime-core/src/lib.rs:289-295 | \|a\| rows of \|b\| entries, entry (i, j) the scalar distance of (a[i], b[j]) |
| `NcdMatrix.MatrixRow` | rust/ncdprime-core/src/lib.rs:292-294 | the inner loop yields the distance row, and logs that row's joins in column order |
| `NcdMatrix.NcdMatrix` | rust/ncdprime-core/src/lib.rs:251-298 | `ncd_matrix`: out[i][j] = ncd(c, a[i], b[j]); the log is the singleton misses, then the joins of every cell in row-major order |
| `NcdMatrix.SatUsize` | rust/ncdprime-core/src/lib.rs:354 | saturating `usize` arithmetic: exact below `usize::MAX`, never above it |
| `NcdMatrix.ProgressSink.OnCell` | rust/ncdprime-core/src/lib.rs:318-321 | the callback receives each event, appended in order |
| `NcdMatrix.ProgressRows` | rust/ncdprime-core/src/lib.rs:359-373 | one event per cell, \|a\| rows of \|b\| |
| `NcdMatrix.ProgressRow` | rust/ncdprime-core/src/lib.rs:360-372 | the inner loop of the progress variant: the distance row, its joins, `done` advanced by \|b\|, and one callback per cell |
| `NcdMatrix.ProgressGrid` | rust/ncdprime-core/src/lib.rs:354-373 | the outer loop: the distance matrix, the grid's joins, all events in row-major order |
| `NcdMatrix.NcdMatrixWithProgress` | rust/ncdprime-core/src/lib.rs:313-376 | the same matrix and the same compressions as `ncd_matrix`, plus exactly the row-major event sequence |
| `NcdMatrix.RowCallsCount` | rust/ncdprime-core/src/lib.rs:292-294 | with no trivial cell, a row compresses one or two joins per column |
| `NcdMatrix.GridCallsCount` | rust/ncdprime-core/src/lib.rs:291-295 | with no trivial cell, the grid compresses (1 or 2) · \|a\| · \|b\| joins |
| `NcdMatrix.MatrixCallCount` | rust/ncdprime-core/src/lib.rs:259-295 | with no trivial cell, total compressions = distinct contents of a ++ b + (1 or 2) · \|a\| · \|b\| |
| `NcdMatrix.SingletonsDistinct` | rust/ncdprime-core/src/lib.rs:259-287 | the singleton compressions are exactly the distinct contents of a ++ b, none twice |
| `NcdMatrix.CacheCountScenario` | rust/ncdprime-core/tests/matrix_cache_counts.rs:28-67 | the test scenario: 2 + 2·2·3 calls under `Min`, 2 + 1·2·3 under `None` |
| `NcdMatrix.ProgressEventAt` | rust/ncdprime-core/src/lib.rs:354-373 | exactly \|a\|·\|b\| events; event k = i·\|b\| + j reports cell (i, j), done = k + 1, total = \|a\|·\|b\| (saturating), input bytes \|a[i]\| + \|b[j]\| |
| `NcdMatrix.NoProgressWhenEmpty` | rust/ncdprime-core/src/lib.rs:359-373 | with no rows or no columns the callback is never invoked |
| `Factory.CompressorSpec.Id` | rust/ncdprime-core/src/factory.rs:20-28 | every description's id is one that `compressor_ids` lists |
| `Factory.CompressorSpec.Build` | rust/ncdprime-core/src/factory.rs:30-38 | the built compressor reports the description's id |
| `Factory.ParseCompressor` | rust/ncdprime-core/src/factory.rs:41-66 | succeeds iff the id is one of the five (exact match); the parsed id equals the input; otherwise `InvalidInput` with the message naming the id |
| `Factory.ParseRoundTrip` | rust/ncdprime-core/src/factory.rs:50-58 | parsing a description's id gives it back, with its own knobs, whatever the other knobs say |
| `Factory.DefaultIsGzip9` | rust/ncdprime-core/src/factory.rs:13-17 | the default description is gzip at level 9 |
| `Factory.Lz4AccelIsInert` | rust/ncdprime-core/src/lib.rs:130-133 | two lz4 descriptions that differ only in acceleration compress identically |
| `Eta.EtaEstimator.constructor` | rust/ncdprime-cli/src/eta.rs:20-24 | the default estimator has no samples and no fit |
| `Eta.EtaEstimator.Add` | rust/ncdprime-cli/src/eta.rs:27-35 | appends a sample with non-zero bytes and wall at the end; any other sample changes nothing; the fit is kept |
| `Eta.EtaEstimator.SampleCount` | rust/ncdprime-cli/src/eta.rs:37-39 | the number of stored samples |
| `Eta.EtaEstimator.ShouldRefit` | rust/ncdprime-cli/src/eta.rs:41-43 | true iff the sample count is 6, 15 or 16 |
| `Eta.FitCount` | rust/ncdprime-cli/src/eta.rs:46 | k = min(max(n, 2), len): at most len, below 2 iff len is, n itself when 2 ≤ n ≤ len |
| `Eta.FirstNFit` | rust/ncdprime-cli/src/eta.rs:45-75 | no fit iff fewer than 2 samples; otherwise the line passes through the means of the first k samples |
| `Eta.EtaEstimator.RefitFirstN` | rust/ncdprime-cli/src/eta.rs:45-75 | samples unchanged; the fit becomes the least squares line of the first k samples (none when k < 2) |
| `Eta.EtaEstimator.Predict` | rust/ncdprime-cli/src/eta.rs:77-84 | none iff no fit or 0 bytes; otherwise max(0, a + b·n) |
| `Eta.RemainingTotal` | rust/ncdprime-cli/src/eta.rs:87-96 | not negative; 0 when every entry is 0 |
| `Eta.RemainingEstimate` | rust/ncdprime-cli/src/eta.rs:86-102 | none iff no fit or every entry is 0 |
| `Eta.EtaEstimator.EstimateRemaining` | rust/ncdprime-cli/src/eta.rs:86-102 | the loop returns the sum of the clamped predictions over the non-zero entries, or none as above |
| `Eta.AnyNonzeroIff` | rust/ncdprime-cli/src/eta.rs:90-96 | the loop's `any` flag is set iff some entry is non-zero |
| `Eta.ClampMonotone` | rust/ncdprime-cli/src/eta.rs:82 | with a slope ≥ 0, the clamped line is non-decreasing |
| `Eta.PredictMonotone` | rust/ncdprime-cli/src/eta.rs:77-84 | with a slope ≥ 0, a larger cell never gets a smaller prediction |
| `Eta.RemainingTotalMonotone` | rust/ncdprime-cli/src/eta.rs:90-96 | with a slope ≥ 0, growing remaining cells never shrinks the total |
| `Eta.RefitRecoversLine` | rust/ncdprime-cli/src/eta.rs:59-74 | samples exactly on a line, with two different sizes, give back that line |
| `Eta.RefitFlat` | rust/ncdprime-cli/src/eta.rs:63-73 | samples all of one size give slope 0 and the mean time as intercept |
| `Eta.RefitReadsPrefix` | rust/ncdprime-cli/src/eta.rs:51-57 | samples after the first max(n, 2) do not change the fit |
| `Stats.Clamp` | rust/ncdprime-cli/src/eta.rs:82 | max(0, t): not negative, at least t, and either t or 0 |
| `Stats.LineFrom` | rust/ncdprime-cli/src/eta.rs:63-73 | the line passes through (x̄, ȳ); when sxx ≤ 0 it is the flat line at ȳ |
| `Stats.Ols` | rust/ncdprime-cli/src/eta.rs:59-74 | the least squares line passes through the means |
| `Stats.OlsRecoversLine` | python/src/ncdprime/estimator.py:43-58 | least squares recovers a line exactly from points on it when the abscissae vary |
| `Stats.OlsDegenerate` | python/src/ncdprime/estimator.py:49-51 | with all abscissae equal, the fit is (ȳ, 0) |
| `Stats.DegenerateIffAllEqual` | python/src/ncdprime/estimator.py:48-49 | sxx ≤ 0 iff all abscissae are equal |
| `Stats.MeanOnLine` | python/src/ncdprime/estimator.py:30-31 | the mean of points on a line lies on the line |
| `Stats.SxxNonnegative` | python/src/ncdprime/estimator.py:48 | the squared sum is never negative |
| `Stats.SxxPositive` | python/src/ncdprime/estimator.py:48 | one entry away from the mean makes the squared sum positive |
| `Stats.SxyOnLine` | python/src/ncdprime/estimator.py:53 | for points on a line, the cross sum is the slope times the squared sum |
| `Estimator.R2` | python/src/ncdprime/estimator.py:34-40 | R² lies in [0, 1], and is 0 when ss_tot ≤ 0 |
| `Estimator.FitLinear` | python/src/ncdprime/estimator.py:43-58 | a linear result with R² in [0, 1], through the means; (ȳ, 0) when sxx ≤ 0 |
| `Estimator.FitPower` | python/src/ncdprime/estimator.py:61-76 | none iff some x or y is ≤ 0; otherwise a power result with R² in [0, 1] |
| `Estimator.Choose` | python/src/ncdprime/estimator.py:128-131 | the power fit iff it exists and R² ≥ linear R² + 0.02; else the linear fit |
| `Estimator.UsableSamples` | python/src/ncdprime/estimator.py:116 | exactly the stored samples with bytes > 0 and wall > 0 are kept |
| `Estimator.UsableSamplesSnoc` | python/src/ncdprime/estimator.py:116 | filtering is order-preserving: one more sample extends the filtered list by it when usable |
| `Estimator.FitWindow` | python/src/ncdprime/estimator.py:121 | the first min(max(2, n), #usable) usable samples |
| `Estimator.FitFirstN` | python/src/ncdprime/estimator.py:115-134 | none iff fewer than 2 usable samples |
| `Estimator.CompletionTimeEstimator.constructor` | python/src/ncdprime/estimator.py:98-100 | no samples, no fit |
| `Estimator.CompletionTimeEstimator.AddSample` | python/src/ncdprime/estimator.py:110-113 | appends a sample with bytes > 0 and a finite wall ≥ 0 (zero included); any other sample changes nothing |
| `Estimator.CompletionTimeEstimator.FitFromFirstN` | python/src/ncdprime/estimator.py:115-134 | samples unchanged; stores and returns `FitFirstN` |
| `Estimator.CompletionTimeEstimator.PredictTimeS` | python/src/ncdprime/estimator.py:136-152 | none iff no fit or bytes ≤ 0; never negative; max(0, a + b·n) for a linear fit |
| `Estimator.CompletionTimeEstimator.PredictedTotal` | python/src/ncdprime/estimator.py:157-164 | the running total is never negative |
| `Estimator.CompletionTimeEstimator.EstimateRemainingS` | python/src/ncdprime/estimator.py:154-165 | none iff no fit or no entry yields a prediction; otherwise the sum of the predictions |
| `Estimator.CompletionTimeEstimator.ShouldRefit` | python/src/ncdprime/estimator.py:167-170 | true iff the stored count (zero-time samples included) is 6, 15 or 16 |
| `Estimator.SquaredResidualsNonnegative` | python/src/ncdprime/estimator.py:37 | ss_res is never negative |
| `Estimator.R2Perfect` | python/src/ncdprime/estimator.py:34-40 | a model that reproduces non-constant data exactly has R² = 1 |
| `Estimator.PowerFitAlwaysDefined` | python/src/ncdprime/estimator.py:116-126 | inside `fit_from_first_n` the power fit always exists, because the fitted samples are positive |
| `Estimator.FitLinearExact` | python/src/ncdprime/estimator.py:43-58 | on points exactly on a sloped line with varying x, `_fit_linear` returns that line with R² = 1 |
| `Estimator.FitFirstNExact` | python/src/ncdprime/estimator.py:115-134 | then `fit_from_first_n` keeps the linear fit: no power fit beats R² = 1 by the margin |
| `CliMatrix.Separator` | rust/ncdprime-cli/src/matrix.rs:10 | ',' iff the format is "csv", otherwise a tab |
| `CliMatrix.MatrixLines` | rust/ncdprime-cli/src/matrix.rs:12-39 | one line per row, plus the header with labels |
| `CliMatrix.FormatMatrix` | rust/ncdprime-cli/src/matrix.rs:3-40 | the output is every line of the model each followed by '\n': header = sep + cols joined by sep; labelled rows = label then sep + value per value; unlabelled rows = values joined by sep |
| `CliMatrix.PushRow` | rust/ncdprime-cli/src/matrix.rs:19-36 | one row loop appends exactly the row line and its newline |
| `CliMatrix.RowsCols` | rust/ncdprime-cli/src/matrix.rs:42-46 | one row label per item of `a` and one column label per item of `b`: label i is the `label` field of item i |
| `CliMatrix.RowsColsLabelLines` | rust/ncdprime-cli/src/main.rs:155-162 | with labels, the formatted header of two input sets is the separator and the labels of `b`, and line i + 1 starts with the label of item i of `a` |
| `CliMatrix.MatrixLinesFree` | rust/ncdprime-cli/src/matrix.rs:12-39 | with newline-free labels and values, no line contains a newline |
| `CliMatrix.FormatLines` | rust/ncdprime-cli/src/matrix.rs:12-39 | the text splits at its newlines back into its lines and a final empty piece |
| `CliMatrix.FormatNewlines` | rust/ncdprime-cli/src/matrix.rs:12-39 | exactly \|rows\| + (1 with labels) newlines |
| `CliMatrix.FormatEmpty` | rust/ncdprime-cli/src/matrix.rs:27-39 | with no labels and no rows the output is empty |
| `CliMatrix.LabelledRowIsJoin` | rust/ncdprime-cli/src/matrix.rs:19-26 | a labelled row is the label and the values joined by the separator |
| `TsNcd.Compressor.Compress` | src/ncd.ts:5-11 | returns the compression function's bytes, and the input is logged once |
| `TsNcd.GzipCompressor` | src/ncd.ts:13-21 | a fresh compressor with id "gzip", the level in its name, gzip at that level |
| `TsNcd.SentinelJoin` | src/ncd.ts:23-32 | length \|a\| + 1 + \|b\|: a, then 0x00 at index \|a\|, then b |
| `TsNcd.ConcatWithSentinel` | src/ncd.ts:23-32 | a fresh array holding exactly the sentinel join |
| `TsNcd.SentinelRoundTrip` | src/ncd.ts:23-32 | when a has no 0x00, the join reads back into (a, b) |
| `TsNcd.SentinelAmbiguous` | src/ncd.ts:24-26 | the join is ambiguous once a contains 0x00: ([], [0]) and ([0], []) give the same bytes |
| `TsNcd.CompressedSize` | src/ncd.ts:34 | the byte length of the compressed buffer; one compression |
| `TsNcd.Ncd` | src/ncd.ts:40-48 | returns the sentinel distance; compresses x, y, then x‖0‖y, and nothing else |
| `TsNcd.TsDistanceTrivial` | src/ncd.ts:44-46 | 0 when both singletons compress to nothing |
| `TsNcd.TsDistanceRange` | src/ncd.ts:47 | no clipping: negative iff C(x‖0‖y) < min, above 1 iff it exceeds C(x) + C(y) |
| `TsNcd.TsDistanceSwap` | src/ncd.ts:40-48 | no symmetrisation: ncd(x, y) = ncd(y, x) iff the two sentinel joins compress to the same size |
| `TsCache.SizeOf` | src/matrix.ts:23-30 | `getSize` / `sizeOf`: the compressed length; compresses only on a miss; the cache gains the key and stays correct |
| `TsCache.Sizes` | src/api.ts:68-69 | `xs.map(sizeOf)`: correct sizes in order; only first occurrences of unseen contents are compressed |
| `TsCache.SingletonSizes` | src/matrix.ts:32-33 | both passes from an empty cache: the compressor sees the first occurrences of a ++ b exactly |
| `TsApi.NcdAutoResult` | src/api.ts:16-29 | the native result with (level, mtime) when native loads; an error iff no native and mtime ≠ 0, with the fixed message; else the sentinel distance with gzip at the level |
| `TsApi.NcdAuto` | src/api.ts:16-29 | `ncdAuto` returns or throws exactly that |
| `TsApi.FallbackMatrix` | src/api.ts:71-78 | \|a\| rows of \|b\| entries, entry (i, j) = ncdFromSizes(c, a[i], b[j], C(a[i]), C(b[j])) |
| `TsApi.Fallback` | src/api.ts:54-80 | the JS fallback yields that matrix, and the compressor sees the first occurrences of a ++ b |
| `TsApi.MatrixAutoResult` | src/api.ts:39-81 | native result when it loads; an error iff no native and mtime ≠ 0; else the fallback matrix with gzip at the level |
| `TsApi.MatrixAuto` | src/api.ts:39-81 | `matrixAuto` resolves or rejects with exactly that |
| `TsApi.DefaultsNeverThrow` | src/api.ts:17-18 | the defaults are level 6, mtime 0, and neither entry point then throws |
| `TsApi.MtimeNeedsNative` | src/api.ts:23-25 | without native and with mtime ≠ 0, both entry points fail with the same message |
| `TsMatrix.Labels` | src/matrix.ts:18-19 | the item labels, in order |
| `TsMatrix.ScalarMatrix` | src/matrix.ts:35-51 | \|a\| rows of \|b\| entries, entry (i, j) the sentinel distance of the two items |
| `TsMatrix.ComputeRow` | src/matrix.ts:37-49 | the inner loop: one scalar `ncd` per column, with its three compressions, in order |
| `TsMatrix.ComputeGrid` | src/matrix.ts:35-51 | the outer loop: the scalar matrix, rows in order |
| `TsMatrix.ComputeMatrix` | src/matrix.ts:17-54 | rows and cols are the labels; values are the scalar matrix (the cache does not affect them); the log is the first occurrences of a ++ b, then three buffers per cell in row-major order |
| `TsMatrix.RowCallsCount` | src/matrix.ts:38-44 | three compressions per column |
| `TsMatrix.GridCallsCount` | src/matrix.ts:35-51 | 3 · \|a\| · \|b\| compressions for the grid |
| `TsMatrix.ComputeMatrixCalls` | src/matrix.ts:17-54 | total compressions = distinct contents of a ++ b + 3 · \|a\| · \|b\| |
| `TsMatrix.FallbackIsScalar` | test/ncd_from_sizes.test.ts:8-20 | an `ncdFromSizes` that matches the scalar `ncd` on correct sizes, as its test demands, makes the fallback matrix equal to the scalar sentinel matrix |
| `TsMatrix.MatrixAutoIsComputeMatrix` | src/api.ts:47-80 | without native and with mtime 0, `matrixAuto` resolves to exactly the values `computeMatrix` computes with gzip at the same level |
| `TsMatrix.FormatLines` | src/matrix.ts:58-69 | one line per row, plus the header with labels |
| `TsMatrix.FormatMatrix` | src/matrix.ts:56-72 | the output is the header `["", ...cols].join(sep)` (with labels), one `[label, ...values]` or `values` line per row, joined by '\n', plus a final '\n' |
| `TsMatrix.JoinTerminated` | src/matrix.ts:71 | for at least one line, joining by '\n' and adding '\n' terminates each line |
| `TsMatrix.FormatEmpty` | src/matrix.ts:65-71 | with no labels and no rows the text is a single '\n' |
| `TsMatrix.FormatReadsBack` | src/matrix.ts:56-72 | with at least one line, the text splits back into its lines and a final empty piece |
| `TsMatrix.SameLines` | src/matrix.ts:60-69 | the same row lines as the Rust formatter; the same header unless there are no columns |
| `TsMatrix.AgreesWithRust` | src/matrix.ts:56-72 | outside those two cases, the two formatters write the same text |
| `TsMatrix.DiffersFromRust` | src/matrix.ts:61 | the differences: "\n" against "" for no labels and no rows; "" against one separator for the header of no columns |
| `PyNcd.Compressor.Compress` | python/src/ncdprime/compressors/base.py:13-18 | returns the plugin's size and time, and the input is logged once |
| `PyNcd.PyDistance` | python/src/ncdprime/core/ncd.py:30-31 | 0.0 when max(c_x, c_y) ≤ 0 |
| `PyNcd.ComputeNcd` | python/src/ncdprime/core/ncd.py:16-32 | fields are the three sizes; ncd from them; compresses x, y, x + b"\0" + y and nothing else |
| `PyNcd.PyDistanceRange` | python/src/ncdprime/core/ncd.py:31 | unclamped: negative iff c_xy < min, above 1 iff c_xy > c_x + c_y |
| `PyNcd.AgreesWithTs` | python/src/ncdprime/core/ncd.py:27 | with byte-length sizes, the Python distance equals the TypeScript one |
| `PyDataset.DefaultSpec` | python/src/ncdprime/core/matrix.py:11-18 | seed 0 and pattern "gradient" by default |
| `PyDataset.Lerp` | python/src/ncdprime/core/matrix.py:21-22 | a at t = 0, b at t = 1, a when a = b |
| `PyDataset.TFactor` | python/src/ncdprime/core/matrix.py:32-41 | t in [0, 1] for every pattern; 0 for "constant" |
| `PyDataset.RoundHalfEven` | python/src/ncdprime/core/matrix.py:43 | within 1/2 of x; ties go to the even integer |
| `PyDataset.CellSize` | python/src/ncdprime/core/matrix.py:43-44 | never negative |
| `PyDataset.CellGrid` | python/src/ncdprime/core/matrix.py:27-45 | no rows for a non-positive dimension; otherwise rows × cols cells, cell (r, c) with its size |
| `PyDataset.IterCells` | python/src/ncdprime/core/matrix.py:25-45 | the nested loops yield exactly the planned cells, in order |
| `PyDataset.PlanEmpty` | python/src/ncdprime/core/matrix.py:27-28 | nothing is yielded when rows ≤ 0 or cols ≤ 0 |
| `PyDataset.PlanRowMajor` | python/src/ncdprime/core/matrix.py:30-45 | exactly rows·cols cells; cell (r, c) at position r·cols + c |
| `PyDataset.PlanEntry` | python/src/ncdprime/core/matrix.py:30-45 | every position k holds cell (k / cols, k % cols) |
| `PyDataset.RoundWhole` | python/src/ncdprime/core/matrix.py:43 | rounding a whole number gives it back |
| `PyDataset.RoundBetween` | python/src/ncdprime/core/matrix.py:43 | rounding a value between two integers stays between them |
| `PyDataset.LerpBetween` | python/src/ncdprime/core/matrix.py:21-22 | t in [0, 1] keeps the interpolation between its end points |
| `PyDataset.EqualBoundsSize` | python/src/ncdprime/core/matrix.py:43-44 | min_bytes = max_bytes gives every cell max(0, min_bytes) bytes |
| `PyDataset.SizeWithinBounds` | python/src/ncdprime/core/matrix.py:32-44 | 0 ≤ min ≤ max keeps every cell size in [min, max] |
| `Decimal.Digits` | python/src/ncdprime/core/matrix.py:49 | a non-empty string of digits without a leading zero |
| `Decimal.ParseDigits` | python/src/ncdprime/core/matrix.py:49 | the digits of n read back as n |
| `Decimal.ZeroPad` | python/src/ncdprime/core/matrix.py:49 | `{i:03d}` is max(width, \|str(i)\|) characters |
| `Decimal.ZeroPadRoundTrip` | python/src/ncdprime/core/matrix.py:49 | a padded non-negative value is all digits and reads back as the value |
| `Decimal.ZeroPadThree` | python/src/ncdprime/core/matrix.py:49 | values below 1000 pad to exactly three characters |
| `Decimal.IntString` | python/src/ncdprime/core/matrix.py:60 | `str(i)`: the digits, with '-' before them for a negative value |
| `PyDataset.DirnameRoundTrip` | python/src/ncdprime/core/matrix.py:48-49 | the name of cell (r, c) reads back as (r, c) |
| `PyDataset.DirnameInjective` | python/src/ncdprime/core/matrix.py:48-49 | distinct cells get distinct directory names |
| `PyDataset.DirnameLength` | python/src/ncdprime/core/matrix.py:48-49 | for indices below 1000 the name is nine characters, as "r000_c000" |
| `PyDataset.DigestStream` | python/src/ncdprime/core/matrix.py:58-63 | k chained digests make 32·k bytes |
| `PyDataset.DetBytesOf` | python/src/ncdprime/core/matrix.py:52-64 | exactly max(0, n) bytes |
| `PyDataset.DetBytes` | python/src/ncdprime/core/matrix.py:52-64 | the loop yields empty for n ≤ 0, otherwise the n-byte prefix of the digest stream for counters 0, 1, 2, … |
| `PyDataset.BlocksLeast` | python/src/ncdprime/core/matrix.py:58 | the loop stops at the least block count that reaches n bytes |
| `PyDataset.StreamPrefix` | python/src/ncdprime/core/matrix.py:58-63 | a longer stream starts with a shorter one |
| `PyDataset.DetBytesPrefix` | python/src/ncdprime/core/matrix.py:52-64 | the payload of m bytes is the first m bytes of the payload of n ≥ m bytes |

## Left out

- Codec bodies (flate2, zstd, brotli, lz4_flex, xz2, `gzipSync`, the Python plugins) are foreign libraries. Each is an abstract deterministic function.
- Codec I/O errors (the `?` on `compressed_len`) are not modelled: every compressor is total.
- The blake3 and sha256 cache keys are modelled as the content itself, so a hash collision is not modelled.
- The blake2b digest of `_det_bytes`, including the UTF-8 encoding of its message, is an abstract function to 32 bytes.
- NaN and infinities: all values are `real`.
  - The NaN test of `ncd_from_sizes` (rust/ncdprime-core/src/lib.rs:237-239) cannot fire over the reals, because max > 0 there.
  - `Duration::from_secs_f64`, `f64::to_string` and `Number.toString` are abstract or the identity.
  - In the Python estimator, only a sample's wall time keeps NaN and ±inf, because `add_sample` tests for them.
- Timing (`Instant::now`, `elapsed`, `perf_counter`) is a parameter: the wall time of a cell, and the timer of a Python plugin.
- `math.log`, `math.exp` and `**` in `_fit_power` are abstract functions. Only its guard and its R² bounds are stated.
- `tryLoadNative()` is a parameter, and so are the native `ncd` and `matrix` calls. The loaders and bindings are not part of this model.
- `ncdFromSizes` and `joinFrame64` (src/api.ts:4-5) are imported from ./ncd.js, which is src/ncd.ts (module `TsNcd`). The text of that file defines neither of them, although src/index.ts:6 and test/ncd_from_sizes.test.ts:3 expect `ncdFromSizes` there.
  - `ncdFromSizes` is therefore an abstract function of the compression function, the two buffers and their sizes. `TsMatrix.FallbackIsScalar` assumes only what its test states.
  - `joinFrame64` is only re-exported (src/api.ts:84).
- The comment at src/matrix.ts:43 calls the scalar `ncd` "symmetric + frame64 join". `TsNcd` and `TsMatrix` follow the text of src/ncd.ts instead: a 0x00 sentinel join with no symmetrisation.
- `TsApi.Fallback`: its log holds only the singleton compressions, because what `ncdFromSizes` compresses is unknown.
- The awaits of `Promise.all` in `computeMatrix` (src/matrix.ts:32-33) are modelled as lookups that run one after another, in call order.
- `CliMatrix.FormatMatrix`, `TsMatrix.FormatMatrix`: require at least as many value rows as row labels. The sources panic, or throw on `undefined`, otherwise.
- Default arguments are modelled as parameters that are always passed: `n = 6` of `fit_from_first_n` (python/src/ncdprime/estimator.py:115), `format = "tsv", labels = true` of `formatMatrix` (src/matrix.ts:56) and `level = 6` of `gzipCompressor` (src/ncd.ts:13).
- `Stats.Mean`: requires a non-empty list, as both sources divide by its length.
- Also outside this model:
  - `generate_matrix` and `read_all` (file I/O);
  - the command-line front ends, the HTTP server, input loading, config parsing and plugin discovery;
  - `dist/ncd.js`, the compiled copy of src/ncd.ts.
- `usize` is taken as 64 bits: `saturating_mul` and `saturating_add` saturate at 2^64 − 1.
