/**
 * The all-pairs part of the Rust engine (rust/ncdprime-core/src/lib.rs):
 * `ncd_matrix` and `ncd_matrix_with_progress`, with their content-keyed cache of
 * singleton sizes. The blake3 key of a buffer is modelled by the buffer itself,
 * i.e. the hash is taken to be injective.
 */
module NcdMatrix {
  import opened Bytes
  import opened SeqUtil
  import opened NcdCore

  /** Every entry of the size cache is the codec's size of its key. */
  ghost predicate CacheValid(cache: map<seq<byte>, nat>, size: seq<byte> -> nat) {
    forall k :: k in cache ==> cache[k] == size(k)
  }

  /**
   * One singleton pass (`a_sizes` or `b_sizes`): the size of every buffer in
   * order, compressing a buffer only when its content is not yet cached.
   */
  method CacheSizes(c: Compressor, xs: seq<seq<byte>>, cache0: map<seq<byte>, nat>)
    returns (sizes: seq<nat>, cache: map<seq<byte>, nat>)
    requires CacheValid(cache0, c.codec.size)
    modifies c
    ensures CacheValid(cache, c.codec.size)
    ensures cache.Keys == cache0.Keys + Elements(xs)
    ensures forall k :: k in cache0 ==> k in cache && cache[k] == cache0[k]
    ensures |sizes| == |xs|
    ensures forall i {:trigger sizes[i]} :: 0 <= i < |xs| ==> sizes[i] == c.codec.size(xs[i])
    ensures c.log == old(c.log) + FirstOccurrences(xs, cache0.Keys)
  {
    cache := cache0;
    sizes := [];
    var i := 0;
    while i < |xs|
      invariant 0 <= i <= |xs|
      invariant CacheValid(cache, c.codec.size)
      invariant cache.Keys == cache0.Keys + Elements(xs[..i])
      invariant |sizes| == i
      invariant forall k {:trigger sizes[k]} :: 0 <= k < i ==> sizes[k] == c.codec.size(xs[k])
      invariant c.log == old(c.log) + FirstOccurrences(xs[..i], cache0.Keys)
    {
      var x := xs[i];
      ghost var keys, log := cache.Keys, c.log;
      var cx: nat;
      if x in cache {
        cx := cache[x];
      } else {
        cx := c.CompressedLen(x);
        cache := cache[x := cx];
      }
      CacheStep(keys, cache0.Keys, xs, i, old(c.log), log, c.log);
      sizes := sizes + [cx];
      i := i + 1;
    }
    assert xs[..i] == xs;
  }

  /** What one more lookup of `xs[i]` does to the cache keys and to the log of misses. */
  lemma CacheStep<T>(keys: set<T>, seen: set<T>, xs: seq<T>, i: nat,
                     log0: seq<T>, log: seq<T>, log': seq<T>)
    requires i < |xs| && keys == seen + Elements(xs[..i])
    requires log == log0 + FirstOccurrences(xs[..i], seen)
    requires log' == log + (if xs[i] in keys then [] else [xs[i]])
    ensures xs[i] in keys ==> keys == seen + Elements(xs[..i + 1])
    ensures xs[i] !in keys ==> keys + {xs[i]} == seen + Elements(xs[..i + 1])
    ensures log' == log0 + FirstOccurrences(xs[..i + 1], seen)
  {
    assert xs[..i + 1] == xs[..i] + [xs[i]];
    FirstOccurrencesSnoc(xs[..i], xs[i], seen);
    ElementsSnoc(xs[..i], xs[i]);
  }

  // ------------------------------------------------------ specification

  /** One row of scalar distances: entry j is what `ncd(c, x, b[j])` returns. */
  function DistanceRow(size: seq<byte> -> nat, x: seq<byte>, b: seq<seq<byte>>, opts: NcdOptions)
    : (r: seq<real>)
    ensures |r| == |b|
    ensures forall j {:trigger r[j]} :: 0 <= j < |b| ==> r[j] == Distance(size, x, b[j], opts)
  {
    seq(|b|, j requires 0 <= j < |b| => Distance(size, x, b[j], opts))
  }

  /** The matrix of scalar distances: entry (i, j) is what `ncd(c, a[i], b[j])` returns. */
  function DistanceMatrix(size: seq<byte> -> nat, a: seq<seq<byte>>, b: seq<seq<byte>>,
                          opts: NcdOptions): (m: seq<seq<real>>)
    ensures |m| == |a| && Rectangular(m, |b|)
    ensures forall i, j {:trigger m[i][j]} :: 0 <= i < |a| && 0 <= j < |b| ==> m[i][j] == Distance(size, a[i], b[j], opts)
  {
    seq(|a|, i requires 0 <= i < |a| => DistanceRow(size, a[i], b, opts))
  }

  /** Joined buffers compressed for row `x` against the columns `b`, left to right. */
  function RowCalls(size: seq<byte> -> nat, x: seq<byte>, b: seq<seq<byte>>, opts: NcdOptions)
    : seq<seq<byte>>
  {
    if b == [] then []
    else
      var y := b[|b| - 1];
      RowCalls(size, x, b[..|b| - 1], opts) + JoinCalls(x, y, size(x), size(y), opts)
  }

  /** Joined buffers compressed for the whole grid, in row-major order. */
  function GridCalls(size: seq<byte> -> nat, a: seq<seq<byte>>, b: seq<seq<byte>>, opts: NcdOptions)
    : seq<seq<byte>>
  {
    if a == [] then []
    else GridCalls(size, a[..|a| - 1], b, opts) + RowCalls(size, a[|a| - 1], b, opts)
  }

  /** Every buffer a matrix computation compresses: the cache misses, then the joins. */
  function MatrixCalls(size: seq<byte> -> nat, a: seq<seq<byte>>, b: seq<seq<byte>>, opts: NcdOptions)
    : seq<seq<byte>>
  {
    FirstOccurrences(a + b, {}) + GridCalls(size, a, b, opts)
  }

  /** No cell of row `x` has two operands that both compress to size 0. */
  ghost predicate NoTrivialRow(size: seq<byte> -> nat, x: seq<byte>, b: seq<seq<byte>>) {
    forall j :: 0 <= j < |b| ==> MaxNat(size(x), size(b[j])) > 0
  }

  /** No cell of the grid has two operands that both compress to size 0. */
  ghost predicate NoTrivialCell(size: seq<byte> -> nat, a: seq<seq<byte>>, b: seq<seq<byte>>) {
    forall i :: 0 <= i < |a| ==> NoTrivialRow(size, a[i], b)
  }

  // ------------------------------------------------------------ methods

  /** The pass over `a` from an empty cache, then over `b`, misses what one pass over a ++ b misses. */
  lemma SingletonPasses(a: seq<seq<byte>>, b: seq<seq<byte>>)
    ensures {} + Elements(a) == Elements(a)
    ensures FirstOccurrences(a, {}) + FirstOccurrences(b, Elements(a)) == FirstOccurrences(a + b, {})
  {
    FirstOccurrencesAppend(a, b, {});
    assert {} + Elements(a) == Elements(a);
  }

  /** A sequence of rows, each the distance row of its operand, is the distance matrix. */
  lemma RowsMakeMatrix(m: seq<seq<real>>, size: seq<byte> -> nat, a: seq<seq<byte>>, b: seq<seq<byte>>,
                       opts: NcdOptions)
    requires |m| == |a|
    requires forall p {:trigger m[p]} :: 0 <= p < |a| ==> m[p] == DistanceRow(size, a[p], b, opts)
    ensures m == DistanceMatrix(size, a, b, opts)
  {
  }

  /** One more cell of row `x` appends its joined buffers to the log. */
  lemma RowStep(size: seq<byte> -> nat, x: seq<byte>, b: seq<seq<byte>>, opts: NcdOptions, j: nat,
                log0: seq<seq<byte>>, log: seq<seq<byte>>, log': seq<seq<byte>>)
    requires j < |b|
    requires log == log0 + RowCalls(size, x, b[..j], opts)
    requires log' == log + JoinCalls(x, b[j], size(x), size(b[j]), opts)
    ensures log' == log0 + RowCalls(size, x, b[..j + 1], opts)
  {
    assert b[..j + 1][..j] == b[..j];
  }

  /** One more row appends its joined buffers to the log. */
  lemma GridStep(size: seq<byte> -> nat, a: seq<seq<byte>>, b: seq<seq<byte>>, opts: NcdOptions, i: nat,
                 log0: seq<seq<byte>>, log: seq<seq<byte>>, log': seq<seq<byte>>)
    requires i < |a|
    requires log == log0 + GridCalls(size, a[..i], b, opts)
    requires log' == log + RowCalls(size, a[i], b, opts)
    ensures log' == log0 + GridCalls(size, a[..i + 1], b, opts)
  {
    assert a[..i + 1][..i] == a[..i];
  }

  /** The log of a whole matrix computation: the singleton misses, then the grid. */
  lemma MatrixLog(size: seq<byte> -> nat, a: seq<seq<byte>>, b: seq<seq<byte>>, opts: NcdOptions,
                  log0: seq<seq<byte>>, singles: seq<seq<byte>>, log: seq<seq<byte>>)
    requires singles == log0 + FirstOccurrences(a + b, {})
    requires log == singles + GridCalls(size, a[..|a|], b, opts)
    ensures log == log0 + MatrixCalls(size, a, b, opts)
  {
    assert a[..|a|] == a;
    AppendAssoc(log0, FirstOccurrences(a + b, {}), GridCalls(size, a, b, opts));
  }

  /** Both singleton passes, sharing one cache that starts empty. */
  method SingletonSizes(c: Compressor, a: seq<seq<byte>>, b: seq<seq<byte>>)
    returns (aSizes: seq<nat>, bSizes: seq<nat>)
    modifies c
    ensures |aSizes| == |a| && forall i {:trigger aSizes[i]} :: 0 <= i < |a| ==> aSizes[i] == c.codec.size(a[i])
    ensures |bSizes| == |b| && forall j {:trigger bSizes[j]} :: 0 <= j < |b| ==> bSizes[j] == c.codec.size(b[j])
    ensures c.log == old(c.log) + FirstOccurrences(a + b, {})
  {
    var empty: map<seq<byte>, nat> := map[];
    assert empty.Keys == {};
    var cache;
    aSizes, cache := CacheSizes(c, a, empty);
    bSizes, cache := CacheSizes(c, b, cache);
    SingletonPasses(a, b);
  }

  /** The inner loop of `ncd_matrix`: row `x` against every column, from cached sizes. */
  method MatrixRow(c: Compressor, x: seq<byte>, cx: nat, b: seq<seq<byte>>, bSizes: seq<nat>,
                   opts: NcdOptions)
    returns (row: seq<real>)
    requires cx == c.codec.size(x)
    requires |bSizes| == |b| && forall j {:trigger bSizes[j]} :: 0 <= j < |b| ==> bSizes[j] == c.codec.size(b[j])
    modifies c
    ensures row == DistanceRow(c.codec.size, x, b, opts)
    ensures c.log == old(c.log) + RowCalls(c.codec.size, x, b, opts)
  {
    row := seq(|b|, _ => 0.0);
    for j := 0 to |b|
      invariant |row| == |b|
      invariant forall q {:trigger row[q]} :: 0 <= q < j ==> row[q] == Distance(c.codec.size, x, b[q], opts)
      invariant c.log == old(c.log) + RowCalls(c.codec.size, x, b[..j], opts)
    {
      ghost var log := c.log;
      var d := NcdFromSizes(c, x, b[j], cx, bSizes[j], opts);
      row := row[j := d];
      RowStep(c.codec.size, x, b, opts, j, old(c.log), log, c.log);
    }
    assert b[..|b|] == b;
  }

  /** `ncd_matrix`. */
  method NcdMatrix(c: Compressor, a: seq<seq<byte>>, b: seq<seq<byte>>, opts: NcdOptions)
    returns (out: seq<seq<real>>)
    modifies c
    ensures out == DistanceMatrix(c.codec.size, a, b, opts)
    ensures c.log == old(c.log) + MatrixCalls(c.codec.size, a, b, opts)
  {
    var aSizes, bSizes := SingletonSizes(c, a, b);
    ghost var singles := c.log;

    out := seq(|a|, _ => seq(|b|, _ => 0.0));
    for i := 0 to |a|
      invariant |out| == |a|
      invariant forall p {:trigger out[p]} :: 0 <= p < i ==> out[p] == DistanceRow(c.codec.size, a[p], b, opts)
      invariant c.log == singles + GridCalls(c.codec.size, a[..i], b, opts)
    {
      ghost var log := c.log;
      var row := MatrixRow(c, a[i], aSizes[i], b, bSizes, opts);
      out := out[i := row];
      GridStep(c.codec.size, a, b, opts, i, singles, log, c.log);
    }
    MatrixLog(c.codec.size, a, b, opts, old(c.log), singles, c.log);
    RowsMakeMatrix(out, c.codec.size, a, b, opts);
  }

  // ------------------------------------------------------------ progress

  /** `usize::MAX` on a 64-bit target. */
  const USIZE_MAX: nat := U64_MAX

  /** `usize` arithmetic that saturates instead of wrapping. */
  function SatUsize(n: nat): (r: nat)
    ensures r <= n && r <= USIZE_MAX
    ensures n <= USIZE_MAX ==> r == n
  {
    if n <= USIZE_MAX then n else USIZE_MAX
  }

  /** `NcdMatrixProgress`; `wall` is the elapsed time in seconds. */
  datatype MatrixProgress = MatrixProgress(done: nat, total: nat, inputBytes: nat, wall: real)

  /** The caller's `on_cell` observer; it records what it is handed. */
  class ProgressSink {
    var events: seq<MatrixProgress>

    constructor ()
      ensures events == []
    {
      events := [];
    }

    method OnCell(p: MatrixProgress)
      modifies this
      ensures events == old(events) + [p]
    {
      events := events + [p];
    }
  }

  /** The event the callback receives after cell (i, j); `wall` is the caller's clock. */
  function CellProgress(a: seq<seq<byte>>, b: seq<seq<byte>>, wall: (nat, nat) -> real, i: nat, j: nat)
    : MatrixProgress
    requires i < |a| && j < |b|
  {
    MatrixProgress(SatUsize(i * |b| + j + 1), SatUsize(|a| * |b|), |a[i]| + |b[j]|, wall(i, j))
  }

  /** The events of each row. */
  function ProgressRows(a: seq<seq<byte>>, b: seq<seq<byte>>, wall: (nat, nat) -> real)
    : (rows: seq<seq<MatrixProgress>>)
    ensures |rows| == |a| && Rectangular(rows, |b|)
  {
    seq(|a|, i requires 0 <= i < |a| =>
      seq(|b|, j requires 0 <= j < |b| => CellProgress(a, b, wall, i, j)))
  }

  /** All events, in row-major order. */
  function ProgressEvents(a: seq<seq<byte>>, b: seq<seq<byte>>, wall: (nat, nat) -> real)
    : seq<MatrixProgress>
  {
    Flatten(ProgressRows(a, b, wall))
  }

  /** The event of cell (i, j) is the one built from the running counter before it. */
  lemma ProgressCell(a: seq<seq<byte>>, b: seq<seq<byte>>, wall: (nat, nat) -> real, i: nat, j: nat,
                     base: nat, done: nat, cells: seq<MatrixProgress>)
    requires i < |a| && j < |b| && base == i * |b| && done == SatUsize(base + j)
    requires cells == ProgressRows(a, b, wall)[i]
    ensures j < |cells|
    ensures cells[j] == MatrixProgress(SatUsize(done + 1), SatUsize(|a| * |b|), |a[i]| + |b[j]|, wall(i, j))
  {
  }

  /** The inner loop of `ncd_matrix_with_progress` for row i, with the running `done` counter. */
  method ProgressRow(c: Compressor, a: seq<seq<byte>>, b: seq<seq<byte>>, i: nat, cx: nat,
                     bSizes: seq<nat>, opts: NcdOptions, sink: ProgressSink, wall: (nat, nat) -> real,
                     total: nat, done0: nat)
    returns (row: seq<real>, done: nat)
    requires i < |a| && cx == c.codec.size(a[i])
    requires |bSizes| == |b| && forall j {:trigger bSizes[j]} :: 0 <= j < |b| ==> bSizes[j] == c.codec.size(b[j])
    requires total == SatUsize(|a| * |b|) && done0 == SatUsize(i * |b|)
    modifies c, sink
    ensures row == DistanceRow(c.codec.size, a[i], b, opts)
    ensures c.log == old(c.log) + RowCalls(c.codec.size, a[i], b, opts)
    ensures done == SatUsize(i * |b| + |b|)
    ensures sink.events == old(sink.events) + ProgressRows(a, b, wall)[i]
  {
    var x := a[i];
    ghost var cells := ProgressRows(a, b, wall)[i];
    ghost var base := i * |b|;
    done := done0;
    row := seq(|b|, _ => 0.0);
    for j := 0 to |b|
      invariant |row| == |b|
      invariant forall q {:trigger row[q]} :: 0 <= q < j ==> row[q] == Distance(c.codec.size, x, b[q], opts)
      invariant c.log == old(c.log) + RowCalls(c.codec.size, x, b[..j], opts)
      invariant done == SatUsize(base + j)
      invariant sink.events == old(sink.events) + cells[..j]
    {
      var y := b[j];
      ghost var log, events := c.log, sink.events;
      var d := NcdFromSizes(c, x, y, cx, bSizes[j], opts);
      row := row[j := d];
      RowStep(c.codec.size, x, b, opts, j, old(c.log), log, c.log);
      ProgressCell(a, b, wall, i, j, base, done, cells);
      done := SatUsize(done + 1);
      var p := MatrixProgress(done, total, |x| + |y|, wall(i, j));
      assert p == cells[j];
      sink.OnCell(p);
      PrefixStep(cells, j, old(sink.events), events, sink.events);
    }
    assert b[..|b|] == b;
    assert cells[..|b|] == cells;
  }

  /** The outer loop of `ncd_matrix_with_progress`, from the cached singleton sizes. */
  method ProgressGrid(c: Compressor, a: seq<seq<byte>>, b: seq<seq<byte>>,
                      aSizes: seq<nat>, bSizes: seq<nat>, opts: NcdOptions,
                      sink: ProgressSink, wall: (nat, nat) -> real)
    returns (out: seq<seq<real>>)
    requires |aSizes| == |a| && forall i {:trigger aSizes[i]} :: 0 <= i < |a| ==> aSizes[i] == c.codec.size(a[i])
    requires |bSizes| == |b| && forall j {:trigger bSizes[j]} :: 0 <= j < |b| ==> bSizes[j] == c.codec.size(b[j])
    modifies c, sink
    ensures out == DistanceMatrix(c.codec.size, a, b, opts)
    ensures c.log == old(c.log) + GridCalls(c.codec.size, a, b, opts)
    ensures sink.events == old(sink.events) + ProgressEvents(a, b, wall)
  {
    ghost var rows := ProgressRows(a, b, wall);
    var total := SatUsize(|a| * |b|);
    var done: nat := 0;

    out := seq(|a|, _ => seq(|b|, _ => 0.0));
    for i := 0 to |a|
      invariant |out| == |a|
      invariant forall p {:trigger out[p]} :: 0 <= p < i ==> out[p] == DistanceRow(c.codec.size, a[p], b, opts)
      invariant c.log == old(c.log) + GridCalls(c.codec.size, a[..i], b, opts)
      invariant done == SatUsize(i * |b|)
      invariant sink.events == old(sink.events) + Flatten(rows[..i])
    {
      ghost var log, events := c.log, sink.events;
      var row;
      row, done := ProgressRow(c, a, b, i, aSizes[i], bSizes, opts, sink, wall, total, done);
      out := out[i := row];
      GridStep(c.codec.size, a, b, opts, i, old(c.log), log, c.log);
      FlattenStep(rows, i, old(sink.events), events, sink.events);
      MulSucc(i, |b|);
    }
    assert a[..|a|] == a;
    assert rows[..|a|] == rows;
    RowsMakeMatrix(out, c.codec.size, a, b, opts);
  }

  /**
   * `ncd_matrix_with_progress`: the same matrix and the same compressions as
   * `ncd_matrix`, and one callback per cell, in row-major order.
   */
  method NcdMatrixWithProgress(c: Compressor, a: seq<seq<byte>>, b: seq<seq<byte>>, opts: NcdOptions,
                               sink: ProgressSink, wall: (nat, nat) -> real)
    returns (out: seq<seq<real>>)
    modifies c, sink
    ensures out == DistanceMatrix(c.codec.size, a, b, opts)
    ensures c.log == old(c.log) + MatrixCalls(c.codec.size, a, b, opts)
    ensures sink.events == old(sink.events) + ProgressEvents(a, b, wall)
  {
    var aSizes, bSizes := SingletonSizes(c, a, b);
    ghost var singles := c.log;
    out := ProgressGrid(c, a, b, aSizes, bSizes, opts, sink, wall);
    assert a[..|a|] == a;
    MatrixLog(c.codec.size, a, b, opts, old(c.log), singles, c.log);
  }

  // -------------------------------------------------------------- lemmas

  lemma {:induction false} RowCallsCount(size: seq<byte> -> nat, x: seq<byte>, b: seq<seq<byte>>,
                                         opts: NcdOptions)
    requires NoTrivialRow(size, x, b)
    ensures |RowCalls(size, x, b, opts)| == PerCell(opts.symmetry) * |b|
  {
    if b != [] {
      var y := b[|b| - 1];
      RowCallsCount(size, x, b[..|b| - 1], opts);
      JoinCallsCount(x, y, size(x), size(y), opts);
    }
  }

  lemma {:induction false} GridCallsCount(size: seq<byte> -> nat, a: seq<seq<byte>>, b: seq<seq<byte>>,
                                          opts: NcdOptions)
    requires NoTrivialCell(size, a, b)
    ensures |GridCalls(size, a, b, opts)| == PerCell(opts.symmetry) * |b| * |a|
  {
    if a != [] {
      var init := a[..|a| - 1];
      var x := a[|a| - 1];
      assert NoTrivialCell(size, init, b) by {
        forall i | 0 <= i < |init| ensures NoTrivialRow(size, init[i], b) {
          assert init[i] == a[i];
        }
      }
      GridCallsCount(size, init, b, opts);
      assert NoTrivialRow(size, x, b);
      RowCallsCount(size, x, b, opts);
      var r := PerCell(opts.symmetry) * |b|;
      assert GridCalls(size, a, b, opts) == GridCalls(size, init, b, opts) + RowCalls(size, x, b, opts);
      assert |GridCalls(size, a, b, opts)| == r * |init| + r;
      MulSucc(|init|, r);
    }
  }

  /**
   * The cache compresses each distinct content of a ++ b exactly once, and every
   * cell with a non-trivial operand adds one join under `None` and two under `Min`.
   */
  lemma MatrixCallCount(size: seq<byte> -> nat, a: seq<seq<byte>>, b: seq<seq<byte>>, opts: NcdOptions)
    requires NoTrivialCell(size, a, b)
    ensures |MatrixCalls(size, a, b, opts)|
         == |Elements(a + b)| + PerCell(opts.symmetry) * |b| * |a|
  {
    FirstOccurrencesContents(a + b, {});
    assert Elements(a + b) - {} == Elements(a + b);
    GridCallsCount(size, a, b, opts);
  }

  /** The singleton compressions are the distinct contents of a ++ b, none of them twice. */
  lemma SingletonsDistinct(a: seq<seq<byte>>, b: seq<seq<byte>>)
    ensures Elements(FirstOccurrences(a + b, {})) == Elements(a + b)
    ensures |FirstOccurrences(a + b, {})| == |Elements(a + b)|
  {
    FirstOccurrencesContents(a + b, {});
    assert Elements(a + b) - {} == Elements(a + b);
  }

  /** The scenario of the cache-count tests, with the input length as the codec. */
  lemma CacheCountScenario()
    ensures var aaa: seq<byte> := [97, 97, 97];
            var bbb: seq<byte> := [98, 98, 98];
            var len := (s: seq<byte>) => |s|;
            |MatrixCalls(len, [aaa, bbb, aaa], [aaa, aaa], DefaultOptions())| == 2 + 2 * 2 * 3
            && |MatrixCalls(len, [aaa, bbb, aaa], [aaa, aaa], NcdOptions(Frame64, None, false))| == 2 + 1 * 2 * 3
  {
    var aaa: seq<byte> := [97, 97, 97];
    var bbb: seq<byte> := [98, 98, 98];
    var len := (s: seq<byte>) => |s|;
    var a, b := [aaa, bbb, aaa], [aaa, aaa];
    assert aaa != bbb by { assert aaa[0] != bbb[0]; }
    assert Elements(a + b) == {aaa, bbb};
    assert |Elements(a + b)| == 2;
    assert NoTrivialCell(len, a, b);
    MatrixCallCount(len, a, b, DefaultOptions());
    MatrixCallCount(len, a, b, NcdOptions(Frame64, None, false));
  }

  /**
   * The k-th callback, for k = i * |b| + j, reports cell (i, j): its input bytes,
   * its wall time, `total = |a| * |b|` and `done = k + 1` (both saturating).
   */
  lemma ProgressEventAt(a: seq<seq<byte>>, b: seq<seq<byte>>, wall: (nat, nat) -> real, i: nat, j: nat)
    requires i < |a| && j < |b|
    ensures |ProgressEvents(a, b, wall)| == |a| * |b|
    ensures i * |b| + j < |a| * |b|
    ensures var e := ProgressEvents(a, b, wall)[i * |b| + j];
            && e.inputBytes == |a[i]| + |b[j]| && e.wall == wall(i, j)
            && e.done == SatUsize(i * |b| + j + 1) && e.total == SatUsize(|a| * |b|)
            && (|a| * |b| <= USIZE_MAX ==> e.done == i * |b| + j + 1 && e.total == |a| * |b|)
  {
    var rows := ProgressRows(a, b, wall);
    FlattenLength(rows, |b|);
    FlattenIndex(rows, |b|, i, j);
  }

  /** With no rows or no columns the callback is never invoked. */
  lemma NoProgressWhenEmpty(a: seq<seq<byte>>, b: seq<seq<byte>>, wall: (nat, nat) -> real)
    requires |a| == 0 || |b| == 0
    ensures ProgressEvents(a, b, wall) == []
  {
    FlattenLength(ProgressRows(a, b, wall), |b|);
  }
}
