/**
 * The synthetic dataset planner of the Python package
 * (python/src/ncdprime/core/matrix.py): the size of every cell of a
 * rows × cols grid, interpolated between two byte counts by a pattern; the
 * directory name of a cell; and the deterministic payload of a cell, cut
 * from a stream of chained 32-byte digests. Python floats are `real`, and the
 * blake2b digest (with the UTF-8 encoding of its message) is an abstract
 * function.
 */
module PyDataset {
  import opened Wrappers
  import opened Bytes
  import opened SeqUtil
  import opened Decimal
  import opened Text
  import NcdCore

  /** `MatrixSpec`; `seed` defaults to 0 and `pattern` to "gradient". */
  datatype MatrixSpec = MatrixSpec(rows: int, cols: int, minBytes: int, maxBytes: int, seed: int, pattern: string)

  /** `MatrixSpec(rows, cols, min_bytes, max_bytes)` with the default seed and pattern. */
  function DefaultSpec(rows: int, cols: int, minBytes: int, maxBytes: int): (s: MatrixSpec)
    ensures s.seed == 0 && s.pattern == "gradient"
    ensures s.rows == rows && s.cols == cols && s.minBytes == minBytes && s.maxBytes == maxBytes
  {
    MatrixSpec(rows, cols, minBytes, maxBytes, 0, "gradient")
  }

  // ------------------------------------------------------------ sizes

  /** `_lerp(a, b, t)`: a at t = 0, b at t = 1. */
  function Lerp(a: real, b: real, t: real): (r: real)
    ensures t == 0.0 ==> r == a
    ensures t == 1.0 ==> r == b
    ensures a == b ==> r == a
  {
    a + (b - a) * t
  }

  /**
   * The interpolation factor of cell (r, c): 0 for "constant"; the row (or
   * column) position over the last index for "row" (or "col"), 0 for a single
   * row (column); for any other pattern the gradient (r + c) over its largest
   * value, 0 when that is not positive. Always in [0, 1].
   */
  function TFactor(spec: MatrixSpec, r: int, c: int): (t: real)
    requires 0 <= r < spec.rows && 0 <= c < spec.cols
    ensures 0.0 <= t <= 1.0
    ensures spec.pattern == "constant" ==> t == 0.0
  {
    if spec.pattern == "constant" then 0.0
    else if spec.pattern == "row" then
      if spec.rows == 1 then 0.0
      else
        NcdCore.QuotientInUnit(r as real, (spec.rows - 1) as real);
        r as real / (spec.rows - 1) as real
    else if spec.pattern == "col" then
      if spec.cols == 1 then 0.0
      else
        NcdCore.QuotientInUnit(c as real, (spec.cols - 1) as real);
        c as real / (spec.cols - 1) as real
    else
      var denom := (spec.rows - 1) + (spec.cols - 1);
      if denom <= 0 then 0.0
      else
        NcdCore.QuotientInUnit((r + c) as real, denom as real);
        (r + c) as real / denom as real
  }

  /** Python `round(x)`: the nearest integer, ties to the even one. */
  function RoundHalfEven(x: real): (n: int)
    ensures -0.5 <= n as real - x <= 0.5
    ensures (n as real - x == 0.5 || x - n as real == 0.5) ==> n % 2 == 0
  {
    var f := x.Floor;
    var frac := x - f as real;
    if frac < 0.5 then f
    else if frac > 0.5 then f + 1
    else if f % 2 == 0 then f
    else f + 1
  }

  /** The byte count of cell (r, c): the rounded interpolation, never negative. */
  function CellSize(spec: MatrixSpec, r: int, c: int): (n: int)
    requires 0 <= r < spec.rows && 0 <= c < spec.cols
    ensures n >= 0
  {
    Max(0, RoundHalfEven(Lerp(spec.minBytes as real, spec.maxBytes as real, TFactor(spec, r, c))))
  }

  /** One planned cell: `(r, c, nbytes)`. */
  datatype Cell = Cell(r: int, c: int, n: int)

  /** The cells of each row, left to right; no rows when either dimension is not positive. */
  function CellGrid(spec: MatrixSpec): (g: seq<seq<Cell>>)
    ensures |g| == (if spec.rows <= 0 || spec.cols <= 0 then 0 else spec.rows)
    ensures spec.cols > 0 ==> Rectangular(g, spec.cols)
    ensures forall r, c {:trigger g[r][c]} :: 0 <= r < |g| && 0 <= c < |g[r]| ==>
      g[r][c] == Cell(r, c, CellSize(spec, r, c))
  {
    if spec.rows <= 0 || spec.cols <= 0 then []
    else
      seq(spec.rows, r requires 0 <= r < spec.rows =>
        seq(spec.cols, c requires 0 <= c < spec.cols => Cell(r, c, CellSize(spec, r, c))))
  }

  /** Everything `iter_cells` yields, in order. */
  function CellPlan(spec: MatrixSpec): seq<Cell> {
    Flatten(CellGrid(spec))
  }

  /** `iter_cells`: the nested loops over rows and columns, one cell per step. */
  method IterCells(spec: MatrixSpec) returns (cells: seq<Cell>)
    ensures cells == CellPlan(spec)
  {
    ghost var grid := CellGrid(spec);
    cells := [];
    if spec.rows <= 0 || spec.cols <= 0 {
      return;
    }
    for r := 0 to spec.rows
      invariant cells == Flatten(grid[..r])
    {
      ghost var before := cells;
      for c := 0 to spec.cols
        invariant cells == before + grid[r][..c]
      {
        var t: real;
        if spec.pattern == "constant" {
          t := 0.0;
        } else if spec.pattern == "row" {
          t := if spec.rows == 1 then 0.0 else r as real / (spec.rows - 1) as real;
        } else if spec.pattern == "col" {
          t := if spec.cols == 1 then 0.0 else c as real / (spec.cols - 1) as real;
        } else {
          var denom := (spec.rows - 1) + (spec.cols - 1);
          t := if denom <= 0 then 0.0 else (r + c) as real / denom as real;
        }
        var n := RoundHalfEven(Lerp(spec.minBytes as real, spec.maxBytes as real, t));
        n := Max(0, n);
        ghost var prev := cells;
        cells := cells + [Cell(r, c, n)];
        PrefixStep(grid[r], c, before, prev, cells);
      }
      assert grid[r][..spec.cols] == grid[r];
      FlattenStep(grid, r, [], before, cells);
    }
    assert grid[..spec.rows] == grid;
  }

  // ---------------------------------------------------- lemmas on sizes

  /** With a non-positive dimension nothing is yielded. */
  lemma PlanEmpty(spec: MatrixSpec)
    requires spec.rows <= 0 || spec.cols <= 0
    ensures CellPlan(spec) == []
  {
  }

  /** Otherwise exactly rows × cols cells, and cell (r, c) at position r * cols + c: row-major order. */
  lemma PlanRowMajor(spec: MatrixSpec, r: int, c: int)
    requires 0 <= r < spec.rows && 0 <= c < spec.cols
    ensures |CellPlan(spec)| == spec.rows * spec.cols
    ensures r * spec.cols + c < |CellPlan(spec)|
    ensures CellPlan(spec)[r * spec.cols + c] == Cell(r, c, CellSize(spec, r, c))
  {
    FlattenLength(CellGrid(spec), spec.cols);
    FlattenIndex(CellGrid(spec), spec.cols, r, c);
  }

  /** Every position of the plan is some cell (r, c) with r = k / cols and c = k % cols. */
  lemma PlanEntry(spec: MatrixSpec, k: int)
    requires 0 <= k < |CellPlan(spec)|
    ensures 0 <= k / spec.cols < spec.rows && 0 <= k % spec.cols < spec.cols
    ensures CellPlan(spec)[k] == Cell(k / spec.cols, k % spec.cols, CellSize(spec, k / spec.cols, k % spec.cols))
  {
    var g := CellGrid(spec);
    assert spec.rows > 0 && spec.cols > 0;
    FlattenLength(g, spec.cols);
    DivInRange(k, spec.rows, spec.cols);
    FlattenIndex(g, spec.cols, k / spec.cols, k % spec.cols);
  }

  /** A position below rows * cols is row k / cols, column k % cols. */
  lemma DivInRange(k: int, rows: int, cols: int)
    requires 0 < cols && 0 <= k < rows * cols
    ensures 0 <= k / cols < rows && 0 <= k % cols < cols
    ensures k / cols * cols + k % cols == k
  {
    assert k / cols * cols + k % cols == k;
  }

  /** Rounding a whole number gives it back. */
  lemma RoundWhole(n: int)
    ensures RoundHalfEven(n as real) == n
  {
    assert (n as real).Floor == n;
  }

  /** An integer within one half of a value between two integers lies between them too. */
  lemma RoundBetween(x: real, lo: int, hi: int)
    requires lo as real <= x <= hi as real
    ensures lo <= RoundHalfEven(x) <= hi
  {
  }

  /** `_lerp` with t in [0, 1] stays between its end points. */
  lemma LerpBetween(a: real, b: real, t: real)
    requires a <= b && 0.0 <= t <= 1.0
    ensures a <= Lerp(a, b, t) <= b
  {
    MulBetween(b - a, t);
  }

  lemma MulBetween(u: real, t: real)
    requires 0.0 <= u && 0.0 <= t <= 1.0
    ensures 0.0 <= u * t <= u
  {
  }

  /** Equal bounds: every cell has `max(0, min_bytes)` bytes, whatever the pattern. */
  lemma EqualBoundsSize(spec: MatrixSpec, r: int, c: int)
    requires 0 <= r < spec.rows && 0 <= c < spec.cols
    requires spec.minBytes == spec.maxBytes
    ensures CellSize(spec, r, c) == Max(0, spec.minBytes)
  {
    RoundWhole(spec.minBytes);
  }

  /** With 0 <= min_bytes <= max_bytes every cell size lies between the two. */
  lemma SizeWithinBounds(spec: MatrixSpec, r: int, c: int)
    requires 0 <= r < spec.rows && 0 <= c < spec.cols
    requires 0 <= spec.minBytes <= spec.maxBytes
    ensures spec.minBytes <= CellSize(spec, r, c) <= spec.maxBytes
  {
    var t := TFactor(spec, r, c);
    var x := Lerp(spec.minBytes as real, spec.maxBytes as real, t);
    LerpBetween(spec.minBytes as real, spec.maxBytes as real, t);
    RoundBetween(x, spec.minBytes, spec.maxBytes);
  }

  // ---------------------------------------------------- directory names

  /** `_cell_dirname(r, c)`: "r", r padded to three digits, "_c", c padded to three digits. */
  function CellDirname(r: int, c: int): string {
    "r" + ZeroPad(r, 3) + "_c" + ZeroPad(c, 3)
  }

  /** Reads a cell directory name back into its row and column; `None` if it is not one. */
  function ParseDirname(s: string): Option<(nat, nat)> {
    var parts := Split(s, '_');
    if |parts| == 2 && |parts[0]| >= 1 && parts[0][0] == 'r' && IsDigits(parts[0][1..])
       && |parts[1]| >= 1 && parts[1][0] == 'c' && IsDigits(parts[1][1..])
    then Some((Parse(parts[0][1..]), Parse(parts[1][1..])))
    else None
  }

  /** The names of cells with non-negative indices read back as those indices. */
  lemma DirnameRoundTrip(r: nat, c: nat)
    ensures ParseDirname(CellDirname(r, c)) == Some((r, c))
  {
    var pr, pc := ZeroPad(r, 3), ZeroPad(c, 3);
    ZeroPadRoundTrip(r, 3);
    ZeroPadRoundTrip(c, 3);
    NoUnderscore(pr);
    NoUnderscore(pc);
    DirnameShape(r, c);
    SplitTwo("r" + pr, "c" + pc);
    ParseParts(CellDirname(r, c), pr, pc);
  }

  lemma DirnameShape(r: int, c: int)
    ensures CellDirname(r, c) == ("r" + ZeroPad(r, 3)) + ['_'] + ("c" + ZeroPad(c, 3))
  {
  }

  lemma ParseParts(s: string, pr: string, pc: string)
    requires IsDigits(pr) && IsDigits(pc)
    requires Split(s, '_') == ["r" + pr, "c" + pc]
    ensures ParseDirname(s) == Some((Parse(pr), Parse(pc)))
  {
    assert ("r" + pr)[1..] == pr && ("c" + pc)[1..] == pc;
  }

  /** A name with one underscore splits into the parts before and after it. */
  lemma SplitTwo(head: string, tail: string)
    requires '_' !in head && '_' !in tail
    ensures Split(head + ['_'] + tail, '_') == [head, tail]
  {
    SplitAt(head, tail, '_');
    SplitFree(tail, '_');
  }

  lemma NoUnderscore(s: string)
    requires IsDigits(s)
    ensures '_' !in s && '_' !in "r" + s && '_' !in "c" + s
  {
  }

  /** Hence distinct cells get distinct directories. */
  lemma DirnameInjective(r1: nat, c1: nat, r2: nat, c2: nat)
    requires CellDirname(r1, c1) == CellDirname(r2, c2)
    ensures r1 == r2 && c1 == c2
  {
    DirnameRoundTrip(r1, c1);
    DirnameRoundTrip(r2, c2);
  }

  /** For indices below 1000 the name is exactly nine characters, as "r000_c000". */
  lemma DirnameLength(r: nat, c: nat)
    requires r < 1000 && c < 1000
    ensures |CellDirname(r, c)| == 9
  {
    ZeroPadThree(r);
    ZeroPadThree(c);
  }

  // ----------------------------------------------------------- payloads

  /** A 32-byte digest. */
  type Digest32 = s: seq<byte> | |s| == 32 witness seq(32, _ => 0)

  /** The digest message of block `counter` of cell (r, c): "ncdprime:{seed}:{r}:{c}:{counter}". */
  function Message(seed: int, r: int, c: int, counter: nat): string {
    "ncdprime:" + IntString(seed) + ":" + IntString(r) + ":" + IntString(c) + ":" + IntString(counter)
  }

  /** The digests of blocks 0 .. k - 1, concatenated. */
  function DigestStream(digest: string -> Digest32, seed: int, r: int, c: int, k: nat): (s: seq<byte>)
    ensures |s| == 32 * k
  {
    if k == 0 then [] else DigestStream(digest, seed, r, c, k - 1) + digest(Message(seed, r, c, k - 1))
  }

  /** The number of 32-byte blocks that cover `n` bytes. */
  function Blocks(n: nat): nat {
    (n + 31) / 32
  }

  /** `_det_bytes(seed, r, c, n)`: empty for n <= 0, otherwise the first n bytes of the stream. */
  function DetBytesOf(digest: string -> Digest32, seed: int, r: int, c: int, n: int): (out: seq<byte>)
    ensures |out| == Max(0, n)
  {
    if n <= 0 then []
    else
      BlocksLeast(n, Blocks(n));
      DigestStream(digest, seed, r, c, Blocks(n))[..n]
  }

  /** `_det_bytes`: digests appended one counter at a time until there are at least n bytes, then cut to n. */
  method DetBytes(digest: string -> Digest32, seed: int, r: int, c: int, n: int) returns (out: seq<byte>)
    ensures out == DetBytesOf(digest, seed, r, c, n)
  {
    if n <= 0 {
      return [];
    }
    var buf: seq<byte> := [];
    var counter: nat := 0;
    while |buf| < n
      invariant buf == DigestStream(digest, seed, r, c, counter)
      invariant counter <= Blocks(n)
      decreases n - |buf|
    {
      BlocksLeast(n, counter + 1);
      var h := digest(Message(seed, r, c, counter));
      buf := buf + h;
      counter := counter + 1;
    }
    BlocksLeast(n, counter);
    out := buf[..n];
  }

  /** `Blocks(n)` is the least block count whose bytes reach `n`. */
  lemma BlocksLeast(n: nat, k: nat)
    requires n > 0
    ensures 32 * k >= n <==> k >= Blocks(n)
  {
    var q, rem := (n + 31) / 32, (n + 31) % 32;
    assert n + 31 == 32 * q + rem;
    if k >= q {
      assert 32 * k >= 32 * q;
    } else {
      assert k <= q - 1;
      assert 32 * k <= 32 * (q - 1);
    }
  }

  /** A longer stream starts with a shorter one. */
  lemma {:induction false} StreamPrefix(digest: string -> Digest32, seed: int, r: int, c: int, k: nat, k': nat)
    requires k <= k'
    ensures DigestStream(digest, seed, r, c, k') [..32 * k] == DigestStream(digest, seed, r, c, k)
  {
    if k < k' {
      StreamPrefix(digest, seed, r, c, k, k' - 1);
      var s := DigestStream(digest, seed, r, c, k' - 1);
      assert (s + digest(Message(seed, r, c, k' - 1)))[..32 * k] == s[..32 * k];
    }
  }

  /** The payload of a cell of m bytes is the first m bytes of its payload of n >= m bytes. */
  lemma DetBytesPrefix(digest: string -> Digest32, seed: int, r: int, c: int, m: int, n: int)
    requires m <= n
    ensures Max(0, m) <= |DetBytesOf(digest, seed, r, c, n)|
    ensures DetBytesOf(digest, seed, r, c, m) == DetBytesOf(digest, seed, r, c, n)[..Max(0, m)]
  {
    if m > 0 {
      BlocksLeast(m, Blocks(n));
      BlocksLeast(n, Blocks(n));
      StreamPrefix(digest, seed, r, c, Blocks(m), Blocks(n));
      BlocksLeast(m, Blocks(m));
    }
  }
}
