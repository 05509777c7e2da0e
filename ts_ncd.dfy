/**
 * The TypeScript distance (src/ncd.ts): a compressor object with an id, a
 * display name and a `compress` function returning the compressed bytes; the
 * single zero-byte sentinel join; and the normalized compression distance
 * without symmetrisation or clamping. `gzipSync` is an abstract function of
 * the level.
 */
module TsNcd {
  import opened Wrappers
  import opened Bytes
  import opened Decimal

  /**
   * A `Compressor`: its id, its display name and its compression function,
   * with a ghost log of every buffer it was asked to compress, in call order.
   */
  class Compressor {
    const id: string
    const name: string
    const compress: seq<byte> -> seq<byte>
    ghost var log: seq<seq<byte>>

    constructor (id: string, name: string, compress: seq<byte> -> seq<byte>)
      ensures this.id == id && this.name == name && this.compress == compress && log == []
    {
      this.id := id;
      this.name := name;
      this.compress := compress;
      log := [];
    }

    /** `compress(input)`: the compressed bytes; one more entry in the log. */
    method Compress(input: seq<byte>) returns (out: seq<byte>)
      modifies this
      ensures out == compress(input)
      ensures log == old(log) + [input]
    {
      out := compress(input);
      log := log + [input];
    }
  }

  /** The display name of `gzipCompressor(level)`. */
  function GzipName(level: int): string {
    "gzip (zlib, level=" + IntString(level) + ")"
  }

  /** `gzipCompressor(level)`: id "gzip", the level in the name, zlib at that level with mtime 0. */
  method GzipCompressor(gzip: int -> (seq<byte> -> seq<byte>), level: int) returns (c: Compressor)
    ensures fresh(c) && c.id == "gzip" && c.name == GzipName(level) && c.compress == gzip(level)
    ensures c.log == []
  {
    c := new Compressor("gzip", GzipName(level), gzip(level));
  }

  // ------------------------------------------------------------ sentinel

  /** The bytes of `concatWithSentinel(a, b)`: `a`, one 0x00 byte, then `b`. */
  function SentinelJoin(a: seq<byte>, b: seq<byte>): (r: seq<byte>)
    ensures |r| == |a| + 1 + |b|
    ensures r[..|a|] == a && r[|a|] == 0 && r[|a| + 1..] == b
  {
    a + [0] + b
  }

  /** `concatWithSentinel`: a new buffer of |a| + 1 + |b| bytes holding the sentinel join. */
  method ConcatWithSentinel(a: seq<byte>, b: seq<byte>) returns (out: array<byte>)
    ensures fresh(out)
    ensures out[..] == SentinelJoin(a, b)
  {
    out := new byte[|a| + 1 + |b|](_ => 0);
    for i := 0 to |a|
      invariant out[..i] == a[..i]
      invariant forall k :: i <= k < out.Length ==> out[k] == 0
    {
      out[i] := a[i];
    }
    out[|a|] := 0;
    for i := 0 to |b|
      invariant out[..|a|] == a && out[|a|] == 0
      invariant out[|a| + 1..|a| + 1 + i] == b[..i]
    {
      out[|a| + 1 + i] := b[i];
    }
    assert out[..] == out[..|a|] + [out[|a|]] + out[|a| + 1..|a| + 1 + |b|];
  }

  /** The zero-free prefix of `r`: its length is the index of the first 0x00, or |r|. */
  function FirstZero(r: seq<byte>): (i: nat)
    ensures i <= |r|
    ensures 0 !in r[..i]
    ensures i < |r| ==> r[i] == 0
  {
    if |r| == 0 then 0
    else if r[0] == 0 then 0
    else
      var k := FirstZero(r[1..]);
      assert r[..k + 1] == [r[0]] + r[1..][..k];
      k + 1
  }

  /** Reads a sentinel join back at its first 0x00; `None` if there is none. */
  function SentinelSplit(r: seq<byte>): Option<(seq<byte>, seq<byte>)> {
    var i := FirstZero(r);
    if i == |r| then None else Some((r[..i], r[i + 1..]))
  }

  /** When the first operand holds no 0x00 byte, the join is read back into its operands. */
  lemma {:induction false} SentinelRoundTrip(a: seq<byte>, b: seq<byte>)
    requires 0 !in a
    ensures SentinelSplit(SentinelJoin(a, b)) == Some((a, b))
  {
    FirstZeroAt(a, b);
  }

  lemma {:induction false} FirstZeroAt(a: seq<byte>, b: seq<byte>)
    requires 0 !in a
    ensures FirstZero(a + [0] + b) == |a|
  {
    if |a| > 0 {
      assert (a + [0] + b)[1..] == a[1..] + [0] + b;
      assert 0 !in a[1..];
      FirstZeroAt(a[1..], b);
    }
  }

  /** Unlike Frame64, the sentinel join is ambiguous once an operand may contain 0x00. */
  lemma SentinelAmbiguous()
    ensures SentinelJoin([], [0]) == SentinelJoin([0], [])
  {
  }

  // ------------------------------------------------------------ distance

  /** `compressedSize(c, x)`: the byte length of the compressed buffer. */
  method CompressedSize(c: Compressor, x: seq<byte>) returns (n: nat)
    modifies c
    ensures n == |c.compress(x)|
    ensures c.log == old(c.log) + [x]
  {
    var out := c.Compress(x);
    n := |out|;
  }

  /**
   * The value `ncd(c, x, y)` returns: 0 when both singletons compress to
   * nothing, otherwise (C(x‖0‖y) - min) / max with no clipping.
   */
  function TsDistance(compress: seq<byte> -> seq<byte>, x: seq<byte>, y: seq<byte>): real {
    var cx, cy := |compress(x)|, |compress(y)|;
    var cxy := |compress(SentinelJoin(x, y))|;
    var mn := if cx <= cy then cx else cy;
    var mx := if cx <= cy then cy else cx;
    if mx == 0 then 0.0 else (cxy - mn) as real / mx as real
  }

  /** `ncd`: compresses x, then y, then their sentinel join, and nothing else. */
  method Ncd(c: Compressor, x: seq<byte>, y: seq<byte>) returns (d: real)
    modifies c
    ensures d == TsDistance(c.compress, x, y)
    ensures c.log == old(c.log) + [x, y, SentinelJoin(x, y)]
  {
    var cx := CompressedSize(c, x);
    var cy := CompressedSize(c, y);
    var joined := ConcatWithSentinel(x, y);
    var cxy := CompressedSize(c, joined[..]);
    var mn := if cx <= cy then cx else cy;
    var mx := if cx <= cy then cy else cx;
    if mx == 0 {
      return 0.0;
    }
    d := (cxy as int - mn) as real / mx as real;
  }

  // -------------------------------------------------------------- lemmas

  /** Two inputs that both compress to nothing are at distance 0. */
  lemma TsDistanceTrivial(compress: seq<byte> -> seq<byte>, x: seq<byte>, y: seq<byte>)
    requires |compress(x)| == 0 && |compress(y)| == 0
    ensures TsDistance(compress, x, y) == 0.0
  {
  }

  /**
   * With a positive singleton size nothing is clipped: the distance is
   * negative exactly when the joint size is below min(C(x), C(y)), and above
   * 1 exactly when it exceeds C(x) + C(y).
   */
  lemma TsDistanceRange(compress: seq<byte> -> seq<byte>, x: seq<byte>, y: seq<byte>)
    requires |compress(x)| > 0 || |compress(y)| > 0
    ensures var cx, cy, cxy := |compress(x)|, |compress(y)|, |compress(SentinelJoin(x, y))|;
      (TsDistance(compress, x, y) < 0.0 <==> cxy < (if cx <= cy then cx else cy)) &&
      (TsDistance(compress, x, y) > 1.0 <==> cxy > cx + cy)
  {
    var cx, cy, cxy := |compress(x)|, |compress(y)|, |compress(SentinelJoin(x, y))|;
    var mn := if cx <= cy then cx else cy;
    var mx := if cx <= cy then cy else cx;
    RatioSign((cxy - mn) as real, mx as real);
    assert mn + mx == cx + cy;
  }

  lemma RatioSign(num: real, den: real)
    requires den > 0.0
    ensures num / den < 0.0 <==> num < 0.0
    ensures num / den > 1.0 <==> num > den
  {
    if num < 0.0 {
      assert num / den * den == num;
    }
    if num / den < 0.0 {
      assert num / den * den == num;
    }
    if num > den {
      assert (num - den) / den > 0.0;
    }
    if num / den > 1.0 {
      assert (num / den - 1.0) * den == num - den;
    }
  }

  /** The sentinel distance is symmetric only where the two joins compress to the same size. */
  lemma TsDistanceSwap(compress: seq<byte> -> seq<byte>, x: seq<byte>, y: seq<byte>)
    requires |compress(x)| > 0 || |compress(y)| > 0
    ensures TsDistance(compress, x, y) == TsDistance(compress, y, x)
        <==> |compress(SentinelJoin(x, y))| == |compress(SentinelJoin(y, x))|
  {
    var cx, cy := |compress(x)|, |compress(y)|;
    var mn := if cx <= cy then cx else cy;
    var mx := if cx <= cy then cy else cx;
    var p, q := |compress(SentinelJoin(x, y))|, |compress(SentinelJoin(y, x))|;
    QuotientInjective((p - mn) as real, (q - mn) as real, mx as real);
  }

  lemma QuotientInjective(u: real, v: real, den: real)
    requires den > 0.0
    ensures u / den == v / den <==> u == v
  {
    if u / den == v / den {
      assert u == u / den * den;
      assert v == v / den * den;
    }
  }
}
