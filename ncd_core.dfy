/**
 * The scalar part of the Rust engine (rust/ncdprime-core/src/lib.rs): the
 * Frame64 join, the compressor capability, the distance options and the
 * normalized compression distance of one pair of buffers.
 */
module NcdCore {
  import Wrappers
  import opened Bytes

  // ---------------------------------------------------------------- joins

  /** How two buffers are put together before they are compressed jointly. */
  datatype Join = Frame64

  /** A `usize` length as `u64`, saturating as `try_into().unwrap_or(u64::MAX)` does. */
  function LenU64(len: nat): (r: u64)
    ensures len <= U64_MAX ==> r == len
    ensures len > U64_MAX ==> r == U64_MAX
  {
    if len <= U64_MAX then len else U64_MAX
  }

  /** `frame64_bytes`: the length of `data` as eight little-endian bytes, then `data`. */
  function Frame64Bytes(data: seq<byte>): (r: seq<byte>)
    ensures |r| == 8 + |data|
    ensures r[8..] == data
    ensures |data| <= U64_MAX ==> FromLittleEndian(r[..8]) == |data|
  {
    var header := U64Le(LenU64(|data|));
    U64LeRoundTrip(LenU64(|data|));
    assert (header + data)[..8] == header;
    header + data
  }

  /** `join_bytes`: frame64(x) followed by frame64(y). */
  function JoinBytes(x: seq<byte>, y: seq<byte>, join: Join): (r: seq<byte>)
    ensures |r| == 16 + |x| + |y|
  {
    match join
    case Frame64 => Frame64Bytes(x) + Frame64Bytes(y)
  }

  /** Reads a Frame64 join back into its two operands; `None` if `r` is not one. */
  function SplitJoin(r: seq<byte>): Wrappers.Option<(seq<byte>, seq<byte>)> {
    if |r| < 8 then Wrappers.None
    else
      var lx := FromLittleEndian(r[..8]);
      if |r| < 16 + lx then Wrappers.None
      else
        var ly := FromLittleEndian(r[8 + lx..16 + lx]);
        if |r| != 16 + lx + ly then Wrappers.None
        else Wrappers.Some((r[8..8 + lx], r[16 + lx..]))
  }

  /** The Frame64 join is decodable: both operands are recovered from the joined buffer. */
  lemma JoinRoundTrip(x: seq<byte>, y: seq<byte>)
    requires |x| <= U64_MAX && |y| <= U64_MAX
    ensures SplitJoin(JoinBytes(x, y, Frame64)) == Wrappers.Some((x, y))
  {
    var fx, fy := Frame64Bytes(x), Frame64Bytes(y);
    var r := fx + fy;
    assert r[..8] == fx[..8];
    assert r[8 + |x|..16 + |x|] == fy[..8];
    assert r[8..8 + |x|] == fx[8..];
    assert r[16 + |x|..] == fy[8..];
  }

  /** Hence different pairs of operands never produce the same joined buffer. */
  lemma JoinInjective(x1: seq<byte>, y1: seq<byte>, x2: seq<byte>, y2: seq<byte>)
    requires |x1| <= U64_MAX && |y1| <= U64_MAX && |x2| <= U64_MAX && |y2| <= U64_MAX
    requires JoinBytes(x1, y1, Frame64) == JoinBytes(x2, y2, Frame64)
    ensures x1 == x2 && y1 == y2
  {
    JoinRoundTrip(x1, y1);
    JoinRoundTrip(x2, y2);
  }

  // ---------------------------------------------------------- compressors

  /**
   * A compressor as the engine sees it: its identifier and its compressed-length
   * function. Being a function, the size is deterministic: same bytes, same size.
   */
  datatype Codec = Codec(id: string, size: seq<byte> -> nat)

  /**
   * A compressor handed to the engine, instrumented with a ghost log of every
   * buffer it was asked to compress, in call order.
   */
  class Compressor {
    const codec: Codec
    ghost var log: seq<seq<byte>>

    constructor (codec: Codec)
      ensures this.codec == codec && log == []
    {
      this.codec := codec;
      log := [];
    }

    /** `compressed_len`: the codec's size of `input`; one more entry in the log. */
    method CompressedLen(input: seq<byte>) returns (n: nat)
      modifies this
      ensures n == codec.size(input)
      ensures log == old(log) + [input]
    {
      n := codec.size(input);
      log := log + [input];
    }
  }

  /**
   * The foreign codec libraries (flate2 with mtime 0, zstd, brotli, lz4_flex,
   * xz2), each a compressed-length function of its own tuning knobs.
   */
  datatype CodecFamily = CodecFamily(
    gzip: u32 -> (seq<byte> -> nat),
    zstd: i32 -> (seq<byte> -> nat),
    brotli: (u32, u32) -> (seq<byte> -> nat),
    lz4: seq<byte> -> nat,
    xz: u32 -> (seq<byte> -> nat))

  /** `Gzip::new(level)`. */
  function GzipCodec(family: CodecFamily, level: u32): (c: Codec)
    ensures c.id == "gzip" && c.size == family.gzip(level)
  {
    Codec("gzip", family.gzip(level))
  }

  /** `Zstd::new(level)`. */
  function ZstdCodec(family: CodecFamily, level: i32): (c: Codec)
    ensures c.id == "zstd" && c.size == family.zstd(level)
  {
    Codec("zstd", family.zstd(level))
  }

  /** `Brotli::new(quality, lgwin)`. */
  function BrotliCodec(family: CodecFamily, quality: u32, lgwin: u32): (c: Codec)
    ensures c.id == "brotli" && c.size == family.brotli(quality, lgwin)
  {
    Codec("brotli", family.brotli(quality, lgwin))
  }

  /** `Lz4::new(accel)`: the acceleration is stored but never reaches the codec. */
  function Lz4Codec(family: CodecFamily, accel: i32): (c: Codec)
    ensures c.id == "lz4" && c.size == family.lz4
  {
    Codec("lz4", family.lz4)
  }

  /** `Xz::new(level)`. */
  function XzCodec(family: CodecFamily, level: u32): (c: Codec)
    ensures c.id == "xz" && c.size == family.xz(level)
  {
    Codec("xz", family.xz(level))
  }

  /** `compressor_ids`: the identifiers that front ends may offer. */
  function CompressorIds(): (ids: seq<string>)
    ensures |ids| == 5
  {
    ["gzip", "zstd", "brotli", "lz4", "xz"]
  }

  // -------------------------------------------------------------- options

  /** Whether the concatenation order is symmetrised. */
  datatype Symmetry = None | Min

  /** `NcdOptions`. */
  datatype NcdOptions = NcdOptions(join: Join, symmetry: Symmetry, clamp01: bool)

  /** `NcdOptions::default()`: Frame64, symmetric by `Min`, unclamped. */
  function DefaultOptions(): (o: NcdOptions)
    ensures o.join == Frame64 && o.symmetry == Min && !o.clamp01
  {
    NcdOptions(Frame64, Min, false)
  }

  // ------------------------------------------------------------- distance

  function MinNat(a: nat, b: nat): nat {
    if a <= b then a else b
  }

  function MaxNat(a: nat, b: nat): nat {
    if a <= b then b else a
  }

  /** `f64::clamp(0.0, 1.0)`. */
  function Clamp01(d: real): (r: real)
    ensures 0.0 <= r <= 1.0
    ensures 0.0 <= d <= 1.0 ==> r == d
  {
    if d < 0.0 then 0.0 else if d > 1.0 then 1.0 else d
  }

  /** The joint size the policy uses: C(x‖y), or min(C(x‖y), C(y‖x)) under `Min`. */
  function CatSize(size: seq<byte> -> nat, x: seq<byte>, y: seq<byte>, opts: NcdOptions): nat {
    var cxy := size(JoinBytes(x, y, opts.join));
    match opts.symmetry
    case None => cxy
    case Min => MinNat(cxy, size(JoinBytes(y, x, opts.join)))
  }

  /**
   * The value `ncd_from_sizes` returns, given the singleton sizes `cx` and `cy`.
   * Over the reals the NaN test of the source is the identity: the quotient is
   * only formed when the denominator is positive.
   */
  function DistanceFromSizes(size: seq<byte> -> nat, x: seq<byte>, y: seq<byte>,
                             cx: nat, cy: nat, opts: NcdOptions): (d: real)
    ensures MaxNat(cx, cy) == 0 ==> d == 0.0
    ensures opts.clamp01 ==> 0.0 <= d <= 1.0
  {
    var mn := MinNat(cx, cy);
    var mx := MaxNat(cx, cy);
    if mx == 0 then 0.0
    else
      var raw := (CatSize(size, x, y, opts) - mn) as real / mx as real;
      if opts.clamp01 then Clamp01(raw) else raw
  }

  /** The value `ncd` returns: the distance with the singleton sizes computed by the codec. */
  function Distance(size: seq<byte> -> nat, x: seq<byte>, y: seq<byte>, opts: NcdOptions): real {
    DistanceFromSizes(size, x, y, size(x), size(y), opts)
  }

  /** Joined buffers per cell: one under `None`, two under `Min`. */
  function PerCell(s: Symmetry): nat {
    match s
    case None => 1
    case Min => 2
  }

  /** The joined buffers `ncd_from_sizes` compresses, in order. */
  function JoinCalls(x: seq<byte>, y: seq<byte>, cx: nat, cy: nat, opts: NcdOptions): seq<seq<byte>> {
    if MaxNat(cx, cy) == 0 then []
    else
      match opts.symmetry
      case None => [JoinBytes(x, y, opts.join)]
      case Min => [JoinBytes(x, y, opts.join), JoinBytes(y, x, opts.join)]
  }

  /** `ncd_from_sizes`. */
  method NcdFromSizes(c: Compressor, x: seq<byte>, y: seq<byte>, cx: nat, cy: nat, opts: NcdOptions)
    returns (d: real)
    modifies c
    ensures d == DistanceFromSizes(c.codec.size, x, y, cx, cy, opts)
    ensures c.log == old(c.log) + JoinCalls(x, y, cx, cy, opts)
  {
    var mn := MinNat(cx, cy);
    var mx := MaxNat(cx, cy);
    if mx == 0 {
      return 0.0;
    }
    var cxy := c.CompressedLen(JoinBytes(x, y, opts.join));
    var ccat: nat;
    match opts.symmetry {
      case None =>
        ccat := cxy;
      case Min =>
        var cyx := c.CompressedLen(JoinBytes(y, x, opts.join));
        ccat := MinNat(cxy, cyx);
    }
    d := (ccat - mn) as real / mx as real;
    if opts.clamp01 {
      d := Clamp01(d);
    }
  }

  /** `ncd`: compresses x, then y, then the joined buffer(s). */
  method Ncd(c: Compressor, x: seq<byte>, y: seq<byte>, opts: NcdOptions) returns (d: real)
    modifies c
    ensures d == Distance(c.codec.size, x, y, opts)
    ensures c.log == old(c.log) + [x, y] + JoinCalls(x, y, c.codec.size(x), c.codec.size(y), opts)
  {
    var cx := c.CompressedLen(x);
    var cy := c.CompressedLen(y);
    d := NcdFromSizes(c, x, y, cx, cy, opts);
  }

  // --------------------------------------------------------------- lemmas

  /**
   * No joined buffer is compressed exactly when both singleton sizes are 0;
   * otherwise one is compressed under `None` and two under `Min`.
   */
  lemma JoinCallsCount(x: seq<byte>, y: seq<byte>, cx: nat, cy: nat, opts: NcdOptions)
    ensures JoinCalls(x, y, cx, cy, opts) == [] <==> MaxNat(cx, cy) == 0
    ensures MaxNat(cx, cy) > 0 ==> |JoinCalls(x, y, cx, cy, opts)| == PerCell(opts.symmetry)
    ensures MaxNat(cx, cy) > 0 ==> JoinCalls(x, y, cx, cy, opts)[0] == JoinBytes(x, y, opts.join)
  {
  }

  /** Under `Min` the distance does not depend on the order of its operands. */
  lemma DistanceSymmetric(size: seq<byte> -> nat, x: seq<byte>, y: seq<byte>, opts: NcdOptions)
    requires opts.symmetry == Min
    ensures Distance(size, x, y, opts) == Distance(size, y, x, opts)
  {
    assert CatSize(size, x, y, opts) == CatSize(size, y, x, opts);
    assert MinNat(size(x), size(y)) == MinNat(size(y), size(x));
    assert MaxNat(size(x), size(y)) == MaxNat(size(y), size(x));
  }

  /**
   * Without clamping nothing is clipped: when a singleton size is positive the
   * distance times max(cx, cy) is exactly the joint size minus min(cx, cy).
   */
  lemma UnclampedIsRatio(size: seq<byte> -> nat, x: seq<byte>, y: seq<byte>,
                         cx: nat, cy: nat, opts: NcdOptions)
    requires !opts.clamp01 && MaxNat(cx, cy) > 0
    ensures DistanceFromSizes(size, x, y, cx, cy, opts) * MaxNat(cx, cy) as real
         == (CatSize(size, x, y, opts) - MinNat(cx, cy)) as real
  {
  }

  /**
   * The distance lies in [0, 1] even unclamped for a compressor that behaves
   * like an ideal one on this pair: C(x),C(y) bound the joint size from below by
   * their minimum and from above by their sum.
   */
  lemma DistanceInUnitInterval(size: seq<byte> -> nat, x: seq<byte>, y: seq<byte>,
                               cx: nat, cy: nat, opts: NcdOptions)
    requires MinNat(cx, cy) <= CatSize(size, x, y, opts) <= cx + cy
    ensures 0.0 <= DistanceFromSizes(size, x, y, cx, cy, opts) <= 1.0
  {
    var mx := MaxNat(cx, cy);
    if mx > 0 {
      var num := (CatSize(size, x, y, opts) - MinNat(cx, cy)) as real;
      assert 0.0 <= num <= mx as real;
      QuotientInUnit(num, mx as real);
    }
  }

  lemma QuotientInUnit(num: real, den: real)
    requires 0.0 <= num <= den && den > 0.0
    ensures 0.0 <= num / den <= 1.0
  {
  }

  /** Two inputs that compress to nothing are at distance 0, and no join is compressed. */
  lemma DistanceOfTrivialInputs(size: seq<byte> -> nat, x: seq<byte>, y: seq<byte>, opts: NcdOptions)
    requires size(x) == 0 && size(y) == 0
    ensures Distance(size, x, y, opts) == 0.0
    ensures JoinCalls(x, y, size(x), size(y), opts) == []
  {
  }
}
