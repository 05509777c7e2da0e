/**
 * The Python distance (python/src/ncdprime/core/ncd.py) over the compressor
 * plugin interface (python/src/ncdprime/compressors/base.py): three
 * compressions, x, y and x‖0x00‖y, and the unclipped normalized compression
 * distance. A plugin reports its compressed size as any `int`; its wall time
 * is an abstract function of the input, which `compute_ncd` ignores.
 */
module PyNcd {
  import opened Bytes
  import TsNcd

  /** `CompressResult`. */
  datatype CompressResult = CompressResult(compressedBytes: int, wallTimeS: real)

  /** A compressor plugin, with a ghost log of every buffer it was asked to compress. */
  class Compressor {
    const name: string
    const size: seq<byte> -> int
    const timer: seq<byte> -> real
    ghost var log: seq<seq<byte>>

    constructor (name: string, size: seq<byte> -> int, timer: seq<byte> -> real)
      ensures this.name == name && this.size == size && this.timer == timer && log == []
    {
      this.name := name;
      this.size := size;
      this.timer := timer;
      log := [];
    }

    /** `compress(data)`: its size and wall time; one more entry in the log. */
    method Compress(data: seq<byte>) returns (r: CompressResult)
      modifies this
      ensures r.compressedBytes == size(data) && r.wallTimeS == timer(data)
      ensures log == old(log) + [data]
    {
      r := CompressResult(size(data), timer(data));
      log := log + [data];
    }
  }

  /** `NcdResult`: the three sizes and the distance. */
  datatype NcdResult = NcdResult(cX: int, cY: int, cXY: int, ncd: real)

  /** The distance of `compute_ncd`: 0 when max(c_x, c_y) is not positive, otherwise unclipped. */
  function PyDistance(cx: int, cy: int, cxy: int): (d: real)
    ensures (if cx <= cy then cy else cx) <= 0 ==> d == 0.0
  {
    var denom := if cx <= cy then cy else cx;
    var mn := if cx <= cy then cx else cy;
    if denom <= 0 then 0.0 else (cxy - mn) as real / denom as real
  }

  /** `compute_ncd`: compresses x, y and x + b"\0" + y, in that order, and nothing else. */
  method ComputeNcd(compressor: Compressor, x: seq<byte>, y: seq<byte>) returns (r: NcdResult)
    modifies compressor
    ensures r.cX == compressor.size(x) && r.cY == compressor.size(y)
    ensures r.cXY == compressor.size(x + [0] + y)
    ensures r.ncd == PyDistance(r.cX, r.cY, r.cXY)
    ensures compressor.log == old(compressor.log) + [x, y, x + [0] + y]
  {
    var rx := compressor.Compress(x);
    var ry := compressor.Compress(y);
    var rxy := compressor.Compress(x + [0] + y);
    var cx, cy, cxy := rx.compressedBytes, ry.compressedBytes, rxy.compressedBytes;
    var denom := if cx <= cy then cy else cx;
    var mn := if cx <= cy then cx else cy;
    var ncd := if denom <= 0 then 0.0 else (cxy - mn) as real / denom as real;
    r := NcdResult(cx, cy, cxy, ncd);
  }

  // -------------------------------------------------------------- lemmas

  /**
   * With a positive denominator nothing is clipped: the distance is negative
   * exactly when c_xy < min(c_x, c_y) and above 1 exactly when c_xy > c_x + c_y.
   */
  lemma PyDistanceRange(cx: int, cy: int, cxy: int)
    requires cx > 0 || cy > 0
    ensures PyDistance(cx, cy, cxy) < 0.0 <==> cxy < (if cx <= cy then cx else cy)
    ensures PyDistance(cx, cy, cxy) > 1.0 <==> cxy > cx + cy
  {
    var denom := if cx <= cy then cy else cx;
    var mn := if cx <= cy then cx else cy;
    TsNcd.RatioSign((cxy - mn) as real, denom as real);
    assert mn + denom == cx + cy;
  }

  /**
   * With sizes that are byte lengths of one compression function, the Python
   * and the TypeScript distances agree: same sentinel join, same formula.
   */
  lemma AgreesWithTs(compress: seq<byte> -> seq<byte>, x: seq<byte>, y: seq<byte>)
    ensures PyDistance(|compress(x)|, |compress(y)|, |compress(x + [0] + y)|) == TsNcd.TsDistance(compress, x, y)
  {
    assert x + [0] + y == TsNcd.SentinelJoin(x, y);
  }
}
