/**
 * The TypeScript library entry points (src/api.ts): `ncdAuto` and
 * `matrixAuto` prefer the native binding when it loads, refuse a non-zero
 * gzip mtime without it, and otherwise compute with gzip in JavaScript. The
 * result of `tryLoadNative()` is a parameter; a thrown `Error` is an `Err`
 * carrying its message. `ncdFromSizes` is imported from ./ncd.js, which is
 * src/ncd.ts (module TsNcd), but the text of that file defines neither it nor
 * `joinFrame64`; `ncdFromSizes` is therefore an abstract function of the
 * compression function, the two buffers and their singleton sizes.
 */
module TsApi {
  import opened Wrappers
  import opened Bytes
  import opened SeqUtil
  import opened TsNcd
  import opened TsCache

  /** `NcdApiOptions` / `MatrixOptions`: both knobs optional. */
  datatype Options = Options(gzipLevel: Option<int>, gzipMtime: Option<int>)

  /** `opts.gzipLevel ?? 6`. */
  function Level(opts: Options): int {
    if opts.gzipLevel.Some? then opts.gzipLevel.value else 6
  }

  /** `opts.gzipMtime ?? 0`. */
  function Mtime(opts: Options): int {
    if opts.gzipMtime.Some? then opts.gzipMtime.value else 0
  }

  /** The native binding's two calls, taking the level and the mtime. */
  datatype Native = Native(
    ncd: (seq<byte>, seq<byte>, int, int) -> real,
    matrix: (seq<seq<byte>>, seq<seq<byte>>, int, int) -> seq<seq<real>>)

  /** The message of the error thrown when an mtime is asked for without the native binding. */
  const MtimeError: string := "Nonzero gzipMtime requires native backend"

  /** The abstract `ncdFromSizes(c, x, y, cx, cy)`. */
  type FromSizes = (seq<byte> -> seq<byte>, seq<byte>, seq<byte>, nat, nat) -> real

  /** What `ncdAuto` returns or throws. */
  function NcdAutoResult(x: seq<byte>, y: seq<byte>, opts: Options, native: Option<Native>,
                         gzip: int -> (seq<byte> -> seq<byte>)): (r: Result<real, string>)
    ensures native.Some? ==> r == Ok(native.value.ncd(x, y, Level(opts), Mtime(opts)))
    ensures r.Err? <==> native.None? && Mtime(opts) != 0
    ensures r.Err? ==> r.error == MtimeError
    ensures native.None? && r.Ok? ==> r.value == TsDistance(gzip(Level(opts)), x, y)
  {
    if native.Some? then Ok(native.value.ncd(x, y, Level(opts), Mtime(opts)))
    else if Mtime(opts) != 0 then Err(MtimeError)
    else Ok(TsDistance(gzip(Level(opts)), x, y))
  }

  /** `ncdAuto`. */
  method NcdAuto(x: seq<byte>, y: seq<byte>, opts: Options, native: Option<Native>,
                 gzip: int -> (seq<byte> -> seq<byte>)) returns (r: Result<real, string>)
    ensures r == NcdAutoResult(x, y, opts, native, gzip)
  {
    var gzipLevel := if opts.gzipLevel.Some? then opts.gzipLevel.value else 6;
    var gzipMtime := if opts.gzipMtime.Some? then opts.gzipMtime.value else 0;
    if native.Some? {
      return Ok(native.value.ncd(x, y, gzipLevel, gzipMtime));
    }
    if gzipMtime != 0 {
      return Err(MtimeError);
    }
    var c := GzipCompressor(gzip, gzipLevel);
    var d := Ncd(c, x, y);
    r := Ok(d);
  }

  /** The fallback matrix: entry (i, j) is `ncdFromSizes` of the pair with both correct singleton sizes. */
  function FallbackMatrix(compress: seq<byte> -> seq<byte>, fromSizes: FromSizes,
                          a: seq<seq<byte>>, b: seq<seq<byte>>): (m: seq<seq<real>>)
    ensures |m| == |a| && Rectangular(m, |b|)
    ensures forall i, j {:trigger m[i][j]} :: 0 <= i < |a| && 0 <= j < |b| ==>
      m[i][j] == fromSizes(compress, a[i], b[j], |compress(a[i])|, |compress(b[j])|)
  {
    seq(|a|, i requires 0 <= i < |a| =>
      seq(|b|, j requires 0 <= j < |b| => fromSizes(compress, a[i], b[j], |compress(a[i])|, |compress(b[j])|)))
  }

  /**
   * The pure JavaScript part of `matrixAuto`: the singleton sizes through the
   * cache, then one `ncdFromSizes` per cell. The log holds the singleton
   * compressions only; what `ncdFromSizes` compresses is not modelled.
   */
  method Fallback(c: Compressor, a: seq<seq<byte>>, b: seq<seq<byte>>, fromSizes: FromSizes)
    returns (out: seq<seq<real>>)
    modifies c
    ensures out == FallbackMatrix(c.compress, fromSizes, a, b)
    ensures c.log == old(c.log) + FirstOccurrences(a + b, {})
  {
    var aSizes, bSizes := SingletonSizes(c, a, b);
    out := [];
    for i := 0 to |a|
      invariant |out| == i
      invariant forall p {:trigger out[p]} :: 0 <= p < i ==> out[p] == FallbackMatrix(c.compress, fromSizes, a, b)[p]
    {
      var row := seq(|b|, _ => 0.0);
      for j := 0 to |b|
        invariant |row| == |b|
        invariant forall q {:trigger row[q]} :: 0 <= q < j ==>
          row[q] == fromSizes(c.compress, a[i], b[q], |c.compress(a[i])|, |c.compress(b[q])|)
      {
        row := row[j := fromSizes(c.compress, a[i], b[j], aSizes[i], bSizes[j])];
      }
      out := out + [row];
    }
  }

  /** What `matrixAuto` resolves to or rejects with. */
  function MatrixAutoResult(a: seq<seq<byte>>, b: seq<seq<byte>>, opts: Options, native: Option<Native>,
                            gzip: int -> (seq<byte> -> seq<byte>), fromSizes: FromSizes)
    : (r: Result<seq<seq<real>>, string>)
    ensures native.Some? ==> r == Ok(native.value.matrix(a, b, Level(opts), Mtime(opts)))
    ensures r.Err? <==> native.None? && Mtime(opts) != 0
    ensures r.Err? ==> r.error == MtimeError
    ensures native.None? && r.Ok? ==> r.value == FallbackMatrix(gzip(Level(opts)), fromSizes, a, b)
  {
    if native.Some? then Ok(native.value.matrix(a, b, Level(opts), Mtime(opts)))
    else if Mtime(opts) != 0 then Err(MtimeError)
    else Ok(FallbackMatrix(gzip(Level(opts)), fromSizes, a, b))
  }

  /** `matrixAuto`. */
  method MatrixAuto(a: seq<seq<byte>>, b: seq<seq<byte>>, opts: Options, native: Option<Native>,
                    gzip: int -> (seq<byte> -> seq<byte>), fromSizes: FromSizes)
    returns (r: Result<seq<seq<real>>, string>)
    ensures r == MatrixAutoResult(a, b, opts, native, gzip, fromSizes)
  {
    var gzipLevel := if opts.gzipLevel.Some? then opts.gzipLevel.value else 6;
    var gzipMtime := if opts.gzipMtime.Some? then opts.gzipMtime.value else 0;
    if native.Some? {
      return Ok(native.value.matrix(a, b, gzipLevel, gzipMtime));
    }
    if gzipMtime != 0 {
      return Err(MtimeError);
    }
    var c := GzipCompressor(gzip, gzipLevel);
    var out := Fallback(c, a, b, fromSizes);
    r := Ok(out);
  }

  // -------------------------------------------------------------- lemmas

  /** With the default options the JavaScript path never throws, and uses gzip level 6. */
  lemma DefaultsNeverThrow(x: seq<byte>, y: seq<byte>, a: seq<seq<byte>>, b: seq<seq<byte>>,
                           native: Option<Native>, gzip: int -> (seq<byte> -> seq<byte>), fromSizes: FromSizes)
    ensures Level(Options(None, None)) == 6 && Mtime(Options(None, None)) == 0
    ensures NcdAutoResult(x, y, Options(None, None), native, gzip).Ok?
    ensures MatrixAutoResult(a, b, Options(None, None), native, gzip, fromSizes).Ok?
  {
  }

  /** Both entry points reject a non-zero mtime without the native binding, with the same message. */
  lemma MtimeNeedsNative(x: seq<byte>, y: seq<byte>, a: seq<seq<byte>>, b: seq<seq<byte>>, opts: Options,
                         gzip: int -> (seq<byte> -> seq<byte>), fromSizes: FromSizes)
    requires Mtime(opts) != 0
    ensures NcdAutoResult(x, y, opts, None, gzip) == Err(MtimeError)
    ensures MatrixAutoResult(a, b, opts, None, gzip, fromSizes) == Err(MtimeError)
  {
  }
}
