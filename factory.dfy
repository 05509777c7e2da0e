/**
 * Choosing a compressor by name (rust/ncdprime-core/src/factory.rs): the
 * serializable compressor description, its identifier, turning it into a
 * codec, and parsing a user-supplied identifier plus tuning knobs.
 */
module Factory {
  import Wrappers
  import opened Bytes
  import opened NcdCore

  /** `CompressorSpec`: which codec, with its own parameters. */
  datatype CompressorSpec =
    | Gzip(level: u32)
    | Zstd(zstdLevel: i32)
    | Brotli(quality: u32, lgwin: u32)
    | Lz4(accel: i32)
    | Xz(level: u32)
  {
    /** `id`: the identifier of the codec family; always one `compressor_ids` lists. */
    function Id(): (id: string)
      ensures id in CompressorIds()
    {
      match this
      case Gzip(_) => "gzip"
      case Zstd(_) => "zstd"
      case Brotli(_, _) => "brotli"
      case Lz4(_) => "lz4"
      case Xz(_) => "xz"
    }

    /** `build`: the codec this description stands for; it reports the same identifier. */
    function Build(family: CodecFamily): (c: Codec)
      ensures c.id == Id()
    {
      match this
      case Gzip(level) => GzipCodec(family, level)
      case Zstd(level) => ZstdCodec(family, level)
      case Brotli(quality, lgwin) => BrotliCodec(family, quality, lgwin)
      case Lz4(accel) => Lz4Codec(family, accel)
      case Xz(level) => XzCodec(family, level)
    }
  }

  /** `CompressorSpec::default()`. */
  function DefaultSpec(): CompressorSpec {
    Gzip(9)
  }

  /** The kinds of `std::io::Error` this module produces. */
  datatype IoErrorKind = InvalidInput

  datatype IoError = IoError(kind: IoErrorKind, message: string)

  /**
   * `parse_compressor`: the description named by `id`, taking from the knobs
   * only those that belong to that codec; an `InvalidInput` error naming the
   * identifier when it is not one of `compressor_ids`.
   */
  function ParseCompressor(id: string, gzipLevel: u32, zstdLevel: i32, brotliQuality: u32,
                           brotliLgwin: u32, lz4Accel: i32, xzLevel: u32)
    : (r: Wrappers.Result<CompressorSpec, IoError>)
    ensures r.Ok? <==> id in CompressorIds()
    ensures r.Ok? ==> r.value.Id() == id
    ensures r.Err? ==> r.error == IoError(InvalidInput, "unknown compressor id: " + id)
  {
    if id == "gzip" then Wrappers.Ok(Gzip(gzipLevel))
    else if id == "zstd" then Wrappers.Ok(Zstd(zstdLevel))
    else if id == "brotli" then Wrappers.Ok(Brotli(brotliQuality, brotliLgwin))
    else if id == "lz4" then Wrappers.Ok(Lz4(lz4Accel))
    else if id == "xz" then Wrappers.Ok(Xz(xzLevel))
    else Wrappers.Err(IoError(InvalidInput, "unknown compressor id: " + id))
  }

  // -------------------------------------------------------------- lemmas

  /**
   * Parsing the identifier of a description, with knobs that carry that
   * description's parameters, gives the description back, whatever the
   * knobs of the other codecs say.
   */
  lemma ParseRoundTrip(spec: CompressorSpec, gzipLevel: u32, zstdLevel: i32, brotliQuality: u32,
                       brotliLgwin: u32, lz4Accel: i32, xzLevel: u32)
    requires spec == Gzip(gzipLevel) || spec == Zstd(zstdLevel) || spec == Brotli(brotliQuality, brotliLgwin)
          || spec == Lz4(lz4Accel) || spec == Xz(xzLevel)
    ensures ParseCompressor(spec.Id(), gzipLevel, zstdLevel, brotliQuality, brotliLgwin, lz4Accel, xzLevel)
         == Wrappers.Ok(spec)
  {
  }

  /** The default description is gzip at level 9. */
  lemma DefaultIsGzip9(family: CodecFamily)
    ensures DefaultSpec().Id() == "gzip"
    ensures DefaultSpec().Build(family).size == family.gzip(9)
  {
  }

  /** The lz4 acceleration is carried but never changes the sizes. */
  lemma Lz4AccelIsInert(family: CodecFamily, a1: i32, a2: i32)
    ensures Lz4(a1).Build(family).size == Lz4(a2).Build(family).size
  {
  }
}
