/**
 * The content-keyed singleton size cache of the TypeScript matrix code:
 * `sizeOf` in `matrixAuto` (src/api.ts) and `getSize` in `computeMatrix`
 * (src/matrix.ts). Both key a `Map` by the sha256 hex digest of a buffer,
 * modelled by the buffer itself (the hash taken to be injective), and store
 * the byte length of the compressed buffer.
 */
module TsCache {
  import opened Bytes
  import opened SeqUtil
  import opened TsNcd
  import NcdMatrix

  /** Every cached entry is the compressed length of its key. */
  ghost predicate CacheValid(cache: map<seq<byte>, nat>, compress: seq<byte> -> seq<byte>) {
    forall k :: k in cache ==> cache[k] == |compress(k)|
  }

  /**
   * One lookup: on a hit the stored size, with no compression; on a miss the
   * compressed length, which is then stored.
   */
  method SizeOf(c: Compressor, x: seq<byte>, cache0: map<seq<byte>, nat>)
    returns (n: nat, cache: map<seq<byte>, nat>)
    requires CacheValid(cache0, c.compress)
    modifies c
    ensures n == |c.compress(x)|
    ensures cache.Keys == cache0.Keys + {x} && CacheValid(cache, c.compress)
    ensures c.log == old(c.log) + (if x in cache0 then [] else [x])
  {
    if x in cache0 {
      n := cache0[x];
      cache := cache0;
      return;
    }
    var out := c.Compress(x);
    n := |out|;
    cache := cache0[x := n];
  }

  /**
   * `xs.map(sizeOf)`: the compressed length of every buffer, in order, each
   * content compressed only the first time it is met. The awaits of
   * `Promise.all` in `computeMatrix` resume in call order, so the lookups
   * happen one after another as here.
   */
  method Sizes(c: Compressor, xs: seq<seq<byte>>, cache0: map<seq<byte>, nat>)
    returns (sizes: seq<nat>, cache: map<seq<byte>, nat>)
    requires CacheValid(cache0, c.compress)
    modifies c
    ensures CacheValid(cache, c.compress)
    ensures cache.Keys == cache0.Keys + Elements(xs)
    ensures |sizes| == |xs|
    ensures forall i {:trigger sizes[i]} :: 0 <= i < |xs| ==> sizes[i] == |c.compress(xs[i])|
    ensures c.log == old(c.log) + FirstOccurrences(xs, cache0.Keys)
  {
    cache := cache0;
    sizes := [];
    for i := 0 to |xs|
      invariant CacheValid(cache, c.compress)
      invariant cache.Keys == cache0.Keys + Elements(xs[..i])
      invariant |sizes| == i
      invariant forall k {:trigger sizes[k]} :: 0 <= k < i ==> sizes[k] == |c.compress(xs[k])|
      invariant c.log == old(c.log) + FirstOccurrences(xs[..i], cache0.Keys)
    {
      var n;
      n, cache := Next(c, xs, i, cache0.Keys, cache, old(c.log));
      sizes := sizes + [n];
    }
    assert xs[..|xs|] == xs;
  }

  /** The body of the pass: the lookup of `xs[i]`, after which the cache and the log cover `xs[..i + 1]`. */
  method Next(c: Compressor, xs: seq<seq<byte>>, i: nat, seen: set<seq<byte>>,
              cache0: map<seq<byte>, nat>, ghost log0: seq<seq<byte>>)
    returns (n: nat, cache: map<seq<byte>, nat>)
    requires i < |xs| && CacheValid(cache0, c.compress) && cache0.Keys == seen + Elements(xs[..i])
    requires c.log == log0 + FirstOccurrences(xs[..i], seen)
    modifies c
    ensures n == |c.compress(xs[i])|
    ensures CacheValid(cache, c.compress) && cache.Keys == seen + Elements(xs[..i + 1])
    ensures c.log == log0 + FirstOccurrences(xs[..i + 1], seen)
  {
    ghost var log := c.log;
    n, cache := SizeOf(c, xs[i], cache0);
    NcdMatrix.CacheStep(cache0.Keys, seen, xs, i, log0, log, c.log);
  }

  /** The pass over `a` from an empty cache and then over `b`: sizes of both, first occurrences of a ++ b. */
  method SingletonSizes(c: Compressor, a: seq<seq<byte>>, b: seq<seq<byte>>)
    returns (aSizes: seq<nat>, bSizes: seq<nat>)
    modifies c
    ensures |aSizes| == |a| && forall i {:trigger aSizes[i]} :: 0 <= i < |a| ==> aSizes[i] == |c.compress(a[i])|
    ensures |bSizes| == |b| && forall j {:trigger bSizes[j]} :: 0 <= j < |b| ==> bSizes[j] == |c.compress(b[j])|
    ensures c.log == old(c.log) + FirstOccurrences(a + b, {})
  {
    var empty: map<seq<byte>, nat> := map[];
    assert empty.Keys == {};
    var cache;
    aSizes, cache := Sizes(c, a, empty);
    bSizes, cache := Sizes(c, b, cache);
    NcdMatrix.SingletonPasses(a, b);
  }
}
