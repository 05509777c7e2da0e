/**
 * Sequence helpers used by the three matrix engines: row-major flattening of a
 * grid, and the list of first occurrences that a content-keyed cache produces;
 * and the integer minimum and maximum used to clip counts and indices.
 */
module SeqUtil {

  function Max(x: int, y: int): int {
    if x >= y then x else y
  }

  function Min(x: int, y: int): int {
    if x <= y then x else y
  }

  /** The set of elements of a sequence. */
  function Elements<T>(s: seq<T>): set<T> {
    set x | x in s
  }

  lemma ElementsSnoc<T>(s: seq<T>, x: T)
    ensures Elements(s + [x]) == Elements(s) + {x}
  {
  }

  /** Concatenation of the rows of a grid, row 0 first. */
  function Flatten<T>(ss: seq<seq<T>>): seq<T> {
    if ss == [] then [] else Flatten(ss[..|ss| - 1]) + ss[|ss| - 1]
  }

  /** Every row of `ss` has exactly `m` entries. */
  predicate Rectangular<T>(ss: seq<seq<T>>, m: nat) {
    forall i :: 0 <= i < |ss| ==> |ss[i]| == m
  }

  lemma FlattenSnoc<T>(ss: seq<seq<T>>, s: seq<T>)
    ensures Flatten(ss + [s]) == Flatten(ss) + s
  {
    assert (ss + [s])[..|ss|] == ss;
  }

  lemma AppendAssoc<T>(x: seq<T>, y: seq<T>, z: seq<T>)
    ensures (x + y) + z == x + (y + z)
  {
  }

  lemma MulSucc(n: nat, m: nat)
    ensures (n + 1) * m == n * m + m
    ensures m * (n + 1) == m * n + m
  {
  }

  lemma MulMonotone(x: nat, y: nat, m: nat)
    requires x <= y
    ensures x * m <= y * m
  {
  }

  /** A running log that has received `ss[..i]` and then `ss[i]` has received `ss[..i + 1]`. */
  lemma FlattenStep<T>(ss: seq<seq<T>>, i: nat, log0: seq<T>, log: seq<T>, log': seq<T>)
    requires i < |ss|
    requires log == log0 + Flatten(ss[..i]) && log' == log + ss[i]
    ensures log' == log0 + Flatten(ss[..i + 1])
  {
    assert ss[..i + 1] == ss[..i] + [ss[i]];
    FlattenSnoc(ss[..i], ss[i]);
  }

  /** A running log that has received `s[..j]` and then `s[j]` has received `s[..j + 1]`. */
  lemma PrefixStep<T>(s: seq<T>, j: nat, log0: seq<T>, log: seq<T>, log': seq<T>)
    requires j < |s|
    requires log == log0 + s[..j] && log' == log + [s[j]]
    ensures log' == log0 + s[..j + 1]
  {
    assert s[..j + 1] == s[..j] + [s[j]];
  }

  lemma {:induction false} FlattenLength<T>(ss: seq<seq<T>>, m: nat)
    requires Rectangular(ss, m)
    ensures |Flatten(ss)| == |ss| * m
  {
    if ss != [] {
      var init := ss[..|ss| - 1];
      FlattenLength(init, m);
      MulSucc(|init|, m);
    }
  }

  /** Entry (i, j) of a rectangular grid sits at position i * m + j of its flattening. */
  lemma {:induction false} FlattenIndex<T>(ss: seq<seq<T>>, m: nat, i: nat, j: nat)
    requires Rectangular(ss, m)
    requires i < |ss| && j < m
    ensures i * m + j < |Flatten(ss)|
    ensures Flatten(ss)[i * m + j] == ss[i][j]
  {
    var init := ss[..|ss| - 1];
    FlattenLength(init, m);
    if i == |ss| - 1 {
      assert i * m == |Flatten(init)|;
    } else {
      FlattenIndex(init, m, i, j);
      MulSucc(i, m);
      MulMonotone(i + 1, |init|, m);
    }
  }

  /**
   * The elements of `s` that are not in `seen`, each taken once, at its first
   * occurrence, in order. This is the sequence of cache misses of a cache that
   * starts with the keys `seen` and is then looked up with every element of `s`.
   */
  function FirstOccurrences<T>(s: seq<T>, seen: set<T>): seq<T> {
    if s == [] then []
    else
      var init := FirstOccurrences(s[..|s| - 1], seen);
      var x := s[|s| - 1];
      if x in seen || x in s[..|s| - 1] then init else init + [x]
  }

  /** Looking up one more element adds it to the misses exactly when it is new. */
  lemma FirstOccurrencesSnoc<T>(s: seq<T>, x: T, seen: set<T>)
    ensures FirstOccurrences(s + [x], seen)
         == FirstOccurrences(s, seen) + (if x in seen + Elements(s) then [] else [x])
  {
    assert (s + [x])[..|s|] == s;
  }

  /** The misses are exactly the new elements, without repetition. */
  lemma {:induction false} FirstOccurrencesContents<T>(s: seq<T>, seen: set<T>)
    ensures Elements(FirstOccurrences(s, seen)) == Elements(s) - seen
    ensures |FirstOccurrences(s, seen)| == |Elements(s) - seen|
  {
    if s != [] {
      var init := s[..|s| - 1];
      var x := s[|s| - 1];
      assert s == init + [x];
      FirstOccurrencesContents(init, seen);
      var f := FirstOccurrences(init, seen);
      assert Elements(s) == Elements(init) + {x};
      if x in seen || x in init {
        assert Elements(s) - seen == Elements(init) - seen;
      } else {
        assert Elements(s) - seen == (Elements(init) - seen) + {x};
        assert x !in Elements(init) - seen;
        assert Elements(f + [x]) == Elements(f) + {x};
      }
    }
  }

  /** Running a cache over `s` and then over `t` misses what one pass over `s + t` misses. */
  lemma {:induction false} FirstOccurrencesAppend<T>(s: seq<T>, t: seq<T>, seen: set<T>)
    ensures FirstOccurrences(s, seen) + FirstOccurrences(t, seen + Elements(s))
         == FirstOccurrences(s + t, seen)
  {
    if t == [] {
      assert s + t == s;
    } else {
      var init := t[..|t| - 1];
      var y := t[|t| - 1];
      FirstOccurrencesAppend(s, init, seen);
      assert t == init + [y];
      assert s + t == (s + init) + [y];
      FirstOccurrencesSnoc(init, y, seen + Elements(s));
      FirstOccurrencesSnoc(s + init, y, seen);
      assert Elements(s + init) == Elements(s) + Elements(init);
    }
  }
}
