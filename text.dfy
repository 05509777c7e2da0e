/**
 * Text helpers shared by the two matrix formatters: joining strings with a
 * separator (Rust `join`, JavaScript `Array.prototype.join`), newline
 * terminated lines, and splitting text back at a character, which is how the
 * line structure of a formatted matrix is stated.
 */
module Text {

  /** `parts.join(sep)`: the parts with `sep` between neighbours; empty for no parts. */
  function Join(parts: seq<string>, sep: string): string {
    if |parts| == 0 then ""
    else if |parts| == 1 then parts[0]
    else parts[0] + sep + Join(parts[1..], sep)
  }

  /** Each line followed by a newline. */
  function Terminated(lines: seq<string>): string {
    if |lines| == 0 then "" else lines[0] + "\n" + Terminated(lines[1..])
  }

  /** Each part preceded by the separator character, as a row of values after its label. */
  function Prefixed(parts: seq<string>, sep: char): string {
    if |parts| == 0 then "" else [sep] + parts[0] + Prefixed(parts[1..], sep)
  }

  /** `s.split(c)`: the pieces between occurrences of `c`; one piece more than there are `c`s. */
  function Split(s: string, c: char): (r: seq<string>)
    ensures |r| > 0
  {
    if |s| == 0 then [""]
    else
      var rest := Split(s[1..], c);
      if s[0] == c then [""] + rest else [[s[0]] + rest[0]] + rest[1..]
  }

  /** The number of occurrences of `c` in `s`. */
  function Count(s: string, c: char): nat {
    if |s| == 0 then 0 else (if s[0] == c then 1 else 0) + Count(s[1..], c)
  }

  /** No part contains `c`. */
  predicate Free(parts: seq<string>, c: char) {
    forall i :: 0 <= i < |parts| ==> c !in parts[i]
  }

  // -------------------------------------------------------------- lemmas

  lemma {:induction false} SplitCount(s: string, c: char)
    ensures |Split(s, c)| == Count(s, c) + 1
  {
    if |s| > 0 {
      SplitCount(s[1..], c);
    }
  }

  lemma {:induction false} SplitFree(a: string, c: char)
    requires c !in a
    ensures Split(a, c) == [a]
  {
    if |a| > 0 {
      assert c !in a[1..];
      SplitFree(a[1..], c);
      assert [a[0]] + a[1..] == a;
    }
  }

  /** Splitting at the first `c` separates the piece before it. */
  lemma {:induction false} SplitAt(a: string, b: string, c: char)
    requires c !in a
    ensures Split(a + [c] + b, c) == [a] + Split(b, c)
  {
    if |a| == 0 {
      assert a + [c] + b == [c] + b;
      assert ([c] + b)[1..] == b;
    } else {
      var s := a + [c] + b;
      assert s[1..] == a[1..] + [c] + b;
      assert c !in a[1..];
      SplitAt(a[1..], b, c);
      assert [a[0]] + a[1..] == a;
    }
  }

  /** Joining with a character that no part contains can be undone by splitting. */
  lemma {:induction false} SplitJoin(parts: seq<string>, c: char)
    requires |parts| > 0 && Free(parts, c)
    ensures Split(Join(parts, [c]), c) == parts
  {
    if |parts| == 1 {
      SplitFree(parts[0], c);
    } else {
      SplitJoin(parts[1..], c);
      SplitAt(parts[0], Join(parts[1..], [c]), c);
    }
  }

  /** Newline-terminated lines that contain no newline split into the lines and a final empty piece. */
  lemma {:induction false} SplitTerminated(lines: seq<string>)
    requires Free(lines, '\n')
    ensures Split(Terminated(lines), '\n') == lines + [""]
  {
    if |lines| > 0 {
      SplitTerminated(lines[1..]);
      SplitAt(lines[0], Terminated(lines[1..]), '\n');
    }
  }

  lemma {:induction false} JoinSnoc(parts: seq<string>, x: string, sep: string)
    requires |parts| > 0
    ensures Join(parts + [x], sep) == Join(parts, sep) + sep + x
  {
    if |parts| > 1 {
      assert (parts + [x])[1..] == parts[1..] + [x];
      JoinSnoc(parts[1..], x, sep);
    } else {
      assert (parts + [x])[1..] == [x];
    }
  }

  /** A label followed by prefixed values is the join of the label and the values. */
  lemma {:induction false} JoinCons(x: string, parts: seq<string>, sep: char)
    ensures Join([x] + parts, [sep]) == x + Prefixed(parts, sep)
    decreases |parts|
  {
    if |parts| > 0 {
      assert ([x] + parts)[1..] == parts;
      JoinCons(parts[0], parts[1..], sep);
      assert [parts[0]] + parts[1..] == parts;
    }
  }

  lemma {:induction false} PrefixedSnoc(parts: seq<string>, x: string, sep: char)
    ensures Prefixed(parts + [x], sep) == Prefixed(parts, sep) + [sep] + x
  {
    if |parts| > 0 {
      assert (parts + [x])[1..] == parts[1..] + [x];
      PrefixedSnoc(parts[1..], x, sep);
    } else {
      assert parts + [x] == [x];
    }
  }

  lemma {:induction false} TerminatedSnoc(lines: seq<string>, x: string)
    ensures Terminated(lines + [x]) == Terminated(lines) + x + "\n"
  {
    if |lines| > 0 {
      assert (lines + [x])[1..] == lines[1..] + [x];
      TerminatedSnoc(lines[1..], x);
    } else {
      assert lines + [x] == [x];
    }
  }

  /** A character occurs in a join only if it occurs in a part or in the separator. */
  lemma {:induction false} JoinFree(parts: seq<string>, sep: string, c: char)
    requires Free(parts, c) && c !in sep
    ensures c !in Join(parts, sep)
  {
    if |parts| > 1 {
      JoinFree(parts[1..], sep, c);
    }
  }
}
