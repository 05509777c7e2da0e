/**
 * The TypeScript matrix (src/matrix.ts): `computeMatrix` fills the distance
 * matrix of two input sets cell by cell with the scalar sentinel `ncd`,
 * keeping a singleton size cache it does not use for the values, and
 * `formatMatrix` writes it as TSV or CSV. `Number.prototype.toString` is an
 * abstract function `show`.
 */
module TsMatrix {
  import opened Wrappers
  import opened Bytes
  import opened SeqUtil
  import opened Text
  import opened TsNcd
  import opened TsCache
  import CliMatrix
  import NcdMatrix
  import TsApi

  /** One input: its label (`label` is a reserved word here) and its bytes. */
  datatype Item = Item(itemLabel: string, bytes: seq<byte>)

  /** `InputSet`: a name and its items, in order. */
  datatype InputSet = InputSet(name: string, items: seq<Item>)

  /** `Matrix`: row labels, column labels and the rows × cols values. */
  datatype Matrix = Matrix(rows: seq<string>, cols: seq<string>, values: seq<seq<real>>)

  function Labels(items: seq<Item>): (r: seq<string>)
    ensures |r| == |items| && forall i :: 0 <= i < |items| ==> r[i] == items[i].itemLabel
  {
    seq(|items|, i requires 0 <= i < |items| => items[i].itemLabel)
  }

  function Contents(items: seq<Item>): (r: seq<seq<byte>>)
    ensures |r| == |items| && forall i :: 0 <= i < |items| ==> r[i] == items[i].bytes
  {
    seq(|items|, i requires 0 <= i < |items| => items[i].bytes)
  }

  // ------------------------------------------------------ compute matrix

  /** Row `x` of scalar sentinel distances against the columns `b`. */
  function ScalarRow(compress: seq<byte> -> seq<byte>, x: seq<byte>, b: seq<seq<byte>>): (r: seq<real>)
    ensures |r| == |b|
    ensures forall j {:trigger r[j]} :: 0 <= j < |b| ==> r[j] == TsDistance(compress, x, b[j])
  {
    seq(|b|, j requires 0 <= j < |b| => TsDistance(compress, x, b[j]))
  }

  /** The matrix of scalar sentinel distances. */
  function ScalarMatrix(compress: seq<byte> -> seq<byte>, a: seq<seq<byte>>, b: seq<seq<byte>>)
    : (m: seq<seq<real>>)
    ensures |m| == |a| && Rectangular(m, |b|)
    ensures forall i, j {:trigger m[i][j]} :: 0 <= i < |a| && 0 <= j < |b| ==> m[i][j] == TsDistance(compress, a[i], b[j])
  {
    seq(|a|, i requires 0 <= i < |a| => ScalarRow(compress, a[i], b))
  }

  /** The buffers one scalar `ncd` compresses. */
  function CellCalls(x: seq<byte>, y: seq<byte>): seq<seq<byte>> {
    [x, y, SentinelJoin(x, y)]
  }

  /** The buffers compressed for row `x`, left to right. */
  function RowCalls(x: seq<byte>, b: seq<seq<byte>>): seq<seq<byte>> {
    if b == [] then [] else RowCalls(x, b[..|b| - 1]) + CellCalls(x, b[|b| - 1])
  }

  /** The buffers compressed for the grid, in row-major order. */
  function GridCalls(a: seq<seq<byte>>, b: seq<seq<byte>>): seq<seq<byte>> {
    if a == [] then [] else GridCalls(a[..|a| - 1], b) + RowCalls(a[|a| - 1], b)
  }

  /** The inner loop of `computeMatrix`: one scalar `ncd` per column. */
  method ComputeRow(c: Compressor, x: seq<byte>, b: seq<seq<byte>>) returns (row: seq<real>)
    modifies c
    ensures row == ScalarRow(c.compress, x, b)
    ensures c.log == old(c.log) + RowCalls(x, b)
  {
    row := [];
    for j := 0 to |b|
      invariant |row| == j
      invariant forall q {:trigger row[q]} :: 0 <= q < j ==> row[q] == TsDistance(c.compress, x, b[q])
      invariant c.log == old(c.log) + RowCalls(x, b[..j])
    {
      ghost var log := c.log;
      var d := Ncd(c, x, b[j]);
      row := row + [d];
      assert b[..j + 1][..j] == b[..j];
      AppendAssoc(old(c.log), RowCalls(x, b[..j]), CellCalls(x, b[j]));
    }
    assert b[..|b|] == b;
  }

  /** The outer loop of `computeMatrix`. */
  method ComputeGrid(c: Compressor, a: seq<seq<byte>>, b: seq<seq<byte>>) returns (values: seq<seq<real>>)
    modifies c
    ensures values == ScalarMatrix(c.compress, a, b)
    ensures c.log == old(c.log) + GridCalls(a, b)
  {
    values := [];
    for i := 0 to |a|
      invariant |values| == i
      invariant forall p {:trigger values[p]} :: 0 <= p < i ==> values[p] == ScalarRow(c.compress, a[p], b)
      invariant c.log == old(c.log) + GridCalls(a[..i], b)
    {
      var row := ComputeRow(c, a[i], b);
      values := values + [row];
      assert a[..i + 1][..i] == a[..i];
      AppendAssoc(old(c.log), GridCalls(a[..i], b), RowCalls(a[i], b));
    }
    assert a[..|a|] == a;
  }

  /**
   * `computeMatrix`: the labels of both sets, and the scalar distance of every
   * pair. The compressor first sees each distinct content of a ++ b once (the
   * singleton cache), then three buffers per cell, in row-major order.
   */
  method ComputeMatrix(c: Compressor, a: InputSet, b: InputSet) returns (m: Matrix)
    modifies c
    ensures m.rows == Labels(a.items) && m.cols == Labels(b.items)
    ensures m.values == ScalarMatrix(c.compress, Contents(a.items), Contents(b.items))
    ensures c.log == old(c.log) + FirstOccurrences(Contents(a.items) + Contents(b.items), {})
                                + GridCalls(Contents(a.items), Contents(b.items))
  {
    var rows := Labels(a.items);
    var cols := Labels(b.items);
    var xs, ys := Contents(a.items), Contents(b.items);
    var aSizes, bSizes := SingletonSizes(c, xs, ys);
    var values := ComputeGrid(c, xs, ys);
    m := Matrix(rows, cols, values);
  }

  lemma {:induction false} RowCallsCount(x: seq<byte>, b: seq<seq<byte>>)
    ensures |RowCalls(x, b)| == 3 * |b|
  {
    if b != [] {
      RowCallsCount(x, b[..|b| - 1]);
    }
  }

  lemma {:induction false} GridCallsCount(a: seq<seq<byte>>, b: seq<seq<byte>>)
    ensures |GridCalls(a, b)| == 3 * (|a| * |b|)
  {
    if a != [] {
      var init := a[..|a| - 1];
      GridCallsCount(init, b);
      RowCallsCount(a[|a| - 1], b);
      MulSucc(|init|, |b|);
      assert |GridCalls(a, b)| == 3 * (|init| * |b|) + 3 * |b|;
    }
  }

  /** `computeMatrix` compresses each distinct content once, then three buffers per cell. */
  lemma ComputeMatrixCalls(a: seq<seq<byte>>, b: seq<seq<byte>>)
    ensures |FirstOccurrences(a + b, {}) + GridCalls(a, b)| == |Elements(a + b)| + 3 * (|a| * |b|)
  {
    NcdMatrix.SingletonsDistinct(a, b);
    GridCallsCount(a, b);
  }

  /**
   * `ncdFromSizes` as its own test pins it down: given the correct singleton
   * sizes it returns what the scalar `ncd` returns.
   */
  ghost predicate MatchesNcd(compress: seq<byte> -> seq<byte>, fromSizes: TsApi.FromSizes) {
    forall x, y :: fromSizes(compress, x, y, |compress(x)|, |compress(y)|) == TsDistance(compress, x, y)
  }

  /** Such an `ncdFromSizes` makes the cached fallback matrix the scalar matrix. */
  lemma FallbackIsScalar(compress: seq<byte> -> seq<byte>, fromSizes: TsApi.FromSizes,
                         a: seq<seq<byte>>, b: seq<seq<byte>>)
    requires MatchesNcd(compress, fromSizes)
    ensures TsApi.FallbackMatrix(compress, fromSizes, a, b) == ScalarMatrix(compress, a, b)
  {
    var f := TsApi.FallbackMatrix(compress, fromSizes, a, b);
    var s := ScalarMatrix(compress, a, b);
    forall i | 0 <= i < |a|
      ensures f[i] == s[i]
    {
      assert |f[i]| == |b| == |s[i]|;
      forall j | 0 <= j < |b|
        ensures f[i][j] == s[i][j]
      {
        assert f[i][j] == fromSizes(compress, a[i], b[j], |compress(a[i])|, |compress(b[j])|);
      }
    }
  }

  /**
   * Without the native binding and with mtime 0, `matrixAuto` resolves to the
   * values `computeMatrix` produces for the same items with gzip at the level.
   */
  lemma MatrixAutoIsComputeMatrix(a: seq<Item>, b: seq<Item>, opts: TsApi.Options,
                                  gzip: int -> (seq<byte> -> seq<byte>), fromSizes: TsApi.FromSizes)
    requires TsApi.Mtime(opts) == 0
    requires MatchesNcd(gzip(TsApi.Level(opts)), fromSizes)
    ensures TsApi.MatrixAutoResult(Contents(a), Contents(b), opts, None, gzip, fromSizes)
            == Ok(ScalarMatrix(gzip(TsApi.Level(opts)), Contents(a), Contents(b)))
  {
    FallbackIsScalar(gzip(TsApi.Level(opts)), fromSizes, Contents(a), Contents(b));
  }

  // ------------------------------------------------------- format matrix

  /** A labelled line: the label, then the shown values, joined by the separator. */
  function LabelledLine(name: string, vs: seq<real>, sep: char, show: real -> string): string {
    Join([name] + CliMatrix.Shown(vs, show), [sep])
  }

  /** The lines `formatMatrix` pushes, each without its newline. */
  function FormatLines(m: Matrix, sep: char, labels: bool, show: real -> string): (ls: seq<string>)
    requires |m.values| >= |m.rows|
    ensures |ls| == |m.rows| + (if labels then 1 else 0)
  {
    if labels then
      [Join([""] + m.cols, [sep])]
        + seq(|m.rows|, r requires 0 <= r < |m.rows| => LabelledLine(m.rows[r], m.values[r], sep, show))
    else
      seq(|m.rows|, r requires 0 <= r < |m.rows| => Join(CliMatrix.Shown(m.values[r], show), [sep]))
  }

  /** `formatMatrix`: the lines joined by newlines, and one final newline. */
  method FormatMatrix(m: Matrix, format: string, labels: bool, show: real -> string) returns (out: string)
    requires |m.values| >= |m.rows|
    ensures out == Join(FormatLines(m, CliMatrix.Separator(format), labels, show), "\n") + "\n"
  {
    var sep := if format == "csv" then ',' else '\t';
    ghost var all := FormatLines(m, sep, labels, show);
    var lines: seq<string> := [];
    if labels {
      lines := lines + [Join([""] + m.cols, [sep])];
      for r := 0 to |m.rows|
        invariant lines == all[..r + 1]
      {
        lines := lines + [Join([m.rows[r]] + CliMatrix.Shown(m.values[r], show), [sep])];
      }
      assert lines == all;
    } else {
      for r := 0 to |m.rows|
        invariant lines == all[..r]
      {
        lines := lines + [Join(CliMatrix.Shown(m.values[r], show), [sep])];
      }
      assert lines == all;
    }
    out := Join(lines, "\n") + "\n";
  }

  // -------------------------------------------------------------- lemmas

  /** Joining at least one line with newlines and adding one is terminating each line. */
  lemma {:induction false} JoinTerminated(ls: seq<string>)
    requires |ls| > 0
    ensures Join(ls, "\n") + "\n" == Terminated(ls)
  {
    if |ls| > 1 {
      JoinTerminated(ls[1..]);
    } else {
      assert ls[1..] == [];
    }
  }

  /** Without labels and without rows the text is a single newline. */
  lemma FormatEmpty(cols: seq<string>, values: seq<seq<real>>, format: string, show: real -> string)
    ensures Join(FormatLines(Matrix([], cols, values), CliMatrix.Separator(format), false, show), "\n") + "\n" == "\n"
  {
    assert FormatLines(Matrix([], cols, values), CliMatrix.Separator(format), false, show) == [];
  }

  /**
   * The text reads back as its lines: the header (with labels), one line per
   * row, and a final empty piece after the last newline. (With no line at all
   * the text is a single newline, which reads back as two empty pieces.)
   */
  lemma FormatReadsBack(m: Matrix, format: string, labels: bool, show: real -> string)
    requires |m.values| >= |m.rows|
    requires CliMatrix.NewlineFree(m.rows, m.cols, m.values, show)
    requires labels || |m.rows| > 0
    ensures var ls := FormatLines(m, CliMatrix.Separator(format), labels, show);
      Split(Join(ls, "\n") + "\n", '\n') == ls + [""]
  {
    var sep := CliMatrix.Separator(format);
    var ls := FormatLines(m, sep, labels, show);
    var rust := CliMatrix.MatrixLines(m.rows, m.cols, m.values, sep, labels, show);
    SameLines(m, sep, labels, show);
    CliMatrix.MatrixLinesFree(m.rows, m.cols, m.values, sep, labels, show);
    var k := if labels then 1 else 0;
    forall p | 0 <= p < |ls|
      ensures '\n' !in ls[p]
    {
      if p >= k {
        assert ls[p] == ls[k..][p - k] == rust[k..][p - k] == rust[p];
      }
    }
    JoinTerminated(ls);
    SplitTerminated(ls);
  }

  /**
   * The TypeScript lines are the Rust lines, except for the header of an
   * empty column list: TypeScript writes it empty, Rust writes one separator.
   */
  lemma SameLines(m: Matrix, sep: char, labels: bool, show: real -> string)
    requires |m.values| >= |m.rows|
    ensures var ts := FormatLines(m, sep, labels, show);
      var rust := CliMatrix.MatrixLines(m.rows, m.cols, m.values, sep, labels, show);
      |ts| == |rust| && ts[(if labels then 1 else 0)..] == rust[(if labels then 1 else 0)..] &&
      (labels ==> ts[0] == (if |m.cols| == 0 then "" else rust[0]))
  {
    var ts := FormatLines(m, sep, labels, show);
    var rust := CliMatrix.MatrixLines(m.rows, m.cols, m.values, sep, labels, show);
    var k := if labels then 1 else 0;
    forall p | k <= p < |ts|
      ensures ts[p] == rust[p]
    {
      if labels {
        CliMatrix.LabelledRowIsJoin(m.rows[p - 1], m.values[p - 1], sep, show);
      }
    }
    assert ts[k..] == rust[k..];
    if labels {
      JoinCons("", m.cols, sep);
      if |m.cols| > 0 {
        HeaderPrefixed(m.cols, sep);
      }
    }
  }

  /** A separator before each column label is the separator and the labels joined by it. */
  lemma HeaderPrefixed(cols: seq<string>, sep: char)
    requires |cols| > 0
    ensures Prefixed(cols, sep) == [sep] + Join(cols, [sep])
  {
    JoinCons(cols[0], cols[1..], sep);
    assert [cols[0]] + cols[1..] == cols;
  }

  /**
   * Hence, when there is at least one line and the header is not that of an
   * empty column list, the two formatters write the same text.
   */
  lemma AgreesWithRust(m: Matrix, format: string, labels: bool, show: real -> string)
    requires |m.values| >= |m.rows|
    requires labels ==> |m.cols| > 0
    requires labels || |m.rows| > 0
    ensures Join(FormatLines(m, CliMatrix.Separator(format), labels, show), "\n") + "\n"
         == Terminated(CliMatrix.MatrixLines(m.rows, m.cols, m.values, CliMatrix.Separator(format), labels, show))
  {
    var sep := CliMatrix.Separator(format);
    var ts := FormatLines(m, sep, labels, show);
    var rust := CliMatrix.MatrixLines(m.rows, m.cols, m.values, sep, labels, show);
    SameLines(m, sep, labels, show);
    var k := if labels then 1 else 0;
    assert ts == ts[..k] + ts[k..] && rust == rust[..k] + rust[k..];
    assert ts == rust;
    JoinTerminated(ts);
  }

  /** Where they differ: an empty text against a single newline, and an empty header against a separator. */
  lemma DiffersFromRust(cols: seq<string>, values: seq<seq<real>>, format: string, show: real -> string)
    ensures var sep := CliMatrix.Separator(format);
      Join(FormatLines(Matrix([], cols, values), sep, false, show), "\n") + "\n" == "\n" &&
      Terminated(CliMatrix.MatrixLines([], cols, values, sep, false, show)) == "" &&
      FormatLines(Matrix([], [], values), sep, true, show)[0] == "" &&
      CliMatrix.MatrixLines([], [], values, sep, true, show)[0] == [sep]
  {
    var sep := CliMatrix.Separator(format);
    assert FormatLines(Matrix([], cols, values), sep, false, show) == [];
    assert CliMatrix.MatrixLines([], cols, values, sep, false, show) == [];
    assert [""] + [] == [""];
  }
}
