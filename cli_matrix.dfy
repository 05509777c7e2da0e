/**
 * The Rust command-line matrix formatter (rust/ncdprime-cli/src/matrix.rs):
 * tab- or comma-separated text, with an optional header of column labels and
 * a label at the head of each row. `f64::to_string` is an abstract function
 * `show`.
 */
module CliMatrix {
  import opened Bytes
  import opened Text

  /** `','` for the "csv" format, a tab for every other format string. */
  function Separator(format: string): (c: char)
    ensures c == ',' <==> format == "csv"
    ensures c != ',' ==> c == '\t'
  {
    if format == "csv" then ',' else '\t'
  }

  /** Each value through the formatter, in order. */
  function Shown(vs: seq<real>, show: real -> string): (r: seq<string>)
    ensures |r| == |vs|
    ensures forall j :: 0 <= j < |vs| ==> r[j] == show(vs[j])
  {
    seq(|vs|, j requires 0 <= j < |vs| => show(vs[j]))
  }

  /** The header line: the separator, then the column labels joined by it. */
  function HeaderLine(cols: seq<string>, sep: char): string {
    [sep] + Join(cols, [sep])
  }

  /**
   * One row line without its newline: with labels, the row label and then
   * each value preceded by the separator; without, the values joined by it.
   */
  function RowLine(name: string, vs: seq<real>, sep: char, labels: bool, show: real -> string): string {
    if labels then name + Prefixed(Shown(vs, show), sep) else Join(Shown(vs, show), [sep])
  }

  /** The lines of the output, each without its newline. */
  function MatrixLines(rows: seq<string>, cols: seq<string>, values: seq<seq<real>>, sep: char, labels: bool,
                       show: real -> string): (ls: seq<string>)
    requires |values| >= |rows|
    ensures |ls| == |rows| + (if labels then 1 else 0)
  {
    var body := seq(|rows|, r requires 0 <= r < |rows| => RowLine(rows[r], values[r], sep, labels, show));
    if labels then [HeaderLine(cols, sep)] + body else body
  }

  /** `format_matrix`: every line of `MatrixLines`, each followed by a newline. */
  method FormatMatrix(rows: seq<string>, cols: seq<string>, values: seq<seq<real>>, format: string, labels: bool,
                      show: real -> string) returns (out: string)
    requires |values| >= |rows|
    ensures out == Terminated(MatrixLines(rows, cols, values, Separator(format), labels, show))
  {
    var sep := if format == "csv" then ',' else '\t';
    ghost var all := MatrixLines(rows, cols, values, sep, labels, show);
    ghost var skip := if labels then 1 else 0;
    out := "";
    if labels {
      out := out + [sep];
      out := out + Join(cols, [sep]);
      out := out + "\n";
      assert out == Terminated(all[..1]);
    }
    for r := 0 to |rows|
      invariant out == Terminated(all[..r + skip])
    {
      ghost var before := out;
      out := PushRow(out, rows[r], values[r], sep, labels, show);
      LineStep(all, r + skip, before, out, RowLine(rows[r], values[r], sep, labels, show));
    }
    assert all[..|rows| + skip] == all;
  }

  /**
   * The body of the row loop: with labels, the row label and then the
   * separator before each value; without, the separator between values; then
   * the newline.
   */
  method PushRow(out0: string, name: string, vs: seq<real>, sep: char, labels: bool, show: real -> string)
    returns (out: string)
    ensures out == out0 + RowLine(name, vs, sep, labels, show) + "\n"
  {
    ghost var shown := Shown(vs, show);
    out := out0;
    if labels {
      out := out + name;
      for j := 0 to |vs|
        invariant out == out0 + name + Prefixed(shown[..j], sep)
      {
        assert shown[..j + 1] == shown[..j] + [show(vs[j])];
        PrefixedSnoc(shown[..j], show(vs[j]), sep);
        out := out + [sep];
        out := out + show(vs[j]);
      }
    } else {
      for j := 0 to |vs|
        invariant out == out0 + Join(shown[..j], [sep])
      {
        assert shown[..j + 1] == shown[..j] + [show(vs[j])];
        if j > 0 {
          JoinSnoc(shown[..j], show(vs[j]), [sep]);
          out := out + [sep];
        }
        out := out + show(vs[j]);
      }
    }
    assert shown[..|vs|] == shown;
    out := out + "\n";
  }

  /** One more finished line: `Terminated` of the next prefix of `all`. */
  lemma LineStep(all: seq<string>, k: nat, before: string, after: string, line: string)
    requires k < |all| && before == Terminated(all[..k])
    requires all[k] == line && after == before + line + "\n"
    ensures after == Terminated(all[..k + 1])
  {
    assert all[..k + 1] == all[..k] + [line];
    TerminatedSnoc(all[..k], line);
  }

  /** `InputItem` of the command line: a label and the bytes read for it. */
  datatype InputItem = InputItem(itemLabel: string, bytes: seq<byte>)

  /** `InputSet`: a name and its items, in order. */
  datatype InputSet = InputSet(name: string, items: seq<InputItem>)

  /** The label of every item, in order. */
  function ItemLabels(items: seq<InputItem>): (r: seq<string>)
    ensures |r| == |items|
  {
    if |items| == 0 then [] else ItemLabels(items[..|items| - 1]) + [items[|items| - 1].itemLabel]
  }

  /** `rows_cols`: the row labels from the items of `a`, the column labels from those of `b`. */
  function RowsCols(a: InputSet, b: InputSet): (r: (seq<string>, seq<string>))
    ensures |r.0| == |a.items| && |r.1| == |b.items|
    ensures forall i :: 0 <= i < |a.items| ==> r.0[i] == a.items[i].itemLabel
    ensures forall j :: 0 <= j < |b.items| ==> r.1[j] == b.items[j].itemLabel
  {
    ItemLabelsAt(a.items);
    ItemLabelsAt(b.items);
    (ItemLabels(a.items), ItemLabels(b.items))
  }

  // -------------------------------------------------------------- lemmas

  /** Entry i of `ItemLabels` is the label of item i. */
  lemma {:induction false} ItemLabelsAt(items: seq<InputItem>)
    ensures forall i :: 0 <= i < |items| ==> ItemLabels(items)[i] == items[i].itemLabel
  {
    if |items| > 0 {
      ItemLabelsAt(items[..|items| - 1]);
    }
  }

  /**
   * The labelled output of two input sets: the header is the separator and
   * the labels of `b`, and line i + 1 starts with the label of item i of `a`.
   */
  lemma RowsColsLabelLines(a: InputSet, b: InputSet, values: seq<seq<real>>, sep: char, show: real -> string)
    requires |values| >= |a.items|
    ensures var (rows, cols) := RowsCols(a, b);
            var ls := MatrixLines(rows, cols, values, sep, true, show);
            ls[0] == [sep] + Join(cols, [sep])
            && forall i :: 0 <= i < |a.items| ==>
                 a.items[i].itemLabel <= ls[i + 1]
  {
    var (rows, cols) := RowsCols(a, b);
    var ls := MatrixLines(rows, cols, values, sep, true, show);
    forall i | 0 <= i < |a.items|
      ensures a.items[i].itemLabel <= ls[i + 1]
    {
      assert ls[i + 1] == RowLine(rows[i], values[i], sep, true, show);
    }
  }

  /** No label and no formatted value contains a newline. */
  predicate NewlineFree(rows: seq<string>, cols: seq<string>, values: seq<seq<real>>, show: real -> string)
    requires |values| >= |rows|
  {
    Free(rows, '\n') && Free(cols, '\n') && forall r :: 0 <= r < |rows| ==> Free(Shown(values[r], show), '\n')
  }

  lemma MatrixLinesFree(rows: seq<string>, cols: seq<string>, values: seq<seq<real>>, sep: char, labels: bool,
                        show: real -> string)
    requires |values| >= |rows| && NewlineFree(rows, cols, values, show) && sep != '\n'
    ensures Free(MatrixLines(rows, cols, values, sep, labels, show), '\n')
  {
    var ls := MatrixLines(rows, cols, values, sep, labels, show);
    JoinFree(cols, [sep], '\n');
    forall r | 0 <= r < |rows|
      ensures '\n' !in RowLine(rows[r], values[r], sep, labels, show)
    {
      var shown := Shown(values[r], show);
      if labels {
        JoinCons(rows[r], shown, sep);
        assert Free([rows[r]] + shown, '\n') by {
          assert forall i :: 0 < i < |shown| + 1 ==> ([rows[r]] + shown)[i] == shown[i - 1];
        }
        JoinFree([rows[r]] + shown, [sep], '\n');
      } else {
        JoinFree(shown, [sep], '\n');
      }
    }
  }

  /**
   * The text reads back as its lines: with labels the header and then one line
   * per row, without labels one line per row; a final empty piece follows the
   * last newline.
   */
  lemma FormatLines(rows: seq<string>, cols: seq<string>, values: seq<seq<real>>, format: string, labels: bool,
                    show: real -> string)
    requires |values| >= |rows| && NewlineFree(rows, cols, values, show)
    ensures var ls := MatrixLines(rows, cols, values, Separator(format), labels, show);
      Split(Terminated(ls), '\n') == ls + [""]
  {
    MatrixLinesFree(rows, cols, values, Separator(format), labels, show);
    SplitTerminated(MatrixLines(rows, cols, values, Separator(format), labels, show));
  }

  /** Hence the output has exactly one newline per row, plus one for the header. */
  lemma FormatNewlines(rows: seq<string>, cols: seq<string>, values: seq<seq<real>>, format: string, labels: bool,
                       show: real -> string)
    requires |values| >= |rows| && NewlineFree(rows, cols, values, show)
    ensures var out := Terminated(MatrixLines(rows, cols, values, Separator(format), labels, show));
      Count(out, '\n') == |rows| + (if labels then 1 else 0)
  {
    var out := Terminated(MatrixLines(rows, cols, values, Separator(format), labels, show));
    FormatLines(rows, cols, values, format, labels, show);
    SplitCount(out, '\n');
  }

  /** Without labels and without rows the output is empty. */
  lemma FormatEmpty(cols: seq<string>, values: seq<seq<real>>, format: string, show: real -> string)
    ensures Terminated(MatrixLines([], cols, values, Separator(format), false, show)) == ""
  {
    assert MatrixLines([], cols, values, Separator(format), false, show) == [];
  }

  /** A labelled row line is the row label and its values joined by the separator. */
  lemma LabelledRowIsJoin(name: string, vs: seq<real>, sep: char, show: real -> string)
    ensures RowLine(name, vs, sep, true, show) == Join([name] + Shown(vs, show), [sep])
  {
    JoinCons(name, Shown(vs, show), sep);
  }
}
