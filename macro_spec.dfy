/** The macro selection of a request: one line per macro, each line
    `macro njobs nevents seed`, turned into four columns by splitting the
    lines and transposing the rows with `zip`. The transposition follows
    `zip`: it yields as many tuples as the shortest row has fields, so the
    split succeeds exactly when that is four, and fields after the fourth
    of a longer row are dropped. */
module MacroSpec {
  import opened Common
  import opened Text

  datatype Spec = Spec(macros: seq<string>, njobs: seq<int>, nevents: seq<int>, seeds: seq<int>)

  datatype SpecError =
    | WrongFieldCount(width: nat)   // unpacking `zip(*rows)` into four names
    | NotAnInteger(field: string)   // `int(field)`

  /** The lines of the text, each split on whitespace. */
  function Rows(text: string): (rows: seq<seq<string>>)
    ensures |rows| == |SplitLines(text)|
    ensures forall j :: 0 <= j < |rows| ==> rows[j] == Fields(SplitLines(text)[j])
  {
    var lines := SplitLines(text);
    seq(|lines|, j requires 0 <= j < |lines| => Fields(lines[j]))
  }

  /** How many tuples `zip(*rows)` yields: the length of the shortest row,
      and none for no rows. */
  function Width(rows: seq<seq<string>>): (w: nat)
    ensures rows == [] ==> w == 0
    ensures forall j :: 0 <= j < |rows| ==> w <= |rows[j]|
    ensures rows != [] ==> exists j :: 0 <= j < |rows| && |rows[j]| == w
  {
    if rows == [] then 0
    else if |rows| == 1 then |rows[0]|
    else
      var w := Width(rows[1..]);
      assert forall j :: 0 < j < |rows| ==> rows[j] == rows[1..][j - 1];
      if |rows[0]| <= w then |rows[0]| else w
  }

  /** Tuple `k` of `zip(*rows)`: field `k` of every row, in row order. */
  function Column(rows: seq<seq<string>>, k: nat): (c: seq<string>)
    requires forall j :: 0 <= j < |rows| ==> k < |rows[j]|
    ensures |c| == |rows| && forall j :: 0 <= j < |rows| ==> c[j] == rows[j][k]
  {
    seq(|rows|, j requires 0 <= j < |rows| => rows[j][k])
  }

  /** `[int(f) for f in fields]`: fails at the first field that is not an
      integer. */
  function ParseInts(fields: seq<string>): (r: Result<seq<int>, SpecError>)
    ensures r.Ok? <==> forall j :: 0 <= j < |fields| ==> ParseInt(fields[j]).Some?
    ensures r.Ok? ==> |r.value| == |fields|
                      && forall j :: 0 <= j < |fields| ==> ParseInt(fields[j]) == Some(r.value[j])
    ensures r.Err? ==> exists j :: 0 <= j < |fields| && ParseInt(fields[j]).None?
                                   && r.error == NotAnInteger(fields[j])
                                   && forall i :: 0 <= i < j ==> ParseInt(fields[i]).Some?
  {
    if fields == [] then Ok([])
    else
      assert forall j :: 0 < j < |fields| ==> fields[j] == fields[1..][j - 1];
      match ParseInt(fields[0])
      case None => Err(NotAnInteger(fields[0]))
      case Some(n) =>
        match ParseInts(fields[1..])
        case Err(e) => Err(e)
        case Ok(ns) => Ok([n] + ns)
  }

  /** A row of `zip(*rows)` has four fields exactly when there is a row,
      no row is shorter than four fields, and some row has exactly four. */
  lemma WidthFour(rows: seq<seq<string>>)
    ensures Width(rows) == 4 <==> (&& rows != []
                                  && (forall j :: 0 <= j < |rows| ==> |rows[j]| >= 4)
                                  && (exists j :: 0 <= j < |rows| && |rows[j]| == 4))
  {
  }

  /** Whether the last three of the first four fields of every row are
      integers. */
  predicate IntegerFields(rows: seq<seq<string>>)
    requires forall j :: 0 <= j < |rows| ==> |rows[j]| >= 4
  {
    forall j, k :: 0 <= j < |rows| && 1 <= k < 4 ==> ParseInt(rows[j][k]).Some?
  }

  /** Whether field `k` of every row is an integer. */
  predicate IntegerColumn(rows: seq<seq<string>>, k: nat)
    requires forall j :: 0 <= j < |rows| ==> k < |rows[j]|
  {
    forall j :: 0 <= j < |rows| ==> ParseInt(rows[j][k]).Some?
  }

  lemma IntegerFieldsByColumn(rows: seq<seq<string>>)
    requires forall j :: 0 <= j < |rows| ==> |rows[j]| >= 4
    ensures IntegerFields(rows) <==> IntegerColumn(rows, 1) && IntegerColumn(rows, 2) && IntegerColumn(rows, 3)
  {
    if IntegerColumn(rows, 1) && IntegerColumn(rows, 2) && IntegerColumn(rows, 3) {
      forall j, k | 0 <= j < |rows| && 1 <= k < 4 ensures ParseInt(rows[j][k]).Some? {
        assert k == 1 || k == 2 || k == 3;
      }
    }
  }

  /** Column `k` parses exactly when every field in it is an integer, and
      then to those integers. */
  lemma ParseColumn(rows: seq<seq<string>>, k: nat)
    requires forall j :: 0 <= j < |rows| ==> k < |rows[j]|
    ensures var r := ParseInts(Column(rows, k));
      && (r.Ok? <==> IntegerColumn(rows, k))
      && (r.Ok? ==> |r.value| == |rows| && forall j :: 0 <= j < |rows| ==> ParseInt(rows[j][k]) == Some(r.value[j]))
  {
    var c := Column(rows, k);
    var r := ParseInts(c);
    if r.Ok? {
      assert IntegerColumn(rows, k) by {
        forall j | 0 <= j < |rows| ensures ParseInt(rows[j][k]).Some? {
          assert c[j] == rows[j][k];
        }
      }
    } else {
      var j :| 0 <= j < |c| && ParseInt(c[j]).None?;
      assert c[j] == rows[j][k];
    }
  }

  /** The four columns of rows of at least four fields each: the first
      column as it is, the other three as integers. */
  function Columns(rows: seq<seq<string>>): (r: Result<Spec, SpecError>)
    requires forall j :: 0 <= j < |rows| ==> |rows[j]| >= 4
    ensures r.Ok? <==> IntegerFields(rows)
    ensures r.Ok? ==> && |r.value.macros| == |rows| && |r.value.njobs| == |rows|
                      && |r.value.nevents| == |rows| && |r.value.seeds| == |rows|
                      && forall j :: 0 <= j < |rows| ==>
                           && r.value.macros[j] == rows[j][0]
                           && ParseInt(rows[j][1]) == Some(r.value.njobs[j])
                           && ParseInt(rows[j][2]) == Some(r.value.nevents[j])
                           && ParseInt(rows[j][3]) == Some(r.value.seeds[j])
  {
    IntegerFieldsByColumn(rows);
    ParseColumn(rows, 1);
    ParseColumn(rows, 2);
    ParseColumn(rows, 3);
    var macros := Column(rows, 0);
    match ParseInts(Column(rows, 1))
    case Err(e) => Err(e)
    case Ok(njobs) =>
      match ParseInts(Column(rows, 2))
      case Err(e) => Err(e)
      case Ok(nevents) =>
        match ParseInts(Column(rows, 3))
        case Err(e) => Err(e)
        case Ok(seeds) => Ok(Spec(macros, njobs, nevents, seeds))
  }

  /** Rows whose first field is the macro and whose next three parse to
      the given numbers yield exactly those columns. */
  lemma ColumnsAre(rows: seq<seq<string>>, s: Spec)
    requires forall j :: 0 <= j < |rows| ==> |rows[j]| >= 4
    requires |s.macros| == |rows| && |s.njobs| == |rows| && |s.nevents| == |rows| && |s.seeds| == |rows|
    requires forall j :: 0 <= j < |rows| ==> rows[j][0] == s.macros[j]
    requires forall j :: 0 <= j < |rows| ==> ParseInt(rows[j][1]) == Some(s.njobs[j])
    requires forall j :: 0 <= j < |rows| ==> ParseInt(rows[j][2]) == Some(s.nevents[j])
    requires forall j :: 0 <= j < |rows| ==> ParseInt(rows[j][3]) == Some(s.seeds[j])
    ensures Columns(rows) == Ok(s)
  {
    assert IntegerFields(rows) by {
      forall j, k | 0 <= j < |rows| && 1 <= k < 4 ensures ParseInt(rows[j][k]).Some? {
        assert k == 1 || k == 2 || k == 3;
      }
    }
    var r := Columns(rows);
    assert r.value.macros == s.macros;
    assert r.value.njobs == s.njobs;
    assert r.value.nevents == s.nevents;
    assert r.value.seeds == s.seeds;
  }

  /** The split of a request's macro selection. Fewer or more than four
      tuples from `zip` fail; otherwise column `k` holds field `k` of every
      line, in line order, and the split fails exactly when one of the last
      three of those fields is not an integer. */
  function ParseSpec(text: string): (r: Result<Spec, SpecError>)
    ensures Width(Rows(text)) != 4 <==> r == Err(WrongFieldCount(Width(Rows(text))))
    ensures Width(Rows(text)) == 4 ==> r == Columns(Rows(text))
  {
    var rows := Rows(text);
    var w := Width(rows);
    if w != 4 then Err(WrongFieldCount(w)) else Columns(rows)
  }

  /** A line with fewer than four fields, a blank line among them included,
      makes the split fail. */
  lemma ShortLineFails(text: string, j: nat)
    requires j < |SplitLines(text)| && |Fields(SplitLines(text)[j])| < 4
    ensures ParseSpec(text) == Err(WrongFieldCount(Width(Rows(text))))
  {
    assert |Rows(text)[j]| < 4;
  }

  /** When every line has more than four fields the split fails too. */
  lemma LongLinesFail(text: string)
    requires forall j :: 0 <= j < |SplitLines(text)| ==> |Fields(SplitLines(text)[j])| > 4
    ensures ParseSpec(text).Err?
  {
    var rows := Rows(text);
    if rows != [] {
      var j :| 0 <= j < |rows| && |rows[j]| == Width(rows);
    }
  }

  // ---------------------------------------------------------------------
  // Writing a spec

  /** What a well-formed selection holds: at least one macro, four columns
      of the same length, and macro names that are single words. */
  predicate WellFormedSpec(s: Spec)
  {
    && |s.macros| > 0
    && |s.njobs| == |s.macros| && |s.nevents| == |s.macros| && |s.seeds| == |s.macros|
    && forall j :: 0 <= j < |s.macros| ==> s.macros[j] != [] && NoSpace(s.macros[j])
  }

  /** The four fields of line `j`. */
  function LineFields(s: Spec, j: nat): (fields: seq<string>)
    requires WellFormedSpec(s) && j < |s.macros|
    ensures |fields| == 4
    ensures forall k :: 0 <= k < 4 ==> fields[k] != [] && NoSpace(fields[k])
  {
    [s.macros[j], IntToString(s.njobs[j]), IntToString(s.nevents[j]), IntToString(s.seeds[j])]
  }

  function SpecLines(s: Spec): (lines: seq<string>)
    requires WellFormedSpec(s)
    ensures |lines| == |s.macros|
    ensures forall j :: 0 <= j < |lines| ==> lines[j] == JoinWords(LineFields(s, j))
  {
    seq(|s.macros|, j requires 0 <= j < |s.macros| => JoinWords(LineFields(s, j)))
  }

  /** The selection as the request form writes it: one line per macro. */
  function FormatSpec(s: Spec): string
    requires WellFormedSpec(s)
  {
    JoinLines(SpecLines(s))
  }

  /** Non-empty words joined with spaces give non-empty text without line
      breaks. */
  lemma {:induction false} JoinWordsShape(words: seq<string>)
    requires forall k :: 0 <= k < |words| ==> words[k] != [] && NoSpace(words[k])
    requires words != []
    ensures NoLineBreak(JoinWords(words)) && JoinWords(words) != []
    decreases |words|
  {
    if |words| > 1 {
      JoinWordsShape(words[1..]);
      var w, rest := words[0], JoinWords(words[1..]);
      var s := JoinWords(words);
      assert s == w + " " + rest;
      forall i | 0 <= i < |s| ensures !IsLineBreak(s[i]) {
        if i < |w| {
          assert s[i] == w[i];
        } else if i > |w| {
          assert s[i] == rest[i - |w| - 1];
        }
      }
    }
  }

  /** The rows of a written selection are the fields of its lines. */
  lemma RowsOfFormat(s: Spec)
    requires WellFormedSpec(s)
    ensures |Rows(FormatSpec(s))| == |s.macros|
    ensures forall j :: 0 <= j < |s.macros| ==> Rows(FormatSpec(s))[j] == LineFields(s, j)
  {
    var lines := SpecLines(s);
    forall j | 0 <= j < |lines| ensures NoLineBreak(lines[j]) && lines[j] != [] && Fields(lines[j]) == LineFields(s, j) {
      JoinWordsShape(LineFields(s, j));
      FieldsJoinWords(LineFields(s, j));
    }
    SplitJoinLines(lines);
  }

  /** The columns of those rows are the selection's columns. */
  lemma ColumnsOfLineFields(s: Spec, rows: seq<seq<string>>)
    requires WellFormedSpec(s) && |rows| == |s.macros|
    requires forall j :: 0 <= j < |rows| ==> rows[j] == LineFields(s, j)
    ensures (forall j :: 0 <= j < |rows| ==> |rows[j]| >= 4) && Columns(rows) == Ok(s)
  {
    assert forall j :: 0 <= j < |rows| ==> |rows[j]| >= 4 by {
      forall j | 0 <= j < |rows| ensures |rows[j]| >= 4 {
        assert |LineFields(s, j)| == 4;
      }
    }
    forall j | 0 <= j < |rows|
      ensures ParseInt(rows[j][1]) == Some(s.njobs[j])
      ensures ParseInt(rows[j][2]) == Some(s.nevents[j])
      ensures ParseInt(rows[j][3]) == Some(s.seeds[j])
    {
      IntToStringRoundTrip(s.njobs[j]);
      IntToStringRoundTrip(s.nevents[j]);
      IntToStringRoundTrip(s.seeds[j]);
    }
    ColumnsAre(rows, s);
  }

  /** Writing a well-formed selection and splitting it again gives it
      back. */
  lemma FormatParseRoundTrip(s: Spec)
    requires WellFormedSpec(s)
    ensures ParseSpec(FormatSpec(s)) == Ok(s)
  {
    var rows := Rows(FormatSpec(s));
    RowsOfFormat(s);
    assert |rows[0]| == 4;
    assert Width(rows) == 4;
    ColumnsOfLineFields(s, rows);
  }

  /** The rows of lines written from word lists are those word lists. */
  lemma RowsOfWordLines(rows: seq<seq<string>>)
    requires rows != [] && forall j :: 0 <= j < |rows| ==> rows[j] != []
    requires forall j, k :: 0 <= j < |rows| && 0 <= k < |rows[j]| ==> rows[j][k] != [] && NoSpace(rows[j][k])
    ensures Rows(JoinLines(seq(|rows|, j requires 0 <= j < |rows| => JoinWords(rows[j])))) == rows
  {
    var lines := seq(|rows|, j requires 0 <= j < |rows| => JoinWords(rows[j]));
    forall j | 0 <= j < |rows| ensures NoLineBreak(lines[j]) && lines[j] != [] && Fields(lines[j]) == rows[j] {
      JoinWordsShape(rows[j]);
      FieldsJoinWords(rows[j]);
    }
    SplitJoinLines(lines);
  }

  /** The two rows of the example below, with integer fields written by
      `str`. */
  function TwoRows(m1: string, m2: string, extra: string, a: int, b: int, c: int, d: int, e: int, f: int)
    : seq<seq<string>>
  {
    [[m1, IntToString(a), IntToString(b), IntToString(c), extra],
     [m2, IntToString(d), IntToString(e), IntToString(f)]]
  }

  lemma TwoRowsColumns(m1: string, m2: string, extra: string, a: int, b: int, c: int, d: int, e: int, f: int)
    ensures var rows := TwoRows(m1, m2, extra, a, b, c, d, e, f);
      Width(rows) == 4 && Columns(rows) == Ok(Spec([m1, m2], [a, d], [b, e], [c, f]))
  {
    var rows := TwoRows(m1, m2, extra, a, b, c, d, e, f);
    assert Width(rows) == 4;
    IntToStringRoundTrip(a);
    IntToStringRoundTrip(b);
    IntToStringRoundTrip(c);
    IntToStringRoundTrip(d);
    IntToStringRoundTrip(e);
    IntToStringRoundTrip(f);
    ColumnsAre(rows, Spec([m1, m2], [a, d], [b, e], [c, f]));
  }

  /** A line longer than the others is cut to their length: when another
      line has exactly four fields, the fifth field `extra` of the first
      line is dropped rather than rejected. */
  lemma ExtraFieldDropped(m1: string, m2: string, extra: string, a: int, b: int, c: int, d: int, e: int, f: int)
    requires m1 != [] && NoSpace(m1) && m2 != [] && NoSpace(m2) && extra != [] && NoSpace(extra)
    ensures ParseSpec(JoinLines([JoinWords([m1, IntToString(a), IntToString(b), IntToString(c), extra]),
                                 JoinWords([m2, IntToString(d), IntToString(e), IntToString(f)])]))
         == Ok(Spec([m1, m2], [a, d], [b, e], [c, f]))
  {
    var rows := TwoRows(m1, m2, extra, a, b, c, d, e, f);
    RowsOfWordLines(rows);
    var lines := seq(|rows|, j requires 0 <= j < |rows| => JoinWords(rows[j]));
    assert lines == [JoinWords(rows[0]), JoinWords(rows[1])];
    TwoRowsColumns(m1, m2, extra, a, b, c, d, e, f);
  }
}
