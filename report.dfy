/** The contents string that `writeResultFile` (helpers.js) builds from a
    result: a tab-delimited header chosen by `type`, then one tab-delimited,
    newline-terminated row per result line. */
module Report {
  import opened Outcomes
  import opened Text
  import opened Aggregate

  /** The column names for `type === 'signups'`, and for any other type. */
  function HeaderFields(kind: string): (h: seq<string>)
    ensures |h| == (if kind == "signups" then 4 else 6)
    ensures h[0] == "month"
  {
    if kind == "signups" then ["month", "total_signups", "average_signups", "median_signups"]
    else ["month", "total_signups", "average_signups", "median_signups", "average_actives", "median_actives"]
  }

  /** The first line of the contents. */
  function HeaderLine(kind: string): (h: string)
    ensures "month\t" <= h
    ensures |h| > 0 && h[|h| - 1] == '\n'
  {
    var f := HeaderFields(kind);
    assert f == [f[0]] + f[1..];
    JoinCons(f[0], f[1..], '\t');
    Join(f, '\t') + "\n"
  }

  /** JavaScript's `+` on a string and an integer field that may be `undefined`. */
  function IntText(o: Option<int>): (t: string)
    ensures '\t' !in t && '\n' !in t
    ensures t == "undefined" <==> o.None?
  {
    match o
    case None => "undefined"
    case Some(n) =>
      var d := IntStr(n);
      assert forall k :: 0 <= k < |d| ==> d[k] != '\t' && d[k] != '\n';
      assert d[0] != "undefined"[0];
      d
  }

  /** The same for a field holding an average; `showReal` is the engine's
      number-to-string conversion, which this model does not fix. */
  function RealText(o: Option<real>, showReal: real -> string): (t: string)
    ensures PlainText(showReal) ==> '\t' !in t && '\n' !in t
    ensures o.None? ==> t == "undefined"
  {
    match o
    case None => "undefined"
    case Some(x) => showReal(x)
  }

  function TotalOf(st: Option<SignupStats>): Option<int>
  {
    match st case None => None case Some(s) => Some(s.total)
  }

  function SignupAverageOf(st: Option<SignupStats>): Option<real>
  {
    match st case None => None case Some(s) => Some(s.average)
  }

  function SignupMedianOf(st: Option<SignupStats>): Option<int>
  {
    match st case None => None case Some(s) => Some(s.median)
  }

  function ActiveAverageOf(st: Option<ActiveStats>): Option<real>
  {
    match st case None => None case Some(s) => Some(s.average)
  }

  function ActiveMedianOf(st: Option<ActiveStats>): Option<int>
  {
    match st case None => None case Some(s) => Some(s.median)
  }

  /** The texts of one result line, in the column order of the header: the
      month, then the signups fields, then (for a type other than 'signups')
      the active-user fields; an absent field is the text `undefined`. */
  function Fields(kind: string, line: Line, showReal: real -> string): (f: seq<string>)
    ensures |f| == |HeaderFields(kind)|
    ensures f[0] == IntStr(line.month)
    ensures line.signups.None? ==> f[1] == "undefined" && f[2] == "undefined" && f[3] == "undefined"
    ensures line.signups.Some? ==>
              f[1] == IntStr(line.signups.value.total) &&
              f[2] == showReal(line.signups.value.average) &&
              f[3] == IntStr(line.signups.value.median)
    ensures kind != "signups" && line.actives.None? ==> f[4] == "undefined" && f[5] == "undefined"
    ensures kind != "signups" && line.actives.Some? ==>
              f[4] == showReal(line.actives.value.average) &&
              f[5] == IntStr(line.actives.value.median)
  {
    var base := [IntStr(line.month), IntText(TotalOf(line.signups)),
                 RealText(SignupAverageOf(line.signups), showReal), IntText(SignupMedianOf(line.signups))];
    if kind == "signups" then base
    else base + [RealText(ActiveAverageOf(line.actives), showReal), IntText(ActiveMedianOf(line.actives))]
  }

  /** The row text of one result line: the month, a tab, the other fields,
      and a closing newline. */
  function RowText(kind: string, line: Line, showReal: real -> string): (r: string)
    ensures IntStr(line.month) + "\t" <= r
    ensures |r| > 0 && r[|r| - 1] == '\n'
  {
    var f := Fields(kind, line, showReal);
    assert f == [f[0]] + f[1..];
    JoinCons(f[0], f[1..], '\t');
    Join(f, '\t') + "\n"
  }

  /** The whole contents string for the rows of a result: the header line,
      then one row text per result line, in result order. */
  function Document(kind: string, rows: seq<Line>, showReal: real -> string): (d: string)
    ensures |d| > 0 && d[|d| - 1] == '\n'
    ensures |d| >= |HeaderLine(kind)| && d[..|HeaderLine(kind)|] == HeaderLine(kind)
  {
    if rows == [] then HeaderLine(kind)
    else Document(kind, rows[..|rows| - 1], showReal) + RowText(kind, rows[|rows| - 1], showReal)
  }

  /* Solver hints, as far as `ActiveColumnsMedian`: the header literals are
     assembled a few string concatenations at a time, which keeps each
     step small. */

  /** The column names of the signups header, joined by tabs. */
  lemma SignupColumnsLiteral(p: string)
    requires p == "month\ttotal_signups\taverage_signups\tmedian_signups"
    ensures "month" + "\t" + "total_signups" + "\t" + "average_signups" + "\t" + "median_signups" == p
  {
    SignupColumnsFirst();
    SignupColumnsLast(p);
  }

  lemma SignupColumnsFirst()
    ensures "month" + "\t" + "total_signups" + "\t" == "month\ttotal_signups\t"
  {
    assert "month" + "\t" == "month\t";
    assert "month\t" + "total_signups" == "month\ttotal_signups";
    assert "month\ttotal_signups" + "\t" == "month\ttotal_signups\t";
  }

  lemma SignupColumnsLast(p: string)
    requires p == "month\ttotal_signups\taverage_signups\tmedian_signups"
    ensures "month\ttotal_signups\t" + "average_signups" + "\t" + "median_signups" == p
  {
    SignupColumnsAverage();
    assert "month\ttotal_signups\taverage_signups\t" + "median_signups" == p;
  }

  lemma SignupColumnsAverage()
    ensures "month\ttotal_signups\t" + "average_signups" + "\t" == "month\ttotal_signups\taverage_signups\t"
  {
    assert "month\ttotal_signups\t" + "average_signups" == "month\ttotal_signups\taverage_signups";
  }

  /** The header line for 'signups' is the literal of line 281 ... */
  lemma SignupsHeaderText(s: string)
    requires s == "month\ttotal_signups\taverage_signups\tmedian_signups\n"
    ensures HeaderLine("signups") == s
  {
    JoinFour("month", "total_signups", "average_signups", "median_signups");
    SignupColumnsLiteral("month\ttotal_signups\taverage_signups\tmedian_signups");
    assert "month\ttotal_signups\taverage_signups\tmedian_signups" + "\n" == s;
  }

  /** ... and for any other type it is the literal of line 296. */
  lemma ActivesHeaderText(kind: string, a: string)
    requires kind != "signups"
    requires a == "month\ttotal_signups\taverage_signups\tmedian_signups\taverage_actives\tmedian_actives\n"
    ensures HeaderLine(kind) == a
  {
    JoinSix("month", "total_signups", "average_signups", "median_signups", "average_actives", "median_actives");
    ActivesLiteral("month\ttotal_signups\taverage_signups\tmedian_signups", a);
  }

  lemma ActivesLiteral(p: string, a: string)
    requires p == "month\ttotal_signups\taverage_signups\tmedian_signups"
    requires a == "month\ttotal_signups\taverage_signups\tmedian_signups\taverage_actives\tmedian_actives\n"
    ensures "month" + "\t" + "total_signups" + "\t" + "average_signups" + "\t" + "median_signups" + "\t" +
            "average_actives" + "\t" + "median_actives" + "\n" == a
  {
    SignupColumnsLiteral(p);
    ActiveColumnsFirst(p);
    ActiveColumnsLast(a);
  }

  lemma ActiveColumnsFirst(p: string)
    requires p == "month\ttotal_signups\taverage_signups\tmedian_signups"
    ensures p + "\t" + "average_actives" == "month\ttotal_signups\taverage_signups\tmedian_signups\taverage_actives"
  {
    assert p + "\t" == "month\ttotal_signups\taverage_signups\tmedian_signups\t";
    assert "month\ttotal_signups\taverage_signups\tmedian_signups\t" + "average_actives" == "month\ttotal_signups\taverage_signups\tmedian_signups\taverage_actives";
  }

  lemma ActiveColumnsLast(a: string)
    requires a == "month\ttotal_signups\taverage_signups\tmedian_signups\taverage_actives\tmedian_actives\n"
    ensures "month\ttotal_signups\taverage_signups\tmedian_signups\taverage_actives" + "\t" + "median_actives" + "\n" == a
  {
    ActiveColumnsMedian();
    assert "month\ttotal_signups\taverage_signups\tmedian_signups\taverage_actives\tmedian_actives" + "\n" == a;
  }

  lemma ActiveColumnsMedian()
    ensures "month\ttotal_signups\taverage_signups\tmedian_signups\taverage_actives" + "\t" + "median_actives" ==
            "month\ttotal_signups\taverage_signups\tmedian_signups\taverage_actives\tmedian_actives"
  {
    assert "month\ttotal_signups\taverage_signups\tmedian_signups\taverage_actives" + "\t" == "month\ttotal_signups\taverage_signups\tmedian_signups\taverage_actives\t";
  }

  lemma JoinCons(x: string, rest: seq<string>, sep: char)
    requires |rest| >= 1
    ensures Join([x] + rest, sep) == x + [sep] + Join(rest, sep)
  {
    assert ([x] + rest)[1..] == rest;
  }

  lemma JoinFour(a: string, b: string, c: string, d: string)
    ensures Join([a, b, c, d], '\t') + "\n" == a + "\t" + b + "\t" + c + "\t" + d + "\n"
  {
    assert [a, b, c, d] == [a] + [b, c, d];
    assert [b, c, d] == [b] + [c, d];
    assert [c, d] == [c] + [d];
    JoinCons(c, [d], '\t');
    JoinCons(b, [c, d], '\t');
    JoinCons(a, [b, c, d], '\t');
  }

  lemma JoinSix(a: string, b: string, c: string, d: string, e: string, g: string)
    ensures Join([a, b, c, d, e, g], '\t') + "\n" ==
            a + "\t" + b + "\t" + c + "\t" + d + "\t" + e + "\t" + g + "\n"
  {
    assert [a, b, c, d, e, g] == [a] + [b, c, d, e, g];
    assert [b, c, d, e, g] == [b] + [c, d, e, g];
    assert [c, d, e, g] == [c] + [d, e, g];
    assert [d, e, g] == [d] + [e, g];
    assert [e, g] == [e] + [g];
    JoinCons(e, [g], '\t');
    JoinCons(d, [e, g], '\t');
    JoinCons(c, [d, e, g], '\t');
    JoinCons(b, [c, d, e, g], '\t');
    JoinCons(a, [b, c, d, e, g], '\t');
  }

  /** A signups row in the two pieces the `contents +=` statements of lines
      283-284 append. */
  lemma SignupsRowParts(line: Line, showReal: real -> string)
    ensures var month, total := IntStr(line.month), IntText(TotalOf(line.signups));
            var average, med := RealText(SignupAverageOf(line.signups), showReal), IntText(SignupMedianOf(line.signups));
            RowText("signups", line, showReal) == (month + "\t" + total + "\t") + (average + "\t" + med + "\n")
  {
    var month, total := IntStr(line.month), IntText(TotalOf(line.signups));
    var average, med := RealText(SignupAverageOf(line.signups), showReal), IntText(SignupMedianOf(line.signups));
    assert Fields("signups", line, showReal) == [month, total, average, med];
    JoinFour(month, total, average, med);
    AppendFour(month + "\t" + total + "\t", average, "\t", med, "\n");
  }

  /** A row with active-user fields in the three pieces the `contents +=`
      statements of lines 298-300 append. */
  lemma ActivesRowParts(kind: string, line: Line, showReal: real -> string)
    requires kind != "signups"
    ensures var month, total := IntStr(line.month), IntText(TotalOf(line.signups));
            var average, med := RealText(SignupAverageOf(line.signups), showReal), IntText(SignupMedianOf(line.signups));
            var aAverage, aMed := RealText(ActiveAverageOf(line.actives), showReal), IntText(ActiveMedianOf(line.actives));
            RowText(kind, line, showReal) ==
              ((month + "\t" + total + "\t") + (average + "\t" + med + "\t")) + (aAverage + "\t" + aMed + "\n")
  {
    var month, total := IntStr(line.month), IntText(TotalOf(line.signups));
    var average, med := RealText(SignupAverageOf(line.signups), showReal), IntText(SignupMedianOf(line.signups));
    var aAverage, aMed := RealText(ActiveAverageOf(line.actives), showReal), IntText(ActiveMedianOf(line.actives));
    assert Fields(kind, line, showReal) == [month, total, average, med, aAverage, aMed];
    JoinSix(month, total, average, med, aAverage, aMed);
    var p1 := month + "\t" + total + "\t";
    AppendFour(p1, average, "\t", med, "\t");
    AppendFour(p1 + (average + "\t" + med + "\t"), aAverage, "\t", aMed, "\n");
  }

  /** One more row extends the contents by that row's text. */
  lemma DocumentExtend(kind: string, rows: seq<Line>, i: nat, showReal: real -> string)
    requires i < |rows|
    ensures Document(kind, rows[..i + 1], showReal) == Document(kind, rows[..i], showReal) + RowText(kind, rows[i], showReal)
  {
    assert rows[..i + 1][..i] == rows[..i];
  }

  /** The body of the `forEach` callbacks of lines 282-284 and 297-300:
      appends the text of one result line. */
  method AppendLine(before: string, kind: string, line: Line, showReal: real -> string)
    returns (contents: string)
    ensures contents == before + RowText(kind, line, showReal)
  {
    var month, total := IntStr(line.month), IntText(TotalOf(line.signups));
    var average, med := RealText(SignupAverageOf(line.signups), showReal), IntText(SignupMedianOf(line.signups));
    contents := before;
    if kind == "signups" {
      contents := contents + (month + "\t" + total + "\t");
      contents := contents + (average + "\t" + med + "\n");
      SignupsRowParts(line, showReal);
      Assoc(before, month + "\t" + total + "\t", average + "\t" + med + "\n");
    } else {
      var aAverage, aMed := RealText(ActiveAverageOf(line.actives), showReal), IntText(ActiveMedianOf(line.actives));
      contents := contents + (month + "\t" + total + "\t");
      contents := contents + (average + "\t" + med + "\t");
      contents := contents + (aAverage + "\t" + aMed + "\n");
      ActivesRowParts(kind, line, showReal);
      var p1, p2 := month + "\t" + total + "\t", average + "\t" + med + "\t";
      Assoc(before, p1, p2);
      Assoc(before, p1 + p2, aAverage + "\t" + aMed + "\n");
    }
  }

  /** `contents = ''` followed by the header literal of the type. */
  method StartContents(kind: string) returns (contents: string)
    ensures contents == HeaderLine(kind)
  {
    contents := "";
    if kind == "signups" {
      contents := contents + "month\ttotal_signups\taverage_signups\tmedian_signups\n";
      SignupsHeaderText(contents);
    } else {
      contents := contents + "month\ttotal_signups\taverage_signups\tmedian_signups\taverage_actives\tmedian_actives\n";
      ActivesHeaderText(kind, contents);
    }
  }

  /** The `contents +=` statements of lines 278-300: the header for `type`,
      then for each line of the result its month and fields separated by tabs
      and ended by a newline. */
  method RenderContents(kind: string, result: seq<Line>, showReal: real -> string)
    returns (contents: string)
    ensures contents == Document(kind, result, showReal)
  {
    contents := StartContents(kind);
    assert result[..0] == [];
    var i := 0;
    while i < |result|
      invariant 0 <= i <= |result|
      invariant contents == Document(kind, result[..i], showReal)
    {
      contents := AppendLine(contents, kind, result[i], showReal);
      DocumentExtend(kind, result, i, showReal);
      i := i + 1;
    }
    assert result[..i] == result;
  }

  /** The number-to-string conversion never produces a tab or a newline. */
  ghost predicate PlainText(showReal: real -> string)
  {
    forall x :: '\t' !in showReal(x) && '\n' !in showReal(x)
  }

  /** The tab-separated text of each result line, in result order. */
  function RowLines(kind: string, rows: seq<Line>, showReal: real -> string): (ls: seq<string>)
    ensures |ls| == |rows|
  {
    seq(|rows|, i requires 0 <= i < |rows| => Join(Fields(kind, rows[i], showReal), '\t'))
  }

  /** No field text holds a tab or a newline. */
  lemma FieldsPlain(kind: string, line: Line, showReal: real -> string)
    requires PlainText(showReal)
    ensures forall k :: 0 <= k < |Fields(kind, line, showReal)| ==>
              '\t' !in Fields(kind, line, showReal)[k] && '\n' !in Fields(kind, line, showReal)[k]
  {
    var t := IntStr(line.month);
    assert forall k :: 0 <= k < |t| ==> t[k] != '\t' && t[k] != '\n';
  }

  lemma HeaderPlain(kind: string)
    ensures forall k :: 0 <= k < |HeaderFields(kind)| ==>
              '\t' !in HeaderFields(kind)[k] && '\n' !in HeaderFields(kind)[k]
  {
    var h := HeaderFields(kind);
    forall k | 0 <= k < |h|
      ensures '\t' !in h[k] && '\n' !in h[k]
    {
      NamePlain(h[k]);
    }
  }

  /** Column names are letters and underscores only. */
  lemma NamePlain(name: string)
    requires name in {"month", "total_signups", "average_signups", "median_signups",
                      "average_actives", "median_actives"}
    ensures '\t' !in name && '\n' !in name
  {
  }

  /** Two newline-free texts joined by a newline split back into the two. */
  lemma LineSplit(h: string, tail: string)
    requires '\n' !in h && '\n' !in tail
    ensures Split(h + "\n" + tail, '\n') == [h, tail]
  {
    assert h + "\n" + tail == h + ['\n'] + tail;
    SplitAtFirst(h, '\n', tail);
    SplitWithoutSeparator(tail, '\n');
  }

  lemma HeaderSplit(kind: string, tail: string)
    requires '\n' !in tail
    ensures Split(HeaderLine(kind) + tail, '\n') == [Join(HeaderFields(kind), '\t'), tail]
  {
    HeaderPlain(kind);
    JoinAvoids(HeaderFields(kind), '\t', '\n');
    LineSplit(Join(HeaderFields(kind), '\t'), tail);
  }

  /** Appending a newline-terminated line to a text ending in `row` adds a
      line to its split. */
  lemma SplitStep(d: string, row: string, tail: string, h: string, ls: seq<string>)
    requires '\n' !in row && '\n' !in tail
    requires Split(d + row, '\n') == [h] + ls + [row]
    ensures Split(d + (row + "\n") + tail, '\n') == [h] + (ls + [row]) + [tail]
  {
    RegroupRow(d, row, tail);
    SplitConcat(d + row, '\n', tail);
    SplitWithoutSeparator(tail, '\n');
    RegroupLines(h, ls, row, tail);
  }

  lemma RowLinesSnoc(kind: string, rows: seq<Line>, showReal: real -> string)
    requires rows != []
    ensures RowLines(kind, rows, showReal) ==
              RowLines(kind, rows[..|rows| - 1], showReal) + [Join(Fields(kind, rows[|rows| - 1], showReal), '\t')]
  {
    var p := rows[..|rows| - 1];
    var a := RowLines(kind, rows, showReal);
    var b := RowLines(kind, p, showReal) + [Join(Fields(kind, rows[|rows| - 1], showReal), '\t')];
    forall i | 0 <= i < |rows|
      ensures a[i] == b[i]
    {
      if i < |p| {
        assert p[i] == rows[i];
      }
    }
  }

  /** The contents followed by any text without a newline split into the
      header, the row lines and that text. */
  lemma {:induction false} DocumentSplit(kind: string, rows: seq<Line>, showReal: real -> string, tail: string)
    requires PlainText(showReal)
    requires '\n' !in tail
    ensures Split(Document(kind, rows, showReal) + tail, '\n') ==
              [Join(HeaderFields(kind), '\t')] + RowLines(kind, rows, showReal) + [tail]
    decreases |rows|
  {
    if rows == [] {
      HeaderSplit(kind, tail);
    } else {
      var p, r := rows[..|rows| - 1], rows[|rows| - 1];
      var d, row := Document(kind, p, showReal), Join(Fields(kind, r, showReal), '\t');
      FieldsPlain(kind, r, showReal);
      JoinAvoids(Fields(kind, r, showReal), '\t', '\n');
      DocumentSplit(kind, p, showReal, row);
      SplitStep(d, row, tail, Join(HeaderFields(kind), '\t'), RowLines(kind, p, showReal));
      RowLinesSnoc(kind, rows, showReal);
    }
  }

  /** Round trip of the rendering: the contents have one line per result
      line after the header, each ending in '\n' (so the text after the last
      newline is empty); the header line splits on '\t' into the column names
      and each later line into the field texts of its result line, in the
      column order of the header. */
  lemma ContentsLines(kind: string, rows: seq<Line>, showReal: real -> string)
    requires PlainText(showReal)
    ensures var lines := Split(Document(kind, rows, showReal), '\n');
            |lines| == |rows| + 2 &&
            Count(Document(kind, rows, showReal), '\n') == |rows| + 1 &&
            Split(lines[0], '\t') == HeaderFields(kind) &&
            lines[|rows| + 1] == "" &&
            forall i :: 0 <= i < |rows| ==>
              Split(lines[i + 1], '\t') == Fields(kind, rows[i], showReal) &&
              |Split(lines[i + 1], '\t')| == |HeaderFields(kind)|
  {
    var doc := Document(kind, rows, showReal);
    assert doc + "" == doc;
    DocumentSplit(kind, rows, showReal, "");
    LinesReadBack(kind, rows, showReal, Split(doc, '\n'));
  }

  /** The header line, the row lines and the empty text after the last
      newline, read back field by field. */
  lemma LinesReadBack(kind: string, rows: seq<Line>, showReal: real -> string, lines: seq<string>)
    requires PlainText(showReal)
    requires lines == [Join(HeaderFields(kind), '\t')] + RowLines(kind, rows, showReal) + [""]
    ensures |lines| == |rows| + 2
    ensures Split(lines[0], '\t') == HeaderFields(kind)
    ensures lines[|rows| + 1] == ""
    ensures forall i :: 0 <= i < |rows| ==>
              Split(lines[i + 1], '\t') == Fields(kind, rows[i], showReal) &&
              |Split(lines[i + 1], '\t')| == |HeaderFields(kind)|
  {
    var ls := RowLines(kind, rows, showReal);
    ThreeParts(lines, Join(HeaderFields(kind), '\t'), ls, "");
    HeaderPlain(kind);
    SplitJoin(HeaderFields(kind), '\t');
    RowLinesReadBack(kind, rows, showReal);
  }

  /** Each row line splits on '\t' into the field texts of its result line. */
  lemma RowLinesReadBack(kind: string, rows: seq<Line>, showReal: real -> string)
    requires PlainText(showReal)
    ensures forall i :: 0 <= i < |rows| ==>
              Split(RowLines(kind, rows, showReal)[i], '\t') == Fields(kind, rows[i], showReal) &&
              |Fields(kind, rows[i], showReal)| == |HeaderFields(kind)|
  {
    forall i | 0 <= i < |rows|
      ensures Split(RowLines(kind, rows, showReal)[i], '\t') == Fields(kind, rows[i], showReal)
    {
      FieldsPlain(kind, rows[i], showReal);
      SplitJoin(Fields(kind, rows[i], showReal), '\t');
    }
  }

  /** The integer columns read back as the values they render: the month,
      and when present the total and the median of the signups and the
      median of the active users. */
  lemma ColumnsReadBack(kind: string, line: Line, showReal: real -> string)
    ensures var f := Fields(kind, line, showReal);
            IntValue(f[0]) == line.month &&
            (line.signups.Some? ==>
               IntValue(f[1]) == line.signups.value.total && IntValue(f[3]) == line.signups.value.median) &&
            (kind != "signups" && line.actives.Some? ==> IntValue(f[5]) == line.actives.value.median)
  {
    IntStrValue(line.month);
    if line.signups.Some? {
      IntStrValue(line.signups.value.total);
      IntStrValue(line.signups.value.median);
    }
    if line.actives.Some? {
      IntStrValue(line.actives.value.median);
    }
  }

  /** What the callback of `writeResultFile` receives on success, the file
      name, together with the contents written to that file. */
  datatype Written = Written(file: string, contents: string)

  /** The rows `createResult` delivers for `type` when it delivers any. */
  function ReportRows(signups: seq<Record>, actives: seq<Record>, kind: string): seq<Line>
  {
    if kind == "signups" then SignupsReport(signups) else CombinedReport(signups, actives)
  }

  /** An outcome without a value, passed on unchanged. */
  function Forward(c: Callback<seq<Line>>): (d: Callback<Written>)
    requires !c.Ok?
  {
    match c
    case Err(e) => Err(e)
    case NeverCalled => NeverCalled
    case ProcessExit(code) => ProcessExit(code)
  }

  /** `writeResultFile(inputId, type, callback)` over the stored records;
      `writeOk` says whether `fs.writeFileSync` succeeds. The callback fires
      only from the last `forEach` step, so not for an empty result. */
  method WriteResultFile(signups: seq<Record>, actives: seq<Record>, kind: string,
                         showReal: real -> string, writeOk: bool)
    returns (r: Callback<Written>)
    ensures signups == [] ==> r == NeverCalled
    ensures signups != [] && kind != "signups" && actives == [] ==> r == NeverCalled
    ensures signups != [] && (kind == "signups" || actives != []) ==>
              r == if writeOk
                   then Ok(Written("output.txt", Document(kind, ReportRows(signups, actives, kind), showReal)))
                   else Err(WriteError)
  {
    var file := "output.txt";
    var result := CreateResult(signups, actives, kind);
    if result.Ok? {
      var contents := RenderContents(kind, result.value, showReal);
      MonthsEmpty(signups);
      MonthsEmpty(actives);
      r := if |result.value| == 0 then NeverCalled
           else if writeOk then Ok(Written(file, contents))
           else Err(WriteError);
    } else {
      r := Forward(result);
    }
  }

  /* Solver hints. Each lemma below is an identity on sequence concatenation
     or indexing that Dafny proves on its own. They are stated as lemmas so
     that a proof puts in scope exactly the instance it needs, which keeps
     the proofs that use them small. */

  lemma Assoc(a: string, b: string, c: string)
    ensures (a + b) + c == a + (b + c)
  {
  }

  lemma AppendFour(x: string, a: string, b: string, c: string, d: string)
    ensures x + (((a + b) + c) + d) == (((x + a) + b) + c) + d
  {
    Assoc(x, (a + b) + c, d);
    Assoc(x, a + b, c);
    Assoc(x, a, b);
  }

  lemma RegroupRow(d: string, row: string, tail: string)
    ensures d + (row + "\n") + tail == (d + row) + ['\n'] + tail
  {
  }

  lemma RegroupLines(h: string, ls: seq<string>, row: string, tail: string)
    ensures ([h] + ls + [row]) + [tail] == [h] + (ls + [row]) + [tail]
  {
  }

  lemma ThreeParts<T>(lines: seq<T>, h: T, ls: seq<T>, t: T)
    requires lines == [h] + ls + [t]
    ensures |lines| == |ls| + 2 && lines[0] == h && lines[|ls| + 1] == t
    ensures forall i :: 0 <= i < |ls| ==> lines[i + 1] == ls[i]
  {
  }
}
