/** The HTML tables of the dashboard (`generate_html_table` in test.py, and the
    same markup written line by line by `ReportGenerator.generate_dashboard`). A
    table is the opening `<table …>` line, one header line with a `<th>` per
    header, one `<tr>` line per row with a `<td>` per cell, and `</table>`. */
module Html {
  import opened Telemetry
  import opened Text

  /** `<table style='border-collapse: collapse; border: 2px solid black; text-align: center;'>`,
      spelled in pieces so that facts about its characters stay cheap to check. */
  const TableOpenLine: string :=
    "<table style='border-" + "collapse: collapse; " + "border: 2px solid black; " + "text-align: center;'>"
  const ThOpen: string := "<th style='border: 2px solid black;'>"
  const ThClose: string := "</th>"
  const TdOpen: string := "<td style='border: 2px solid black;'>"
  const TdClose: string := "</td>"

  /** `"".join(parts)`. */
  function Concat(parts: seq<string>): string {
    if parts == [] then "" else parts[0] + Concat(parts[1..])
  }

  /** Each text wrapped in the given opening and closing tags, joined. */
  function Cells(open: string, texts: seq<string>, close: string): string {
    if texts == [] then "" else open + texts[0] + close + Cells(open, texts[1..], close)
  }

  /** The header line, without its line break. */
  function HeaderLine(headers: seq<string>): string {
    "<tr>" + Cells(ThOpen, headers, ThClose) + "</tr>"
  }

  /** One row's line, without its line break. */
  function RowLine(cells: seq<string>): string {
    "<tr>" + Cells(TdOpen, cells, TdClose) + "</tr>"
  }

  /** The row lines, each followed by a line break. */
  function RowsText(rows: seq<seq<string>>): string {
    if rows == [] then "" else RowLine(rows[0]) + "\n" + RowsText(rows[1..])
  }

  /** `generate_html_table(headers, rows)`. */
  function HtmlTable(headers: seq<string>, rows: seq<seq<string>>): string {
    TableOpenLine + "\n" + (HeaderLine(headers) + "\n" + (RowsText(rows) + "</table>\n"))
  }

  /** Appending a row appends its line: the form in which the dashboard writer
      produces the table, one row at a time. */
  lemma {:induction false} RowsTextSnoc(rows: seq<seq<string>>, row: seq<string>)
    ensures RowsText(rows + [row]) == RowsText(rows) + RowLine(row) + "\n"
  {
    hide RowLine, Cells;
    if rows != [] {
      assert (rows + [row])[1..] == rows[1..] + [row];
      RowsTextSnoc(rows[1..], row);
      calc {
        RowsText(rows + [row]);
        RowLine(rows[0]) + "\n" + RowsText(rows[1..] + [row]);
        RowLine(rows[0]) + "\n" + (RowsText(rows[1..]) + RowLine(row) + "\n");
        (RowLine(rows[0]) + "\n" + RowsText(rows[1..])) + RowLine(row) + "\n";
      }
    } else {
      assert [] + [row] == [row];
      assert RowsText([row]) == RowLine(row) + "\n" + RowsText([]);
    }
  }

  /** The text so far followed by the rows, once one more row is written. */
  lemma AppendRow(text: string, rows: seq<seq<string>>, row: seq<string>)
    ensures text + RowsText(rows + [row]) == (text + RowsText(rows)) + (RowLine(row) + "\n")
  {
    RowsTextSnoc(rows, row);
  }

  lemma {:induction false} RowsTextAppend(rows: seq<seq<string>>, more: seq<seq<string>>)
    ensures RowsText(rows + more) == RowsText(rows) + RowsText(more)
  {
    if rows != [] {
      assert (rows + more)[1..] == rows[1..] + more;
      RowsTextAppend(rows[1..], more);
    } else {
      assert rows + more == more;
    }
  }

  predicate NoChar(c: char, texts: seq<string>) {
    forall i :: 0 <= i < |texts| ==> c !in texts[i]
  }

  predicate NoCharIn(c: char, rows: seq<seq<string>>) {
    forall i :: 0 <= i < |rows| ==> NoChar(c, rows[i])
  }

  lemma {:induction false} CellsNoChar(c: char, open: string, texts: seq<string>, close: string)
    requires c !in open && c !in close && NoChar(c, texts)
    ensures c !in Cells(open, texts, close)
  {
    if texts != [] {
      CellsNoChar(c, open, texts[1..], close);
    }
  }

  /** The lines of a text (`text.split('\n')`). */
  function Lines(s: string): seq<string>
    decreases |s|
  {
    if '\n' !in s then [s]
    else
      var i := FirstIndex(s, '\n');
      [s[..i]] + Lines(s[i + 1..])
  }

  lemma LinesCons(a: string, b: string)
    requires '\n' !in a
    ensures Lines(a + "\n" + b) == [a] + Lines(b)
  {
    var s := a + "\n" + b;
    assert s == a + ("\n" + b);
    FirstIndexAfter(a, '\n', "\n" + b);
    assert s[..|a|] == a && s[|a| + 1..] == b;
  }

  /** The row lines, one per row. */
  function RowLines(rows: seq<seq<string>>): (lines: seq<string>)
    ensures |lines| == |rows| && forall i :: 0 <= i < |rows| ==> lines[i] == RowLine(rows[i])
  {
    seq(|rows|, i requires 0 <= i < |rows| => RowLine(rows[i]))
  }

  /** The row lines come out one line per row, in row order. */
  lemma {:induction false} RowsLines(rows: seq<seq<string>>, rest: string)
    requires NoCharIn('\n', rows)
    ensures Lines(RowsText(rows) + rest) == RowLines(rows) + Lines(rest)
  {
    if rows != [] {
      RowsLinesStep(rows, rest);
      RowsLines(rows[1..], rest);
      assert RowLines(rows) == [RowLine(rows[0])] + RowLines(rows[1..]);
      Assoc([RowLine(rows[0])], RowLines(rows[1..]), Lines(rest));
    } else {
      assert RowsText(rows) + rest == rest;
    }
  }

  lemma RowsLinesStep(rows: seq<seq<string>>, rest: string)
    requires NoCharIn('\n', rows) && rows != []
    ensures NoCharIn('\n', rows[1..])
    ensures Lines(RowsText(rows) + rest) == [RowLine(rows[0])] + Lines(RowsText(rows[1..]) + rest)
  {
    hide Lines, Cells;
    var first := RowLine(rows[0]);
    var more := RowsText(rows[1..]) + rest;
    CellsNoChar('\n', TdOpen, rows[0], TdClose);
    assert RowsText(rows) == (first + "\n") + RowsText(rows[1..]);
    Assoc(first + "\n", RowsText(rows[1..]), rest);
    LinesCons(first, more);
  }

  /** The shape of a table: the opening line, the header line, one line per row
      in order, the closing line, and nothing after its line break. */
  lemma TableLines(headers: seq<string>, rows: seq<seq<string>>)
    requires NoChar('\n', headers) && NoCharIn('\n', rows)
    ensures Lines(HtmlTable(headers, rows)) == [TableOpenLine, HeaderLine(headers)] + RowLines(rows) + ["</table>", ""]
  {
    var body := HeaderLine(headers) + "\n" + (RowsText(rows) + "</table>\n");
    BodyLines(headers, rows);
    OpenLineNoBreak();
    FirstLine(TableOpenLine, body, HeaderLine(headers), RowLines(rows));
  }

  /** The lines of a table followed by more text: the table's lines up to its
      closing line, then the lines of the text after it. */
  lemma TableLinesThen(headers: seq<string>, rows: seq<seq<string>>, rest: string)
    requires NoChar('\n', headers) && NoCharIn('\n', rows)
    ensures Lines(HtmlTable(headers, rows) + rest) == TableBlock(headers, rows) + Lines(rest)
  {
    var h := HeaderLine(headers);
    var body := h + "\n" + (RowsText(rows) + ("</table>\n" + rest));
    var rl := RowLines(rows);
    TableTextThen(headers, rows, rest);
    BodyLinesThen(headers, rows, rest);
    OpenLineNoBreak();
    LinesCons(TableOpenLine, body);
    assert Lines(HtmlTable(headers, rows) + rest) == [TableOpenLine] + (([h] + rl) + (["</table>"] + Lines(rest)));
    BlockShape(TableOpenLine, h, rl, ["</table>"], Lines(rest));
  }

  lemma BlockShape(a: string, b: string, c: seq<string>, d: seq<string>, e: seq<string>)
    ensures [a] + (([b] + c) + (d + e)) == ([a, b] + c + d) + e
  {
    assert [a] + ([b] + c) == [a, b] + c;
  }

  lemma TableTextThen(headers: seq<string>, rows: seq<seq<string>>, rest: string)
    ensures HtmlTable(headers, rows) + rest ==
              TableOpenLine + "\n" + (HeaderLine(headers) + "\n" + (RowsText(rows) + ("</table>\n" + rest)))
  {
    var h := HeaderLine(headers);
    var r := RowsText(rows);
    Assoc(TableOpenLine + "\n", h + "\n" + (r + "</table>\n"), rest);
    Assoc(h + "\n", r + "</table>\n", rest);
    Assoc(r, "</table>\n", rest);
  }

  lemma BodyLinesThen(headers: seq<string>, rows: seq<seq<string>>, rest: string)
    requires NoChar('\n', headers) && NoCharIn('\n', rows)
    ensures Lines(HeaderLine(headers) + "\n" + (RowsText(rows) + ("</table>\n" + rest)))
              == [HeaderLine(headers)] + RowLines(rows) + (["</table>"] + Lines(rest))
  {
    var h := HeaderLine(headers);
    var x := "</table>\n" + rest;
    var tail := ["</table>"] + Lines(rest);
    RowsClosingThen(rows, rest);
    HeaderNoBreak(headers);
    LinesCons(h, RowsText(rows) + x);
    assert Lines(h + "\n" + (RowsText(rows) + x)) == [h] + (RowLines(rows) + tail);
    Assoc([h], RowLines(rows), tail);
  }

  lemma HeaderNoBreak(headers: seq<string>)
    requires NoChar('\n', headers)
    ensures '\n' !in HeaderLine(headers)
  {
    CellsNoChar('\n', ThOpen, headers, ThClose);
  }

  lemma RowsClosingThen(rows: seq<seq<string>>, rest: string)
    requires NoCharIn('\n', rows)
    ensures Lines(RowsText(rows) + ("</table>\n" + rest)) == RowLines(rows) + (["</table>"] + Lines(rest))
  {
    ClosingThen(rest);
    RowsLines(rows, "</table>\n" + rest);
  }

  lemma ClosingThen(rest: string)
    ensures Lines("</table>\n" + rest) == ["</table>"] + Lines(rest)
  {
    assert "</table>\n" + rest == "</table>" + "\n" + rest;
    LinesCons("</table>", rest);
  }

  /** A table's lines up to and including its closing line. */
  function TableBlock(headers: seq<string>, rows: seq<seq<string>>): seq<string> {
    [TableOpenLine, HeaderLine(headers)] + RowLines(rows) + ["</table>"]
  }

  lemma FirstLine(t: string, body: string, h: string, rowLines: seq<string>)
    requires '\n' !in t
    requires Lines(body) == ([h] + rowLines) + ["</table>", ""]
    ensures Lines(t + "\n" + body) == [t, h] + rowLines + ["</table>", ""]
  {
    LinesCons(t, body);
    Assoc([t], [h] + rowLines, ["</table>", ""]);
    Assoc([t], [h], rowLines);
  }

  lemma BodyLines(headers: seq<string>, rows: seq<seq<string>>)
    requires NoChar('\n', headers) && NoCharIn('\n', rows)
    ensures Lines(HeaderLine(headers) + "\n" + (RowsText(rows) + "</table>\n"))
      == ([HeaderLine(headers)] + RowLines(rows)) + ["</table>", ""]
  {
    hide Lines, RowLines, RowsText, Cells;
    CellsNoChar('\n', ThOpen, headers, ThClose);
    var tail := "</table>\n";
    ClosingLines();
    RowsLines(rows, tail);
    LinesCons(HeaderLine(headers), RowsText(rows) + tail);
    Assoc([HeaderLine(headers)], RowLines(rows), Lines(tail));
  }

  lemma ClosingLines()
    ensures Lines("</table>\n") == ["</table>", ""]
  {
    assert Lines("") == [""];
    assert "</table>\n" == "</table>" + "\n" + "";
    LinesCons("</table>", "");
  }

  lemma OpenLineNoBreak()
    ensures '\n' !in TableOpenLine
  {
    assert '\n' !in "<table style='border-" && '\n' !in "collapse: collapse; ";
    assert '\n' !in "border: 2px solid black; " && '\n' !in "text-align: center;'>";
  }

  /** Reads back the texts of a run of tagged cells; a text ends at the first '<'. */
  function ParseCells(open: string, s: string, close: string): Option<seq<string>>
    requires open != []
    decreases |s|
  {
    if s == [] then Some([])
    else if |s| < |open| || s[..|open|] != open then None
    else
      var rest := s[|open|..];
      if '<' !in rest then None
      else
        var k := FirstIndex(rest, '<');
        var after := rest[k..];
        if |after| < |close| || after[..|close|] != close then None
        else
          match ParseCells(open, after[|close|..], close)
          case None => None
          case Some(texts) => Some([rest[..k]] + texts)
  }

  /** Every cell is written as one tagged cell, in order: parsing the cells back
      gives the texts, provided no text contains '<' and the closing tag starts
      with '<'. */
  lemma {:induction false} ParseCellsRoundTrip(open: string, texts: seq<string>, close: string)
    requires open != [] && close != [] && close[0] == '<' && NoChar('<', texts)
    ensures ParseCells(open, Cells(open, texts, close), close) == Some(texts)
  {
    if texts != [] {
      var tail := Cells(open, texts[1..], close);
      ParseCellStep(open, texts[0], close, tail);
      ParseCellsRoundTrip(open, texts[1..], close);
      assert [texts[0]] + texts[1..] == texts;
    }
  }

  /** Parsing one tagged cell in front of a text: the cell's text, then the rest. */
  lemma ParseCellStep(open: string, text: string, close: string, tail: string)
    requires open != [] && close != [] && close[0] == '<' && '<' !in text
    ensures var s := open + text + close + tail;
            && |s| >= |open| && s[..|open|] == open
            && '<' in s[|open|..]
            && FirstIndex(s[|open|..], '<') == |text|
            && s[|open|..][..|text|] == text
            && s[|open|..][|text|..][..|close|] == close
            && s[|open|..][|text|..][|close|..] == tail
  {
    var s := open + text + close + tail;
    assert s[..|open|] == open;
    var rest := s[|open|..];
    assert rest == text + (close + tail);
    FirstIndexAfter(text, '<', close + tail);
    assert rest[|text|..] == close + tail;
  }

  /** Reads back the cells of a row line. */
  function ParseRow(line: string): Option<seq<string>> {
    if |line| < 9 || line[..4] != "<tr>" || line[|line| - 5..] != "</tr>" then None
    else ParseCells(TdOpen, line[4..|line| - 5], TdClose)
  }

  /** A row line holds one `<td>` per cell, in order. */
  lemma RowLineRoundTrip(cells: seq<string>)
    requires NoChar('<', cells)
    ensures ParseRow(RowLine(cells)) == Some(cells)
  {
    var inner := Cells(TdOpen, cells, TdClose);
    var line := RowLine(cells);
    assert line[..4] == "<tr>";
    assert line[|line| - 5..] == "</tr>";
    assert line[4..|line| - 5] == inner;
    ParseCellsRoundTrip(TdOpen, cells, TdClose);
  }

  /** Reads back the headers of a header line. */
  function ParseHeader(line: string): Option<seq<string>> {
    if |line| < 9 || line[..4] != "<tr>" || line[|line| - 5..] != "</tr>" then None
    else ParseCells(ThOpen, line[4..|line| - 5], ThClose)
  }

  /** The header line holds one `<th>` per header, in order. */
  lemma HeaderLineRoundTrip(headers: seq<string>)
    requires NoChar('<', headers)
    ensures ParseHeader(HeaderLine(headers)) == Some(headers)
  {
    var inner := Cells(ThOpen, headers, ThClose);
    var line := HeaderLine(headers);
    assert line[..4] == "<tr>";
    assert line[|line| - 5..] == "</tr>";
    assert line[4..|line| - 5] == inner;
    ParseCellsRoundTrip(ThOpen, headers, ThClose);
  }
}
