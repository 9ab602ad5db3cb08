/** The cleaned-table component: CSV export of the rows it was given and the
    15-row preview (frontend/src/components/CleanedTable.jsx).

    The exporter follows the quoting rules 5 to 7 of section 2 of RFC 4180 for
    values holding a comma or a double quote, with three deviations that the
    model keeps: a value holding a line break is not quoted, records end in
    "\n" rather than CRLF, and header names are written unescaped. */
module CsvExport {
  import opened Wrappers
  import opened Seqs
  import opened JsValues

  /** Number of rows the preview table shows. */
  const PreviewLimit: nat := 15

  /** The text a cell contributes before quoting: nothing for null and
      undefined, `String(value)` for everything else. */
  function CellText(v: JsValue): string
  {
    if v.Null? || v.Undefined? then "" else ToJsString(v)
  }

  /** The condition under which the exporter quotes a value. */
  predicate NeedsQuotes(s: string)
  {
    ',' in s || '"' in s
  }

  /** `s.replace(/"/g, '""')`. */
  function DoubleQuotes(s: string): string
  {
    if s == [] then []
    else (if s[0] == '"' then "\"\"" else [s[0]]) + DoubleQuotes(s[1..])
  }

  /** `escapeCSVValue`. */
  function EscapeCsvValue(v: JsValue): string
  {
    if v.Null? || v.Undefined? then ""
    else
      var s := ToJsString(v);
      if NeedsQuotes(s) then "\"" + DoubleQuotes(s) + "\"" else s
  }

  /** A value is written in quotes exactly when its text holds a comma or
      a double quote; any other value is written as its text, and null and
      undefined as nothing. */
  lemma QuotedIffNeeded(v: JsValue)
    ensures (|EscapeCsvValue(v)| > 0 && EscapeCsvValue(v)[0] == '"') <==> NeedsQuotes(CellText(v))
    ensures !NeedsQuotes(CellText(v)) ==> EscapeCsvValue(v) == CellText(v)
    ensures v.Null? || v.Undefined? ==> EscapeCsvValue(v) == ""
  {
    var s := CellText(v);
    if !NeedsQuotes(s) && |s| > 0 {
      assert s[0] in s;
    }
  }

  /** The cells of one row, in header order (`headers.map(h => row[h])`). */
  function RowCells(row: Row, headers: seq<string>): (cells: seq<JsValue>)
    ensures |cells| == |headers|
    ensures forall k :: 0 <= k < |headers| ==> cells[k] == Get(row, headers[k])
  {
    if headers == [] then [] else [Get(row, headers[0])] + RowCells(row, headers[1..])
  }

  /** Every cell escaped, in order. */
  function EscapeAll(cells: seq<JsValue>): (r: seq<string>)
    ensures |r| == |cells|
    ensures forall k :: 0 <= k < |cells| ==> r[k] == EscapeCsvValue(cells[k])
  {
    if cells == [] then [] else [EscapeCsvValue(cells[0])] + EscapeAll(cells[1..])
  }

  /** The texts a reader should recover from a record of these cells. */
  function Texts(cells: seq<JsValue>): (r: seq<string>)
    ensures |r| == |cells|
    ensures forall k :: 0 <= k < |cells| ==> r[k] == CellText(cells[k])
  {
    if cells == [] then [] else [CellText(cells[0])] + Texts(cells[1..])
  }

  /** One data line: the row's escaped cells joined by commas. */
  function DataLine(row: Row, headers: seq<string>): string
  {
    Join(EscapeAll(RowCells(row, headers)), ",")
  }

  /** All data lines, in row order. */
  function DataLines(data: seq<Row>, headers: seq<string>): (r: seq<string>)
    ensures |r| == |data|
    ensures forall i :: 0 <= i < |data| ==> r[i] == DataLine(data[i], headers)
  {
    if data == [] then [] else [DataLine(data[0], headers)] + DataLines(data[1..], headers)
  }

  /** The text `downloadCSV` puts in the file: the first row's keys joined
      by commas, a line feed, then the data lines joined by line feeds. */
  function CsvContent(data: seq<Row>): string
    requires |data| >= 1
  {
    var headers := Keys(data[0]);
    Join(headers, ",") + "\n" + Join(DataLines(data, headers), "\n")
  }

  /** The component as a whole: nothing for null, a non-array or an empty
      array (there is then no download button); otherwise the CSV text. */
  function DownloadCsv(data: Option<seq<Row>>): (csv: Option<string>)
    ensures csv.None? <==> data.None? || data.value == []
    ensures csv.Some? ==> csv.value == CsvContent(data.value)
  {
    if data.None? || data.value == [] then None else Some(CsvContent(data.value))
  }

  /** The rows the preview table renders (`data.slice(0, 15)`). */
  function PreviewRows(data: seq<Row>): (shown: seq<Row>)
    ensures |shown| == if |data| < PreviewLimit then |data| else PreviewLimit
    ensures shown == data[..|shown|]
  {
    if |data| <= PreviewLimit then data else data[..PreviewLimit]
  }

  /** Whether the "Showing first 15 rows of n" footer is rendered. */
  predicate ShowsFooter(data: seq<Row>)
  {
    |data| > PreviewLimit
  }

  /** The footer appears exactly when the preview hides some rows. */
  lemma FooterIffRowsHidden(data: seq<Row>)
    ensures ShowsFooter(data) <==> |PreviewRows(data)| < |data|
  {
  }

  // ---------------------------------------------------------------------
  // A reference reader for one record, following rules 5 to 7 of section 2
  // of RFC 4180: a field starting with a double quote runs to the next
  // lone double quote, and "" inside it stands for one double quote.

  /** The fields of one record. */
  function ParseFields(s: string): seq<string>
    decreases |s|, 2
  {
    if |s| > 0 && s[0] == '"' then ParseQuoted(s[1..], "") else ParseBare(s, "")
  }

  /** An unquoted field, `acc` read so far. */
  function ParseBare(s: string, acc: string): seq<string>
    decreases |s|, 1
  {
    if s == [] then [acc]
    else if s[0] == ',' then [acc] + ParseFields(s[1..])
    else ParseBare(s[1..], acc + [s[0]])
  }

  /** Inside a quoted field, `acc` read so far. */
  function ParseQuoted(s: string, acc: string): seq<string>
    decreases |s|, 1
  {
    if s == [] then [acc]
    else if s[0] == '"' then
      if |s| > 1 && s[1] == '"' then ParseQuoted(s[2..], acc + ['"'])
      else ParseAfterQuote(s[1..], acc)
    else ParseQuoted(s[1..], acc + [s[0]])
  }

  /** Just after the closing quote of a field; anything other than a comma
      there is read on as unquoted text. */
  function ParseAfterQuote(s: string, acc: string): seq<string>
    decreases |s|, 2
  {
    if s == [] then [acc]
    else if s[0] == ',' then [acc] + ParseFields(s[1..])
    else ParseBare(s, acc)
  }

  /** What follows a field: the end of the record, or a comma and more. */
  predicate FieldEnd(suffix: string)
  {
    suffix == [] || suffix[0] == ','
  }

  /** The fields after the one that `suffix` follows. */
  function FieldsAfter(suffix: string): seq<string>
    requires FieldEnd(suffix)
  {
    if suffix == [] then [] else ParseFields(suffix[1..])
  }

  lemma {:induction false} ReadBare(t: string, acc: string, suffix: string)
    requires ',' !in t
    requires FieldEnd(suffix)
    ensures ParseBare(t + suffix, acc) == [acc + t] + FieldsAfter(suffix)
  {
    if t == [] {
      assert t + suffix == suffix;
      assert acc + t == acc;
    } else {
      assert (t + suffix)[1..] == t[1..] + suffix;
      ReadBare(t[1..], acc + [t[0]], suffix);
      assert acc + [t[0]] + t[1..] == acc + t;
    }
  }

  lemma {:induction false} ReadQuoted(t: string, acc: string, suffix: string)
    requires FieldEnd(suffix)
    ensures ParseQuoted(DoubleQuotes(t) + "\"" + suffix, acc) == [acc + t] + FieldsAfter(suffix)
  {
    var s := DoubleQuotes(t) + "\"" + suffix;
    if t == [] {
      assert s == "\"" + suffix;
      assert s[1..] == suffix;
      assert acc + t == acc;
      assert |s| > 1 ==> s[1] == ',';
    } else if t[0] == '"' {
      assert s == "\"\"" + (DoubleQuotes(t[1..]) + "\"" + suffix);
      ReadQuoted(t[1..], acc + ['"'], suffix);
      assert acc + ['"'] + t[1..] == acc + t;
    } else {
      assert s == [t[0]] + (DoubleQuotes(t[1..]) + "\"" + suffix);
      ReadQuoted(t[1..], acc + [t[0]], suffix);
      assert acc + [t[0]] + t[1..] == acc + t;
    }
  }

  /** A value that needs no quoting reads back as itself. */
  lemma ReadPlain(s: string, suffix: string)
    requires !NeedsQuotes(s)
    requires FieldEnd(suffix)
    ensures ParseFields(s + suffix) == [s] + FieldsAfter(suffix)
  {
    if s == [] {
      assert s + suffix == suffix;
    } else {
      assert s[0] in s;
      assert (s + suffix)[0] == s[0] && s[0] != '"';
    }
    ReadBare(s, "", suffix);
    assert "" + s == s;
  }

  /** A quoted value with its quotes doubled reads back as the value. */
  lemma ReadEscaped(s: string, suffix: string)
    requires FieldEnd(suffix)
    ensures ParseFields("\"" + DoubleQuotes(s) + "\"" + suffix) == [s] + FieldsAfter(suffix)
  {
    var line := "\"" + DoubleQuotes(s) + "\"" + suffix;
    assert line[1..] == DoubleQuotes(s) + "\"" + suffix;
    ReadQuoted(s, "", suffix);
    assert "" + s == s;
  }

  /** Field round-trip: reading an escaped value back gives its text, and
      the reader resumes at the comma after it. */
  lemma EscapeRoundTrip(v: JsValue, suffix: string)
    requires FieldEnd(suffix)
    ensures ParseFields(EscapeCsvValue(v) + suffix) == [CellText(v)] + FieldsAfter(suffix)
  {
    var s := CellText(v);
    if NeedsQuotes(s) {
      assert EscapeCsvValue(v) == "\"" + DoubleQuotes(s) + "\"";
      ReadEscaped(s, suffix);
    } else {
      assert EscapeCsvValue(v) == s;
      ReadPlain(s, suffix);
    }
  }

  /** Record round-trip: a line of escaped cells reads back as the cells'
      texts, one field per cell, in order. */
  lemma {:induction false} LineRoundTrip(cells: seq<JsValue>)
    requires |cells| >= 1
    ensures ParseFields(Join(EscapeAll(cells), ",")) == Texts(cells)
  {
    if |cells| == 1 {
      EscapeRoundTrip(cells[0], "");
      assert EscapeCsvValue(cells[0]) + "" == EscapeCsvValue(cells[0]);
    } else {
      var rest := Join(EscapeAll(cells[1..]), ",");
      assert EscapeAll(cells)[1..] == EscapeAll(cells[1..]);
      assert Join(EscapeAll(cells), ",") == EscapeCsvValue(cells[0]) + ("," + rest);
      EscapeRoundTrip(cells[0], "," + rest);
      assert ("," + rest)[1..] == rest;
      LineRoundTrip(cells[1..]);
    }
  }

  /** A line of values that need no quoting reads back as those values. */
  lemma {:induction false} PlainLineRoundTrip(xs: seq<string>)
    requires |xs| >= 1
    requires forall k :: 0 <= k < |xs| ==> !NeedsQuotes(xs[k])
    ensures ParseFields(Join(xs, ",")) == xs
  {
    var cells := seq(|xs|, k requires 0 <= k < |xs| => Str(xs[k]));
    assert EscapeAll(cells) == xs;
    assert Texts(cells) == xs;
    LineRoundTrip(cells);
  }

  lemma {:induction false} DoubleQuotesKeeps(s: string, c: char)
    requires c != '"' && c !in s
    ensures c !in DoubleQuotes(s)
  {
    if s != [] {
      DoubleQuotesKeeps(s[1..], c);
    }
  }

  lemma {:induction false} JoinKeeps(xs: seq<string>, sep: string, c: char)
    requires c !in sep
    requires forall k :: 0 <= k < |xs| ==> c !in xs[k]
    ensures c !in Join(xs, sep)
  {
    if |xs| > 1 {
      JoinKeeps(xs[1..], sep, c);
    }
  }

  /** A data line holds no line feed when none of its cells' texts does. */
  lemma DataLineSingle(row: Row, headers: seq<string>)
    requires forall k :: 0 <= k < |headers| ==> '\n' !in CellText(Get(row, headers[k]))
    ensures '\n' !in DataLine(row, headers)
  {
    var cells := RowCells(row, headers);
    forall k | 0 <= k < |cells| ensures '\n' !in EscapeAll(cells)[k] {
      DoubleQuotesKeeps(CellText(cells[k]), '\n');
    }
    JoinKeeps(EscapeAll(cells), ",", '\n');
  }

  /** A reader of the whole file: split at line feeds, then read each
      record. */
  function ReadCsv(text: string): (records: seq<seq<string>>)
  {
    var lines := Split(text, '\n');
    seq(|lines|, i requires 0 <= i < |lines| => ParseFields(lines[i]))
  }

  /** No header name is quoted by the exporter, so headers read back only
      when they hold no comma, double quote or line feed. */
  predicate PlainHeaders(headers: seq<string>)
  {
    forall k :: 0 <= k < |headers| ==> !NeedsQuotes(headers[k]) && '\n' !in headers[k]
  }

  /** No cell of any row, as text, holds a line feed (these would break a
      record across lines, since the exporter does not quote them). */
  predicate NoLineBreaks(data: seq<Row>, headers: seq<string>)
  {
    forall i, k :: 0 <= i < |data| && 0 <= k < |headers| ==> '\n' !in CellText(Get(data[i], headers[k]))
  }

  /** File round-trip: with at least one header, plain header names and no
      line feed in any value, reading the exported text gives the header
      names and then, for each row in order, exactly `headers.length` fields
      holding the row's texts in header order. */
  lemma ExportRoundTrip(data: seq<Row>)
    requires |data| >= 1
    requires |Keys(data[0])| >= 1
    requires PlainHeaders(Keys(data[0]))
    requires NoLineBreaks(data, Keys(data[0]))
    ensures |ReadCsv(CsvContent(data))| == |data| + 1
    ensures ReadCsv(CsvContent(data))[0] == Keys(data[0])
    ensures forall i :: 0 <= i < |data| ==>
              ReadCsv(CsvContent(data))[i + 1] == Texts(RowCells(data[i], Keys(data[0])))
  {
    var headers := Keys(data[0]);
    var lines := [Join(headers, ",")] + DataLines(data, headers);
    ContentLines(data);
    LinesHaveNoBreak(data, headers);
    SplitJoin(lines, '\n');
    PlainLineRoundTrip(headers);
    forall i | 0 <= i < |data|
      ensures ParseFields(lines[i + 1]) == Texts(RowCells(data[i], headers))
    {
      LineRoundTrip(RowCells(data[i], headers));
    }
  }

  /** The exported text is its header line and its data lines, joined by
      line feeds. */
  lemma ContentLines(data: seq<Row>)
    requires |data| >= 1
    ensures CsvContent(data) == Join([Join(Keys(data[0]), ",")] + DataLines(data, Keys(data[0])), "\n")
  {
    var lines := [Join(Keys(data[0]), ",")] + DataLines(data, Keys(data[0]));
    assert lines[1..] == DataLines(data, Keys(data[0]));
  }

  lemma LinesHaveNoBreak(data: seq<Row>, headers: seq<string>)
    requires PlainHeaders(headers)
    requires NoLineBreaks(data, headers)
    ensures var lines := [Join(headers, ",")] + DataLines(data, headers);
            forall k :: 0 <= k < |lines| ==> '\n' !in lines[k]
  {
    var lines := [Join(headers, ",")] + DataLines(data, headers);
    forall k | 0 <= k < |lines| ensures '\n' !in lines[k] {
      if k == 0 {
        JoinKeeps(headers, ",", '\n');
      } else {
        DataLineSingle(data[k - 1], headers);
      }
    }
  }

  /** Deviation from rule 6: a value with a line feed is written unquoted
      and splits its record across two lines. */
  lemma LineBreakSplitsRecord()
    ensures CsvContent([[("a", Str("x\ny"))]]) == "a\nx\ny"
    ensures |ReadCsv(CsvContent([[("a", Str("x\ny"))]]))| == 3
  {
    LineBreakText();
    ThreeLines();
  }

  lemma LineBreakText()
    ensures CsvContent([[("a", Str("x\ny"))]]) == "a\nx\ny"
  {
    assert EscapeCsvValue(Str("x\ny")) == "x\ny";
  }

  lemma ThreeLines()
    ensures Split("a\nx\ny", '\n') == ["a", "x", "y"]
  {
    SplitPiece("a", '\n', "x\ny");
    SplitPiece("x", '\n', "y");
    SplitWhole("y", '\n');
    assert "a\nx\ny" == "a" + ['\n'] + "x\ny";
    assert "x\ny" == "x" + ['\n'] + "y";
  }

  /** Deviation for headers: a header name with a comma is written as is
      and reads back as two header fields. */
  lemma CommaHeaderSplits()
    ensures Join(Keys([("a,b", Num("1"))]), ",") == "a,b"
    ensures ParseFields("a,b") == ["a", "b"]
  {
    assert "a" + ",b" == "a,b" && ",b"[1..] == "b" && "b" + "" == "b";
    assert "" + "a" == "a" && "" + "b" == "b";
    assert ParseFields("a,b") == ParseBare("a,b", "");
    ReadBare("a", "", ",b");
    assert ParseFields("b") == ParseBare("b", "");
    ReadBare("b", "", "");
  }
}
