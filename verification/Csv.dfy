/** The edge worker's reader of Tally exports: lines, quoted fields, the column map, and one row or
    one error for every data line. `float` stands for JavaScript's `parseFloat`, `norm` for the
    normalisation of a unit. */
module Csv {
  import opened Options
  import opened Spaces

  // ----- one line -----

  /** What the loop makes of the rest of a line, given the field so far and whether it is inside
      quotes. */
  function ParseFrom(line: string, current: string, inQuotes: bool): (fields: seq<string>)
    ensures |fields| >= 1
    decreases |line|
  {
    if line == "" then [current]
    else if line[0] == '"' then
      if inQuotes && |line| > 1 && line[1] == '"' then ParseFrom(line[2..], current + "\"", inQuotes)
      else ParseFrom(line[1..], current, !inQuotes)
    else if line[0] == ',' && !inQuotes then [current] + ParseFrom(line[1..], "", inQuotes)
    else ParseFrom(line[1..], current + [line[0]], inQuotes)
  }

  function ParseLine(line: string): (fields: seq<string>)
    ensures |fields| >= 1
  {
    ParseFrom(line, "", false)
  }

  /** A field as section 2 of RFC 4180 writes it in quotes, with every quote doubled. */
  function Doubled(field: string): string {
    if field == "" then "" else (if field[0] == '"' then "\"\"" else [field[0]]) + Doubled(field[1..])
  }

  predicate Plain(field: string) { forall i :: 0 <= i < |field| ==> field[i] != '"' && field[i] != ',' }

  /** A writer may quote any field, and must quote one that is not plain. */
  datatype Cell = Cell(field: string, quoted: bool)

  predicate Writable(cell: Cell) { cell.quoted || Plain(cell.field) }

  predicate AllWritable(cells: seq<Cell>) { forall i :: 0 <= i < |cells| ==> Writable(cells[i]) }

  function WriteCell(cell: Cell): string {
    if cell.quoted then "\"" + Doubled(cell.field) + "\"" else cell.field
  }

  function WriteLine(cells: seq<Cell>): string {
    if cells == [] then "" else if |cells| == 1 then WriteCell(cells[0]) else WriteCell(cells[0]) + "," + WriteLine(cells[1..])
  }

  function Fields(cells: seq<Cell>): (fields: seq<string>)
    ensures |fields| == |cells|
    ensures forall i :: 0 <= i < |cells| ==> fields[i] == cells[i].field
  {
    if cells == [] then [] else [cells[0].field] + Fields(cells[1..])
  }

  lemma {:induction false} ParsePlain(field: string, rest: string, current: string)
    requires Plain(field)
    ensures ParseFrom(field + rest, current, false) == ParseFrom(rest, current + field, false)
    decreases |field|
  {
    if field == "" {
      assert field + rest == rest && current + field == current;
    } else {
      assert (field + rest)[1..] == field[1..] + rest;
      ParsePlain(field[1..], rest, current + [field[0]]);
      assert current + [field[0]] + field[1..] == current + field;
    }
  }

  lemma ParseInside(c: char, inner: string, current: string)
    ensures ParseFrom((if c == '"' then "\"\"" else [c]) + inner, current, true) == ParseFrom(inner, current + [c], true)
  {
    if c == '"' {
      assert ("\"\"" + inner)[2..] == inner && "\"" == [c];
    } else {
      assert ([c] + inner)[1..] == inner;
    }
  }

  lemma DoubledSplit(field: string, rest: string)
    requires field != ""
    ensures Doubled(field) + rest == (if field[0] == '"' then "\"\"" else [field[0]]) + (Doubled(field[1..]) + rest)
  {
  }

  lemma QuoteEnds(rest: string, current: string)
    requires rest != "" && rest[0] == '"' && (|rest| > 1 ==> rest[1] != '"')
    ensures ParseFrom(Doubled("") + rest, current, true) == ParseFrom(rest[1..], current + "", false)
  {
    assert Doubled("") + rest == rest && current + "" == current;
  }

  lemma {:induction false} ParseQuoted(field: string, rest: string, current: string)
    requires rest != "" && rest[0] == '"' && (|rest| > 1 ==> rest[1] != '"')
    ensures ParseFrom(Doubled(field) + rest, current, true) == ParseFrom(rest[1..], current + field, false)
    decreases |field|
  {
    hide ParseFrom, Doubled;
    if field == "" {
      QuoteEnds(rest, current);
    } else {
      var c := field[0];
      DoubledSplit(field, rest);
      ParseInside(c, Doubled(field[1..]) + rest, current);
      ParseQuoted(field[1..], rest, current + [c]);
      assert current + [c] + field[1..] == current + field;
    }
  }

  /** A written cell, followed by a comma or the end of the line, is read as its field. */
  lemma ParseCell(cell: Cell, rest: string)
    requires Writable(cell) && (rest != "" ==> rest[0] == ',')
    ensures ParseFrom(WriteCell(cell) + rest, "", false) ==
            if rest == "" then [cell.field] else [cell.field] + ParseFrom(rest[1..], "", false)
  {
    if cell.quoted {
      var line, body := WriteCell(cell) + rest, Doubled(cell.field) + ("\"" + rest);
      assert line == "\"" + body;
      assert line[1..] == body;
      assert ("\"" + rest)[1..] == rest;
      ParseQuoted(cell.field, "\"" + rest, "");
    } else {
      ParsePlain(cell.field, rest, "");
    }
    assert "" + cell.field == cell.field;
  }

  /** Whatever fields are written, quoted wherever the writer likes and at least where it must,
      reading the line gives them back. */
  lemma {:induction false} LineRoundTrip(cells: seq<Cell>)
    requires cells != [] && AllWritable(cells)
    ensures ParseLine(WriteLine(cells)) == Fields(cells)
    decreases |cells|
  {
    if |cells| == 1 {
      assert WriteLine(cells) == WriteCell(cells[0]) + "";
      ParseCell(cells[0], "");
      assert Fields(cells) == [cells[0].field];
    } else {
      var rest := "," + WriteLine(cells[1..]);
      assert WriteLine(cells) == WriteCell(cells[0]) + rest;
      assert rest[1..] == WriteLine(cells[1..]);
      ParseCell(cells[0], rest);
      LineRoundTrip(cells[1..]);
    }
  }

  /** The loop, with its skip over the second quote of a pair. */
  method ParseCsvLine(line: string) returns (fields: seq<string>)
    ensures fields == ParseLine(line)
  {
    fields := [];
    var current := "";
    var inQuotes := false;
    var i := 0;
    while i < |line|
      invariant 0 <= i <= |line|
      invariant fields + ParseFrom(line[i..], current, inQuotes) == ParseLine(line)
    {
      var c := line[i];
      ghost var rest := line[i..];
      assert rest[1..] == line[i + 1..];
      assert |rest| > 1 ==> rest[1] == line[i + 1] && rest[2..] == line[i + 2..];
      if c == '"' {
        if inQuotes && i + 1 < |line| && line[i + 1] == '"' {
          current := current + "\"";
          i := i + 1;
        } else {
          inQuotes := !inQuotes;
        }
      } else if c == ',' && !inQuotes {
        fields := fields + [current];
        current := "";
      } else {
        current := current + [c];
      }
      i := i + 1;
    }
    fields := fields + [current];
  }

  // ----- the lines of a file -----

  predicate Blank(line: string) { forall i :: 0 <= i < |line| ==> IsSpace(line[i]) }

  predicate StartsWithBom(s: string) { s != "" && s[0] == '\U{FEFF}' }

  function DropBom(content: string): string {
    if StartsWithBom(content) then content[1..] else content
  }

  /** `replace(/\r\n/g, '\n')`, then `replace(/\r/g, '\n')`. */
  function PairsToNewline(s: string): string
    decreases |s|
  {
    if |s| >= 2 && s[0] == '\r' && s[1] == '\n' then "\n" + PairsToNewline(s[2..])
    else if s == "" then ""
    else [s[0]] + PairsToNewline(s[1..])
  }

  function ReturnsToNewline(s: string): string {
    if s == "" then "" else (if s[0] == '\r' then "\n" else [s[0]]) + ReturnsToNewline(s[1..])
  }

  function SplitLines(s: string, current: string): seq<string>
    decreases |s|
  {
    if s == "" then [current]
    else if s[0] == '\n' then [current] + SplitLines(s[1..], "")
    else SplitLines(s[1..], current + [s[0]])
  }

  function NonBlank(lines: seq<string>): seq<string> {
    if lines == [] then [] else (if Blank(lines[0]) then [] else [lines[0]]) + NonBlank(lines[1..])
  }

  function Lines(content: string): seq<string> {
    NonBlank(SplitLines(ReturnsToNewline(PairsToNewline(DropBom(content))), ""))
  }

  /** The ends a writer may put after a line. */
  datatype LineEnd = Newline | ReturnNewline | Return

  function EndText(end: LineEnd): string {
    match end
    case Newline => "\n"
    case ReturnNewline => "\r\n"
    case Return => "\r"
  }

  datatype Line = Line(text: string, end: LineEnd)

  function WriteLines(lines: seq<Line>): string {
    if lines == [] then "" else lines[0].text + EndText(lines[0].end) + WriteLines(lines[1..])
  }

  function Texts(lines: seq<Line>): seq<string> {
    if lines == [] then [] else [lines[0].text] + Texts(lines[1..])
  }

  predicate OneLine(text: string) { forall i :: 0 <= i < |text| ==> text[i] != '\r' && text[i] != '\n' }

  /** Non-blank lines without line breaks in them. */
  predicate LineOk(line: Line) { OneLine(line.text) && !Blank(line.text) }

  predicate LinesOk(lines: seq<Line>) { forall i :: 0 <= i < |lines| ==> LineOk(lines[i]) }

  function Normal(s: string): string { ReturnsToNewline(PairsToNewline(s)) }

  lemma {:induction false} NormalText(text: string, rest: string)
    requires OneLine(text)
    ensures Normal(text + rest) == text + Normal(rest)
    decreases |text|
  {
    if text == "" {
      assert text + rest == rest;
    } else {
      var line := text + rest;
      assert line[1..] == text[1..] + rest;
      NormalText(text[1..], rest);
      assert PairsToNewline(line) == [text[0]] + PairsToNewline(text[1..] + rest);
      assert ([text[0]] + PairsToNewline(text[1..] + rest))[1..] == PairsToNewline(text[1..] + rest);
    }
  }

  lemma NormalEnd(end: LineEnd, rest: string)
    requires rest != "" ==> rest[0] != '\n'
    ensures Normal(EndText(end) + rest) == "\n" + Normal(rest)
  {
    var s := EndText(end) + rest;
    var pairs := PairsToNewline(rest);
    match end {
      case Newline => assert s[1..] == rest;
      case ReturnNewline => assert s[2..] == rest;
      case Return => assert s[1..] == rest;
    }
    var first := if end == Return then "\r" else "\n";
    assert PairsToNewline(s) == first + pairs;
    assert (first + pairs)[1..] == pairs;
  }

  lemma {:induction false} SplitText(text: string, rest: string, current: string)
    requires OneLine(text)
    ensures SplitLines(text + "\n" + rest, current) == [current + text] + SplitLines(rest, "")
    decreases |text|
  {
    var s := text + "\n" + rest;
    if text == "" {
      assert s == "\n" + rest && s[1..] == rest && current + text == current;
    } else {
      assert s[1..] == text[1..] + "\n" + rest;
      SplitText(text[1..], rest, current + [text[0]]);
      assert current + [text[0]] + text[1..] == current + text;
    }
  }

  /** What the lines of a text are: the stretches between line breaks, in order, that hold something
      besides white space. A carriage return and newline together make one break, or two with a blank
      stretch between them. */
  lemma LinesLaw(text: string, c: char, rest: string)
    requires OneLine(text)
    ensures NonBlank(SplitLines(Normal(text), "")) == if exists i :: 0 <= i < |text| && !IsSpace(text[i]) then [text] else []
    ensures c == '\r' || c == '\n' ==>
              NonBlank(SplitLines(Normal(text + [c] + rest), "")) ==
              NonBlank(SplitLines(Normal(text), "")) + NonBlank(SplitLines(Normal(rest), ""))
  {
    NormalText(text, "");
    assert text + "" == text;
    SplitWhole(text, "");
    assert "" + text == text;
    if c == '\r' || c == '\n' {
      BreakLaw(text, c, rest);
    }
  }

  lemma {:induction false} SplitWhole(text: string, current: string)
    requires OneLine(text)
    ensures SplitLines(text, current) == [current + text]
    decreases |text|
  {
    if text == "" {
      assert current + text == current;
    } else {
      SplitWhole(text[1..], current + [text[0]]);
      assert current + [text[0]] + text[1..] == current + text;
    }
  }

  lemma BreakLaw(text: string, c: char, rest: string)
    requires OneLine(text) && (c == '\r' || c == '\n')
    ensures NonBlank(SplitLines(Normal(text + [c] + rest), "")) ==
            (if Blank(text) then [] else [text]) + NonBlank(SplitLines(Normal(rest), ""))
  {
    if c == '\r' && rest != "" && rest[0] == '\n' {
      PairLaw(text, rest[1..]);
      assert rest == "\n" + rest[1..] && text + [c] + rest == text + ("\r\n" + rest[1..]);
    } else {
      assert text + [c] + rest == text + ([c] + rest);
      NormalText(text, [c] + rest);
      if c == '\r' {
        NormalEnd(Return, rest);
      } else {
        NormalNewline(rest);
      }
      assert text + ("\n" + Normal(rest)) == text + "\n" + Normal(rest);
      SplitNonBlank(text, Normal(rest));
    }
  }

  lemma NormalNewline(rest: string)
    ensures Normal("\n" + rest) == "\n" + Normal(rest)
  {
    assert ("\n" + rest)[1..] == rest;
    assert PairsToNewline("\n" + rest) == "\n" + PairsToNewline(rest);
    assert ("\n" + PairsToNewline(rest))[1..] == PairsToNewline(rest);
  }

  lemma SplitNonBlank(text: string, rest: string)
    requires OneLine(text)
    ensures NonBlank(SplitLines(text + "\n" + rest, "")) == (if Blank(text) then [] else [text]) + NonBlank(SplitLines(rest, ""))
  {
    SplitText(text, rest, "");
    assert "" + text == text;
    assert ([text] + SplitLines(rest, ""))[1..] == SplitLines(rest, "");
  }

  lemma PairLaw(text: string, rest: string)
    requires OneLine(text)
    ensures NonBlank(SplitLines(Normal(text + ("\r\n" + rest)), "")) ==
            (if Blank(text) then [] else [text]) + NonBlank(SplitLines(Normal("\n" + rest), ""))
  {
    NormalText(text, "\r\n" + rest);
    NormalPair(rest);
    NormalNewline(rest);
    assert text + ("\n" + Normal(rest)) == text + "\n" + Normal(rest);
    SplitNonBlank(text, Normal(rest));
    SplitNonBlank("", Normal(rest));
    assert "" + "\n" + Normal(rest) == "\n" + Normal(rest);
  }

  lemma NormalPair(rest: string)
    ensures Normal("\r\n" + rest) == "\n" + Normal(rest)
  {
    assert ("\r\n" + rest)[2..] == rest;
    assert PairsToNewline("\r\n" + rest) == "\n" + PairsToNewline(rest);
    assert ("\n" + PairsToNewline(rest))[1..] == PairsToNewline(rest);
  }

  /** Whatever ends they are written with, the reader sees the lines that are not blank. */
  lemma {:induction false} LinesFrom(lines: seq<Line>)
    requires forall i :: 0 <= i < |lines| ==> OneLine(lines[i].text)
    ensures NonBlank(SplitLines(Normal(WriteLines(lines)), "")) == NonBlank(Texts(lines))
    decreases |lines|
  {
    hide Normal, OneLine, Blank;
    if lines == [] {
      NoLines();
    } else {
      var text, rest := lines[0].text, WriteLines(lines[1..]);
      LinesFrom(lines[1..]);
      EndLaw(text, lines[0].end, rest);
      assert WriteLines(lines) == text + EndText(lines[0].end) + rest;
      assert Texts(lines)[1..] == Texts(lines[1..]);
    }
  }

  lemma NoLines()
    ensures NonBlank(SplitLines(Normal(WriteLines([])), "")) == []
  {
    assert SplitLines("", "") == [""];
  }

  lemma EndLaw(text: string, end: LineEnd, rest: string)
    requires OneLine(text)
    ensures NonBlank(SplitLines(Normal(text + EndText(end) + rest), "")) ==
            (if Blank(text) then [] else [text]) + NonBlank(SplitLines(Normal(rest), ""))
  {
    hide Normal, Blank;
    match end
    case Newline => BreakLaw(text, '\n', rest);
    case Return => BreakLaw(text, '\r', rest);
    case ReturnNewline =>
      BreakLaw(text, '\r', "\n" + rest);
      EmptyFirst(rest);
      assert text + "\r\n" + rest == text + ['\r'] + ("\n" + rest);
  }

  lemma EmptyFirst(rest: string)
    ensures NonBlank(SplitLines(Normal("\n" + rest), "")) == NonBlank(SplitLines(Normal(rest), ""))
  {
    hide Normal, SplitLines, NonBlank;
    BreakLaw("", '\n', rest);
    assert "" + ['\n'] + rest == "\n" + rest;
  }

  lemma {:induction false} AllKept(lines: seq<Line>)
    requires LinesOk(lines)
    ensures NonBlank(Texts(lines)) == Texts(lines)
    decreases |lines|
  {
    if lines != [] {
      assert LineOk(lines[0]);
      assert forall i :: 0 <= i < |lines[1..]| ==> lines[1..][i] == lines[i + 1];
      AllKept(lines[1..]);
      assert Texts(lines)[1..] == Texts(lines[1..]);
    }
  }

  lemma FirstMark(lines: seq<Line>)
    ensures StartsWithBom(WriteLines(lines)) ==> lines != [] && StartsWithBom(lines[0].text)
  {
    if lines != [] {
      var text, end, rest := lines[0].text, EndText(lines[0].end), WriteLines(lines[1..]);
      assert (text + end + rest)[0] == if text != "" then text[0] else end[0];
    }
  }

  lemma MarkDropped(written: string, bom: bool)
    requires bom || !StartsWithBom(written)
    ensures DropBom((if bom then "\U{FEFF}" else "") + written) == written
  {
    var mark := "\U{FEFF}";
    assert (mark + written)[1..] == written;
    assert "" + written == written;
  }

  /** Whatever line end each line is written with, and with a byte order mark or without, the
      reader sees the lines as they were, the blank ones left out. */
  lemma FileRoundTrip(lines: seq<Line>, bom: bool)
    requires forall i :: 0 <= i < |lines| ==> OneLine(lines[i].text)
    requires lines != [] && !bom ==> !StartsWithBom(lines[0].text)
    ensures Lines((if bom then "\U{FEFF}" else "") + WriteLines(lines)) == NonBlank(Texts(lines))
    ensures LinesOk(lines) ==> NonBlank(Texts(lines)) == Texts(lines)
  {
    hide StartsWithBom, SplitLines, PairsToNewline, ReturnsToNewline, NonBlank, WriteLines;
    LinesFrom(lines);
    FirstMark(lines);
    MarkDropped(WriteLines(lines), bom);
    if LinesOk(lines) {
      AllKept(lines);
    }
  }

  // ----- columns -----

  datatype Column = PoNumber | MaterialCode | MaterialDescription | Quantity | Unit | Rate | Amount

  function Variants(column: Column): seq<string> {
    match column
    case PoNumber => ["ponumber", "po_number", "po no", "po no.", "purchase order", "orderno"]
    case MaterialCode => ["materialcode", "material_code", "itemcode", "item_code", "code", "productcode"]
    case MaterialDescription =>
      ["materialdescription", "material_description", "description", "itemdescription", "item name", "productname"]
    case Quantity => ["quantity", "qty", "orderqty", "ordered quantity", "po quantity"]
    case Unit => ["unit", "uom", "unitofmeasure", "measurement"]
    case Rate => ["rate", "unitrate", "price", "unit price"]
    case Amount => ["amount", "total", "value", "totalamount"]
  }

  const COLUMNS := [PoNumber, MaterialCode, MaterialDescription, Quantity, Unit, Rate, Amount]

  // ----- cleaning a header cell -----

  /** `toLowerCase` on one character, as far as what it gives can be kept below: besides the capital
      letters, the Kelvin sign and the dotted capital I have lower cases with a letter of the basic
      alphabet. */
  function Lowered(c: char): char {
    if 'A' <= c <= 'Z' then 'a' + (c - 'A') else if c == '\U{212A}' then 'k' else if c == '\U{0130}' then 'i' else c
  }

  function LowerCase(s: string): string {
    if s == "" then "" else [Lowered(s[0])] + LowerCase(s[1..])
  }

  predicate Alphanumeric(c: char) { 'a' <= c <= 'z' || '0' <= c <= '9' }

  predicate AllAlphanumeric(s: string) { forall i :: 0 <= i < |s| ==> Alphanumeric(s[i]) }

  /** `replace(/[^a-z0-9 ]/g, '')`. */
  function Kept(s: string): string {
    if s == "" then "" else (if Alphanumeric(s[0]) || s[0] == ' ' then [s[0]] else "") + Kept(s[1..])
  }

  /** `replace(/\s+/g, '')`. */
  function WithoutSpaces(s: string): string {
    if s == "" then "" else (if IsSpace(s[0]) then "" else [s[0]]) + WithoutSpaces(s[1..])
  }

  function CleanHeader(cell: string): string { WithoutSpaces(Kept(LowerCase(Trim(cell)))) }

  predicate Names(cell: string, column: Column) { CleanHeader(cell) in Variants(column) }

  lemma {:induction false} KeptWithoutSpaces(s: string)
    ensures AllAlphanumeric(WithoutSpaces(Kept(s)))
  {
    if s != "" {
      KeptWithoutSpaces(s[1..]);
      var rest := Kept(s[1..]);
      if Alphanumeric(s[0]) || s[0] == ' ' {
        assert Kept(s) == [s[0]] + rest && Kept(s)[1..] == rest;
      } else {
        assert Kept(s) == rest;
      }
    }
  }

  lemma {:induction false} AlphanumericKept(s: string)
    requires AllAlphanumeric(s)
    ensures LowerCase(s) == s && Kept(s) == s && WithoutSpaces(s) == s
  {
    if s != "" {
      assert Alphanumeric(s[0]);
      AlphanumericKept(s[1..]);
    }
  }

  lemma AlphanumericTrimmed(s: string)
    requires AllAlphanumeric(s)
    ensures Trim(s) == s
  {
    if s != "" {
      assert Alphanumeric(s[0]) && Alphanumeric(s[|s| - 1]);
    }
  }

  /** Some header cell is read as `name` exactly if `name` is made of small letters and digits, so
      the listed names with a space, an underscore or a dot are never recognised. */
  lemma RecognisedIff(name: string)
    ensures (exists cell :: CleanHeader(cell) == name) <==> AllAlphanumeric(name)
  {
    forall cell
      ensures AllAlphanumeric(CleanHeader(cell))
    {
      KeptWithoutSpaces(LowerCase(Trim(cell)));
    }
    if AllAlphanumeric(name) {
      AlphanumericTrimmed(name);
      AlphanumericKept(name);
      assert CleanHeader(name) == name;
    }
  }

  lemma {:induction false} LowerAppend(a: string, b: string)
    ensures LowerCase(a + b) == LowerCase(a) + LowerCase(b)
  {
    if a == "" {
      assert a + b == b;
    } else {
      assert (a + b)[1..] == a[1..] + b;
      LowerAppend(a[1..], b);
      assert LowerCase(a + b) == [Lowered(a[0])] + (LowerCase(a[1..]) + LowerCase(b));
    }
  }

  lemma {:induction false} KeptAppend(a: string, b: string)
    ensures Kept(a + b) == Kept(a) + Kept(b)
  {
    hide Alphanumeric;
    if a == "" {
      assert a + b == b;
    } else {
      assert (a + b)[1..] == a[1..] + b;
      KeptAppend(a[1..], b);
      var first := if Alphanumeric(a[0]) || a[0] == ' ' then [a[0]] else "";
      assert (a + b)[0] == a[0] && Kept(a + b) == first + Kept(a[1..] + b);
      hide Kept;
      assert first + (Kept(a[1..]) + Kept(b)) == first + Kept(a[1..]) + Kept(b);
    }
  }

  lemma {:induction false} SpacesAppend(a: string, b: string)
    ensures WithoutSpaces(a + b) == WithoutSpaces(a) + WithoutSpaces(b)
  {
    if a == "" {
      assert a + b == b;
    } else {
      assert (a + b)[1..] == a[1..] + b;
      SpacesAppend(a[1..], b);
    }
  }

  lemma OneSpace()
    ensures LowerCase(" ") == " " && Kept(" ") == " " && WithoutSpaces(" ") == ""
  {
    assert " "[1..] == "";
  }

  /** Two words come out as one. */
  lemma WordsJoined(a: string, b: string)
    requires AllAlphanumeric(a) && AllAlphanumeric(b) && a != "" && b != ""
    ensures CleanHeader(a + " " + b) == a + b
  {
    var cell := a + " " + b;
    assert Alphanumeric(a[0]) && Alphanumeric(b[|b| - 1]) && cell[0] == a[0] && cell[|cell| - 1] == b[|b| - 1];
    assert Trim(cell) == cell;
    AlphanumericKept(a);
    AlphanumericKept(b);
    OneSpace();
    hide *;
    LowerAppend(a + " ", b);
    LowerAppend(a, " ");
    KeptAppend(a + " ", b);
    KeptAppend(a, " ");
    SpacesAppend(a + " ", b);
    SpacesAppend(a, " ");
    assert a + "" == a;
    CleanIs(cell, a + b);
  }

  lemma CleanIs(cell: string, clean: string)
    requires WithoutSpaces(Kept(LowerCase(Trim(cell)))) == clean
    ensures CleanHeader(cell) == clean
  {
  }

  lemma Words()
    ensures AllAlphanumeric("po") && AllAlphanumeric("no") && AllAlphanumeric("purchase") && AllAlphanumeric("order")
    ensures "po no" == "po" + " " + "no" && "purchase order" == "purchase" + " " + "order"
    ensures "po" + "no" == "pono" && "purchase" + "order" == "purchaseorder"
  {
  }

  lemma Listed()
    ensures "po no" in Variants(PoNumber) && "purchase order" in Variants(PoNumber)
  {
    assert Variants(PoNumber)[2] == "po no" && Variants(PoNumber)[4] == "purchase order";
  }

  lemma NotListed(column: Column)
    ensures "pono" !in Variants(column) && "purchaseorder" !in Variants(column)
  {
    var names := Variants(column);
    var short, long := "pono", "purchaseorder";
    forall i | 0 <= i < |names|
      ensures names[i] != short && names[i] != long
    {
      assert short[0] == 'p' && |short| == 4 && long[0] == 'p' && |long| == 13;
      assert |names[i]| == 4 || |names[i]| == 13 ==> names[i][0] != 'p';
    }
  }

  lemma NamesOf(cell: string, clean: string, column: Column)
    requires CleanHeader(cell) == clean
    ensures Names(cell, column) <==> clean in Variants(column)
  {
  }

  /** "po no" and "purchase order" are listed for the order number, but a header cell with exactly
      that text names no column at all. */
  lemma ListedButUnread(column: Column)
    ensures "po no" in Variants(PoNumber) && "purchase order" in Variants(PoNumber)
    ensures !Names("po no", column) && !Names("purchase order", column)
  {
    hide *;
    Words();
    Listed();
    WordsJoined("po", "no");
    WordsJoined("purchase", "order");
    NotListed(column);
    NamesOf("po no", "pono", column);
    NamesOf("purchase order", "purchaseorder", column);
  }

  /** So a file whose order numbers stand under one of these is refused. */
  lemma ListedHeaderRefused(content: string, reader: Reader, result: Parsed)
    requires |Lines(content)| >= 2 && IsParse(result, content, reader)
    requires forall cell :: cell in ParseLine(Lines(content)[0]) && Names(cell, PoNumber) ==> cell == "po no" || cell == "purchase order"
    ensures result == MissingColumns(ParseLine(Lines(content)[0]))
  {
    hide Lines, ParseLine, Names;
    var header := ParseLine(Lines(content)[0]);
    var columns: map<Column, nat> :| ColumnsOf(columns, header) && result == Tabled(Lines(content), columns, reader);
    ListedButUnread(PoNumber);
    forall i | 0 <= i < |header|
      ensures !Names(header[i], PoNumber)
    {
      assert header[i] in header;
    }
  }

  /** The map gives each column the first header cell that names it, and no other. */
  ghost predicate ColumnsOf(columns: map<Column, nat>, header: seq<string>) {
    forall column ::
      if column in columns then
        && columns[column] < |header| && Names(header[columns[column]], column)
        && forall i :: 0 <= i < columns[column] ==> !Names(header[i], column)
      else forall i :: 0 <= i < |header| ==> !Names(header[i], column)
  }

  lemma ColumnsUnique(a: map<Column, nat>, b: map<Column, nat>, header: seq<string>)
    requires ColumnsOf(a, header) && ColumnsOf(b, header)
    ensures a == b
  {
    hide Names;
    forall column
      ensures column in a <==> column in b
      ensures column in a ==> a[column] == b[column]
    {
      if column in a && column in b {
        assert !(a[column] < b[column]) && !(b[column] < a[column]);
      }
    }
  }

  function Position(column: Column): (n: nat)
    ensures n < |COLUMNS| && COLUMNS[n] == column
  {
    match column
    case PoNumber => 0
    case MaterialCode => 1
    case MaterialDescription => 2
    case Quantity => 3
    case Unit => 4
    case Rate => 5
    case Amount => 6
  }

  /** A cell gives its position to the columns it names that have none yet. */
  ghost predicate Extends(after: map<Column, nat>, before: map<Column, nat>, cell: string, i: nat) {
    forall column ::
      && (column in after <==> column in before || Names(cell, column))
      && (column in after ==> after[column] == if column in before then before[column] else i)
  }

  lemma ColumnsExtend(after: map<Column, nat>, before: map<Column, nat>, header: seq<string>, i: nat)
    requires i < |header| && ColumnsOf(before, header[..i]) && Extends(after, before, header[i], i)
    ensures ColumnsOf(after, header[..i + 1])
  {
    hide Names;
    forall k | 0 <= k < i
      ensures header[..i + 1][k] == header[..i][k]
    {
    }
    assert header[..i + 1][i] == header[i];
  }

  method AddColumns(before: map<Column, nat>, cell: string, i: nat) returns (columns: map<Column, nat>)
    ensures Extends(columns, before, cell, i)
  {
    hide Names;
    columns := before;
    var k := 0;
    while k < |COLUMNS|
      invariant 0 <= k <= |COLUMNS|
      invariant forall column :: column in before ==> column in columns && columns[column] == before[column]
      invariant forall column :: column in columns && column !in before ==> columns[column] == i && Names(cell, column)
      invariant forall column :: Position(column) < k && Names(cell, column) ==> column in columns
    {
      var column := COLUMNS[k];
      assert forall other :: Position(other) == k ==> other == column;
      if Names(cell, column) && column !in columns {
        columns := columns[column := i];
      }
      k := k + 1;
    }
  }

  method BuildColumnMap(header: seq<string>) returns (columns: map<Column, nat>)
    ensures ColumnsOf(columns, header)
  {
    columns := map[];
    var i := 0;
    while i < |header|
      invariant 0 <= i <= |header|
      invariant ColumnsOf(columns, header[..i])
    {
      var next := AddColumns(columns, header[i], i);
      ColumnsExtend(next, columns, header, i);
      columns := next;
      i := i + 1;
    }
    assert header[..i] == header;
  }

  // ----- rows -----

  datatype Number = Finite(value: real) | Infinite | NaN

  datatype Row = Row(poNumber: string, materialCode: string, materialDescription: string, quantity: real, unit: string, rate: Number, amount: Number)

  datatype RowError = InsufficientFields | EmptyIdentity | InvalidQuantity | ParseError
  datatype Outcome = Good(row: Row) | Bad(error: RowError)

  /** What reading a cell depends on. */
  datatype Reader = Reader(float: string -> Number, norm: string -> string)

  function Trim(s: string): string { TrimEnd(TrimStart(s)) }

  function TrimStart(s: string): string {
    if s != "" && IsSpace(s[0]) then TrimStart(s[1..]) else s
  }

  function TrimEnd(s: string): string {
    if s != "" && IsSpace(s[|s| - 1]) then TrimEnd(s[..|s| - 1]) else s
  }

  /** `replace(/[,"]/g, '')`. */
  function Digits(s: string): string {
    if s == "" then "" else (if s[0] == ',' || s[0] == '"' then "" else [s[0]]) + Digits(s[1..])
  }

  function NumberOrZero(n: Number): Number { if n.NaN? then Finite(0.0) else n }

  function Max(a: nat, b: nat): nat { if a >= b then a else b }

  predicate HasRequired(columns: map<Column, nat>) {
    PoNumber in columns && MaterialCode in columns && Quantity in columns
  }

  /** A column the header has lies beyond the end of the line: reading it throws. */
  predicate OutOfReach(columns: map<Column, nat>, column: Column, fields: seq<string>) {
    column in columns && columns[column] >= |fields|
  }

  function Optional(columns: map<Column, nat>, column: Column, fields: seq<string>): Option<string>
    requires !OutOfReach(columns, column, fields)
  {
    if column in columns then Some(fields[columns[column]]) else None
  }

  function ReadRow(fields: seq<string>, columns: map<Column, nat>, reader: Reader): Outcome
    requires HasRequired(columns)
  {
    if |fields| < Max(Max(columns[PoNumber], columns[MaterialCode]), columns[Quantity]) + 1 then Bad(InsufficientFields)
    else
      var poNumber, materialCode := Trim(fields[columns[PoNumber]]), Trim(fields[columns[MaterialCode]]);
      var quantity := reader.float(Digits(fields[columns[Quantity]]));
      if poNumber == "" || materialCode == "" then Bad(EmptyIdentity)
      else if !quantity.Finite? || quantity.value <= 0.0 then Bad(InvalidQuantity)
      else if OutOfReach(columns, MaterialDescription, fields) || OutOfReach(columns, Unit, fields)
           || OutOfReach(columns, Rate, fields) || OutOfReach(columns, Amount, fields) then Bad(ParseError)
      else
        var description := Optional(columns, MaterialDescription, fields);
        var unit, rate, amount := Optional(columns, Unit, fields), Optional(columns, Rate, fields), Optional(columns, Amount, fields);
        Good(Row(poNumber, materialCode,
                 if description.Some? then Trim(description.value) else "",
                 quantity.value,
                 if unit.Some? then reader.norm(unit.value) else "NOS",
                 if rate.Some? then NumberOrZero(reader.float(Digits(rate.value))) else Finite(0.0),
                 if amount.Some? then NumberOrZero(reader.float(Digits(amount.value))) else Finite(0.0)))
  }

  /** The outcomes of the data lines, in order. */
  function Outcomes(lines: seq<string>, columns: map<Column, nat>, reader: Reader): (outcomes: seq<Outcome>)
    requires HasRequired(columns)
    ensures |outcomes| == |lines|
  {
    seq(|lines|, i requires 0 <= i < |lines| => ReadRow(ParseLine(lines[i]), columns, reader))
  }

  function GoodRows(outcomes: seq<Outcome>): seq<Row> {
    if outcomes == [] then []
    else GoodRows(outcomes[..|outcomes| - 1]) + if outcomes[|outcomes| - 1].Good? then [outcomes[|outcomes| - 1].row] else []
  }

  /** An error with the number of its line among the non-blank ones, the header being the first. */
  datatype Numbered = Numbered(row: nat, error: RowError)

  function Errors(outcomes: seq<Outcome>): seq<Numbered> {
    if outcomes == [] then []
    else
      Errors(outcomes[..|outcomes| - 1])
      + if outcomes[|outcomes| - 1].Bad? then [Numbered(|outcomes| + 1, outcomes[|outcomes| - 1].error)] else []
  }

  datatype Parsed = TooShort | MissingColumns(header: seq<string>) | Table(rows: seq<Row>, errors: seq<Numbered>)

  function Tabled(lines: seq<string>, columns: map<Column, nat>, reader: Reader): Parsed
    requires |lines| >= 2
  {
    if HasRequired(columns) then
      var outcomes := Outcomes(lines[1..], columns, reader);
      Table(GoodRows(outcomes), Errors(outcomes))
    else MissingColumns(ParseLine(lines[0]))
  }

  ghost predicate IsParse(result: Parsed, content: string, reader: Reader) {
    var lines := Lines(content);
    if |lines| < 2 then result == TooShort
    else
      exists columns: map<Column, nat> :: ColumnsOf(columns, ParseLine(lines[0])) && result == Tabled(lines, columns, reader)
  }

  /** The text and the reader determine the parse. */
  lemma ParseUnique(a: Parsed, b: Parsed, content: string, reader: Reader)
    requires IsParse(a, content, reader) && IsParse(b, content, reader)
    ensures a == b
  {
    hide Tabled, ColumnsOf;
    var lines := Lines(content);
    if |lines| >= 2 {
      var header := ParseLine(lines[0]);
      var first: map<Column, nat> :| ColumnsOf(first, header) && a == Tabled(lines, first, reader);
      var second: map<Column, nat> :| ColumnsOf(second, header) && b == Tabled(lines, second, reader);
      ColumnsUnique(first, second, header);
    }
  }

  /** Every data line gives exactly one row or one error, and both lists keep the lines' order. */
  lemma {:induction false} OneEach(outcomes: seq<Outcome>)
    ensures |GoodRows(outcomes)| + |Errors(outcomes)| == |outcomes|
    ensures forall i, j :: 0 <= i < j < |Errors(outcomes)| ==> Errors(outcomes)[i].row < Errors(outcomes)[j].row
    ensures forall i :: 0 <= i < |Errors(outcomes)| ==>
              && 2 <= Errors(outcomes)[i].row <= |outcomes| + 1
              && outcomes[Errors(outcomes)[i].row - 2] == Bad(Errors(outcomes)[i].error)
  {
    if outcomes != [] {
      OneEach(outcomes[..|outcomes| - 1]);
    }
  }

  /** The k-th row comes from the (k+1)-th good line. */
  lemma {:induction false} RowsInOrder(outcomes: seq<Outcome>, i: nat)
    requires i < |outcomes| && outcomes[i].Good?
    ensures |GoodRows(outcomes[..i])| < |GoodRows(outcomes)|
    ensures GoodRows(outcomes)[|GoodRows(outcomes[..i])|] == outcomes[i].row
    decreases |outcomes|
  {
    var init := outcomes[..|outcomes| - 1];
    if i < |init| {
      RowsInOrder(init, i);
      assert init[..i] == outcomes[..i];
    } else {
      assert outcomes[..i] == init;
    }
  }

  // ----- what becomes of a data line -----

  /** `n` is the number in the column, with 0 for a missing column or not-a-number. */
  ghost predicate IsAmount(n: Number, fields: seq<string>, columns: map<Column, nat>, column: Column, reader: Reader) {
    if column in columns && columns[column] < |fields| && !reader.float(Digits(fields[columns[column]])).NaN?
    then n == reader.float(Digits(fields[columns[column]]))
    else n == Finite(0.0)
  }

  ghost predicate IsRow(row: Row, fields: seq<string>, columns: map<Column, nat>, reader: Reader) {
    && (forall column :: column in columns ==> columns[column] < |fields|)
    && PoNumber in columns && row.poNumber == Trim(fields[columns[PoNumber]])
    && MaterialCode in columns && row.materialCode == Trim(fields[columns[MaterialCode]])
    && Quantity in columns && Finite(row.quantity) == reader.float(Digits(fields[columns[Quantity]]))
    && row.materialDescription == (if MaterialDescription in columns then Trim(fields[columns[MaterialDescription]]) else "")
    && row.unit == (if Unit in columns then reader.norm(fields[columns[Unit]]) else "NOS")
    && IsAmount(row.rate, fields, columns, Rate, reader)
    && IsAmount(row.amount, fields, columns, Amount, reader)
  }

  /** The fields of a data line give a row exactly if the three required columns are within the line,
      order number and material code are not blank, the quantity is finite and positive, and the other
      columns of the header are within the line too; else the error is that of the first failing test. */
  ghost predicate Reads(outcome: Outcome, fields: seq<string>, columns: map<Column, nat>, reader: Reader)
    requires HasRequired(columns)
  {
    var order, code, amount := columns[PoNumber], columns[MaterialCode], columns[Quantity];
    if !(order < |fields| && code < |fields| && amount < |fields|) then outcome == Bad(InsufficientFields)
    else
      var quantity := reader.float(Digits(fields[amount]));
      var named := Trim(fields[order]) != "" && Trim(fields[code]) != "";
      var positive := named && quantity.Finite? && quantity.value > 0.0;
      var reached := positive && forall column :: column in columns ==> columns[column] < |fields|;
      && (outcome == Bad(EmptyIdentity) <==> !named)
      && (outcome == Bad(InvalidQuantity) <==> named && !positive)
      && (outcome == Bad(ParseError) <==> positive && !reached)
      && (outcome.Good? <==> reached)
      && (reached ==> IsRow(outcome.row, fields, columns, reader))
  }

  lemma LineRead(fields: seq<string>, columns: map<Column, nat>, reader: Reader)
    requires HasRequired(columns)
    ensures Reads(ReadRow(fields, columns, reader), fields, columns, reader)
  {
    hide Trim, Digits;
    if !OutOfReach(columns, MaterialDescription, fields) && !OutOfReach(columns, Unit, fields)
       && !OutOfReach(columns, Rate, fields) && !OutOfReach(columns, Amount, fields) {
      forall column | column in columns && column !in {PoNumber, MaterialCode, Quantity}
        ensures columns[column] < |fields|
      {
        match column
        case PoNumber => case MaterialCode => case MaterialDescription => case Quantity => case Unit => case Rate => case Amount =>
      }
    }
  }

  /** How the lines of a file make up its parse, each data line on its own. */
  lemma LinesRead(result: Parsed, content: string, reader: Reader, columns: map<Column, nat>)
    requires |Lines(content)| >= 2 && IsParse(result, content, reader) && ColumnsOf(columns, ParseLine(Lines(content)[0]))
    ensures
      if PoNumber in columns && MaterialCode in columns && Quantity in columns then
        exists outcomes: seq<Outcome> ::
          && |outcomes| == |Lines(content)| - 1
          && (forall i :: 0 <= i < |outcomes| ==> Reads(outcomes[i], ParseLine(Lines(content)[i + 1]), columns, reader))
          && result == Table(GoodRows(outcomes), Errors(outcomes))
      else result == MissingColumns(ParseLine(Lines(content)[0]))
  {
    hide ParseLine, Lines, Reads, ReadRow, ColumnsOf;
    var lines := Lines(content);
    var header := ParseLine(lines[0]);
    var used: map<Column, nat> :| ColumnsOf(used, header) && result == Tabled(lines, used, reader);
    ColumnsUnique(used, columns, header);
    if HasRequired(columns) {
      var outcomes := Outcomes(lines[1..], columns, reader);
      forall i | 0 <= i < |outcomes|
        ensures Reads(outcomes[i], ParseLine(lines[i + 1]), columns, reader)
      {
        LineRead(ParseLine(lines[1..][i]), columns, reader);
      }
      assert result == Table(GoodRows(outcomes), Errors(outcomes));
    }
  }

  /** What is removed from a number: its commas and quotes, nothing else. */
  lemma {:induction false} DigitsAre(c: char, rest: string)
    ensures Digits([c] + rest) == (if c == ',' || c == '"' then "" else [c]) + Digits(rest)
    ensures Digits("") == ""
  {
    assert ([c] + rest)[1..] == rest;
  }

  /** A trimmed text is what is left between two stretches of white space, and neither starts nor ends in
      white space itself. */
  lemma TrimIs(s: string)
    ensures exists i, j :: 0 <= i <= j <= |s| && Trim(s) == s[i..j] && Blank(s[..i]) && Blank(s[j..])
    ensures Trim(s) != "" ==> !IsSpace(Trim(s)[0]) && !IsSpace(Trim(s)[|Trim(s)| - 1])
  {
    hide IsSpace;
    var i := TrimStartIs(s);
    var j := TrimEndIs(s[i..]);
    Inside(s, i, j);
    assert Trim(s) == s[i..i + j];
  }

  lemma Inside(s: string, i: nat, j: nat)
    requires i <= |s| && j <= |s| - i
    requires (forall k :: 0 <= k < i ==> IsSpace(s[k])) && forall k :: j <= k < |s| - i ==> IsSpace(s[i..][k])
    ensures s[i..][..j] == s[i..i + j] && Blank(s[..i]) && Blank(s[i + j..])
  {
    hide IsSpace;
    var end := s[i + j..];
    forall k | 0 <= k < |end|
      ensures IsSpace(end[k])
    {
      assert s[i..][j + k] == end[k];
    }
  }

  lemma {:induction false} TrimStartIs(s: string) returns (i: nat)
    ensures i <= |s| && TrimStart(s) == s[i..] && forall k :: 0 <= k < i ==> IsSpace(s[k])
    ensures i < |s| ==> !IsSpace(s[i])
  {
    hide IsSpace;
    i := 0;
    if s != "" && IsSpace(s[0]) {
      var rest := s[1..];
      var k := TrimStartIs(rest);
      i := k + 1;
      assert rest[k..] == s[i..];
      assert forall m :: 0 < m < |s| ==> s[m] == rest[m - 1];
    }
  }

  lemma {:induction false} TrimEndIs(s: string) returns (j: nat)
    ensures j <= |s| && TrimEnd(s) == s[..j] && forall k :: j <= k < |s| ==> IsSpace(s[k])
    ensures j > 0 ==> !IsSpace(s[j - 1])
  {
    hide IsSpace;
    j := |s|;
    if s != "" && IsSpace(s[|s| - 1]) {
      var init := s[..|s| - 1];
      j := TrimEndIs(init);
      assert init[..j] == s[..j];
      assert forall k :: 0 <= k < |init| ==> init[k] == s[k];
    }
  }

  // ----- what is left of a header cell -----

  /** What one character leaves of a header cell: small letters and digits themselves, capital letters
      and the two characters that lower to a letter that letter, anything else nothing. */
  function Left(c: char): string {
    if 65 <= c as int <= 90 then [(c as int + 32) as char]
    else if 97 <= c as int <= 122 || 48 <= c as int <= 57 then [c]
    else if c as int == 0x212A then "k"
    else if c as int == 0x0130 then "i"
    else ""
  }

  function Cleaned(s: string): string { WithoutSpaces(Kept(LowerCase(s))) }

  lemma CleanedOne(c: char, rest: string)
    ensures Cleaned([c] + rest) == Left(c) + Cleaned(rest)
  {
    var low, kept := LowerCase(rest), Kept(LowerCase(rest));
    assert ([c] + rest)[1..] == rest;
    assert LowerCase([c] + rest) == [Lowered(c)] + low;
    assert ([Lowered(c)] + low)[1..] == low;
    LeftIs(c);
    if Alphanumeric(Lowered(c)) || Lowered(c) == ' ' {
      assert Kept([Lowered(c)] + low) == [Lowered(c)] + kept;
      assert ([Lowered(c)] + kept)[1..] == kept;
    } else {
      assert Kept([Lowered(c)] + low) == kept;
    }
  }

  lemma LeftIs(c: char)
    ensures Left(c) == if Alphanumeric(Lowered(c)) then [Lowered(c)] else ""
    ensures IsSpace(c) ==> Left(c) == ""
    ensures Alphanumeric(c) ==> !IsSpace(c)
    ensures IsSpace(' ')
  {
    SpaceIs(c);
    SpaceIs(' ');
  }

  lemma {:induction false} CleanedAppend(a: string, b: string)
    ensures Cleaned(a + b) == Cleaned(a) + Cleaned(b)
    decreases |a|
  {
    hide Cleaned, Left;
    if a == "" {
      assert a + b == b;
      NothingCleaned();
    } else {
      CleanedAppend(a[1..], b);
      assert a == [a[0]] + a[1..] && a + b == [a[0]] + (a[1..] + b);
      CleanedOne(a[0], a[1..]);
      CleanedOne(a[0], a[1..] + b);
    }
  }

  lemma NothingCleaned()
    ensures Cleaned("") == ""
  {
  }

  lemma {:induction false} BlankCleaned(s: string)
    requires Blank(s)
    ensures Cleaned(s) == ""
    decreases |s|
  {
    hide Cleaned, Left, IsSpace;
    if s == "" {
      NothingCleaned();
    } else {
      LeftIs(s[0]);
      CleanedOne(s[0], s[1..]);
      assert s == [s[0]] + s[1..];
      BlankCleaned(s[1..]);
    }
  }

  /** A header cell is cleaned character by character. */
  lemma CleanHeaderLaw(cell: string, c: char, rest: string)
    ensures CleanHeader(cell) == Cleaned(cell)
    ensures Cleaned([c] + rest) == Left(c) + Cleaned(rest) && Cleaned("") == ""
  {
    CleanedOne(c, rest);
    NothingCleaned();
    TrimIs(cell);
    hide Left, IsSpace, Blank;
    var i, j :| 0 <= i <= j <= |cell| && Trim(cell) == cell[i..j] && Blank(cell[..i]) && Blank(cell[j..]);
    assert cell == cell[..i] + cell[i..j] + cell[j..];
    BlankCleaned(cell[..i]);
    BlankCleaned(cell[j..]);
    CleanedAppend(cell[..i] + cell[i..j], cell[j..]);
    CleanedAppend(cell[..i], cell[i..j]);
  }

  /** The names that the reader really knows, of those it lists. */
  function Readable(column: Column): seq<string> {
    match column
    case PoNumber => ["ponumber", "orderno"]
    case MaterialCode => ["materialcode", "itemcode", "code", "productcode"]
    case MaterialDescription => ["materialdescription", "description", "itemdescription", "productname"]
    case Quantity => ["quantity", "qty", "orderqty"]
    case Unit => ["unit", "uom", "unitofmeasure", "measurement"]
    case Rate => ["rate", "unitrate", "price"]
    case Amount => ["amount", "total", "value", "totalamount"]
  }

  lemma ListedNames(column: Column, i: nat)
    requires i < |Variants(column)|
    ensures AllAlphanumeric(Variants(column)[i]) ==> Variants(column)[i] in Readable(column)
  {
    var name := Variants(column)[i];
    if column.PoNumber? && 1 <= i <= 4 {
      assert name[2] == '_' || name[2] == ' ' || name[8] == ' ';
    }
    if (column.MaterialCode? && (i == 1 || i == 3)) || (column.MaterialDescription? && (i == 1 || i == 4)) {
      assert name[8] == '_' || name[4] == '_' || name[4] == ' ';
    }
    if (column.Quantity? && i >= 3) || (column.Rate? && i == 3) {
      assert name[7] == ' ' || name[2] == ' ' || name[4] == ' ';
    }
  }

  lemma ReadableNames(column: Column, i: nat)
    requires i < |Readable(column)|
    ensures Readable(column)[i] in Variants(column)
  {
    var name := Readable(column)[i];
    match column
    case PoNumber => assert name == Variants(column)[if i == 0 then 0 else 5];
    case MaterialCode => assert name == Variants(column)[if i == 0 then 0 else i + 1 + if i > 1 then 1 else 0];
    case MaterialDescription => assert name == Variants(column)[if i == 0 then 0 else i + 1 + if i > 2 then 1 else 0];
    case Quantity => assert name == Variants(column)[i];
    case Unit => assert name == Variants(column)[i];
    case Rate => assert name == Variants(column)[i];
    case Amount => assert name == Variants(column)[i];
  }

  /** A cell names a column exactly if it is cleaned to one of these. */
  lemma NamesIff(cell: string, column: Column)
    ensures Names(cell, column) <==> CleanHeader(cell) in Readable(column)
  {
    KeptWithoutSpaces(LowerCase(Trim(cell)));
    var clean, listed, readable := CleanHeader(cell), Variants(column), Readable(column);
    hide AllAlphanumeric, Variants, Readable;
    if clean in listed {
      var i :| 0 <= i < |listed| && listed[i] == clean;
      ListedNames(column, i);
    }
    if clean in readable {
      var i :| 0 <= i < |readable| && readable[i] == clean;
      ReadableNames(column, i);
    }
  }

  method ParseTallyCsv(content: string, reader: Reader) returns (result: Parsed)
    ensures IsParse(result, content, reader)
    ensures result.Table? ==> |result.rows| + |result.errors| == |Lines(content)| - 1
  {
    hide ColumnsOf, Tabled, Lines;
    var lines := Lines(content);
    if |lines| < 2 {
      return TooShort;
    }
    var header := ParseCsvLine(lines[0]);
    var columns := BuildColumnMap(header);
    result := ReadLines(lines, header, columns, reader);
  }

  method ReadLines(lines: seq<string>, header: seq<string>, columns: map<Column, nat>, reader: Reader) returns (result: Parsed)
    requires |lines| >= 2 && header == ParseLine(lines[0])
    ensures result == Tabled(lines, columns, reader)
    ensures result.Table? ==> |result.rows| + |result.errors| == |lines| - 1
  {
    hide ReadRow, ParseLine;
    if !HasRequired(columns) {
      return MissingColumns(header);
    }
    ghost var outcomes := Outcomes(lines[1..], columns, reader);
    var rows: seq<Row>, errors: seq<Numbered> := [], [];
    var i := 1;
    while i < |lines|
      invariant 1 <= i <= |lines|
      invariant rows == GoodRows(outcomes[..i - 1]) && errors == Errors(outcomes[..i - 1])
    {
      var fields := ParseCsvLine(lines[i]);
      var outcome := ReadRow(fields, columns, reader);
      assert outcome == outcomes[i - 1];
      assert outcomes[..i][..i - 1] == outcomes[..i - 1];
      match outcome {
        case Good(row) => rows := rows + [row];
        case Bad(error) => errors := errors + [Numbered(i + 1, error)];
      }
      i := i + 1;
    }
    assert outcomes[..i - 1] == outcomes;
    OneEach(outcomes);
    result := Table(rows, errors);
  }

  // ----- a whole file -----

  /** A record and how it is written. */
  datatype Record = Record(cells: seq<Cell>, end: LineEnd)

  predicate RecordOk(record: Record) {
    record.cells != [] && AllWritable(record.cells) && LineOk(Line(WriteLine(record.cells), record.end))
  }

  function WrittenRecords(records: seq<Record>): (lines: seq<Line>)
    ensures |lines| == |records|
    ensures forall i :: 0 <= i < |records| ==> lines[i] == Line(WriteLine(records[i].cells), records[i].end)
  {
    seq(|records|, i requires 0 <= i < |records| => Line(WriteLine(records[i].cells), records[i].end))
  }

  lemma {:induction false} TextsAre(lines: seq<Line>)
    ensures |Texts(lines)| == |lines| && forall i :: 0 <= i < |lines| ==> Texts(lines)[i] == lines[i].text
  {
    if lines != [] {
      TextsAre(lines[1..]);
    }
  }

  /** A table written with any quoting and any line ends, with a byte order mark or without, is read
      back cell by cell: the header's fields decide the columns, and the k-th record's fields alone
      decide the k-th outcome. */
  lemma TableRoundTrip(records: seq<Record>, bom: bool)
    requires forall i :: 0 <= i < |records| ==> RecordOk(records[i])
    requires records != [] && !bom ==> !StartsWithBom(WriteLine(records[0].cells))
    ensures
      var lines := Lines((if bom then "\U{FEFF}" else "") + WriteLines(WrittenRecords(records)));
      && |lines| == |records|
      && forall i :: 0 <= i < |records| ==> ParseLine(lines[i]) == Fields(records[i].cells)
  {
    var written := WrittenRecords(records);
    forall i | 0 <= i < |records|
      ensures LineOk(written[i])
    {
      assert RecordOk(records[i]);
    }
    FileRoundTrip(written, bom);
    TextsAre(written);
    forall i | 0 <= i < |records|
      ensures ParseLine(Texts(written)[i]) == Fields(records[i].cells)
    {
      assert RecordOk(records[i]);
      LineRoundTrip(records[i].cells);
    }
  }

  /** A line's fields as a writer of `row` puts them: every column in its place, wherever that is. */
  ghost predicate Holds(fields: seq<string>, columns: map<Column, nat>, row: Row, reader: Reader) {
    && (forall column :: column in columns && columns[column] < |fields|)
    && row.poNumber == Trim(fields[columns[PoNumber]]) != ""
    && row.materialCode == Trim(fields[columns[MaterialCode]]) != ""
    && row.materialDescription == Trim(fields[columns[MaterialDescription]])
    && reader.float(Digits(fields[columns[Quantity]])) == Finite(row.quantity) && row.quantity > 0.0
    && row.unit == reader.norm(fields[columns[Unit]])
    && row.rate == reader.float(Digits(fields[columns[Rate]])) && !row.rate.NaN?
    && row.amount == reader.float(Digits(fields[columns[Amount]])) && !row.amount.NaN?
  }

  lemma HoldsReads(fields: seq<string>, columns: map<Column, nat>, row: Row, reader: Reader)
    requires Holds(fields, columns, row, reader)
    ensures HasRequired(columns) && ReadRow(fields, columns, reader) == Good(row)
  {
    hide Trim, Digits;
    assert forall column :: !OutOfReach(columns, column, fields);
  }

  lemma {:induction false} AllGood(outcomes: seq<Outcome>, rows: seq<Row>)
    requires |outcomes| == |rows| && forall i :: 0 <= i < |rows| ==> outcomes[i] == Good(rows[i])
    ensures GoodRows(outcomes) == rows && Errors(outcomes) == []
    decreases |rows|
  {
    if rows != [] {
      AllGood(outcomes[..|rows| - 1], rows[..|rows| - 1]);
      assert rows == rows[..|rows| - 1] + [rows[|rows| - 1]];
    }
  }

  /** Writing rows under any header that names the seven columns, in any order and among any others,
      with any quoting and any line ends, and parsing the file gives exactly those rows and no
      errors. */
  lemma RowsRoundTrip(records: seq<Record>, bom: bool, columns: map<Column, nat>, rows: seq<Row>, reader: Reader)
    requires (forall i :: 0 <= i < |records| ==> RecordOk(records[i])) && |records| == |rows| + 1 && rows != []
    requires !bom ==> !StartsWithBom(WriteLine(records[0].cells))
    requires ColumnsOf(columns, Fields(records[0].cells))
    requires forall i :: 0 <= i < |rows| ==> Holds(Fields(records[i + 1].cells), columns, rows[i], reader)
    ensures IsParse(Table(rows, []), (if bom then "\U{FEFF}" else "") + WriteLines(WrittenRecords(records)), reader)
  {
    hide ColumnsOf, RecordOk, Lines, ParseLine, ReadRow, Holds, StartsWithBom;
    var lines := Lines((if bom then "\U{FEFF}" else "") + WriteLines(WrittenRecords(records)));
    TableRoundTrip(records, bom);
    HoldsReads(Fields(records[1].cells), columns, rows[0], reader);
    var outcomes := Outcomes(lines[1..], columns, reader);
    forall i | 0 <= i < |rows|
      ensures outcomes[i] == Good(rows[i])
    {
      assert lines[1..][i] == lines[i + 1];
      HoldsReads(Fields(records[i + 1].cells), columns, rows[i], reader);
    }
    AllGood(outcomes, rows);
    assert ColumnsOf(columns, ParseLine(lines[0])) && Tabled(lines, columns, reader) == Table(rows, []);
  }
}
