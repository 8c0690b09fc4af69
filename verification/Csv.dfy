/** Writing a listing as CSV and reading pasted rows as products:
    frontend/src/app/shared/utils/csv.ts and
    frontend/src/app/modules/products/product-import.component.ts. */
module Csv {
  import opened Common

  // ---- White space, as String.prototype.trim removes it ------------------------------

  predicate IsSpace(c: char) {
    || '\U{0009}' <= c <= '\U{000D}' || c == ' ' || c == '\U{00A0}' || c == '\U{1680}'
    || '\U{2000}' <= c <= '\U{200A}' || c == '\U{2028}' || c == '\U{2029}' || c == '\U{202F}'
    || c == '\U{205F}' || c == '\U{3000}' || c == '\U{FEFF}'
  }

  function TrimLeft(s: string): string {
    if s != "" && IsSpace(s[0]) then TrimLeft(s[1..]) else s
  }

  function TrimRight(s: string): string {
    if s != "" && IsSpace(s[|s| - 1]) then TrimRight(s[..|s| - 1]) else s
  }

  function Trim(s: string): string {
    TrimRight(TrimLeft(s))
  }

  predicate Trimmed(s: string) {
    s != "" ==> !IsSpace(s[0]) && !IsSpace(s[|s| - 1])
  }

  lemma {:induction false} TrimLeftShorter(s: string)
    ensures |TrimLeft(s)| <= |s|
    ensures TrimLeft(s) == s || |TrimLeft(s)| < |s|
    ensures TrimLeft(s) != "" ==> !IsSpace(TrimLeft(s)[0])
  {
    if s != "" && IsSpace(s[0]) {
      TrimLeftShorter(s[1..]);
    }
  }

  lemma {:induction false} TrimRightShorter(s: string)
    ensures |TrimRight(s)| <= |s|
    ensures TrimRight(s) == s || |TrimRight(s)| < |s|
    ensures s != "" && !IsSpace(s[0]) ==> TrimRight(s) != "" && TrimRight(s)[0] == s[0]
  {
    if s != "" && IsSpace(s[|s| - 1]) {
      TrimRightShorter(s[..|s| - 1]);
    }
  }

  lemma TrimIff(s: string)
    ensures Trim(s) == s <==> Trimmed(s)
  {
    TrimLeftShorter(s);
    TrimRightShorter(TrimLeft(s));
    if s != "" && !IsSpace(s[0]) {
      TrimRightShorter(s);
      if IsSpace(s[|s| - 1]) {
        TrimRightShorter(s[..|s| - 1]);
      }
    }
  }

  /** Trimming takes white space from both ends, all of it and nothing else. */
  lemma TrimTakesSpaces(s: string) returns (left: string, right: string)
    ensures s == left + Trim(s) + right && Trimmed(Trim(s))
    ensures (forall c :: c in left ==> IsSpace(c)) && forall c :: c in right ==> IsSpace(c)
  {
    left := TrimLeftTakes(s);
    right := TrimRightTakes(TrimLeft(s));
    TrimIsTrimmed(s);
    assert left + (Trim(s) + right) == left + Trim(s) + right;
  }

  lemma {:induction false} TrimLeftTakes(s: string) returns (left: string)
    ensures s == left + TrimLeft(s) && forall c :: c in left ==> IsSpace(c)
  {
    left := "";
    if s != "" && IsSpace(s[0]) {
      var more := TrimLeftTakes(s[1..]);
      left := [s[0]] + more;
      assert s == [s[0]] + s[1..];
    }
  }

  lemma {:induction false} TrimRightTakes(s: string) returns (right: string)
    ensures s == TrimRight(s) + right && forall c :: c in right ==> IsSpace(c)
  {
    right := "";
    if s != "" && IsSpace(s[|s| - 1]) {
      var more := TrimRightTakes(s[..|s| - 1]);
      right := more + [s[|s| - 1]];
      assert s == s[..|s| - 1] + [s[|s| - 1]];
    }
  }

  // ---- Printing ------------------------------------------------------------------------

  /** A cell: its text, or nothing for null and undefined. */
  datatype Value = Text(text: string) | Missing

  predicate IsFormula(text: string) {
    text != "" && text[0] in {'=', '+', '-', '@', '\t', '\r'}
  }

  predicate NeedsQuotes(text: string) {
    '"' in text || ',' in text || '\n' in text || '\r' in text
  }

  function Guard(text: string): string {
    if IsFormula(text) then "'" + text else text
  }

  function Doubled(text: string): string {
    if text == "" then ""
    else if text[0] == '"' then "\"\"" + Doubled(text[1..])
    else [text[0]] + Doubled(text[1..])
  }

  function Escape(text: string): string {
    var guarded := Guard(text);
    if NeedsQuotes(guarded) then "\"" + Doubled(guarded) + "\"" else guarded
  }

  function EscapeCell(value: Value): string {
    match value
    case Missing => ""
    case Text(text) => Escape(text)
  }

  function Join(parts: seq<string>, glue: string): string {
    if parts == [] then "" else if |parts| == 1 then parts[0] else parts[0] + glue + Join(parts[1..], glue)
  }

  function Escaped(cells: seq<string>): seq<string> {
    seq(|cells|, i requires 0 <= i < |cells| => Escape(cells[i]))
  }

  /** A row of the file. */
  function Row(cells: seq<string>): string {
    Join(Escaped(cells), ",")
  }

  // ---- Reading a row --------------------------------------------------------------------

  function Separator(row: string): char {
    if '\t' in row then '\t' else if ';' in row then ';' else ','
  }

  /** The cells of the rest of a row, with the cell being read and whether it is
      inside quotes. */
  function Split(row: string, separator: char, current: string, quoted: bool): (cells: seq<string>)
    ensures |cells| >= 1
    decreases |row|
  {
    if row == "" then [Trim(current)]
    else if row[0] == '"' then
      if quoted && |row| > 1 && row[1] == '"' then Split(row[2..], separator, current + "\"", quoted)
      else Split(row[1..], separator, current, !quoted)
    else if row[0] == separator && !quoted then [Trim(current)] + Split(row[1..], separator, "", quoted)
    else Split(row[1..], separator, current + [row[0]], quoted)
  }

  function CellsOf(row: string): seq<string> {
    Split(row, Separator(row), "", false)
  }

  method SplitCells(row: string) returns (cells: seq<string>)
    ensures cells == CellsOf(row)
  {
    var separator := if '\t' in row then '\t' else if ';' in row then ';' else ',';
    cells := [];
    var current := "";
    var quoted := false;
    var index := 0;
    while index < |row|
      invariant 0 <= index <= |row|
      invariant cells + Split(row[index..], separator, current, quoted) == Split(row, separator, "", false)
    {
      var character := row[index];
      assert row[index..][1..] == row[index + 1..];
      if character == '"' {
        if quoted && index + 1 < |row| && row[index + 1] == '"' {
          assert row[index..][2..] == row[index + 2..];
          current := current + "\"";
          index := index + 2;
          continue;
        }
        quoted := !quoted;
      } else if character == separator && !quoted {
        cells := cells + [Trim(current)];
        current := "";
      } else {
        current := current + [character];
      }
      index := index + 1;
    }
    cells := cells + [Trim(current)];
  }

  /** Cells pasted without quotes are cut at the tab if there is one, else at the
      semicolon if there is one, else at the comma, and each is trimmed. */
  lemma PastedRowIsCut(cells: seq<string>, separator: char)
    requires cells != [] && (separator == '\t' || separator == ';' || separator == ',')
    requires forall i :: 0 <= i < |cells| ==> '"' !in cells[i] && separator !in cells[i]
    requires separator == ';' ==> forall i :: 0 <= i < |cells| ==> '\t' !in cells[i]
    requires separator == ',' ==> forall i :: 0 <= i < |cells| ==> '\t' !in cells[i] && ';' !in cells[i]
    requires |cells| > 1 || separator == ','
    ensures |CellsOf(Join(cells, [separator]))| == |cells|
    ensures forall i :: 0 <= i < |cells| ==> CellsOf(Join(cells, [separator]))[i] == Trim(cells[i])
  {
    JoinHas(cells, [separator], '\t');
    JoinHas(cells, [separator], ';');
    assert Separator(Join(cells, [separator])) == separator;
    JoinIsCut(cells, separator);
  }

  lemma {:induction false} JoinHas(parts: seq<string>, glue: string, c: char)
    requires parts != []
    ensures c in Join(parts, glue) <==> (exists i :: 0 <= i < |parts| && c in parts[i]) || (|parts| > 1 && c in glue)
  {
    if |parts| > 1 {
      JoinHas(parts[1..], glue, c);
      if i :| 0 <= i < |parts| && c in parts[i] {
        assert i == 0 || c in parts[1..][i - 1];
      }
      if i :| 0 <= i < |parts[1..]| && c in parts[1..][i] {
        assert c in parts[i + 1];
      }
    }
  }

  lemma {:induction false} JoinIsCut(cells: seq<string>, separator: char)
    requires cells != [] && separator != '"'
    requires forall i :: 0 <= i < |cells| ==> '"' !in cells[i] && separator !in cells[i]
    ensures var found := Split(Join(cells, [separator]), separator, "", false);
      |found| == |cells| && forall i :: 0 <= i < |cells| ==> found[i] == Trim(cells[i])
    decreases |cells|
  {
    var first := cells[0];
    assert "" + first == first;
    if |cells| == 1 {
      PlainIsRead(first, "", separator, "");
      assert first + "" == first;
    } else {
      var rest := Join(cells[1..], [separator]);
      PlainIsRead(first, [separator] + rest, separator, "");
      assert first + [separator] + rest == first + ([separator] + rest);
      assert ([separator] + rest)[1..] == rest;
      JoinIsCut(cells[1..], separator);
    }
  }

  // ---- Reading what was printed ------------------------------------------------------------

  lemma {:induction false} PlainIsRead(text: string, rest: string, separator: char, current: string)
    requires '"' !in text && separator !in text
    ensures Split(text + rest, separator, current, false) == Split(rest, separator, current + text, false)
    decreases |text|
  {
    if text == "" {
      assert text + rest == rest && current + text == current;
    } else {
      assert (text + rest)[1..] == text[1..] + rest;
      assert current + [text[0]] + text[1..] == current + text;
      PlainIsRead(text[1..], rest, separator, current + [text[0]]);
    }
  }

  /** Inside quotes one character of the text is read, a quote as two of them. */
  lemma QuotedStep(text: string, tail: string, separator: char, current: string)
    requires text != ""
    ensures Split(Doubled(text) + tail, separator, current, true)
         == Split(Doubled(text[1..]) + tail, separator, current + [text[0]], true)
  {
    var whole, rest := Doubled(text) + tail, Doubled(text[1..]) + tail;
    if text[0] == '"' {
      assert whole == ['"', '"'] + rest && whole[2..] == rest;
      assert current + "\"" == current + [text[0]];
    } else {
      assert whole == [text[0]] + rest && whole[1..] == rest;
    }
  }

  lemma {:induction false} QuotedIsRead(text: string, rest: string, separator: char, current: string)
    requires rest == "" || rest[0] != '"'
    ensures Split(Doubled(text) + ("\"" + rest), separator, current, true)
         == Split(rest, separator, current + text, false)
    decreases |text|
  {
    var tail := "\"" + rest;
    if text == "" {
      assert Doubled(text) + tail == tail && tail[1..] == rest && current + text == current;
    } else {
      QuotedStep(text, tail, separator, current);
      QuotedIsRead(text[1..], rest, separator, current + [text[0]]);
      assert current + [text[0]] + text[1..] == current + text;
    }
  }

  lemma Regroup(a: string, b: string, c: string, d: string)
    ensures (a + b + c) + d == a + (b + (c + d)) && (a + (b + (c + d)))[|a|..] == b + (c + d)
  {
  }

  lemma QuotedCellIsRead(text: string, rest: string, separator: char)
    requires rest == "" || rest[0] != '"'
    ensures Split("\"" + (Doubled(text) + ("\"" + rest)), separator, "", false) == Split(rest, separator, text, false)
  {
    Regroup("\"", Doubled(text), "\"", rest);
    QuotedIsRead(text, rest, separator, "");
    assert "" + text == text;
  }

  /** A printed cell is read back as its guarded text, as long as what separates
      cells is not loose inside it. */
  lemma CellIsRead(text: string, rest: string, separator: char)
    requires NeedsQuotes(Guard(text)) || separator !in Guard(text)
    requires rest == "" || rest[0] != '"'
    requires separator != '"'
    ensures Split(Escape(text) + rest, separator, "", false) == Split(rest, separator, Guard(text), false)
  {
    var guarded := Guard(text);
    if NeedsQuotes(guarded) {
      Regroup("\"", Doubled(guarded), "\"", rest);
      QuotedCellIsRead(guarded, rest, separator);
    } else {
      PlainIsRead(guarded, rest, separator, "");
      assert "" + guarded == guarded;
    }
  }

  /** A cell that a spreadsheet would run is disarmed: what is read back has an
      apostrophe before it. Any other cell is read back as it was, apart from white
      space. */
  lemma FormulasAreDisarmed(text: string)
    ensures Split(Escape(text), ',', "", false)
      == [Trim(if |text| > 0 && (text[0] == '=' || text[0] == '+' || text[0] == '-' || text[0] == '@' || text[0] == '\t'
                                 || text[0] == '\r') then "'" + text else text)]
  {
    CellIsRead(text, "", ',');
    assert Escape(text) + "" == Escape(text);
  }

  /** How a cell is printed: nothing for none; between quotes when the text, disarmed,
      holds a quote, a comma or a line end, with its quotes doubled; and else as it is. */
  lemma CellIsPrinted(text: string)
    ensures EscapeCell(Missing) == ""
    ensures var disarmed := if IsFormula(text) then "'" + text else text;
      if exists i :: 0 <= i < |disarmed| && disarmed[i] in {'"', ',', '\n', '\r'}
      then EscapeCell(Text(text)) == "\"" + Doubled(disarmed) + "\""
      else EscapeCell(Text(text)) == disarmed
  {
    var disarmed := if IsFormula(text) then "'" + text else text;
    if c :| c in disarmed && c in {'"', ',', '\n', '\r'} {
      var i :| 0 <= i < |disarmed| && disarmed[i] == c;
    }
  }

  function Guarded(cells: seq<string>): seq<string> {
    seq(|cells|, i requires 0 <= i < |cells| => Trim(Guard(cells[i])))
  }

  lemma RowOfCons(cells: seq<string>)
    requires |cells| >= 1
    ensures |cells| == 1 ==> Row(cells) == Escape(cells[0])
    ensures |cells| > 1 ==> Row(cells) == Escape(cells[0]) + ("," + Row(cells[1..]))
  {
    var parts := Escaped(cells);
    assert parts[0] == Escape(cells[0]);
    if |cells| > 1 {
      assert parts[1..] == Escaped(cells[1..]);
      assert parts[0] + "," + Join(parts[1..], ",") == parts[0] + ("," + Join(parts[1..], ","));
    }
  }

  /** Read at commas, a printed row gives every cell, guarded and trimmed. */
  lemma {:induction false} RowIsRead(cells: seq<string>)
    requires cells != []
    ensures Split(Row(cells), ',', "", false) == Guarded(cells)
    decreases |cells|
  {
    RowOfCons(cells);
    if |cells| == 1 {
      CellIsRead(cells[0], "", ',');
      assert Escape(cells[0]) + "" == Escape(cells[0]);
    } else {
      CellThenRest(cells[0], Row(cells[1..]));
      RowIsRead(cells[1..]);
      GuardedOfCons(cells);
    }
  }

  lemma CellThenRest(text: string, rest: string)
    ensures Split(Escape(text) + ("," + rest), ',', "", false) == [Trim(Guard(text))] + Split(rest, ',', "", false)
  {
    CellIsRead(text, "," + rest, ',');
    assert ("," + rest)[1..] == rest;
  }

  lemma GuardedOfCons(cells: seq<string>)
    requires cells != []
    ensures Guarded(cells) == [Trim(Guard(cells[0]))] + Guarded(cells[1..])
  {
    var all, rest := Guarded(cells), Guarded(cells[1..]);
    forall i | 0 <= i < |rest| ensures all[i + 1] == rest[i] {
      assert cells[1..][i] == cells[i + 1];
    }
  }

  // ---- Which separator is found --------------------------------------------------------------

  lemma {:induction false} DoubledMembers(text: string, c: char)
    ensures c in Doubled(text) <==> c in text
    ensures Count(Doubled(text), ',') == Count(text, ',')
  {
    if text != "" {
      DoubledMembers(text[1..], c);
      CountConcat(if text[0] == '"' then "\"\"" else [text[0]], Doubled(text[1..]), ',');
    }
  }

  function Count(s: string, c: char): nat {
    if s == "" then 0 else (if s[0] == c then 1 else 0) + Count(s[1..], c)
  }

  lemma {:induction false} CountConcat(a: string, b: string, c: char)
    ensures Count(a + b, c) == Count(a, c) + Count(b, c)
  {
    if a == "" {
      assert a + b == b;
    } else {
      assert (a + b)[1..] == a[1..] + b;
      CountConcat(a[1..], b, c);
    }
  }

  lemma CountOne(x: char, c: char)
    ensures Count([x], c) == if x == c then 1 else 0
  {
    assert [x][1..] == "";
  }

  /** Printing a cell adds quotes, and commas never. */
  lemma EscapeMembers(text: string, c: char)
    requires c != '"' && c != '\''
    ensures c in Escape(text) <==> c in text
    ensures Count(Escape(text), ',') == Count(text, ',')
  {
    var guarded := Guard(text);
    CountOne('\'', ',');
    CountOne('"', ',');
    CountConcat("'", text, ',');
    if NeedsQuotes(guarded) {
      DoubledMembers(guarded, c);
      CountConcat("\"", Doubled(guarded), ',');
      CountConcat("\"" + Doubled(guarded), "\"", ',');
    }
  }

  ghost predicate Within(cells: seq<string>, c: char) {
    exists i :: 0 <= i < |cells| && c in cells[i]
  }

  lemma {:induction false} RowMembers(cells: seq<string>, c: char)
    requires cells != [] && c != '"' && c != '\'' && c != ','
    ensures c in Row(cells) <==> Within(cells, c)
    decreases |cells|
  {
    RowOfCons(cells);
    EscapeMembers(cells[0], c);
    if |cells| > 1 {
      RowMembers(cells[1..], c);
      if Within(cells[1..], c) {
        var i :| 0 <= i < |cells[1..]| && c in cells[1..][i];
        assert c in cells[i + 1];
      }
      if Within(cells, c) {
        var i :| 0 <= i < |cells| && c in cells[i];
        assert i == 0 || c in cells[1..][i - 1];
      }
    }
  }

  // ---- Read at anything but commas, a row of several cells is never itself -----------------

  function Commas(cells: seq<string>): nat {
    if cells == [] then 0 else Count(cells[0], ',') + Commas(cells[1..])
  }

  lemma {:induction false} RowCommas(cells: seq<string>)
    requires cells != []
    ensures Count(Row(cells), ',') == Commas(cells) + |cells| - 1
    decreases |cells|
  {
    RowOfCons(cells);
    EscapeMembers(cells[0], ',');
    if |cells| > 1 {
      RowCommas(cells[1..]);
      CountOne(',', ',');
      CountConcat(",", Row(cells[1..]), ',');
      CountConcat(Escape(cells[0]), "," + Row(cells[1..]), ',');
    }
  }

  lemma {:induction false} TrimLeftCommas(s: string)
    ensures Count(TrimLeft(s), ',') == Count(s, ',')
  {
    if s != "" && IsSpace(s[0]) {
      TrimLeftCommas(s[1..]);
    }
  }

  lemma {:induction false} TrimRightCommas(s: string)
    ensures Count(TrimRight(s), ',') == Count(s, ',')
  {
    if s != "" && IsSpace(s[|s| - 1]) {
      TrimRightCommas(s[..|s| - 1]);
      assert s == s[..|s| - 1] + [s[|s| - 1]];
      CountConcat(s[..|s| - 1], [s[|s| - 1]], ',');
      CountOne(s[|s| - 1], ',');
    }
  }

  /** Reading drops quotes and separators, and keeps every comma. */
  lemma {:induction false} SplitKeepsCommas(row: string, separator: char, current: string, quoted: bool)
    requires separator != ','
    ensures Commas(Split(row, separator, current, quoted)) == Count(current, ',') + Count(row, ',')
    decreases |row|
  {
    TrimLeftCommas(current);
    TrimRightCommas(TrimLeft(current));
    if row == "" {
      assert Commas([Trim(current)]) == Count(Trim(current), ',') + Commas([]);
    } else if row[0] == '"' {
      if quoted && |row| > 1 && row[1] == '"' {
        CountOne('"', ',');
        CountConcat(current, "\"", ',');
        SplitKeepsCommas(row[2..], separator, current + "\"", quoted);
        assert row[1..][1..] == row[2..];
      } else {
        SplitKeepsCommas(row[1..], separator, current, !quoted);
      }
    } else if row[0] == separator && !quoted {
      SplitKeepsCommas(row[1..], separator, "", quoted);
      var rest := Split(row[1..], separator, "", quoted);
      assert ([Trim(current)] + rest)[1..] == rest;
    } else {
      CountOne(row[0], ',');
      CountConcat(current, [row[0]], ',');
      SplitKeepsCommas(row[1..], separator, current + [row[0]], quoted);
    }
  }

  lemma {:induction false} LooseSeparatorSplits(text: string, separator: char, current: string)
    requires '"' !in text && separator in text
    ensures |Split(text, separator, current, false)| >= 2
    decreases |text|
  {
    if text[0] != separator {
      LooseSeparatorSplits(text[1..], separator, current + [text[0]]);
    }
  }

  // ---- The round trip ---------------------------------------------------------------------------

  /** A cell that nothing is done to but quoting. */
  predicate Clean(text: string) {
    Trimmed(text) && !IsFormula(text)
  }

  lemma CleanIff(text: string)
    ensures Trim(Guard(text)) == text <==> Clean(text)
  {
    TrimIff(text);
    if IsFormula(text) {
      TrimLeftShorter(Guard(text));
      assert TrimLeft(Guard(text)) == Guard(text);
      TrimRightShorter(Guard(text));
    }
  }

  lemma GuardedIff(cells: seq<string>)
    ensures Guarded(cells) == cells <==> forall i :: 0 <= i < |cells| ==> Clean(cells[i])
  {
    forall i | 0 <= i < |cells| ensures Guarded(cells)[i] == cells[i] <==> Clean(cells[i]) {
      CleanIff(cells[i]);
    }
    if forall i :: 0 <= i < |cells| ==> Clean(cells[i]) {
      assert forall i :: 0 <= i < |cells| ==> Guarded(cells)[i] == cells[i];
    }
  }

  /** Reading a printed row gives its cells back exactly when every cell is clean
      and none holds a semicolon or a tab; a lone cell may hold them when it is
      quoted for another reason. */
  lemma RoundTripIff(cells: seq<string>)
    requires cells != []
    ensures CellsOf(Row(cells)) == cells
       <==> && (forall i :: 0 <= i < |cells| ==> Clean(cells[i]))
            && ((!Within(cells, ';') && !Within(cells, '\t')) || (|cells| == 1 && NeedsQuotes(cells[0])))
  {
    RowMembers(cells, ';');
    RowMembers(cells, '\t');
    if !Within(cells, ';') && !Within(cells, '\t') {
      RowIsRead(cells);
      GuardedIff(cells);
    } else if |cells| == 1 {
      LoneCell(cells);
    } else {
      RowCommas(cells);
      SplitKeepsCommas(Row(cells), Separator(Row(cells)), "", false);
    }
  }

  lemma LoneCell(cells: seq<string>)
    requires |cells| == 1 && (Within(cells, ';') || Within(cells, '\t'))
    ensures CellsOf(Row(cells)) == cells <==> Clean(cells[0]) && NeedsQuotes(cells[0])
  {
    RowOfCons(cells);
    RowMembers(cells, ';');
    RowMembers(cells, '\t');
    var row, text := Row(cells), cells[0];
    CleanIff(text);
    assert cells == [text];
    if NeedsQuotes(Guard(text)) {
      CellIsRead(text, "", Separator(row));
      assert Escape(text) + "" == row;
    } else {
      EscapeMembers(text, Separator(row));
      LooseSeparatorSplits(row, Separator(row), "");
    }
  }

  // ---- A whole file -------------------------------------------------------------------------------

  const BOM := "\U{FEFF}"

  function Line(values: seq<Value>): string {
    Join(seq(|values|, i requires 0 <= i < |values| => EscapeCell(values[i])), ",")
  }

  function ToCsv(headers: seq<string>, rows: seq<seq<Value>>): string {
    Join([Row(headers)] + seq(|rows|, i requires 0 <= i < |rows| => Line(rows[i])), "\r\n")
  }

  /** A text cut at every line end, with or without the carriage return. */
  function LinesFrom(text: string, current: string): seq<string>
    decreases |text|
  {
    if text == "" then [current]
    else if text[0] == '\n' then [current] + LinesFrom(text[1..], "")
    else if text[0] == '\r' && |text| > 1 && text[1] == '\n' then [current] + LinesFrom(text[2..], "")
    else LinesFrom(text[1..], current + [text[0]])
  }

  function SplitLines(text: string): seq<string> {
    LinesFrom(text, "")
  }

  datatype NewProduct = NewProduct(code: string, description: string, balance: nat)

  datatype ParsedLine =
    | Product(line: nat, product: NewProduct)
    | NeedsCodeAndDescription(line: nat)
    | InvalidBalance(line: nat)

  function Folded(c: char): char {
    if 'A' <= c <= 'Z' then c - 'A' + 'a' else if c == '\U{00D3}' then '\U{00F3}' else c
  }

  /** /^(code|c[oó]digo)$/i */
  predicate IsHeader(cell: string) {
    var folded := seq(|cell|, i requires 0 <= i < |cell| => Folded(cell[i]));
    folded == "code" || folded == "codigo" || folded == "c\U{00F3}digo"
  }

  /** The letter at i of a word in either case. */
  predicate Spells(cell: string, lower: string, upper: string)
    requires |lower| == |upper|
  {
    |cell| == |lower| && forall i :: 0 <= i < |cell| ==> cell[i] == lower[i] || cell[i] == upper[i]
  }

  /** The header is "code" or "codigo", with or without its accent, in any mix of
      cases. */
  lemma HeaderIsAWord(cell: string)
    ensures IsHeader(cell) <==>
      Spells(cell, "code", "CODE") || Spells(cell, "codigo", "CODIGO") || Spells(cell, "c\U{00F3}digo", "C\U{00D3}DIGO")
  {
    FoldedSpells(cell, "code", "CODE");
    FoldedSpells(cell, "codigo", "CODIGO");
    FoldedSpells(cell, "c\U{00F3}digo", "C\U{00D3}DIGO");
  }

  lemma FoldedSpells(cell: string, lower: string, upper: string)
    requires |lower| == |upper|
    requires forall i :: 0 <= i < |lower| ==>
      forall c: char :: Folded(c) == lower[i] <==> c == lower[i] || c == upper[i]
    ensures seq(|cell|, i requires 0 <= i < |cell| => Folded(cell[i])) == lower <==> Spells(cell, lower, upper)
  {
    var folded := seq(|cell|, i requires 0 <= i < |cell| => Folded(cell[i]));
    if folded == lower {
      forall i | 0 <= i < |cell| ensures cell[i] == lower[i] || cell[i] == upper[i] {
        assert folded[i] == lower[i];
      }
    }
  }

  /** What one line is read as; a blank line and a first header line as nothing.
      `read` is the number a text spells, when that is a count. */
  function LineRead(raw: string, index: nat, read: string -> Option<nat>): seq<ParsedLine> {
    var row, line := Trim(raw), index + 1;
    if row == "" then []
    else
      var cells := CellsOf(row);
      if index == 0 && IsHeader(cells[0]) then []
      else if cells[0] == "" || |cells| < 2 || cells[1] == "" then [NeedsCodeAndDescription(line)]
      else
        var quantity := if |cells| < 3 || cells[2] == "" then Some(0) else read(cells[2]);
        if quantity.None? then [InvalidBalance(line)]
        else [Product(line, NewProduct(cells[0], cells[1], quantity.value))]
  }

  function Catalogue(raws: seq<string>, index: nat, read: string -> Option<nat>): seq<ParsedLine> {
    if raws == [] then [] else LineRead(raws[0], index, read) + Catalogue(raws[1..], index + 1, read)
  }

  lemma CatalogueStep(lines: seq<ParsedLine>, raws: seq<string>, index: nat, read: string -> Option<nat>)
    requires index < |raws|
    ensures lines + Catalogue(raws[index..], index, read)
         == lines + LineRead(raws[index], index, read) + Catalogue(raws[index + 1..], index + 1, read)
  {
    assert raws[index..][1..] == raws[index + 1..];
  }

  /** The callback for one line of the paste. */
  method ParseLine(raw: string, index: nat, read: string -> Option<nat>) returns (lines: seq<ParsedLine>)
    ensures lines == LineRead(raw, index, read)
  {
    var line, trimmed := index + 1, Trim(raw);
    if trimmed == "" {
      return [];
    }
    var cells := SplitCells(trimmed);
    if index == 0 && IsHeader(cells[0]) {
      return [];
    }
    if cells[0] == "" || |cells| < 2 || cells[1] == "" {
      return [NeedsCodeAndDescription(line)];
    }
    var quantity := if |cells| < 3 || cells[2] == "" then Some(0) else read(cells[2]);
    if quantity.None? {
      return [InvalidBalance(line)];
    }
    lines := [Product(line, NewProduct(cells[0], cells[1], quantity.value))];
  }

  method ParseCatalogue(text: string, read: string -> Option<nat>) returns (lines: seq<ParsedLine>)
    ensures lines == Catalogue(SplitLines(text), 0, read)
  {
    var raws := SplitLines(text);
    lines := [];
    for index := 0 to |raws|
      invariant lines + Catalogue(raws[index..], index, read) == Catalogue(raws, 0, read)
    {
      CatalogueStep(lines, raws, index, read);
      var parsed := ParseLine(raws[index], index, read);
      lines := lines + parsed;
    }
  }

  /** The entry of line i: nothing for a blank line, nor for a header in the first; what
      is wrong with it; or its product, of which there are none when the count is left
      out. */
  ghost predicate IsEntry(raws: seq<string>, i: nat, read: string -> Option<nat>, entry: ParsedLine)
    requires i < |raws|
  {
    var cells := CellsOf(Trim(raws[i]));
    var named := |cells| > 1 && cells[0] != "" && cells[1] != "";
    var counted := |cells| > 2 && cells[2] != "";
    && entry.line == i + 1 && Trim(raws[i]) != "" && !(i == 0 && IsHeader(cells[0]))
    && match entry
       case NeedsCodeAndDescription(_) => !named
       case InvalidBalance(_) => named && counted && read(cells[2]) == None
       case Product(_, p) =>
         && named && p.code == cells[0] && p.description == cells[1]
         && if counted then read(cells[2]) == Some(p.balance) else p.balance == 0
  }

  lemma LineEntry(raws: seq<string>, i: nat, read: string -> Option<nat>, entry: ParsedLine)
    requires i < |raws|
    ensures entry in LineRead(raws[i], i, read) <==> IsEntry(raws, i, read, entry)
    ensures |LineRead(raws[i], i, read)| <= 1
  {
  }

  lemma {:induction false} EntriesFrom(raws: seq<string>, index: nat, read: string -> Option<nat>, entry: ParsedLine)
    requires index <= |raws|
    ensures entry in Catalogue(raws[index..], index, read) <==>
      exists i :: index <= i < |raws| && IsEntry(raws, i, read, entry)
    decreases |raws| - index
  {
    if index < |raws| {
      CatalogueStep([], raws, index, read);
      EntriesFrom(raws, index + 1, read, entry);
      LineEntry(raws, index, read, entry);
    }
  }

  lemma {:induction false} EntriesAscend(raws: seq<string>, index: nat, read: string -> Option<nat>)
    requires index <= |raws|
    ensures var entries := Catalogue(raws[index..], index, read);
      && (forall j :: 0 <= j < |entries| ==> entries[j].line > index)
      && forall j, k :: 0 <= j < k < |entries| ==> entries[j].line < entries[k].line
    decreases |raws| - index
  {
    if index < |raws| {
      CatalogueStep([], raws, index, read);
      EntriesAscend(raws, index + 1, read);
      forall entry | entry in LineRead(raws[index], index, read) ensures entry.line == index + 1 {
        LineEntry(raws, index, read, entry);
      }
      OneEntry(LineRead(raws[index], index, read), Catalogue(raws[index + 1..], index + 1, read), index);
    }
  }

  lemma OneEntry(first: seq<ParsedLine>, rest: seq<ParsedLine>, index: nat)
    requires |first| <= 1 && forall entry :: entry in first ==> entry.line == index + 1
    requires forall j :: 0 <= j < |rest| ==> rest[j].line > index + 1
    requires forall j, k :: 0 <= j < k < |rest| ==> rest[j].line < rest[k].line
    ensures var all := first + rest;
      && (forall j :: 0 <= j < |all| ==> all[j].line > index)
      && forall j, k :: 0 <= j < k < |all| ==> all[j].line < all[k].line
  {
    assert first != [] ==> first[0] in first;
  }

  /** A pasted text is read as the entries of its lines, one a line at most, in the order
      of the lines. */
  lemma CatalogueIsItsEntries(raws: seq<string>, read: string -> Option<nat>, entry: ParsedLine)
    ensures entry in Catalogue(raws, 0, read) <==> exists i :: 0 <= i < |raws| && IsEntry(raws, i, read, entry)
    ensures forall j, k :: 0 <= j < k < |Catalogue(raws, 0, read)| ==>
      Catalogue(raws, 0, read)[j].line < Catalogue(raws, 0, read)[k].line
  {
    assert raws[0..] == raws;
    EntriesFrom(raws, 0, read, entry);
    EntriesAscend(raws, 0, read);
  }

  // ---- Importing what was exported ----------------------------------------------------------------

  /** A carriage return alone ends no line. */
  predicate OneLine(text: string) {
    '\n' !in text
  }

  /** A CRLF between two texts is always a cut between them. */
  lemma {:induction false} CutBetween(text: string, rest: string, current: string)
    ensures LinesFrom(text + ("\r\n" + rest), current) == LinesFrom(text, current) + LinesFrom(rest, "")
    decreases |text|
  {
    var whole := text + ("\r\n" + rest);
    if text == "" {
      assert whole[2..] == rest;
    } else if text[0] == '\n' {
      assert whole[1..] == text[1..] + ("\r\n" + rest);
      CutBetween(text[1..], rest, "");
    } else if text[0] == '\r' && |text| > 1 && text[1] == '\n' {
      assert whole[2..] == text[2..] + ("\r\n" + rest);
      CutBetween(text[2..], rest, "");
    } else {
      assert whole[1..] == text[1..] + ("\r\n" + rest);
      assert text[0] == '\r' ==> whole[1] != '\n';
      CutBetween(text[1..], rest, current + [text[0]]);
    }
  }

  lemma {:induction false} LastLineIsCut(text: string, current: string)
    requires OneLine(text)
    ensures LinesFrom(text, current) == [current + text]
    decreases |text|
  {
    if text == "" {
      assert current + text == current;
    } else {
      assert current + [text[0]] + text[1..] == current + text;
      LastLineIsCut(text[1..], current + [text[0]]);
    }
  }

  /** Lines joined by CRLF are cut where they were joined. */
  lemma {:induction false} LinesAreCut(lines: seq<string>)
    requires lines != [] && forall i :: 0 <= i < |lines| ==> OneLine(lines[i])
    ensures SplitLines(Join(lines, "\r\n")) == lines
  {
    assert "" + lines[0] == lines[0];
    if |lines| == 1 {
      LastLineIsCut(lines[0], "");
      assert [lines[0]] == lines;
    } else {
      var rest := Join(lines[1..], "\r\n");
      LinesAreCut(lines[1..]);
      CutBetween(lines[0], rest, "");
      LastLineIsCut(lines[0], "");
      assert lines[0] + "\r\n" + rest == lines[0] + ("\r\n" + rest);
      assert [lines[0]] + lines[1..] == lines;
    }
  }

  /** Lines that end either way. */
  function Ended(lines: seq<string>, ends: seq<string>): string
    requires |lines| == |ends| + 1
  {
    if ends == [] then lines[0] else lines[0] + ends[0] + Ended(lines[1..], ends[1..])
  }

  lemma {:induction false} CutAtNewline(text: string, rest: string, current: string)
    requires OneLine(text) && (text != "" ==> text[|text| - 1] != '\r')
    ensures LinesFrom(text + ("\n" + rest), current) == [current + text] + LinesFrom(rest, "")
    decreases |text|
  {
    var whole := text + ("\n" + rest);
    if text == "" {
      assert whole[1..] == rest && current + text == current;
    } else {
      assert whole[1..] == text[1..] + ("\n" + rest);
      assert current + [text[0]] + text[1..] == current + text;
      CutAtNewline(text[1..], rest, current + [text[0]]);
    }
  }

  /** Lines are cut wherever they end, with or without a carriage return; only a line
      that itself ends in one cannot be told from a longer end. */
  lemma {:induction false} LinesAreCutEitherWay(lines: seq<string>, ends: seq<string>)
    requires |lines| == |ends| + 1 && forall i :: 0 <= i < |lines| ==> OneLine(lines[i])
    requires forall i :: 0 <= i < |ends| ==>
      || ends[i] == "\r\n"
      || (ends[i] == "\n" && (lines[i] != "" ==> lines[i][|lines[i]| - 1] != '\r'))
    ensures SplitLines(Ended(lines, ends)) == lines
    decreases |ends|
  {
    assert "" + lines[0] == lines[0];
    LastLineIsCut(lines[0], "");
    if ends == [] {
      assert [lines[0]] == lines;
    } else {
      var rest := Ended(lines[1..], ends[1..]);
      LinesAreCutEitherWay(lines[1..], ends[1..]);
      assert lines[0] + ends[0] + rest == lines[0] + (ends[0] + rest);
      assert [lines[0]] + lines[1..] == lines;
      if ends[0] == "\r\n" {
        CutBetween(lines[0], rest, "");
      } else {
        CutAtNewline(lines[0], rest, "");
      }
    }
  }

  /** A cell that comes back from the file as it is. */
  predicate Plain(text: string) {
    Clean(text) && OneLine(text) && ';' !in text && '\t' !in text
  }

  ghost predicate AllPlain(cells: seq<string>) {
    forall i :: 0 <= i < |cells| ==> Plain(cells[i])
  }

  lemma EscapeEnds(text: string)
    requires Clean(text)
    ensures Trimmed(Escape(text)) && (Escape(text) == "" <==> text == "")
  {
  }

  lemma {:induction false} PlainRow(cells: seq<string>)
    requires cells != [] && AllPlain(cells)
    ensures Trimmed(Row(cells)) && OneLine(Row(cells)) && CellsOf(Row(cells)) == cells
    ensures cells[0] != "" ==> Row(cells) != ""
  {
    RowMembers(cells, '\n');
    RoundTripIff(cells);
    RowTrimmed(cells);
    RowOfCons(cells);
    EscapeEnds(cells[0]);
  }

  lemma {:induction false} RowTrimmed(cells: seq<string>)
    requires cells != [] && AllPlain(cells)
    ensures Trimmed(Row(cells))
    decreases |cells|
  {
    RowOfCons(cells);
    EscapeEnds(cells[0]);
    if |cells| > 1 {
      RowTrimmed(cells[1..]);
      var row, rest := Row(cells), Row(cells[1..]);
      assert row[|row| - 1] == if rest == "" then ',' else rest[|rest| - 1];
    }
  }

  /** A product of the listing on screen, and the row it is exported as. */
  datatype Listed = Listed(code: string, description: string, balance: nat, updatedAt: string)

  function Exported(p: Listed, show: nat -> string): seq<Value> {
    [Text(p.code), Text(p.description), Text(show(p.balance)), Text(p.updatedAt)]
  }

  function Export(headers: seq<string>, products: seq<Listed>, show: nat -> string): string {
    ToCsv(headers, seq(|products|, i requires 0 <= i < |products| => Exported(products[i], show)))
  }

  /** Counts are written in digits and read back. */
  ghost predicate ReadsBack(show: nat -> string, read: string -> Option<nat>) {
    forall n: nat :: show(n) != "" && Plain(show(n)) && read(show(n)) == Some(n)
  }

  predicate Importable(p: Listed) {
    Plain(p.code) && Plain(p.description) && Plain(p.updatedAt) && p.code != "" && p.description != ""
  }

  function Imported(products: seq<Listed>, line: nat): seq<ParsedLine> {
    seq(|products|, i requires 0 <= i < |products| =>
      Product(line + i, NewProduct(products[i].code, products[i].description, products[i].balance)))
  }

  function CellsOfListed(p: Listed, show: nat -> string): seq<string> {
    [p.code, p.description, show(p.balance), p.updatedAt]
  }

  lemma ProductIsRead(p: Listed, show: nat -> string, read: string -> Option<nat>, index: nat)
    requires ReadsBack(show, read) && Importable(p) && index > 0
    ensures OneLine(Line(Exported(p, show)))
    ensures LineRead(Line(Exported(p, show)), index, read)
         == [Product(index + 1, NewProduct(p.code, p.description, p.balance))]
  {
    var cells := CellsOfListed(p, show);
    var values := Exported(p, show);
    assert seq(|values|, i requires 0 <= i < |values| => EscapeCell(values[i])) == Escaped(cells);
    assert Plain(show(p.balance));
    PlainRow(cells);
    TrimIff(Row(cells));
  }

  function ProductLines(products: seq<Listed>, show: nat -> string): seq<string> {
    seq(|products|, i requires 0 <= i < |products| => Line(Exported(products[i], show)))
  }

  lemma {:induction false} ProductsAreRead(products: seq<Listed>, show: nat -> string, read: string -> Option<nat>,
                                           index: nat)
    requires ReadsBack(show, read) && (forall p :: p in products ==> Importable(p)) && index > 0
    ensures Catalogue(ProductLines(products, show), index, read) == Imported(products, index + 1)
    decreases |products|
  {
    if products != [] {
      var first := products[0];
      assert first in products;
      ProductIsRead(first, show, read, index);
      ProductsAreRead(products[1..], show, read, index + 1);
      FirstLine(products, show);
      FirstImported(products, index + 1);
    }
  }

  lemma FirstLine(products: seq<Listed>, show: nat -> string)
    requires products != []
    ensures ProductLines(products, show)[0] == Line(Exported(products[0], show))
    ensures ProductLines(products, show)[1..] == ProductLines(products[1..], show)
  {
  }

  lemma FirstImported(products: seq<Listed>, line: nat)
    requires products != []
    ensures Imported(products, line)
         == [Product(line, NewProduct(products[0].code, products[0].description, products[0].balance))]
          + Imported(products[1..], line + 1)
  {
    var all, rest := Imported(products, line), Imported(products[1..], line + 1);
    forall i | 0 <= i < |rest| ensures all[i + 1] == rest[i] {
      assert products[1..][i] == products[i + 1];
    }
    assert all[1..] == rest;
    assert all == [all[0]] + all[1..];
  }

  lemma ProductLinesAreLines(products: seq<Listed>, show: nat -> string, read: string -> Option<nat>)
    requires ReadsBack(show, read) && forall p :: p in products ==> Importable(p)
    ensures forall i :: 0 <= i < |products| ==> OneLine(ProductLines(products, show)[i])
  {
    forall i | 0 <= i < |products| ensures OneLine(ProductLines(products, show)[i]) {
      assert products[i] in products;
      ProductIsRead(products[i], show, read, 1);
    }
  }

  lemma HeaderIsSkipped(headers: seq<string>, prefix: string, read: string -> Option<nat>)
    requires headers != [] && AllPlain(headers) && IsHeader(headers[0]) && (prefix == "" || prefix == BOM)
    ensures OneLine(prefix + Row(headers)) && LineRead(prefix + Row(headers), 0, read) == []
  {
    PlainRow(headers);
    TrimIff(Row(headers));
    var raw := prefix + Row(headers);
    if prefix == BOM {
      assert raw[0] == '\U{FEFF}' && raw[1..] == Row(headers);
    } else {
      assert raw == Row(headers);
    }
  }

  lemma ExportLines(headers: seq<string>, products: seq<Listed>, show: nat -> string, prefix: string)
    ensures prefix + Export(headers, products, show)
         == Join([prefix + Row(headers)] + ProductLines(products, show), "\r\n")
  {
    var rows := seq(|products|, i requires 0 <= i < |products| => Exported(products[i], show));
    assert seq(|rows|, i requires 0 <= i < |rows| => Line(rows[i])) == ProductLines(products, show);
    var lines := ProductLines(products, show);
    assert ([Row(headers)] + lines)[1..] == lines == ([prefix + Row(headers)] + lines)[1..];
  }

  /** Enough: with plain cells and a header that is recognised. */
  lemma PlainIsImported(headers: seq<string>, products: seq<Listed>, show: nat -> string, read: string -> Option<nat>,
                        prefix: string)
    requires ReadsBack(show, read) && (prefix == "" || prefix == BOM)
    requires headers != [] && AllPlain(headers) && IsHeader(headers[0])
    requires forall p :: p in products ==> Importable(p)
    ensures Catalogue(SplitLines(prefix + Export(headers, products, show)), 0, read) == Imported(products, 2)
  {
    var lines := [prefix + Row(headers)] + ProductLines(products, show);
    HeaderIsSkipped(headers, prefix, read);
    ProductsAreRead(products, show, read, 1);
    ProductLinesAreLines(products, show, read);
    ExportLines(headers, products, show, prefix);
    LinesAreCut(lines);
    assert lines[1..] == ProductLines(products, show);
  }

  // ---- And only then: one line -----------------------------------------------------------------------

  lemma TrimIsTrimmed(s: string)
    ensures Trimmed(Trim(s))
  {
    TrimLeftShorter(s);
    TrimRightTrims(TrimLeft(s));
    if TrimLeft(s) != "" {
      TrimRightShorter(TrimLeft(s));
    }
  }

  lemma {:induction false} TrimRightTrims(s: string)
    ensures TrimRight(s) != "" ==> !IsSpace(TrimRight(s)[|TrimRight(s)| - 1])
  {
    if s != "" && IsSpace(s[|s| - 1]) {
      TrimRightTrims(s[..|s| - 1]);
    }
  }

  lemma {:induction false} CellsAreTrimmed(row: string, separator: char, current: string, quoted: bool, i: nat)
    requires i < |Split(row, separator, current, quoted)|
    ensures Trimmed(Split(row, separator, current, quoted)[i])
    decreases |row|
  {
    TrimIsTrimmed(current);
    if row != "" {
      if row[0] == '"' {
        if quoted && |row| > 1 && row[1] == '"' {
          CellsAreTrimmed(row[2..], separator, current + "\"", quoted, i);
        } else {
          CellsAreTrimmed(row[1..], separator, current, !quoted, i);
        }
      } else if row[0] == separator && !quoted {
        if i > 0 {
          CellsAreTrimmed(row[1..], separator, "", quoted, i - 1);
        }
      } else {
        CellsAreTrimmed(row[1..], separator, current + [row[0]], quoted, i);
      }
    }
  }

  /** Read at anything but commas, the first cell keeps the commas read so far. */
  lemma {:induction false} FirstKeepsCommas(row: string, separator: char, current: string, quoted: bool)
    ensures Count(Split(row, separator, current, quoted)[0], ',') >= Count(current, ',')
    decreases |row|
  {
    TrimLeftCommas(current);
    TrimRightCommas(TrimLeft(current));
    if row != "" {
      if row[0] == '"' {
        if quoted && |row| > 1 && row[1] == '"' {
          CountConcat(current, "\"", ',');
          FirstKeepsCommas(row[2..], separator, current + "\"", quoted);
        } else {
          FirstKeepsCommas(row[1..], separator, current, !quoted);
        }
      } else if row[0] != separator || quoted {
        CountConcat(current, [row[0]], ',');
        FirstKeepsCommas(row[1..], separator, current + [row[0]], quoted);
      }
    }
  }

  lemma {:induction false} TrimLeftMembers(s: string, c: char)
    requires c !in s
    ensures c !in TrimLeft(s)
  {
    if s != "" && IsSpace(s[0]) {
      TrimLeftMembers(s[1..], c);
    }
  }

  lemma {:induction false} TrimRightMembers(s: string, c: char)
    requires c !in s
    ensures c !in TrimRight(s)
  {
    if s != "" && IsSpace(s[|s| - 1]) {
      TrimRightMembers(s[..|s| - 1], c);
    }
  }

  /** A loose separator ends the first cell before it. */
  lemma {:induction false} LooseEndsFirst(text: string, rest: string, separator: char, current: string)
    requires '"' !in text && separator in text && separator !in current
    ensures separator !in Split(text + rest, separator, current, false)[0]
    decreases |text|
  {
    assert (text + rest)[1..] == text[1..] + rest;
    if text[0] == separator {
      TrimLeftMembers(current, separator);
      TrimRightMembers(TrimLeft(current), separator);
    } else {
      LooseEndsFirst(text[1..], rest, separator, current + [text[0]]);
    }
  }

  /** A row of several cells read at anything but commas has another first cell. */
  lemma FirstIsOther(cells: seq<string>, separator: char)
    requires |cells| > 1 && (separator == ';' || separator == '\t')
    ensures Split(Row(cells), separator, "", false)[0] != cells[0]
  {
    RowOfCons(cells);
    var text, rest := cells[0], Row(cells[1..]);
    EscapeMembers(text, separator);
    if NeedsQuotes(Guard(text)) || separator !in Guard(text) {
      CellIsRead(text, "," + rest, separator);
      CommaIsKept(rest, separator, Guard(text));
      CountOne('\'', ',');
      CountConcat("'", text, ',');
    } else {
      LooseEndsFirst(Guard(text), "," + rest, separator, "");
    }
  }

  lemma CommaIsKept(rest: string, separator: char, current: string)
    requires separator != ','
    ensures Count(Split("," + rest, separator, current, false)[0], ',') > Count(current, ',')
  {
    assert ("," + rest)[1..] == rest;
    CountOne(',', ',');
    CountConcat(current, [','], ',');
    FirstKeepsCommas(rest, separator, current + [','], false);
  }

  /** What ends a row: its last cell, or a comma before an empty one. */
  lemma {:induction false} RowEnds(cells: seq<string>)
    requires |cells| > 1
    ensures var row, last := Row(cells), Escape(cells[|cells| - 1]);
      row != "" && row[|row| - 1] == if last == "" then ',' else last[|last| - 1]
    decreases |cells|
  {
    RowOfCons(cells);
    RowOfCons(cells[1..]);
    if |cells| > 2 {
      RowEnds(cells[1..]);
    }
  }

  lemma ProductRow(p: Listed, show: nat -> string)
    ensures Line(Exported(p, show)) == Row(CellsOfListed(p, show))
  {
    var values := Exported(p, show);
    assert seq(|values|, i requires 0 <= i < |values| => EscapeCell(values[i])) == Escaped(CellsOfListed(p, show));
  }

  lemma ProductRowIsTrimmed(p: Listed, show: nat -> string)
    requires Trimmed(p.code) && p.code != "" && Clean(p.updatedAt)
    ensures Trimmed(Row(CellsOfListed(p, show)))
  {
    var cells := CellsOfListed(p, show);
    RowOfCons(cells);
    RowEnds(cells);
    EscapeEnds(p.updatedAt);
    assert Row(cells)[0] == Escape(p.code)[0];
  }

  /** A line that is read as its product has plain cells. */
  lemma LineIsPlain(p: Listed, show: nat -> string, read: string -> Option<nat>, index: nat)
    requires Clean(p.updatedAt) && index > 0
    requires LineRead(Line(Exported(p, show)), index, read)
          == [Product(index + 1, NewProduct(p.code, p.description, p.balance))]
    ensures Clean(p.code) && Clean(p.description) && p.code != "" && p.description != ""
    ensures forall c :: c == ';' || c == '\t' ==> c !in p.code && c !in p.description
  {
    var cells, row := CellsOfListed(p, show), Line(Exported(p, show));
    ProductRow(p, show);
    var found := CellsOf(Trim(row));
    assert found[0] == p.code && found[1] == p.description;
    CellsAreTrimmed(Trim(row), Separator(Trim(row)), "", false, 0);
    ProductRowIsTrimmed(p, show);
    TrimIff(row);
    if Separator(row) != ',' {
      FirstIsOther(cells, Separator(row));
    }
    RowIsRead(cells);
    CleanIff(p.code);
    CleanIff(p.description);
    forall c | c == ';' || c == '\t' ensures c !in p.code && c !in p.description {
      RowMembers(cells, c);
      assert !Within(cells, c);
      assert c !in cells[0] && c !in cells[1];
    }
  }

  // ---- And only then: the lines of a file --------------------------------------------------------------

  predicate HasInk(s: string) {
    exists i :: 0 <= i < |s| && !IsSpace(s[i])
  }

  lemma {:induction false} TrimLeftKeepsInk(s: string)
    requires HasInk(s)
    ensures HasInk(TrimLeft(s))
  {
    if IsSpace(s[0]) {
      var i :| 0 <= i < |s| && !IsSpace(s[i]);
      assert !IsSpace(s[1..][i - 1]);
      TrimLeftKeepsInk(s[1..]);
    }
  }

  lemma {:induction false} TrimRightKeepsInk(s: string)
    requires HasInk(s)
    ensures TrimRight(s) != ""
  {
    if IsSpace(s[|s| - 1]) {
      var i :| 0 <= i < |s| && !IsSpace(s[i]);
      assert !IsSpace(s[..|s| - 1][i]);
      TrimRightKeepsInk(s[..|s| - 1]);
    }
  }

  lemma InkStays(s: string)
    requires HasInk(s)
    ensures Trim(s) != ""
  {
    TrimLeftKeepsInk(s);
    TrimRightKeepsInk(TrimLeft(s));
  }

  function NonBlank(lines: seq<string>): nat {
    if lines == [] then 0 else (if Trim(lines[0]) == "" then 0 else 1) + NonBlank(lines[1..])
  }

  lemma {:induction false} NonBlankConcat(a: seq<string>, b: seq<string>)
    ensures NonBlank(a + b) == NonBlank(a) + NonBlank(b)
  {
    if a == [] {
      assert a + b == b;
    } else {
      assert (a + b)[1..] == a[1..] + b;
      NonBlankConcat(a[1..], b);
    }
  }

  lemma CatalogueFirst(head: string, rest: seq<string>, index: nat, read: string -> Option<nat>)
    ensures Catalogue([head] + rest, index, read) == LineRead(head, index, read) + Catalogue(rest, index + 1, read)
  {
    assert ([head] + rest)[1..] == rest;
  }

  /** After the first line every line that is not blank is one entry. */
  lemma {:induction false} CatalogueCounts(lines: seq<string>, index: nat, read: string -> Option<nat>)
    requires index > 0
    ensures |Catalogue(lines, index, read)| == NonBlank(lines)
  {
    if lines != [] {
      CatalogueCounts(lines[1..], index + 1, read);
    }
  }

  lemma {:induction false} InkIsALine(text: string, current: string)
    requires HasInk(current + text)
    ensures NonBlank(LinesFrom(text, current)) >= 1
    decreases |text|
  {
    if text == "" {
      assert current + text == current;
      InkStays(current);
    } else if text[0] == '\n' {
      OneNewline(text, current, 1);
    } else if text[0] == '\r' && |text| > 1 && text[1] == '\n' {
      OneNewline(text, current, 2);
    } else {
      assert current + [text[0]] + text[1..] == current + text;
      InkIsALine(text[1..], current + [text[0]]);
    }
  }

  /** The ink is before the line end or after it. */
  lemma {:induction false} OneNewline(text: string, current: string, n: nat)
    requires HasInk(current + text) && 0 < n <= |text| && forall i :: 0 <= i < n ==> IsSpace(text[i])
    ensures NonBlank([current] + LinesFrom(text[n..], "")) >= 1
    decreases |text|, 0
  {
    InkOfConcat(current, text);
    if HasInk(current) {
      InkStays(current);
    } else {
      InkAfter(text, n);
      assert "" + text[n..] == text[n..];
      InkIsALine(text[n..], "");
      assert ([current] + LinesFrom(text[n..], ""))[1..] == LinesFrom(text[n..], "");
    }
  }

  lemma InkOfConcat(a: string, b: string)
    ensures HasInk(a + b) <==> HasInk(a) || HasInk(b)
  {
    forall i | 0 <= i < |a + b| ensures (a + b)[i] == if i < |a| then a[i] else b[i - |a|] {
    }
    if HasInk(a) {
      var i :| 0 <= i < |a| && !IsSpace(a[i]);
      assert !IsSpace((a + b)[i]);
    }
    if HasInk(b) {
      var i :| 0 <= i < |b| && !IsSpace(b[i]);
      assert !IsSpace((a + b)[|a| + i]);
    }
  }

  lemma InkAfter(s: string, n: nat)
    requires HasInk(s) && n <= |s| && forall i :: 0 <= i < n ==> IsSpace(s[i])
    ensures HasInk(s[n..])
  {
    var i :| 0 <= i < |s| && !IsSpace(s[i]);
    assert !IsSpace(s[n..][i - n]);
  }

  function One(b: bool): nat {
    if b then 1 else 0
  }

  /** A line end with ink before it and after it makes two lines. */
  lemma {:induction false} NewlineParts(a: string, b: string, current: string)
    ensures NonBlank(LinesFrom(a + ("\n" + b), current)) >= One(HasInk(current + a)) + One(HasInk(b))
    decreases |a|
  {
    var whole := a + ("\n" + b);
    if a == "" {
      assert whole[1..] == b && current + a == current;
      LineThenRest(current, b);
    } else if a[0] == '\n' {
      assert whole[1..] == a[1..] + ("\n" + b);
      NewlineParts(a[1..], b, "");
      CurrentOrRest(current, a, 1, LinesFrom(whole[1..], ""), One(HasInk(b)));
    } else if a[0] == '\r' && whole[1] == '\n' {
      if |a| == 1 {
        assert whole[2..] == b;
        LineThenRest(current, b);
        CurrentOnly(current, a);
      } else {
        assert whole[2..] == a[2..] + ("\n" + b);
        NewlineParts(a[2..], b, "");
        CurrentOrRest(current, a, 2, LinesFrom(whole[2..], ""), One(HasInk(b)));
      }
    } else {
      assert whole[1..] == a[1..] + ("\n" + b);
      assert current + [a[0]] + a[1..] == current + a;
      NewlineParts(a[1..], b, current + [a[0]]);
    }
  }

  lemma LineThenRest(current: string, rest: string)
    ensures NonBlank([current] + LinesFrom(rest, "")) >= One(HasInk(current)) + One(HasInk(rest))
  {
    assert ([current] + LinesFrom(rest, ""))[1..] == LinesFrom(rest, "");
    if HasInk(current) {
      InkStays(current);
    }
    if HasInk(rest) {
      assert "" + rest == rest;
      InkIsALine(rest, "");
    }
  }

  lemma CurrentOnly(current: string, spaces: string)
    requires !HasInk(spaces)
    ensures HasInk(current + spaces) <==> HasInk(current)
  {
    InkOfConcat(current, spaces);
  }

  /** Ink in what was read before a line end, or in what follows it. */
  lemma CurrentOrRest(current: string, a: string, n: nat, lines: seq<string>, more: nat)
    requires n <= |a| && (forall i :: 0 <= i < n ==> IsSpace(a[i]))
    requires NonBlank(lines) >= One(HasInk("" + a[n..])) + more
    ensures NonBlank([current] + lines) >= One(HasInk(current + a)) + more
  {
    assert "" + a[n..] == a[n..];
    assert ([current] + lines)[1..] == lines;
    InkOfConcat(current, a);
    if HasInk(current) {
      InkStays(current);
    } else if HasInk(a) {
      InkAfter(a, n);
    }
  }

  /** A text with a line end between two visible characters. */
  lemma TwoLines(text: string, i: nat, k: nat, j: nat)
    requires i < k < j < |text| && text[k] == '\n' && !IsSpace(text[i]) && !IsSpace(text[j])
    ensures NonBlank(SplitLines(text)) >= 2
  {
    var a, b := text[..k], text[k + 1..];
    assert text == a + ("\n" + b) && "" + a == a;
    assert !IsSpace(a[i]) && !IsSpace(b[j - k - 1]);
    NewlineParts(a, b, "");
  }

  /** A cell with a line end is printed with it between two quotes. */
  lemma PrintedNewline(text: string) returns (k: nat)
    requires '\n' in text
    ensures 0 < k < |Escape(text)| - 1 && Escape(text)[k] == '\n'
    ensures Escape(text)[0] == '"' && Escape(text)[|Escape(text)| - 1] == '"'
  {
    EscapeMembers(text, '\n');
    assert '\n' in Guard(text);
    k :| 0 <= k < |Escape(text)| && Escape(text)[k] == '\n';
  }

  predicate Breaks(cell: string, k: nat) {
    0 < k < |cell| - 1 && cell[k] == '\n' && cell[0] == '"' && cell[|cell| - 1] == '"'
  }

  lemma FirstBreaks(first: string, rest: string, k: nat)
    requires Breaks(first, k)
    ensures NonBlank(SplitLines(first + rest)) >= 2
  {
    var line := first + rest;
    assert line[0] == first[0] && line[k] == first[k] && line[|first| - 1] == first[|first| - 1];
    TwoLines(line, 0, k, |first| - 1);
  }

  lemma SecondBreaks(first: string, second: string, rest: string, k: nat)
    requires Breaks(second, k)
    ensures NonBlank(SplitLines(first + ("," + (second + rest)))) >= 2
  {
    var line, at := first + ("," + (second + rest)), |first| + 1;
    assert line[|first|] == ',' && line[at + k] == second[k] && line[at + |second| - 1] == second[|second| - 1];
    TwoLines(line, |first|, at + k, at + |second| - 1);
  }

  /** So a product with a line end in its code or description takes two lines. */
  lemma NewlineIsTwoLines(p: Listed, show: nat -> string)
    requires '\n' in p.code || '\n' in p.description
    ensures NonBlank(SplitLines(Line(Exported(p, show)))) >= 2
  {
    var cells := CellsOfListed(p, show);
    ProductRow(p, show);
    RowOfCons(cells);
    RowOfCons(cells[1..]);
    if '\n' in p.code {
      var k := PrintedNewline(p.code);
      FirstBreaks(Escape(p.code), "," + Row(cells[1..]), k);
    } else {
      var k := PrintedNewline(p.description);
      SecondBreaks(Escape(p.code), Escape(p.description), "," + Row(cells[1..][1..]), k);
    }
  }

  /** The lines of the products, each cut where it is cut on its own. */
  function Cut(products: seq<Listed>, show: nat -> string): seq<string> {
    if products == [] then [] else SplitLines(Line(Exported(products[0], show))) + Cut(products[1..], show)
  }

  lemma LineHasInk(p: Listed, show: nat -> string)
    ensures NonBlank(SplitLines(Line(Exported(p, show)))) >= 1
  {
    var cells, line := CellsOfListed(p, show), Line(Exported(p, show));
    ProductRow(p, show);
    RowOfCons(cells);
    assert line[|Escape(p.code)|] == ',';
    assert "" + line == line && !IsSpace(line[|Escape(p.code)|]);
    InkIsALine(line, "");
  }

  lemma {:induction false} EveryProductIsALine(products: seq<Listed>, show: nat -> string)
    ensures NonBlank(Cut(products, show)) >= |products|
  {
    if products != [] {
      EveryProductIsALine(products[1..], show);
      LineHasInk(products[0], show);
      NonBlankConcat(SplitLines(Line(Exported(products[0], show))), Cut(products[1..], show));
    }
  }

  lemma {:induction false} CutOfJoin(lines: seq<string>, products: seq<Listed>, show: nat -> string)
    requires lines == ProductLines(products, show) && products != []
    ensures SplitLines(Join(lines, "\r\n")) == Cut(products, show)
    decreases |products|
  {
    FirstLine(products, show);
    if |products| == 1 {
      assert Cut(products[1..], show) == [];
      assert SplitLines(lines[0]) + [] == SplitLines(lines[0]);
    } else {
      CutOfJoin(lines[1..], products[1..], show);
      var rest := Join(lines[1..], "\r\n");
      assert lines[0] + "\r\n" + rest == lines[0] + ("\r\n" + rest);
      CutBetween(lines[0], rest, "");
    }
  }

  /** The dates are ISO texts. */
  ghost predicate DatesPlain(products: seq<Listed>) {
    forall p :: p in products ==> Plain(p.updatedAt)
  }

  ghost predicate AllImportable(products: seq<Listed>) {
    forall p :: p in products ==> Importable(p)
  }

  /** If the lines are read as the products, one entry each, every product is plain. */
  lemma {:induction false} ImportedArePlain(products: seq<Listed>, show: nat -> string, read: string -> Option<nat>,
                                            index: nat)
    requires index > 0 && DatesPlain(products)
    requires ReadsBack(show, read) && Catalogue(Cut(products, show), index, read) == Imported(products, index + 1)
    ensures AllImportable(products)
    decreases |products|
  {
    if products != [] {
      var p := products[0];
      assert p in products;
      BlockIsOneLine(products, show, read, index);
      FirstImported(products, index + 1);
      LineIsPlain(p, show, read, index);
      ImportedArePlain(products[1..], show, read, index + 1);
      assert forall x :: x in products <==> x == p || x in products[1..];
    }
  }

  /** As many entries as products leave one line for each. */
  lemma OneLineEach(products: seq<Listed>, show: nat -> string, read: string -> Option<nat>, index: nat)
    requires index > 0 && products != []
    requires Catalogue(Cut(products, show), index, read) == Imported(products, index + 1)
    ensures OneLine(products[0].code) && OneLine(products[0].description)
  {
    var line, rest := Line(Exported(products[0], show)), Cut(products[1..], show);
    CatalogueCounts(Cut(products, show), index, read);
    NonBlankConcat(SplitLines(line), rest);
    EveryProductIsALine(products[1..], show);
    if !OneLine(products[0].code) || !OneLine(products[0].description) {
      NewlineIsTwoLines(products[0], show);
    }
  }

  /** The first product takes one line, which is read as that product. */
  lemma BlockIsOneLine(products: seq<Listed>, show: nat -> string, read: string -> Option<nat>, index: nat)
    requires index > 0 && products != [] && Plain(products[0].updatedAt)
    requires ReadsBack(show, read) && Catalogue(Cut(products, show), index, read) == Imported(products, index + 1)
    ensures var p, line := products[0], Line(Exported(products[0], show));
      && OneLine(p.code) && OneLine(p.description) && SplitLines(line) == [line]
      && LineRead(line, index, read) == [Product(index + 1, NewProduct(p.code, p.description, p.balance))]
      && Catalogue(Cut(products[1..], show), index + 1, read) == Imported(products[1..], index + 2)
  {
    var p, line, rest := products[0], Line(Exported(products[0], show)), Cut(products[1..], show);
    OneLineEach(products, show, read, index);
    LineWithoutNewline(p, show, read);
    LastLineIsCut(line, "");
    assert "" + line == line;
    LineIsVisible(p, show);
    CountOneLine(line, rest, index, read);
    FirstImported(products, index + 1);
    SplitFirst(LineRead(line, index, read), Catalogue(rest, index + 1, read), Imported(products, index + 1));
  }

  lemma LineIsVisible(p: Listed, show: nat -> string)
    ensures Trim(Line(Exported(p, show))) != ""
  {
    var cells, line := CellsOfListed(p, show), Line(Exported(p, show));
    ProductRow(p, show);
    RowOfCons(cells);
    assert line[|Escape(p.code)|] == ',' && !IsSpace(line[|Escape(p.code)|]);
    InkStays(line);
  }

  lemma SplitFirst<T>(a: seq<T>, b: seq<T>, all: seq<T>)
    requires a + b == all && |a| == 1
    ensures a == [all[0]] && b == all[1..]
  {
  }

  lemma LineWithoutNewline(p: Listed, show: nat -> string, read: string -> Option<nat>)
    requires ReadsBack(show, read) && OneLine(p.code) && OneLine(p.description) && OneLine(p.updatedAt)
    ensures OneLine(Line(Exported(p, show)))
  {
    var cells := CellsOfListed(p, show);
    ProductRow(p, show);
    RowMembers(cells, '\n');
    assert Plain(show(p.balance));
    forall i | 0 <= i < |cells| ensures '\n' !in cells[i] {
    }
  }

  lemma CountOneLine(line: string, rest: seq<string>, index: nat, read: string -> Option<nat>)
    requires index > 0 && Trim(line) != ""
    ensures |LineRead(line, index, read)| == 1
    ensures Catalogue([line] + rest, index, read) == LineRead(line, index, read) + Catalogue(rest, index + 1, read)
  {
    assert ([line] + rest)[1..] == rest;
  }

  lemma HeaderLine(headers: seq<string>, prefix: string, read: string -> Option<nat>)
    requires |headers| > 1 && AllPlain(headers) && !IsHeader(headers[0]) && (prefix == "" || prefix == BOM)
    ensures var raw := prefix + Row(headers);
      OneLine(raw) && |LineRead(raw, 0, read)| == 1 && LineRead(raw, 0, read)[0].line == 1
  {
    PlainRow(headers);
    TrimIff(Row(headers));
    RowEnds(headers);
    var raw := prefix + Row(headers);
    if prefix == BOM {
      assert raw[0] == '\U{FEFF}' && raw[1..] == Row(headers);
    } else {
      assert raw == Row(headers);
    }
  }

  lemma HeaderEntry(header: string, rest: seq<string>, read: string -> Option<nat>)
    requires |LineRead(header, 0, read)| == 1 && LineRead(header, 0, read)[0].line == 1
    ensures Catalogue([header] + rest, 0, read) != [] && Catalogue([header] + rest, 0, read)[0].line == 1
  {
    assert ([header] + rest)[1..] == rest;
  }

  lemma CutHeader(header: string, lines: seq<string>)
    requires OneLine(header) && lines != []
    ensures SplitLines(Join([header] + lines, "\r\n")) == [header] + SplitLines(Join(lines, "\r\n"))
  {
    var rest := Join(lines, "\r\n");
    assert ([header] + lines)[1..] == lines && "" + header == header;
    assert header + "\r\n" + rest == header + ("\r\n" + rest);
    LastLineIsCut(header, "");
    CutBetween(header, rest, "");
  }

  lemma CutFile(headers: seq<string>, products: seq<Listed>, show: nat -> string, prefix: string)
    requires OneLine(prefix + Row(headers))
    ensures SplitLines(prefix + Export(headers, products, show)) == [prefix + Row(headers)] + Cut(products, show)
  {
    var header, lines := prefix + Row(headers), ProductLines(products, show);
    ExportLines(headers, products, show, prefix);
    if products == [] {
      LastLineIsCut(header, "");
      assert "" + header == header && lines == [];
    } else {
      CutHeader(header, lines);
      CutOfJoin(lines, products, show);
    }
  }

  /** The exported catalogue, with or without the byte order mark of the download,
      is imported as the products it was made of, every product once and in order
      with its line in the file, exactly when the header is recognised and every
      code and description is a plain text that is not empty. */
  lemma ImportOfExportIff(headers: seq<string>, products: seq<Listed>, show: nat -> string, read: string -> Option<nat>,
                          prefix: string)
    requires ReadsBack(show, read) && (prefix == "" || prefix == BOM)
    requires |headers| > 1 && AllPlain(headers) && DatesPlain(products)
    ensures Catalogue(SplitLines(prefix + Export(headers, products, show)), 0, read) == Imported(products, 2)
       <==> IsHeader(headers[0]) && AllImportable(products)
  {
    if !IsHeader(headers[0]) {
      HeaderIsNeeded(headers, products, show, read, prefix);
    } else {
      WithoutHeader(headers, products, show, read, prefix);
      if AllImportable(products) {
        PlainIsImported(headers, products, show, read, prefix);
      } else {
        OnlyPlainIsImported(products, show, read, 1);
      }
    }
  }

  lemma OnlyPlainIsImported(products: seq<Listed>, show: nat -> string, read: string -> Option<nat>, index: nat)
    requires ReadsBack(show, read) && DatesPlain(products) && !AllImportable(products) && index > 0
    ensures Catalogue(Cut(products, show), index, read) != Imported(products, index + 1)
  {
    if Catalogue(Cut(products, show), index, read) == Imported(products, index + 1) {
      ImportedArePlain(products, show, read, index);
    }
  }

  lemma WithoutHeader(headers: seq<string>, products: seq<Listed>, show: nat -> string, read: string -> Option<nat>,
                      prefix: string)
    requires headers != [] && AllPlain(headers) && IsHeader(headers[0]) && (prefix == "" || prefix == BOM)
    ensures Catalogue(SplitLines(prefix + Export(headers, products, show)), 0, read) == Catalogue(Cut(products, show), 1, read)
  {
    HeaderIsSkipped(headers, prefix, read);
    CutFile(headers, products, show, prefix);
    CatalogueFirst(prefix + Row(headers), Cut(products, show), 0, read);
  }

  lemma HeaderIsNeeded(headers: seq<string>, products: seq<Listed>, show: nat -> string, read: string -> Option<nat>,
                       prefix: string)
    requires (prefix == "" || prefix == BOM) && |headers| > 1 && AllPlain(headers) && !IsHeader(headers[0])
    ensures Catalogue(SplitLines(prefix + Export(headers, products, show)), 0, read) != Imported(products, 2)
  {
    HeaderLine(headers, prefix, read);
    CutFile(headers, products, show, prefix);
    HeaderEntry(prefix + Row(headers), Cut(products, show), read);
  }
}
