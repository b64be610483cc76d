/** How `CsvParser` reads text, as functions on strings.  A string search that fails
    (`std::string::npos`) is the length of the string searched. */
module Csv {

  /** The first place of c in s, or |s|. */
  function IndexOf(s: string, c: char): (k: nat)
    ensures k <= |s|
    ensures forall i :: 0 <= i < k ==> s[i] != c
    ensures k < |s| ==> s[k] == c
  {
    if s == "" || s[0] == c then 0 else 1 + IndexOf(s[1..], c)
  }

  /** `isspace` in the C locale. */
  predicate IsSpace(c: char) {
    c == ' ' || '\t' <= c <= '\r'
  }

  /** Space, tab, line feed, vertical tab, form feed, carriage return. */
  lemma Spaces(c: char)
    ensures IsSpace(c) <==> c as int in {32, 9, 10, 11, 12, 13}
  {
  }

  function TrimLeft(s: string): (r: string)
    ensures |r| <= |s|
  {
    if s != "" && IsSpace(s[0]) then TrimLeft(s[1..]) else s
  }

  function TrimRight(s: string): (r: string)
    ensures |r| <= |s|
  {
    if s != "" && IsSpace(s[|s| - 1]) then TrimRight(s[..|s| - 1]) else s
  }

  function Unquote(s: string): string {
    if |s| >= 2 && s[0] == '"' && s[|s| - 1] == '"' then s[1..|s| - 1] else s
  }

  /** Whitespace goes first, then one pair of surrounding quotes. */
  function Clean(s: string): string {
    Unquote(TrimRight(TrimLeft(s)))
  }

  /** How far the field at the front of s reaches: to the next comma, looked for after the
      closing quote when the field starts with a quote. */
  function FieldEnd(s: string): (k: nat)
    ensures k <= |s|
    ensures k < |s| ==> s[k] == ','
  {
    if s != "" && s[0] == '"' then
      var quote := 1 + IndexOf(s[1..], '"');
      quote + IndexOf(s[quote..], ',')
    else
      IndexOf(s, ',')
  }

  /** The fields of a line. */
  function Fields(s: string): seq<string>
    decreases |s|
  {
    var k := FieldEnd(s);
    [Clean(s[..k])] + if k == |s| then [] else Fields(s[k + 1..])
  }

  /** The rows of a file: one per line that is not blank. */
  function Rows(text: string): seq<seq<string>>
    decreases |text|
  {
    if text == "" then []
    else
      var k := IndexOf(text, '\n');
      (if k == 0 then [] else [Fields(text[..k])]) + Rows(if k == |text| then "" else text[k + 1..])
  }

  // ---- Writing and reading back ----

  /** A field of a file, and whether it is written in quotes. */
  datatype Cell = Cell(text: string, quoted: bool)

  /** Section 2 of RFC 4180 leaves it open whether a field is in quotes, unless it holds a comma
      or a quote. */
  predicate Legal(cell: Cell) {
    cell.quoted || ('"' !in cell.text && ',' !in cell.text)
  }

  function Doubled(text: string): (r: string)
    ensures |r| >= |text|
    ensures '"' !in text ==> r == text
  {
    if text == "" then ""
    else (if text[0] == '"' then "\"\"" else [text[0]]) + Doubled(text[1..])
  }

  /** In quotes inner quotes are doubled. */
  function Quoted(text: string): string {
    "\"" + Doubled(text) + "\""
  }

  function Written(cell: Cell): string {
    if cell.quoted then Quoted(cell.text) else cell.text
  }

  function Line(cells: seq<Cell>): string
    requires cells != []
  {
    if |cells| == 1 then Written(cells[0]) else Written(cells[0]) + "," + Line(cells[1..])
  }

  /** What `getline` leaves of a line break: nothing of "\n", the carriage return of "\r\n". */
  predicate LineEnd(end: string) {
    end == "" || end == "\r"
  }

  /** A file: closed says whether the last line, too, has its line break. */
  function Text(rows: seq<seq<Cell>>, end: string, closed: bool): string
    requires forall i :: 0 <= i < |rows| ==> rows[i] != []
  {
    if rows == [] then ""
    else if |rows| == 1 && !closed then Line(rows[0])
    else Line(rows[0]) + end + "\n" + Text(rows[1..], end, closed)
  }

  function Texts(cells: seq<Cell>): (r: seq<string>)
    ensures |r| == |cells| && forall i :: 0 <= i < |r| ==> r[i] == cells[i].text
  {
    seq(|cells|, i requires 0 <= i < |cells| => cells[i].text)
  }

  function AllTexts(rows: seq<seq<Cell>>): (r: seq<seq<string>>)
    ensures |r| == |rows| && forall i :: 0 <= i < |r| ==> r[i] == Texts(rows[i])
  {
    seq(|rows|, i requires 0 <= i < |rows| => Texts(rows[i]))
  }

  /** The cells the field loop returns as they were: in quotes those without a quote, the others
      those without whitespace at either edge. */
  predicate Survives(cell: Cell) {
    if cell.quoted then '"' !in cell.text
    else cell.text == "" || (!IsSpace(cell.text[0]) && !IsSpace(cell.text[|cell.text| - 1]))
  }

  // ---- Counting a character ----

  function Count(s: string, c: char): nat {
    if s == "" then 0 else (if s[0] == c then 1 else 0) + Count(s[1..], c)
  }

  lemma {:induction false} CountConcat(a: string, b: string, c: char)
    ensures Count(a + b, c) == Count(a, c) + Count(b, c)
  {
    if a == "" {
      assert a + b == b;
    } else {
      assert (a + b)[1..] == a[1..] + b;
      CountConcat(a[1..], b, c);
    }
  }

  lemma {:induction false} CountNone(s: string, c: char)
    ensures Count(s, c) == 0 <==> c !in s
  {
    if s == "" {
    } else {
      CountNone(s[1..], c);
    }
  }

  lemma CountAround(a: string, d: char, b: string, c: char)
    ensures Count(a + [d] + b, c) == Count(a, c) + (if d == c then 1 else 0) + Count(b, c)
  {
    CountConcat(a + [d], b, c);
    CountConcat(a, [d], c);
  }

  lemma {:induction false} TrimLeftCount(s: string, c: char)
    requires !IsSpace(c)
    ensures Count(TrimLeft(s), c) == Count(s, c)
  {
    if s != "" && IsSpace(s[0]) {
      TrimLeftCount(s[1..], c);
    }
  }

  lemma {:induction false} TrimRightCount(s: string, c: char)
    requires !IsSpace(c)
    ensures Count(TrimRight(s), c) == Count(s, c)
  {
    if s != "" && IsSpace(s[|s| - 1]) {
      assert s == s[..|s| - 1] + [s[|s| - 1]];
      CountConcat(s[..|s| - 1], [s[|s| - 1]], c);
      TrimRightCount(s[..|s| - 1], c);
    }
  }

  /** Cleaning takes away whitespace and at most one pair of quotes. */
  lemma CleanCount(s: string, c: char)
    requires !IsSpace(c)
    ensures Count(Clean(s), c) <= Count(s, c) <= Count(Clean(s), c) + if c == '"' then 2 else 0
  {
    TrimLeftCount(s, c);
    TrimRightCount(TrimLeft(s), c);
    var t := TrimRight(TrimLeft(s));
    if |t| >= 2 && t[0] == '"' && t[|t| - 1] == '"' {
      var inner := t[1..|t| - 1];
      assert t == [t[0]] + inner + [t[|t| - 1]];
      CountConcat([t[0]] + inner, [t[|t| - 1]], c);
      CountConcat([t[0]], inner, c);
    }
  }

  // ---- Any line ----

  function Counts(fields: seq<string>, c: char): nat {
    if fields == [] then 0 else Count(fields[0], c) + Counts(fields[1..], c)
  }

  /** Reading drops at most one pair of quotes per field. */
  lemma {:induction false} FieldsKeepQuotes(s: string)
    ensures Count(s, '"') <= Counts(Fields(s), '"') + 2 * |Fields(s)|
    decreases |s|
  {
    hide Count, Clean, FieldEnd;
    var k := FieldEnd(s);
    CleanCount(s[..k], '"');
    if k == |s| {
      assert s[..k] == s;
    } else {
      var rest := s[k + 1..];
      assert s == s[..k] + [s[k]] + rest;
      CountAround(s[..k], s[k], rest, '"');
      FieldsKeepQuotes(rest);
      assert Fields(s)[1..] == Fields(rest);
    }
  }

  lemma {:induction false} TrimHasNo(s: string, c: char)
    requires c !in s
    ensures c !in TrimLeft(s) && c !in TrimRight(s)
    decreases |s|
  {
    if s == "" {
    } else {
      TrimHasNo(s[1..], c);
      TrimHasNo(s[..|s| - 1], c);
    }
  }

  lemma CleanHasNo(s: string, c: char)
    requires c !in s
    ensures c !in Clean(s)
  {
    TrimHasNo(s, c);
    TrimHasNo(TrimLeft(s), c);
  }

  lemma {:induction false} FieldsHaveNo(s: string, c: char)
    requires c !in s
    ensures forall f :: f in Fields(s) ==> c !in f
    decreases |s|
  {
    hide Clean, FieldEnd;
    var k := FieldEnd(s);
    CleanHasNo(s[..k], c);
    if k < |s| {
      FieldsHaveNo(s[k + 1..], c);
    }
  }

  lemma {:induction false} RowsHaveNoBreak(text: string)
    ensures forall row, f :: row in Rows(text) && f in row ==> '\n' !in f
    decreases |text|
  {
    if text == "" {
    } else {
      hide Fields;
      var k := IndexOf(text, '\n');
      FieldsHaveNo(text[..k], '\n');
      RowsHaveNoBreak(if k == |text| then "" else text[k + 1..]);
    }
  }

  // ---- A cell in quotes ----

  lemma IndexOfIs(s: string, c: char, k: nat)
    requires k <= |s| && (forall i :: 0 <= i < k ==> s[i] != c) && (k < |s| ==> s[k] == c)
    ensures IndexOf(s, c) == k
  {
  }

  lemma Reassociate(a: string, b: string, c: string, d: string)
    ensures a + b + c + d == a + (b + (c + d))
    ensures a + b + c == a + (b + c)
  {
  }

  /** A field that starts with a quote ends at the first comma behind the next quote. */
  lemma OpenQuoteEnd(a: string, behind: string)
    requires '"' !in a
    ensures FieldEnd("\"" + (a + ("\"" + behind))) == 1 + |a| + IndexOf("\"" + behind, ',')
  {
    var inner := "\"" + behind;
    var rest := a + inner;
    var s := "\"" + rest;
    IndexOfIs(rest, '"', |a|);
    hide IndexOf;
    assert s[1..] == rest;
    assert s[1 + |a|..] == rest[|a|..] == inner;
  }

  lemma CommaAfter(s: string, end: string, tail: string)
    requires ',' !in s && LineEnd(end) && (tail == "" || tail[0] == ',')
    ensures IndexOf(s + end + tail, ',') == |s| + |end|
  {
    IndexOfIs(s + end + tail, ',', |s| + |end|);
  }

  lemma DoubledBasics(s: string)
    ensures |Doubled(s)| >= |s| && ('"' !in s ==> Doubled(s) == s)
    ensures Doubled("\"") == "\"\""
  {
    assert Doubled("\"") == "\"\"" + Doubled("");
  }

  lemma QuotedPlain(text: string)
    requires '"' !in text
    ensures Quoted(text) == "\"" + text + "\""
  {
    DoubledBasics(text);
    hide Doubled;
  }

  lemma LineEndsBare()
    ensures LineEnd("")
  {
  }

  /** A cell in quotes without quotes is read whole, up to its comma or the end of the line. */
  lemma QuotedFieldEnd(text: string, end: string, tail: string)
    requires '"' !in text && LineEnd(end) && (tail == "" || tail[0] == ',')
    ensures FieldEnd(Quoted(text) + end + tail) == |Quoted(text)| + |end|
  {
    hide *;
    QuotedPlain(text);
    OpenQuoteEnd(text, end + tail);
    Reassociate("\"", text, "\"", end + tail);
    Reassociate(Quoted(text), end, tail, "");
    CommaAfter("\"", end, tail);
    Reassociate("\"", end, tail, "");
  }

  lemma CleanQuoted(text: string, end: string)
    requires LineEnd(end)
    ensures Clean(Quoted(text) + end) == Doubled(text)
  {
    hide Doubled;
    var q := Quoted(text);
    var s := q + end;
    assert TrimLeft(s) == s;
    assert TrimRight(q) == q;
    if end == "" {
      assert s == q;
    } else {
      assert s[..|s| - 1] == q;
    }
    assert q[1..|q| - 1] == Doubled(text);
  }

  lemma {:induction false} DoubledHasNo(text: string, c: char)
    requires c !in text
    ensures c !in Doubled(text)
  {
    if text == "" {
    } else {
      assert text[0] in text;
      DoubledHasNo(text[1..], c);
    }
  }

  lemma {:induction false} DoubledConcat(a: string, b: string)
    ensures Doubled(a + b) == Doubled(a) + Doubled(b)
  {
    if a == "" {
      assert a + b == b;
    } else {
      assert (a + b)[1..] == a[1..] + b;
      DoubledConcat(a[1..], b);
    }
  }

  /** From the first quote inside a cell, which is written twice, to the end of the cell. */
  function FromInnerQuote(rest: string): string {
    "\"\"" + Doubled(rest) + "\""
  }

  lemma InnerQuoteWritten(a: string, rest: string)
    requires '"' !in a
    ensures Doubled(a + "\"" + rest) == a + "\"\"" + Doubled(rest) != a + "\"" + rest
    ensures Quoted(a + "\"" + rest) == "\"" + a + FromInnerQuote(rest)
  {
    hide Doubled;
    DoubledConcat(a + "\"", rest);
    DoubledConcat(a, "\"");
    DoubledBasics(a);
    DoubledBasics(rest);
    assert |a + "\"\"" + Doubled(rest)| > |a + "\"" + rest|;
  }

  /** The first of the two quotes is taken for the closing one, so that the field ends at the
      next comma, even one inside the cell. */
  lemma InnerQuoteEnd(a: string, rest: string, more: string)
    requires '"' !in a
    ensures FieldEnd("\"" + (a + (FromInnerQuote(rest) + more)))
            == 1 + |a| + IndexOf(FromInnerQuote(rest) + more, ',')
  {
    var behind := "\"" + Doubled(rest) + "\"" + more;
    assert FromInnerQuote(rest) + more == "\"" + behind;
    hide *;
    OpenQuoteEnd(a, behind);
  }

  lemma InnerHasNoComma(rest: string)
    requires ',' !in rest
    ensures ',' !in FromInnerQuote(rest)
  {
    hide Doubled;
    DoubledHasNo(rest, ',');
  }

  /** Without a comma behind its first quote the whole cell is read, quotes still doubled. */
  lemma InnerQuoteWhole(a: string, rest: string, end: string, tail: string)
    requires '"' !in a && ',' !in rest && LineEnd(end) && (tail == "" || tail[0] == ',')
    ensures var text := a + "\"" + rest;
            var s := Quoted(text) + end + tail;
            FieldEnd(s) == |Quoted(text)| + |end| && Clean(s[..FieldEnd(s)]) == Doubled(text) != text
  {
    var text, inner := a + "\"" + rest, FromInnerQuote(rest);
    var s := Quoted(text) + end + tail;
    hide *;
    InnerHasNoComma(rest);
    InnerQuoteWritten(a, rest);
    InnerQuoteEnd(a, rest, end + tail);
    CommaAfter(inner, end, tail);
    CleanQuoted(text, end);
    assert inner + end + tail == inner + (end + tail);
    Reassociate("\"", a, inner, end + tail);
    assert s == "\"" + a + inner + (end + tail);
    assert s[..|Quoted(text)| + |end|] == Quoted(text) + end;
  }

  lemma TakeInto(a: string, inner: string, j: nat)
    requires j <= |inner|
    ensures ("\"" + (a + inner))[..1 + |a| + j] == "\"" + (a + inner[..j])
  {
  }

  /** With one it ends at that comma and lacks it. */
  lemma InnerQuoteCut(a: string, rest: string, more: string)
    requires '"' !in a && ',' in rest
    ensures var s := "\"" + (a + (FromInnerQuote(rest) + more)); Clean(s[..FieldEnd(s)]) != a + "\"" + rest
  {
    assert !IsSpace(',');
    hide *;
    InnerQuoteEnd(a, rest, more);
    var inner := FromInnerQuote(rest) + more;
    var j := CommaFree(inner);
    TakeInto(a, inner, j);
    CommasAround(a, inner[..j], rest);
    CleanCount("\"" + (a + inner[..j]), ',');
  }

  lemma CommasAround(a: string, read: string, rest: string)
    requires ',' !in read && ',' in rest
    ensures Count("\"" + (a + read), ',') < Count(a + "\"" + rest, ',')
  {
    hide *;
    CountConcat("\"", a + read, ',');
    CountConcat(a, read, ',');
    CountNone(read, ',');
    CountConcat(a + "\"", rest, ',');
    CountConcat(a, "\"", ',');
    CountNone(rest, ',');
  }

  lemma CommaFree(s: string) returns (j: nat)
    ensures j == IndexOf(s, ',') <= |s| && ',' !in s[..j]
  {
    j := IndexOf(s, ',');
  }

  lemma AtFirstQuote(text: string) returns (a: string, rest: string)
    requires '"' in text
    ensures text == a + "\"" + rest && '"' !in a
    ensures ',' !in text ==> ',' !in rest
  {
    var q := IndexOf(text, '"');
    a, rest := text[..q], text[q + 1..];
  }

  /** So a cell in quotes that holds a quote is never returned. */
  lemma InnerQuoteSpoils(text: string, end: string, tail: string)
    requires '"' in text && LineEnd(end) && (tail == "" || tail[0] == ',')
    ensures var s := Quoted(text) + end + tail; Clean(s[..FieldEnd(s)]) != text
  {
    hide *;
    var a, rest := AtFirstQuote(text);
    if ',' in rest {
      InnerQuoteWritten(a, rest);
      InnerQuoteCut(a, rest, end + tail);
      Reassociate("\"", a, FromInnerQuote(rest), end + tail);
      assert Quoted(text) + (end + tail) == Quoted(text) + end + tail;
    } else {
      InnerQuoteWhole(a, rest, end, tail);
    }
  }

  // ---- A cell without quotes ----

  lemma UnquotedFieldEnd(text: string, end: string, tail: string)
    requires '"' !in text && ',' !in text && LineEnd(end) && (tail == "" || tail[0] == ',')
    ensures FieldEnd(text + end + tail) == |text| + |end|
  {
    CommaAfter(text, end, tail);
    var s := text + end + tail;
    assert s != "" ==> s[0] == (if text != "" then text[0] else if end != "" then end[0] else tail[0]);
    assert text != "" ==> text[0] in text;
  }

  lemma {:induction false} TrimLeftEdge(s: string)
    ensures TrimLeft(s) == "" || !IsSpace(TrimLeft(s)[0])
  {
    if s != "" && IsSpace(s[0]) {
      TrimLeftEdge(s[1..]);
    }
  }

  lemma {:induction false} TrimRightEdge(s: string)
    ensures TrimRight(s) <= s
    ensures TrimRight(s) == "" || !IsSpace(TrimRight(s)[|TrimRight(s)| - 1])
  {
    if s != "" && IsSpace(s[|s| - 1]) {
      TrimRightEdge(s[..|s| - 1]);
    }
  }

  lemma CleanPlain(s: string)
    requires '"' !in s
    ensures Clean(s) == TrimRight(TrimLeft(s))
  {
    TrimHasNo(s, '"');
    TrimHasNo(TrimLeft(s), '"');
    var t := TrimRight(TrimLeft(s));
    assert t != "" ==> t[0] in t;
  }

  /** A cell without quotes loses exactly its edge whitespace. */
  lemma CleanUnquoted(text: string, end: string)
    requires '"' !in text && LineEnd(end)
    ensures Clean(text + end) == text <==> Survives(Cell(text, false))
  {
    var s := text + end;
    CleanPlain(s);
    TrimLeftEdge(s);
    TrimRightEdge(TrimLeft(s));
    if Survives(Cell(text, false)) {
      if text == "" {
        assert s == end;
      } else {
        assert TrimLeft(s) == s && TrimRight(text) == text;
        if end == "" {
          assert s == text;
        } else {
          assert s[..|s| - 1] == text;
        }
      }
    }
  }

  // ---- Fields as they stand ----

  lemma FieldsUnfold(s: string)
    ensures var k := FieldEnd(s);
            Fields(s) == [Clean(s[..k])] + if k == |s| then [] else Fields(s[k + 1..])
  {
  }

  ghost predicate Blank(s: string) {
    forall c :: c in s ==> IsSpace(c)
  }

  lemma {:induction false} TrimLeftBlank(space: string, s: string)
    requires Blank(space) && (s == "" || !IsSpace(s[0]))
    ensures TrimLeft(space + s) == s
  {
    if space == "" {
      assert space + s == s;
    } else {
      assert (space + s)[1..] == space[1..] + s && space[0] in space;
      TrimLeftBlank(space[1..], s);
    }
  }

  lemma {:induction false} TrimRightBlank(s: string, space: string)
    requires Blank(space) && (s == "" || !IsSpace(s[|s| - 1]))
    ensures TrimRight(s + space) == s
  {
    if space == "" {
      assert s + space == s;
    } else {
      var n := |space| - 1;
      assert (s + space)[..|s| + n] == s + space[..n] && space[n] in space;
      TrimRightBlank(s, space[..n]);
    }
  }

  /** Cleaning takes the whitespace at the edges and then one pair of quotes, if there is one. */
  lemma CleanIs(before: string, s: string, behind: string)
    requires Blank(before) && Blank(behind)
    requires s == "" || (!IsSpace(s[0]) && !IsSpace(s[|s| - 1]))
    ensures Clean(before + (s + behind)) == s || exists inner :: s == "\"" + inner + "\""
    ensures forall inner :: s == "\"" + inner + "\"" ==> Clean(before + (s + behind)) == inner
  {
    if s == "" {
      assert s + behind == behind;
      AllBlank(before + behind);
    } else {
      TrimLeftBlank(before, s + behind);
      TrimRightBlank(s, behind);
      if |s| >= 2 && s[0] == '"' && s[|s| - 1] == '"' {
        assert s == "\"" + s[1..|s| - 1] + "\"";
      }
    }
  }

  lemma {:induction false} AllBlank(s: string)
    requires Blank(s)
    ensures TrimLeft(s) == ""
  {
    if s == "" {
    } else {
      assert s[0] in s;
      AllBlank(s[1..]);
    }
  }

  function Commas(raw: seq<string>): string
    requires raw != []
  {
    if |raw| == 1 then raw[0] else raw[0] + "," + Commas(raw[1..])
  }

  /** Neither a comma nor a quote in front. */
  ghost predicate Plain(s: string) {
    ',' !in s && (s == "" || s[0] != '"')
  }

  /** A quote, anything up to the next quote, and from there on no comma. */
  ghost predicate InQuotes(s: string) {
    exists a, b :: s == "\"" + (a + ("\"" + b)) && '"' !in a && ',' !in b
  }

  /** A quote, and no other. */
  ghost predicate Unclosed(s: string) {
    s != "" && s[0] == '"' && '"' !in s[1..]
  }

  /** Pieces of a line: only the last may be unclosed. */
  ghost predicate Pieces(raw: seq<string>) {
    && raw != []
    && forall i :: 0 <= i < |raw| ==> Plain(raw[i]) || InQuotes(raw[i]) || (i == |raw| - 1 && Unclosed(raw[i]))
  }

  /** Every line is such pieces between commas. */
  lemma {:induction false} LineIsPieces(line: string) returns (raw: seq<string>)
    ensures Pieces(raw) && Commas(raw) == line
    decreases |line|
  {
    var k := FieldEnd(line);
    FirstPiece(line);
    hide FieldEnd, Plain, InQuotes, Unclosed;
    if k == |line| {
      raw := [line];
      assert line[..k] == line;
    } else {
      var rest := LineIsPieces(line[k + 1..]);
      raw := [line[..k]] + rest;
      assert raw[1..] == rest && line == line[..k] + "," + line[k + 1..];
      assert forall i :: 0 < i < |raw| ==> raw[i] == rest[i - 1];
    }
  }

  lemma FirstPiece(line: string)
    ensures var k := FieldEnd(line);
            Plain(line[..k]) || InQuotes(line[..k]) || (k == |line| && Unclosed(line[..k]))
  {
    var k := FieldEnd(line);
    if line != "" && line[0] == '"' {
      var q := IndexOf(line[1..], '"');
      var j := IndexOf(line[1 + q..], ',');
      assert k == 1 + q + j && '"' !in line[1..][..q] && ',' !in line[1 + q..][..j];
      hide FieldEnd, IndexOf;
      if q == |line| - 1 {
        assert line[..k] == line;
      } else {
        var a, b := line[1..1 + q], line[q + 2..k];
        assert a == line[1..][..q] && line[1 + q] == '"';
        assert forall i :: 0 <= i < |b| ==> b[i] == line[1 + q..][..j][1 + i];
        assert line[..k] == "\"" + (a + ("\"" + b));
      }
    }
  }

  /** And each piece, cleaned, is a field. */
  lemma {:induction false} PiecesAreFields(raw: seq<string>)
    requires Pieces(raw)
    ensures var fields := Fields(Commas(raw));
            |fields| == |raw| && forall i :: 0 <= i < |raw| ==> fields[i] == Clean(raw[i])
  {
    hide Clean, FieldEnd, Plain, InQuotes, Unclosed;
    var line, s := Commas(raw), raw[0];
    FieldsUnfold(line);
    if |raw| == 1 {
      PieceEnd(s, "");
      assert s + "" == line && line[..|line|] == line;
    } else {
      var rest := Commas(raw[1..]);
      PieceEnd(s, "," + rest);
      assert line == s + ("," + rest) && line[..|s|] == s && line[|s| + 1..] == rest;
      PiecesAreFields(raw[1..]);
    }
  }

  lemma PieceEnd(s: string, tail: string)
    requires (Plain(s) || InQuotes(s) || (tail == "" && Unclosed(s))) && (tail == "" || tail[0] == ',')
    ensures FieldEnd(s + tail) == |s|
  {
    if Plain(s) {
      PlainEnd(s, tail);
    } else if InQuotes(s) {
      var a, b :| s == "\"" + (a + ("\"" + b)) && '"' !in a && ',' !in b;
      QuotedEnd(a, b, tail);
    } else {
      assert s + tail == s;
      IndexOfIs(s[1..], '"', |s| - 1);
      IndexOfIs(s[|s|..], ',', 0);
    }
  }

  lemma QuotedEnd(a: string, b: string, tail: string)
    requires '"' !in a && ',' !in b && (tail == "" || tail[0] == ',')
    ensures FieldEnd("\"" + (a + ("\"" + b)) + tail) == |"\"" + (a + ("\"" + b))|
  {
    LineEndsBare();
    hide *;
    OpenQuoteEnd(a, b + tail);
    assert "\"" + (a + ("\"" + b)) + tail == "\"" + (a + ("\"" + (b + tail)));
    NoComma(b);
    CommaAfter("\"" + b, "", tail);
    assert "\"" + b + "" + tail == "\"" + (b + tail);
  }

  lemma NoComma(b: string)
    requires ',' !in b
    ensures ',' !in "\"" + b
  {
  }

  lemma PlainEnd(s: string, tail: string)
    requires ',' !in s && (s == "" || s[0] != '"') && (tail == "" || tail[0] == ',')
    ensures FieldEnd(s + tail) == |s|
  {
    CommaAfter(s, "", tail);
    assert s + "" + tail == s + tail;
  }

  // ---- Lines ----

  /** The first field of a line is the first cell exactly when that cell survives; then the line
      goes on behind it. */
  lemma FirstCell(cell: Cell, end: string, tail: string)
    requires Legal(cell) && LineEnd(end) && (tail == "" || tail[0] == ',')
    ensures var s := Written(cell) + end + tail;
            && (Clean(s[..FieldEnd(s)]) == cell.text <==> Survives(cell))
            && (Survives(cell) ==> FieldEnd(s) == |Written(cell)| + |end|)
  {
    hide Clean, FieldEnd, Quoted, LineEnd;
    var s := Written(cell) + end + tail;
    assert s[..|Written(cell)| + |end|] == Written(cell) + end;
    if !cell.quoted {
      UnquotedFieldEnd(cell.text, end, tail);
      CleanUnquoted(cell.text, end);
    } else if '"' in cell.text {
      InnerQuoteSpoils(cell.text, end, tail);
    } else {
      QuotedFieldEnd(cell.text, end, tail);
      CleanQuoted(cell.text, end);
    }
  }

  lemma LastCell(cell: Cell, end: string)
    requires Legal(cell) && LineEnd(end)
    ensures Fields(Written(cell) + end) == [cell.text] <==> Survives(cell)
  {
    hide *;
    var s := Written(cell) + end;
    FieldsUnfold(s);
    FirstCell(cell, end, "");
    assert s == Written(cell) + end + "";
    assert Fields(s)[0] == Clean(s[..FieldEnd(s)]);
  }

  lemma CellBefore(cell: Cell, rest: string)
    requires Legal(cell)
    ensures var fields := Fields(Written(cell) + "," + rest);
            && (Survives(cell) ==> fields == [cell.text] + Fields(rest))
            && (!Survives(cell) ==> fields != [] && fields[0] != cell.text)
  {
    LineEndsBare();
    hide *;
    var s := Written(cell) + "," + rest;
    FieldsUnfold(s);
    FirstCell(cell, "", "," + rest);
    assert s == Written(cell) + "" + ("," + rest);
    if Survives(cell) {
      assert s[FieldEnd(s) + 1..] == rest;
    }
    assert Fields(s)[0] == Clean(s[..FieldEnd(s)]);
  }

  lemma ConsIff<T>(x: T, a: seq<T>, y: T, b: seq<T>)
    ensures [x] + a == [y] + b <==> x == y && a == b
  {
    assert ([x] + a)[1..] == a && ([y] + b)[1..] == b && ([x] + a)[0] == x;
  }

  lemma LineOfCells(cells: seq<Cell>)
    requires cells != []
    ensures var cell, rest := cells[0], cells[1..];
            && cells == [cell] + rest && Texts(cells) == [cell.text] + Texts(rest)
            && Line(cells) == if rest == [] then Written(cell) else Written(cell) + "," + Line(rest)
  {
    hide Written;
  }

  /** The field loop returns the cells of a line exactly when all of them survive. */
  lemma {:induction false} LineReadsBackIff(cells: seq<Cell>, end: string)
    requires cells != [] && (forall cell :: cell in cells ==> Legal(cell)) && LineEnd(end)
    ensures Fields(Line(cells) + end) == Texts(cells) <==> forall cell :: cell in cells ==> Survives(cell)
  {
    hide *;
    var cell, rest := cells[0], cells[1..];
    LineOfCells(cells);
    if rest == [] {
      assert Texts(rest) == [];
      LastCell(cell, end);
    } else {
      assert Written(cell) + "," + Line(rest) + end == Written(cell) + "," + (Line(rest) + end);
      LineReadsBackIff(rest, end);
      CellBefore(cell, Line(rest) + end);
      ConsIff(cell.text, Fields(Line(rest) + end), cell.text, Texts(rest));
    }
  }

  // ---- Files ----

  lemma {:induction false} LineHasNoBreak(cells: seq<Cell>)
    requires cells != [] && forall cell :: cell in cells ==> '\n' !in cell.text
    ensures '\n' !in Line(cells)
    ensures Line(cells) == "" <==> cells == [Cell("", false)]
  {
    assert cells[0] in cells;
    DoubledHasNo(cells[0].text, '\n');
    if |cells| > 1 {
      LineHasNoBreak(cells[1..]);
    }
  }

  /** A line, its line break and the rest of a file: the row of the line unless it is blank, then
      the rest. */
  lemma RowsOfLine(line: string, rest: string)
    requires '\n' !in line
    ensures Rows(line + "\n" + rest) == (if line == "" then [] else [Fields(line)]) + Rows(rest)
    ensures Rows(line) == if line == "" then [] else [Fields(line)]
  {
    var text := line + "\n" + rest;
    forall i | 0 <= i < |line| ensures text[i] != '\n' {
      assert text[i] == line[i];
    }
    IndexOfIs(text, '\n', |line|);
    assert text[..|line|] == line;
    assert text[|line| + 1..] == rest;
    IndexOfIs(line, '\n', |line|);
    assert line[..|line|] == line;
  }

  lemma RowsOfNothing()
    ensures Rows("") == []
  {
  }

  /** What stands between row i and its line break. */
  function EndOf(count: nat, i: nat, end: string, closed: bool): string {
    if i + 1 < count || closed then end else ""
  }

  /** No row is a blank line: a single empty cell without quotes, with nothing behind it. */
  ghost predicate NoBlank(rows: seq<seq<Cell>>, end: string, closed: bool) {
    forall i :: 0 <= i < |rows| && rows[i] == [Cell("", false)] ==> EndOf(|rows|, i, end, closed) != ""
  }

  ghost predicate Unbroken(rows: seq<seq<Cell>>) {
    forall i, cell :: 0 <= i < |rows| && cell in rows[i] ==> '\n' !in cell.text
  }

  ghost predicate AllSurvive(rows: seq<seq<Cell>>) {
    forall i, cell :: 0 <= i < |rows| && cell in rows[i] ==> Survives(cell)
  }

  /** Rows of at least one cell each, all of them legal. */
  ghost predicate Proper(rows: seq<seq<Cell>>) {
    forall i :: 0 <= i < |rows| ==> rows[i] != [] && forall cell :: cell in rows[i] ==> Legal(cell)
  }

  lemma RestOfRows(rows: seq<seq<Cell>>)
    requires rows != []
    ensures Proper(rows) ==> Proper(rows[1..])
    ensures Unbroken(rows) ==> Unbroken(rows[1..])
    ensures AllTexts(rows) == [Texts(rows[0])] + AllTexts(rows[1..])
  {
    hide Legal, Texts;
  }

  lemma SurviveRowByRow(rows: seq<seq<Cell>>)
    requires rows != []
    ensures AllSurvive(rows) <==> (forall cell :: cell in rows[0] ==> Survives(cell)) && AllSurvive(rows[1..])
  {
    hide Survives;
    assert forall i :: 0 < i < |rows| ==> rows[i] == rows[1..][i - 1];
  }

  lemma BlankRowByRow(rows: seq<seq<Cell>>, end: string, closed: bool)
    requires rows != []
    ensures NoBlank(rows, end, closed)
            <==> && (rows[0] == [Cell("", false)] ==> EndOf(|rows|, 0, end, closed) != "")
                 && NoBlank(rows[1..], end, closed)
  {
    assert forall i :: 0 < i < |rows| ==> rows[i] == rows[1..][i - 1];
  }

  /** The rows of a file from those of its first line and of the rest. */
  lemma RowsOfText(rows: seq<seq<Cell>>, end: string, closed: bool)
    requires Proper(rows) && LineEnd(end) && Unbroken(rows) && rows != []
    ensures LineEnd(EndOf(|rows|, 0, end, closed)) && forall cell :: cell in rows[0] ==> Legal(cell)
    ensures var line := Line(rows[0]) + EndOf(|rows|, 0, end, closed);
            && Rows(Text(rows, end, closed))
               == (if line == "" then [] else [Fields(line)]) + Rows(Text(rows[1..], end, closed))
            && (line == "" <==> rows[0] == [Cell("", false)] && EndOf(|rows|, 0, end, closed) == "")
  {
    var row, here := rows[0], EndOf(|rows|, 0, end, closed);
    var text, rest := Text(rows, end, closed), Text(rows[1..], end, closed);
    assert '\n' !in here;
    assert if |rows| == 1 && !closed then text == Line(row) && here == "" && rest == ""
           else text == Line(row) + here + "\n" + rest;
    assert row != [] && forall cell :: cell in row ==> '\n' !in cell.text;
    assert LineEnd(here);
    assert forall cell :: cell in row ==> Legal(cell);
    hide *;
    LineHasNoBreak(row);
    var line := Line(row) + here;
    RowsOfLine(line, rest);
    RowsOfNothing();
    if |rows| == 1 && !closed {
      assert line == text;
    }
  }

  lemma {:induction false} UnbrokenReadsBackIff(rows: seq<seq<Cell>>, end: string, closed: bool)
    requires Proper(rows) && LineEnd(end) && Unbroken(rows)
    ensures |Rows(Text(rows, end, closed))| <= |rows|
    ensures Rows(Text(rows, end, closed)) == AllTexts(rows) <==> AllSurvive(rows) && NoBlank(rows, end, closed)
  {
    if rows == [] {
      RowsOfNothing();
    } else {
      var row, here := rows[0], EndOf(|rows|, 0, end, closed);
      assert row != [];
      hide *;
      RestOfRows(rows);
      SurviveRowByRow(rows);
      BlankRowByRow(rows, end, closed);
      RowsOfText(rows, end, closed);
      LineReadsBackIff(row, here);
      UnbrokenReadsBackIff(rows[1..], end, closed);
      if Line(row) + here != "" {
        ConsIff(Fields(Line(row) + here), Rows(Text(rows[1..], end, closed)), Texts(row), AllTexts(rows[1..]));
      } else {
        assert Rows(Text(rows, end, closed)) == Rows(Text(rows[1..], end, closed));
      }
    }
  }

  /** A file of rows and cells, each cell in quotes or not as the rules allow, with either line
      break and with or without a last one, reads back exactly when every cell survives, no cell
      holds a line break and no row is a blank line. */
  lemma FileReadsBackIff(rows: seq<seq<Cell>>, end: string, closed: bool)
    requires Proper(rows) && LineEnd(end)
    ensures Rows(Text(rows, end, closed)) == AllTexts(rows)
            <==> AllSurvive(rows) && Unbroken(rows) && NoBlank(rows, end, closed)
  {
    hide Rows, Text, LineEnd, Legal, Survives;
    if Unbroken(rows) {
      UnbrokenReadsBackIff(rows, end, closed);
    } else {
      var i, cell :| 0 <= i < |rows| && cell in rows[i] && '\n' in cell.text;
      RowsHaveNoBreak(Text(rows, end, closed));
      assert cell.text in AllTexts(rows)[i];
    }
  }

  // ---- Files that do not read back ----

  /** A cell in quotes with quotes but no commas comes back with its quotes still doubled. */
  lemma QuotesStayDoubled(text: string, end: string)
    requires '"' in text && ',' !in text && LineEnd(end)
    ensures Fields(Line([Cell(text, true)]) + end) == [Doubled(text)] && Doubled(text) != text
  {
    var s := Line([Cell(text, true)]) + end;
    assert s == Quoted(text) + end;
    hide *;
    var a, rest := AtFirstQuote(text);
    InnerQuoteWhole(a, rest, end, "");
    assert s == Quoted(text) + end + "";
    FieldsUnfold(s);
  }

  /** A cell without quotes comes back without its edge whitespace. */
  lemma EdgesTrimmed(text: string, end: string)
    requires '"' !in text && ',' !in text && LineEnd(end)
    ensures Fields(Line([Cell(text, false)]) + end) == [TrimRight(TrimLeft(text + end))]
  {
    var s := Line([Cell(text, false)]) + end;
    assert s == text + end;
    hide *;
    UnquotedFieldEnd(text, end, "");
    assert s == text + end + "";
    FieldsUnfold(s);
    CleanPlain(text + end);
    assert s[..|s|] == s;
  }

  /** A row that is one empty cell without quotes does not come back at all. */
  lemma BlankRowLost()
    ensures Rows(Text([[Cell("", false)]], "", true)) == []
  {
    RowsOfLine("", "");
    RowsOfNothing();
    assert Text([[Cell("", false)]], "", true) == "" + "\n" + Text([], "", true);
  }

  lemma HalvesAreFields(a: char, b: char)
    requires !IsSpace(a) && !IsSpace(b) && a != '"' && a != ',' && b != '"' && b != ','
    ensures Fields(['"', a]) == [['"', a]] && Fields([b, '"']) == [[b, '"']]
  {
    var front, back := ['"', a], [b, '"'];
    IndexOfIs(front[1..], '"', 1);
    IndexOfIs(front[2..], ',', 0);
    IndexOfIs(back, ',', 2);
    assert front[..2] == front && back[..2] == back;
  }

  lemma TwoLines(front: string, back: string)
    requires front != "" && '\n' !in front && back != "" && '\n' !in back
    ensures Rows(front + "\n" + back + "\n") == [Fields(front), Fields(back)]
  {
    hide *;
    RowsOfLine(front, back + "\n");
    RowsOfLine(back, "");
    RowsOfNothing();
    Reassociate(front + "\n", back, "\n", "");
    assert back + "\n" + "" == back + "\n";
  }

  /** A cell with a line break comes back as two rows. */
  lemma BreakSplitsRow(a: char, b: char)
    requires !IsSpace(a) && !IsSpace(b) && a != '"' && a != ',' && b != '"' && b != ','
    ensures Rows(Text([[Cell([a, '\n', b], true)]], "", true)) == [[['"', a]], [[b, '"']]]
  {
    assert a != '\n' && b != '\n';
    hide *;
    OneRowText(Cell([a, '\n', b], true));
    HalvesAreFields(a, b);
    TwoLines(['"', a], [b, '"']);
    SameText(['"'], [a], ['\n'], [b], ['"'], ['\n']);
    assert [a] + ['\n'] + [b] == [a, '\n', b] && ['"'] + [a] == ['"', a] && [b] + ['"'] == [b, '"'];
  }

  lemma SameText(p: string, a: string, q: string, b: string, r: string, s: string)
    ensures p + (a + q + b) + r + s == (p + a) + q + (b + r) + s
  {
  }

  lemma OneRowText(cell: Cell)
    requires cell.quoted && '"' !in cell.text
    ensures Text([[cell]], "", true) == "\"" + cell.text + "\"" + "\n"
  {
    QuotedPlain(cell.text);
    hide Quoted;
    assert Text([[cell]][1..], "", true) == "";
  }
}
