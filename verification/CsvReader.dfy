/** `CsvParser`, updated in place: the open file is the text not yet read. */
module CsvReader {
  import opened Csv

  /** `std::string::find(c, from)`, with |s| for npos. */
  method Find(s: string, c: char, from: nat) returns (k: nat)
    requires from <= |s|
    ensures k == from + IndexOf(s[from..], c)
  {
    k := from;
    while k < |s| && s[k] != c
      invariant from <= k <= |s|
      invariant from + IndexOf(s[from..], c) == k + IndexOf(s[k..], c)
    {
      assert s[k..][1..] == s[k + 1..];
      k := k + 1;
    }
  }

  /** The comma that ends the field at i, or |line|. */
  method NextComma(line: string, i: nat) returns (nextComma: nat)
    requires i <= |line|
    ensures nextComma == i + FieldEnd(line[i..])
  {
    if i < |line| && line[i] == '"' {
      var nextQuote := Find(line, '"', i + 1);
      assert line[i..][1..] == line[i + 1..];
      assert line[i..][nextQuote - i..] == line[nextQuote..];
      nextComma := Find(line, ',', nextQuote);
    } else {
      nextComma := Find(line, ',', i);
    }
  }

  lemma FieldsAt(line: string, i: nat, k: nat)
    requires i <= |line| && k == i + FieldEnd(line[i..])
    ensures k <= |line|
    ensures Fields(line[i..]) == [Clean(line[i..k])] + if k == |line| then [] else Fields(line[k + 1..])
  {
    hide Clean, FieldEnd;
    var s := line[i..];
    assert s[..k - i] == line[i..k];
    if k < |line| {
      assert s[k - i + 1..] == line[k + 1..];
    }
  }

  /** The field loop of `moveNext`. */
  method Split(line: string) returns (values: seq<string>)
    ensures values == Fields(line)
  {
    hide Fields, FieldEnd, Clean;
    values := [];
    var i := 0;
    var more := true;
    assert line[0..] == line;
    while more
      invariant 0 <= i <= |line|
      invariant Fields(line) == if more then values + Fields(line[i..]) else values
      decreases |line| - i + if more then 1 else 0
    {
      var nextComma := NextComma(line, i);
      var value := Clean(line[i..nextComma]);
      FieldsAt(line, i, nextComma);
      values := values + [value];
      if nextComma < |line| {
        i := nextComma + 1;
      } else {
        more := false;
      }
    }
  }

  class CsvParser {
    var file: string
    var line: string
    var headers: seq<string>
    var values0: seq<string>
    var values1: seq<string>
    var valuesN: nat

    constructor (file: string)
      ensures this.file == file && Values() == [] && LastValues() == []
    {
      this.file, line, headers, values0, values1, valuesN := file, "", [], [], [], 0;
    }

    function Values(): seq<string>
      reads this
    {
      if valuesN % 2 == 0 then values0 else values1
    }

    function LastValues(): seq<string>
      reads this
    {
      if valuesN % 2 == 0 then values1 else values0
    }

    /** `std::getline`: false, with an empty line, at the end of the text. */
    method GetLine() returns (got: bool)
      modifies this`file, this`line
      ensures got <==> old(file) != ""
      ensures got ==> |file| < |old(file)|
      ensures got ==> old(Rows(file)) == (if line == "" then [] else [Fields(line)]) + Rows(file)
      ensures !got ==> file == "" && line == ""
    {
      got := file != "";
      if got {
        var end := Find(file, '\n', 0);
        assert file[0..] == file;
        line := file[..end];
        file := if end == |file| then "" else file[end + 1..];
      } else {
        line := "";
      }
    }

    /** Reads the next row into the slot that does not hold the current one, so that the
        current row stays readable as the last one; at the end of the file the new current row
        is empty.  Headers are read into their own slot and disturb neither. */
    method MoveNext(loadHeaders: bool) returns (moved: bool)
      modifies this
      ensures moved <==> old(Rows(file)) != []
      ensures moved ==> Rows(file) == old(Rows(file))[1..]
      ensures !moved ==> file == ""
      ensures !loadHeaders ==> LastValues() == old(Values()) && headers == old(headers)
      ensures !loadHeaders ==> Values() == if moved then old(Rows(file))[0] else []
      ensures loadHeaders ==> Values() == old(Values()) && LastValues() == old(LastValues())
      ensures loadHeaders ==> headers == if moved then old(Rows(file))[0] else old(headers)
    {
      hide Rows, Fields;
      RowsOfNothing();
      line := "";
      var got := GetLine();
      while got
        invariant if got then old(Rows(file)) == (if line == "" then [] else [Fields(line)]) + Rows(file)
                  else old(Rows(file)) == [] && file == ""
        invariant valuesN == old(valuesN) && values0 == old(values0) && values1 == old(values1)
        invariant headers == old(headers)
        decreases |file| + if got then 1 else 0
      {
        if line != "" {
          var values := Split(line);
          if loadHeaders {
            headers := values;
          } else {
            valuesN := valuesN + 1;
            if valuesN % 2 == 0 {
              values0 := values;
            } else {
              values1 := values;
            }
          }
          return true;
        }
        got := GetLine();
      }
      if !loadHeaders {
        valuesN := valuesN + 1;
        if valuesN % 2 == 0 {
          values0 := [];
        } else {
          values1 := [];
        }
      }
      return false;
    }
  }
}
