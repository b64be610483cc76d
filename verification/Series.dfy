/** The time series a replay is fed from: CSV files and jittered series.  A C++ virtual call
    is a match on the kind of the series. */
module Series {
  import opened Csv
  import opened CsvReader
  import opened Options
  import opened Replay

  // ---- Times of a CSV file ----

  predicate IsDigit(c: char) {
    '0' <= c <= '9'
  }

  /** The value of the digits at the front of s, after those already read. */
  function Digits(s: string, read: nat): nat {
    if s == "" || !IsDigit(s[0]) then read else Digits(s[1..], 10 * read + (s[0] - '0') as nat)
  }

  predicate FitsInt64(v: int) {
    -0x8000_0000_0000_0000 <= v < 0x8000_0000_0000_0000
  }

  /** `std::stoll`: leading whitespace, an optional sign and as many digits as follow; None
      where it throws. */
  function Stoll(s: string): Option<int> {
    var t := TrimLeft(s);
    var signed := t != "" && (t[0] == '-' || t[0] == '+');
    var digits := if signed then t[1..] else t;
    if digits == "" || !IsDigit(digits[0]) then None
    else
      var magnitude: int := Digits(digits, 0);
      var v := if signed && t[0] == '-' then -magnitude else magnitude;
      if FitsInt64(v) then Some(v) else None
  }

  // ---- Numbers as text ----

  function DigitOf(n: nat): char
    requires n < 10
  {
    ['0', '1', '2', '3', '4', '5', '6', '7', '8', '9'][n]
  }

  function DecimalDigits(n: nat): string {
    if n < 10 then [DigitOf(n)] else DecimalDigits(n / 10) + [DigitOf(n % 10)]
  }

  /** A number as one writes it. */
  function Decimal(v: int): string {
    if v < 0 then "-" + DecimalDigits(-v) else DecimalDigits(v)
  }

  lemma DigitsStep(n: nat, rest: string, read: nat)
    requires n < 10
    ensures IsDigit(DigitOf(n)) && Digits([DigitOf(n)] + rest, read) == Digits(rest, 10 * read + n)
  {
    assert ([DigitOf(n)] + rest)[1..] == rest;
  }

  lemma {:induction false} DigitsRead(n: nat, rest: string)
    ensures Digits(DecimalDigits(n) + rest, 0) == Digits(rest, n)
    ensures DecimalDigits(n) != "" && IsDigit(DecimalDigits(n)[0])
  {
    hide Digits, DigitOf;
    if n < 10 {
      DigitsStep(n, rest, 0);
    } else {
      DigitsRead(n / 10, [DigitOf(n % 10)] + rest);
      DigitsStep(n % 10, rest, n / 10);
      assert DecimalDigits(n) + rest == DecimalDigits(n / 10) + ([DigitOf(n % 10)] + rest);
    }
  }

  lemma StollFrom(space: string, t: string)
    requires Blank(space) && t != "" && !IsSpace(t[0])
    ensures IsDigit(t[0]) ==>
              Stoll(space + t) == (var v: int := Digits(t, 0); if FitsInt64(v) then Some(v) else None)
    ensures t[0] in ['+', '-'] && |t| > 1 && IsDigit(t[1]) ==>
              Stoll(space + t)
              == (var m: int := Digits(t[1..], 0); var v := if t[0] == '-' then -m else m;
                  if FitsInt64(v) then Some(v) else None)
  {
    TrimLeftBlank(space, t);
    hide TrimLeft, Digits, FitsInt64;
  }

  /** Whitespace, a sign or none, the digits of a number, and anything that does not go on with a
      digit: the number, or a throw when it does not fit. */
  lemma StollReads(space: string, sign: string, n: nat, rest: string)
    requires Blank(space) && sign in ["", "+", "-"] && (rest == "" || !IsDigit(rest[0]))
    ensures var v := if sign == "-" then 0 - n as int else n as int;
            Stoll(space + (sign + (DecimalDigits(n) + rest)))
            == if -0x8000_0000_0000_0000 <= v <= 0x7FFF_FFFF_FFFF_FFFF then Some(v) else None
  {
    var digits := DecimalDigits(n) + rest;
    DigitsRead(n, rest);
    assert digits[0] == DecimalDigits(n)[0];
    assert Digits(digits, 0) == n;
    hide DecimalDigits, Digits, Stoll;
    var t := sign + digits;
    if sign == "" {
      assert t == digits;
    } else {
      assert t[0] == sign[0] && t[1..] == digits;
    }
    StollFrom(space, t);
  }

  /** Without a digit there is nothing to convert: a throw. */
  lemma StollThrows(space: string, sign: string, rest: string)
    requires Blank(space) && sign in ["+", "-"] && (rest == "" || !IsDigit(rest[0]))
    ensures Stoll(space + (sign + rest)) == None
    ensures (rest == "" || (!IsSpace(rest[0]) && rest[0] != '+' && rest[0] != '-')) ==> Stoll(space + rest) == None
  {
    var t := sign + rest;
    assert t[1..] == rest;
    TrimLeftBlank(space, t);
    if rest == "" || !IsSpace(rest[0]) {
      TrimLeftBlank(space, rest);
    }
  }

  /** What is written in decimal is read back if and only if it fits 64 bits. */
  lemma StollDecimal(v: int)
    ensures Stoll(Decimal(v))
            == if -0x8000_0000_0000_0000 <= v <= 0x7FFF_FFFF_FFFF_FFFF then Some(v) else None
  {
    var n: nat := if v < 0 then -v else v;
    var sign := if v < 0 then "-" else "";
    StollReads("", sign, n, "");
    assert "" + (sign + (DecimalDigits(n) + "")) == Decimal(v);
  }

  datatype TimeColumn = TimeColumn(column: nat, scale: int, offset: int)
  {
    /** The row has no time column, or one that `moveNext` can convert without throwing or
        overflowing. */
    predicate Converts(row: seq<string>) {
      |row| > column ==>
        var v := Stoll(row[column]);
        v.Some? && FitsInt64(v.value * scale) && FitsInt64(v.value * scale + offset)
    }

    /** The cast to uint64_t makes a negative time a huge one. */
    function TimeOf(row: seq<string>): nat
      requires |row| > column && Converts(row)
    {
      (Stoll(row[column]).value * scale + offset) % 0x1_0000_0000_0000_0000
    }

    /** What successive `moveNext` calls reach: a row too short for a time ends the series. */
    function Readings(rows: seq<seq<string>>): seq<Reading>
      requires forall i :: 0 <= i < |rows| ==> Converts(rows[i])
    {
      if rows == [] || |rows[0]| <= column then []
      else [Reading(TimeOf(rows[0]), rows[0])] + Readings(rows[1..])
    }
  }

  /** The time column of a row is this number. */
  ghost predicate Shows(times: TimeColumn, row: seq<string>, v: int) {
    && |row| > times.column && row[times.column] == Decimal(v)
    && FitsInt64(v) && FitsInt64(v * times.scale) && FitsInt64(v * times.scale + times.offset)
  }

  lemma ShownTime(times: TimeColumn, row: seq<string>, v: int)
    requires Shows(times, row, v)
    ensures times.Converts(row) && times.TimeOf(row) == (v * times.scale + times.offset) % 0x1_0000_0000_0000_0000
  {
    StollDecimal(v);
  }

  /** Rows whose time cells are numbers in decimal: one reading each, at that number scaled and
      shifted, modulo 2^64. */
  lemma {:induction false} ReadingsOfDecimals(times: TimeColumn, rows: seq<seq<string>>, vs: seq<int>)
    requires |rows| == |vs| && forall i :: 0 <= i < |rows| ==> Shows(times, rows[i], vs[i])
    ensures forall i :: 0 <= i < |rows| ==> times.Converts(rows[i])
    ensures var rs := times.Readings(rows);
            && |rs| == |rows|
            && forall i :: 0 <= i < |rs| ==>
                 rs[i] == Reading((vs[i] * times.scale + times.offset) % 0x1_0000_0000_0000_0000, rows[i])
  {
    hide Shows;
    forall i | 0 <= i < |rows| ensures times.Converts(rows[i]) {
      ShownTime(times, rows[i], vs[i]);
    }
    if rows == [] {
    } else {
      ShownTime(times, rows[0], vs[0]);
      assert |rows[0]| > times.column by { ShowsCell(times, rows[0], vs[0]); }
      ReadingsOfDecimals(times, rows[1..], vs[1..]);
    }
  }

  lemma ShowsCell(times: TimeColumn, row: seq<string>, v: int)
    requires Shows(times, row, v)
    ensures |row| > times.column
  {
  }

  /** A row too short for a time ends the series, whatever comes behind it. */
  lemma {:induction false} ShortRowEnds(
      times: TimeColumn, rows: seq<seq<string>>, short: seq<string>, behind: seq<seq<string>>)
    requires |short| <= times.column
    requires forall row :: row in rows || row in behind ==> times.Converts(row)
    ensures forall row :: row in rows + [short] + behind ==> times.Converts(row)
    ensures times.Readings(rows + [short] + behind) == times.Readings(rows)
  {
    var all := rows + [short] + behind;
    if rows == [] || |rows[0]| <= times.column {
    } else {
      assert all[1..] == rows[1..] + [short] + behind;
      ShortRowEnds(times, rows[1..], short, behind);
    }
  }

  /** So a file written by the rules whose cells survive and whose time cells are numbers in
      decimal is a series of its rows at those times. */
  lemma FileReadings(times: TimeColumn, rows: seq<seq<Cell>>, end: string, closed: bool, vs: seq<int>)
    requires Proper(rows) && LineEnd(end) && AllSurvive(rows) && Unbroken(rows) && NoBlank(rows, end, closed)
    requires |rows| == |vs| && forall i :: 0 <= i < |rows| ==> Shows(times, Texts(rows[i]), vs[i])
    ensures forall row :: row in Rows(Text(rows, end, closed)) ==> times.Converts(row)
    ensures var read := Rows(Text(rows, end, closed));
            && |read| == |rows| && |times.Readings(read)| == |rows|
            && forall i :: 0 <= i < |rows| ==>
                 times.Readings(read)[i]
                 == Reading((vs[i] * times.scale + times.offset) % 0x1_0000_0000_0000_0000, Texts(rows[i]))
  {
    hide Rows, Text, Texts, Shows, Proper, AllSurvive, Unbroken, NoBlank, LineEnd;
    FileReadsBackIff(rows, end, closed);
    ReadingsOfDecimals(times, AllTexts(rows), vs);
  }

  // ---- Jitter ----

  function Max(a: nat, b: nat): nat {
    if a < b then b else a
  }

  /** `_underlying->time() + jitter` on uint64_t. */
  function Later(time: nat, jitter: nat): nat {
    (time + jitter) % 0x1_0000_0000_0000_0000
  }

  lemma LaterInRange(time: nat, jitter: nat)
    requires time + jitter < 0x1_0000_0000_0000_0000
    ensures Later(time, jitter) == time + jitter
  {
  }

  /** The times a jittered series reaches from time, drawing random(n), random(n + 1), ... */
  function Jittered(time: nat, underlying: seq<Reading>, random: nat -> nat, n: nat): seq<Reading>
    decreases |underlying|
  {
    if underlying == [] then []
    else
      var t := Max(time, Later(underlying[0].time, random(n)));
      [Reading(t, [])] + Jittered(t, underlying[1..], random, n + 1)
  }

  lemma JitteredUnfolds(time: nat, underlying: seq<Reading>, random: nat -> nat, n: nat)
    ensures underlying == [] <==> Jittered(time, underlying, random, n) == []
    ensures underlying != [] ==>
              var t := Max(time, Later(underlying[0].time, random(n)));
              Jittered(time, underlying, random, n) == [Reading(t, [])] + Jittered(t, underlying[1..], random, n + 1)
  {
  }

  /** Each jittered time is the larger of the one before and its own time plus the next draw. */
  lemma {:induction false} JitteredAt(time: nat, underlying: seq<Reading>, random: nat -> nat, n: nat, i: nat)
    requires i < |underlying|
    ensures var js := Jittered(time, underlying, random, n);
            && |js| == |underlying|
            && var before, own := if i == 0 then time else js[i - 1].time, Later(underlying[i].time, random(n + i));
               js[i].time == if before < own then own else before
    decreases |underlying|
  {
    hide Later;
    JitteredLength(time, underlying, random, n);
    if i == 0 {
    } else {
      var t := Max(time, Later(underlying[0].time, random(n)));
      JitteredAt(t, underlying[1..], random, n + 1, i - 1);
    }
  }

  lemma {:induction false} JitteredLength(time: nat, underlying: seq<Reading>, random: nat -> nat, n: nat)
    ensures |Jittered(time, underlying, random, n)| == |underlying|
    decreases |underlying|
  {
    if underlying == [] {
    } else {
      JitteredLength(Max(time, Later(underlying[0].time, random(n))), underlying[1..], random, n + 1);
    }
  }

  ghost predicate Nondecreasing(rs: seq<Reading>) {
    forall i, j :: 0 <= i <= j < |rs| ==> rs[i].time <= rs[j].time
  }

  lemma {:induction false} JitteredOnlyForward(time: nat, underlying: seq<Reading>, random: nat -> nat, n: nat)
    ensures var js := Jittered(time, underlying, random, n);
            |js| == |underlying| && Nondecreasing(js) && forall i :: 0 <= i < |js| ==> time <= js[i].time
    decreases |underlying|
  {
    if underlying == [] {
    } else {
      var t := Max(time, Later(underlying[0].time, random(n)));
      JitteredOnlyForward(t, underlying[1..], random, n + 1);
    }
  }

  lemma {:induction false} NondecreasingAccepted(time: nat, rs: seq<Reading>)
    requires Nondecreasing(rs) && forall i :: 0 <= i < |rs| ==> time <= rs[i].time && 0 < rs[i].time
    ensures Accepted(time, rs) == rs
    decreases |rs|
  {
    if rs == [] {
    } else {
      assert Nondecreasing(rs[1..]) by {
        assert forall i :: 0 <= i < |rs| - 1 ==> rs[1..][i] == rs[i + 1];
      }
      hide Nondecreasing;
      NondecreasingAccepted(rs[0].time, rs[1..]);
      assert rs == [rs[0]] + rs[1..];
    }
  }

  /** Whatever the underlying times and the draws, a jittered source is played to its end
      exactly when its first time is not 0: it is never dropped for going back. */
  lemma JitterNeverUnordered(underlying: seq<Reading>, random: nat -> nat)
    ensures var js := Jittered(0, underlying, random, 0);
            Accepted(0, js) == js <==> js == [] || js[0].time > 0
  {
    JitteredOnlyForward(0, underlying, random, 0);
    var js := Jittered(0, underlying, random, 0);
    if js != [] && js[0].time > 0 {
      NondecreasingAccepted(0, js);
    }
  }

  ghost predicate Within(js: seq<Reading>, underlying: seq<Reading>, min: nat, max: nat) {
    && |js| == |underlying|
    && forall i :: 0 <= i < |js| ==> underlying[i].time + min <= js[i].time <= underlying[i].time + max
  }

  /** Draws of a series with jitter from min to max. */
  ghost predicate Draws(random: nat -> nat, min: nat, max: nat) {
    forall k :: min <= random(k) <= max
  }

  /** No time leaves the 64 bits when the largest jitter is added. */
  ghost predicate Fits(underlying: seq<Reading>, max: nat) {
    forall i :: 0 <= i < |underlying| ==> underlying[i].time + max < 0x1_0000_0000_0000_0000
  }

  /** With that room, over a nondecreasing series, every jittered time lies between the smallest
      and the largest jitter after its own. */
  lemma {:induction false} JitterWithinBounds(
      time: nat, underlying: seq<Reading>, random: nat -> nat, n: nat, min: nat, max: nat)
    requires Draws(random, min, max) && Nondecreasing(underlying) && Fits(underlying, max)
    requires underlying != [] ==> time <= underlying[0].time + max
    ensures Within(Jittered(time, underlying, random, n), underlying, min, max)
    decreases |underlying|
  {
    if underlying == [] {
    } else {
      hide Jittered, Later;
      LaterInRange(underlying[0].time, random(n));
      JitteredUnfolds(time, underlying, random, n);
      var t := Max(time, Later(underlying[0].time, random(n)));
      assert forall i :: 0 <= i < |underlying| - 1 ==> underlying[1..][i] == underlying[i + 1];
      JitterWithinBounds(t, underlying[1..], random, n + 1, min, max);
    }
  }

  /** The smallest jitter until the first time without room, then the largest: that sum wraps
      below its bound. */
  lemma {:induction false} JitterEscapes(
      time: nat, underlying: seq<Reading>, random: nat -> nat, n: nat, i: nat, min: nat, max: nat)
    requires Nondecreasing(underlying) && i < |underlying| && min <= max < 0x1_0000_0000_0000_0000
    requires Fits(underlying[..i], max) && underlying[i].time < 0x1_0000_0000_0000_0000 <= underlying[i].time + max
    requires (forall k :: n <= k < n + i ==> random(k) == min) && random(n + i) == max
    requires time < underlying[i].time + min
    ensures var js := Jittered(time, underlying, random, n);
            |js| == |underlying| && js[i].time < underlying[i].time + min
    decreases |underlying|
  {
    hide Jittered;
    JitteredOnlyForward(time, underlying, random, n);
    JitteredUnfolds(time, underlying, random, n);
    var t := Max(time, Later(underlying[0].time, random(n)));
    if i == 0 {
      assert Later(underlying[0].time, max) == underlying[0].time + max - 0x1_0000_0000_0000_0000;
    } else {
      assert underlying[..i][0] == underlying[0];
      LaterInRange(underlying[0].time, min);
      var rest := underlying[1..];
      assert forall k :: 0 <= k < |rest| ==> rest[k] == underlying[k + 1];
      assert rest[..i - 1] == underlying[..i][1..];
      JitterEscapes(t, rest, random, n + 1, i - 1, min, max);
    }
  }

  /** Over a nondecreasing series the jittered times stay within their bounds, whatever is drawn,
      if and only if every time leaves room for the largest jitter. */
  lemma JitterWithinIff(underlying: seq<Reading>, min: nat, max: nat)
    requires Nondecreasing(underlying) && min <= max < 0x1_0000_0000_0000_0000 && Fits(underlying, 0)
    ensures (forall random: nat -> nat :: Draws(random, min, max) ==>
               Within(Jittered(0, underlying, random, 0), underlying, min, max))
            <==> Fits(underlying, max)
  {
    hide Jittered;
    if Fits(underlying, max) {
      forall random: nat -> nat | Draws(random, min, max)
        ensures Within(Jittered(0, underlying, random, 0), underlying, min, max)
      {
        JitterWithinBounds(0, underlying, random, 0, min, max);
      }
    } else {
      var i := FirstWithoutRoom(underlying, max);
      var random := (k: nat) => if k == i then max else min;
      assert Draws(random, min, max);
      JitterEscapes(0, underlying, random, 0, i, min, max);
      assert !Within(Jittered(0, underlying, random, 0), underlying, min, max);
    }
  }

  lemma FirstWithoutRoom(underlying: seq<Reading>, max: nat) returns (i: nat)
    requires !Fits(underlying, max)
    ensures i < |underlying| && Fits(underlying[..i], max) && 0x1_0000_0000_0000_0000 <= underlying[i].time + max
  {
    i := 0;
    while underlying[i].time + max < 0x1_0000_0000_0000_0000
      invariant i < |underlying| && Fits(underlying[..i], max)
      decreases |underlying| - i
    {
      i := i + 1;
    }
  }

  /** A first reading at the largest time and a jitter of 1: the jittered series begins at time 0,
      which the replayer takes for the end. */
  lemma JitterWraps(row: seq<string>, rest: seq<Reading>, random: nat -> nat)
    requires random(0) == 1
    ensures var js := Jittered(0, [Reading(0xFFFF_FFFF_FFFF_FFFF, row)] + rest, random, 0);
            js != [] && js[0].time == 0 && Accepted(0, js) == []
  {
    JitteredUnfolds(0, [Reading(0xFFFF_FFFF_FFFF_FFFF, row)] + rest, random, 0);
  }

  // ---- The series objects ----

  /** random(n) is the n-th number drawn for this series, between min and max. */
  datatype Kind =
    | CsvSeries(parser: CsvParser, times: TimeColumn)
    | JitterSeries(underlying: TimeSeries, min: nat, max: nat, random: nat -> nat)

  class TimeSeries {
    const kind: Kind
    var time: nat
    var draws: nat
    /** The objects this series is made of. */
    ghost const footprint: set<object>
    /** Where the last successful `MoveNext` led, and where the next ones will. */
    ghost var at: Reading
    ghost var upcoming: seq<Reading>

    ghost predicate Valid()
      reads this, footprint
      decreases footprint
    {
      && this in footprint
      && match kind
         case CsvSeries(parser, times) =>
           && footprint == {this, parser}
           && (forall i :: 0 <= i < |Rows(parser.file)| ==> times.Converts(Rows(parser.file)[i]))
           && upcoming == times.Readings(Rows(parser.file))
         case JitterSeries(underlying, min, max, random) =>
           && footprint == {this} + underlying.footprint && this !in underlying.footprint
           && underlying.footprint < footprint && underlying in underlying.footprint
           && underlying.Valid()
           && (forall k :: min <= random(k) <= max)
           && upcoming == Jittered(time, underlying.upcoming, random, draws)
    }

    constructor Csv(parser: CsvParser, times: TimeColumn)
      requires times.scale > 0
      requires forall i :: 0 <= i < |Rows(parser.file)| ==> times.Converts(Rows(parser.file)[i])
      ensures Valid() && kind == CsvSeries(parser, times) && time == 0
      ensures footprint == {this, parser} && upcoming == times.Readings(Rows(parser.file))
    {
      kind := CsvSeries(parser, times);
      time, draws := 0, 0;
      footprint := {this, parser};
      at, upcoming := Reading(0, []), times.Readings(Rows(parser.file));
    }

    constructor Jitter(underlying: TimeSeries, min: nat, max: nat, random: nat -> nat)
      requires underlying.Valid() && forall k :: min <= random(k) <= max
      ensures Valid() && kind == JitterSeries(underlying, min, max, random) && time == 0
      ensures footprint == {this} + underlying.footprint
      ensures upcoming == Jittered(0, underlying.upcoming, random, 0)
    {
      kind := JitterSeries(underlying, min, max, random);
      time, draws := 0, 0;
      footprint := {this} + underlying.footprint;
      at, upcoming := Reading(0, []), Jittered(0, underlying.upcoming, random, 0);
      new;
      assert this !in underlying.footprint;
    }

    /** The parser of a CSV series is at the row the series is at. */
    ghost predicate AtRow()
      reads this, if kind.CsvSeries? then {kind.parser} else {}
    {
      kind.CsvSeries? ==>
        && kind.parser.Values() == at.row
        && |at.row| > kind.times.column && kind.times.Converts(at.row) && at.time == kind.times.TimeOf(at.row)
    }

    method MoveNext() returns (moved: bool)
      requires Valid()
      modifies footprint
      ensures Valid()
      ensures moved <==> old(upcoming) != []
      ensures moved ==> at == old(upcoming)[0] && upcoming == old(upcoming)[1..] && time == at.time && AtRow()
      ensures kind.CsvSeries? && old(AtRow()) ==> kind.parser.LastValues() == old(at.row)
      decreases footprint, 1
    {
      match kind
      case CsvSeries(_, _) => moved := MoveNextRow();
      case JitterSeries(_, _, _, _) => moved := MoveNextJitter();
    }

    /** `CsvTimeSeries::moveNext` */
    method MoveNextRow() returns (moved: bool)
      requires Valid() && kind.CsvSeries?
      modifies footprint
      ensures Valid()
      ensures moved <==> old(upcoming) != []
      ensures moved ==> at == old(upcoming)[0] && upcoming == old(upcoming)[1..] && time == at.time && AtRow()
      ensures kind.parser.LastValues() == old(kind.parser.Values())
      decreases footprint, 0
    {
      hide Rows, Stoll;
      var parser, times := kind.parser, kind.times;
      time := 0;
      ghost var rows := Rows(parser.file);
      var more := parser.MoveNext(false);
      RowsOfNothing();
      upcoming := times.Readings(Rows(parser.file));
      if !more {
        return false;
      }
      if |parser.Values()| <= times.column {
        return false;
      }
      time := (Stoll(parser.Values()[times.column]).value * times.scale + times.offset) % 0x1_0000_0000_0000_0000;
      at := Reading(time, parser.Values());
      return true;
    }

    /** `JitterTimeSeries::moveNext` */
    method MoveNextJitter() returns (moved: bool)
      requires Valid() && kind.JitterSeries?
      modifies footprint
      ensures Valid()
      ensures moved <==> old(upcoming) != []
      ensures moved ==> at == old(upcoming)[0] && upcoming == old(upcoming)[1..] && time == at.time
      decreases footprint, 0
    {
      hide Jittered, Later, Max, Rows, TimeColumn.Readings, TimeColumn.Converts;
      var underlying := kind.underlying;
      JitteredUnfolds(time, underlying.upcoming, kind.random, draws);
      moved := underlying.MoveNext();
      if moved {
        var jitter := kind.random(draws);
        draws := draws + 1;
        time := Max(time, Later(underlying.time, jitter));
        at := Reading(time, []);
      }
      upcoming := Jittered(time, underlying.upcoming, kind.random, draws);
    }
  }
}
