/** Printing a point list as QGC WPL text and reading the coordinates back. */
module WplTexts {
  import opened Wrappers
  import opened Strings
  import opened WplPoints

  const HEADER := "QGC WPL 110"
  const COMMAND: int := 16
  const AUTOCONTINUE: int := 1

  /** How numbers are printed and floats are read back; left uninterpreted. */
  datatype NumberFormat = NumberFormat(showReal: real -> string, showInt: int -> string, parse: string -> Option<real>)
  {
    /** Reading undoes printing for this number, whose text holds no tab or line break. */
    predicate Keeps(x: real) {
      parse(showReal(x)) == Some(x) && SingleLine(showReal(x)) && '\t' !in showReal(x)
    }

    /** The format keeps every number among these (only finitely many floats exist, so none can be
        asked to keep all reals), and no printed integer holds a tab or a line break. */
    ghost predicate FaithfulOn(numbers: set<real>) {
      && (forall x <- numbers :: Keeps(x))
      && (forall n :: SingleLine(showInt(n)) && '\t' !in showInt(n))
    }
  }

  /** A command parameter may be absent. */
  function Parameter(f: Field): Result<real, PointError> {
    if f.Missing? then Ok(0.0) else Required(f)
  }

  predicate Printable(p: RawPoint) {
    HasCoordinates(p)
    && !p.param1.NotANumber? && !p.param2.NotANumber? && !p.param3.NotANumber? && !p.param4.NotANumber?
  }

  function ParameterValue(f: Field): real {
    if f.Number? then f.value else 0.0
  }

  /** The twelve columns of a row. */
  function Columns(fmt: NumberFormat, i: int, p: RawPoint, frame: int): (cols: seq<string>)
    requires Printable(p)
    ensures |cols| == 12
  {
    [fmt.showInt(i), fmt.showInt(if i == 0 then 1 else 0), fmt.showInt(frame), fmt.showInt(COMMAND),
     fmt.showReal(ParameterValue(p.param1)), fmt.showReal(ParameterValue(p.param2)),
     fmt.showReal(ParameterValue(p.param3)), fmt.showReal(ParameterValue(p.param4)),
     fmt.showReal(p.lat.value), fmt.showReal(p.lon.value), fmt.showReal(p.altM.value), fmt.showInt(AUTOCONTINUE)]
  }

  /** The numbers a row prints as floats. */
  function RowNumbers(p: RawPoint): set<real>
    requires Printable(p)
  {
    {ParameterValue(p.param1), ParameterValue(p.param2), ParameterValue(p.param3), ParameterValue(p.param4),
     p.lat.value, p.lon.value, p.altM.value}
  }

  /** The numbers a list prints as floats. */
  function Numbers(points: seq<RawPoint>): set<real>
    requires AllPrintable(points)
  {
    if points == [] then {} else Numbers(points[..|points| - 1]) + RowNumbers(points[|points| - 1])
  }

  predicate AllPrintable(points: seq<RawPoint>) {
    forall i :: 0 <= i < |points| ==> Printable(points[i])
  }

  function Row(fmt: NumberFormat, i: int, p: RawPoint, frame: int): string
    requires Printable(p)
  {
    Join(Columns(fmt, i, p, frame), '\t')
  }

  function Rows(fmt: NumberFormat, points: seq<RawPoint>, frame: int): seq<string>
    requires AllPrintable(points)
  {
    if points == [] then []
    else
      var n := |points| - 1;
      Rows(fmt, points[..n], frame) + [Row(fmt, n, points[n], frame)]
  }

  function WplText(fmt: NumberFormat, points: seq<RawPoint>, frame: int): string
    requires AllPrintable(points)
  {
    Unlines([HEADER] + Rows(fmt, points, frame))
  }

  datatype WplError = EmptyPoints | BadPoint(index: nat)

  /** Prints the whole list or refuses it, naming the first point it cannot print. */
  method PointsToWpl(fmt: NumberFormat, points: seq<RawPoint>, frame: int) returns (r: Result<string, WplError>)
    ensures points == [] ==> r == Err(EmptyPoints)
    ensures r.Ok? <==> points != [] && AllPrintable(points)
    ensures r.Ok? ==> r.value == WplText(fmt, points, frame)
    ensures r.Err? && points != [] ==>
      r.error.BadPoint? && r.error.index < |points| && !Printable(points[r.error.index])
      && AllPrintable(points[..r.error.index])
  {
    hide Row, Printable, Unlines;
    if points == [] {
      return Err(EmptyPoints);
    }
    var lines := [HEADER];
    for i := 0 to |points|
      invariant forall k :: 0 <= k < i ==> Printable(points[k])
      invariant lines == [HEADER] + Rows(fmt, points[..i], frame)
    {
      var row := PrintRow(fmt, i, points[i], frame);
      if row.Err? {
        return Err(BadPoint(i));
      }
      lines := lines + [row.value];
      assert points[..i + 1][..i] == points[..i];
    }
    assert points[..|points|] == points;
    r := Ok(Unlines(lines));
  }

  /** One turn of the printing loop. */
  method PrintRow(fmt: NumberFormat, i: int, p: RawPoint, frame: int) returns (r: Result<string, PointError>)
    ensures r.Ok? <==> Printable(p)
    ensures r.Ok? <==> && p.Dict? && p.lat.Number? && p.lon.Number? && p.altM.Number?
                       && -90.0 <= p.lat.value <= 90.0 && -180.0 <= p.lon.value <= 180.0 && 0.0 <= p.altM.value
                       && forall f <- [p.param1, p.param2, p.param3, p.param4] :: !f.NotANumber?
    ensures r.Ok? ==> r.value == Row(fmt, i, p, frame)
  {
    var coordinates := ReadPoint(p);
    if coordinates.Err? {
      return Err(coordinates.error);
    }
    var p1, p2, p3, p4 := Parameter(p.param1), Parameter(p.param2), Parameter(p.param3), Parameter(p.param4);
    if p1.Err? || p2.Err? || p3.Err? || p4.Err? {
      return Err(NotNumeric);
    }
    var current := if i == 0 then 1 else 0;
    var c := coordinates.value;
    var columns := [fmt.showInt(i), fmt.showInt(current), fmt.showInt(frame), fmt.showInt(COMMAND),
                    fmt.showReal(p1.value), fmt.showReal(p2.value), fmt.showReal(p3.value), fmt.showReal(p4.value),
                    fmt.showReal(c.lat), fmt.showReal(c.lon), fmt.showReal(c.altM), fmt.showInt(AUTOCONTINUE)];
    assert columns == Columns(fmt, i, p, frame);
    r := Ok(Join(columns, '\t'));
  }

  // ----- reading back

  /** What one line contributes: nothing unless it has twelve columns with numeric coordinates. */
  function LineRoute(fmt: NumberFormat, line: string): seq<(real, real)> {
    var parts := Split(line, '\t');
    if |parts| < 12 then []
    else
      var lat, lon := fmt.parse(parts[8]), fmt.parse(parts[9]);
      if lat.None? || lon.None? then [] else [(lat.value, lon.value)]
  }

  /** A line of at least twelve columns contributes the numbers in its ninth and tenth, if they are
      numbers; any other line contributes nothing. */
  lemma LineContributes(fmt: NumberFormat, cols: seq<string>)
    requires cols != [] && forall col <- cols :: '\t' !in col
    ensures var p := LineRoute(fmt, Join(cols, '\t'));
            && (p != [] <==> |cols| >= 12 && fmt.parse(cols[8]).Some? && fmt.parse(cols[9]).Some?)
            && (p != [] ==> p == [(fmt.parse(cols[8]).value, fmt.parse(cols[9]).value)])
  {
    SplitJoin(cols, '\t');
  }

  function Route(fmt: NumberFormat, lines: seq<string>): seq<(real, real)> {
    if lines == [] then []
    else Route(fmt, lines[..|lines| - 1]) + LineRoute(fmt, lines[|lines| - 1])
  }

  method ParseWplRoute(fmt: NumberFormat, wpl: Option<string>) returns (route: seq<(real, real)>)
    ensures route == Route(fmt, Lines(if wpl.Some? then wpl.value else ""))
  {
    hide Lines, Split;
    route := [];
    var lines := Lines(if wpl.Some? then wpl.value else "");
    for i := 0 to |lines|
      invariant route == Route(fmt, lines[..i])
    {
      assert lines[..i + 1][..i] == lines[..i];
      var parts := Split(lines[i], '\t');
      if |parts| < 12 {
        continue;
      }
      var lat, lon := fmt.parse(parts[8]), fmt.parse(parts[9]);
      if lat.None? || lon.None? {
        continue;
      }
      route := route + [(lat.value, lon.value)];
    }
    assert lines[..|lines|] == lines;
  }

  function LatLons(points: seq<RawPoint>): seq<(real, real)>
    requires AllPrintable(points)
  {
    if points == [] then []
    else
      var n := |points| - 1;
      LatLons(points[..n]) + [(points[n].lat.value, points[n].lon.value)]
  }

  lemma ColumnsAreClean(fmt: NumberFormat, i: int, p: RawPoint, frame: int)
    requires Printable(p) && fmt.FaithfulOn(RowNumbers(p))
    ensures forall col <- Columns(fmt, i, p, frame) :: SingleLine(col) && '\t' !in col
    ensures fmt.parse(Columns(fmt, i, p, frame)[8]) == Some(p.lat.value)
    ensures fmt.parse(Columns(fmt, i, p, frame)[9]) == Some(p.lon.value)
  {
    hide SingleLine;
    assert forall x <- RowNumbers(p) :: fmt.Keeps(x);
  }

  /** What the columns of a row say: its number, whether it is the first, the frame, the command, the
      four parameters with 0 for those not given, latitude, longitude, altitude, and the flag to go
      on by itself. */
  ghost predicate SaysPoint(fmt: NumberFormat, cols: seq<string>, i: int, p: RawPoint, frame: int)
    requires p.Dict?
  {
    && |cols| == 12
    && cols[0] == fmt.showInt(i) && cols[1] == fmt.showInt(if i == 0 then 1 else 0) && cols[2] == fmt.showInt(frame)
    && cols[3] == fmt.showInt(16) && cols[11] == fmt.showInt(1)
    && (forall v :: p.param1 == Number(v) || (p.param1.Missing? && v == 0.0) ==> cols[4] == fmt.showReal(v))
    && (forall v :: p.param2 == Number(v) || (p.param2.Missing? && v == 0.0) ==> cols[5] == fmt.showReal(v))
    && (forall v :: p.param3 == Number(v) || (p.param3.Missing? && v == 0.0) ==> cols[6] == fmt.showReal(v))
    && (forall v :: p.param4 == Number(v) || (p.param4.Missing? && v == 0.0) ==> cols[7] == fmt.showReal(v))
    && (forall v :: p.lat == Number(v) ==> cols[8] == fmt.showReal(v))
    && (forall v :: p.lon == Number(v) ==> cols[9] == fmt.showReal(v))
    && (forall v :: p.altM == Number(v) ==> cols[10] == fmt.showReal(v))
  }

  lemma ColumnsSayPoint(fmt: NumberFormat, i: int, p: RawPoint, frame: int)
    requires Printable(p)
    ensures SaysPoint(fmt, Columns(fmt, i, p, frame), i, p, frame)
  {
  }

  lemma RowReadsBack(fmt: NumberFormat, i: int, p: RawPoint, frame: int)
    requires Printable(p) && fmt.FaithfulOn(RowNumbers(p))
    ensures var row := Row(fmt, i, p, frame);
            SingleLine(row) && |Split(row, '\t')| == 12 && LineRoute(fmt, row) == [(p.lat.value, p.lon.value)]
            && SaysPoint(fmt, Split(row, '\t'), i, p, frame)
  {
    hide SaysPoint;
    ColumnsSayPoint(fmt, i, p, frame);
    var cols := Columns(fmt, i, p, frame);
    ColumnsAreClean(fmt, i, p, frame);
    SplitJoin(cols, '\t');
    forall c | IsLineBreak(c) ensures c !in Join(cols, '\t') {
      JoinAvoids(cols, '\t', c);
    }
  }

  lemma {:induction false} RowsReadBack(fmt: NumberFormat, points: seq<RawPoint>, frame: int)
    requires AllPrintable(points) && fmt.FaithfulOn(Numbers(points))
    ensures var rows := Rows(fmt, points, frame);
            && |rows| == |points|
            && (forall row <- rows :: SingleLine(row) && |Split(row, '\t')| == 12)
            && (forall i :: 0 <= i < |rows| ==> SaysPoint(fmt, Split(rows[i], '\t'), i, points[i], frame))
            && Route(fmt, rows) == LatLons(points)
  {
    hide SaysPoint, Split, Row, LineRoute, NumberFormat.FaithfulOn, SingleLine, Numbers, Printable;
    if points != [] {
      var n := |points| - 1;
      FaithfulOnParts(fmt, points);
      RowsReadBack(fmt, points[..n], frame);
      RowReadsBack(fmt, n, points[n], frame);
      var rows := Rows(fmt, points, frame);
      assert rows[..n] == Rows(fmt, points[..n], frame);
    }
  }

  lemma FaithfulOnParts(fmt: NumberFormat, points: seq<RawPoint>)
    requires points != [] && AllPrintable(points) && fmt.FaithfulOn(Numbers(points))
    ensures fmt.FaithfulOn(Numbers(points[..|points| - 1])) && fmt.FaithfulOn(RowNumbers(points[|points| - 1]))
  {
    hide RowNumbers;
  }

  lemma {:induction false} HeaderLineSkipped(fmt: NumberFormat, header: string, rows: seq<string>)
    requires '\t' !in header
    ensures Route(fmt, [header] + rows) == Route(fmt, rows)
  {
    var lines := [header] + rows;
    SplitWord(header, '\t');
    if rows == [] {
      assert lines[..0] == [];
    } else {
      HeaderLineSkipped(fmt, header, rows[..|rows| - 1]);
      assert lines[..|lines| - 1] == [header] + rows[..|rows| - 1];
    }
  }

  /** Printing and then parsing is the identity on coordinates: one header line that is skipped, then
      one line per point, whose twelve columns say what they should of it. */
  lemma PrintThenParse(fmt: NumberFormat, points: seq<RawPoint>, frame: int)
    requires AllPrintable(points) && fmt.FaithfulOn(Numbers(points))
    ensures var lines := Lines(WplText(fmt, points, frame));
            && |lines| == |points| + 1 && lines[0] == "QGC WPL 110"
            && (forall k :: 0 < k < |lines| ==> SaysPoint(fmt, Split(lines[k], '\t'), k - 1, points[k - 1], frame))
            && Route(fmt, lines) == LatLons(points)
  {
    TextReadsBack(fmt, HEADER, points, frame);
  }

  lemma TextReadsBack(fmt: NumberFormat, header: string, points: seq<RawPoint>, frame: int)
    requires AllPrintable(points) && fmt.FaithfulOn(Numbers(points))
    requires SingleLine(header) && '\t' !in header
    ensures var lines := Lines(Unlines([header] + Rows(fmt, points, frame)));
            && |lines| == |points| + 1 && lines[0] == header
            && (forall k :: 0 < k < |lines| ==> SaysPoint(fmt, Split(lines[k], '\t'), k - 1, points[k - 1], frame))
            && Route(fmt, lines) == LatLons(points)
  {
    hide SaysPoint, Split;
    var rows := Rows(fmt, points, frame);
    RowsReadBack(fmt, points, frame);
    HeaderLineSkipped(fmt, header, rows);
    LinesUnlines([header] + rows);
  }

  // ----- such formats exist

  function IndexIn(xs: seq<real>, x: real): (i: nat)
    ensures x in xs ==> i < |xs| && xs[i] == x
  {
    if xs == [] || xs[0] == x then 0 else 1 + IndexIn(xs[1..], x)
  }

  /** Prints the numbers of a list as their positions in it. */
  function Tabulated(xs: seq<real>): NumberFormat {
    NumberFormat(
      x => Decimal(IndexIn(xs, x)),
      n => if n < 0 then "-" + Decimal(-n) else Decimal(n),
      s => if AllDigits(s) && NumeralValue(s) < |xs| then Some(xs[NumeralValue(s)]) else None)
  }

  lemma DigitsAreClean(s: string)
    requires AllDigits(s)
    ensures SingleLine(s) && '\t' !in s && SingleLine("-" + s) && '\t' !in "-" + s
  {
  }

  lemma TabulatedIsFaithful(xs: seq<real>, numbers: set<real>)
    requires forall x <- numbers :: x in xs
    ensures Tabulated(xs).FaithfulOn(numbers)
  {
    var fmt := Tabulated(xs);
    forall x | x in numbers ensures fmt.Keeps(x) {
      DecimalValue(IndexIn(xs, x));
      DigitsAreClean(Decimal(IndexIn(xs, x)));
    }
    forall n ensures SingleLine(fmt.showInt(n)) && '\t' !in fmt.showInt(n) {
      DigitsAreClean(Decimal(if n < 0 then -n else n));
    }
  }

  /** Whatever numbers a list holds, some format is faithful on them: what is asked of the format
      can be met for every list. */
  lemma {:induction false} FaithfulFormatExists(numbers: set<real>)
    ensures exists fmt: NumberFormat :: fmt.FaithfulOn(numbers)
  {
    var xs := Listed(numbers);
    TabulatedIsFaithful(xs, numbers);
  }

  lemma {:induction false} Listed(numbers: set<real>) returns (xs: seq<real>)
    ensures forall x <- numbers :: x in xs
  {
    xs := [];
    if x :| x in numbers {
      var rest := Listed(numbers - {x});
      xs := [x] + rest;
    }
  }
}
