/**
 * `dataLoad`: read a data file line by line, keep the rows that are valid and count the rest.
 * The file is its sequence of lines, or `None` when it cannot be opened or read.
 */
module DataLoad {
  import opened Wrappers
  import opened Text
  import opened Table

  /** `VALID_BACTERIA_CODES`; the loaded code is a float, compared by value. */
  const ValidBacteriaCodes: seq<real> := [1.0, 2.0, 3.0, 4.0]

  /** The three constraints every loaded row satisfies. */
  predicate IsValidRow(row: Row) {
    && 10.0 <= row.temperature <= 60.0
    && row.growthRate >= 0.0
    && row.bacteriaCode in ValidBacteriaCodes
  }

  /** What happens to one line: skipped as a header, rejected for one reason, or accepted. */
  datatype Verdict =
    | Header
    | Malformed
    | BadTemperature(temperature: real)
    | BadGrowthRate(growthRate: real)
    | BadBacteriaCode(bacteriaCode: real)
    | Accepted(row: Row)

  /** A line is treated as a header only when it is line 1 and has no digit at all. */
  predicate LooksLikeHeader(lineNumber: nat, line: string) {
    !HasDigit(line) && lineNumber == 1
  }

  /** A line split on whitespace must give exactly three tokens that all parse as numbers; otherwise `None`. */
  function ParseRow(line: string): (r: Option<Row>)
    ensures r.Some? <==> |Split(line)| == 3 && ParseReal(Split(line)[0]).Some? &&
                         ParseReal(Split(line)[1]).Some? && ParseReal(Split(line)[2]).Some?
    ensures r.Some? ==> ParseReal(Split(line)[0]) == Some(r.value.temperature) &&
                        ParseReal(Split(line)[1]) == Some(r.value.growthRate) &&
                        ParseReal(Split(line)[2]) == Some(r.value.bacteriaCode)
  {
    var tokens := Split(line);
    if |tokens| != 3 then None
    else
      match (ParseReal(tokens[0]), ParseReal(tokens[1]), ParseReal(tokens[2]))
      case (Some(t), Some(g), Some(c)) => Some(Row(t, g, c))
      case _ => None
  }

  /**
   * The range checks, in the order the loader makes them: temperature, then growth rate,
   * then bacteria code. The verdict names the first constraint the row breaks.
   */
  function Validate(row: Row): (v: Verdict)
    ensures v.Accepted? <==> IsValidRow(row)
    ensures v.Accepted? ==> v.row == row
    ensures v.BadTemperature? <==> !(10.0 <= row.temperature <= 60.0)
    ensures v.BadGrowthRate? <==> 10.0 <= row.temperature <= 60.0 && row.growthRate < 0.0
    ensures v.BadBacteriaCode? <==>
              10.0 <= row.temperature <= 60.0 && row.growthRate >= 0.0 && row.bacteriaCode !in ValidBacteriaCodes
    ensures !v.Header? && !v.Malformed?
  {
    if !(10.0 <= row.temperature <= 60.0) then BadTemperature(row.temperature)
    else if row.growthRate < 0.0 then BadGrowthRate(row.growthRate)
    else if row.bacteriaCode !in ValidBacteriaCodes then BadBacteriaCode(row.bacteriaCode)
    else Accepted(row)
  }

  /** The verdict on the line numbered `lineNumber` (counting from 1). */
  function ClassifyLine(lineNumber: nat, line: string): (v: Verdict)
    ensures v.Header? <==> LooksLikeHeader(lineNumber, line)
    ensures v.Accepted? ==> IsValidRow(v.row) && ParseRow(line) == Some(v.row)
  {
    if LooksLikeHeader(lineNumber, line) then Header
    else
      match ParseRow(line)
      case None => Malformed
      case Some(row) => Validate(row)
  }

  /** The verdicts on all lines of a file, in file order. */
  function Verdicts(lines: seq<string>): seq<Verdict> {
    if lines == [] then []
    else Verdicts(lines[..|lines| - 1]) + [ClassifyLine(|lines|, lines[|lines| - 1])]
  }

  /** The rows of the accepted lines, in file order. */
  function AcceptedRows(vs: seq<Verdict>): seq<Row> {
    if vs == [] then []
    else
      var last := vs[|vs| - 1];
      AcceptedRows(vs[..|vs| - 1]) + (if last.Accepted? then [last.row] else [])
  }

  /** How many lines were not accepted (headers included). */
  function RejectedCount(vs: seq<Verdict>): nat {
    if vs == [] then 0
    else RejectedCount(vs[..|vs| - 1]) + (if vs[|vs| - 1].Accepted? then 0 else 1)
  }

  /**
   * The loader. Mirrors the source's loop: a header test on line 1, then the parse, then
   * the three range checks in order; valid rows are appended and everything else counted.
   */
  method LoadData(file: Option<seq<string>>) returns (rows: seq<Row>, invalidCount: nat)
    ensures file.None? ==> rows == [] && invalidCount == 0
    ensures file.Some? ==> rows == AcceptedRows(Verdicts(file.value))
    ensures file.Some? ==> invalidCount == RejectedCount(Verdicts(file.value))
    ensures file.Some? ==> |rows| + invalidCount == |file.value|
    ensures forall r | r in rows :: IsValidRow(r)
  {
    if file.None? {
      return [], 0;
    }
    var lines := file.value;
    rows, invalidCount := [], 0;
    for lineNumber := 1 to |lines| + 1
      invariant rows == AcceptedRows(Verdicts(lines[..lineNumber - 1]))
      invariant invalidCount == RejectedCount(Verdicts(lines[..lineNumber - 1]))
      invariant |rows| + invalidCount == lineNumber - 1
    {
      var line := lines[lineNumber - 1];
      var rows', invalidCount' := ProcessLine(lineNumber, line, rows, invalidCount);
      LoopStep(lines, lineNumber, rows, invalidCount, rows', invalidCount');
      rows, invalidCount := rows', invalidCount';
    }
    assert lines[..|lines|] == lines;
    AcceptedRowsAreValid(lines);
  }

  /**
   * The body of the loader's loop for one line: the header test, the parse, then the three
   * range checks in order. A valid row is appended; anything else adds one to the count.
   */
  method ProcessLine(lineNumber: nat, line: string, rows: seq<Row>, invalidCount: nat)
    returns (rows': seq<Row>, invalidCount': nat)
    ensures ClassifyLine(lineNumber, line).Accepted? ==>
              rows' == rows + [ClassifyLine(lineNumber, line).row] && invalidCount' == invalidCount
    ensures !ClassifyLine(lineNumber, line).Accepted? ==> rows' == rows && invalidCount' == invalidCount + 1
    ensures |rows'| + invalidCount' == |rows| + invalidCount + 1
  {
    rows', invalidCount' := rows, invalidCount;
    if !HasDigit(line) && lineNumber == 1 {
      invalidCount' := invalidCount' + 1;
      return;
    }
    var parsed := ParseRow(line);
    if parsed.None? {
      invalidCount' := invalidCount' + 1;
      return;
    }
    var row := parsed.value;
    if !(10.0 <= row.temperature <= 60.0) {
      invalidCount' := invalidCount' + 1;
    } else if row.growthRate < 0.0 {
      invalidCount' := invalidCount' + 1;
    } else if row.bacteriaCode !in ValidBacteriaCodes {
      invalidCount' := invalidCount' + 1;
    } else {
      rows' := rows' + [row];
    }
  }

  /** One turn of the loader's loop extends the fold over the verdicts by one line. */
  lemma LoopStep(lines: seq<string>, n: nat, rows: seq<Row>, count: nat, rows': seq<Row>, count': nat)
    requires 1 <= n <= |lines|
    requires rows == AcceptedRows(Verdicts(lines[..n - 1])) && count == RejectedCount(Verdicts(lines[..n - 1]))
    requires ClassifyLine(n, lines[n - 1]).Accepted? ==>
               rows' == rows + [ClassifyLine(n, lines[n - 1]).row] && count' == count
    requires !ClassifyLine(n, lines[n - 1]).Accepted? ==> rows' == rows && count' == count + 1
    ensures rows' == AcceptedRows(Verdicts(lines[..n])) && count' == RejectedCount(Verdicts(lines[..n]))
  {
    var v := ClassifyLine(n, lines[n - 1]);
    assert lines[..n][..n - 1] == lines[..n - 1];
    assert Verdicts(lines[..n]) == Verdicts(lines[..n - 1]) + [v];
    VerdictAppended(Verdicts(lines[..n - 1]), v);
  }

  lemma VerdictAppended(vs: seq<Verdict>, v: Verdict)
    ensures AcceptedRows(vs + [v]) == AcceptedRows(vs) + (if v.Accepted? then [v.row] else [])
    ensures RejectedCount(vs + [v]) == RejectedCount(vs) + (if v.Accepted? then 0 else 1)
  {
    assert (vs + [v])[..|vs|] == vs;
  }

  // ---------------------------------------------------------------- properties

  /** Every line is counted exactly once: as a valid row or as an invalid one. */
  lemma {:induction false} EveryLineCountedOnce(vs: seq<Verdict>)
    ensures |AcceptedRows(vs)| + RejectedCount(vs) == |vs|
  {
    if vs != [] {
      EveryLineCountedOnce(vs[..|vs| - 1]);
    }
  }

  /** Only accepted verdicts contribute rows, so every row of a loaded table is valid. */
  lemma {:induction false} AcceptedRowsAreValid(lines: seq<string>)
    ensures forall r | r in AcceptedRows(Verdicts(lines)) :: IsValidRow(r)
  {
    if lines != [] {
      var prefix := lines[..|lines| - 1];
      AcceptedRowsAreValid(prefix);
      var v := ClassifyLine(|lines|, lines[|lines| - 1]);
      VerdictAppended(Verdicts(prefix), v);
    }
  }

  /**
   * Only line 1 can be a header. A digit-free line further down is parsed like any
   * other and rejected by the parse.
   */
  lemma HeaderOnlyOnLineOne(lineNumber: nat, line: string)
    ensures ClassifyLine(lineNumber, line).Header? ==> lineNumber == 1
    ensures lineNumber != 1 && !HasDigit(line) ==> ClassifyLine(lineNumber, line) == Malformed
  {
    if !HasDigit(line) {
      SplitKeepsNoDigit(line);
    }
  }

  /** Past the header test, a line is malformed exactly when `split()` does not give three tokens that all parse. */
  lemma MalformedIffUnparsed(lineNumber: nat, line: string)
    ensures ClassifyLine(lineNumber, line).Malformed? <==>
              && !LooksLikeHeader(lineNumber, line)
              && (|Split(line)| != 3 || ParseReal(Split(line)[0]).None? || ParseReal(Split(line)[1]).None?
                  || ParseReal(Split(line)[2]).None?)
  {
  }

  /**
   * A line as a file holds it: optional leading whitespace, three number tokens separated
   * by runs of whitespace (spaces, tabs), optional trailing whitespace such as the newline.
   * Its verdict is the verdict of the range checks on the three numbers, on any line number.
   */
  lemma ClassifySpacedLine(lineNumber: nat, w0: string, a: string, w1: string, b: string, w2: string, c: string, w3: string,
                           x: real, y: real, z: real)
    requires AllSpace(w0) && AllSpace(w3) && w1 != [] && AllSpace(w1) && w2 != [] && AllSpace(w2)
    requires ParseReal(a) == Some(x) && ParseReal(b) == Some(y) && ParseReal(c) == Some(z)
    ensures ClassifyLine(lineNumber, w0 + (a + (w1 + (b + (w2 + (c + w3)))))) == Validate(Row(x, y, z))
  {
    ParsedHasNoSpace(a);
    ParsedHasNoSpace(b);
    ParsedHasNoSpace(c);
    var line := w0 + (a + (w1 + (b + (w2 + (c + w3)))));
    SplitSpacedLine(w0, a, w1, b, w2, c, w3);
    ClassifyThreeNumbers(lineNumber, line, x, y, z);
  }

  lemma SplitSpacedLine(w0: string, a: string, w1: string, b: string, w2: string, c: string, w3: string)
    requires AllSpace(w0) && AllSpace(w3) && w1 != [] && AllSpace(w1) && w2 != [] && AllSpace(w2)
    requires a != [] && b != [] && c != [] && NoSpace(a) && NoSpace(b) && NoSpace(c)
    ensures Split(w0 + (a + (w1 + (b + (w2 + (c + w3)))))) == [a, b, c]
  {
    var last := c + w3;
    SplitTrailingSpaces(c, w3);
    var middle := b + (w2 + last);
    SplitTokenThen(b, w2, last);
    assert Split(middle) == [b, c];
    var rest := a + (w1 + middle);
    SplitTokenThen(a, w1, middle);
    assert Split(rest) == [a, b, c];
    SplitLeadingSpaces(w0, rest);
  }

  lemma ConcatRight(a: string, w1: string, b: string, w2: string, c: string, w3: string)
    ensures a + w1 + b + w2 + c + w3 == a + (w1 + (b + (w2 + (c + w3))))
  {
  }

  lemma SplitTokenThen(t: string, w: string, rest: string)
    requires t != [] && NoSpace(t) && w != [] && AllSpace(w)
    ensures Split(t + (w + rest)) == [t] + Split(rest)
  {
    assert t + (w + rest) == t + w + rest;
    SplitAtSpaces(t, w, rest);
    SplitToken(t);
  }

  lemma SplitTrailingSpaces(t: string, w: string)
    requires t != [] && NoSpace(t) && AllSpace(w)
    ensures Split(t + w) == [t]
  {
    SplitToken(t);
    if w != [] {
      assert t + w == t + w + "";
      SplitAtSpaces(t, w, "");
    } else {
      assert t + w == t;
    }
  }

  /**
   * A valid row written as three whole numbers separated by single spaces and ended by a
   * newline is accepted as exactly that row, on any line number.
   */
  lemma AcceptsRenderedRow(lineNumber: nat, t: nat, g: nat, c: nat)
    requires IsValidRow(Row(t as real, g as real, c as real))
    ensures ClassifyLine(lineNumber, Decimal(t) + " " + Decimal(g) + " " + Decimal(c) + "\n")
            == Accepted(Row(t as real, g as real, c as real))
  {
    var a, b, d := Decimal(t), Decimal(g), Decimal(c);
    ParseDecimal(t);
    ParseDecimal(g);
    ParseDecimal(c);
    ClassifyWrittenLine(lineNumber, a, b, d, t as real, g as real, c as real);
  }

  /** A line written as three number tokens with single spaces and a newline. */
  lemma ClassifyWrittenLine(lineNumber: nat, a: string, b: string, d: string, x: real, y: real, z: real)
    requires ParseReal(a) == Some(x) && ParseReal(b) == Some(y) && ParseReal(d) == Some(z)
    ensures ClassifyLine(lineNumber, a + " " + b + " " + d + "\n") == Validate(Row(x, y, z))
  {
    var space, newline := " ", "\n";
    assert AllSpace(space) && AllSpace(newline);
    var rest := a + (space + (b + (space + (d + newline))));
    ConcatRight(a, space, b, space, d, newline);
    assert [] + rest == rest;
    ClassifySpacedLine(lineNumber, [], a, space, b, space, d, newline, x, y, z);
  }

  /**
   * The verdict on a line that splits into three number tokens is the verdict of the range
   * checks on those numbers, whatever whitespace separates or surrounds them.
   */
  lemma ClassifyThreeNumbers(lineNumber: nat, line: string, x: real, y: real, z: real)
    requires |Split(line)| == 3
    requires ParseReal(Split(line)[0]) == Some(x) && ParseReal(Split(line)[1]) == Some(y)
    requires ParseReal(Split(line)[2]) == Some(z)
    ensures ClassifyLine(lineNumber, line) == Validate(Row(x, y, z))
  {
    if !HasDigit(line) {
      SplitKeepsNoDigit(line);
    }
  }

  /** The two tokens of the worked example below that carry a decimal point. */
  lemma ParseOnePointFive()
    ensures ParseReal("1.5") == Some(1.5)
  {
    assert PointIndex("1.5") == 1;
  }

  lemma ParseTwoPointZero()
    ensures ParseReal("2.0") == Some(2.0)
  {
    assert PointIndex("2.0") == 1;
  }

  /** The verdict on each line of the worked example below. */
  lemma ExampleLine1()
    ensures ClassifyLine(1, "25 1.5 1\n") == Accepted(Row(25.0, 1.5, 1.0))
  {
    assert Decimal(25) == "25" && Decimal(1) == "1";
    assert "25 1.5 1\n" == Decimal(25) + " " + "1.5" + " " + Decimal(1) + "\n";
    ParseDecimal(25);
    ParseOnePointFive();
    ParseDecimal(1);
    ClassifyWrittenLine(1, Decimal(25), "1.5", Decimal(1), 25.0, 1.5, 1.0);
  }

  lemma ExampleLine2()
    ensures ClassifyLine(2, "70 2.0 2\n") == BadTemperature(70.0)
  {
    assert Decimal(70) == "70" && Decimal(2) == "2";
    assert "70 2.0 2\n" == Decimal(70) + " " + "2.0" + " " + Decimal(2) + "\n";
    ParseDecimal(70);
    ParseTwoPointZero();
    ParseDecimal(2);
    ClassifyWrittenLine(2, Decimal(70), "2.0", Decimal(2), 70.0, 2.0, 2.0);
  }

  lemma ExampleLine3()
    ensures ClassifyLine(3, "30 -1 3\n") == BadGrowthRate(-1.0)
  {
    assert Decimal(30) == "30" && Decimal(1) == "1" && Decimal(3) == "3";
    assert "30 -1 3\n" == Decimal(30) + " " + ("-" + Decimal(1)) + " " + Decimal(3) + "\n";
    ParseDecimal(30);
    ParseNegated(1);
    ParseDecimal(3);
    ClassifyWrittenLine(3, Decimal(30), "-" + Decimal(1), Decimal(3), 30.0, -1.0, 3.0);
  }

  /** The verdicts on a three-line file are the verdicts on its lines, numbered from 1. */
  lemma VerdictsOfThreeLines(a: string, b: string, c: string)
    ensures Verdicts([a, b, c]) == [ClassifyLine(1, a), ClassifyLine(2, b), ClassifyLine(3, c)]
  {
    assert [a, b, c][..2] == [a, b] && [a, b][..1] == [a] && [a][..0] == [];
    assert Verdicts([a]) == [ClassifyLine(1, a)];
    assert Verdicts([a, b]) == [ClassifyLine(1, a), ClassifyLine(2, b)];
  }

  /** A file whose first line is accepted and whose other two are not yields that one row. */
  lemma OneAcceptedOfThree(row: Row, v2: Verdict, v3: Verdict)
    requires !v2.Accepted? && !v3.Accepted?
    ensures AcceptedRows([Accepted(row), v2, v3]) == [row] && RejectedCount([Accepted(row), v2, v3]) == 2
  {
    var vs := [Accepted(row), v2, v3];
    assert vs[..2] == [Accepted(row), v2] && vs[..2][..1] == [Accepted(row)] && vs[..1][..0] == [];
    assert AcceptedRows([Accepted(row)]) == [row] && RejectedCount([Accepted(row)]) == 0;
    assert AcceptedRows(vs[..2]) == [row] && RejectedCount(vs[..2]) == 1;
  }

  /**
   * A whole file: a valid row, a row whose temperature is out of range and a row whose
   * growth rate is negative give one row and two invalid lines.
   */
  lemma FileExample()
    ensures var lines := ["25 1.5 1\n", "70 2.0 2\n", "30 -1 3\n"];
            AcceptedRows(Verdicts(lines)) == [Row(25.0, 1.5, 1.0)] && RejectedCount(Verdicts(lines)) == 2
  {
    var vs := [Accepted(Row(25.0, 1.5, 1.0)), BadTemperature(70.0), BadGrowthRate(-1.0)];
    assert Verdicts(["25 1.5 1\n", "70 2.0 2\n", "30 -1 3\n"]) == vs by {
      VerdictsOfThreeLines("25 1.5 1\n", "70 2.0 2\n", "30 -1 3\n");
      ExampleLine1();
      ExampleLine2();
      ExampleLine3();
    }
    OneAcceptedOfThree(Row(25.0, 1.5, 1.0), BadTemperature(70.0), BadGrowthRate(-1.0));
  }
}
