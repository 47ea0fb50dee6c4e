/**
 * Program.ValidateCustomer: one comma-separated input line becomes a
 * Customer, or fails with one of the two exceptions the C# program throws.
 */
module Validation {
  import opened Wrappers
  import opened Strings
  import opened Customers

  /**
   * The culture-dependent number parsers the C# program calls, double.TryParse
   * and int.TryParse, left uninterpreted: each either yields a value or fails.
   */
  datatype NumberParsers = NumberParsers(parseDouble: string -> Option<real>, parseInt: string -> Option<int32>)

  /**
   * The two failures: too few fields (InvalidInputException), and a numeric
   * field that does not parse (a plain Exception). Both carry the message
   * "Format invalid: " followed by the line.
   */
  datatype ValidationError = InvalidInput(message: string) | FormatInvalid(message: string)

  function FormatMessage(line: string): string
  {
    "Format invalid: " + line
  }

  /**
   * The loan and rate texts take ',' in place of every '.' before they are
   * parsed: no '.' is left, and every other character stays where it was.
   */
  function DecimalText(field: string): (t: string)
    ensures |t| == |field| && '.' !in t
    ensures forall i :: 0 <= i < |field| ==> t[i] == if field[i] == '.' then ',' else field[i]
  {
    ReplaceCharRemoves(field, '.', ',');
    ReplaceChar(field, '.', ',')
  }

  function ValidateCustomer(line: string, parsers: NumberParsers): (r: Result<Customer, ValidationError>)
    ensures |Split(line, ',')| < 4 <==> r == Failure(InvalidInput(FormatMessage(line)))
    ensures r.Failure? && |Split(line, ',')| >= 4 ==> r.error == FormatInvalid(FormatMessage(line))
    ensures r.Success? ==> '"' !in r.value.name && ',' !in r.value.name
  {
    var values := Split(line, ',');
    if |values| < 4 then Failure(InvalidInput(FormatMessage(line)))
    else
      var offset := if |values| > 4 then 1 else 0;
      var customer := if |values| > 4 then values[0] + " " + values[1] else values[0];
      var customer := RemoveAll(customer, '"');
      var totalLoan := parsers.parseDouble(DecimalText(values[offset + 1]));
      var interestRate := parsers.parseDouble(DecimalText(values[offset + 2]));
      var totalYears := parsers.parseInt(values[offset + 3]);
      if totalLoan.Some? && interestRate.Some? && totalYears.Some? then
        Success(Customer(customer, totalLoan.value, interestRate.value, totalYears.value))
      else
        Failure(FormatInvalid(FormatMessage(line)))
  }

  /** A line with fewer than three commas is rejected with the field-count error, and only such a line is. */
  lemma TooFewFields(line: string, parsers: NumberParsers)
    ensures Count(line, ',') < 3 <==> ValidateCustomer(line, parsers).Failure? && ValidateCustomer(line, parsers).error.InvalidInput?
  {
  }

  /** A field already written without '.' reaches the parser unchanged. */
  lemma DecimalTextUnchanged(field: string)
    requires '.' !in field
    ensures DecimalText(field) == field
  {
    var t := DecimalText(field);
    assert forall i :: 0 <= i < |field| ==> t[i] == field[i];
  }

  /**
   * A blank line (the read loop skips these) would be a single field, so
   * validating it fails with the field-count error.
   */
  lemma BlankLineIsInvalid(line: string, parsers: NumberParsers)
    requires IsNullOrWhiteSpace(line)
    ensures ValidateCustomer(line, parsers) == Failure(InvalidInput(FormatMessage(line)))
  {
    SplitFree(line, ',');
  }

  /**
   * A four-field line: the name is the first field with its quotes removed
   * and not trimmed; loan, rate and years come from fields 1, 2 and 3, and
   * the line is accepted exactly when all three parse.
   */
  lemma FourFieldLine(name: string, loan: string, rate: string, years: string, parsers: NumberParsers)
    requires ',' !in name && ',' !in loan && ',' !in rate && ',' !in years
    ensures var r := ValidateCustomer(Join([name, loan, rate, years], ','), parsers);
            var l := parsers.parseDouble(DecimalText(loan));
            var i := parsers.parseDouble(DecimalText(rate));
            var y := parsers.parseInt(years);
            && (r.Success? <==> l.Some? && i.Some? && y.Some?)
            && (r.Success? ==> r.value == Customer(RemoveAll(name, '"'), l.value, i.value, y.value))
  {
    SplitJoin([name, loan, rate, years], ',');
  }

  /**
   * A line of five or more fields: the first two fields joined by a space,
   * quotes removed, form the name; loan, rate and years come from fields
   * 2, 3 and 4, and any further fields are ignored.
   */
  lemma SplitNameLine(first: string, last: string, loan: string, rate: string, years: string,
                      extra: seq<string>, parsers: NumberParsers)
    requires ',' !in first && ',' !in last && ',' !in loan && ',' !in rate && ',' !in years
    requires forall k :: 0 <= k < |extra| ==> ',' !in extra[k]
    ensures var r := ValidateCustomer(Join([first, last, loan, rate, years] + extra, ','), parsers);
            var l := parsers.parseDouble(DecimalText(loan));
            var i := parsers.parseDouble(DecimalText(rate));
            var y := parsers.parseInt(years);
            && (r.Success? <==> l.Some? && i.Some? && y.Some?)
            && (r.Success? ==> r.value == Customer(RemoveAll(first + " " + last, '"'), l.value, i.value, y.value))
  {
    var fields := [first, last, loan, rate, years] + extra;
    forall k | 0 <= k < |fields| ensures ',' !in fields[k] {
      if k >= 5 { assert fields[k] == extra[k - 5]; }
    }
    SplitJoin(fields, ',');
  }

  /**
   * What reaches double.TryParse never holds a '.', and turning its ','
   * back into '.' gives the field as written.
   */
  lemma DecimalTextRoundTrip(field: string)
    requires ',' !in field
    ensures '.' !in DecimalText(field)
    ensures ReplaceChar(DecimalText(field), ',', '.') == field
  {
    ReplaceCharRemoves(field, '.', ',');
    ReplaceCharInverse(field, '.', ',');
  }

  /**
   * The quoted name with an embedded comma: "Jane,Doe",3200,5,4 splits into
   * five fields, yields the name Jane Doe, and takes loan, rate and years
   * from the third, fourth and fifth fields.
   */
  lemma QuotedNameWithComma(parsers: NumberParsers)
    requires parsers.parseDouble("3200").Some? && parsers.parseDouble("5").Some? && parsers.parseInt("4").Some?
    ensures var r := ValidateCustomer("\"Jane,Doe\",3200,5,4", parsers);
            && r.Success?
            && r.value.name == "Jane Doe"
            && r.value.totalLoan == parsers.parseDouble("3200").value
            && r.value.interestRate == parsers.parseDouble("5").value
            && r.value.totalYears == parsers.parseInt("4").value
  {
    JaneDoeJoin();
    JaneDoeNumbers();
    JaneDoeUnquoted();
    SplitNameLine("\"Jane", "Doe\"", "3200", "5", "4", [], parsers);
  }

  /** The example's numeric fields hold no '.', so the parsers see them unchanged. */
  lemma JaneDoeNumbers()
    ensures DecimalText("3200") == "3200" && DecimalText("5") == "5"
  {
  }

  /** The example's name, once its two pieces are joined and its quotes removed. */
  lemma JaneDoeUnquoted()
    ensures RemoveAll("\"Jane" + " " + "Doe\"", '"') == "Jane Doe"
  {
    var quote, name := "\"", "Jane Doe";
    assert "\"Jane" + " " + "Doe\"" == quote + name + quote;
    RemoveAllConcat(quote + name, quote, '"');
    RemoveAllConcat(quote, name, '"');
    RemoveAllAbsent(name, '"');
  }

  /** The example line is the join of its five pieces. */
  lemma JaneDoeJoin()
    ensures Join(["\"Jane", "Doe\"", "3200", "5", "4"] + [], ',') == "\"Jane,Doe\",3200,5,4"
  {
    var fields := ["\"Jane", "Doe\"", "3200", "5", "4"];
    assert fields + [] == fields;
    assert Join(fields[4..], ',') == "4";
    assert Join(fields[3..], ',') == "5,4";
    assert Join(fields[2..], ',') == "3200,5,4";
    assert Join(fields[1..], ',') == "Doe\",3200,5,4";
  }

  /**
   * The plain example John Doe,100000,4,15 has four fields: the name is kept
   * as written, and loan, rate and years come from the remaining fields.
   */
  lemma PlainNameLine(parsers: NumberParsers)
    requires parsers.parseDouble("100000").Some? && parsers.parseDouble("4").Some? && parsers.parseInt("15").Some?
    ensures var r := ValidateCustomer("John Doe,100000,4,15", parsers);
            && r.Success?
            && r.value.name == "John Doe"
            && r.value.totalLoan == parsers.parseDouble("100000").value
            && r.value.interestRate == parsers.parseDouble("4").value
            && r.value.totalYears == parsers.parseInt("15").value
  {
    JohnDoeJoin();
    JohnDoeCommaFree();
    JohnDoeFields();
    FourFieldLine("John Doe", "100000", "4", "15", parsers);
  }

  /** The plain example's fields hold no comma. */
  lemma JohnDoeCommaFree()
    ensures ',' !in "John Doe" && ',' !in "100000" && ',' !in "4" && ',' !in "15"
  {
  }

  /** The plain example's name holds no quote, and its numeric fields no '.'. */
  lemma JohnDoeFields()
    ensures RemoveAll("John Doe", '"') == "John Doe"
    ensures DecimalText("100000") == "100000" && DecimalText("4") == "4"
  {
    RemoveAllAbsent("John Doe", '"');
    DecimalTextUnchanged("100000");
    DecimalTextUnchanged("4");
  }

  /** The plain example line is the join of its four pieces. */
  lemma JohnDoeJoin()
    ensures Join(["John Doe", "100000", "4", "15"], ',') == "John Doe,100000,4,15"
  {
    var fields := ["John Doe", "100000", "4", "15"];
    assert Join(fields[3..], ',') == "15";
    assert Join(fields[2..], ',') == "4,15";
    assert Join(fields[1..], ',') == "100000,4,15";
  }
}
