/**
 * The read loop of Program.Main, over the file's lines as a sequence:
 * the first line is a header, blank lines are skipped, every other line is
 * validated and reported with its payment, and the first invalid line ends
 * the run.
 */
module Report {
  import opened Wrappers
  import opened Strings
  import opened Customers
  import opened Validation

  /** One output line: "Prospect <number>: <name> wants to borrow ...", before formatting. */
  datatype Prospect = Prospect(number: int, customer: Customer, monthlyPayment: Option<real>)

  /** How the run ended: every line read, or stopped at the 1-based line number that failed. */
  datatype Outcome = Finished | Aborted(lineNumber: nat, error: ValidationError)

  datatype RunState = RunState(prospects: seq<Prospect>, outcome: Outcome)

  type Validator = string -> Result<Customer, ValidationError>
  type Calculator = Customer -> Option<real>

  /** What Main applies to each line: ValidateCustomer with the culture's number parsers. */
  function Validate(parsers: NumberParsers): Validator
  {
    line => ValidateCustomer(line, parsers)
  }

  /**
   * One iteration of the loop on the line numbered `lineNumber` (1-based):
   * nothing happens once the run has stopped, on the header or on a blank
   * line; otherwise the line is validated and either reported or the run stops.
   * A stopped run stays as it is, and a step adds at most one prospect.
   */
  function Step(before: RunState, lineNumber: nat, line: string, validate: Validator, pay: Calculator): RunState
  {
    if before.outcome.Aborted? || lineNumber == 1 || IsNullOrWhiteSpace(line) then before
    else
      match validate(line)
      case Failure(e) => RunState(before.prospects, Aborted(lineNumber, e))
      case Success(c) => RunState(before.prospects + [Prospect(lineNumber - 1, c, pay(c))], Finished)
  }

  /**
   * The state after the loop has read `lines`, one Step per line, with the
   * given line validator and payment calculator; line k (1-based) is
   * reported as prospect k - 1. Main runs it with Validate(parsers) and
   * MonthlyPayment, and the lemmas below hold for any pair.
   */
  function Run(lines: seq<string>, validate: Validator, pay: Calculator): RunState
    decreases |lines|
  {
    if lines == [] then RunState([], Finished)
    else Step(Run(lines[..|lines| - 1], validate, pay), |lines|, lines[|lines| - 1], validate, pay)
  }

  /** Main's while loop: reads line by line, skips the header and blank lines, stops at the first invalid line. */
  method ProcessLines(lines: seq<string>, parsers: NumberParsers) returns (prospects: seq<Prospect>, outcome: Outcome)
    ensures RunState(prospects, outcome) == Run(lines, Validate(parsers), MonthlyPayment)
  {
    ghost var validate, pay := Validate(parsers), MonthlyPayment;
    prospects, outcome := [], Finished;
    var lineNumber := 0;
    while lineNumber < |lines|
      invariant 0 <= lineNumber <= |lines|
      invariant Run(lines[..lineNumber], validate, pay) == RunState(prospects, Finished)
    {
      var line := lines[lineNumber];
      lineNumber := lineNumber + 1;
      assert lines[..lineNumber][..lineNumber - 1] == lines[..lineNumber - 1];
      assert Run(lines[..lineNumber], validate, pay) == Step(RunState(prospects, Finished), lineNumber, line, validate, pay);

      if lineNumber == 1 { continue; }
      if IsNullOrWhiteSpace(line) { continue; }

      var r := ValidateCustomer(line, parsers);
      assert validate(line) == r;
      if r.Failure? {
        outcome := Aborted(lineNumber, r.error);
        assert Run(lines[..lineNumber], validate, pay) == RunState(prospects, outcome);
        AbortIsFinal(lines, lineNumber, |lines|, validate, pay);
        assert lines[..|lines|] == lines;
        return;
      }
      var customer := r.value;
      var monthlyPayment := CalculateMonthlyPayment(customer);
      assert pay(customer) == monthlyPayment;
      prospects := prospects + [Prospect(lineNumber - 1, customer, monthlyPayment)];
    }
    assert lines[..lineNumber] == lines;
  }

  /** Once a line has failed, reading more lines changes nothing. */
  lemma {:induction false} AbortIsFinal(lines: seq<string>, j: nat, k: nat, validate: Validator, pay: Calculator)
    requires j <= k <= |lines|
    requires Run(lines[..j], validate, pay).outcome.Aborted?
    ensures Run(lines[..k], validate, pay) == Run(lines[..j], validate, pay)
  {
    if k > j {
      AbortIsFinal(lines, j, k - 1, validate, pay);
      assert lines[..k][..k - 1] == lines[..k - 1];
      AbortedAbsorbs(lines[..k], validate, pay);
    }
  }

  /** A line read after the run has stopped is ignored. */
  lemma AbortedAbsorbs(lines: seq<string>, validate: Validator, pay: Calculator)
    requires lines != [] && Run(lines[..|lines| - 1], validate, pay).outcome.Aborted?
    ensures Run(lines, validate, pay) == Run(lines[..|lines| - 1], validate, pay)
  {
  }

  /**
   * Every prospect comes from a non-blank line after the header that
   * validates to its customer; its number is that line's 0-based index,
   * and its payment is the customer's.
   */
  lemma {:induction false} ProspectsComeFromValidLines(lines: seq<string>, validate: Validator, pay: Calculator)
    ensures var s := Run(lines, validate, pay);
            forall q :: q in s.prospects ==>
              && 1 <= q.number < |lines|
              && !IsNullOrWhiteSpace(lines[q.number])
              && validate(lines[q.number]) == Success(q.customer)
              && q.monthlyPayment == pay(q.customer)
  {
    if lines != [] {
      var init := lines[..|lines| - 1];
      ProspectsComeFromValidLines(init, validate, pay);
      forall q | q in Run(init, validate, pay).prospects ensures init[q.number] == lines[q.number] { }
    }
  }

  /** Prospect numbers strictly increase in input order. */
  lemma {:induction false} ProspectNumbersIncrease(lines: seq<string>, validate: Validator, pay: Calculator)
    ensures var ps := Run(lines, validate, pay).prospects;
            forall i, j :: 0 <= i < j < |ps| ==> ps[i].number < ps[j].number
  {
    if lines != [] {
      var init := lines[..|lines| - 1];
      ProspectNumbersIncrease(init, validate, pay);
      ProspectsComeFromValidLines(init, validate, pay);
      var ps := Run(init, validate, pay).prospects;
      assert forall i :: 0 <= i < |ps| ==> ps[i] in ps && ps[i].number < |init|;
    }
  }

  /** The lines the loop got to validate: all of them, or those before the failing one. */
  function ReadUpTo(lines: seq<string>, outcome: Outcome): nat
  {
    match outcome
    case Finished => |lines|
    case Aborted(n, _) => if 0 < n <= |lines| then n - 1 else |lines|
  }

  /**
   * Every non-blank line after the header and before the stopping point is
   * reported under its index, and when the run stops, it stops at the first
   * invalid line: that line is non-blank, fails with the recorded error, and
   * no prospect comes from it or from any line after it.
   */
  lemma {:induction false} RunIsFailFast(lines: seq<string>, validate: Validator, pay: Calculator)
    ensures var s := Run(lines, validate, pay);
            && (forall k :: 1 <= k < ReadUpTo(lines, s.outcome) && !IsNullOrWhiteSpace(lines[k]) ==>
                  validate(lines[k]).Success? && exists q :: q in s.prospects && q.number == k)
            && (s.outcome.Aborted? ==>
                  && 2 <= s.outcome.lineNumber <= |lines|
                  && !IsNullOrWhiteSpace(lines[s.outcome.lineNumber - 1])
                  && validate(lines[s.outcome.lineNumber - 1]) == Failure(s.outcome.error)
                  && forall q :: q in s.prospects ==> q.number < s.outcome.lineNumber - 1)
  {
    if lines != [] {
      var init := lines[..|lines| - 1];
      RunIsFailFast(init, validate, pay);
      ProspectsComeFromValidLines(init, validate, pay);
      var before := Run(init, validate, pay);
      var s := Run(lines, validate, pay);
      forall k | 0 <= k < |init| ensures init[k] == lines[k] { }
      forall q | q in before.prospects ensures q in s.prospects { }
    }
  }

  /** The header alone reports nothing, and every prospect takes a line of its own after the header. */
  lemma {:induction false} ProspectCountBound(lines: seq<string>, validate: Validator, pay: Calculator)
    ensures |lines| <= 1 ==> Run(lines, validate, pay) == RunState([], Finished)
    ensures lines != [] ==> |Run(lines, validate, pay).prospects| < |lines|
  {
    if |lines| > 1 {
      ProspectCountBound(lines[..|lines| - 1], validate, pay);
    }
  }

  /** Reading one more line is one more Step. */
  lemma RunSnoc(lines: seq<string>, line: string, validate: Validator, pay: Calculator)
    ensures Run(lines + [line], validate, pay) == Step(Run(lines, validate, pay), |lines| + 1, line, validate, pay)
  {
    var all := lines + [line];
    assert all[..|all| - 1] == lines;
    assert Run(all, validate, pay) == Step(Run(all[..|all| - 1], validate, pay), |all|, all[|all| - 1], validate, pay);
  }

  /** A blank line yields no prospect and changes nothing but the line count. */
  lemma BlankLineIsSkipped(lines: seq<string>, blank: string, validate: Validator, pay: Calculator)
    requires IsNullOrWhiteSpace(blank)
    ensures Run(lines + [blank], validate, pay) == Run(lines, validate, pay)
  {
    RunSnoc(lines, blank, validate, pay);
  }

  /**
   * A blank line still advances the line counter: a valid line after it is
   * numbered as if the blank line had been a prospect.
   */
  lemma BlankLineLeavesGap(lines: seq<string>, blank: string, line: string, validate: Validator, pay: Calculator)
    requires Run(lines, validate, pay).outcome.Finished?
    requires IsNullOrWhiteSpace(blank) && !IsNullOrWhiteSpace(line)
    requires validate(line).Success?
    ensures var c := validate(line).value;
            Run(lines + [blank] + [line], validate, pay).prospects
              == Run(lines, validate, pay).prospects + [Prospect(|lines| + 1, c, pay(c))]
  {
    var before := Run(lines, validate, pay);
    var c := validate(line).value;
    var mid := lines + [blank];
    BlankLineIsSkipped(lines, blank, validate, pay);
    RunSnoc(mid, line, validate, pay);
    ValidLineIsReported(before, |mid| + 1, line, validate, pay);
  }

  /** A non-blank line after the header that validates, in a run still going, is reported one number below its line. */
  lemma ValidLineIsReported(before: RunState, lineNumber: nat, line: string, validate: Validator, pay: Calculator)
    requires before.outcome == Finished && lineNumber != 1 && !IsNullOrWhiteSpace(line)
    requires validate(line).Success?
    ensures var c := validate(line).value;
            Step(before, lineNumber, line, validate, pay) == RunState(before.prospects + [Prospect(lineNumber - 1, c, pay(c))], Finished)
  {
  }
}
