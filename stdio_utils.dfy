/**
 * The summation library: `sum_strings`, `sum`, `read` and `as_number`, and
 * the `Error` they report. A stream of lines is a finite sequence of items,
 * each a line of text or the I/O failure that took its place.
 */
module StdioUtils {
  import opened Wrappers
  import opened Whitespace
  import opened IntParse

  /** An `io::Error` from the line source, kept as an opaque token. */
  datatype IoError = IoError(id: int)

  /** `Error`: the two ways a summation fails. */
  datatype Error =
    | InputError(cause: IoError)
    | ParsingError(input: string, source: IntErrorKind)

  /** One item of the input stream: a line, or the I/O failure in its place. */
  type Item = Result<string, IoError>

  /**
   * `as_number`: trims the line and parses what is left as an `isize`; a
   * failure is a `ParsingError` holding the line as it was given, untrimmed.
   */
  function AsNumber(line: string): (r: Result<int, Error>)
    ensures r.Err? ==> r.error.ParsingError? && r.error.input == line
  {
    match ParseIsize(Trim(line))
    case Ok(v) => Ok(v)
    case Err(kind) => Err(ParsingError(line, kind))
  }

  /**
   * A line is a number exactly when, once trimmed, it is an optional sign
   * and one or more digits with a value in the range of `isize`; that value
   * is the result. A line of nothing but whitespace is an `Empty` failure.
   */
  lemma AsNumberMeaning(line: string)
    ensures AsNumber(line).Ok? <==> IsDecimal(Trim(line)) && InIsize(DecimalValue(Trim(line)))
    ensures AsNumber(line).Ok? ==> IsDecimal(Trim(line)) && AsNumber(line).value == DecimalValue(Trim(line))
    ensures AllMatch(line, IsWhitespace) ==> AsNumber(line) == Err(ParsingError(line, Empty))
  {
    ParseIsizeMeaning(Trim(line));
    TrimShape(line, IsWhitespace);
  }

  /**
   * `read`: passes every line through and wraps every I/O failure of the
   * stream as an `InputError`, item by item.
   */
  function Read(lines: seq<Item>): (r: seq<Result<string, Error>>)
    ensures |r| == |lines|
    ensures forall i :: 0 <= i < |r| ==> (r[i].Ok? <==> lines[i].Ok?)
    ensures forall i :: 0 <= i < |r| && r[i].Ok? ==> r[i].value == lines[i].value
    ensures forall i :: 0 <= i < |r| && r[i].Err? ==> r[i].error == InputError(lines[i].error)
  {
    seq(|lines|, i requires 0 <= i < |lines| =>
      match lines[i]
      case Ok(line) => Ok(line)
      case Err(e) => Err(InputError(e)))
  }

  /** The closure `|line| as_number(line?)` that `sum` maps over the stream. */
  function ParseLine(line: Result<string, Error>): Result<int, Error> {
    match line
    case Err(e) => Err(e)
    case Ok(text) => AsNumber(text)
  }

  /**
   * `read(lines).map(|line| as_number(line?))`: what each item of the
   * stream amounts to, in order.
   */
  function Outcomes(lines: seq<Item>): (rs: seq<Result<int, Error>>)
    ensures |rs| == |lines|
  {
    var read := Read(lines);
    seq(|read|, i requires 0 <= i < |read| => ParseLine(read[i]))
  }

  /** What one item amounts to: its number, or the failure it stops the sum with. */
  function Outcome(item: Item): Result<int, Error> {
    match item
    case Err(e) => Err(InputError(e))
    case Ok(line) => AsNumber(line)
  }

  lemma OutcomesAt(lines: seq<Item>, i: nat)
    requires i < |lines|
    ensures Outcomes(lines)[i] == Outcome(lines[i])
  {
  }

  lemma {:induction false} OutcomesAppend(lines: seq<Item>, rest: seq<Item>)
    ensures Outcomes(lines + rest) == Outcomes(lines) + Outcomes(rest)
  {
    var all := lines + rest;
    forall i | 0 <= i < |all|
      ensures Outcomes(all)[i] == (Outcomes(lines) + Outcomes(rest))[i]
    {
      OutcomesAt(all, i);
      if i < |lines| {
        OutcomesAt(lines, i);
      } else {
        OutcomesAt(rest, i - |lines|);
      }
    }
  }

  /**
   * `Iterator::sum` on `Result<isize, Error>` items, continued from the
   * running total `acc`: adds the values in order and stops at the first
   * `Err`, which it returns without the partial total.
   */
  function SumFrom(rs: seq<Result<int, Error>>, acc: int): Result<int, Error>
    decreases |rs|
  {
    if rs == [] then Ok(acc)
    else
      match rs[0]
      case Err(e) => Err(e)
      case Ok(v) => SumFrom(rs[1..], acc + v)
  }

  // ---------------------------------------------------------------------
  // What a fold over results means, position by position.

  /** The position of the first `Err`, or the length when there is none. */
  function FirstErr(rs: seq<Result<int, Error>>): (k: nat)
    ensures k <= |rs|
    ensures forall j :: 0 <= j < k ==> rs[j].Ok?
    ensures k < |rs| ==> rs[k].Err?
  {
    if rs == [] || rs[0].Err? then 0
    else 1 + FirstErr(rs[1..])
  }

  predicate AllOk(rs: seq<Result<int, Error>>) {
    forall j :: 0 <= j < |rs| ==> rs[j].Ok?
  }

  /** The numbers carried by results that are all `Ok`. */
  function Values(rs: seq<Result<int, Error>>): (xs: seq<int>)
    requires AllOk(rs)
    ensures |xs| == |rs|
  {
    seq(|rs|, j requires 0 <= j < |rs| && AllOk(rs) => rs[j].value)
  }

  /** The arithmetic sum of a sequence of numbers. */
  function Total(xs: seq<int>): int {
    if xs == [] then 0 else xs[0] + Total(xs[1..])
  }

  /**
   * The fold returns the first `Err` when there is one, and otherwise the
   * running total plus the arithmetic sum of all the values.
   */
  lemma {:induction false} SumFromMeaning(rs: seq<Result<int, Error>>, acc: int)
    ensures var k := FirstErr(rs);
      SumFrom(rs, acc) == if k < |rs| then Err(rs[k].error) else Ok(acc + Total(Values(rs)))
  {
    if rs != [] && rs[0].Ok? {
      var rest := rs[1..];
      SumFromMeaning(rest, acc + rs[0].value);
      if FirstErr(rest) == |rest| {
        assert AllOk(rest) && AllOk(rs);
        assert Values(rs)[1..] == Values(rest);
      }
    }
  }

  lemma {:induction false} FirstErrAppend(rs: seq<Result<int, Error>>, ts: seq<Result<int, Error>>)
    requires FirstErr(rs) < |rs|
    ensures FirstErr(rs + ts) == FirstErr(rs)
  {
    if rs[0].Ok? {
      assert (rs + ts)[0] == rs[0];
      assert (rs + ts)[1..] == rs[1..] + ts;
      FirstErrAppend(rs[1..], ts);
    }
  }

  lemma {:induction false} SumFromAppend(rs: seq<Result<int, Error>>, ts: seq<Result<int, Error>>, acc: int)
    requires AllOk(rs)
    ensures SumFrom(rs + ts, acc) == SumFrom(ts, acc + Total(Values(rs)))
  {
    if rs == [] {
      assert rs + ts == ts;
    } else {
      assert (rs + ts)[0] == rs[0];
      assert (rs + ts)[1..] == rs[1..] + ts;
      assert AllOk(rs[1..]);
      SumFromAppend(rs[1..], ts, acc + rs[0].value);
      assert Values(rs)[1..] == Values(rs[1..]);
    }
  }

  // ---------------------------------------------------------------------
  // The two entry points.

  /**
   * `sum`: the first item that fails decides the result, an I/O failure as
   * its `InputError` and a bad line as its `ParsingError`; when no item
   * fails, the result is the arithmetic sum of the numbers.
   */
  function Sum(lines: seq<Item>): (r: Result<int, Error>)
    ensures var rs := Outcomes(lines); var k := FirstErr(rs);
      r == if k < |rs| then Err(rs[k].error) else Ok(Total(Values(rs)))
  {
    SumFromMeaning(Outcomes(lines), 0);
    SumFrom(Outcomes(lines), 0)
  }

  /** The stream that `sum_strings` hands to `sum`: every line wrapped in `Ok`. */
  function AllLinesOk(strings: seq<string>): (lines: seq<Item>)
    ensures |lines| == |strings|
    ensures forall i :: 0 <= i < |strings| ==> lines[i] == Ok(strings[i])
  {
    seq(|strings|, i requires 0 <= i < |strings| => Ok(strings[i]))
  }

  /** `sum_strings`: `sum` over the lines, each wrapped in `Ok`. */
  function SumStrings(strings: seq<string>): Result<int, Error> {
    Sum(AllLinesOk(strings))
  }

  /**
   * A stream of plain lines has no I/O failures, so `sum_strings` can only
   * fail with the `ParsingError` of one of its own lines.
   */
  lemma SumStringsOnlyParsingErrors(strings: seq<string>)
    ensures SumStrings(strings).Err? ==>
      && SumStrings(strings).error.ParsingError?
      && SumStrings(strings).error.input in strings
  {
    var lines := AllLinesOk(strings);
    var k := FirstErr(Outcomes(lines));
    if k < |lines| {
      OutcomesAt(lines, k);
    }
  }

  // ---------------------------------------------------------------------
  // Properties relating several summations.

  /** The empty stream sums to zero. */
  lemma SumEmpty()
    ensures Sum([]) == Ok(0)
    ensures SumStrings([]) == Ok(0)
  {
    assert AllLinesOk([]) == [];
  }

  /** A stream of one item sums to what that item amounts to. */
  lemma SumSingle(item: Item)
    ensures Sum([item]) == Outcome(item)
  {
    var rs := Outcomes([item]);
    OutcomesAt([item], 0);
    if rs[0].Ok? {
      assert AllOk(rs) && Values(rs) == [rs[0].value];
      assert Total([rs[0].value]) == rs[0].value + Total([]);
    }
  }

  /**
   * An item that is an I/O failure, reached before any line fails, is
   * the result, wrapped as `InputError`.
   */
  lemma SumInputError(lines: seq<Item>, i: nat, e: IoError)
    requires i < |lines| && lines[i] == Err(e)
    requires forall j :: 0 <= j < i ==> Outcome(lines[j]).Ok?
    ensures Sum(lines) == Err(InputError(e))
  {
    var rs := Outcomes(lines);
    forall j | 0 <= j < i ensures rs[j].Ok? {
      OutcomesAt(lines, j);
    }
    OutcomesAt(lines, i);
    FirstErrIs(rs, i);
  }

  /**
   * A line that does not parse, reached before any other failure, is the
   * result, as a `ParsingError` that holds that line verbatim.
   */
  lemma SumParsingError(lines: seq<Item>, i: nat)
    requires i < |lines| && lines[i].Ok? && AsNumber(lines[i].value).Err?
    requires forall j :: 0 <= j < i ==> Outcome(lines[j]).Ok?
    ensures Sum(lines).Err? && Sum(lines).error.ParsingError?
    ensures Sum(lines) == AsNumber(lines[i].value)
    ensures Sum(lines).error.input == lines[i].value
  {
    var rs := Outcomes(lines);
    forall j | 0 <= j < i ensures rs[j].Ok? {
      OutcomesAt(lines, j);
    }
    OutcomesAt(lines, i);
    FirstErrIs(rs, i);
  }

  lemma FirstErrIs(rs: seq<Result<int, Error>>, i: nat)
    requires i < |rs| && rs[i].Err?
    requires forall j :: 0 <= j < i ==> rs[j].Ok?
    ensures FirstErr(rs) == i
  {
  }

  /** If every line parses, `sum_strings` is the sum of the parsed numbers. */
  lemma SumStringsAllValid(strings: seq<string>)
    requires forall i :: 0 <= i < |strings| ==> AsNumber(strings[i]).Ok?
    ensures SumStrings(strings) == Ok(Total(seq(|strings|, i requires 0 <= i < |strings| =>
      AsNumber(strings[i]).value)))
  {
    var lines := AllLinesOk(strings);
    var rs := Outcomes(lines);
    forall j | 0 <= j < |rs| ensures rs[j] == AsNumber(strings[j]) {
      OutcomesAt(lines, j);
    }
    assert AllOk(rs);
    assert Values(rs) == seq(|strings|, i requires 0 <= i < |strings| => AsNumber(strings[i]).value);
  }

  /** Once a stream has failed, nothing after it changes the result. */
  lemma SumStopsAtFailure(lines: seq<Item>, rest: seq<Item>)
    requires Sum(lines).Err?
    ensures Sum(lines + rest) == Sum(lines)
  {
    var rs, ts := Outcomes(lines), Outcomes(rest);
    OutcomesAppend(lines, rest);
    if FirstErr(rs) < |rs| {
      FirstErrAppend(rs, ts);
      assert (rs + ts)[FirstErr(rs)] == rs[FirstErr(rs)];
    }
  }

  /**
   * A stream that sums to `a`, followed by another stream: the totals add
   * up, or the second stream's failure is the result.
   */
  lemma SumAppend(lines: seq<Item>, rest: seq<Item>, a: int)
    requires Sum(lines) == Ok(a)
    ensures Sum(lines + rest) == match Sum(rest)
      case Ok(b) => Ok(a + b)
      case Err(e) => Err(e)
  {
    var rs, ts := Outcomes(lines), Outcomes(rest);
    OutcomesAppend(lines, rest);
    assert FirstErr(rs) == |rs| && AllOk(rs);
    SumFromAppend(rs, ts, 0);
    SumFromMeaning(rs + ts, 0);
    SumFromMeaning(ts, 0);
    SumFromMeaning(ts, a);
  }

  /** Whitespace around a line does not change the number it parses to. */
  lemma AsNumberPadded(lead: string, line: string, trail: string)
    requires AllMatch(lead, IsWhitespace) && AllMatch(trail, IsWhitespace)
    ensures AsNumber(lead + line + trail) == match AsNumber(line)
      case Ok(v) => Ok(v)
      case Err(e) => Err(ParsingError(lead + line + trail, e.source))
  {
    TrimPadded(lead, line, trail);
  }

  // ---------------------------------------------------------------------
  // The examples of the library's documentation and unit tests.

  lemma ParsesANumber()
    ensures AsNumber("42") == Ok(42)
  {
    TrimAroundCore([], "42", [], IsWhitespace);
    assert [] + ("42" + []) == "42";
    assert DigitsValue("4") == 4;
  }

  lemma ParsesANumberWithWhitespace()
    ensures AsNumber("\t 42\n") == Ok(42)
  {
    ParsesANumber();
    AsNumberPadded("\t ", "42", "\n");
    assert "\t " + "42" + "\n" == "\t 42\n";
  }

  lemma FailsOnInvalidCharacter()
    ensures AsNumber("$") == Err(ParsingError("$", InvalidDigit))
  {
    TrimAroundCore([], "$", [], IsWhitespace);
    assert [] + ("$" + []) == "$";
  }

  lemma FailsOnEmptyInput()
    ensures AsNumber("") == Err(ParsingError("", Empty))
  {
  }

  lemma NotANumberIsAnError()
    ensures SumStrings(["this_is_not_a_number"]) ==
      Err(ParsingError("this_is_not_a_number", InvalidDigit))
  {
    var line := "this_is_not_a_number";
    TrimAroundCore([], line, [], IsWhitespace);
    assert [] + (line + []) == line;
    assert AllLinesOk([line]) == [Ok(line)];
    SumSingle(Ok(line));
  }

  lemma SingleElementIsEqualToSum()
    ensures SumStrings(["42"]) == Ok(42)
  {
    ParsesANumber();
    assert AllLinesOk(["42"]) == [Ok("42")];
    SumSingle(Ok("42"));
  }

  lemma DocumentationExamples(e: IoError)
    ensures SumStrings(["20", "22"]) == Ok(42)
    ensures Sum([Ok("20"), Ok("22")]) == Ok(42)
    ensures Sum([Err(e)]) == Err(InputError(e))
  {
    var twenty, twentytwo := "20", "22";
    TrimAroundCore([], twenty, [], IsWhitespace);
    TrimAroundCore([], twentytwo, [], IsWhitespace);
    assert [] + (twenty + []) == twenty && [] + (twentytwo + []) == twentytwo;
    assert DigitsValue("2") == 2;
    assert AsNumber(twenty) == Ok(20) && AsNumber(twentytwo) == Ok(22);
    var strings := [twenty, twentytwo];
    SumStringsAllValid(strings);
    assert seq(|strings|, i requires 0 <= i < |strings| => AsNumber(strings[i]).value) == [20, 22];
    assert AllLinesOk(strings) == [Ok(twenty), Ok(twentytwo)];
    SumSingle(Err(e));
  }

  // ---------------------------------------------------------------------
  // The summation as a loop over the stream.

  /**
   * `sum` as the loop that `Iterator::sum` runs over `Result` items: one
   * running total, and an early return at the first failure.
   */
  method SumLoop(lines: seq<Item>) returns (r: Result<int, Error>)
    ensures r == Sum(lines)
  {
    ghost var rs := Outcomes(lines);
    var total := 0;
    var i := 0;
    while i < |lines|
      invariant 0 <= i <= |lines|
      invariant SumFrom(rs[i..], total) == SumFrom(rs, 0)
    {
      OutcomesAt(lines, i);
      assert rs[i..][1..] == rs[i + 1..];
      if lines[i].Err? {
        return Err(InputError(lines[i].error));
      }
      var n := AsNumber(lines[i].value);
      if n.Err? {
        return n;
      }
      total := total + n.value;
      i := i + 1;
    }
    assert rs[i..] == [];
    r := Ok(total);
  }
}
