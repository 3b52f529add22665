# stdio-utils summation core, in Dafny

This project models the summation library of `stdio-utils`. The library reads
a stream of text lines and parses each line as a signed machine integer
(`isize`). It then returns the sum of those integers, or the first failure it
meets. A failure is one of two kinds:

- `InputError`: the line source failed with an I/O error;
- `ParsingError`: a line did not parse. The error keeps the offending line
  exactly as it was read, untrimmed.

The model has four modules:

- `Wrappers` (`wrappers.dfy`): Rust's `Result<T, E>`.
- `Whitespace` (`whitespace.dfy`): `str::trim`. Rust defines it as
  `trim_matches(char::is_whitespace)`, so the model does the same. It keeps
  the 25 code points of the Unicode `White_Space` property. The trimming
  functions and their lemmas work for any character predicate.
- `IntParse` (`int_parse.dfy`): `str::parse::<isize>`, that is
  `isize::from_str_radix(s, 10)` on a 64-bit target. It follows Rust's digit
  loop (checks the digit, then multiplies and adds, stops at the first
  overflow). It is proved equal to a separate grammar: an optional sign, then
  one or more ASCII digits, whose value must fit in `isize`.
- `StdioUtils` (`stdio_utils.dfy`): the library itself.
  - `Error`.
  - `AsNumber` models `as_number`.
  - `Read` models `read`.
  - `Outcomes` models `read(lines).map(|line| as_number(line?))`.
  - `SumFrom` models the `Sum` impl for `Result` that `.sum()` uses.
  - `Sum` and `SumStrings` model `sum` and `sum_strings`.
  - `SumLoop` is a loop method with one running total and an early return.
    It is proved equal to `Sum`.

A stream is a finite `seq<Item>`. Each `Item` is `Ok(line)` or
`Err(IoError)`, and `IoError` is an opaque token. What `sum` returns is
stated against two independent definitions:

- `FirstErr`: the position of the first failing item;
- `Total`: the arithmetic sum of the parsed values.

## Model

| member | source | states |
|---|---|---|
| `Whitespace.TrimShape` | src/lib.rs:130-131 | the trimmed text is no longer than the line and has no whitespace at either end; it is empty exactly when the whole line is whitespace |
| `Whitespace.TrimSplit` | src/lib.rs:130-131 | every line is a run of whitespace, then its trimmed text, then another run of whitespace |
| `Whitespace.TrimPadded` | src/lib.rs:130-131 | adding whitespace before or after a line does not change its trimmed text |
| `Whitespace.TrimIdempotent` | src/lib.rs:130-131 | trimming a line a second time changes nothing |
| `IntParse.ParseIsize` | src/lib.rs:132 | parsing reports the `Empty` kind for the empty text, and only for it |
| `IntParse.AccumulateMeaning` | src/lib.rs:132 | after some digits are consumed, the digit loop succeeds exactly when the whole text is digits and its value fits in `isize`, and then returns that value; a well-formed value out of range is an overflow on the side of its sign |
| `IntParse.ParseIsizeMeaning` | src/lib.rs:132 | `parse::<isize>` succeeds exactly on an optional sign followed by one or more ASCII digits whose value lies in `isize`, and then returns that value; a well-formed text out of range fails as `PosOverflow` or `NegOverflow` according to its sign |
| `StdioUtils.AsNumber` | src/lib.rs:126-137 | every failure is a `ParsingError` whose `input` is the line exactly as given, untrimmed |
| `StdioUtils.AsNumberMeaning` | src/lib.rs:126-137 | a line is a number exactly when its trimmed text is an optional sign and one or more digits with a value in `isize`, and the result is that value; an empty or all-whitespace line is a `ParsingError` of kind `Empty` that holds the line itself, not zero |
| `StdioUtils.AsNumberPadded` | src/lib.rs:126-137 | whitespace around a line does not change its value or its error kind; only the recorded `input` changes, to the padded line |
| `StdioUtils.Read` | src/lib.rs:118-124 | item by item, each line passes through unchanged and each I/O error becomes an `InputError` that wraps that same error; the length is kept |
| `StdioUtils.OutcomesAt` | src/lib.rs:115 | item i of the mapped stream `read(lines).map(...)` is `InputError` of the item's I/O error, or `as_number` of its line |
| `StdioUtils.OutcomesAppend` | src/lib.rs:115 | mapping a stream item by item distributes over joining two streams |
| `StdioUtils.FirstErr` | src/lib.rs:115 | the position returned is the first `Err` of the results, or their length when every result is `Ok` |
| `StdioUtils.SumFromMeaning` | src/lib.rs:115 | summing `Result` items returns the earliest `Err` if there is one; otherwise it returns the running total plus the arithmetic sum of all the values, with no partial sum beside an error |
| `StdioUtils.Sum` | src/lib.rs:110-116 | `sum` returns the error of the first item that fails, whether an I/O failure or a bad line; when no item fails it returns the arithmetic sum of the parsed values |
| `StdioUtils.AllLinesOk` | src/lib.rs:80 | `strings.map(Ok)` keeps the length and wraps each line, in order, in `Ok` |
| `StdioUtils.SumStringsOnlyParsingErrors` | src/lib.rs:76-81 | `sum_strings` never returns `InputError`; its only failure is a `ParsingError` that holds one of the given lines |
| `StdioUtils.SumStringsAllValid` | src/lib.rs:54-63 | when every line parses, `sum_strings` returns the arithmetic sum of the parsed values |
| `StdioUtils.SumEmpty` | src/lib.rs:179-184 | the empty stream sums to 0, for `sum` and for `sum_strings` |
| `StdioUtils.SumSingle` | src/lib.rs:186-192 | a stream of one item sums to that item's own value or failure |
| `StdioUtils.SumInputError` | src/lib.rs:95-104 | an I/O failure that no earlier failure precedes is the result, as `InputError` wrapping that same error, wherever it sits in the stream |
| `StdioUtils.SumParsingError` | src/lib.rs:65-70 | a bad line that no earlier failure precedes is the result, as a `ParsingError` holding exactly that line |
| `StdioUtils.SumStopsAtFailure` | src/lib.rs:115 | once a stream has failed, items appended after it do not change the result |
| `StdioUtils.SumAppend` | src/lib.rs:115 | if a stream sums to `a`, appending a second stream gives `a` plus that stream's sum, or that stream's first failure |
| `StdioUtils.SumLoop` | src/lib.rs:115 | a loop with one running total that returns at the first failed item computes exactly `sum` |
| `StdioUtils.ParsesANumber` | src/lib.rs:144-148 | `as_number("42")` is 42 |
| `StdioUtils.ParsesANumberWithWhitespace` | src/lib.rs:150-154 | `as_number("\t 42\n")` is 42 |
| `StdioUtils.FailsOnInvalidCharacter` | src/lib.rs:156-166 | `as_number("$")` is a `ParsingError` of kind `InvalidDigit` whose input is `"$"` |
| `StdioUtils.FailsOnEmptyInput` | src/lib.rs:168-177 | `as_number("")` is a `ParsingError` of kind `Empty` whose input is the empty text, with no placeholder text |
| `StdioUtils.NotANumberIsAnError` | src/lib.rs:65-70 | `sum_strings(["this_is_not_a_number"])` fails with a `ParsingError` that holds that line |
| `StdioUtils.SingleElementIsEqualToSum` | src/lib.rs:186-192 | `sum_strings(["42"])` is 42 |
| `StdioUtils.DocumentationExamples` | src/lib.rs:21-32 | `sum_strings(["20", "22"])` and `sum([Ok("20"), Ok("22")])` are 42; a stream made of one I/O error fails with `InputError` wrapping that error |

## Left out

- StdioUtils.Sum: the running total is an unbounded integer. `Iterator::sum` on `isize` panics on overflow in debug builds and wraps in release builds. The library makes no promise about either, so neither is modelled.
- StdioUtils.SumFrom: the total is an unbounded integer, for the same reason as `Sum`.
- StdioUtils.SumLoop: the total is an unbounded integer, for the same reason as `Sum`.
- `isize` is taken to be 64 bits wide (`ISIZE_MIN` and `ISIZE_MAX` in `IntParse`). Rust's `isize` follows the target's pointer width.
- Streams are finite sequences. Rust's iterators are lazy and may be infinite. "No later item is consumed" is stated as "no later item changes the result" (`SumStopsAtFailure`, `SumInputError`, `SumParsingError`).
- `io::Error` is an opaque token (`IoError`). `ParseIntError` is reduced to its kind (`Empty`, `InvalidDigit`, `PosOverflow`, `NegOverflow`). Rust's `Zero` kind only occurs for non-zero integer types, so it is omitted.
- The `Display` text of `Error` (`thiserror`, src/lib.rs:42 and 46) is not modelled. The tests that check the message contains the offending text are stated on the `ParsingError.input` field.
- The kind of a lone sign (`"+"` or `"-"`) is `InvalidDigit`, as in current Rust releases. Older releases reported `Empty`. No test of the library depends on this.
- The `AsRef<str>` generic line type is modelled as `string`, a sequence of Unicode scalar values. Rust's `str` is valid UTF-8, which holds the same values.
- `src/main.rs` is not part of this model: it only does standard-input locking, line reading, printing and the process exit code.
- `benches/lib.rs`, `benches/quick_comparison_against_other_solutions.rs`, `benches/exhaustive_benchmark.rs` and `tools/src/bin/quality-control.rs` are not part of this model. They create fixture files, start external programs and measure time.
- Descriptions of the library allow a `ParsingError` to carry either the trimmed or the untrimmed line. The code keeps the untrimmed line (src/lib.rs:134), and the model follows the code.
