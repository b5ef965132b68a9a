/**
 * The grading program: the grade bands of a score, and the reader that turns the lines of a
 * comma-separated file into students, stopping at the first bad line with its line number.
 * The file arrives as its sequence of lines.
 */
module GradingSys {
  import opened Wrappers
  import opened Int32

  datatype Student = Student(id: i32, fullName: string, score: i32)

  /** The grade of a student: A for 80 to 100, then B, C, D from 70, 60, 50, and F below 50. */
  function GetGrade(student: Student): (grade: string)
    ensures grade == "A" <==> 80 <= student.score <= 100
    ensures grade == "B" <==> 70 <= student.score < 80 || student.score > 100
    ensures grade == "C" <==> 60 <= student.score < 70
    ensures grade == "D" <==> 50 <= student.score < 60
    ensures grade == "F" <==> student.score < 50
  {
    var score := student.score;
    if score >= 80 && score <= 100 then "A"
    else if score >= 70 then "B"
    else if score >= 60 then "C"
    else if score >= 50 then "D"
    else "F"
  }

  // ----- `string.Split(char)` -----

  /** The number of occurrences of `c` in `s`. */
  function Count(s: string, c: char): nat
    decreases |s|
  {
    if s == [] then 0 else (if s[0] == c then 1 else 0) + Count(s[1..], c)
  }

  /** The parts joined back together with `sep` between them. */
  function Join(parts: seq<string>, sep: char): string
    requires |parts| >= 1
    decreases |parts|
  {
    if |parts| == 1 then parts[0] else parts[0] + [sep] + Join(parts[1..], sep)
  }

  /**
   * `s.Split(sep)`: the pieces between the separators, empty ones included, so a string with
   * n separators has n + 1 parts and the empty string has the single part "".
   */
  function Split(s: string, sep: char): (parts: seq<string>)
    ensures |parts| == Count(s, sep) + 1
    ensures forall i :: 0 <= i < |parts| ==> sep !in parts[i]
    ensures Join(parts, sep) == s
    decreases |s|
  {
    if s == [] then [[]]
    else
      var rest := Split(s[1..], sep);
      if s[0] == sep then [[]] + rest
      else
        var parts := [[s[0]] + rest[0]] + rest[1..];
        assert parts[1..] == rest[1..];
        parts
  }

  lemma {:induction false} SplitWithoutSeparator(s: string, sep: char)
    requires sep !in s
    ensures Split(s, sep) == [s]
    decreases |s|
  {
    if s != [] {
      SplitWithoutSeparator(s[1..], sep);
    }
  }

  /** Splitting at one more separator puts the parts on either side of it together. */
  lemma {:induction false} SplitAround(a: string, sep: char, b: string)
    ensures Split(a + [sep] + b, sep) == Split(a, sep) + Split(b, sep)
    decreases |a|
  {
    if a == [] {
      assert [] + [sep] + b == [sep] + b;
      assert ([sep] + b)[1..] == b;
    } else {
      assert (a + [sep] + b)[1..] == a[1..] + [sep] + b;
      SplitAround(a[1..], sep, b);
    }
  }

  /** Splitting undoes joining, when no part contains the separator. */
  lemma {:induction false} SplitJoin(parts: seq<string>, sep: char)
    requires |parts| >= 1
    requires forall i :: 0 <= i < |parts| ==> sep !in parts[i]
    ensures Split(Join(parts, sep), sep) == parts
    decreases |parts|
  {
    SplitWithoutSeparator(parts[0], sep);
    if |parts| > 1 {
      SplitJoin(parts[1..], sep);
      SplitAround(parts[0], sep, Join(parts[1..], sep));
      assert parts == [parts[0]] + parts[1..];
    }
  }

  // ----- `string.Trim()` -----

  /** `char.IsWhiteSpace`: the Unicode space, line and paragraph separators, and U+0009 to U+000D, U+0085. */
  predicate IsWhiteSpace(c: char)
  {
    c == ' ' || '\t' <= c <= '\r' || c == '\U{0085}' || c == '\U{00A0}' || c == '\U{1680}' ||
    '\U{2000}' <= c <= '\U{200A}' || c == '\U{2028}' || c == '\U{2029}' || c == '\U{202F}' ||
    c == '\U{205F}' || c == '\U{3000}'
  }

  /** The length of the run of white space that `s` starts with. */
  function LeadingWhiteSpace(s: string): (n: nat)
    ensures n <= |s|
    ensures forall i :: 0 <= i < n ==> IsWhiteSpace(s[i])
    ensures n < |s| ==> !IsWhiteSpace(s[n])
    decreases |s|
  {
    if s != [] && IsWhiteSpace(s[0]) then 1 + LeadingWhiteSpace(s[1..]) else 0
  }

  /** The length of the run of white space that `s` ends with. */
  function TrailingWhiteSpace(s: string): (n: nat)
    ensures n <= |s|
    ensures forall i :: |s| - n <= i < |s| ==> IsWhiteSpace(s[i])
    ensures n < |s| ==> !IsWhiteSpace(s[|s| - 1 - n])
    decreases |s|
  {
    if s != [] && IsWhiteSpace(s[|s| - 1]) then 1 + TrailingWhiteSpace(s[..|s| - 1]) else 0
  }

  /**
   * `s.Trim()`: what is left of `s` once the white space at both ends is gone. It is the slice
   * of `s` that follows the leading white space, only white space comes after it in `s`, and it
   * neither starts nor ends with white space.
   */
  function Trim(s: string): (r: string)
    ensures LeadingWhiteSpace(s) + |r| <= |s|
    ensures r == s[LeadingWhiteSpace(s)..LeadingWhiteSpace(s) + |r|]
    ensures forall i :: LeadingWhiteSpace(s) + |r| <= i < |s| ==> IsWhiteSpace(s[i])
    ensures r != [] ==> !IsWhiteSpace(r[0]) && !IsWhiteSpace(r[|r| - 1])
  {
    var lead := LeadingWhiteSpace(s);
    if lead == |s| then []
    else
      var trail := TrailingWhiteSpace(s);
      assert !IsWhiteSpace(s[lead]);
      s[lead..|s| - trail]
  }

  // ----- `int.Parse(string)` -----

  /** `int.Parse`'s outcomes: a value, a `FormatException`, or an `OverflowException`. */
  datatype ParsedInt = Parsed(value: i32) | BadFormat | Overflow

  predicate IsDigit(c: char)
  {
    '0' <= c <= '9'
  }

  predicate AllDigits(s: string)
  {
    forall i :: 0 <= i < |s| ==> IsDigit(s[i])
  }

  /** The number that a string of decimal digits denotes. */
  function DigitsValue(s: string): nat
    requires AllDigits(s)
    decreases |s|
  {
    if s == [] then 0 else DigitsValue(s[..|s| - 1]) * 10 + (s[|s| - 1] as int - '0' as int)
  }

  /** `s` with its sign, if it has one, taken off. */
  function Unsigned(s: string): string
  {
    if s != [] && (s[0] == '-' || s[0] == '+') then s[1..] else s
  }

  /** The integer texts this model accepts: an optional sign, then one or more decimal digits. */
  predicate IsIntegerText(s: string)
  {
    Unsigned(s) != [] && AllDigits(Unsigned(s))
  }

  /** The integer an integer text denotes. */
  function IntegerValue(s: string): int
    requires IsIntegerText(s)
  {
    if s[0] == '-' then -(DigitsValue(Unsigned(s)) as int) else DigitsValue(Unsigned(s))
  }

  /**
   * `int.Parse` of an already trimmed string: text that is not a signed digit string is a format
   * error, a number outside the `int` range an overflow, and anything else its value.
   */
  function ParseInt(s: string): (r: ParsedInt)
    ensures r == BadFormat <==> !IsIntegerText(s)
    ensures r == Overflow <==> IsIntegerText(s) && !(MinValue <= IntegerValue(s) <= MaxValue)
    ensures r.Parsed? ==> IsIntegerText(s) && r.value == IntegerValue(s)
  {
    if !IsIntegerText(s) then BadFormat
    else
      var v := IntegerValue(s);
      if MinValue <= v <= MaxValue then Parsed(v) else Overflow
  }

  /** The decimal digits of `n`, most significant first, with no leading zero. */
  function Digits(n: nat): (s: string)
    ensures s != [] && AllDigits(s)
    ensures s[0] != '0' || n == 0
    decreases n
  {
    var last := ['0' + (n % 10) as char];
    if n < 10 then last else Digits(n / 10) + last
  }

  /** `n` written in decimal, with a minus sign when negative (`int.ToString()`). */
  function DecimalText(n: int): string
  {
    if n < 0 then "-" + Digits(-n) else Digits(n)
  }

  lemma {:induction false} DigitsValueOfDigits(n: nat)
    ensures DigitsValue(Digits(n)) == n
    decreases n
  {
    var d := Digits(n);
    if n >= 10 {
      DigitsValueOfDigits(n / 10);
      assert d[..|d| - 1] == Digits(n / 10);
    }
  }

  /** Parsing gives back every `int` written in decimal. */
  lemma ParseDecimalText(n: i32)
    ensures ParseInt(DecimalText(n)) == Parsed(n)
  {
    var magnitude: nat := if n < 0 then -(n as int) else n as int;
    var digits := Digits(magnitude);
    DigitsValueOfDigits(magnitude);
    assert Unsigned(DecimalText(n)) == digits by {
      if n < 0 {
        assert DecimalText(n) == "-" + digits;
        assert ("-" + digits)[1..] == digits;
      } else {
        assert DecimalText(n) == digits;
        assert IsDigit(digits[0]);
      }
    }
    assert IsIntegerText(DecimalText(n));
    assert IntegerValue(DecimalText(n)) == n;
  }

  // ----- `StudentResultProcessor.ReadStudentsFromFile` -----

  /**
   * The reader's exceptions. The two custom ones carry the 1-based line number their message
   * reports; the `OverflowException` of `int.Parse` is not caught and carries none.
   */
  datatype ReadError =
    | MissingField(line: nat)
    | InvalidScoreFormat(line: nat)
    | NumberOverflow

  /**
   * The three trimmed fields of a line numbered `lineNumber`: the id is parsed first, then the
   * score. A bad id is reported as a score format error too.
   */
  function ParseFields(id: string, name: string, score: string, lineNumber: nat): (r: Result<Student, ReadError>)
    ensures r.Failure? ==> r.error.InvalidScoreFormat? || r.error.NumberOverflow?
    ensures r.Failure? && r.error.InvalidScoreFormat? ==> r.error.line == lineNumber
    ensures r.Failure? && r.error.InvalidScoreFormat? <==>
              ParseInt(id) == BadFormat || (ParseInt(id).Parsed? && ParseInt(score) == BadFormat)
    ensures r.Success? <==> ParseInt(id).Parsed? && ParseInt(score).Parsed?
    ensures r.Success? ==> ParseInt(id) == Parsed(r.value.id) && r.value.fullName == name &&
                           ParseInt(score) == Parsed(r.value.score)
  {
    match ParseInt(id)
    case BadFormat => Failure(InvalidScoreFormat(lineNumber))
    case Overflow => Failure(NumberOverflow)
    case Parsed(idValue) =>
      match ParseInt(score)
      case BadFormat => Failure(InvalidScoreFormat(lineNumber))
      case Overflow => Failure(NumberOverflow)
      case Parsed(scoreValue) => Success(Student(idValue, name, scoreValue))
  }

  /**
   * One line of the file, numbered `lineNumber`: split at commas; fewer than three fields is a
   * missing-field error; otherwise the first three fields, each trimmed, are the id, name and
   * score, and any further fields are ignored.
   */
  function ParseLine(line: string, lineNumber: nat): (r: Result<Student, ReadError>)
    ensures (r.Failure? && r.error.MissingField?) <==> Count(line, ',') < 2
    ensures line == [] ==> r == Failure(MissingField(lineNumber))
    ensures r.Failure? && !r.error.NumberOverflow? ==> r.error.line == lineNumber
  {
    var parts := Split(line, ',');
    if |parts| < 3 then Failure(MissingField(lineNumber))
    else ParseFields(Trim(parts[0]), Trim(parts[1]), Trim(parts[2]), lineNumber)
  }

  /** Fields after the third do not matter: appending more to a complete line changes nothing. */
  lemma ExtraFieldsIgnored(line: string, extra: string, lineNumber: nat)
    requires Count(line, ',') >= 2
    ensures ParseLine(line + [','] + extra, lineNumber) == ParseLine(line, lineNumber)
  {
    SplitAround(line, ',', extra);
    var parts, longer := Split(line, ','), Split(line + [','] + extra, ',');
    assert longer[0] == parts[0] && longer[1] == parts[1] && longer[2] == parts[2];
  }

  lemma {:induction false} LeadingWhiteSpaceOfPadded(pad: string, s: string)
    requires forall i :: 0 <= i < |pad| ==> IsWhiteSpace(pad[i])
    requires s != [] && !IsWhiteSpace(s[0])
    ensures LeadingWhiteSpace(pad + s) == |pad|
    decreases |pad|
  {
    if pad != [] {
      assert (pad + s)[1..] == pad[1..] + s;
      LeadingWhiteSpaceOfPadded(pad[1..], s);
    }
  }

  lemma {:induction false} TrailingWhiteSpaceOfPadded(s: string, pad: string)
    requires forall i :: 0 <= i < |pad| ==> IsWhiteSpace(pad[i])
    requires s != [] && !IsWhiteSpace(s[|s| - 1])
    ensures TrailingWhiteSpace(s + pad) == |pad|
    decreases |pad|
  {
    if pad != [] {
      assert (s + pad)[..|s + pad| - 1] == s + pad[..|pad| - 1];
      TrailingWhiteSpaceOfPadded(s, pad[..|pad| - 1]);
    }
  }

  /** Trimming removes exactly the white space put around a trimmed string. */
  lemma TrimPadded(before: string, s: string, after: string)
    requires forall i :: 0 <= i < |before| ==> IsWhiteSpace(before[i])
    requires forall i :: 0 <= i < |after| ==> IsWhiteSpace(after[i])
    requires Trim(s) == s
    ensures Trim(before + s + after) == s
  {
    var padded := before + s + after;
    if s == [] {
      assert forall i :: 0 <= i < |padded| ==> IsWhiteSpace(padded[i]) by {
        assert padded == before + after;
      }
    } else {
      LeadingWhiteSpaceOfPadded(before, s + after);
      assert padded == before + (s + after);
      TrailingWhiteSpaceOfPadded(before + s, after);
      assert padded[|before|..|padded| - |after|] == s;
    }
  }

  /** A line of exactly three comma-free fields splits into those three fields. */
  lemma SplitThree(a: string, b: string, c: string)
    requires ',' !in a && ',' !in b && ',' !in c
    ensures Split(a + "," + b + "," + c, ',') == [a, b, c]
  {
    var bc := b + [','] + c;
    assert a + "," + b + "," + c == a + [','] + bc;
    SplitWithoutSeparator(a, ',');
    SplitWithoutSeparator(b, ',');
    SplitWithoutSeparator(c, ',');
    SplitAround(b, ',', c);
    assert Split(bc, ',') == [b] + [c];
    SplitAround(a, ',', bc);
    assert Split(a + [','] + bc, ',') == [a] + [b, c];
  }

  /**
   * A line of three comma-free fields whose trimmed id and score are integers in the `int` range
   * is read as the student with that id, the trimmed name and that score.
   */
  lemma WellFormedLine(a: string, b: string, c: string, lineNumber: nat)
    requires ',' !in a && ',' !in b && ',' !in c
    requires IsIntegerText(Trim(a)) && MinValue <= IntegerValue(Trim(a)) <= MaxValue
    requires IsIntegerText(Trim(c)) && MinValue <= IntegerValue(Trim(c)) <= MaxValue
    ensures ParseLine(a + "," + b + "," + c, lineNumber) ==
            Success(Student(IntegerValue(Trim(a)), Trim(b), IntegerValue(Trim(c))))
  {
    SplitThree(a, b, c);
  }

  /** The fields of the line `1,Ann,90` are already trimmed, and its id and score are 1 and 90. */
  lemma SampleFields()
    ensures Trim("1") == "1" && Trim("Ann") == "Ann" && Trim("90") == "90"
    ensures IsIntegerText("1") && IntegerValue("1") == 1
    ensures IsIntegerText("90") && IntegerValue("90") == 90
  {
    assert "90"[..1] == "9";
  }

  /** The line `1,Ann,90` is the student 1, "Ann", with score 90. */
  lemma SampleLine()
    ensures ParseLine("1" + "," + "Ann" + "," + "90", 1) == Success(Student(1, "Ann", 90))
  {
    SampleFields();
    WellFormedLine("1", "Ann", "90", 1);
  }

  /** A three-field line is read from its trimmed fields only. */
  lemma {:induction false} OnlyTrimmedFieldsMatter(a: string, b: string, c: string, a': string, b': string, c': string, lineNumber: nat)
    requires ',' !in a && ',' !in b && ',' !in c && ',' !in a' && ',' !in b' && ',' !in c'
    requires Trim(a) == Trim(a') && Trim(b) == Trim(b') && Trim(c) == Trim(c')
    ensures ParseLine(a + "," + b + "," + c, lineNumber) == ParseLine(a' + "," + b' + "," + c', lineNumber)
  {
    SplitThree(a, b, c);
    SplitThree(a', b', c');
  }

  /** White space around the fields does not matter: the id, name and score are trimmed first. */
  lemma PaddingIgnored(id: string, name: string, score: string, pad: string, lineNumber: nat)
    requires forall i :: 0 <= i < |pad| ==> IsWhiteSpace(pad[i])
    requires ',' !in id && ',' !in name && ',' !in score
    requires Trim(id) == id && Trim(name) == name && Trim(score) == score
    ensures ParseLine((pad + id + pad) + "," + (pad + name + pad) + "," + (pad + score + pad), lineNumber) ==
            ParseLine(id + "," + name + "," + score, lineNumber)
  {
    assert ',' !in pad by {
      assert !IsWhiteSpace(',');
    }
    TrimPadded(pad, id, pad);
    TrimPadded(pad, name, pad);
    TrimPadded(pad, score, pad);
    OnlyTrimmedFieldsMatter(pad + id + pad, pad + name + pad, pad + score + pad, id, name, score, lineNumber);
  }

  /**
   * The outcome of a read whose lines, in order, parsed to `results`: the first failure is the
   * read's error and cuts it short; if there is none, the read gives every line's value.
   */
  function Collect<T, E>(results: seq<Result<T, E>>): Result<seq<T>, E>
  {
    if results == [] then Success([])
    else Extend(Collect(results[..|results| - 1]), results[|results| - 1])
  }

  /** The values collected so far followed by the next line's result; an earlier failure stands. */
  function Extend<T, E>(read: Result<seq<T>, E>, next: Result<T, E>): Result<seq<T>, E>
  {
    match read
    case Failure(_) => read
    case Success(values) =>
      match next
      case Failure(e) => Failure(e)
      case Success(value) => Success(values + [value])
  }

  /** Reading one more line extends the outcome of the lines before it. */
  lemma CollectStep<T, E>(results: seq<Result<T, E>>, n: nat)
    requires n < |results|
    ensures Collect(results[..n + 1]) == Extend(Collect(results[..n]), results[n])
  {
    assert results[..n + 1][..n] == results[..n];
  }

  /** Once a prefix of the lines fails, the lines after it are never looked at. */
  lemma {:induction false} CollectStopsAtFailure<T, E>(results: seq<Result<T, E>>, k: nat)
    requires k <= |results| && Collect(results[..k]).Failure?
    ensures Collect(results) == Collect(results[..k])
    decreases |results| - k
  {
    if k < |results| {
      var init := results[..|results| - 1];
      assert init[..k] == results[..k];
      CollectStopsAtFailure(init, k);
    } else {
      assert results[..k] == results;
    }
  }

  /** A read succeeds exactly when every line does, and then gives one value per line, in order. */
  lemma {:induction false} CollectSucceeds<T, E>(results: seq<Result<T, E>>)
    ensures Collect(results).Success? <==> forall i :: 0 <= i < |results| ==> results[i].Success?
    ensures Collect(results).Success? ==>
              |Collect(results).value| == |results| &&
              forall i :: 0 <= i < |results| ==> results[i] == Success(Collect(results).value[i])
  {
    if results != [] {
      var init := results[..|results| - 1];
      CollectSucceeds(init);
      assert forall i :: 0 <= i < |init| ==> init[i] == results[i];
    }
  }

  /** A failed read reports the error of the first line that fails. */
  lemma {:induction false} CollectFails<T, E>(results: seq<Result<T, E>>)
    requires Collect(results).Failure?
    ensures exists k :: 0 <= k < |results| && results[k] == Failure(Collect(results).error) &&
              forall i :: 0 <= i < k ==> results[i].Success?
  {
    var init := results[..|results| - 1];
    assert forall i :: 0 <= i < |init| ==> init[i] == results[i];
    if Collect(init).Failure? {
      CollectFails(init);
      var k :| 0 <= k < |init| && init[k] == Failure(Collect(init).error) &&
               forall i :: 0 <= i < k ==> init[i].Success?;
      assert results[k] == Failure(Collect(results).error);
    } else {
      CollectSucceeds(init);
      var k := |results| - 1;
      assert results[k] == Failure(Collect(results).error);
    }
  }

  /** Each line's result under `parse`, the line at index `i` having the number `i + 1`. */
  function Numbered<T, E>(lines: seq<string>, parse: (string, nat) -> Result<T, E>): seq<Result<T, E>>
  {
    seq(|lines|, i requires 0 <= i < |lines| => parse(lines[i], i + 1))
  }

  /**
   * The reading loop of `ReadStudentsFromFile`, for any line parser: the lines are parsed front to
   * back with line numbers counted from 1, and the first failure is returned at once.
   */
  method ReadLines<T, E>(lines: seq<string>, parse: (string, nat) -> Result<T, E>) returns (r: Result<seq<T>, E>)
    ensures r == Collect(Numbered(lines, parse))
  {
    ghost var results := Numbered(lines, parse);
    var values: seq<T> := [];
    var lineNumber := 0;
    while lineNumber < |lines|
      invariant 0 <= lineNumber <= |lines|
      invariant Collect(results[..lineNumber]) == Success(values)
    {
      var line := lines[lineNumber];
      lineNumber := lineNumber + 1;
      var parsed := parse(line, lineNumber);
      CollectStep(results, lineNumber - 1);
      if parsed.Failure? {
        CollectStopsAtFailure(results, lineNumber);
        return Failure(parsed.error);
      }
      values := values + [parsed.value];
    }
    assert results[..lineNumber] == results;
    r := Success(values);
  }

  /** `ReadStudentsFromFile`: the reading loop with `ParseLine` as the line parser. */
  method ReadStudentsFromFile(lines: seq<string>) returns (r: Result<seq<Student>, ReadError>)
    ensures r == Collect(Numbered(lines, ParseLine))
  {
    r := ReadLines(lines, ParseLine);
  }
}
