/**
 * `Date`'s text form and the date-line parser inside `date_cli`, separated
 * from standard input: the line is trimmed and split on `/`; fields 0, 1 and 2
 * are trimmed and parsed as the month (`u8`), the day (`u8`) and the year
 * (`u64`); any further field is only reported; the first field that does not
 * parse fails the whole line, and so does a month, day or year that is 0 once
 * all fields are read, which includes a field that was never given.
 */
module Dates {
  import opened Wrappers
  import opened Wire
  import opened Purchases
  import opened Text

  // ================================================================ rendering

  /** `Date::to_string`: `month/day/year` in plain decimal. */
  function DateString(d: Date): string {
    Decimal(d.month) + "/" + Decimal(d.day) + "/" + Decimal(d.year)
  }

  /** `Date::to_string` as written: pushes onto an initially empty string. */
  method DateToString(d: Date) returns (temp: string)
    ensures temp == DateString(d)
  {
    temp := "";
    temp := temp + Decimal(d.month);
    temp := temp + "/";
    temp := temp + Decimal(d.day);
    temp := temp + "/";
    temp := temp + Decimal(d.year);
  }

  /** A decimal has no separator and no white space at its ends, so trimming keeps it. */
  lemma DecimalIsField(n: nat)
    ensures '/' !in Decimal(n)
    ensures Trim(Decimal(n)) == Decimal(n)
  {
    var f := Decimal(n);
    assert IsDigit(f[0]) && IsDigit(f[|f| - 1]);
    TrimKeeps(f);
  }

  lemma Join3(a: string, b: string, c: string, sep: char)
    ensures Join([a, b, c], sep) == a + [sep] + b + [sep] + c
  {
    assert [b, c][1..] == [c];
    assert Join([b, c], sep) == b + [sep] + c;
    assert [a, b, c][1..] == [b, c];
  }

  /** The text of a date starts and ends with a digit, so trimming keeps it. */
  lemma DateStringTrimmed(d: Date)
    ensures Trim(DateString(d)) == DateString(d)
  {
    var s := DateString(d);
    var m, y := Decimal(d.month), Decimal(d.year);
    assert s[0] == m[0] && IsDigit(m[0]);
    assert s[|s| - 1] == y[|y| - 1] && IsDigit(y[|y| - 1]);
    TrimKeeps(s);
  }

  /** The text of a date has exactly three fields: month, day and year. */
  lemma DateStringSplit(d: Date)
    ensures Split(DateString(d), '/') == [Decimal(d.month), Decimal(d.day), Decimal(d.year)]
  {
    var fields := [Decimal(d.month), Decimal(d.day), Decimal(d.year)];
    DecimalIsField(d.month);
    DecimalIsField(d.day);
    DecimalIsField(d.year);
    assert forall i :: 0 <= i < 3 ==> '/' !in fields[i];
    Join3(fields[0], fields[1], fields[2], '/');
    SplitJoin(fields, '/');
  }

  // ================================================================ parsing

  datatype DateError =
    | BadField(index: nat)   // field `index` (0, 1 or 2) is not a number of its type
    | ZeroField              // the month, the day or the year is 0

  /** The number of values of field `i`'s integer type: `u8`, `u8`, `u64`. */
  function FieldBound(i: nat): (bound: nat)
    requires i < 3
    ensures bound == if i < 2 then 0x100 else U64_LIMIT
  {
    [0x100, 0x100, U64_LIMIT][i]
  }

  /** Field `i`'s value: its trimmed text parsed into its type, 0 when the line has no such field. */
  function FieldValue(fields: seq<string>, i: nat): (r: Result<nat, DateError>)
    requires i < 3
    ensures r.Success? ==> r.value < FieldBound(i)
    ensures r.Failure? ==> r.error == BadField(i)
  {
    if i >= |fields| then Success(0)
    else
      match ParseUnsigned(Trim(fields[i]), FieldBound(i))
      case None => Failure(BadField(i))
      case Some(v) => Success(v)
  }

  /** The date the split fields give, or why they give none. */
  function DateFromFields(fields: seq<string>): Result<Date, DateError> {
    var month :- FieldValue(fields, 0);
    var day :- FieldValue(fields, 1);
    var year :- FieldValue(fields, 2);
    if month == 0 || day == 0 || year == 0 then Failure(ZeroField)
    else Success(Date(month, day, year))
  }

  /** What `date_cli` makes of the line it reads: a date, or the reason it panics. */
  function DateFromLine(line: string): Result<Date, DateError> {
    DateFromFields(Split(Trim(line), '/'))
  }

  /** The loop of `date_cli` over the enumerated fields, with a failure in
      place of each panic. */
  method ParseDateLine(line: string) returns (r: Result<Date, DateError>)
    ensures r == DateFromLine(line)
  {
    var fields := Split(Trim(line), '/');
    var month: U8, day: U8, year: U64 := 0, 0, 0;
    var index := 0;
    while index < |fields|
      invariant index <= |fields|
      invariant forall k :: 0 <= k < 3 && k < index ==> FieldValue(fields, k).Success?
      invariant month == if index > 0 then FieldValue(fields, 0).value else 0
      invariant day == if index > 1 then FieldValue(fields, 1).value else 0
      invariant year == if index > 2 then FieldValue(fields, 2).value else 0
    {
      if index == 0 {
        var v := ParseUnsigned(Trim(fields[index]), 0x100);
        if v.None? {
          return Failure(BadField(0));
        }
        month := v.value;
      } else if index == 1 {
        var v := ParseUnsigned(Trim(fields[index]), 0x100);
        if v.None? {
          return Failure(BadField(1));
        }
        day := v.value;
      } else if index == 2 {
        var v := ParseUnsigned(Trim(fields[index]), U64_LIMIT);
        if v.None? {
          return Failure(BadField(2));
        }
        year := v.value;
      }
      index := index + 1;
    }
    if month == 0 || day == 0 || year == 0 {
      return Failure(ZeroField);
    }
    r := Success(Date(month, day, year));
  }

  // ================================================================ properties

  /** A line gives date `d` exactly when it has at least three fields, fields
      0, 1 and 2 parse, once trimmed, to `d`'s month, day and year, and none
      of those is 0. */
  lemma DateFieldMapping(line: string, d: Date)
    ensures DateFromLine(line) == Success(d) <==>
      var fields := Split(Trim(line), '/');
      && |fields| >= 3
      && ParseUnsigned(Trim(fields[0]), 0x100) == Some(d.month)
      && ParseUnsigned(Trim(fields[1]), 0x100) == Some(d.day)
      && ParseUnsigned(Trim(fields[2]), U64_LIMIT) == Some(d.year)
      && d.month != 0 && d.day != 0 && d.year != 0
  {
  }

  /** A line with fewer than three fields never gives a date. */
  lemma FewFieldsRejected(line: string)
    requires |Split(Trim(line), '/')| < 3
    ensures DateFromLine(line).Failure?
  {
  }

  /** Fields after the third change nothing. */
  lemma ExtraFieldsIgnored(fields: seq<string>)
    requires |fields| >= 3
    ensures DateFromFields(fields) == DateFromFields(fields[..3])
  {
  }

  /** A month or day field above 255 is rejected as that field. */
  lemma OutOfRangeRejected(line: string, i: nat)
    requires i < 2
    requires var fields := Split(Trim(line), '/');
      i < |fields| && (forall k :: 0 <= k < i ==> FieldValue(fields, k).Success?)
      && exists v :: v >= 0x100 && ParseUnsigned(Trim(fields[i]), U64_LIMIT) == Some(v)
    ensures DateFromLine(line) == Failure(BadField(i))
  {
  }

  /** The text of a date parses back to it, unless one of its fields is 0,
      which the parser refuses. */
  lemma DateLineRoundTrip(d: Date)
    ensures DateFromLine(DateString(d)) ==
      if d.month == 0 || d.day == 0 || d.year == 0 then Failure(ZeroField) else Success(d)
  {
    DateStringTrimmed(d);
    DateStringSplit(d);
    var fields := [Decimal(d.month), Decimal(d.day), Decimal(d.year)];
    DecimalIsField(d.month);
    DecimalIsField(d.day);
    DecimalIsField(d.year);
    ParseDecimal(d.month, 0x100);
    ParseDecimal(d.day, 0x100);
    ParseDecimal(d.year, U64_LIMIT);
    assert FieldValue(fields, 0) == Success(d.month);
    assert FieldValue(fields, 1) == Success(d.day);
    assert FieldValue(fields, 2) == Success(d.year);
  }
}
