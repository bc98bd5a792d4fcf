/**
 * Preparing SAC-SMA model output for the functional flows calculator
 * (SACSMA_to_FFC.py): every row's day, month and year become one `MM/DD/YYYY`
 * date, the date column is paired with the unchanged flow column, and the output
 * file is named after the third component of the input path.
 */
module SacsmaToFfc {
  import opened Base

  /** One row of a SAC-SMA output table (`Year`, `Month`, `Day`, `Flow_cfs`). */
  datatype InputRow = InputRow(year: int, month: int, day: int, flow: real)

  /** One row of the calculator input (`date`, `flow`). */
  datatype FfcRow = FfcRow(date: string, flow: real)

  // ---------------------------------------------------------------- the calendar

  /** Gregorian leap years. */
  predicate IsLeap(year: int)
  {
    year % 4 == 0 && (year % 100 != 0 || year % 400 == 0)
  }

  function DaysInMonth(year: int, month: int): (n: int)
    requires 1 <= month <= 12
    ensures 28 <= n <= 31
    ensures n == 29 <==> month == 2 && IsLeap(year)
  {
    if month == 2 then (if IsLeap(year) then 29 else 28)
    else if month == 4 || month == 6 || month == 9 || month == 11 then 30
    else 31
  }

  /**
   * What `strptime(str(day) + '-' + str(month) + '-' + str(year), '%d-%m-%Y')`
   * accepts: `%Y` takes exactly four digits, `%m` a month 1-12, `%d` a day 1-31,
   * and the day must exist in that month of that year.
   */
  predicate ValidDate(year: int, month: int, day: int)
  {
    1000 <= year <= 9999 && 1 <= month <= 12 && 1 <= day <= DaysInMonth(year, month)
  }

  // ---------------------------------------------------------------- formatting

  function Digit(n: int): (c: char)
    requires 0 <= n <= 9
    ensures '0' <= c <= '9'
  {
    (48 + n) as char
  }

  /** The value of a decimal digit character. */
  function DigitValue(c: char): int
  {
    c as int - 48
  }

  /** `n` written with exactly `width` digits, zero-padded on the left. */
  function Padded(n: int, width: nat): (s: string)
    requires 0 <= n
    ensures |s| == width
    ensures forall i :: 0 <= i < width ==> '0' <= s[i] <= '9'
  {
    if width == 0 then "" else Padded(n / 10, width - 1) + [Digit(n % 10)]
  }

  /** Reads a string of decimal digits. */
  function Decimal(s: string): int
  {
    if s == [] then 0 else 10 * Decimal(s[..|s| - 1]) + DigitValue(s[|s| - 1])
  }

  /** Reading back a padded number gives the number, when it fits the width. */
  lemma {:induction false} DecimalPadded(n: int, width: nat, bound: int)
    requires 0 <= n < bound && bound == Power10(width)
    ensures Decimal(Padded(n, width)) == n
  {
    if width > 0 {
      var s := Padded(n, width);
      assert s[..|s| - 1] == Padded(n / 10, width - 1);
      DecimalPadded(n / 10, width - 1, Power10(width - 1));
    }
  }

  function Power10(k: nat): (p: int)
    ensures p >= 1
  {
    if k == 0 then 1 else 10 * Power10(k - 1)
  }

  /** `strftime('%m/%d/%Y')` of a valid date. */
  function DateString(year: int, month: int, day: int): (s: string)
    requires ValidDate(year, month, day)
    ensures |s| == 10 && s[2] == '/' && s[5] == '/'
    ensures forall i :: 0 <= i < 10 && i != 2 && i != 5 ==> '0' <= s[i] <= '9'
  {
    var mm, dd, yyyy := Padded(month, 2), Padded(day, 2), Padded(year, 4);
    var s := mm + "/" + dd + "/" + yyyy;
    assert forall i :: 0 <= i < 2 ==> s[i] == mm[i];
    assert forall i :: 3 <= i < 5 ==> s[i] == dd[i - 3];
    assert forall i :: 6 <= i < 10 ==> s[i] == yyyy[i - 6];
    s
  }

  /** Parses `MM/DD/YYYY` into (year, month, day). */
  function ParseDate(s: string): (int, int, int)
    requires |s| == 10
  {
    (Decimal(s[6..10]), Decimal(s[0..2]), Decimal(s[3..5]))
  }

  /** Formatting a valid date and parsing it back gives the date: no two dates share a string. */
  lemma DateStringRoundTrip(year: int, month: int, day: int)
    requires ValidDate(year, month, day)
    ensures ParseDate(DateString(year, month, day)) == (year, month, day)
  {
    var s := DateString(year, month, day);
    assert s[0..2] == Padded(month, 2);
    assert s[3..5] == Padded(day, 2);
    assert s[6..10] == Padded(year, 4);
    assert Power10(2) == 100 && Power10(4) == 10000 by {
      assert Power10(1) == 10 && Power10(3) == 1000;
    }
    DecimalPadded(month, 2, 100);
    DecimalPadded(day, 2, 100);
    DecimalPadded(year, 4, 10000);
  }

  /** The per-row conversion: a date string, or ValueError when `strptime` rejects the date. */
  function ConvertDate(row: InputRow): (r: Result<string>)
    ensures r.Err? <==> !ValidDate(row.year, row.month, row.day)
    ensures r.Err? ==> r.error == ValueError
    ensures r.Ok? ==> |r.value| == 10 && ParseDate(r.value) == (row.year, row.month, row.day)
    ensures r.Ok? ==> r.value[2] == '/' && r.value[5] == '/'
    ensures r.Ok? ==> forall i :: 0 <= i < 10 && i != 2 && i != 5 ==> '0' <= r.value[i] <= '9'
  {
    if ValidDate(row.year, row.month, row.day) then
      DateStringRoundTrip(row.year, row.month, row.day);
      Ok(DateString(row.year, row.month, row.day))
    else Err(ValueError)
  }

  /** A leap day exists only in leap years, and no 30-day month has a 31st. */
  lemma CalendarEdges(year: int, month: int)
    requires 1000 <= year <= 9999 && 1 <= month <= 12
    ensures ValidDate(year, 2, 29) <==> IsLeap(year)
    ensures month in {4, 6, 9, 11} ==> !ValidDate(year, month, 31)
    ensures ValidDate(year, month, 28)
  {
  }

  // ---------------------------------------------------------------- the row loop

  /**
   * The date loop: `new_date_col[index] = dt_string` for every row in order; the
   * first invalid date raises ValueError and the file is abandoned.
   */
  method ConvertDates(rows: seq<InputRow>) returns (r: Result<seq<string>>)
    ensures r.Ok? <==> forall i :: 0 <= i < |rows| ==> ValidDate(rows[i].year, rows[i].month, rows[i].day)
    ensures r.Err? ==> r.error == ValueError
    ensures r.Ok? ==> |r.value| == |rows|
    ensures r.Ok? ==> forall i :: 0 <= i < |rows| ==> ConvertDate(rows[i]) == Ok(r.value[i])
  {
    var column := new string[|rows|](_ => "");
    for index := 0 to |rows|
      invariant forall i :: 0 <= i < index ==> ConvertDate(rows[i]) == Ok(column[i])
    {
      var date := ConvertDate(rows[index]);
      if date.Err? {
        return Err(ValueError);
      }
      column[index] := date.value;
    }
    return Ok(column[..]);
  }

  /** The calculator table: the converted dates beside the unchanged flows. */
  method ToFfcTable(rows: seq<InputRow>) returns (r: Result<seq<FfcRow>>)
    ensures r.Ok? <==> forall i :: 0 <= i < |rows| ==> ValidDate(rows[i].year, rows[i].month, rows[i].day)
    ensures r.Err? ==> r.error == ValueError
    ensures r.Ok? ==> |r.value| == |rows|
    ensures r.Ok? ==> forall i :: 0 <= i < |rows| ==>
              r.value[i].flow == rows[i].flow && ConvertDate(rows[i]) == Ok(r.value[i].date)
  {
    var dates := ConvertDates(rows);
    if dates.Err? {
      return Err(dates.error);
    }
    return Ok(seq(|rows|, i requires 0 <= i < |rows| => FfcRow(dates.value[i], rows[i].flow)));
  }

  /**
   * Where a converted table is written: the third component of the input
   * path without its last four characters (its extension), under
   * `data_inputs/FFC_inputs/` and with a `.csv` suffix.
   */
  function OutputPath(file: string): (r: Result<string>)
    ensures r.Err? <==> |Split(file, '/')| < 3
    ensures r.Err? ==> r.error == IndexError
    ensures r.Ok? ==> var part := Split(file, '/')[2];
              exists stem :: && stem <= part
                             && |stem| == (if |part| >= 4 then |part| - 4 else 0)
                             && r.value == "data_inputs/FFC_inputs/" + stem + ".csv"
  {
    var stem := ThirdComponentStem(file);
    if stem.Err? then Err(stem.error)
    else Ok("data_inputs/FFC_inputs/" + stem.value + ".csv")
  }

  /** One pass of the file loop: convert the table, then derive where it is written. */
  method ConvertFile(file: string, rows: seq<InputRow>) returns (r: Result<(string, seq<FfcRow>)>)
    ensures r.Err? <==> (exists i :: 0 <= i < |rows| && !ValidDate(rows[i].year, rows[i].month, rows[i].day)) || |Split(file, '/')| < 3
    ensures r.Err? ==> r.error == if exists i :: 0 <= i < |rows| && !ValidDate(rows[i].year, rows[i].month, rows[i].day) then ValueError else IndexError
    ensures r.Ok? ==> OutputPath(file) == Ok(r.value.0) && |r.value.1| == |rows|
    ensures r.Ok? ==> forall i :: 0 <= i < |rows| ==>
              r.value.1[i].flow == rows[i].flow && ConvertDate(rows[i]) == Ok(r.value.1[i].date)
  {
    var table := ToFfcTable(rows);
    if table.Err? {
      return Err(table.error);
    }
    var path := OutputPath(file);
    if path.Err? {
      return Err(path.error);
    }
    return Ok((path.value, table.value));
  }
}
