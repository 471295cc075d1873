/** The three dataset loaders of src/utils.py (store information, training
    days, test days), each taken from the moment the file's text has been
    read into `content`. */
module Loaders {
  import opened PyText
  import opened Framing

  // ---------------------------------------------------------------------
  // Field parsers
  // ---------------------------------------------------------------------

  /** The store loader's local integer parser: an empty field stands for a
      missing value and becomes -1; anything else goes through `int`. */
  function StoreInt(text: string): Result<int, Fault>
  {
    if |text| > 0 then Int(text) else Ok(-1)
  }

  /** The test loader's local parser for the "Open" column: an empty field
      becomes 0; anything else goes through `int`. */
  function OpenInt(text: string): Result<int, Fault>
  {
    if |text| > 0 then Int(text) else Ok(0)
  }

  /** An empty store field reads as -1, and the decimal text of any integer
      reads as that integer. */
  lemma StoreIntSentinel(n: int)
    ensures StoreInt("") == Ok(-1)
    ensures StoreInt(IntText(n)) == Ok(n)
  {
    IntOfIntText(n);
  }

  /** A store field that is neither empty nor decimal text raises ValueError. */
  lemma StoreIntRejects(text: string)
    requires text != [] && Int(text).Err?
    ensures StoreInt(text) == Err(ValueError)
  {
  }

  /** An empty "Open" field reads as 0 instead of raising, and the decimal
      text of any integer reads as that integer. */
  lemma OpenIntDefault(n: int)
    ensures OpenInt("") == Ok(0)
    ensures OpenInt(IntText(n)) == Ok(n)
    ensures Int("").Err?
  {
    IntOfIntText(n);
  }

  // ---------------------------------------------------------------------
  // Dates
  // ---------------------------------------------------------------------

  /** A calendar date as `datetime.date` holds it. */
  datatype Date = Date(year: int, month: int, day: int)

  predicate IsLeapYear(y: int)
  {
    y % 4 == 0 && (y % 100 != 0 || y % 400 == 0)
  }

  function DaysInMonth(y: int, m: int): int
    requires 1 <= m <= 12
  {
    if m == 2 then (if IsLeapYear(y) then 29 else 28)
    else if m == 4 || m == 6 || m == 9 || m == 11 then 30
    else 31
  }

  /** The arguments `datetime.date` accepts: a year in 1..9999, a month in
      1..12 and a day within that month. */
  predicate IsValidDate(y: int, m: int, d: int)
  {
    1 <= y <= 9999 && 1 <= m <= 12 && 1 <= d <= DaysInMonth(y, m)
  }

  /** `datetime.date(y, m, d)`: ValueError when the triple is not a date. */
  function MakeDate(y: int, m: int, d: int): Result<Date, Fault>
  {
    if IsValidDate(y, m, d) then Ok(Date(y, m, d)) else Err(ValueError)
  }

  /** The loaders' date parse: year, month and day are read from the fixed
      character ranges [0:4], [5:7] and [8:10] of the field. */
  function ParseDate(field: string): Result<Date, Fault>
  {
    var year :- Int(Slice(field, 0, 4));
    var month :- Int(Slice(field, 5, 7));
    var day :- Int(Slice(field, 8, 10));
    MakeDate(year, month, day)
  }

  /** `str(d)` for a date: YYYY-MM-DD, zero-padded. */
  function DateText(d: Date): string
    requires IsValidDate(d.year, d.month, d.day)
  {
    Padded(d.year, 4) + "-" + Padded(d.month, 2) + "-" + Padded(d.day, 2)
  }

  /** A date written in the YYYY-MM-DD layout parses back to that date. */
  lemma ParseDateText(d: Date)
    requires IsValidDate(d.year, d.month, d.day)
    ensures ParseDate(DateText(d)) == Ok(d)
  {
    var s := DateText(d);
    assert Pow10(2) == 100;
    assert Pow10(4) == 10000;
    assert Slice(s, 0, 4) == Padded(d.year, 4);
    assert Slice(s, 5, 7) == Padded(d.month, 2);
    assert Slice(s, 8, 10) == Padded(d.day, 2);
    IntOfPadded(d.year, 4);
    IntOfPadded(d.month, 2);
    IntOfPadded(d.day, 2);
  }

  /** Only the three digit ranges are read: the characters at positions 4
      and 7 (the dashes of YYYY-MM-DD) and everything from position 10 on
      play no part, so "2015/07/31" and "2015-07-31 12:00" both read as
      2015-07-31. */
  lemma ParseDateReadsOnlyOffsets(f: string, g: string)
    requires |f| >= 10 && |g| >= 10
    requires f[..4] == g[..4] && f[5..7] == g[5..7] && f[8..10] == g[8..10]
    ensures ParseDate(f) == ParseDate(g)
  {
    assert Slice(f, 0, 4) == f[..4] && Slice(g, 0, 4) == g[..4];
  }

  // ---------------------------------------------------------------------
  // Store information
  // ---------------------------------------------------------------------

  /** One entry of the store loader's result: the ten columns in file order. */
  datatype StoreRecord = StoreRecord(
    store: int,
    storeType: string,
    assortment: string,
    competitionDistance: int,
    competitionOpenSinceMonth: int,
    competitionOpenSinceYear: int,
    promo2: int,
    promo2SinceWeek: int,
    promo2SinceYear: int,
    promoInterval: string)

  /** The columns holding integers: Store, CompetitionDistance,
      CompetitionOpenSinceMonth, CompetitionOpenSinceYear, Promo2,
      Promo2SinceWeek and Promo2SinceYear. */
  const StoreIntColumns: set<nat> := {0, 3, 4, 5, 6, 7, 8}

  /** What a numeric store field means: -1 when empty, its integer otherwise. */
  predicate SentinelValue(text: string, v: int)
  {
    if text == "" then v == -1 else Int(text) == Ok(v)
  }

  /** The fields of one store line, read by position the way the loader's
      list display reads them, left to right. */
  function ParseStoreFields(f: seq<string>): Result<StoreRecord, Fault>
  {
    var f0 :- Index(f, 0);
    var store :- StoreInt(f0);
    var f1 :- Index(f, 1);
    var f2 :- Index(f, 2);
    var f3 :- Index(f, 3);
    var competitionDistance :- StoreInt(f3);
    var f4 :- Index(f, 4);
    var competitionOpenSinceMonth :- StoreInt(f4);
    var f5 :- Index(f, 5);
    var competitionOpenSinceYear :- StoreInt(f5);
    var f6 :- Index(f, 6);
    var promo2 :- StoreInt(f6);
    var f7 :- Index(f, 7);
    var promo2SinceWeek :- StoreInt(f7);
    var f8 :- Index(f, 8);
    var promo2SinceYear :- StoreInt(f8);
    var f9 :- Index(f, 9);
    Ok(StoreRecord(store, Interior(f1), Interior(f2), competitionDistance,
                   competitionOpenSinceMonth, competitionOpenSinceYear, promo2,
                   promo2SinceWeek, promo2SinceYear, Interior(f9)))
  }

  /** One line of the store file: split on commas, then read by position. */
  function ParseStoreLine(line: string): Result<StoreRecord, Fault>
  {
    ParseStoreFields(Split(line, ','))
  }

  /** The fields of a store line are accepted exactly when there are at least ten and
      every numeric column is empty or decimal text. The string columns are
      then the raw fields without their first and last character, and each
      numeric column is -1 when empty and its integer otherwise. IndexError
      means fewer than ten fields; ValueError, a numeric column that is
      neither empty nor an integer. */
  lemma StoreFieldsShape(f: seq<string>)
    ensures var r := ParseStoreFields(f);
      r.Ok? <==> |f| >= 10 && forall c :: c in StoreIntColumns ==> StoreInt(f[c]).Ok?
    ensures var r := ParseStoreFields(f);
      r.Ok? ==>
        SentinelValue(f[0], r.value.store) &&
        r.value.storeType == Interior(f[1]) &&
        r.value.assortment == Interior(f[2]) &&
        SentinelValue(f[3], r.value.competitionDistance) &&
        SentinelValue(f[4], r.value.competitionOpenSinceMonth) &&
        SentinelValue(f[5], r.value.competitionOpenSinceYear) &&
        SentinelValue(f[6], r.value.promo2) &&
        SentinelValue(f[7], r.value.promo2SinceWeek) &&
        SentinelValue(f[8], r.value.promo2SinceYear) &&
        r.value.promoInterval == Interior(f[9])
    ensures var r := ParseStoreFields(f);
      r == Err(IndexError) ==> |f| < 10
    ensures var r := ParseStoreFields(f);
      r == Err(ValueError) ==> exists c :: c in StoreIntColumns && c < |f| && Int(f[c]).Err? && f[c] != ""
  {
  }

  /** `loadStoreInfo` after the file is read: one record per data line, in
      file order, or the exception of the first line that fails. */
  method LoadStoreInfo(content: string) returns (r: Result<seq<StoreRecord>, LoadError>)
    ensures Loaded(DataLines(content), ParseStoreLine, r)
    ensures Count(content, '\n') <= 1 ==> r == Ok([])
  {
    r := LoadLines(DataLines(content), ParseStoreLine);
  }

  // ---------------------------------------------------------------------
  // Training and test days
  // ---------------------------------------------------------------------

  /** The seven inputs of one day at one store, shared by the training and
      the test loaders: Store, DayOfWeek, Date, Open, Promo, and the
      StateHoliday and SchoolHoliday codes. */
  datatype DayEntry = DayEntry(
    store: int,
    dayOfWeek: int,
    date: Date,
    open: int,
    promo: int,
    stateHoliday: char,
    schoolHoliday: char)

  /** One training line: its inputs and its two outputs. */
  datatype TrainingRow = TrainingRow(entry: DayEntry, sales: int, customers: int)

  /** The fields of one training line. Sales (column 3) and Customers
      (column 4) are read first, then the seven inputs left to right; the
      holiday codes are the character at index 1 of their (quoted) fields. */
  function ParseTrainingFields(f: seq<string>): Result<TrainingRow, Fault>
  {
    var f3 :- Index(f, 3);
    var sales :- Int(f3);
    var f4 :- Index(f, 4);
    var customers :- Int(f4);
    var f0 :- Index(f, 0);
    var store :- Int(f0);
    var f1 :- Index(f, 1);
    var dayOfWeek :- Int(f1);
    var f2 :- Index(f, 2);
    var date :- ParseDate(f2);
    var f5 :- Index(f, 5);
    var open :- Int(f5);
    var f6 :- Index(f, 6);
    var promo :- Int(f6);
    var f7 :- Index(f, 7);
    var stateHoliday :- Index(f7, 1);
    var f8 :- Index(f, 8);
    var schoolHoliday :- Index(f8, 1);
    Ok(TrainingRow(DayEntry(store, dayOfWeek, date, open, promo, stateHoliday, schoolHoliday), sales, customers))
  }

  /** One line of the training file: split on commas, then read by position. */
  function ParseTrainingLine(line: string): Result<TrainingRow, Fault>
  {
    ParseTrainingFields(Split(line, ','))
  }

  /** The columns of a training line read with `int`. */
  const TrainingIntColumns: set<nat> := {0, 1, 3, 4, 5, 6}

  /** The fields of a training line are accepted exactly when there are at least nine,
      its numeric columns are integers, its date field parses and both
      holiday fields have a character at index 1. Sales and Customers are
      then the integers of columns 3 and 4, and the seven inputs come from
      columns 0, 1, 2, 5, 6, 7 and 8. */
  lemma TrainingFieldsShape(f: seq<string>)
    ensures var r := ParseTrainingFields(f);
      r.Ok? <==>
        |f| >= 9 && Int(f[3]).Ok? && Int(f[4]).Ok? && Int(f[0]).Ok? && Int(f[1]).Ok? &&
        ParseDate(f[2]).Ok? && Int(f[5]).Ok? && Int(f[6]).Ok? && |f[7]| >= 2 && |f[8]| >= 2
    ensures var r := ParseTrainingFields(f);
      r.Ok? ==>
        Int(f[3]) == Ok(r.value.sales) &&
        Int(f[4]) == Ok(r.value.customers) &&
        Int(f[0]) == Ok(r.value.entry.store) &&
        Int(f[1]) == Ok(r.value.entry.dayOfWeek) &&
        ParseDate(f[2]) == Ok(r.value.entry.date) &&
        Int(f[5]) == Ok(r.value.entry.open) &&
        Int(f[6]) == Ok(r.value.entry.promo) &&
        r.value.entry.stateHoliday == f[7][1] &&
        r.value.entry.schoolHoliday == f[8][1]
    ensures var r := ParseTrainingFields(f);
      r == Err(IndexError) ==> |f| < 9 || |f[7]| < 2 || |f[8]| < 2
    ensures var r := ParseTrainingFields(f);
      r == Err(ValueError) ==>
        (exists c :: c in TrainingIntColumns && c < |f| && Int(f[c]).Err?) ||
        (|f| > 2 && ParseDate(f[2]).Err?)
    ensures |f| > 3 && Int(f[3]).Err? ==> ParseTrainingFields(f) == Err(ValueError)
  {
  }

  /** The three parallel lists the training loader returns. */
  datatype TrainingData = TrainingData(data: seq<DayEntry>, sales: seq<int>, customers: seq<int>)

  /** The three lists hold, at every position `k`, the parse of data line `k`. */
  ghost predicate TrainingParsed(lines: seq<string>, t: TrainingData)
  {
    |t.data| == |lines| && |t.sales| == |lines| && |t.customers| == |lines| &&
    forall k :: 0 <= k < |lines| ==>
      ParseTrainingLine(lines[k]) == Ok(TrainingRow(t.data[k], t.sales[k], t.customers[k]))
  }

  /** `loadTrainingData` after the file is read: three lists of equal length
      with one entry per data line, in file order, or the exception of the
      first line that fails. */
  method LoadTrainingData(content: string) returns (r: Result<TrainingData, LoadError>)
    ensures r.Ok? ==> TrainingParsed(DataLines(content), r.value)
    ensures r.Err? ==> FailsFirstAt(DataLines(content), ParseTrainingLine, r.error)
    ensures Count(content, '\n') <= 1 ==> r == Ok(TrainingData([], [], []))
  {
    var lines := DataLines(content);
    var data: seq<DayEntry> := [];
    var outputSales: seq<int> := [];
    var outputCustomers: seq<int> := [];
    for i := 0 to |lines|
      invariant |data| == i && |outputSales| == i && |outputCustomers| == i
      invariant forall k :: 0 <= k < i ==>
        ParseTrainingLine(lines[k]) == Ok(TrainingRow(data[k], outputSales[k], outputCustomers[k]))
    {
      var row := ParseTrainingLine(lines[i]);
      if row.Err? {
        return Err(LoadError(i, row.error));
      }
      outputSales := outputSales + [row.value.sales];
      outputCustomers := outputCustomers + [row.value.customers];
      data := data + [row.value.entry];
    }
    return Ok(TrainingData(data, outputSales, outputCustomers));
  }

  /** In a successful training load, position `k` of the sales and customers
      lists holds the integers of columns 3 and 4 of data line `k`. */
  lemma TrainingOutputsAreColumns(content: string, t: TrainingData, k: nat)
    requires TrainingParsed(DataLines(content), t)
    requires k < |DataLines(content)|
    ensures var f := Split(DataLines(content)[k], ',');
      |f| >= 9 && Int(f[3]) == Ok(t.sales[k]) && Int(f[4]) == Ok(t.customers[k])
  {
    var lines := DataLines(content);
    assert ParseTrainingLine(lines[k]) == Ok(TrainingRow(t.data[k], t.sales[k], t.customers[k]));
    TrainingFieldsShape(Split(lines[k], ','));
  }

  /** The fields of one test line. Column 0 (Id) is never read; the seven
      entries come from columns 1 to 7, with an empty Open field read as 0. */
  function ParseTestFields(f: seq<string>): Result<DayEntry, Fault>
  {
    var f1 :- Index(f, 1);
    var store :- Int(f1);
    var f2 :- Index(f, 2);
    var dayOfWeek :- Int(f2);
    var f3 :- Index(f, 3);
    var date :- ParseDate(f3);
    var f4 :- Index(f, 4);
    var open :- OpenInt(f4);
    var f5 :- Index(f, 5);
    var promo :- Int(f5);
    var f6 :- Index(f, 6);
    var stateHoliday :- Index(f6, 1);
    var f7 :- Index(f, 7);
    var schoolHoliday :- Index(f7, 1);
    Ok(DayEntry(store, dayOfWeek, date, open, promo, stateHoliday, schoolHoliday))
  }

  /** One line of the test file: split on commas, then read by position. */
  function ParseTestLine(line: string): Result<DayEntry, Fault>
  {
    ParseTestFields(Split(line, ','))
  }

  /** The columns of a test line read with plain `int`. */
  const TestIntColumns: set<nat> := {1, 2, 5}

  /** The fields of a test line are accepted exactly when there are at least eight,
      columns 1, 2 and 5 are integers, column 4 is empty or an integer, the
      date parses and both holiday fields have a character at index 1; a
      line with fewer than eight fields is always rejected. The entries come
      from columns 1 to 7 in order, an empty Open field giving 0. */
  lemma TestFieldsShape(f: seq<string>)
    ensures var r := ParseTestFields(f);
      r.Ok? <==>
        |f| >= 8 && Int(f[1]).Ok? && Int(f[2]).Ok? && ParseDate(f[3]).Ok? &&
        OpenInt(f[4]).Ok? && Int(f[5]).Ok? && |f[6]| >= 2 && |f[7]| >= 2
    ensures var r := ParseTestFields(f);
      r.Ok? ==>
        Int(f[1]) == Ok(r.value.store) &&
        Int(f[2]) == Ok(r.value.dayOfWeek) &&
        ParseDate(f[3]) == Ok(r.value.date) &&
        (if f[4] == "" then r.value.open == 0 else Int(f[4]) == Ok(r.value.open)) &&
        Int(f[5]) == Ok(r.value.promo) &&
        r.value.stateHoliday == f[6][1] &&
        r.value.schoolHoliday == f[7][1]
    ensures var r := ParseTestFields(f);
      r == Err(IndexError) ==> |f| < 8 || |f[6]| < 2 || |f[7]| < 2
    ensures var r := ParseTestFields(f);
      r == Err(ValueError) ==>
        (exists c :: c in TestIntColumns && c < |f| && Int(f[c]).Err?) ||
        (|f| > 3 && ParseDate(f[3]).Err?) || (|f| > 4 && OpenInt(f[4]).Err?)
    ensures |f| > 1 && Int(f[1]).Err? ==> ParseTestFields(f) == Err(ValueError)
  {
  }

  /** Fields that agree from column 1 on parse alike, whatever column 0 holds. */
  lemma TestFieldsIgnoreId(f: seq<string>, g: seq<string>)
    requires |f| == |g| >= 1 && f[1..] == g[1..]
    ensures ParseTestFields(f) == ParseTestFields(g)
  {
    assert forall i :: 1 <= i < |f| ==> f[i] == f[1..][i - 1] == g[i];
  }

  /** The Id column is neither copied nor checked: two test lines that
      differ only in their first field parse alike. */
  lemma TestLineIgnoresId(id1: string, id2: string, rest: string)
    requires ',' !in id1 && ',' !in id2
    ensures ParseTestLine(id1 + "," + rest) == ParseTestLine(id2 + "," + rest)
  {
    SplitAfterSegment(id1, rest, ',');
    SplitAfterSegment(id2, rest, ',');
    var tail := Split(rest, ',');
    assert ([id1] + tail)[1..] == tail == ([id2] + tail)[1..];
    TestFieldsIgnoreId([id1] + tail, [id2] + tail);
  }

  /** `loadTestData` after the file is read: one entry per data line, in
      file order, or the exception of the first line that fails. */
  method LoadTestData(content: string) returns (r: Result<seq<DayEntry>, LoadError>)
    ensures Loaded(DataLines(content), ParseTestLine, r)
    ensures Count(content, '\n') <= 1 ==> r == Ok([])
  {
    r := LoadLines(DataLines(content), ParseTestLine);
  }
}
