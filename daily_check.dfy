/**
 * The daily gate (src/lib/daily-check.ts): today's UTC date as `YYYY-MM-DD`,
 * and whether a post is already scheduled for it.
 */
module DailyCheck {
  import opened Types

  /** An instant as `Date.prototype.toISOString` sees it, in UTC. */
  datatype UtcDateTime = UtcDateTime(year: nat, month: nat, day: nat, hour: nat, minute: nat, second: nat, millisecond: nat)

  /** The clock's reading, restricted to the four-digit years that `toISOString` writes without a sign. */
  predicate ValidInstant(t: UtcDateTime) {
    t.year <= 9999 && 1 <= t.month <= 12 && 1 <= t.day <= 31 &&
    t.hour < 24 && t.minute < 60 && t.second < 60 && t.millisecond < 1000
  }

  predicate IsDigit(c: char) {
    '0' <= c <= '9'
  }

  function Digit(d: nat): (c: char)
    requires d < 10
    ensures IsDigit(c)
  {
    (48 + d) as char
  }

  function DigitValue(c: char): nat
    requires IsDigit(c)
  {
    (c as int - 48) as nat
  }

  function Pad2(n: nat): string
    requires n < 100
  {
    [Digit(n / 10), Digit(n % 10)]
  }

  function Pad3(n: nat): string
    requires n < 1000
  {
    [Digit(n / 100), Digit(n / 10 % 10), Digit(n % 10)]
  }

  function Pad4(n: nat): string
    requires n < 10000
  {
    Pad2(n / 100) + Pad2(n % 100)
  }

  /** The calendar date in ISO 8601 extended format, `YYYY-MM-DD`. */
  function FormatDate(year: nat, month: nat, day: nat): string
    requires year < 10000 && month < 100 && day < 100
  {
    Pad4(year) + "-" + Pad2(month) + "-" + Pad2(day)
  }

  /** `toISOString()`: `YYYY-MM-DDTHH:mm:ss.sssZ`. */
  function IsoTimestamp(t: UtcDateTime): (s: string)
    requires ValidInstant(t)
    ensures |s| == 24
  {
    FormatDate(t.year, t.month, t.day) + "T" + Pad2(t.hour) + ":" + Pad2(t.minute) + ":" + Pad2(t.second)
      + "." + Pad3(t.millisecond) + "Z"
  }

  /** The shape `DDDD-DD-DD`. */
  predicate DateShape(s: string) {
    |s| == 10 && s[4] == '-' && s[7] == '-' &&
    forall i :: 0 <= i < 10 && i != 4 && i != 7 ==> IsDigit(s[i])
  }

  /** Reads a `DDDD-DD-DD` string back as (year, month, day). */
  function ParseDate(s: string): Option<(nat, nat, nat)> {
    if DateShape(s) then
      Some((DigitValue(s[0]) * 1000 + DigitValue(s[1]) * 100 + DigitValue(s[2]) * 10 + DigitValue(s[3]),
            DigitValue(s[5]) * 10 + DigitValue(s[6]),
            DigitValue(s[8]) * 10 + DigitValue(s[9])))
    else None
  }

  /** `getTodayDateString`: the first ten characters of the ISO timestamp, which are the calendar date. */
  function GetTodayDateString(now: UtcDateTime): (r: string)
    requires ValidInstant(now)
    ensures |r| == 10 && DateShape(r)
    ensures r == FormatDate(now.year, now.month, now.day)
  {
    var date := FormatDate(now.year, now.month, now.day);
    var iso := IsoTimestamp(now);
    assert iso[..10] == date;
    iso[..10]
  }

  lemma DigitRoundTrip(d: nat)
    requires d < 10
    ensures DigitValue(Digit(d)) == d
  {
  }

  lemma Pad2RoundTrip(n: nat)
    requires n < 100
    ensures DigitValue(Pad2(n)[0]) * 10 + DigitValue(Pad2(n)[1]) == n
  {
    DigitRoundTrip(n / 10);
    DigitRoundTrip(n % 10);
  }

  lemma Pad4RoundTrip(n: nat)
    requires n < 10000
    ensures var p := Pad4(n);
            DigitValue(p[0]) * 1000 + DigitValue(p[1]) * 100 + DigitValue(p[2]) * 10 + DigitValue(p[3]) == n
  {
    var hi := Pad2(n / 100);
    var lo := Pad2(n % 100);
    Pad2RoundTrip(n / 100);
    Pad2RoundTrip(n % 100);
    assert Pad4(n) == hi + lo;
    assert n == n / 100 * 100 + n % 100;
  }

  /** The date string reads back as the instant's calendar date. */
  lemma TodayRoundTrip(now: UtcDateTime)
    requires ValidInstant(now)
    ensures ParseDate(GetTodayDateString(now)) == Some((now.year, now.month, now.day))
  {
    var s := GetTodayDateString(now);
    var y, m, d := Pad4(now.year), Pad2(now.month), Pad2(now.day);
    assert s == y + "-" + m + "-" + d;
    assert s[0] == y[0] && s[1] == y[1] && s[2] == y[2] && s[3] == y[3];
    assert s[5] == m[0] && s[6] == m[1] && s[8] == d[0] && s[9] == d[1];
    Pad4RoundTrip(now.year);
    Pad2RoundTrip(now.month);
    Pad2RoundTrip(now.day);
  }

  /** Two instants share a date string exactly when they fall on the same calendar day. */
  lemma SameStringIffSameDay(a: UtcDateTime, b: UtcDateTime)
    requires ValidInstant(a) && ValidInstant(b)
    ensures GetTodayDateString(a) == GetTodayDateString(b) <==> (a.year, a.month, a.day) == (b.year, b.month, b.day)
  {
    TodayRoundTrip(a);
    TodayRoundTrip(b);
  }

  // ---------------------------------------------------------------------------
  // hasTodayPost

  /** A selected `posts` row (only `id` is selected). */
  datatype IdRow = IdRow(id: string)

  /** `from(table).select(columns).eq(column, value).limit(limit)`. */
  datatype SelectQuery = SelectQuery(table: string, columns: string, eqColumn: string, eqValue: string, limit: nat)

  /** `{ data, error }`: an error, or data that may be null. */
  type QueryResult = Result<Option<seq<IdRow>>, StoreError>

  /** The existence query for posts scheduled on `today`, asking for at most one row. */
  function TodayPostQuery(today: string): (q: SelectQuery)
    ensures q.table == "posts" && q.columns == "id"
    ensures q.eqColumn == "scheduled_date" && q.eqValue == today && q.limit == 1
  {
    SelectQuery("posts", "id", "scheduled_date", today, 1)
  }

  /** Lines 21-22: an error is raised; otherwise true exactly when the data is a non-empty array. */
  function DecidePresence(result: QueryResult): (r: Result<bool, StoreError>)
    ensures result.Failure? <==> r.Failure?
    ensures result.Failure? ==> r.error == result.error
    ensures r == Success(true) <==> result.Success? && result.value.Some? && |result.value.value| > 0
    ensures result == Success(None) ==> r == Success(false)
  {
    match result
    case Failure(e) => Failure(e)
    case Success(data) => Success(data.Some? && |data.value| > 0)
  }

  /**
   * `hasTodayPost`, with the store's answer to the query as an oracle: it asks
   * for posts scheduled on the instant's UTC date, raises the store's error,
   * and otherwise answers whether a row came back.
   */
  function HasTodayPost(now: UtcDateTime, select: SelectQuery -> QueryResult): (r: Result<bool, StoreError>)
    requires ValidInstant(now)
    ensures var result := select(SelectQuery("posts", "id", "scheduled_date", GetTodayDateString(now), 1));
            (r.Failure? <==> result.Failure?) &&
            (result.Failure? ==> r.error == result.error) &&
            (r == Success(true) <==> result.Success? && result.value.Some? && |result.value.value| > 0)
  {
    DecidePresence(select(TodayPostQuery(GetTodayDateString(now))))
  }

  /** A failed existence check is never read as "no post yet". */
  lemma ErrorIsNeverFalse(now: UtcDateTime, select: SelectQuery -> QueryResult)
    requires ValidInstant(now)
    requires select(TodayPostQuery(GetTodayDateString(now))).Failure?
    ensures HasTodayPost(now, select) != Success(false)
    ensures HasTodayPost(now, select) == Failure(select(TodayPostQuery(GetTodayDateString(now))).error)
  {
  }

  /** The gate answers for the calendar day only: two instants of one day ask the same query and get the same answer. */
  lemma GateDependsOnDayOnly(a: UtcDateTime, b: UtcDateTime, select: SelectQuery -> QueryResult)
    requires ValidInstant(a) && ValidInstant(b)
    requires (a.year, a.month, a.day) == (b.year, b.month, b.day)
    ensures TodayPostQuery(GetTodayDateString(a)) == TodayPostQuery(GetTodayDateString(b))
    ensures HasTodayPost(a, select) == HasTodayPost(b, select)
  {
    SameStringIffSameDay(a, b);
  }
}
