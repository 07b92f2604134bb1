/** The admin list filter for events by ISO week: parsing the `sp_week_filter` request
    value, the Monday-to-Sunday range of an ISO week, and adding that range to the
    list query's `date_query`. */
module WeekFilter {
  import opened Wrappers
  import opened Text
  import opened Calendar

  datatype IsoWeek = IsoWeek(year: int, week: int)

  predicate ValidIsoWeek(w: IsoWeek) {
    0 <= w.year <= 9999 && 1 <= w.week <= 53
  }

  /** The alternatives `0[1-9]|[1-4][0-9]|5[0-3]`: the two-digit weeks 01 to 53. */
  predicate WeekDigits(a: char, b: char) {
    (a == '0' && '1' <= b <= '9') || ('1' <= a <= '4' && IsDigit(b)) || (a == '5' && '0' <= b <= '3')
  }

  /** Exactly four digits, `-W`, and a two-digit week 01..53. */
  predicate IsWeekText(s: string) {
    |s| == 8 && IsDigit(s[0]) && IsDigit(s[1]) && IsDigit(s[2]) && IsDigit(s[3])
    && s[4] == '-' && s[5] == 'W' && WeekDigits(s[6], s[7])
  }

  /** The anchored pattern `^(\d{4})-W(0[1-9]|[1-4][0-9]|5[0-3])$`. Without the D modifier,
      PCRE's `$` also matches just before a newline that ends the subject. */
  predicate MatchesWeekPattern(s: string) {
    IsWeekText(s) || (|s| == 9 && s[8] == '\n' && IsWeekText(s[..8]))
  }

  /** The request value (already passed through `sanitize_text_field`) as a year and week,
      or None when it is missing, empty or does not match. */
  function ParseWeekFilter(param: Option<string>): (r: Option<IsoWeek>)
    ensures r.Some? <==> param.Some? && MatchesWeekPattern(param.value)
    ensures r.Some? ==> ValidIsoWeek(r.value)
  {
    if param.None? || IsEmptyString(param.value) then None
    else if !MatchesWeekPattern(param.value) then None
    else
      var s := param.value;
      var year := 1000 * DigitValue(s[0]) + 100 * DigitValue(s[1]) + 10 * DigitValue(s[2]) + DigitValue(s[3]);
      var week := 10 * DigitValue(s[6]) + DigitValue(s[7]);
      Some(IsoWeek(year, week))
  }

  /** The HTML week-input text of a week: `%04d-W%02d`. */
  function FormatWeek(w: IsoWeek): string
    requires ValidIsoWeek(w)
  {
    Pad4(w.year) + "-W" + Pad2(w.week)
  }

  /** Every valid week is accepted in its printed form and parses back to itself. */
  lemma FormatThenParse(w: IsoWeek)
    requires ValidIsoWeek(w)
    ensures ParseWeekFilter(Some(FormatWeek(w))) == Some(w)
  {
    var s := FormatWeek(w);
    var y, k := Pad4(w.year), Pad2(w.week);
    assert s[0] == y[0] && s[1] == y[1] && s[2] == y[2] && s[3] == y[3];
    assert s[4] == '-' && s[5] == 'W' && s[6] == k[0] && s[7] == k[1];
    Pad4Value(w.year);
    Pad2Value(w.week);
    assert IsWeekText(s);
  }

  lemma Pad4Value(n: int)
    requires 0 <= n <= 9999
    ensures var y := Pad4(n);
            1000 * DigitValue(y[0]) + 100 * DigitValue(y[1]) + 10 * DigitValue(y[2]) + DigitValue(y[3]) == n
  {
    var hi, lo := n / 100, n % 100;
    assert 10 * (hi / 10) + hi % 10 == hi;
    assert 10 * (lo / 10) + lo % 10 == lo;
  }

  lemma Pad2Value(n: int)
    requires 1 <= n <= 53
    ensures var k := Pad2(n);
            10 * DigitValue(k[0]) + DigitValue(k[1]) == n && WeekDigits(k[0], k[1])
  {
  }

  /** An accepted value is the printed form of its result, possibly followed by the one
      newline that `$` lets through. */
  lemma ParseThenFormat(s: string)
    requires ParseWeekFilter(Some(s)).Some?
    ensures var w := ParseWeekFilter(Some(s)).value;
            s == FormatWeek(w) || s == FormatWeek(w) + "\n"
  {
    var w := ParseWeekFilter(Some(s)).value;
    var t := if |s| == 8 then s else s[..8];
    assert IsWeekText(t);
    assert w == IsoWeek(1000 * DigitValue(t[0]) + 100 * DigitValue(t[1]) + 10 * DigitValue(t[2]) + DigitValue(t[3]),
                        10 * DigitValue(t[6]) + DigitValue(t[7]));
    WeekTextFormat(t);
    assert |s| == 9 ==> s == t + "\n";
  }

  /** The week text of eight characters is the printed form of the week it denotes. */
  lemma WeekTextFormat(t: string)
    requires IsWeekText(t)
    ensures var w := IsoWeek(1000 * DigitValue(t[0]) + 100 * DigitValue(t[1]) + 10 * DigitValue(t[2]) + DigitValue(t[3]),
                             10 * DigitValue(t[6]) + DigitValue(t[7]));
            ValidIsoWeek(w) && FormatWeek(w) == t
  {
    DigitsRecompose(t[0], t[1], t[2], t[3]);
    DigitsRecompose('0', '0', t[6], t[7]);
    assert t == [t[0], t[1], t[2], t[3]] + "-W" + [t[6], t[7]];
  }

  /** Printing the value of four digits with `%04d` gives back those digits. */
  lemma DigitsRecompose(a: char, b: char, c: char, d: char)
    requires IsDigit(a) && IsDigit(b) && IsDigit(c) && IsDigit(d)
    ensures var n := 1000 * DigitValue(a) + 100 * DigitValue(b) + 10 * DigitValue(c) + DigitValue(d);
            Pad4(n) == [a, b, c, d] && (n <= 99 ==> Pad2(n) == [c, d])
  {
    var va, vb, vc, vd := DigitValue(a), DigitValue(b), DigitValue(c), DigitValue(d);
    var n := 1000 * va + 100 * vb + 10 * vc + vd;
    DivDigits(n, 10 * va + vb, 10 * vc + vd);
    Pad2Digits(a, b);
    Pad2Digits(c, d);
  }

  lemma DivDigits(n: int, q: int, r: int)
    requires n == 100 * q + r && 0 <= r < 100
    ensures n / 100 == q && n % 100 == r
  {
  }

  /** Week 00, week 54, a one-digit week and trailing text are all rejected. */
  lemma ParseRejectsExamples()
    ensures ParseWeekFilter(Some("2026-W00")).None?
    ensures ParseWeekFilter(Some("2026-W54")).None?
    ensures ParseWeekFilter(Some("2026-W7")).None?
    ensures ParseWeekFilter(Some("2026-W07x")).None?
    ensures ParseWeekFilter(Some("")).None? && ParseWeekFilter(None).None?
  {
    assert !WeekDigits('5', '4');
    assert "2026-W07x"[8] != '\n';
  }

  /** Day number of 4 January of year y. */
  function JanuaryFourth(y: int): int {
    DayNumber(Date(y, 1, 4))
  }

  /** Monday of ISO week 1: 4 January minus (its weekday - 1) days, Sunday counting 7. */
  function MondayOfWeekOne(y: int): int {
    JanuaryFourth(y) - (IsoWeekday(JanuaryFourth(y)) - 1)
  }

  /** Monday of week w: seven days per week after Monday of week 1. */
  function WeekMonday(w: IsoWeek): int {
    MondayOfWeekOne(w.year) + 7 * (w.week - 1)
  }

  /** Week 1 is the Monday-to-Sunday week that contains 4 January, which is also the
      week holding the year's first Thursday (section 4.1.4 of ISO 8601:2004). */
  lemma WeekOneIsoDefinition(y: int)
    ensures IsoWeekday(MondayOfWeekOne(y)) == 1
    ensures MondayOfWeekOne(y) <= JanuaryFourth(y) <= MondayOfWeekOne(y) + 6
    ensures var thursday := MondayOfWeekOne(y) + 3;
            IsoWeekday(thursday) == 4 && DaysBeforeYear(y) <= thursday < DaysBeforeYear(y) + 7
  {
    var j := JanuaryFourth(y);
    assert j == DaysBeforeYear(y) + 3;
    MondayOnOrBefore(j);
  }

  /** Stepping back (weekday - 1) days from any day lands on a Monday at most six days earlier. */
  lemma MondayOnOrBefore(j: int)
    ensures var m := j - (IsoWeekday(j) - 1);
            IsoWeekday(m) == 1 && m <= j <= m + 6 && IsoWeekday(m + 3) == 4
  {
    var q := (j + 5) / 7;
    assert j + 5 == 7 * q + (j + 5) % 7;
    var m := j - (IsoWeekday(j) - 1);
    assert m + 5 == 7 * q;
    WeekdayOf(m, q, 0);
    WeekdayOf(m + 3, q, 3);
  }

  /** The weekday of a day that is r days past a multiple of seven (counted from day -5). */
  lemma WeekdayOf(z: int, q: int, r: int)
    requires z + 5 == 7 * q + r && 0 <= r < 7
    ensures IsoWeekday(z) == r + 1
  {
  }

  /** Whole weeks do not change the weekday. */
  lemma WeekdayAfterWeeks(z: int, k: int)
    ensures IsoWeekday(z + 7 * k) == IsoWeekday(z)
  {
    var q := (z + 5) / 7;
    assert z + 5 == 7 * q + (z + 5) % 7;
    WeekdayOf(z + 7 * k, q + k, (z + 5) % 7);
  }

  /** The first and the last day of week w. */
  function WeekRange(w: IsoWeek): (range: (Date, Date))
    ensures ValidDate(range.0) && ValidDate(range.1)
    ensures IsoWeekday(DayNumber(range.0)) == 1 && IsoWeekday(DayNumber(range.1)) == 7
    ensures DayNumber(range.0) == WeekMonday(w) && DayNumber(range.1) == DayNumber(range.0) + 6
  {
    var monday := WeekMonday(w);
    WeekOneIsoDefinition(w.year);
    WeekdayAfterWeeks(MondayOfWeekOne(w.year), w.week - 1);
    WeekdayAfterWeeks(monday, 1);
    var q := (monday + 5) / 7;
    assert monday + 5 == 7 * q;
    WeekdayOf(monday + 6, q, 6);
    (DateOfDay(monday), DateOfDay(monday + 6))
  }

  /** A clause of a WP_Query `date_query`: a bounded range, or a clause set by other code. */
  datatype DateQueryItem =
    | DateRange(after: Date, before: Date, inclusive: bool)
    | OtherClause(text: string)

  /** The `date_query` query variable: a list of clauses, or a value that is not an array. */
  datatype DateQueryVar = Clauses(items: seq<DateQueryItem>) | NotAList

  /** The clause the filter adds for week w: Monday to Sunday, both days included. */
  function WeekClause(w: IsoWeek): (c: DateQueryItem)
    ensures c.DateRange? && c.inclusive
    ensures ValidDate(c.after) && ValidDate(c.before)
    ensures DayNumber(c.after) == WeekMonday(w)
    ensures IsoWeekday(DayNumber(c.after)) == 1 && DayNumber(c.before) == DayNumber(c.after) + 6
  {
    var range := WeekRange(w);
    DateRange(range.0, range.1, true)
  }

  /** The conditions under which the filter touches the query. */
  predicate FilterApplies(isAdmin: bool, isMainQuery: bool, postType: Option<string>, weekParam: Option<string>) {
    isAdmin && isMainQuery && postType == Some("sp_event") && ParseWeekFilter(weekParam).Some?
  }

  /** The clauses already present; a value that is not an array counts as none. */
  function ExistingClauses(q: DateQueryVar): seq<DateQueryItem> {
    if q.Clauses? then q.items else []
  }

  /** The events list query of the admin screen, as far as the filter reads and writes it. */
  class EventListQuery {
    var isMainQuery: bool
    var postType: Option<string>
    var dateQuery: DateQueryVar

    constructor (isMainQuery: bool, postType: Option<string>, dateQuery: DateQueryVar)
      ensures this.isMainQuery == isMainQuery && this.postType == postType && this.dateQuery == dateQuery
    {
      this.isMainQuery := isMainQuery;
      this.postType := postType;
      this.dateQuery := dateQuery;
    }

    /** `pre_get_posts` handler: on the admin main query for events with a valid week,
        append one inclusive Monday-to-Sunday clause; otherwise leave the query alone. */
    method ApplyAdminWeekFilter(isAdmin: bool, weekParam: Option<string>)
      modifies this`dateQuery
      ensures !FilterApplies(isAdmin, isMainQuery, postType, weekParam) ==> dateQuery == old(dateQuery)
      ensures FilterApplies(isAdmin, isMainQuery, postType, weekParam) ==>
                dateQuery == Clauses(ExistingClauses(old(dateQuery)) + [WeekClause(ParseWeekFilter(weekParam).value)])
    {
      if !isAdmin || !isMainQuery {
        return;
      }
      if postType != Some("sp_event") {
        return;
      }
      var parsed := ParseWeekFilter(weekParam);
      if parsed.None? {
        return;
      }
      var range := WeekRange(parsed.value);
      var clauses: seq<DateQueryItem>;
      if dateQuery.Clauses? {
        clauses := dateQuery.items;
      } else {
        clauses := [];
      }
      clauses := clauses + [DateRange(range.0, range.1, true)];
      dateQuery := Clauses(clauses);
    }
  }
}
