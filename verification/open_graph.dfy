/** The Open Graph tags of a single SportsPress event: its title built from the team names,
    the short and long date texts, the status prefixes, the result line with its forfeit
    mark, and the five `<meta>` tags written into the page head. */
module OpenGraph {
  import opened Wrappers
  import opened Text
  import opened Seqs
  import opened Calendar

  // ---------------------------------------------------------------- dates

  /** The local date and time of a post. */
  datatype DateTime = DateTime(date: Date, hour: int, minute: int)

  predicate ValidDateTime(t: DateTime) {
    ValidDate(t.date) && 0 <= t.date.year <= 9999 && 0 <= t.hour <= 23 && 0 <= t.minute <= 59
  }

  /** Format character `D`. */
  function WeekdayAbbreviation(d: Date): string
    requires ValidDate(d)
  {
    ["Mon", "Tue", "Wed", "Thu", "Fri", "Sat", "Sun"][IsoWeekday(DayNumber(d)) - 1]
  }

  /** Format character `F`. */
  function MonthName(m: int): string
    requires 1 <= m <= 12
  {
    ["January", "February", "March", "April", "May", "June", "July",
     "August", "September", "October", "November", "December"][m - 1]
  }

  /** Format character `g`: the hour on a 12-hour clock, 12 for midnight and noon. */
  function Hour12(h: int): (g: int)
    requires 0 <= h <= 23
    ensures 1 <= g <= 12
  {
    if h % 12 == 0 then 12 else h % 12
  }

  /** Format character `A`. */
  function Meridiem(h: int): string {
    if h < 12 then "AM" else "PM"
  }

  /** The 12-hour hour and the meridiem together give back the hour of the day. */
  lemma TwelveHourClock(h: int)
    requires 0 <= h <= 23
    ensures h == Hour12(h) % 12 + (if Meridiem(h) == "PM" then 12 else 0)
  {
  }

  /** `D n/j/y`: weekday, month and day without leading zeros, two-digit year. */
  function ShortDateText(d: Date): string
    requires ValidDate(d) && 0 <= d.year
  {
    WeekdayAbbreviation(d) + " " + NatToString(d.month) + "/" + NatToString(d.day) + "/" + Pad2(d.year % 100)
  }

  /** `gA` when the minutes read "00", otherwise `g:iA`. */
  function ShortTime(t: DateTime): string
    requires ValidDateTime(t)
  {
    if Pad2(t.minute) == "00" then NatToString(Hour12(t.hour)) + Meridiem(t.hour)
    else NatToString(Hour12(t.hour)) + ":" + Pad2(t.minute) + Meridiem(t.hour)
  }

  /** `asc_generate_short_date`: the date part alone, or followed by a space and the time. */
  function ShortDate(t: DateTime, withTime: bool): string
    requires ValidDateTime(t)
  {
    if withTime then ShortDateText(t.date) + " " + ShortTime(t) else ShortDateText(t.date)
  }

  /** `F j, Y g:i A`. */
  function LongDateTime(t: DateTime): string
    requires ValidDateTime(t)
  {
    MonthName(t.date.month) + " " + NatToString(t.date.day) + ", " + Pad4(t.date.year) + " "
      + NatToString(Hour12(t.hour)) + ":" + Pad2(t.minute) + " " + Meridiem(t.hour)
  }

  lemma Pad2Injective(m: int, n: int)
    requires 0 <= m <= 99 && 0 <= n <= 99 && Pad2(m) == Pad2(n)
    ensures m == n
  {
    Pad2RoundTrip(m);
    Pad2RoundTrip(n);
  }

  /** The minutes are shown exactly when they are not zero. */
  lemma MinutesShownUnlessOnTheHour(t: DateTime)
    requires ValidDateTime(t)
    ensures t.minute == 0 ==> ShortTime(t) == NatToString(Hour12(t.hour)) + Meridiem(t.hour)
    ensures t.minute != 0 ==> ShortTime(t) == NatToString(Hour12(t.hour)) + ":" + Pad2(t.minute) + Meridiem(t.hour)
  {
    if t.minute != 0 {
      if Pad2(t.minute) == "00" {
        Pad2Injective(t.minute, 0);
      }
    }
  }

  /** Text made of a digit run and a rest starting with a non-digit splits back uniquely. */
  lemma SplitDigitRun(g1: string, rest1: string, g2: string, rest2: string)
    requires AllDigits(g1) && AllDigits(g2)
    requires rest1 != [] && rest2 != [] && !IsDigit(rest1[0]) && !IsDigit(rest2[0])
    requires g1 + rest1 == g2 + rest2
    ensures g1 == g2 && rest1 == rest2
  {
    assert g1 + rest1 == g1 + [rest1[0]] + rest1[1..];
    assert g2 + rest2 == g2 + [rest2[0]] + rest2[1..];
    DigitRunOfSeparated(g1, rest1[0], rest1[1..]);
    DigitRunOfSeparated(g2, rest2[0], rest2[1..]);
    var s := g1 + rest1;
    assert g1 == s[..|g1|] && rest1 == s[|g1|..];
    assert g2 == s[..|g2|] && rest2 == s[|g2|..];
  }

  /** What follows the hour in the short time: the meridiem, after ":" and the minutes
      unless the time is on the hour. */
  function AfterHour(t: DateTime): (rest: string)
    requires ValidDateTime(t)
    ensures rest != [] && !IsDigit(rest[0])
    ensures (rest[0] == ':') == (t.minute != 0)
  {
    if t.minute == 0 then Meridiem(t.hour) else ":" + Pad2(t.minute) + Meridiem(t.hour)
  }

  lemma AfterHourInjective(t1: DateTime, t2: DateTime)
    requires ValidDateTime(t1) && ValidDateTime(t2) && AfterHour(t1) == AfterHour(t2)
    ensures t1.minute == t2.minute && Meridiem(t1.hour) == Meridiem(t2.hour)
  {
    var r1, r2 := AfterHour(t1), AfterHour(t2);
    if t1.minute != 0 {
      assert t2.minute != 0;
      assert Pad2(t1.minute) == r1[1..3] && Pad2(t2.minute) == r2[1..3];
      Pad2Injective(t1.minute, t2.minute);
      assert Meridiem(t1.hour) == r1[3..] && Meridiem(t2.hour) == r2[3..];
    }
  }

  /** The short time is the hour's digits followed by what comes after the hour. */
  lemma ShortTimeSplit(t: DateTime)
    requires ValidDateTime(t)
    ensures ShortTime(t) == NatToString(Hour12(t.hour)) + AfterHour(t)
  {
    MinutesShownUnlessOnTheHour(t);
  }

  /** The short time text identifies the time of day. */
  lemma ShortTimeInjective(t1: DateTime, t2: DateTime)
    requires ValidDateTime(t1) && ValidDateTime(t2)
    requires ShortTime(t1) == ShortTime(t2)
    ensures t1.hour == t2.hour && t1.minute == t2.minute
  {
    ShortTimeSplit(t1);
    ShortTimeSplit(t2);
    var g1, g2 := NatToString(Hour12(t1.hour)), NatToString(Hour12(t2.hour));
    SplitDigitRun(g1, AfterHour(t1), g2, AfterHour(t2));
    NatToStringInjective(Hour12(t1.hour), Hour12(t2.hour));
    AfterHourInjective(t1, t2);
    TwelveHourClock(t1.hour);
    TwelveHourClock(t2.hour);
  }

  /** 9 February 2026 is a Monday. */
  lemma ShortDateExamples()
    ensures ShortDate(DateTime(Date(2026, 2, 9), 19, 0), true) == "Mon 2/9/26 7PM"
    ensures ShortDate(DateTime(Date(2026, 2, 9), 19, 5), true) == "Mon 2/9/26 7:05PM"
    ensures ShortDate(DateTime(Date(2026, 2, 9), 0, 30), false) == "Mon 2/9/26"
  {
    NinthOfFebruary2026();
    assert Pad2(0) == "00" && Pad2(5) == "05";
    assert NatToString(7) == "7";
  }

  lemma NinthOfFebruary2026()
    ensures ShortDateText(Date(2026, 2, 9)) == "Mon 2/9/26"
  {
    assert DayNumber(Date(2026, 2, 9)) == 740021;
    assert Pad2(26) == "26";
    assert NatToString(2) == "2" && NatToString(9) == "9";
  }

  // ---------------------------------------------------------------- event title

  /** One `sp_team` meta value: a team id, a (possibly nested) list of values, or null. */
  datatype TeamValue = TeamId(id: int) | TeamList(items: seq<TeamValue>) | NoTeam

  /** PHP truthiness of a team value. */
  predicate Truthy(v: TeamValue) {
    match v
    case TeamId(id) => id != 0
    case TeamList(items) => items != []
    case NoTeam => false
  }

  /** `array_filter`: the truthy values, in order. */
  function Truthies(vs: seq<TeamValue>): (r: seq<TeamValue>)
    ensures forall x :: x in r ==> x in vs && Truthy(x)
    ensures forall x :: x in vs && Truthy(x) ==> x in r
  {
    if vs == [] then []
    else (if Truthy(vs[0]) then [vs[0]] else []) + Truthies(vs[1..])
  }

  /** `array_filter` keeps order and multiplicity: it distributes over concatenation and
      keeps exactly the truthy singletons. */
  lemma {:induction false} TruthiesConcat(a: seq<TeamValue>, b: seq<TeamValue>)
    ensures Truthies(a + b) == Truthies(a) + Truthies(b)
  {
    if a == [] {
      assert a + b == b;
    } else {
      var head := if Truthy(a[0]) then [a[0]] else [];
      assert (a + b)[0] == a[0] && (a + b)[1..] == a[1..] + b;
      assert Truthies(a + b) == head + Truthies(a[1..] + b);
      TruthiesConcat(a[1..], b);
      assert Truthies(a) == head + Truthies(a[1..]);
      ConcatAssociative(head, Truthies(a[1..]), Truthies(b));
    }
  }

  lemma {:induction false} TruthiesOfFalsy(vs: seq<TeamValue>)
    requires forall j :: 0 <= j < |vs| ==> !Truthy(vs[j])
    ensures Truthies(vs) == []
  {
    if vs != [] {
      TruthiesOfFalsy(vs[1..]);
    }
  }

  lemma TruthiesOne(v: TeamValue)
    ensures Truthies([v]) == if Truthy(v) then [v] else []
  {
    assert [v][1..] == [];
  }

  /** A list is unwrapped through its first truthy element: the one after only falsy ones. */
  lemma FlattenTakesFirstTruthy(items: seq<TeamValue>, k: int)
    requires 0 <= k < |items| && Truthy(items[k]) && forall j :: 0 <= j < k ==> !Truthy(items[j])
    ensures Flatten(TeamList(items)) == Flatten(items[k])
  {
    TruthiesFromFirst(items, k);
    assert Truthies(items)[0] == items[k];
  }

  /** The truthy values of a list start with its first truthy element. */
  lemma {:induction false} TruthiesFromFirst(items: seq<TeamValue>, k: int)
    requires 0 <= k < |items| && Truthy(items[k]) && forall j :: 0 <= j < k ==> !Truthy(items[j])
    ensures Truthies(items) == [items[k]] + Truthies(items[k + 1..])
    decreases k
  {
    if k > 0 {
      var rest := items[1..];
      assert !Truthy(items[0]);
      assert Truthies(items) == Truthies(rest);
      assert rest[k - 1] == items[k] && rest[k..] == items[k + 1..];
      TruthiesFromFirst(rest, k - 1);
    }
  }

  /** A nested value replaced by its first truthy element until it is no longer a list; a
      list with no truthy element gives null. */
  function Flatten(v: TeamValue): (r: TeamValue)
    ensures !r.TeamList?
    ensures r.TeamId? ==> r.id != 0
  {
    match v
    case TeamList(items) =>
      var f := Truthies(items);
      if f == [] then NoTeam
      else
        assert f[0] in items;
        Flatten(f[0])
    case _ => if Truthy(v) then v else NoTeam
  }

  /** The while loop that unwraps one team value. */
  method FlattenTeam(team: TeamValue) returns (r: TeamValue)
    ensures r == Flatten(team)
  {
    r := team;
    while r.TeamList?
      invariant Flatten(r) == Flatten(team)
      decreases r.TeamList?, r
    {
      var f := Truthies(r.items);
      if f == [] {
        r := NoTeam;
      } else {
        assert f[0] in r.items;
        r := f[0];
      }
    }
    if !Truthy(r) {
      r := NoTeam;
    }
  }

  /** `sp_team_short_name` for the ids the site knows; "" for the others. */
  function ShortName(names: map<int, string>, id: int): string {
    if id in names then names[id] else ""
  }

  /** The short name of each value that flattens to a positive id, in order (repeats kept):
      the `foreach` that fills `$team_names`. */
  function NamesOf(teams: seq<TeamValue>, names: map<int, string>): seq<string> {
    if teams == [] then []
    else
      var f := Flatten(teams[|teams| - 1]);
      NamesOf(teams[..|teams| - 1], names) + (if f.TeamId? && f.id > 0 then [ShortName(names, f.id)] else [])
  }

  /** The names collected for an event's `sp_team` values. */
  function TeamNames(teams: seq<TeamValue>, names: map<int, string>): seq<string> {
    NamesOf(Truthies(teams), names)
  }

  /** `get_option('sportspress_event_reverse_teams', 'no') === 'yes'`. */
  predicate ReverseTeams(option: Option<string>) {
    option.GetOr("no") == "yes"
  }

  /** The names shown in the title: each once, by first occurrence, reversed when the
      option says so. */
  function TitleNames(teams: seq<TeamValue>, names: map<int, string>, reverseOption: Option<string>): seq<string> {
    var unique := Dedupe(TeamNames(teams, names));
    if ReverseTeams(reverseOption) then Reverse(unique) else unique
  }

  /** The title of an event from its team names, joined with " vs " or the configured
      delimiter. */
  function EventTitleOf(teams: seq<TeamValue>, names: map<int, string>,
                        reverseOption: Option<string>, delimiterOption: Option<string>): string {
    Join(TitleNames(teams, names, reverseOption), " " + delimiterOption.GetOr("vs") + " ")
  }

  /** What `asc_generate_sp_event_title` reads of a post. */
  datatype EventPost = EventPost(id: nat, postType: string, teams: seq<TeamValue>,
                                 when: DateTime, content: string, spStatus: string)

  /** `asc_generate_sp_event_title`: the page title for a missing post or one that is not
      an event, otherwise the title built from its teams. */
  function EventTitle(post: Option<EventPost>, pageTitle: string, names: map<int, string>,
                      reverseOption: Option<string>, delimiterOption: Option<string>): string {
    if post.None? || post.value.postType != "sp_event" then pageTitle
    else EventTitleOf(post.value.teams, names, reverseOption, delimiterOption)
  }

  /** A missing post, or a post that is not an event, is titled with the page title; an event
      with its teams. */
  lemma EventTitleCases(post: Option<EventPost>, pageTitle: string, names: map<int, string>,
                        reverseOption: Option<string>, delimiterOption: Option<string>)
    ensures post.None? || post.value.postType != "sp_event" ==>
              EventTitle(post, pageTitle, names, reverseOption, delimiterOption) == pageTitle
    ensures post.Some? && post.value.postType == "sp_event" ==>
              var all := TeamNames(post.value.teams, names);
              exists shown: seq<string> ::
                && EventTitle(post, pageTitle, names, reverseOption, delimiterOption)
                   == Join(shown, " " + delimiterOption.GetOr("vs") + " ")
                && Distinct(shown)
                && (forall n :: n in shown <==> n in all)
                && (!ReverseTeams(reverseOption) ==> shown == Dedupe(all))
                && (ReverseTeams(reverseOption) ==> Reverse(shown) == Dedupe(all))
  {
    if post.Some? && post.value.postType == "sp_event" {
      var shown := TitleNames(post.value.teams, names, reverseOption);
      TitleNamesSpec(post.value.teams, names, reverseOption);
      assert EventTitle(post, pageTitle, names, reverseOption, delimiterOption)
             == Join(shown, " " + delimiterOption.GetOr("vs") + " ");
    }
  }

  /** The loop of `asc_generate_sp_event_title` that collects the names, then the
      de-duplication, the optional reversal and the join. */
  method BuildEventTitle(teams: seq<TeamValue>, names: map<int, string>,
                         reverseOption: Option<string>, delimiterOption: Option<string>)
    returns (title: string)
    ensures title == EventTitleOf(teams, names, reverseOption, delimiterOption)
  {
    var teamNames := CollectTeamNames(Truthies(teams), names);
    var unique := Dedupe(teamNames);
    if ReverseTeams(reverseOption) {
      unique := Reverse(unique);
    }
    title := Join(unique, " " + delimiterOption.GetOr("vs") + " ");
  }

  /** The `foreach` over the filtered team values. */
  method CollectTeamNames(filtered: seq<TeamValue>, names: map<int, string>) returns (teamNames: seq<string>)
    ensures teamNames == NamesOf(filtered, names)
  {
    teamNames := [];
    for i := 0 to |filtered|
      invariant teamNames == NamesOf(filtered[..i], names)
    {
      ghost var next := filtered[..i + 1];
      assert next[..i] == filtered[..i] && next[i] == filtered[i];
      var team := FlattenTeam(filtered[i]);
      if team.TeamId? && team.id > 0 {
        teamNames := teamNames + [ShortName(names, team.id)];
      }
    }
    assert filtered[..|filtered|] == filtered;
  }

  lemma {:induction false} TruthiesOfTruthy(vs: seq<TeamValue>)
    requires forall i :: 0 <= i < |vs| ==> Truthy(vs[i])
    ensures Truthies(vs) == vs
  {
    if vs != [] {
      TruthiesOfTruthy(vs[1..]);
    }
  }

  /** Which names the title holds: exactly the short names of the positive team values,
      each once; in first-occurrence order, or the reverse of it when the option is 'yes'. */
  lemma TitleNamesSpec(teams: seq<TeamValue>, names: map<int, string>, reverseOption: Option<string>)
    ensures var shown := TitleNames(teams, names, reverseOption);
            && Distinct(shown)
            && (forall n :: n in shown ==> n in TeamNames(teams, names))
            && (forall n :: n in TeamNames(teams, names) ==> n in shown)
            && (!ReverseTeams(reverseOption) ==> shown == Dedupe(TeamNames(teams, names)))
            && (ReverseTeams(reverseOption) ==> Reverse(shown) == Dedupe(TeamNames(teams, names)))
  {
    var all := TeamNames(teams, names);
    var unique := Dedupe(all);
    DedupeSpec(all);
    if ReverseTeams(reverseOption) {
      ReverseMembers(unique);
      ReverseDistinct(unique);
      ReverseReverse(unique);
    }
  }

  /** Each collected name is the short name of a value that flattens to a positive id. */
  lemma {:induction false} NamesFromPositiveIds(teams: seq<TeamValue>, names: map<int, string>, n: string)
    requires n in NamesOf(teams, names)
    ensures exists i :: 0 <= i < |teams| && Flatten(teams[i]).TeamId? && Flatten(teams[i]).id > 0
                        && ShortName(names, Flatten(teams[i]).id) == n
  {
    var k := |teams| - 1;
    var p := teams[..k];
    var f := Flatten(teams[k]);
    if n in NamesOf(p, names) {
      NamesFromPositiveIds(p, names, n);
      var i :| 0 <= i < |p| && Flatten(p[i]).TeamId? && Flatten(p[i]).id > 0 && ShortName(names, Flatten(p[i]).id) == n;
      assert teams[i] == p[i];
    } else {
      assert f.TeamId? && f.id > 0 && ShortName(names, f.id) == n;
    }
  }

  /** Every value that flattens to a positive id contributes its short name. */
  lemma {:induction false} PositiveIdsNamed(teams: seq<TeamValue>, names: map<int, string>, i: int)
    requires 0 <= i < |teams| && Flatten(teams[i]).TeamId? && Flatten(teams[i]).id > 0
    ensures ShortName(names, Flatten(teams[i]).id) in NamesOf(teams, names)
  {
    var k := |teams| - 1;
    if i < k {
      assert teams[..k][i] == teams[i];
      PositiveIdsNamed(teams[..k], names, i);
    }
  }

  /** Two different teams with default options: "A vs B", or "B vs A" when reversed. */
  lemma TwoTeamTitle(a: int, b: int, names: map<int, string>, reverseOption: Option<string>)
    requires a > 0 && b > 0 && ShortName(names, a) != ShortName(names, b)
    ensures var title := EventTitleOf([TeamId(a), TeamId(b)], names, reverseOption, None);
            if ReverseTeams(reverseOption) then title == ShortName(names, b) + " vs " + ShortName(names, a)
            else title == ShortName(names, a) + " vs " + ShortName(names, b)
  {
    var na, nb := ShortName(names, a), ShortName(names, b);
    TwoTeamNames(a, b, names);
    var shown := TitleNames([TeamId(a), TeamId(b)], names, reverseOption);
    assert shown == (if ReverseTeams(reverseOption) then [nb, na] else [na, nb]);
    assert " " + None.GetOr("vs") + " " == " vs ";
    JoinTwo(shown[0], shown[1], " vs ");
    assert shown == [shown[0], shown[1]];
  }

  lemma TwoTeamNames(a: int, b: int, names: map<int, string>)
    requires a > 0 && b > 0 && ShortName(names, a) != ShortName(names, b)
    ensures Dedupe(TeamNames([TeamId(a), TeamId(b)], names)) == [ShortName(names, a), ShortName(names, b)]
  {
    var teams := [TeamId(a), TeamId(b)];
    TruthiesOfTruthy(teams);
    assert teams[..1] == [TeamId(a)];
    assert [TeamId(a)][..0] == [];
    var na, nb := ShortName(names, a), ShortName(names, b);
    assert NamesOf([TeamId(a)], names) == [na];
    assert NamesOf(teams, names) == [na, nb];
    DedupeOfDistinct([na, nb]);
  }

  lemma JoinTwo(x: string, y: string, sep: string)
    ensures Join([x, y], sep) == x + sep + y
  {
    assert [x, y][1..] == [y];
  }

  // ---------------------------------------------------------------- results

  /** The `outcome` entry of a result row: a list of outcome slugs, or something else. */
  datatype OutcomeList = Slugs(slugs: seq<string>) | NotAList

  /** One row of `$event->results()`: an empty array, or a row with its outcome entry and
      its `r` score text ("" when absent). */
  datatype ResultRow = EmptyRow | Row(outcome: OutcomeList, r: string)

  /** A row of the results array under its key: 0 for the label row, a team id otherwise. */
  datatype ResultEntry = ResultEntry(key: int, row: ResultRow)

  /** An `sp_outcome` page: its title and its `sp_abbreviation` meta ("" when unset). */
  datatype OutcomePage = OutcomePage(title: string, abbreviation: string)

  /** What the loop records of one team. */
  datatype TeamRecord = TeamRecord(r: string, outcome: string, outcomeAbbreviation: string, teamName: string)

  /** `unset($data[0])` then `array_filter`: the team rows that are not empty. */
  function DataRows(results: seq<ResultEntry>): (rows: seq<ResultEntry>)
    ensures forall e :: e in rows <==> e in results && e.key != 0 && e.row.Row?
  {
    if results == [] then []
    else (if results[0].key != 0 && results[0].row.Row? then [results[0]] else []) + DataRows(results[1..])
  }

  /** The filter keeps order and multiplicity: it distributes over concatenation and keeps
      exactly the non-empty rows of team keys. */
  lemma {:induction false} DataRowsConcat(a: seq<ResultEntry>, b: seq<ResultEntry>)
    ensures DataRows(a + b) == DataRows(a) + DataRows(b)
  {
    if a == [] {
      assert a + b == b;
    } else {
      var head := if a[0].key != 0 && a[0].row.Row? then [a[0]] else [];
      assert (a + b)[0] == a[0] && (a + b)[1..] == a[1..] + b;
      assert DataRows(a + b) == head + DataRows(a[1..] + b);
      DataRowsConcat(a[1..], b);
      assert DataRows(a) == head + DataRows(a[1..]);
      ConcatAssociative(head, DataRows(a[1..]), DataRows(b));
    }
  }

  lemma DataRowsOne(e: ResultEntry)
    ensures DataRows([e]) == if e.key != 0 && e.row.Row? then [e] else []
  {
    assert [e][1..] == [];
  }

  /** `get_page_by_path(slug, OBJECT, 'sp_outcome')`. */
  function FindOutcome(pages: map<string, OutcomePage>, slug: string): Option<OutcomePage> {
    if slug in pages then Some(pages[slug]) else None
  }

  /** `$the_outcome` after one row: the page of the row's last slug (null when not found);
      a row with no slugs leaves the previous row's value in place. */
  function NextOutcome(outcome: OutcomeList, pages: map<string, OutcomePage>, current: Option<OutcomePage>): Option<OutcomePage> {
    if outcome.Slugs? && outcome.slugs != [] then FindOutcome(pages, outcome.slugs[|outcome.slugs| - 1])
    else current
  }

  /** `sp_substr(title, 0, 1)`. */
  function FirstChar(s: string): (r: string)
    ensures |r| <= 1 && r <= s
  {
    if s == [] then [] else [s[0]]
  }

  /** The record of one row given the outcome in effect: the page's abbreviation, or the
      first character of its title when that is empty; a null outcome gives "" for both. */
  function RecordOf(e: ResultEntry, outcome: Option<OutcomePage>, names: map<int, string>): TeamRecord {
    var title := if outcome.Some? then outcome.value.title else "";
    var abbreviation := if outcome.Some? then outcome.value.abbreviation else "";
    TeamRecord(if e.row.Row? then e.row.r else "", title,
               if IsEmptyString(abbreviation) then FirstChar(title) else abbreviation,
               ShortName(names, e.key))
  }

  /** The records of the rows in order, `$the_outcome` carried from each row to the next. */
  function TeamRecords(rows: seq<ResultEntry>, pages: map<string, OutcomePage>, names: map<int, string>,
                       current: Option<OutcomePage>): (records: seq<TeamRecord>)
    ensures |records| == |rows|
  {
    if rows == [] then []
    else
      var outcome := if rows[0].row.Row? then NextOutcome(rows[0].row.outcome, pages, current) else current;
      [RecordOf(rows[0], outcome, names)] + TeamRecords(rows[1..], pages, names, outcome)
  }

  /** The `foreach` over the data rows. */
  method BuildTeamRecords(rows: seq<ResultEntry>, pages: map<string, OutcomePage>, names: map<int, string>)
    returns (records: seq<TeamRecord>)
    ensures records == TeamRecords(rows, pages, names, None)
  {
    records := [];
    var theOutcome: Option<OutcomePage> := None;
    for i := 0 to |rows|
      invariant records + TeamRecords(rows[i..], pages, names, theOutcome) == TeamRecords(rows, pages, names, None)
    {
      ghost var before := theOutcome;
      var row := rows[i].row;
      if row.Row? && row.outcome.Slugs? {
        theOutcome := LookUpOutcomes(row.outcome.slugs, pages, theOutcome);
      }
      assert theOutcome == if row.Row? then NextOutcome(row.outcome, pages, before) else before;
      TeamRecordsStep(rows, i, pages, names, before);
      ghost var later := TeamRecords(rows[i + 1..], pages, names, theOutcome);
      ghost var record := RecordOf(rows[i], theOutcome, names);
      assert TeamRecords(rows[i..], pages, names, before) == [record] + later;
      ConcatAssociative(records, [record], later);
      records := records + [RecordOf(rows[i], theOutcome, names)];
    }
  }

  lemma ConcatAssociative<T>(a: seq<T>, b: seq<T>, c: seq<T>)
    ensures a + (b + c) == (a + b) + c
  {
  }

  lemma TeamRecordsStep(rows: seq<ResultEntry>, i: int, pages: map<string, OutcomePage>,
                        names: map<int, string>, current: Option<OutcomePage>)
    requires 0 <= i < |rows|
    ensures var outcome := if rows[i].row.Row? then NextOutcome(rows[i].row.outcome, pages, current) else current;
            TeamRecords(rows[i..], pages, names, current)
            == [RecordOf(rows[i], outcome, names)] + TeamRecords(rows[i + 1..], pages, names, outcome)
  {
    assert rows[i..][0] == rows[i] && rows[i..][1..] == rows[i + 1..];
  }

  /** The inner `foreach` over one row's outcome slugs: each lookup overwrites `$the_outcome`. */
  method LookUpOutcomes(slugs: seq<string>, pages: map<string, OutcomePage>, before: Option<OutcomePage>)
    returns (theOutcome: Option<OutcomePage>)
    ensures theOutcome == NextOutcome(Slugs(slugs), pages, before)
  {
    theOutcome := before;
    for j := 0 to |slugs|
      invariant theOutcome == if j == 0 then before else FindOutcome(pages, slugs[j - 1])
    {
      theOutcome := FindOutcome(pages, slugs[j]);
    }
  }

  /** Every row that names outcomes gets the page of its own last slug. */
  lemma {:induction false} OwnOutcome(rows: seq<ResultEntry>, pages: map<string, OutcomePage>,
                                      names: map<int, string>, current: Option<OutcomePage>, i: int)
    requires 0 <= i < |rows| && rows[i].row.Row? && rows[i].row.outcome.Slugs? && rows[i].row.outcome.slugs != []
    ensures var slugs := rows[i].row.outcome.slugs;
            TeamRecords(rows, pages, names, current)[i] == RecordOf(rows[i], FindOutcome(pages, slugs[|slugs| - 1]), names)
  {
    var outcome := if rows[0].row.Row? then NextOutcome(rows[0].row.outcome, pages, current) else current;
    TeamRecordsAt(rows, pages, names, current, i);
    if i > 0 {
      assert rows[1..][i - 1] == rows[i];
      OwnOutcome(rows[1..], pages, names, outcome, i - 1);
    }
  }

  /** The record at position i: the first row's, or the (i-1)-th of the rest. */
  lemma TeamRecordsAt(rows: seq<ResultEntry>, pages: map<string, OutcomePage>,
                      names: map<int, string>, current: Option<OutcomePage>, i: int)
    requires 0 <= i < |rows|
    ensures var outcome := if rows[0].row.Row? then NextOutcome(rows[0].row.outcome, pages, current) else current;
            TeamRecords(rows, pages, names, current)[i]
            == if i == 0 then RecordOf(rows[0], outcome, names) else TeamRecords(rows[1..], pages, names, outcome)[i - 1]
  {
  }

  /** A row without outcome slugs reports the outcome of the row before it. */
  lemma StaleOutcome(rows: seq<ResultEntry>, pages: map<string, OutcomePage>, names: map<int, string>, page: OutcomePage)
    requires |rows| == 2 && rows[0].row.Row? && rows[0].row.outcome.Slugs?
    requires var slugs := rows[0].row.outcome.slugs; slugs != [] && FindOutcome(pages, slugs[|slugs| - 1]) == Some(page)
    requires rows[1].row.Row? && (rows[1].row.outcome.NotAList? || rows[1].row.outcome.slugs == [])
    ensures TeamRecords(rows, pages, names, None)[1].outcome == page.title
  {
    assert rows[1..][0] == rows[1];
  }

  // ---------------------------------------------------------------- forfeit suffix

  datatype Suffix = Suffix(abbreviation: string, text: string)

  const NoSuffix: Suffix := Suffix("", "")

  /** The suffix an upper-cased outcome abbreviation calls for, if any. */
  function SuffixOf(outcomeAbbreviation: string): (s: Option<Suffix>)
    ensures s.Some? ==> s.value != NoSuffix && !IsEmptyString(s.value.text)
  {
    var a := Upper(outcomeAbbreviation);
    if a == "TF-W" then Some(Suffix("TF-W", "Technical Forfeit Win"))
    else if a == "TF-L" then Some(Suffix("TF", "Technical Forfeit"))
    else if a == "F-W" || a == "F-L" then Some(Suffix("Forfeit", "Forfeit"))
    else None
  }

  /** The suffix of the first team whose outcome calls for one; none when no team does. */
  function ForfeitSuffix(records: seq<TeamRecord>): Suffix {
    if records == [] then NoSuffix
    else
      match SuffixOf(records[0].outcomeAbbreviation)
      case Some(s) => s
      case None => ForfeitSuffix(records[1..])
  }

  /** No team's outcome calls for a suffix. */
  predicate NoForfeit(records: seq<TeamRecord>) {
    forall i :: 0 <= i < |records| ==> SuffixOf(records[i].outcomeAbbreviation).None?
  }

  /** Team k is the first whose outcome calls for a suffix. */
  predicate FirstForfeit(records: seq<TeamRecord>, k: int) {
    && 0 <= k < |records| && SuffixOf(records[k].outcomeAbbreviation).Some?
    && forall j :: 0 <= j < k ==> SuffixOf(records[j].outcomeAbbreviation).None?
  }

  /** First match: there is no suffix exactly when no team calls for one, and otherwise it is
      the suffix of the earliest team that does. */
  lemma {:induction false} ForfeitSuffixFirstMatch(records: seq<TeamRecord>)
    ensures ForfeitSuffix(records) == NoSuffix ==> NoForfeit(records)
    ensures NoForfeit(records) ==> ForfeitSuffix(records) == NoSuffix
    ensures ForfeitSuffix(records) != NoSuffix ==>
              exists k :: FirstForfeit(records, k) && SuffixOf(records[k].outcomeAbbreviation) == Some(ForfeitSuffix(records))
  {
    if records != [] && SuffixOf(records[0].outcomeAbbreviation).None? {
      ForfeitSuffixFirstMatch(records[1..]);
      if ForfeitSuffix(records) != NoSuffix {
        var k :| FirstForfeit(records[1..], k) && SuffixOf(records[1..][k].outcomeAbbreviation) == Some(ForfeitSuffix(records));
        assert FirstForfeit(records, k + 1);
      }
      forall i | 1 <= i < |records| ensures records[i] == records[1..][i - 1] {
      }
    } else if records != [] {
      assert FirstForfeit(records, 0);
    }
  }

  /** The suffix is the one of the first team that calls for one. */
  lemma SuffixOfFirstForfeit(records: seq<TeamRecord>, k: int)
    requires FirstForfeit(records, k)
    ensures ForfeitSuffix(records) == SuffixOf(records[k].outcomeAbbreviation).value
  {
    SkipNonForfeits(records, k);
    assert records[k..][0] == records[k];
  }

  lemma {:induction false} SkipNonForfeits(records: seq<TeamRecord>, i: int)
    requires 0 <= i <= |records|
    requires forall j :: 0 <= j < i ==> SuffixOf(records[j].outcomeAbbreviation).None?
    ensures ForfeitSuffix(records) == ForfeitSuffix(records[i..])
  {
    if i > 0 {
      assert records[1..][i - 1..] == records[i..];
      SkipNonForfeits(records[1..], i - 1);
    }
  }

  /** The break-on-first-match loop over the team records. */
  method FindForfeitSuffix(records: seq<TeamRecord>) returns (suffix: Suffix)
    ensures suffix == ForfeitSuffix(records)
  {
    suffix := NoSuffix;
    var i := 0;
    while i < |records|
      invariant 0 <= i <= |records|
      invariant forall j :: 0 <= j < i ==> SuffixOf(records[j].outcomeAbbreviation).None?
    {
      var s := SuffixOf(records[i].outcomeAbbreviation);
      if s.Some? {
        SkipNonForfeits(records, i);
        suffix := s.value;
        return;
      }
      i := i + 1;
    }
    SkipNonForfeits(records, i);
  }

  /** `$teams_result_array[i]`, with every field "" when there is no such team. */
  function RecordAt(records: seq<TeamRecord>, i: nat): TeamRecord {
    if i < |records| then records[i] else TeamRecord("", "", "", "")
  }

  const Dash: string := " \U{2014} "

  /** The result line of a finished event: the first two teams with their scores, then the
      short date. */
  function ResultLine(records: seq<TeamRecord>, date: string): string {
    var t0, t1 := RecordAt(records, 0), RecordAt(records, 1);
    t0.teamName + " " + t0.r + "-" + t1.r + " " + t1.teamName + Dash + date
  }

  /** The title of a finished event: the result line, then the forfeit abbreviation in
      parentheses when there is a suffix. */
  function ResultTitle(records: seq<TeamRecord>, date: string, suffix: Suffix): string {
    ResultLine(records, date) + (if !IsEmptyString(suffix.text) then "(" + suffix.abbreviation + ")" else "")
  }

  /** The forfeit mark is appended exactly when some team's outcome calls for one, and it is
      the mark of the first such team. */
  lemma ForfeitMark(records: seq<TeamRecord>, date: string, k: int)
    ensures NoForfeit(records) ==> ResultTitle(records, date, ForfeitSuffix(records)) == ResultLine(records, date)
    ensures FirstForfeit(records, k) ==>
              ResultTitle(records, date, ForfeitSuffix(records))
              == ResultLine(records, date) + "(" + SuffixOf(records[k].outcomeAbbreviation).value.abbreviation + ")"
  {
    ForfeitSuffixFirstMatch(records);
    if FirstForfeit(records, k) {
      SuffixOfFirstForfeit(records, k);
    }
  }

  /** The sentence added to the description: each of the first two teams with its outcome. */
  function ResultSummary(records: seq<TeamRecord>): string {
    var t0, t1 := RecordAt(records, 0), RecordAt(records, 1);
    " " + t0.teamName + " (" + t0.outcome + "), " + t1.teamName + " (" + t1.outcome + ")."
  }

  // ---------------------------------------------------------------- the tags

  /** What the handler reads from SportsPress about the event: `$event->status()`, the name of
      its first venue term (none when it has no venue) and `$event->results()`. */
  datatype EventInfo = EventInfo(status: string, venue: Option<string>, results: seq<ResultEntry>)

  /** Site-wide inputs: the two team-order options, the site URL, the permalink of the page,
      the teams' short names and the outcome pages by slug. */
  datatype SiteInfo = SiteInfo(reverseOption: Option<string>, delimiterOption: Option<string>,
                               siteUrl: string, permalink: string,
                               shortNames: map<int, string>, outcomes: map<string, OutcomePage>)

  datatype MetaTag = MetaTag(property: string, content: string)

  /** Nothing printed (not a single event page), `return false` (a finished event without
      result rows), or the tags printed, in order. */
  datatype OpenGraphOutput = NoTags | ReturnedFalse | Tags(tags: seq<MetaTag>)

  /** The `sp_status` values that prefix the title and the description. */
  predicate IsHeldStatus(spStatus: string) {
    spStatus == "postponed" || spStatus == "cancelled" || spStatus == "tbd"
  }

  function VenueName(venue: Option<string>): string {
    venue.GetOr("Venue TBD")
  }

  /** The preview image of the event, served by the head-to-head endpoint. */
  function HeadToHeadUrl(siteUrl: string, id: nat): string {
    siteUrl + "/head-to-head?post=" + NatToString(id)
  }

  /** The description before the result sentence and the post content. */
  function DescriptionHead(post: EventPost, info: EventInfo): string
    requires ValidDateTime(post.when)
  {
    var description := LongDateTime(post.when) + " at " + VenueName(info.venue) + ".";
    if IsHeldStatus(post.spStatus) then Upper(post.spStatus) + Dash + description else description
  }

  /** The title of an event without a final score: the event title, prefixed with the status
      and followed by the date and venue when it is held up, and followed by the date and
      venue (again) when its status is `future`. */
  function ScheduledTitle(post: EventPost, info: EventInfo, site: SiteInfo): string
    requires ValidDateTime(post.when)
  {
    var title := EventTitleOf(post.teams, site.shortNames, site.reverseOption, site.delimiterOption);
    var venue := VenueName(info.venue);
    var when := ShortDate(post.when, true);
    var held := if IsHeldStatus(post.spStatus) then Upper(post.spStatus) + Dash + title + Dash + when + Dash + venue else title;
    if info.status == "future" then held + Dash + when + Dash + venue else held
  }

  function MetaTags(post: EventPost, site: SiteInfo, title: string, description: string): seq<MetaTag> {
    [MetaTag("og:type", "article"), MetaTag("og:image", HeadToHeadUrl(site.siteUrl, post.id)),
     MetaTag("og:title", title), MetaTag("og:description", description), MetaTag("og:url", site.permalink)]
  }

  /** The data rows in display order. */
  function OrderedRows(results: seq<ResultEntry>, reverseOption: Option<string>): seq<ResultEntry> {
    if ReverseTeams(reverseOption) then Reverse(DataRows(results)) else DataRows(results)
  }

  /** `custom_open_graph_tags_with_sportspress_integration` on one page view. */
  function OpenGraphTags(isSingle: bool, post: EventPost, info: EventInfo, site: SiteInfo): OpenGraphOutput
    requires ValidDateTime(post.when)
  {
    if !isSingle || post.postType != "sp_event" then NoTags
    else if info.status == "results" then
      if DataRows(info.results) == [] then ReturnedFalse
      else
        var records := TeamRecords(OrderedRows(info.results, site.reverseOption), site.outcomes, site.shortNames, None);
        var title := ResultTitle(records, ShortDate(post.when, false), ForfeitSuffix(records));
        Tags(MetaTags(post, site, title, DescriptionHead(post, info) + ResultSummary(records) + " " + post.content))
    else
      Tags(MetaTags(post, site, ScheduledTitle(post, info, site), DescriptionHead(post, info) + " " + post.content))
  }

  /** The handler, step by step in the order it computes and prints. */
  method EmitOpenGraphTags(isSingle: bool, post: EventPost, info: EventInfo, site: SiteInfo)
    returns (output: OpenGraphOutput)
    requires ValidDateTime(post.when)
    ensures output == OpenGraphTags(isSingle, post, info, site)
  {
    if !isSingle || post.postType != "sp_event" {
      return NoTags;
    }
    var venueName := VenueName(info.venue);
    var title := BuildEventTitle(post.teams, site.shortNames, site.reverseOption, site.delimiterOption);
    var description := LongDateTime(post.when) + " at " + venueName + ".";
    if IsHeldStatus(post.spStatus) {
      description := Upper(post.spStatus) + Dash + description;
      title := Upper(post.spStatus) + Dash + title + Dash + ShortDate(post.when, true) + Dash + venueName;
    }
    if info.status == "future" {
      title := title + Dash + ShortDate(post.when, true) + Dash + venueName;
    }
    if info.status == "results" {
      var data := DataRows(info.results);
      if data == [] {
        return ReturnedFalse;
      }
      if ReverseTeams(site.reverseOption) {
        data := Reverse(data);
      }
      var records := BuildTeamRecords(data, site.outcomes, site.shortNames);
      var publishDate := ShortDate(post.when, false);
      var suffix := FindForfeitSuffix(records);
      title := ResultTitle(records, publishDate, suffix);
      description := description + ResultSummary(records);
    }
    description := description + " " + post.content;
    output := Tags(MetaTags(post, site, title, description));
  }

  /** When tags are printed there are five, in the order type, image, title, description, url;
      nothing is printed off single event pages, and `false` is returned exactly for a
      finished event whose results have no data row. */
  lemma TagsEmitted(isSingle: bool, post: EventPost, info: EventInfo, site: SiteInfo)
    requires ValidDateTime(post.when)
    ensures var output := OpenGraphTags(isSingle, post, info, site);
            && (output.NoTags? <==> !isSingle || post.postType != "sp_event")
            && (output.ReturnedFalse? <==>
                  isSingle && post.postType == "sp_event" && info.status == "results" && DataRows(info.results) == [])
            && (output.Tags? ==>
                  && |output.tags| == 5
                  && output.tags[0] == MetaTag("og:type", "article")
                  && output.tags[1] == MetaTag("og:image", site.siteUrl + "/head-to-head?post=" + NatToString(post.id))
                  && output.tags[2].property == "og:title"
                  && output.tags[3].property == "og:description"
                  && output.tags[4] == MetaTag("og:url", site.permalink))
  {
    var output := OpenGraphTags(isSingle, post, info, site);
    if output.Tags? {
      var title := output.tags[2].content;
      var description := output.tags[3].content;
      assert output.tags == MetaTags(post, site, title, description);
    }
  }

  lemma PrefixExtends(p: string, a: string, b: string)
    requires p <= a
    ensures p <= a + b
  {
    assert (a + b)[..|a|] == a;
  }

  /** A postponed, cancelled or to-be-decided event has its upper-cased status and a dash in
      front of its description, and in front of its title unless the title is a result. */
  lemma HeldStatusPrefix(post: EventPost, info: EventInfo, site: SiteInfo)
    requires ValidDateTime(post.when) && post.postType == "sp_event" && IsHeldStatus(post.spStatus)
    requires !(info.status == "results" && DataRows(info.results) == [])
    ensures var output := OpenGraphTags(true, post, info, site);
            && output.Tags?
            && Upper(post.spStatus) + Dash <= output.tags[3].content
            && (info.status != "results" ==> Upper(post.spStatus) + Dash <= output.tags[2].content)
  ensures info.status != "results" ==> HeldTags(OpenGraphTags(true, post, info, site), post, info, site)
  {
    var prefix := Upper(post.spStatus) + Dash;
    var head := DescriptionHead(post, info);
    PrefixExtends(prefix, prefix, LongDateTime(post.when) + " at " + VenueName(info.venue) + ".");
    assert prefix <= head;
    if info.status == "results" {
      var records := TeamRecords(OrderedRows(info.results, site.reverseOption), site.outcomes, site.shortNames, None);
      PrefixExtends(prefix, head, ResultSummary(records));
      PrefixExtends(prefix, head + ResultSummary(records), " " + post.content);
      assert prefix <= head + ResultSummary(records) + " " + post.content;
    } else {
      PrefixExtends(prefix, head, " " + post.content);
      assert prefix <= head + " " + post.content;
      var title := EventTitleOf(post.teams, site.shortNames, site.reverseOption, site.delimiterOption);
      var when := ShortDate(post.when, true);
      var venue := VenueName(info.venue);
      var held := prefix + title + Dash + when + Dash + venue;
      PrefixExtends(prefix, prefix, title);
      PrefixExtends(prefix, prefix + title, Dash);
      PrefixExtends(prefix, prefix + title + Dash, when);
      PrefixExtends(prefix, prefix + title + Dash + when, Dash);
      PrefixExtends(prefix, prefix + title + Dash + when + Dash, venue);
      assert prefix <= held;
      PrefixExtends(prefix, held, Dash);
      PrefixExtends(prefix, held + Dash, when);
      PrefixExtends(prefix, held + Dash + when, Dash);
      PrefixExtends(prefix, held + Dash + when + Dash, venue);
      assert prefix <= ScheduledTitle(post, info, site);
      HeldTagsOfSchedule(post, info, site);
    }
  }

  /** The title and description of a held event that has no result: the status, then the
      teams, short date and venue; a future event repeats the date and venue. */
  predicate HeldTags(output: OpenGraphOutput, post: EventPost, info: EventInfo, site: SiteInfo)
    requires ValidDateTime(post.when)
  {
    var title := EventTitleOf(post.teams, site.shortNames, site.reverseOption, site.delimiterOption);
    var when := ShortDate(post.when, true);
    var venue := VenueName(info.venue);
    var held := Upper(post.spStatus) + Dash + title + Dash + when + Dash + venue;
    && output.Tags?
    && |output.tags| == 5
    && (info.status == "future" ==> output.tags[2].content == held + Dash + when + Dash + venue)
    && (info.status != "future" ==> output.tags[2].content == held)
    && output.tags[3].content
       == Upper(post.spStatus) + Dash + (LongDateTime(post.when) + " at " + venue + ".") + " " + post.content
  }

  lemma HeldTagsOfSchedule(post: EventPost, info: EventInfo, site: SiteInfo)
    requires ValidDateTime(post.when) && post.postType == "sp_event" && IsHeldStatus(post.spStatus)
    requires info.status != "results"
    ensures HeldTags(OpenGraphTags(true, post, info, site), post, info, site)
  {
    ScheduledTags(post, info, site);
    var output := Tags(MetaTags(post, site, ScheduledTitle(post, info, site), DescriptionHead(post, info) + " " + post.content));
    HeldScheduledTitle(post, info, site);
    assert HeldTags(output, post, info, site);
  }

  /** A non-result event is tagged with its scheduled title and description. */
  lemma ScheduledTags(post: EventPost, info: EventInfo, site: SiteInfo)
    requires ValidDateTime(post.when) && post.postType == "sp_event" && info.status != "results"
    ensures OpenGraphTags(true, post, info, site)
            == Tags(MetaTags(post, site, ScheduledTitle(post, info, site), DescriptionHead(post, info) + " " + post.content))
  {
  }

  lemma HeldScheduledTitle(post: EventPost, info: EventInfo, site: SiteInfo)
    requires ValidDateTime(post.when) && IsHeldStatus(post.spStatus)
    ensures var title := EventTitleOf(post.teams, site.shortNames, site.reverseOption, site.delimiterOption);
            var when := ShortDate(post.when, true);
            var venue := VenueName(info.venue);
            var held := Upper(post.spStatus) + Dash + title + Dash + when + Dash + venue;
            && (info.status == "future" ==> ScheduledTitle(post, info, site) == held + Dash + when + Dash + venue)
            && (info.status != "future" ==> ScheduledTitle(post, info, site) == held)
  {
  }

  /** A scheduled event that is not held up is titled with its teams, its short date and time
      and its venue (or "Venue TBD"). */
  lemma FutureTitle(post: EventPost, info: EventInfo, site: SiteInfo)
    requires ValidDateTime(post.when) && post.postType == "sp_event" && !IsHeldStatus(post.spStatus)
    requires info.status == "future"
    ensures OpenGraphTags(true, post, info, site).tags[2].content
            == EventTitleOf(post.teams, site.shortNames, site.reverseOption, site.delimiterOption)
               + Dash + ShortDate(post.when, true) + Dash + VenueName(info.venue)
  {
  }

  /** A finished event is titled with the result of its first two data rows in display order,
      marked with the first forfeit among them. */
  lemma ResultTitleOfFinishedEvent(post: EventPost, info: EventInfo, site: SiteInfo)
    requires ValidDateTime(post.when) && post.postType == "sp_event"
    requires info.status == "results" && DataRows(info.results) != []
    ensures var records := TeamRecords(OrderedRows(info.results, site.reverseOption), site.outcomes, site.shortNames, None);
            var line := ResultLine(records, ShortDate(post.when, false));
            var title := OpenGraphTags(true, post, info, site).tags[2].content;
            && (NoForfeit(records) ==> title == line)
            && (forall k :: FirstForfeit(records, k) ==>
                  title == line + "(" + SuffixOf(records[k].outcomeAbbreviation).value.abbreviation + ")")
  {
    var records := TeamRecords(OrderedRows(info.results, site.reverseOption), site.outcomes, site.shortNames, None);
    forall k | FirstForfeit(records, k)
      ensures ResultTitle(records, ShortDate(post.when, false), ForfeitSuffix(records))
              == ResultLine(records, ShortDate(post.when, false)) + "(" + SuffixOf(records[k].outcomeAbbreviation).value.abbreviation + ")"
    {
      ForfeitMark(records, ShortDate(post.when, false), k);
    }
    ForfeitMark(records, ShortDate(post.when, false), 0);
  }
}
