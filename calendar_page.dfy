/**
  The airing calendar page: the week shown (an offset of whole weeks from
  today), the date heading and episode label of each entry, the days that
  have entries, and where a click on an entry leads.

  Dates are day numbers; turning a day number into an ISO date string and
  reading the month, day and weekday of a date belong to the JavaScript
  `Date` library and are inputs here.
 */
module CalendarPage {
  import opened Strings
  import DramaDetail

  // ---------------------------------------------------------------------------
  // Numbers followed by a marker
  // ---------------------------------------------------------------------------

  /** The digit run of a number's decimal text ends at the first non-digit after it. */
  lemma {:induction false} DigitRunStops(d: string, c: char, rest: string)
    requires forall k :: 0 <= k < |d| ==> DramaDetail.IsDigit(d[k])
    requires !DramaDetail.IsDigit(c)
    ensures DramaDetail.DigitRun(d + [c] + rest) == |d|
    decreases |d|
  {
    if |d| > 0 {
      assert (d + [c] + rest)[1..] == d[1..] + [c] + rest;
      DigitRunStops(d[1..], c, rest);
    } else {
      assert (d + [c] + rest)[0] == c;
    }
  }

  /** A number written out and followed by a non-digit can be read back, and so can what follows. */
  lemma NumberThenMark(a: nat, b: nat, c: char, ra: string, rb: string)
    requires !DramaDetail.IsDigit(c)
    requires NatToString(a) + [c] + ra == NatToString(b) + [c] + rb
    ensures a == b && ra == rb
  {
    var sa, sb := NatToString(a), NatToString(b);
    DigitRunStops(sa, c, ra);
    DigitRunStops(sb, c, rb);
    assert |sa| == |sb|;
    var x := sa + [c] + ra;
    assert x[..|sa|] == sa;
    assert (sb + [c] + rb)[..|sb|] == sb;
    DramaDetail.NatToStringValue(a);
    DramaDetail.NatToStringValue(b);
    assert x[|sa| + 1..] == ra;
    assert (sb + [c] + rb)[|sb| + 1..] == rb;
  }

  // ---------------------------------------------------------------------------
  // formatDate
  // ---------------------------------------------------------------------------

  /** What `Date` reports for a date string: `getMonth()` (0-11), `getDate()` and `getDay()` (0 is Sunday). */
  datatype DateParts = DateParts(month: nat, dayOfMonth: nat, weekday: nat)

  datatype DateInfo = DateInfo(main: string, sub: string, isToday: bool, isTomorrow: bool)

  const WeekDays := ["周日", "周一", "周二", "周三", "周四", "周五", "周六"]

  /** `${month + 1}月${day}日` */
  function MainText(parts: DateParts): string {
    IntToString(parts.month + 1) + "月" + IntToString(parts.dayOfMonth) + "日"
  }

  /**
    The heading of a day. `todayIso` and `tomorrowIso` are the first ten
    characters of today's and tomorrow's `toISOString()`.
   */
  function FormatDate(dateStr: string, parts: DateParts, todayIso: string, tomorrowIso: string): (r: DateInfo)
    requires parts.weekday < 7
    ensures r.main == MainText(parts) && r.sub == WeekDays[parts.weekday]
    ensures r.isToday <==> dateStr == todayIso
    ensures r.isTomorrow <==> dateStr == tomorrowIso
    ensures todayIso != tomorrowIso ==> !(r.isToday && r.isTomorrow)
  {
    DateInfo(MainText(parts), WeekDays[parts.weekday], dateStr == todayIso, dateStr == tomorrowIso)
  }

  lemma MainTextShape(p: DateParts)
    ensures MainText(p) == NatToString(p.month + 1) + ['月'] + (NatToString(p.dayOfMonth) + ['日'] + "")
  {
  }

  /** Different month or day give a different heading: the month and day can be read back from it. */
  lemma MainTextInjective(p: DateParts, q: DateParts)
    requires MainText(p) == MainText(q)
    ensures p.month == q.month && p.dayOfMonth == q.dayOfMonth
  {
    MainTextShape(p);
    MainTextShape(q);
    NumberThenMark(p.month + 1, q.month + 1, '月', NatToString(p.dayOfMonth) + ['日'] + "", NatToString(q.dayOfMonth) + ['日'] + "");
    NumberThenMark(p.dayOfMonth, q.dayOfMonth, '日', "", "");
  }

  // ---------------------------------------------------------------------------
  // The episode label
  // ---------------------------------------------------------------------------

  /**
    `S{season}E{episode}` for a positive season, else `第{episode}集`; the
    first character says which form it is.
   */
  function EpisodeLabel(season: int, episode: int): (text: string)
    ensures |text| > 0 && text[0] == (if season > 0 then 'S' else '第')
  {
    if season > 0 then "S" + IntToString(season) + "E" + IntToString(episode)
    else "第" + IntToString(episode) + "集"
  }

  /** Season and episode can be read back from a label of either form. */
  lemma EpisodeLabelInjective(s1: nat, e1: nat, s2: nat, e2: nat)
    requires EpisodeLabel(s1, e1) == EpisodeLabel(s2, e2)
    ensures s1 > 0 <==> s2 > 0
    ensures e1 == e2
    ensures s1 > 0 ==> s1 == s2
  {
    if s1 > 0 && s2 > 0 {
      SeasonLabelInjective(s1, e1, s2, e2);
    } else if s1 == 0 && s2 == 0 {
      PlainLabelInjective(e1, e2);
    }
  }

  lemma SeasonLabelInjective(s1: nat, e1: nat, s2: nat, e2: nat)
    requires s1 > 0 && s2 > 0
    requires EpisodeLabel(s1, e1) == EpisodeLabel(s2, e2)
    ensures s1 == s2 && e1 == e2
  {
    var d1, d2 := NatToString(e1), NatToString(e2);
    SeasonLabelTail(s1, e1);
    SeasonLabelTail(s2, e2);
    NumberThenMark(s1, s2, 'E', d1, d2);
    DramaDetail.NatToStringValue(e1);
    DramaDetail.NatToStringValue(e2);
  }

  lemma SeasonLabelTail(s: nat, e: nat)
    requires s > 0
    ensures EpisodeLabel(s, e)[1..] == NatToString(s) + ['E'] + NatToString(e)
  {
    var a, d := NatToString(s), NatToString(e);
    assert IntToString(s) == a && IntToString(e) == d;
    assert EpisodeLabel(s, e) == "S" + a + "E" + d;
    assert ("S" + a + "E" + d)[1..] == a + ['E'] + d;
  }

  lemma PlainLabelInjective(e1: nat, e2: nat)
    requires EpisodeLabel(0, e1) == EpisodeLabel(0, e2)
    ensures e1 == e2
  {
    var l1, l2 := EpisodeLabel(0, e1), EpisodeLabel(0, e2);
    assert l1 == "第" + (NatToString(e1) + ['集'] + "");
    assert l2 == "第" + (NatToString(e2) + ['集'] + "");
    assert l1[1..] == NatToString(e1) + ['集'] + "";
    assert l2[1..] == NatToString(e2) + ['集'] + "";
    NumberThenMark(e1, e2, '集', "", "");
  }

  // ---------------------------------------------------------------------------
  // dateRange and the week offset
  // ---------------------------------------------------------------------------

  datatype Range = Range(start: int, end: int)

  /** The week shown: it starts `7 * offset` days after today and ends six days later. */
  function DateRange(today: int, offset: int): (r: Range)
    ensures r.end - r.start == 6
  {
    var start := today + offset * 7;
    Range(start, start + 6)
  }

  /** Consecutive offsets show consecutive weeks, with no gap and no overlap. */
  lemma WeeksAdjacent(today: int, offset: int)
    ensures DateRange(today, offset + 1).start == DateRange(today, offset).end + 1
  {
  }

  /** Over the reachable offsets, -2 to 2, each day from 14 days ago to 20 days ahead is in exactly one week. */
  lemma WeeksTile(today: int, day: int)
    requires today - 14 <= day <= today + 20
    ensures exists o :: -2 <= o <= 2 && DateRange(today, o).start <= day <= DateRange(today, o).end
    ensures forall o, p ::
              (-2 <= o <= 2 && -2 <= p <= 2
               && DateRange(today, o).start <= day <= DateRange(today, o).end
               && DateRange(today, p).start <= day <= DateRange(today, p).end) ==> o == p
  {
    var o := (day - today + 14) / 7 - 2;
    assert DateRange(today, o).start <= day <= DateRange(today, o).end;
  }

  // ---------------------------------------------------------------------------
  // daysWithContent
  // ---------------------------------------------------------------------------

  datatype CalendarEntry = CalendarEntry(
    showId: int,
    showName: string,
    showNameCn: string,
    seasonNumber: int,
    episodeNumber: int,
    doubanId: string)

  /** A day of the answer; its `entries` may be missing. */
  datatype CalendarDay = CalendarDay(date: string, entries: Option<seq<CalendarEntry>>)

  /** The calendar answer; its `days` may be missing. */
  datatype CalendarResponse = CalendarResponse(days: Option<seq<CalendarDay>>)

  /** `day.entries && day.entries.length > 0`: the condition for a day section to render. */
  predicate HasContent(day: CalendarDay) {
    day.entries.Some? && |day.entries.value| > 0
  }

  function WithContent(days: seq<CalendarDay>): (r: seq<CalendarDay>)
    ensures |r| <= |days|
    ensures forall d :: d in r <==> d in days && HasContent(d)
  {
    if |days| == 0 then []
    else
      var rest := WithContent(days[1..]);
      assert forall d :: d in days <==> d == days[0] || d in days[1..];
      if HasContent(days[0]) then [days[0]] + rest else rest
  }

  /** The kept days stay in the answer's order. */
  lemma {:induction false} WithContentConcat(a: seq<CalendarDay>, b: seq<CalendarDay>)
    ensures WithContent(a + b) == WithContent(a) + WithContent(b)
    decreases |a|
  {
    if |a| == 0 {
      assert a + b == b;
    } else {
      assert (a + b)[0] == a[0] && (a + b)[1..] == a[1..] + b;
      WithContentConcat(a[1..], b);
    }
  }

  /** daysWithContent: nothing before the answer arrives or when it has no days. */
  function DaysWithContent(data: Option<CalendarResponse>): (days: seq<CalendarDay>)
    ensures (data.None? || data.value.days.None?) ==> days == []
    ensures forall d :: d in days ==> HasContent(d)
    ensures data.Some? && data.value.days.Some? ==>
              forall d :: d in data.value.days.value && HasContent(d) ==> d in days
  {
    if data.None? || data.value.days.None? then [] else WithContent(data.value.days.value)
  }

  // ---------------------------------------------------------------------------
  // handleEntryClick
  // ---------------------------------------------------------------------------

  /** `show_name_cn || show_name` */
  function DisplayName(entry: CalendarEntry): string {
    if entry.showNameCn != "" then entry.showNameCn else entry.showName
  }

  const MoviePrefix := "/movie/"
  const SearchPrefix := "/search?q="

  /** An entry with a Douban id opens its page; otherwise a search for its name. */
  function EntryTarget(entry: CalendarEntry): (target: string)
    ensures entry.doubanId != "" ==>
              StartsWith(target, MoviePrefix) && target[|MoviePrefix|..] == entry.doubanId
    ensures entry.doubanId == "" ==> StartsWith(target, SearchPrefix)
  {
    if entry.doubanId != "" then
      assert (MoviePrefix + entry.doubanId)[..|MoviePrefix|] == MoviePrefix;
      MoviePrefix + entry.doubanId
    else
      var query := EncodeUriComponent(DisplayName(entry));
      assert (SearchPrefix + query)[..|SearchPrefix|] == SearchPrefix;
      SearchPrefix + query
  }

  /** A name that needs no escaping is searched for verbatim. */
  lemma SearchTargetVerbatim(entry: CalendarEntry)
    requires entry.doubanId == ""
    requires forall i :: 0 <= i < |DisplayName(entry)| ==> IsUnreserved(DisplayName(entry)[i])
    ensures EntryTarget(entry) == SearchPrefix + DisplayName(entry)
  {
    EncodeUnreservedIdentity(DisplayName(entry));
  }

  // ---------------------------------------------------------------------------
  // The page state
  // ---------------------------------------------------------------------------

  /**
    React refetches when `dateRange` or `region` changes; `dateRange` is
    recomputed only when `weekOffset` changes, so setting the offset to the
    value it already has fetches nothing.
   */
  predicate Refetches(oldOffset: int, newOffset: int, oldRegion: string, newRegion: string) {
    oldOffset != newOffset || oldRegion != newRegion
  }

  class Page {
    var weekOffset: int
    var region: string
    /** The number of calendar requests issued. */
    var fetches: nat

    predicate Valid()
      reads this
    {
      -2 <= weekOffset <= 2
    }

    constructor()
      ensures weekOffset == 0 && region == "CN" && fetches == 1 && Valid()
    {
      weekOffset := 0;
      region := "CN";
      fetches := 1;
    }

    /** The left arrow, disabled at -2 or below. */
    method PrevWeek()
      requires Valid()
      modifies this
      ensures Valid() && region == old(region)
      ensures weekOffset == (if old(weekOffset) > -2 then old(weekOffset) - 1 else old(weekOffset))
      ensures fetches == old(fetches) + (if Refetches(old(weekOffset), weekOffset, region, region) then 1 else 0)
    {
      if weekOffset > -2 {
        weekOffset := weekOffset - 1;
        fetches := fetches + 1;
      }
    }

    /** The right arrow, disabled at 2 or above. */
    method NextWeek()
      requires Valid()
      modifies this
      ensures Valid() && region == old(region)
      ensures weekOffset == (if old(weekOffset) < 2 then old(weekOffset) + 1 else old(weekOffset))
      ensures fetches == old(fetches) + (if Refetches(old(weekOffset), weekOffset, region, region) then 1 else 0)
    {
      if weekOffset < 2 {
        weekOffset := weekOffset + 1;
        fetches := fetches + 1;
      }
    }

    /**
      本周, and also the error state's retry button as written, which calls
      the same `setWeekOffset(0)`: on the current week it issues no request.
     */
    method ThisWeek()
      requires Valid()
      modifies this
      ensures Valid() && weekOffset == 0 && region == old(region)
      ensures fetches == old(fetches) + (if Refetches(old(weekOffset), 0, region, region) then 1 else 0)
      ensures old(weekOffset) == 0 ==> fetches == old(fetches)
      ensures old(weekOffset) != 0 ==> fetches == old(fetches) + 1
    {
      if weekOffset != 0 {
        weekOffset := 0;
        fetches := fetches + 1;
      }
    }

    /** The region selector; it reports only a change. */
    method SetRegion(r: string)
      requires Valid() && r != region
      modifies this
      ensures Valid() && region == r && weekOffset == old(weekOffset) && fetches == old(fetches) + 1
    {
      region := r;
      fetches := fetches + 1;
    }

    /** The retry button as intended: back to the current week and always a new request. */
    method Retry()
      requires Valid()
      modifies this
      ensures Valid() && weekOffset == 0 && region == old(region) && fetches == old(fetches) + 1
    {
      weekOffset := 0;
      fetches := fetches + 1;
    }
  }
}
