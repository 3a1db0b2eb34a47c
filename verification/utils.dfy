/**
 * The date and lookup helpers of lib/utils.ts.
 *
 * A calendar day is an integer day number; `addDays(d, 1)` is `d + 1` and
 * `differenceInDays(a, b)` is `a - b`. Which year, month and day of the local
 * calendar a day number falls on is the `calendar` parameter; the two
 * date-fns patterns ("yyyy-MM-dd" and "MM월 dd일") are written out over it.
 */
module Utils {
  import opened Wrappers
  import opened Types
  import Text

  type Date = int

  /** A day of the local calendar, as date-fns reads it off a `Date`. */
  datatype CivilDate = CivilDate(year: nat, month: nat, day: nat)

  /** A month from 1 to 12 and a day of the month from 1 to 31. */
  predicate Plausible(c: CivilDate) {
    1 <= c.month <= 12 && 1 <= c.day <= 31
  }

  /** A calendar that only yields plausible days. */
  ghost predicate IsCalendar(calendar: Date -> CivilDate) {
    forall d :: Plausible(calendar(d))
  }

  /** A rendering that tells days apart ("yyyy-MM-dd" is of this kind; "MM월 dd일" drops the year and is not). */
  ghost predicate Injective(render: Date -> string) {
    forall d, e :: render(d) == render(e) ==> d == e
  }

  /** A calendar that never puts two day numbers on the same day. */
  ghost predicate OneToOne(calendar: Date -> CivilDate) {
    forall d, e :: calendar(d) == calendar(e) ==> d == e
  }

  function Pow10(k: nat): (p: nat)
    ensures p >= 1
  {
    if k == 0 then 1 else 10 * Pow10(k - 1)
  }

  /**
   * A date-fns numeric field of `width` letters ("yyyy", "MM", "dd"): the
   * decimal digits of `n`, padded on the left with zeros to at least `width`
   * characters.
   */
  function Padded(n: nat, width: nat): (r: string)
    ensures |r| >= width
  {
    if width == 0 then
      if n == 0 then "" else Text.NatToDecimal(n)
    else
      Padded(n / 10, width - 1) + [Text.DigitChar(n % 10)]
  }

  /** The field is all digits and reads back as its number, leading zeros and all. */
  lemma {:induction false} PaddedDigits(n: nat, width: nat)
    ensures Text.AllDigits(Padded(n, width)) && Text.DecimalValue(Padded(n, width)) == n
  {
    if width > 0 {
      PaddedDigits(n / 10, width - 1);
      var r := Padded(n, width);
      assert r[..|r| - 1] == Padded(n / 10, width - 1);
    }
  }

  /** Fields of the same width are equal exactly when their numbers are. */
  lemma PaddedInjective(m: nat, n: nat, width: nat)
    ensures Padded(m, width) == Padded(n, width) <==> m == n
  {
    PaddedDigits(m, width);
    PaddedDigits(n, width);
  }

  /** A number that fits in the field takes exactly `width` characters. */
  lemma {:induction false} PaddedFits(n: nat, width: nat)
    requires n < Pow10(width)
    ensures |Padded(n, width)| == width
  {
    if width > 0 {
      PaddedFits(n / 10, width - 1);
    }
  }

  /** `format(d, "yyyy-MM-dd")`. */
  function IsoText(c: CivilDate): string {
    Padded(c.year, 4) + "-" + Padded(c.month, 2) + "-" + Padded(c.day, 2)
  }

  /** `format(d, "MM월 dd일")`. */
  function MonthDayText(c: CivilDate): string {
    Padded(c.month, 2) + "월 " + Padded(c.day, 2) + "일"
  }

  /** The yyyy-MM-dd text names exactly one plausible day, whatever the number of year digits. */
  lemma {:induction false} IsoTextInjective(c: CivilDate, e: CivilDate)
    requires Plausible(c) && Plausible(e)
    ensures IsoText(c) == IsoText(e) <==> c == e
    ensures |IsoText(c)| >= 10
  {
    var mc, dc := Padded(c.month, 2), Padded(c.day, 2);
    var me, de := Padded(e.month, 2), Padded(e.day, 2);
    PaddedFits(c.month, 2); PaddedFits(c.day, 2); PaddedFits(e.month, 2); PaddedFits(e.day, 2);
    var yc, ye := Padded(c.year, 4), Padded(e.year, 4);
    if IsoText(c) == IsoText(e) {
      SplitAt(yc + "-" + mc + "-", dc, ye + "-" + me + "-", de);
      SplitAt(yc + "-" + mc, "-", ye + "-" + me, "-");
      SplitAt(yc + "-", mc, ye + "-", me);
      SplitAt(yc, "-", ye, "-");
      PaddedInjective(c.year, e.year, 4);
      PaddedInjective(c.month, e.month, 2);
      PaddedInjective(c.day, e.day, 2);
    }
  }

  /** Two equal concatenations whose right parts have the same length agree part by part. */
  lemma SplitAt(x: string, t: string, y: string, u: string)
    requires x + t == y + u && |t| == |u|
    ensures x == y && t == u
  {
    assert x == (x + t)[..|x|] && y == (y + u)[..|y|];
    assert t == (x + t)[|x|..] && u == (y + u)[|y|..];
  }

  /** The month-and-day label tells apart exactly the days that differ in month or day: the year is dropped. */
  lemma {:induction false} MonthDayTextInjective(c: CivilDate, e: CivilDate)
    requires Plausible(c) && Plausible(e)
    ensures MonthDayText(c) == MonthDayText(e) <==> c.month == e.month && c.day == e.day
    ensures |MonthDayText(c)| == 7
  {
    var mc, dc := Padded(c.month, 2), Padded(c.day, 2);
    var me, de := Padded(e.month, 2), Padded(e.day, 2);
    PaddedFits(c.month, 2); PaddedFits(c.day, 2); PaddedFits(e.month, 2); PaddedFits(e.day, 2);
    if MonthDayText(c) == MonthDayText(e) {
      SplitAt(mc + "월 " + dc, "일", me + "월 " + de, "일");
      SplitAt(mc + "월 ", dc, me + "월 ", de);
      SplitAt(mc, "월 ", me, "월 ");
      PaddedInjective(c.month, e.month, 2);
      PaddedInjective(c.day, e.day, 2);
    }
  }

  /** `(d) => format(d, "yyyy-MM-dd")`, the rendering the schedule table keys its lookups with. */
  function IsoRendering(calendar: Date -> CivilDate): Date -> string {
    d => IsoText(calendar(d))
  }

  /** `formatDisplayDate` on a day that is present, the rendering of the table's header labels. */
  function DisplayRendering(calendar: Date -> CivilDate): Date -> string {
    d => MonthDayText(calendar(d))
  }

  /** With a one-to-one calendar, the yyyy-MM-dd rendering tells days apart. */
  lemma IsoRenderingInjective(calendar: Date -> CivilDate)
    requires IsCalendar(calendar) && OneToOne(calendar)
    ensures Injective(IsoRendering(calendar))
  {
    forall d, e | IsoText(calendar(d)) == IsoText(calendar(e))
      ensures d == e
    {
      IsoTextInjective(calendar(d), calendar(e));
    }
  }

  /** formatDate: the yyyy-MM-dd key of a day, and "" when there is no day. */
  function FormatDate(date: Option<Date>, calendar: Date -> CivilDate): (r: string)
    ensures r == "" <==> date.None?
    ensures date.Some? ==> r == IsoText(calendar(date.value))
  {
    match date
    case Some(d) => IsoText(calendar(d))
    case None => ""
  }

  /** formatDisplayDate: the month-and-day label of a day, and "" when there is no day. */
  function FormatDisplayDate(date: Option<Date>, calendar: Date -> CivilDate): (r: string)
    ensures r == "" <==> date.None?
    ensures date.Some? ==> r == MonthDayText(calendar(date.value))
  {
    match date
    case Some(d) => MonthDayText(calendar(d))
    case None => ""
  }

  /** No option before index `i` carries `code`. */
  predicate NoEarlierCode(options: seq<PositionOption>, i: nat, code: int)
    requires i <= |options|
  {
    forall j :: 0 <= j < i ==> options[j].value != code
  }

  /** `options.find((p) => p.value === code)`: the first option carrying `code`, if any. */
  function FindOption(options: seq<PositionOption>, code: int): (r: Option<PositionOption>)
    ensures r.None? <==> forall i :: 0 <= i < |options| ==> options[i].value != code
    ensures r.Some? ==> r.value.value == code
    ensures r.Some? ==> exists i :: 0 <= i < |options| && options[i] == r.value && NoEarlierCode(options, i, code)
  {
    if options == [] then None
    else if options[0].value == code then Some(options[0])
    else
      var r := FindOption(options[1..], code);
      assert r.Some? ==> options[1..][0..] == options[1..];
      r
  }

  const UnknownPosition := "알 수 없음"

  /** getPositionLabel: the label of a known position code, and "unknown" for any other code. */
  function PositionLabel(code: int): (caption: string)
    ensures 0 <= code < 4 ==> caption == PositionOptions[code].caption
    ensures !(0 <= code < 4) ==> caption == UnknownPosition
  {
    PositionCodes();
    match FindOption(PositionOptions, code)
    case Some(option) => option.caption
    case None => UnknownPosition
  }

  /** The whole-day difference of each selected day from the start day, in selection order. */
  function Offsets(selected: seq<Date>, start: Date): (r: seq<int>)
    ensures |r| == |selected|
    ensures forall i :: 0 <= i < |selected| ==> r[i] == selected[i] - start
  {
    if selected == [] then [] else [selected[0] - start] + Offsets(selected[1..], start)
  }

  predicate Ascending(s: seq<int>) {
    forall i, j :: 0 <= i < j < |s| ==> s[i] <= s[j]
  }

  /** Puts `x` into an ascending sequence at its place. */
  function Insert(x: int, s: seq<int>): (r: seq<int>)
    requires Ascending(s)
    ensures Ascending(r)
    ensures multiset(r) == multiset(s) + multiset{x}
    ensures |r| == |s| + 1
    ensures r[0] == x || (|s| > 0 && r[0] == s[0])
  {
    if s == [] || x <= s[0] then
      PrependAscending(x, s);
      [x] + s
    else
      var tail := s[1..];
      assert Ascending(tail) by { TailAscending(s); }
      var rest := Insert(x, tail);
      PrependAscending(s[0], rest);
      assert multiset(s) == multiset{s[0]} + multiset(tail) by {
        assert s == [s[0]] + tail;
      }
      [s[0]] + rest
  }

  /** Dropping the head of an ascending sequence leaves it ascending. */
  lemma TailAscending(s: seq<int>)
    requires Ascending(s) && |s| > 0
    ensures Ascending(s[1..])
  {
  }

  /** An element no larger than the head of an ascending sequence can be put in front of it. */
  lemma PrependAscending(h: int, t: seq<int>)
    requires Ascending(t) && (|t| > 0 ==> h <= t[0])
    ensures Ascending([h] + t)
  {
  }

  /** `sort((a, b) => a - b)`: the ascending permutation of `s`. */
  function SortAscending(s: seq<int>): (r: seq<int>)
    ensures Ascending(r)
    ensures multiset(r) == multiset(s)
    ensures |r| == |s|
  {
    if s == [] then []
    else
      assert s == [s[0]] + s[1..];
      Insert(s[0], SortAscending(s[1..]))
  }

  /**
   * calculateOffDays: the sorted day offsets of the selected days from the
   * start day; the empty list when either is absent.
   */
  function CalculateOffDays(selected: Option<seq<Date>>, start: Option<Date>): (r: seq<int>)
    ensures selected.None? || start.None? ==> r == []
    ensures selected.Some? && start.Some? ==>
      && |r| == |selected.value|
      && Ascending(r)
      && multiset(r) == multiset(Offsets(selected.value, start.value))
  {
    if selected.None? || start.None? then []
    else SortAscending(Offsets(selected.value, start.value))
  }

  /**
   * Every day from `start` to `end` inclusive, ascending: `end - start + 1`
   * days when `start <= end`, none otherwise.
   */
  function DaysInRange(start: Date, end: Date): (r: seq<Date>)
    ensures |r| == if start <= end then end - start + 1 else 0
    ensures forall i :: 0 <= i < |r| ==> r[i] == start + i
    decreases end - start
  {
    if start > end then [] else [start] + DaysInRange(start + 1, end)
  }

  /** getDatesInRange: walks from the start day one day at a time while the day is not past the end. */
  method GetDatesInRange(startDate: Date, endDate: Date) returns (dates: seq<Date>)
    ensures dates == DaysInRange(startDate, endDate)
  {
    dates := [];
    var currentDate := startDate;
    while currentDate <= endDate
      invariant startDate <= currentDate
      invariant currentDate <= endDate + 1 || currentDate == startDate
      invariant |dates| == currentDate - startDate
      invariant forall i :: 0 <= i < |dates| ==> dates[i] == startDate + i
      decreases endDate - currentDate
    {
      dates := dates + [currentDate];
      currentDate := currentDate + 1;
    }
  }

  /** The range's first day is the start, its last the end, and neighbours are one day apart. */
  lemma RangeEnds(start: Date, end: Date)
    requires start <= end
    ensures DaysInRange(start, end)[0] == start
    ensures DaysInRange(start, end)[|DaysInRange(start, end)| - 1] == end
    ensures forall i :: 0 <= i < |DaysInRange(start, end)| - 1 ==>
      DaysInRange(start, end)[i + 1] == DaysInRange(start, end)[i] + 1
  {
  }

  /** The days of a range are pairwise different. */
  lemma RangeDistinct(start: Date, end: Date)
    ensures forall i, j :: 0 <= i < j < |DaysInRange(start, end)| ==>
      DaysInRange(start, end)[i] != DaysInRange(start, end)[j]
  {
  }
}
