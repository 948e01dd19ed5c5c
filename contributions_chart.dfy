/**
 * The contributions chart: it walks the contribution calendar week by week
 * and day by day, appends the count and the date of every day with at least
 * one contribution to two parallel arrays, and shows the bar chart once the
 * walk is over.
 */
module ContributionsChart {
  import opened Wrappers

  /** One `contributionDays` entry. */
  datatype Day = Day(date: string, contributionCount: int)

  /** What the component renders. */
  datatype View = Loading | Bar(labels: seq<string>, values: seq<int>)

  /** The days of one week with a positive count, in order (built from the back, as appended). */
  function PositiveInWeek(week: seq<Day>): (days: seq<Day>)
    ensures |days| <= |week|
  {
    if week == [] then []
    else
      var last := week[|week| - 1];
      PositiveInWeek(week[..|week| - 1]) + (if last.contributionCount > 0 then [last] else [])
  }

  /** A week contributes exactly its days with a positive count. */
  lemma {:induction false} PositiveInWeekExact(week: seq<Day>)
    ensures forall d :: d in PositiveInWeek(week) <==> d in week && d.contributionCount > 0
  {
    if week != [] {
      var n := |week| - 1;
      PositiveInWeekExact(week[..n]);
      assert week == week[..n] + [week[n]];
    }
  }

  /** The positive days of all weeks, week by week. */
  function PositiveDays(weeks: seq<seq<Day>>): seq<Day>
  {
    if weeks == [] then [] else PositiveDays(weeks[..|weeks| - 1]) + PositiveInWeek(weeks[|weeks| - 1])
  }

  /** The number of days with a positive count across all weeks. */
  function CountPositive(weeks: seq<seq<Day>>): nat
  {
    if weeks == [] then 0 else CountPositive(weeks[..|weeks| - 1]) + CountInWeek(weeks[|weeks| - 1])
  }

  /** The number of days of one week with a positive count. */
  function CountInWeek(week: seq<Day>): nat
  {
    if week == [] then 0
    else CountInWeek(week[..|week| - 1]) + (if week[|week| - 1].contributionCount > 0 then 1 else 0)
  }

  /** The counts of a list of days. */
  function Counts(days: seq<Day>): (cs: seq<int>)
    ensures |cs| == |days| && forall k :: 0 <= k < |days| ==> cs[k] == days[k].contributionCount
  {
    seq(|days|, k requires 0 <= k < |days| => days[k].contributionCount)
  }

  /** The dates of a list of days. */
  function Dates(days: seq<Day>): (ds: seq<string>)
    ensures |ds| == |days| && forall k :: 0 <= k < |days| ==> ds[k] == days[k].date
  {
    seq(|days|, k requires 0 <= k < |days| => days[k].date)
  }

  /** The positive days of the weeks taken together are the positive days of the first part, then of the second. */
  lemma {:induction false} PositiveDaysAppend(a: seq<seq<Day>>, b: seq<seq<Day>>)
    ensures PositiveDays(a + b) == PositiveDays(a) + PositiveDays(b)
    decreases |b|
  {
    if b == [] {
      assert a + b == a;
    } else {
      var n := |b| - 1;
      var ab := a + b;
      assert ab[..|ab| - 1] == a + b[..n];
      assert ab[|ab| - 1] == b[n];
      assert PositiveDays(ab) == PositiveDays(a + b[..n]) + PositiveInWeek(b[n]);
      PositiveDaysAppend(a, b[..n]);
      assert PositiveDays(b) == PositiveDays(b[..n]) + PositiveInWeek(b[n]);
    }
  }

  /** Taking one more week adds that week's positive days. */
  lemma PositiveDaysStep(weeks: seq<seq<Day>>, i: nat)
    requires i < |weeks|
    ensures PositiveDays(weeks[..i + 1]) == PositiveDays(weeks[..i]) + PositiveInWeek(weeks[i])
  {
    assert weeks[..i + 1][..i] == weeks[..i];
  }

  /** Taking one more day of a week adds that day when its count is positive. */
  lemma PositiveInWeekStep(week: seq<Day>, j: nat)
    requires j < |week|
    ensures PositiveInWeek(week[..j + 1]) == PositiveInWeek(week[..j]) + (if week[j].contributionCount > 0 then [week[j]] else [])
  {
    assert week[..j + 1][..j] == week[..j];
  }

  /** Appending days to the collected days appends their counts and their dates to the arrays. */
  lemma AppendDays(values0: seq<int>, labels0: seq<string>, days: seq<Day>, more: seq<Day>)
    ensures values0 + Counts(days + more) == values0 + Counts(days) + Counts(more)
    ensures labels0 + Dates(days + more) == labels0 + Dates(days) + Dates(more)
  {
    assert Counts(days + more) == Counts(days) + Counts(more);
    assert Dates(days + more) == Dates(days) + Dates(more);
  }

  /** Every collected day has a positive count and comes from some week. */
  lemma {:induction false} PositiveDaysSound(weeks: seq<seq<Day>>, d: Day)
    requires d in PositiveDays(weeks)
    ensures d.contributionCount > 0
    ensures exists i :: 0 <= i < |weeks| && d in weeks[i]
  {
    var n := |weeks| - 1;
    var init := weeks[..n];
    PositiveInWeekExact(weeks[n]);
    if d in PositiveDays(init) {
      PositiveDaysSound(init, d);
      var i :| 0 <= i < |init| && d in init[i];
      assert weeks[i] == init[i];
    } else {
      assert d in weeks[n];
    }
  }

  /** Every day with a positive count, in any week, is collected. */
  lemma {:induction false} PositiveDaysComplete(weeks: seq<seq<Day>>, i: nat, d: Day)
    requires i < |weeks| && d in weeks[i] && d.contributionCount > 0
    ensures d in PositiveDays(weeks)
  {
    var n := |weeks| - 1;
    var init := weeks[..n];
    if i < n {
      assert init[i] == weeks[i];
      PositiveDaysComplete(init, i, d);
    } else {
      PositiveInWeekExact(weeks[n]);
    }
  }

  /** As many days are collected as there are days with a positive count. */
  lemma {:induction false} PositiveDaysCount(weeks: seq<seq<Day>>)
    ensures |PositiveDays(weeks)| == CountPositive(weeks)
  {
    if weeks != [] {
      PositiveDaysCount(weeks[..|weeks| - 1]);
      WeekCount(weeks[|weeks| - 1]);
    }
  }

  /** A week contributes as many days as it has days with a positive count. */
  lemma {:induction false} WeekCount(week: seq<Day>)
    ensures |PositiveInWeek(week)| == CountInWeek(week)
  {
    if week != [] {
      WeekCount(week[..|week| - 1]);
    }
  }

  /** The component's state: the two parallel arrays and the chart flag. */
  class Contributions {
    var labels: seq<string>
    var values: seq<int>
    var showChart: bool

    /** The arrays stay parallel. */
    predicate Valid()
      reads this
    {
      |labels| == |values|
    }

    /** The initial state: empty arrays, chart hidden. */
    constructor()
      ensures labels == [] && values == [] && !showChart
      ensures Valid()
    {
      labels := [];
      values := [];
      showChart := false;
    }

    /**
     * `fetchData()` given the weeks of the calendar, or `None` when the fetch
     * or `res.json()` rejects or the answer has no calendar: the effect then
     * throws before its first update, and the loading view stays. Otherwise
     * every positive day is appended to both arrays, then the chart is shown.
     */
    method FetchData(answer: Option<seq<seq<Day>>>)
      requires Valid()
      modifies this
      ensures Valid()
      ensures answer.None? ==> values == old(values) && labels == old(labels) && showChart == old(showChart)
      ensures answer.Some? ==> values == old(values) + Counts(PositiveDays(answer.value))
      ensures answer.Some? ==> labels == old(labels) + Dates(PositiveDays(answer.value))
      ensures answer.Some? ==> showChart
    {
      if answer.None? {
        return;
      }
      var weeks := answer.value;
      ghost var values0, labels0 := values, labels;
      var i := 0;
      while i < |weeks|
        invariant 0 <= i <= |weeks|
        invariant values == values0 + Counts(PositiveDays(weeks[..i]))
        invariant labels == labels0 + Dates(PositiveDays(weeks[..i]))
        invariant Valid()
      {
        ghost var acc := PositiveDays(weeks[..i]);
        AppendWeek(weeks[i]);
        PositiveDaysStep(weeks, i);
        AppendDays(values0, labels0, acc, PositiveInWeek(weeks[i]));
        i := i + 1;
      }
      assert weeks[..i] == weeks;
      showChart := true;
    }

    /** The inner loop of `fetchData()`: the positive days of one week are appended to both arrays. */
    method AppendWeek(week: seq<Day>)
      requires Valid()
      modifies this
      ensures Valid()
      ensures values == old(values) + Counts(PositiveInWeek(week))
      ensures labels == old(labels) + Dates(PositiveInWeek(week))
      ensures showChart == old(showChart)
    {
      ghost var values0, labels0 := values, labels;
      var j := 0;
      while j < |week|
        invariant 0 <= j <= |week|
        invariant values == values0 + Counts(PositiveInWeek(week[..j]))
        invariant labels == labels0 + Dates(PositiveInWeek(week[..j]))
        invariant showChart == old(showChart)
      {
        PositiveInWeekStep(week, j);
        if week[j].contributionCount > 0 {
          AppendDays(values0, labels0, PositiveInWeek(week[..j]), [week[j]]);
          values := values + [week[j].contributionCount];
          labels := labels + [week[j].date];
        }
        j := j + 1;
      }
      assert week[..j] == week;
    }

    /** The loading view until the flag is set, then the bar chart of the two arrays as they are. */
    function Render(): (v: View)
      reads this
      ensures !showChart <==> v == Loading
      ensures showChart ==> v == Bar(labels, values)
    {
      if !showChart then Loading else Bar(labels, values)
    }
  }

  /**
   * Bar k of the rendered chart is one positive day: its label is that day's
   * date and its value that day's count.
   */
  lemma ChartPairsDays(weeks: seq<seq<Day>>, k: nat)
    requires k < |PositiveDays(weeks)|
    ensures var days := PositiveDays(weeks);
            && Dates(days)[k] == days[k].date && Counts(days)[k] == days[k].contributionCount
            && Counts(days)[k] > 0
  {
    PositiveDaysSound(weeks, PositiveDays(weeks)[k]);
  }
}
