/** `createResult` (helpers.js): the two aggregation pipelines over the stored
    input (`$unwind`, `$month`, `$group` with `$sum`/`$avg`/`$push`, `$sort` by
    month), the pass that adds medians, and the merge of the signups rows into
    the rows of the active-user months. */
module Aggregate {
  import opened Outcomes
  import Median

  /** A calendar month as `$month` yields it; the year plays no part. */
  type Month = m: int | 1 <= m <= 12 witness 1

  /** One stored entry after `$unwind` and the `$project` with `$month`: the
      month of its date and its count. */
  datatype Record = Record(month: Month, count: int)

  /** A document of the first pipeline: `total_signups`, `average_signups` and
      `dailySignups` for one month. */
  datatype SignupGroup = SignupGroup(month: Month, totalSignups: int, averageSignups: real, dailySignups: seq<int>)

  /** A document of the second pipeline: `average_actives` and `dailyActives`. */
  datatype ActiveGroup = ActiveGroup(month: Month, averageActives: real, dailyActives: seq<int>)

  /** The signups fields of a result line. */
  datatype SignupStats = SignupStats(total: int, average: real, median: int)

  /** The active-user fields of a result line. */
  datatype ActiveStats = ActiveStats(average: real, median: int)

  /** One result line: a month and the fields that are present on it (an
      absent group of fields is `undefined` in the source). */
  datatype Line = Line(month: Month, signups: Option<SignupStats>, actives: Option<ActiveStats>)

  /** Some record falls in month `m`. */
  predicate HasMonth(recs: seq<Record>, m: int)
    ensures HasMonth(recs, m) ==> 1 <= m <= 12
  {
    recs != [] && (recs[0].month == m || HasMonth(recs[1..], m))
  }

  /** The distinct months `m..12` of the records, ascending. */
  function MonthsFrom(recs: seq<Record>, m: int): (ms: seq<Month>)
    requires 1 <= m <= 13
    ensures forall i :: 0 <= i < |ms| ==> m <= ms[i]
    ensures forall i, j :: 0 <= i < j < |ms| ==> ms[i] < ms[j]
    ensures forall x :: x in ms <==> m <= x && HasMonth(recs, x)
    decreases 13 - m
  {
    if m == 13 then []
    else (if HasMonth(recs, m) then [m] else []) + MonthsFrom(recs, m + 1)
  }

  /** The `_id.month` keys of a `$group` by month followed by `$sort` ascending:
      every month of the records once, in increasing order. */
  function Months(recs: seq<Record>): (ms: seq<Month>)
    ensures forall i, j :: 0 <= i < j < |ms| ==> ms[i] < ms[j]
    ensures forall x :: x in ms <==> HasMonth(recs, x)
  {
    MonthsFrom(recs, 1)
  }

  /** There are no month groups exactly when there are no records. */
  lemma MonthsEmpty(recs: seq<Record>)
    ensures Months(recs) == [] <==> recs == []
  {
    if recs != [] {
      assert HasMonth(recs, recs[0].month);
      assert recs[0].month in Months(recs);
    }
  }

  /** `$push` of the counts of month `m`: in input order. */
  function Daily(recs: seq<Record>, m: int): (d: seq<int>)
    ensures |d| > 0 <==> HasMonth(recs, m)
  {
    if recs == [] then []
    else (if recs[0].month == m then [recs[0].count] else []) + Daily(recs[1..], m)
  }

  /** `$sum`: the total of non-negative counts is non-negative. */
  function Sum(s: seq<int>): (r: int)
    ensures (forall i :: 0 <= i < |s| ==> s[i] >= 0) ==> r >= 0
  {
    if s == [] then 0 else s[0] + Sum(s[1..])
  }

  /** `$avg`, exactly: the mean times the number of values is their sum. */
  function Mean(s: seq<int>): (r: real)
    requires |s| > 0
    ensures r * (|s| as real) == Sum(s) as real
  {
    Sum(s) as real / |s| as real
  }

  /** The first pipeline (lines 42-67) over the signups records. */
  function SignupAggregation(recs: seq<Record>): (data: seq<SignupGroup>)
    ensures |data| == |Months(recs)|
    ensures forall i :: 0 <= i < |data| ==> |data[i].dailySignups| > 0
  {
    var ms := Months(recs);
    seq(|ms|, i requires 0 <= i < |ms| =>
      var d := Daily(recs, ms[i]);
      SignupGroup(ms[i], Sum(d), Mean(d), d))
  }

  /** The second pipeline (lines 102-124) over the active-user records. */
  function ActiveAggregation(recs: seq<Record>): (aData: seq<ActiveGroup>)
    ensures |aData| == |Months(recs)|
    ensures forall j :: 0 <= j < |aData| ==> |aData[j].dailyActives| > 0
  {
    var ms := Months(recs);
    seq(|ms|, j requires 0 <= j < |ms| =>
      var d := Daily(recs, ms[j]);
      ActiveGroup(ms[j], Mean(d), d))
  }

  /** What a month's signups fields mean: the total, the mean and the median
      of that month's daily counts. */
  function SignupStatsOf(recs: seq<Record>, m: Month): (st: SignupStats)
    requires HasMonth(recs, m)
    ensures st.average == st.total as real / (|Daily(recs, m)| as real)
  {
    var d := Daily(recs, m);
    var st := SignupStats(Sum(d), Mean(d), Median.MedianOf(d));
    assert st.average == Mean(d) && st.total == Sum(d);
    st
  }

  /** What a month's active-user fields mean: the mean and the median of that
      month's daily counts. */
  function ActiveStatsOf(recs: seq<Record>, m: Month): (st: ActiveStats)
    requires HasMonth(recs, m)
    ensures st.average == Sum(Daily(recs, m)) as real / (|Daily(recs, m)| as real)
  {
    var d := Daily(recs, m);
    var st := ActiveStats(Mean(d), Median.MedianOf(d));
    assert st.average == Mean(d);
    st
  }

  /** The result for `type === 'signups'`: one line per signups month, in
      the order of `Months`, carrying that month's signups fields and no
      active-user fields. */
  function SignupsReport(signups: seq<Record>): (rows: seq<Line>)
    ensures |rows| == |Months(signups)|
    ensures forall i :: 0 <= i < |rows| ==>
              rows[i].month == Months(signups)[i] &&
              rows[i].signups == Some(SignupStatsOf(signups, rows[i].month)) &&
              rows[i].actives == None
  {
    var ms := Months(signups);
    seq(|ms|, i requires 0 <= i < |ms| => Line(ms[i], Some(SignupStatsOf(signups, ms[i])), None))
  }

  /** The result with active users: one line per ACTIVE-USER month, in the
      order of `Months`, carrying that month's active-user fields, and the
      signups fields only when the signups have the same month. */
  function CombinedReport(signups: seq<Record>, actives: seq<Record>): (rows: seq<Line>)
    ensures |rows| == |Months(actives)|
    ensures forall j :: 0 <= j < |rows| ==>
              rows[j].month == Months(actives)[j] &&
              rows[j].actives == Some(ActiveStatsOf(actives, rows[j].month)) &&
              rows[j].signups == (if HasMonth(signups, rows[j].month)
                                  then Some(SignupStatsOf(signups, rows[j].month)) else None)
  {
    var ms := Months(actives);
    seq(|ms|, j requires 0 <= j < |ms| =>
      Line(ms[j],
           if HasMonth(signups, ms[j]) then Some(SignupStatsOf(signups, ms[j])) else None,
           Some(ActiveStatsOf(actives, ms[j]))))
  }

  /** `median(group.daily...)` on the array held by a group document: the
      array is sorted in place, and the result is the median of its values. */
  method MedianOfField(daily: seq<int>) returns (m: int)
    requires |daily| > 0
    ensures m == Median.MedianOf(daily)
  {
    var values := new int[|daily|](k requires 0 <= k < |daily| => daily[k]);
    assert values[..] == daily;
    m := Median.Median(values);
  }

  /** The loop of lines 77-84: `sResult[i]` copies the month, total and mean
      of `data[i]` and adds `median(data[i].dailySignups)`. */
  method MedianPass(data: seq<SignupGroup>) returns (sResult: seq<Line>)
    requires forall i :: 0 <= i < |data| ==> |data[i].dailySignups| > 0
    ensures |sResult| == |data|
    ensures forall i :: 0 <= i < |data| ==>
              sResult[i] == Line(data[i].month,
                                 Some(SignupStats(data[i].totalSignups, data[i].averageSignups,
                                                  Median.MedianOf(data[i].dailySignups))),
                                 None)
  {
    sResult := [];
    var i := 0;
    while i < |data|
      invariant 0 <= i <= |data|
      invariant |sResult| == i
      invariant forall k :: 0 <= k < i ==>
                  sResult[k] == Line(data[k].month,
                                     Some(SignupStats(data[k].totalSignups, data[k].averageSignups,
                                                      Median.MedianOf(data[k].dailySignups))),
                                     None)
    {
      var daily := data[i].dailySignups;
      var thisMedian := MedianOfField(daily);
      sResult := sResult + [Line(data[i].month,
                                 Some(SignupStats(data[i].totalSignups, data[i].averageSignups, thisMedian)),
                                 None)];
      i := i + 1;
    }
  }

  /** The signups fields the merge copies for month `m`: those of the LAST row
      of `rows` with that month (each match overwrites the previous one), and
      none when no row has it. */
  function LastMatch(rows: seq<Line>, m: int): (r: Option<SignupStats>)
    ensures (exists k :: 0 <= k < |rows| && rows[k].month == m) ==>
              exists k :: 0 <= k < |rows| && rows[k].month == m && rows[k].signups == r &&
                forall q :: k < q < |rows| ==> rows[q].month != m
  {
    if rows == [] then None
    else if rows[|rows| - 1].month == m then rows[|rows| - 1].signups
    else LastMatch(rows[..|rows| - 1], m)
  }

  /** One more row of the month overrides what the rows before it attached. */
  lemma LastMatchStep(rows: seq<Line>, k: int, m: int)
    requires 0 <= k < |rows|
    ensures LastMatch(rows[..k + 1], m) ==
              if rows[k].month == m then rows[k].signups else LastMatch(rows[..k], m)
  {
    var p := rows[..k + 1];
    assert p[..|p| - 1] == rows[..k] && p[|p| - 1] == rows[k];
  }

  /** Among rows with distinct months, the last match is the only match. */
  lemma {:induction false} LastMatchUnique(rows: seq<Line>, k: nat)
    requires forall i, j :: 0 <= i < j < |rows| ==> rows[i].month != rows[j].month
    requires k < |rows|
    ensures LastMatch(rows, rows[k].month) == rows[k].signups
    decreases |rows|
  {
    if k < |rows| - 1 {
      LastMatchUnique(rows[..|rows| - 1], k);
    }
  }

  /** No row of the month, nothing attached. */
  lemma {:induction false} LastMatchAbsent(rows: seq<Line>, m: int)
    requires forall i :: 0 <= i < |rows| ==> rows[i].month != m
    ensures LastMatch(rows, m) == None
    decreases |rows|
  {
    if rows != [] {
      LastMatchAbsent(rows[..|rows| - 1], m);
    }
  }

  /** The loops of lines 133-145: `combined[j]` gets the month, the mean and
      `median(aData[j].dailyActives)`, then every `sResult[k]` of the same
      month copies its signups fields onto it. */
  method Merge(aData: seq<ActiveGroup>, sResult: seq<Line>) returns (combined: seq<Line>)
    requires forall j :: 0 <= j < |aData| ==> |aData[j].dailyActives| > 0
    ensures |combined| == |aData|
    ensures forall j :: 0 <= j < |aData| ==>
              combined[j] == Line(aData[j].month,
                                  LastMatch(sResult, aData[j].month),
                                  Some(ActiveStats(aData[j].averageActives,
                                                   Median.MedianOf(aData[j].dailyActives))))
  {
    combined := [];
    var j := 0;
    while j < |aData|
      invariant 0 <= j <= |aData|
      invariant |combined| == j
      invariant forall p :: 0 <= p < j ==>
                  combined[p] == Line(aData[p].month,
                                      LastMatch(sResult, aData[p].month),
                                      Some(ActiveStats(aData[p].averageActives,
                                                       Median.MedianOf(aData[p].dailyActives))))
    {
      var daily := aData[j].dailyActives;
      var thisMed := MedianOfField(daily);
      var row := Line(aData[j].month, None, Some(ActiveStats(aData[j].averageActives, thisMed)));
      var k := 0;
      while k < |sResult|
        invariant 0 <= k <= |sResult|
        invariant row.month == aData[j].month && row.actives == Some(ActiveStats(aData[j].averageActives, thisMed))
        invariant row.signups == LastMatch(sResult[..k], row.month)
      {
        LastMatchStep(sResult, k, row.month);
        if sResult[k].month == row.month {
          row := row.(signups := sResult[k].signups);
        }
        k := k + 1;
      }
      assert sResult[..k] == sResult;
      combined := combined + [row];
      j := j + 1;
    }
  }

  /** The rows of the median pass over the first pipeline are `SignupsReport`. */
  lemma SignupRowsAreReport(signups: seq<Record>, sResult: seq<Line>)
    requires var data := SignupAggregation(signups);
      |sResult| == |data| &&
      forall i :: 0 <= i < |data| ==>
        sResult[i] == Line(data[i].month,
                           Some(SignupStats(data[i].totalSignups, data[i].averageSignups,
                                            Median.MedianOf(data[i].dailySignups))),
                           None)
    ensures sResult == SignupsReport(signups)
  {
    var report := SignupsReport(signups);
    forall i | 0 <= i < |sResult|
      ensures sResult[i] == report[i]
    {
    }
  }

  /** The merged rows over the second pipeline are `CombinedReport`. */
  lemma MergedRowsAreReport(signups: seq<Record>, actives: seq<Record>, combined: seq<Line>)
    requires var aData := ActiveAggregation(actives);
      |combined| == |aData| &&
      forall j :: 0 <= j < |aData| ==>
        combined[j] == Line(aData[j].month,
                            LastMatch(SignupsReport(signups), aData[j].month),
                            Some(ActiveStats(aData[j].averageActives,
                                             Median.MedianOf(aData[j].dailyActives))))
    ensures combined == CombinedReport(signups, actives)
  {
    var report := CombinedReport(signups, actives);
    forall j | 0 <= j < |combined|
      ensures combined[j] == report[j]
    {
      MergedSignups(signups, Months(actives)[j]);
    }
  }

  /** The signups fields the merge attaches to month `m` are those of the
      signups report when the signups have that month, and none otherwise. */
  lemma MergedSignups(signups: seq<Record>, m: Month)
    ensures LastMatch(SignupsReport(signups), m) ==
              if HasMonth(signups, m) then Some(SignupStatsOf(signups, m)) else None
  {
    var sResult := SignupsReport(signups);
    if HasMonth(signups, m) {
      assert m in Months(signups);
      var i :| 0 <= i < |Months(signups)| && Months(signups)[i] == m;
      LastMatchUnique(sResult, i);
    } else {
      LastMatchAbsent(sResult, m);
    }
  }

  /** `createResult(inputId, type, callback)` over the stored signups and
      active-user records. The callback fires at the last row of a loop, so it
      never fires when the loop has no rows: no signups, or (with actives) no
      active-user records. The `type` argument is `kind` here; any value other
      than 'signups' takes the active-user path. */
  method CreateResult(signups: seq<Record>, actives: seq<Record>, kind: string)
    returns (r: Callback<seq<Line>>)
    ensures signups == [] ==> r == NeverCalled
    ensures signups != [] && kind == "signups" ==> r == Ok(SignupsReport(signups))
    ensures signups != [] && kind != "signups" && actives == [] ==> r == NeverCalled
    ensures signups != [] && kind != "signups" && actives != [] ==>
              r == Ok(CombinedReport(signups, actives))
  {
    MonthsEmpty(signups);
    MonthsEmpty(actives);
    var data := SignupAggregation(signups);
    var sResult := MedianPass(data);
    if |data| == 0 {
      return NeverCalled;
    }
    SignupRowsAreReport(signups, sResult);
    if kind == "signups" {
      return Ok(sResult);
    }
    var aData := ActiveAggregation(actives);
    var combined := Merge(aData, sResult);
    if |aData| == 0 {
      return NeverCalled;
    }
    MergedRowsAreReport(signups, actives, combined);
    return Ok(combined);
  }

  /** The sum of all counts. */
  function SumCounts(recs: seq<Record>): int
  {
    if recs == [] then 0 else recs[0].count + SumCounts(recs[1..])
  }

  /** The sum of the counts of months `k..12`. */
  function CountsFrom(recs: seq<Record>, k: int): int
  {
    if recs == [] then 0
    else (if recs[0].month >= k then recs[0].count else 0) + CountsFrom(recs[1..], k)
  }

  /** The sum of the `total_signups` fields of result lines (absent ones add nothing). */
  function TotalOfLines(rows: seq<Line>): int
  {
    if rows == [] then 0
    else (match rows[0].signups case Some(st) => st.total case None => 0) + TotalOfLines(rows[1..])
  }

  /** The sum of the monthly totals over a list of months. */
  function MonthTotals(recs: seq<Record>, ms: seq<Month>): int
  {
    if ms == [] then 0 else Sum(Daily(recs, ms[0])) + MonthTotals(recs, ms[1..])
  }

  lemma {:induction false} CountsFromSplit(recs: seq<Record>, k: int)
    ensures CountsFrom(recs, k) == Sum(Daily(recs, k)) + CountsFrom(recs, k + 1)
  {
    if recs != [] {
      CountsFromSplit(recs[1..], k);
      var d := Daily(recs, k);
      if recs[0].month == k {
        assert d == [recs[0].count] + Daily(recs[1..], k);
        assert d[1..] == Daily(recs[1..], k);
      } else {
        assert d == Daily(recs[1..], k);
      }
    }
  }

  lemma {:induction false} CountsFromEnds(recs: seq<Record>)
    ensures CountsFrom(recs, 13) == 0
    ensures CountsFrom(recs, 1) == SumCounts(recs)
  {
    if recs != [] {
      CountsFromEnds(recs[1..]);
    }
  }

  lemma {:induction false} MonthTotalsFrom(recs: seq<Record>, k: int)
    requires 1 <= k <= 13
    ensures MonthTotals(recs, MonthsFrom(recs, k)) == CountsFrom(recs, k)
    decreases 13 - k
  {
    if k == 13 {
      CountsFromEnds(recs);
    } else {
      MonthTotalsFrom(recs, k + 1);
      CountsFromSplit(recs, k);
      MonthTotalsStep(recs, k);
    }
  }

  /** Months `k..12` total what month `k` totals plus what months `k+1..12` total. */
  lemma MonthTotalsStep(recs: seq<Record>, k: int)
    requires 1 <= k <= 12
    ensures MonthTotals(recs, MonthsFrom(recs, k)) ==
              Sum(Daily(recs, k)) + MonthTotals(recs, MonthsFrom(recs, k + 1))
  {
    var rest := MonthsFrom(recs, k + 1);
    var head: seq<Month> := if HasMonth(recs, k) then [k as Month] else [];
    MonthsFromUnfold(recs, k);
    MonthTotalsCons(recs, k as Month, head, rest);
  }

  lemma MonthsFromUnfold(recs: seq<Record>, k: int)
    requires 1 <= k <= 12
    ensures MonthsFrom(recs, k) ==
              (if HasMonth(recs, k) then [k as Month] else []) + MonthsFrom(recs, k + 1)
  {
  }

  lemma MonthTotalsCons(recs: seq<Record>, k: Month, head: seq<Month>, rest: seq<Month>)
    requires head == [] || head == [k]
    requires head == [] ==> Daily(recs, k) == []
    ensures MonthTotals(recs, head + rest) == Sum(Daily(recs, k)) + MonthTotals(recs, rest)
  {
    var ms := head + rest;
    if head == [] {
      assert ms == rest;
    } else {
      assert ms[0] == k && ms[1..] == rest;
    }
  }

  lemma {:induction false} TotalOfReportLines(recs: seq<Record>, rows: seq<Line>, ms: seq<Month>)
    requires |rows| == |ms|
    requires forall i :: 0 <= i < |ms| ==>
               HasMonth(recs, ms[i]) && rows[i].signups == Some(SignupStatsOf(recs, ms[i]))
    ensures TotalOfLines(rows) == MonthTotals(recs, ms)
    decreases |ms|
  {
    if ms != [] {
      TotalOfReportLines(recs, rows[1..], ms[1..]);
    }
  }

  /** Every count lands in exactly one month: the `total_signups` of the
      signups result add up to the sum of all signup counts. */
  lemma TotalsConserved(signups: seq<Record>)
    ensures TotalOfLines(SignupsReport(signups)) == SumCounts(signups)
  {
    var rows := SignupsReport(signups);
    TotalOfReportLines(signups, rows, Months(signups));
    MonthTotalsFrom(signups, 1);
    CountsFromEnds(signups);
  }

  /** The rows of the active-user result are keyed by the active-user months:
      a month with signups but no active users has no row at all, and a month
      with active users but no signups has a row without signups fields. */
  lemma CombinedKeyedByActives(signups: seq<Record>, actives: seq<Record>, m: Month)
    ensures HasMonth(signups, m) && !HasMonth(actives, m) ==>
              forall j :: 0 <= j < |CombinedReport(signups, actives)| ==>
                CombinedReport(signups, actives)[j].month != m
    ensures !HasMonth(signups, m) && HasMonth(actives, m) ==>
              exists j :: 0 <= j < |CombinedReport(signups, actives)| &&
                CombinedReport(signups, actives)[j].month == m &&
                CombinedReport(signups, actives)[j].signups == None
  {
    var rows := CombinedReport(signups, actives);
    if HasMonth(actives, m) {
      assert m in Months(actives);
      var j :| 0 <= j < |Months(actives)| && Months(actives)[j] == m;
      assert rows[j].month == m;
    }
  }

  lemma HasMonthCons(r: Record, rest: seq<Record>, m: int)
    ensures HasMonth([r] + rest, m) <==> r.month == m || HasMonth(rest, m)
    ensures Daily([r] + rest, m) == (if r.month == m then [r.count] else []) + Daily(rest, m)
  {
    assert ([r] + rest)[0] == r && ([r] + rest)[1..] == rest;
  }

  /** Signups in months 1 and 2 and active users in months 2 and 3 give rows
      for months 2 and 3 only; month 3 has no signups fields. */
  lemma MergeExample(signups: seq<Record>, actives: seq<Record>)
    requires signups == [Record(1, 10), Record(2, 20)]
    requires actives == [Record(2, 5), Record(3, 7)]
    ensures forall j :: 0 <= j < |CombinedReport(signups, actives)| ==>
              CombinedReport(signups, actives)[j].month != 1
    ensures exists j :: 0 <= j < |CombinedReport(signups, actives)| &&
              CombinedReport(signups, actives)[j].month == 2 &&
              CombinedReport(signups, actives)[j].signups.Some?
    ensures exists j :: 0 <= j < |CombinedReport(signups, actives)| &&
              CombinedReport(signups, actives)[j].month == 3 &&
              CombinedReport(signups, actives)[j].signups == None
    ensures |CombinedReport(signups, actives)| == 2
    ensures CombinedReport(signups, actives)[0].month == 2
    ensures CombinedReport(signups, actives)[1].month == 3
  {
    var s2, a2: seq<Record> := [Record(2, 20)], [Record(3, 7)];
    assert signups == [Record(1, 10)] + s2 && s2 == [Record(2, 20)] + [];
    assert actives == [Record(2, 5)] + a2 && a2 == [Record(3, 7)] + [];
    forall m: int
      ensures HasMonth(signups, m) <==> m == 1 || m == 2
      ensures HasMonth(actives, m) <==> m == 2 || m == 3
    {
      HasMonthCons(Record(1, 10), s2, m);
      HasMonthCons(Record(2, 20), [], m);
      HasMonthCons(Record(2, 5), a2, m);
      HasMonthCons(Record(3, 7), [], m);
    }
    CombinedKeyedByActives(signups, actives, 1);
    CombinedKeyedByActives(signups, actives, 3);
    MonthsTwoThree(actives);
    var rows := CombinedReport(signups, actives);
    assert 2 in Months(actives);
    var j :| 0 <= j < |Months(actives)| && Months(actives)[j] == 2;
    assert rows[j].month == 2 && rows[j].signups.Some?;
  }

  /** The active-user months of the example are exactly 2 and 3, in order. */
  lemma MonthsTwoThree(actives: seq<Record>)
    requires actives == [Record(2, 5), Record(3, 7)]
    ensures Months(actives) == [2, 3]
  {
    var a2: seq<Record> := [Record(3, 7)];
    assert actives == [Record(2, 5)] + a2 && a2 == [Record(3, 7)] + [];
    forall m: int | 4 <= m
      ensures !HasMonth(actives, m)
    {
      HasMonthCons(Record(2, 5), a2, m);
      HasMonthCons(Record(3, 7), [], m);
    }
    MonthsFromNone(actives, 4);
    HasMonthCons(Record(2, 5), a2, 1);
    HasMonthCons(Record(3, 7), [], 1);
    HasMonthCons(Record(2, 5), a2, 2);
    HasMonthCons(Record(2, 5), a2, 3);
    HasMonthCons(Record(3, 7), [], 3);
    MonthsFromUnfold(actives, 3);
    assert MonthsFrom(actives, 3) == [3];
    MonthsFromUnfold(actives, 2);
    assert MonthsFrom(actives, 2) == [2, 3];
    MonthsFromUnfold(actives, 1);
  }

  lemma {:induction false} MonthsFromNone(recs: seq<Record>, k: int)
    requires 1 <= k <= 13
    requires forall x :: k <= x ==> !HasMonth(recs, x)
    ensures MonthsFrom(recs, k) == []
    decreases 13 - k
  {
    if k < 13 {
      MonthsFromNone(recs, k + 1);
    }
  }

  lemma MonthsOneTwo(recs: seq<Record>)
    requires forall m: int :: HasMonth(recs, m) <==> m == 1 || m == 2
    ensures Months(recs) == [1, 2]
  {
    MonthsFromNone(recs, 3);
    assert MonthsFrom(recs, 2) == [2] + [];
  }

  lemma ExampleGroups(signups: seq<Record>)
    requires signups == [Record(1, 100), Record(1, 200), Record(2, 50)]
    ensures Months(signups) == [1, 2]
    ensures Daily(signups, 1) == [100, 200] && Daily(signups, 2) == [50]
  {
    var r1, r2, r3 := Record(1, 100), Record(1, 200), Record(2, 50);
    var t1, t2: seq<Record> := [r2, r3], [r3];
    assert signups == [r1] + t1 && t1 == [r2] + t2 && t2 == [r3] + [];
    forall m: int
      ensures HasMonth(signups, m) <==> m == 1 || m == 2
    {
      HasMonthCons(r1, t1, m);
      HasMonthCons(r2, t2, m);
      HasMonthCons(r3, [], m);
    }
    MonthsOneTwo(signups);
    ExampleDaily(signups, 1);
    ExampleDaily(signups, 2);
  }

  lemma ExampleDaily(signups: seq<Record>, m: int)
    requires signups == [Record(1, 100), Record(1, 200), Record(2, 50)]
    requires m == 1 || m == 2
    ensures Daily(signups, m) == if m == 1 then [100, 200] else [50]
  {
    var r1, r2, r3 := Record(1, 100), Record(1, 200), Record(2, 50);
    var t1, t2: seq<Record> := [r2, r3], [r3];
    assert signups == [r1] + t1 && t1 == [r2] + t2 && t2 == [r3] + [];
    HasMonthCons(r1, t1, m);
    HasMonthCons(r2, t2, m);
    HasMonthCons(r3, [], m);
  }

  /** January counts 100 and 200 and a February count of 50 give January
      total 300, mean 150 and median 150, and February total, mean and
      median 50. */
  lemma SignupsExample(signups: seq<Record>)
    requires signups == [Record(1, 100), Record(1, 200), Record(2, 50)]
    ensures SignupsReport(signups) ==
              [Line(1, Some(SignupStats(300, 150.0, 150)), None),
               Line(2, Some(SignupStats(50, 50.0, 50)), None)]
  {
    ExampleGroups(signups);
    MedianExampleValues(Daily(signups, 1), Daily(signups, 2));
    var rows := SignupsReport(signups);
    assert rows[0] == Line(1, Some(SignupStats(300, 150.0, 150)), None);
    assert rows[1] == Line(2, Some(SignupStats(50, 50.0, 50)), None);
  }

  lemma MedianExampleValues(jan: seq<int>, feb: seq<int>)
    requires jan == [100, 200] && feb == [50]
    ensures Sum(jan) == 300
    ensures Mean(jan) == 150.0
    ensures Median.MedianOf(jan) == 150
    ensures Sum(feb) == 50 && Mean(feb) == 50.0 && Median.MedianOf(feb) == 50
  {
    JanuaryValues(jan);
    FebruaryValues(feb);
  }

  lemma JanuaryValues(jan: seq<int>)
    requires |jan| == 2 && jan[0] == 100 && jan[1] == 200
    ensures Sum(jan) == 300 && Mean(jan) == 150.0 && Median.MedianOf(jan) == 150
  {
    var t := jan[1..];
    assert t[0] == 200 && t[1..] == [];
    assert Sum(t) == 200;
    assert Median.Sorted(jan);
    Median.MedianOfArrangement(jan, jan);
  }

  lemma FebruaryValues(feb: seq<int>)
    requires |feb| == 1 && feb[0] == 50
    ensures Sum(feb) == 50 && Mean(feb) == 50.0 && Median.MedianOf(feb) == 50
  {
    assert feb[1..] == [];
    assert Median.Sorted(feb);
    Median.MedianOfArrangement(feb, feb);
  }
}
