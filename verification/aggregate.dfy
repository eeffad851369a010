/** The weekly aggregations: per-ticker counts of one batch
    (`500_GDELT_fetcher.py`), one row per chunk (`apple_fetcher.py`), and the
    weekly resampling of one ticker's rows (`500_GDELT_fetcherV3.py`). Means
    are kept as a tone sum next to the count; dividing is left to the reader. */
module Aggregate {
  import opened Wrappers
  import opened Seqs
  import opened Sorting
  import opened Dates
  import opened Rows

  /** A matched row of `500_GDELT_fetcher.py` after `dropna()`: date, tone and
      ticker are all present. */
  datatype Tagged = Tagged(date: string, tone: real, ticker: string)

  /** A kept row of `apple_fetcher.py` after `dropna()`. */
  datatype Observation = Observation(date: string, tone: real)

  /** One output line of `extract_weekly_sentiment` in `500_GDELT_fetcher.py`. */
  datatype TickerWeek = TickerWeek(week: string, ticker: string, toneSum: real, count: nat)

  /** The single output line of `extract_weekly_sentiment` in
      `apple_fetcher.py`. */
  datatype ChunkWeek = ChunkWeek(week: string, toneSum: real, count: nat)

  /** One output line of the weekly resampling of `500_GDELT_fetcherV3.py`;
      `week` is the index of the calendar week. */
  datatype WeekBin = WeekBin(week: int, ticker: string, toneSum: real, count: nat)

  function TickerOf(r: Tagged): string { r.ticker }

  /** The rows left by `to_datetime(..., errors='coerce')` and
      `dropna(subset=['SQLDATE'])`. */
  function DatedTagged(rows: seq<Tagged>): (r: seq<Tagged>)
    ensures forall i :: 0 <= i < |r| ==> ParseSqlDate(r[i].date).Some?
    ensures forall i :: 0 <= i < |rows| && ParseSqlDate(rows[i].date).Some? ==> rows[i] in r
  {
    Filter(rows, (t: Tagged) => ParseSqlDate(t.date).Some?)
  }

  function ToneSum(rows: seq<Tagged>, ticker: string): real {
    if rows == [] then 0.0
    else (if rows[0].ticker == ticker then rows[0].tone else 0.0) + ToneSum(rows[1..], ticker)
  }

  /** The distinct names, in ascending order. */
  function SortedUnique(names: seq<string>): (ks: seq<string>)
    ensures Sorted(ks) && Distinct(ks)
    ensures forall x :: x in ks <==> x in names
  {
    var unique := Dedup(names);
    var ks := Sort(unique);
    DistinctPermutation(unique, ks);
    SameMembers(unique, ks);
    ks
  }

  /** The groupby keys: each ticker once, in ascending order. */
  function GroupKeys(rows: seq<Tagged>): (ks: seq<string>)
    ensures Sorted(ks) && Distinct(ks)
    ensures forall i :: 0 <= i < |rows| ==> rows[i].ticker in ks
    ensures forall i :: 0 <= i < |ks| ==> exists j :: 0 <= j < |rows| && rows[j].ticker == ks[i]
  {
    var names := Map(rows, TickerOf);
    var ks := SortedUnique(names);
    forall i | 0 <= i < |ks|
      ensures exists j :: 0 <= j < |rows| && rows[j].ticker == ks[i]
    {
      assert ks[i] in names;
      var j :| 0 <= j < |names| && names[j] == ks[i];
      assert rows[j].ticker == ks[i];
    }
    assert forall i :: 0 <= i < |rows| ==> names[i] in ks;
    ks
  }

  /** One output line per key, in key order. */
  function Summaries(dated: seq<Tagged>, ks: seq<string>, week: string): (out: seq<TickerWeek>)
    ensures |out| == |ks|
    ensures forall i :: 0 <= i < |ks| ==>
              out[i] == TickerWeek(week, ks[i], ToneSum(dated, ks[i]), CountKey(dated, TickerOf, ks[i]))
  {
    if ks == [] then []
    else [TickerWeek(week, ks[0], ToneSum(dated, ks[0]), CountKey(dated, TickerOf, ks[0]))]
         + Summaries(dated, ks[1..], week)
  }

  /** `groupby("Ticker").agg(mean, count)` of one batch, labelled with the
      batch prefix: one line per ticker of a dated row, holding that ticker's
      tone total and number of dated rows. */
  function ExtractWeekly(rows: seq<Tagged>, week: string): (out: seq<TickerWeek>)
    ensures forall i :: 0 <= i < |out| ==> out[i].week == week
    ensures forall i :: 0 <= i < |out| ==>
              out[i].count == CountKey(DatedTagged(rows), TickerOf, out[i].ticker) && out[i].count > 0
    ensures forall i :: 0 <= i < |out| ==> out[i].toneSum == ToneSum(DatedTagged(rows), out[i].ticker)
    ensures forall i, j :: 0 <= i < j < |out| ==> out[i].ticker != out[j].ticker
    ensures forall i :: 0 <= i < |rows| && ParseSqlDate(rows[i].date).Some? ==>
              exists j :: 0 <= j < |out| && out[j].ticker == rows[i].ticker
  {
    var dated := DatedTagged(rows);
    var ks := GroupKeys(dated);
    var out := Summaries(dated, ks, week);
    KeysCounted(dated, ks);
    RowsCovered(rows, dated, ks, out);
    out
  }

  /** Every key of the grouping is the ticker of at least one row. */
  lemma KeysCounted(dated: seq<Tagged>, ks: seq<string>)
    requires forall i :: 0 <= i < |ks| ==> exists j :: 0 <= j < |dated| && dated[j].ticker == ks[i]
    ensures forall i :: 0 <= i < |ks| ==> CountKey(dated, TickerOf, ks[i]) > 0
  {
    forall i | 0 <= i < |ks|
      ensures CountKey(dated, TickerOf, ks[i]) > 0
    {
      var j :| 0 <= j < |dated| && dated[j].ticker == ks[i];
      assert TickerOf(dated[j]) == ks[i];
    }
  }

  lemma RowsCovered(rows: seq<Tagged>, dated: seq<Tagged>, ks: seq<string>, out: seq<TickerWeek>)
    requires dated == DatedTagged(rows)
    requires forall i :: 0 <= i < |dated| ==> dated[i].ticker in ks
    requires |out| == |ks| && forall j :: 0 <= j < |ks| ==> out[j].ticker == ks[j]
    ensures forall i :: 0 <= i < |rows| && ParseSqlDate(rows[i].date).Some? ==>
              exists j :: 0 <= j < |out| && out[j].ticker == rows[i].ticker
  {
    forall i | 0 <= i < |rows| && ParseSqlDate(rows[i].date).Some?
      ensures exists j :: 0 <= j < |out| && out[j].ticker == rows[i].ticker
    {
      var k :| 0 <= k < |dated| && dated[k] == rows[i];
      var j :| 0 <= j < |ks| && ks[j] == dated[k].ticker;
      assert out[j].ticker == rows[i].ticker;
    }
  }

  function SumOfCounts(out: seq<TickerWeek>): nat {
    if out == [] then 0 else out[0].count + SumOfCounts(out[1..])
  }

  /** Grouping neither loses nor double-counts a row: the counts of one
      batch add up to its number of dated rows. */
  lemma CountsAddUp(rows: seq<Tagged>, week: string)
    ensures SumOfCounts(ExtractWeekly(rows, week)) == |DatedTagged(rows)|
  {
    var dated := DatedTagged(rows);
    var ks := GroupKeys(dated);
    GroupCountsPartition(dated, TickerOf, ks);
    SumOfCountsKeys(ExtractWeekly(rows, week), dated, ks);
  }

  lemma {:induction false} SumOfCountsKeys(out: seq<TickerWeek>, dated: seq<Tagged>, ks: seq<string>)
    requires |out| == |ks|
    requires forall i :: 0 <= i < |ks| ==> out[i].count == CountKey(dated, TickerOf, ks[i])
    ensures SumOfCounts(out) == SumCounts(dated, TickerOf, ks)
  {
    if ks != [] {
      SumOfCountsKeys(out[1..], dated, ks[1..]);
    }
  }

  /** An observation whose SQLDATE parses. */
  predicate HasDate(o: Observation) {
    ParseSqlDate(o.date).Some?
  }

  function ObservationSum(rows: seq<Observation>): real {
    if rows == [] then 0.0 else rows[0].tone + ObservationSum(rows[1..])
  }

  /** The AvgTone total and the number of the rows whose SQLDATE parses,
      in one pass. */
  function DatedSum(rows: seq<Observation>): real {
    if rows == [] then 0.0 else (if HasDate(rows[0]) then rows[0].tone else 0.0) + DatedSum(rows[1..])
  }

  function DatedCount(rows: seq<Observation>): nat {
    if rows == [] then 0 else (if HasDate(rows[0]) then 1 else 0) + DatedCount(rows[1..])
  }

  /** `extract_weekly_sentiment` of `apple_fetcher.py`: always exactly one
      line, over the rows left by `to_datetime(..., errors='coerce')` and
      `dropna(subset=['SQLDATE'])`. */
  function ChunkSummary(rows: seq<Observation>, week: string): ChunkWeek {
    ChunkWeek(week, DatedSum(rows), DatedCount(rows))
  }

  /** The one-pass totals are those of the rows `dropna` keeps. */
  lemma {:induction false} DatedTotals(rows: seq<Observation>)
    ensures DatedSum(rows) == ObservationSum(Filter(rows, HasDate))
    ensures DatedCount(rows) == |Filter(rows, HasDate)|
  {
    if rows != [] {
      DatedTotals(rows[1..]);
      FilterCons(rows, HasDate);
      var rest := Filter(rows[1..], HasDate);
      if HasDate(rows[0]) {
        assert ([rows[0]] + rest)[1..] == rest;
      } else {
        assert [] + rest == rest;
      }
    }
  }

  /** The line carries the given label, sums and counts the rows whose date
      parses, and counts all rows exactly when every date parses. */
  lemma ChunkSummaryCounts(rows: seq<Observation>, week: string)
    ensures ChunkSummary(rows, week).week == week
    ensures ChunkSummary(rows, week).toneSum == ObservationSum(Filter(rows, HasDate))
    ensures ChunkSummary(rows, week).count == CountKey(rows, HasDate, true)
    ensures ChunkSummary(rows, week).count == |rows| <==> forall i :: 0 <= i < |rows| ==> ParseSqlDate(rows[i].date).Some?
  {
    DatedTotals(rows);
    FilterKeepsAll(rows, HasDate);
    FilterCount(rows, HasDate);
  }

  /** A row as the resampling sees it: the week of its SQLDATE (None when
      the date does not parse and the row is dropped) and its AvgTone. */
  datatype Stamp = Stamp(week: Option<int>, tone: Option<real>)

  function StampOf(r: DateTone): (s: Stamp)
    ensures s.tone == r.avgTone
    ensures s.week.Some? <==> r.sqlDate.Some? && ParseSqlDate(r.sqlDate.value).Some?
    ensures s.week.Some? ==> s.week == Some(WeekOf(ParseSqlDate(r.sqlDate.value).value))
  {
    match r.sqlDate
    case None => Stamp(None, r.avgTone)
    case Some(text) =>
      match ParseSqlDate(text)
      case None => Stamp(None, r.avgTone)
      case Some(d) => Stamp(Some(WeekOf(d)), r.avgTone)
  }

  predicate Dated(s: Stamp) { s.week.Some? }

  /** A row a weekly bin counts: dated, with an AvgTone present. */
  predicate Counted(s: Stamp) { s.week.Some? && s.tone.Some? }

  function WeekKey(s: Stamp): int { if s.week.Some? then s.week.value else 0 }

  /** The tones of the counted rows of week `w`, added up. */
  function WeekToneSum(ss: seq<Stamp>, w: int): real {
    if ss == [] then 0.0
    else (if Counted(ss[0]) && ss[0].week.value == w then ss[0].tone.value else 0.0)
         + WeekToneSum(ss[1..], w)
  }

  function MinOf(s: seq<int>): (m: int)
    requires s != []
    ensures m in s && forall i :: 0 <= i < |s| ==> m <= s[i]
  {
    if |s| == 1 then s[0]
    else
      var m := MinOf(s[1..]);
      assert forall i :: 1 <= i < |s| ==> s[i] == s[1..][i - 1];
      if s[0] <= m then s[0] else m
  }

  function MaxOf(s: seq<int>): (m: int)
    requires s != []
    ensures m in s && forall i :: 0 <= i < |s| ==> s[i] <= m
  {
    if |s| == 1 then s[0]
    else
      var m := MaxOf(s[1..]);
      assert forall i :: 1 <= i < |s| ==> s[i] == s[1..][i - 1];
      if s[0] >= m then s[0] else m
  }

  /** The weeks `lo`, `lo + 1`, ..., `lo + n - 1`. */
  function Range(lo: int, n: nat): (r: seq<int>)
    ensures |r| == n && forall i :: 0 <= i < n ==> r[i] == lo + i
    decreases n
  {
    if n == 0 then [] else [lo] + Range(lo + 1, n - 1)
  }

  /** The bin of week `w`: the tones and the number of the counted rows of
      that week. */
  function BinOf(ss: seq<Stamp>, ticker: string): int -> WeekBin {
    (w: int) => WeekBin(w, ticker, WeekToneSum(ss, w), CountKey(Filter(ss, Counted), WeekKey, w))
  }

  /** `n` consecutive bins from week `lo` on. */
  function Bins(ss: seq<Stamp>, ticker: string, lo: int, n: nat): (bs: seq<WeekBin>)
    ensures |bs| == n
    ensures forall i :: 0 <= i < n ==> bs[i].week == lo + i && bs[i].ticker == ticker
  {
    var bs := Map(Range(lo, n), BinOf(ss, ticker));
    assert forall i :: 0 <= i < n ==> bs[i] == BinOf(ss, ticker)(lo + i);
    bs
  }

  /** The bin of week `w` holds the tones and the number of the counted
      rows of week `w`. */
  lemma BinAt(ss: seq<Stamp>, ticker: string, lo: int, n: nat, i: nat)
    requires i < n
    ensures var b := Bins(ss, ticker, lo, n)[i];
            b.toneSum == WeekToneSum(ss, lo + i) && b.count == CountKey(Filter(ss, Counted), WeekKey, lo + i)
  {
    assert Bins(ss, ticker, lo, n)[i] == BinOf(ss, ticker)(lo + i);
  }

  /** The bins of the stamped rows: every week from the earliest dated row's
      to the latest one's. */
  function BinStamps(ss: seq<Stamp>, ticker: string): (bs: seq<WeekBin>)
    ensures bs == [] <==> forall i :: 0 <= i < |ss| ==> !Dated(ss[i])
    ensures forall i :: 0 <= i < |bs| ==> bs[i].ticker == ticker
    ensures forall i :: 0 < i < |bs| ==> bs[i].week == bs[i - 1].week + 1
  {
    var weeks := DatedWeeks(ss);
    if weeks == [] then []
    else
      var lo := MinOf(weeks);
      Bins(ss, ticker, lo, MaxOf(weeks) - lo + 1)
  }

  /** The span of the dated weeks: from the earliest to the latest, both
      weeks of some dated row. */
  lemma WeeksSpan(ss: seq<Stamp>)
    requires DatedWeeks(ss) != []
    ensures forall i :: 0 <= i < |ss| && Dated(ss[i]) ==>
              MinOf(DatedWeeks(ss)) <= ss[i].week.value <= MaxOf(DatedWeeks(ss))
    ensures exists i :: 0 <= i < |ss| && ss[i].week == Some(MinOf(DatedWeeks(ss)))
    ensures exists i :: 0 <= i < |ss| && ss[i].week == Some(MaxOf(DatedWeeks(ss)))
  {
    var weeks := DatedWeeks(ss);
    var lo, hi := MinOf(weeks), MaxOf(weeks);
    forall i | 0 <= i < |ss| && Dated(ss[i])
      ensures lo <= ss[i].week.value <= hi
    {
      var k :| 0 <= k < |weeks| && weeks[k] == ss[i].week.value;
    }
  }

  /** Every bin holds its week's tones and count of counted rows. */
  lemma BinStampsAt(ss: seq<Stamp>, ticker: string, i: nat)
    requires i < |BinStamps(ss, ticker)|
    ensures var b := BinStamps(ss, ticker)[i];
            b.toneSum == WeekToneSum(ss, b.week) && b.count == CountKey(Filter(ss, Counted), WeekKey, b.week)
  {
    var weeks := DatedWeeks(ss);
    var lo := MinOf(weeks);
    var n := MaxOf(weeks) - lo + 1;
    assert BinStamps(ss, ticker) == Bins(ss, ticker, lo, n);
    BinAt(ss, ticker, lo, n, i);
  }

  /** The weeks of the dated rows, in row order. */
  function DatedWeeks(ss: seq<Stamp>): (ws: seq<int>)
    ensures ws == [] <==> forall i :: 0 <= i < |ss| ==> !Dated(ss[i])
    ensures forall i :: 0 <= i < |ss| && Dated(ss[i]) ==> ss[i].week.value in ws
    ensures forall w :: w in ws ==> exists i :: 0 <= i < |ss| && ss[i].week == Some(w)
  {
    if ss == [] then []
    else
      var rest := DatedWeeks(ss[1..]);
      assert forall i :: 1 <= i < |ss| ==> ss[i] == ss[1..][i - 1];
      forall w | w in rest
        ensures exists i :: 0 <= i < |ss| && ss[i].week == Some(w)
      {
        var i :| 0 <= i < |ss[1..]| && ss[1..][i].week == Some(w);
        assert ss[i + 1].week == Some(w);
      }
      if Dated(ss[0]) then [ss[0].week.value] + rest else rest
  }

  /** `resample('W')['AvgTone'].agg(['mean', 'count'])` with the ticker
      inserted: one bin for every week from the first dated row's week to the
      last one's, empty weeks included; each bin counts the week's rows that
      have a tone. */
  function Resample(rows: seq<DateTone>, ticker: string): (bs: seq<WeekBin>)
    ensures bs == [] <==> forall i :: 0 <= i < |rows| ==> !Dated(StampOf(rows[i]))
    ensures forall i :: 0 <= i < |bs| ==> bs[i].ticker == ticker
    ensures forall i :: 0 < i < |bs| ==> bs[i].week == bs[i - 1].week + 1
  {
    var ss := Map(rows, StampOf);
    BinStamps(ss, ticker)
  }

  /** A counted stamp whose week lies in the range is counted in that
      week's bin. */
  lemma BinsCount(ss: seq<Stamp>, ticker: string, lo: int, n: nat, j: nat)
    requires j < |ss| && Counted(ss[j]) && lo <= ss[j].week.value < lo + n
    ensures Bins(ss, ticker, lo, n)[ss[j].week.value - lo].count > 0
  {
    var w := ss[j].week.value;
    BinAt(ss, ticker, lo, n, w - lo);
    var counted := Filter(ss, Counted);
    assert ss[j] in counted;
    var m :| 0 <= m < |counted| && counted[m] == ss[j];
    assert WeekKey(counted[m]) == w;
  }

  /** A dated stamp's week lies between the earliest and the latest dated
      week. */
  lemma DatedInSpan(ss: seq<Stamp>, j: nat)
    requires j < |ss| && Dated(ss[j])
    ensures DatedWeeks(ss) != []
    ensures MinOf(DatedWeeks(ss)) <= ss[j].week.value <= MaxOf(DatedWeeks(ss))
  {
    var weeks := DatedWeeks(ss);
    var k :| 0 <= k < |weeks| && weeks[k] == ss[j].week.value;
  }

  /** Every counted stamp is counted in the bin of its own week. */
  lemma BinStampsCount(ss: seq<Stamp>, ticker: string, j: nat)
    requires j < |ss| && Counted(ss[j])
    ensures exists k :: 0 <= k < |BinStamps(ss, ticker)| &&
              BinStamps(ss, ticker)[k].week == ss[j].week.value && BinStamps(ss, ticker)[k].count > 0
  {
    var w := ss[j].week.value;
    var weeks := DatedWeeks(ss);
    DatedInSpan(ss, j);
    var lo, hi := MinOf(weeks), MaxOf(weeks);
    var n := hi - lo + 1;
    assert BinStamps(ss, ticker) == Bins(ss, ticker, lo, n);
    BinsCount(ss, ticker, lo, n, j);
    assert Bins(ss, ticker, lo, n)[w - lo].week == w;
  }

  /** Every row with a parseable SQLDATE and an AvgTone is counted in the
      bin of its own week. */
  lemma ResampleCountsRow(rows: seq<DateTone>, ticker: string, j: nat)
    requires j < |rows| && Counted(StampOf(rows[j]))
    ensures exists k :: 0 <= k < |Resample(rows, ticker)| &&
              Resample(rows, ticker)[k].week == StampOf(rows[j]).week.value && Resample(rows, ticker)[k].count > 0
  {
    var ss := Map(rows, StampOf);
    assert Resample(rows, ticker) == BinStamps(ss, ticker);
    BinStampsCount(ss, ticker, j);
  }

  /** The bins span exactly the weeks of the dated rows: the first and the
      last bin are weeks of some dated row, and every dated row falls in
      between. */
  lemma BinSpan(ss: seq<Stamp>, ticker: string)
    ensures BinStamps(ss, ticker) != [] ==>
              (forall i :: 0 <= i < |ss| && Dated(ss[i]) ==>
                 First(BinStamps(ss, ticker)).week <= ss[i].week.value <= Last(BinStamps(ss, ticker)).week) &&
              (exists i :: 0 <= i < |ss| && ss[i].week == Some(First(BinStamps(ss, ticker)).week)) &&
              (exists i :: 0 <= i < |ss| && ss[i].week == Some(Last(BinStamps(ss, ticker)).week))
  {
    var weeks := DatedWeeks(ss);
    if weeks != [] {
      var lo, hi := MinOf(weeks), MaxOf(weeks);
      WeeksSpan(ss);
      assert BinStamps(ss, ticker) == Bins(ss, ticker, lo, hi - lo + 1);
      BinEnds(ss, ticker, lo, hi - lo + 1);
    }
  }

  /** The first bin is week `lo`, the last week `lo + n - 1`. */
  lemma BinEnds(ss: seq<Stamp>, ticker: string, lo: int, n: nat)
    requires n > 0
    ensures First(Bins(ss, ticker, lo, n)).week == lo
    ensures Last(Bins(ss, ticker, lo, n)).week == lo + n - 1
  {
  }

  function SumOfBinCounts(bs: seq<WeekBin>): nat {
    if bs == [] then 0 else bs[0].count + SumOfBinCounts(bs[1..])
  }

  /** Resampling neither loses nor double-counts a row: the bin counts add
      up to the number of dated rows with a tone. */
  lemma BinCountsAddUp(ss: seq<Stamp>, ticker: string)
    ensures SumOfBinCounts(BinStamps(ss, ticker)) == |Filter(ss, Counted)|
  {
    var bs := BinStamps(ss, ticker);
    var weeks := DatedWeeks(ss);
    if weeks == [] {
      FilterNone(ss, Counted);
    } else {
      var lo := MinOf(weeks);
      var n := MaxOf(weeks) - lo + 1;
      assert bs == Bins(ss, ticker, lo, n);
      WeeksSpan(ss);
      BinsAddUp(ss, ticker, lo, n);
    }
  }

  /** Bins spanning every dated row count each counted row once. */
  lemma BinsAddUp(ss: seq<Stamp>, ticker: string, lo: int, n: nat)
    requires forall i :: 0 <= i < |ss| && Dated(ss[i]) ==> lo <= ss[i].week.value < lo + n
    ensures SumOfBinCounts(Bins(ss, ticker, lo, n)) == |Filter(ss, Counted)|
  {
    var bs := Bins(ss, ticker, lo, n);
    var counted := Filter(ss, Counted);
    var r := Range(lo, n);
    forall i | 0 <= i < |counted|
      ensures WeekKey(counted[i]) in r
    {
      WeekInRange(ss, lo, n, counted[i]);
    }
    GroupCountsPartition(counted, WeekKey, r);
    forall i | 0 <= i < |bs|
      ensures bs[i].count == CountKey(counted, WeekKey, bs[i].week)
    {
      BinAt(ss, ticker, lo, n, i);
    }
    SumOfBinCountsKeys(bs, counted, r);
  }

  /** A dated row whose week lies in the span has a place in the range. */
  lemma WeekInRange(ss: seq<Stamp>, lo: int, n: nat, s: Stamp)
    requires forall i :: 0 <= i < |ss| && Dated(ss[i]) ==> lo <= ss[i].week.value < lo + n
    requires s in ss && Dated(s)
    ensures WeekKey(s) in Range(lo, n)
  {
    var j :| 0 <= j < |ss| && ss[j] == s;
    assert Range(lo, n)[s.week.value - lo] == WeekKey(s);
  }

  lemma {:induction false} SumOfBinCountsKeys(bs: seq<WeekBin>, counted: seq<Stamp>, weeks: seq<int>)
    requires |bs| == |weeks|
    requires forall i :: 0 <= i < |bs| ==> weeks[i] == bs[i].week
    requires forall i :: 0 <= i < |bs| ==> bs[i].count == CountKey(counted, WeekKey, bs[i].week)
    ensures SumOfBinCounts(bs) == SumCounts(counted, WeekKey, weeks)
  {
    if bs != [] {
      SumOfBinCountsKeys(bs[1..], counted, weeks[1..]);
    }
  }
}
