/** The aggregation helpers of `DashboardService`
    (src/dashboard/dashboard.service.ts): time buckets and the lookup of the
    bucket a timestamp falls in, the counting loops of the three time
    series, the tag frequency table behind `topTags`, the range string of
    `_parseRangeStart`, the view/read totals of `accessLast30` and the
    "missing" arithmetic of `overview`.

    Time is an integer number of milliseconds. The calendar steps
    (`setDate(+1)`, `setDate(+7)`, `setMonth(+1)`) and the date parts read
    for the labels (`toISOString`, `getFullYear`, `getMonth`) are inputs:
    a `Calendar` whose steps strictly advance time. */
module Dashboard {
  import opened Wrappers
  import opened Text

  // ------------------------------------------------------------ calendar

  datatype Interval = Day | Week | Month

  /** A calendar date; `month` counts from 1, as `getMonth() + 1` does. */
  datatype CivilDate = CivilDate(year: nat, month: nat, day: nat)

  /** The calendar facts the service reads from a `Date`: the end of the
      bucket that starts at a time, for each interval, and the UTC date
      (`toISOString`) and local date (`getFullYear`/`getMonth`) of a time. */
  datatype Calendar = Calendar(
    next: (Interval, int) -> int,
    utc: int -> CivilDate,
    local: int -> CivilDate)

  /** Every interval step moves time forward. */
  ghost predicate Advances(cal: Calendar) {
    forall i, t :: cal.next(i, t) > t
  }

  predicate ValidDate(d: CivilDate) {
    d.year < 10000 && 1 <= d.month <= 12 && 1 <= d.day <= 31
  }

  // -------------------------------------------------------------- labels

  function Pad2(n: nat): string {
    PadStart(NatToString(n), 2)
  }

  /** `d.toISOString().slice(0, 10)` for a year of at most four digits. */
  function IsoDate(d: CivilDate): string {
    PadStart(NatToString(d.year), 4) + "-" + Pad2(d.month) + "-" + Pad2(d.day)
  }

  /** The label of the bucket that starts at `from`. */
  function Label(interval: Interval, from: int, cal: Calendar): string {
    match interval
    case Day => IsoDate(cal.utc(from))
    case Week => IsoDate(cal.utc(from)) + " (wk)"
    case Month => NatToString(cal.local(from).year) + "-" + Pad2(cal.local(from).month)
  }

  function Pow10(k: nat): nat {
    if k == 0 then 1 else 10 * Pow10(k - 1)
  }

  /** A number below `10^k` prints in at most `k` digits. */
  lemma {:induction false} PrintedWidth(n: nat, k: nat)
    requires 1 <= k && n < Pow10(k)
    ensures |NatToString(n)| <= k
    decreases k
  {
    if n >= 10 {
      assert k >= 2;
      PrintedWidth(n / 10, k - 1);
    }
  }

  /** A zero-padded number of `width` digits that fits in the width is
      `width` digits that read back as the number. */
  lemma PaddedField(n: nat, width: nat)
    requires 1 <= width && n < Pow10(width)
    ensures var s := PadStart(NatToString(n), width);
      |s| == width && AllDigits(s) && ParseDigits(s) == n
  {
    PrintedWidth(n, width);
    ParsePadded(NatToString(n), width);
    ParsePrinted(n);
  }

  /** A day label is `YYYY-MM-DD`: ten characters, dashes at 4 and 7, and
      the three fields read back as the year, month and day. */
  lemma IsoDateFields(d: CivilDate)
    requires ValidDate(d)
    ensures var s := IsoDate(d);
      && |s| == 10 && s[4] == '-' && s[7] == '-'
      && AllDigits(s[..4]) && ParseDigits(s[..4]) == d.year
      && AllDigits(s[5..7]) && ParseDigits(s[5..7]) == d.month
      && AllDigits(s[8..]) && ParseDigits(s[8..]) == d.day
  {
    PaddedField(d.year, 4);
    PaddedField(d.month, 2);
    PaddedField(d.day, 2);
    Dashed(PadStart(NatToString(d.year), 4), Pad2(d.month), Pad2(d.day));
  }

  lemma Dashed(y: string, m: string, dd: string)
    requires |y| == 4 && |m| == 2 && |dd| == 2
    ensures var s := y + "-" + m + "-" + dd;
      |s| == 10 && s[4] == '-' && s[7] == '-' && s[..4] == y && s[5..7] == m && s[8..] == dd
  {
    var s := y + "-" + m + "-" + dd;
    assert s[..4] == y;
    assert s[5..7] == m;
    assert s[8..] == dd;
  }

  /** A week label is the day label of its start followed by ` (wk)`. */
  lemma WeekLabel(from: int, cal: Calendar)
    ensures Label(Week, from, cal) == Label(Day, from, cal) + " (wk)"
    ensures ValidDate(cal.utc(from)) ==> EndsWith(Label(Week, from, cal), " (wk)") && |Label(Week, from, cal)| == 15
  {
    var day := IsoDate(cal.utc(from));
    assert Label(Day, from, cal) == day;
    assert Label(Week, from, cal) == day + " (wk)";
    if ValidDate(cal.utc(from)) {
      IsoDateFields(cal.utc(from));
      EndsWithConcat(day, " (wk)");
    }
  }

  /** A month label is the local year, a dash, and the month in two
      digits. */
  lemma MonthLabel(from: int, cal: Calendar)
    requires 1 <= cal.local(from).month <= 12
    ensures var s := Label(Month, from, cal);
      var m := s[|s| - 2..];
      && s[..|s| - 3] == NatToString(cal.local(from).year) && s[|s| - 3] == '-'
      && AllDigits(m) && ParseDigits(m) == cal.local(from).month
  {
    var d := cal.local(from);
    assert Label(Month, from, cal) == NatToString(d.year) + "-" + Pad2(d.month);
    MonthText(d.year, d.month);
  }

  lemma MonthText(year: nat, month: nat)
    requires 1 <= month <= 12
    ensures var s := NatToString(year) + "-" + Pad2(month);
      var m := s[|s| - 2..];
      && s[..|s| - 3] == NatToString(year) && s[|s| - 3] == '-'
      && AllDigits(m) && ParseDigits(m) == month
  {
    PaddedField(month, 2);
    DashedTail(NatToString(year), Pad2(month));
  }

  lemma DashedTail(y: string, m: string)
    requires |m| == 2
    ensures var s := y + "-" + m;
      s[..|s| - 3] == y && s[|s| - 3] == '-' && s[|s| - 2..] == m
  {
    var s := y + "-" + m;
    assert s[..|s| - 3] == y;
    assert s[|s| - 2..] == m;
  }

  // ------------------------------------------------------------- buckets

  datatype Bucket = Bucket(from: int, to: int, labelText: string)

  /** The buckets `_buildBuckets` pushes from `cur` on: one per start time
      up to and including `end`, each ending where the next begins. */
  function Buckets(cur: int, end: int, interval: Interval, cal: Calendar): seq<Bucket>
    requires Advances(cal)
    decreases end - cur
  {
    if cur > end then []
    else
      var to := cal.next(interval, cur);
      [Bucket(cur, to, Label(interval, cur, cal))] + Buckets(to, end, interval, cal)
  }

  /** The label branch of `_buildBuckets`' loop body. */
  method BucketLabel(interval: Interval, from: int, cal: Calendar) returns (text: string)
    ensures text == Label(interval, from, cal)
  {
    if interval == Day {
      text := IsoDate(cal.utc(from));
    } else if interval == Week {
      text := IsoDate(cal.utc(from)) + " (wk)";
    } else {
      text := NatToString(cal.local(from).year) + "-" + Pad2(cal.local(from).month);
    }
  }

  /** `_buildBuckets`: `while (cur <= end)` pushes a bucket and moves `cur`
      to its end. */
  method BuildBuckets(start: int, end: int, interval: Interval, cal: Calendar) returns (buckets: seq<Bucket>)
    requires Advances(cal)
    ensures buckets == Buckets(start, end, interval, cal)
  {
    buckets := [];
    var cur := start;
    while cur <= end
      invariant buckets + Buckets(cur, end, interval, cal) == Buckets(start, end, interval, cal)
      decreases end - cur
    {
      var to := cal.next(interval, cur);
      var text := BucketLabel(interval, cur, cal);
      assert Buckets(cur, end, interval, cal) == [Bucket(cur, to, text)] + Buckets(to, end, interval, cal);
      assert (buckets + [Bucket(cur, to, text)]) + Buckets(to, end, interval, cal)
        == buckets + ([Bucket(cur, to, text)] + Buckets(to, end, interval, cal));
      buckets := buckets + [Bucket(cur, to, text)];
      cur := to;
    }
  }

  /** The buckets are contiguous: the first starts at `start`, each starts
      where the previous ends, each starts no later than `end` and is one
      calendar step long, and the last ends after `end`. There are none
      exactly when `start > end`. */
  lemma {:induction false} BucketsContiguous(start: int, end: int, interval: Interval, cal: Calendar)
    requires Advances(cal)
    ensures var bs := Buckets(start, end, interval, cal);
      && (bs == [] <==> start > end)
      && (bs != [] ==> bs[0].from == start && bs[|bs| - 1].to > end)
      && (forall i :: 0 <= i < |bs| ==>
            bs[i].from <= end && bs[i].to == cal.next(interval, bs[i].from)
            && bs[i].labelText == Label(interval, bs[i].from, cal))
      && (forall i :: 0 <= i < |bs| - 1 ==> bs[i].to == bs[i + 1].from)
    decreases end - start
  {
    if start <= end {
      var to := cal.next(interval, start);
      BucketsContiguous(to, end, interval, cal);
    }
  }

  /** Later buckets start no earlier than earlier ones end. */
  lemma {:induction false} BucketsOrdered(start: int, end: int, interval: Interval, cal: Calendar)
    requires Advances(cal)
    ensures var bs := Buckets(start, end, interval, cal);
      forall i, j :: 0 <= i < j < |bs| ==> bs[i].to <= bs[j].from
    decreases end - start
  {
    if start <= end {
      var to := cal.next(interval, start);
      var rest := Buckets(to, end, interval, cal);
      BucketsOrdered(to, end, interval, cal);
      BucketsContiguous(to, end, interval, cal);
      var bs := Buckets(start, end, interval, cal);
      forall i, j | 0 <= i < j < |bs|
        ensures bs[i].to <= bs[j].from
      {
        if i == 0 {
          assert bs[j] == rest[j - 1];
          if j > 1 {
            assert rest[0].from < rest[0].to <= rest[j - 1].from;
          }
        } else {
          assert bs[i] == rest[i - 1] && bs[j] == rest[j - 1];
        }
      }
    }
  }

  /** Every time from `start` up to the end of the last bucket lies in some
      bucket. */
  lemma {:induction false} BucketsCover(start: int, end: int, interval: Interval, cal: Calendar, ts: int)
    requires Advances(cal)
    requires Buckets(start, end, interval, cal) != []
    requires start <= ts < Buckets(start, end, interval, cal)[|Buckets(start, end, interval, cal)| - 1].to
    ensures exists k :: 0 <= k < |Buckets(start, end, interval, cal)| && InBucket(ts, Buckets(start, end, interval, cal)[k])
    decreases end - start
  {
    var bs := Buckets(start, end, interval, cal);
    var to := cal.next(interval, start);
    var rest := Buckets(to, end, interval, cal);
    if ts < to {
      assert InBucket(ts, bs[0]);
    } else {
      assert rest != [];
      assert bs[|bs| - 1] == rest[|rest| - 1];
      BucketsCover(to, end, interval, cal, ts);
      var k :| 0 <= k < |rest| && InBucket(ts, rest[k]);
      assert bs[k + 1] == rest[k];
    }
  }

  // -------------------------------------------------------------- lookup

  predicate InBucket(ts: int, b: Bucket) {
    b.from <= ts < b.to
  }

  /** The first bucket holding `ts`, or -1 when none does. */
  function FirstBucket(ts: int, bs: seq<Bucket>): (i: int)
    ensures -1 <= i < |bs|
    ensures i == -1 <==> forall k :: 0 <= k < |bs| ==> !InBucket(ts, bs[k])
    ensures i >= 0 ==> InBucket(ts, bs[i]) && forall k :: 0 <= k < i ==> !InBucket(ts, bs[k])
  {
    if bs == [] then -1
    else if InBucket(ts, bs[0]) then 0
    else
      var j := FirstBucket(ts, bs[1..]);
      assert forall k :: 1 <= k < |bs| ==> bs[k] == bs[1..][k - 1];
      if j == -1 then -1 else j + 1
  }

  /** `_bucketIndex`: the index loop returns at the first bucket holding
      the time, and -1 after the last. */
  method BucketIndex(ts: int, bs: seq<Bucket>) returns (i: int)
    ensures i == FirstBucket(ts, bs)
  {
    for k := 0 to |bs|
      invariant forall j :: 0 <= j < k ==> !InBucket(ts, bs[j])
    {
      if ts >= bs[k].from && ts < bs[k].to {
        return k;
      }
    }
    return -1;
  }

  /** In the service's buckets a time lies in at most one bucket, and it
      lies in one exactly when it is between `start` and the end of the
      last bucket. */
  lemma BucketUnique(start: int, end: int, interval: Interval, cal: Calendar, ts: int)
    requires Advances(cal)
    ensures var bs := Buckets(start, end, interval, cal);
      && (forall k :: 0 <= k < |bs| && InBucket(ts, bs[k]) ==> k == FirstBucket(ts, bs))
      && (FirstBucket(ts, bs) >= 0 <==> bs != [] && start <= ts < bs[|bs| - 1].to)
  {
    var bs := Buckets(start, end, interval, cal);
    BucketsOrdered(start, end, interval, cal);
    BucketsContiguous(start, end, interval, cal);
    OrderedUnique(bs, ts);
    if bs != [] && start <= ts < bs[|bs| - 1].to {
      BucketsCover(start, end, interval, cal, ts);
    }
    var f := FirstBucket(ts, bs);
    if f >= 0 {
      assert bs[0].from < bs[0].to && bs[|bs| - 1].from < bs[|bs| - 1].to;
      OrderedSpan(bs, f);
    }
  }

  /** In buckets that follow one another, a time lies in at most one. */
  lemma OrderedUnique(bs: seq<Bucket>, ts: int)
    requires forall i, j :: 0 <= i < j < |bs| ==> bs[i].to <= bs[j].from
    ensures forall k :: 0 <= k < |bs| && InBucket(ts, bs[k]) ==> k == FirstBucket(ts, bs)
  {
    forall k | 0 <= k < |bs| && InBucket(ts, bs[k])
      ensures k == FirstBucket(ts, bs)
    {
      var f := FirstBucket(ts, bs);
      assert f != -1;
      assert InBucket(ts, bs[f]);
    }
  }

  /** A bucket among buckets that follow one another lies between the
      start of the first and the end of the last. */
  lemma OrderedSpan(bs: seq<Bucket>, k: nat)
    requires forall i, j :: 0 <= i < j < |bs| ==> bs[i].to <= bs[j].from
    requires k < |bs| && bs[0].from < bs[0].to && bs[|bs| - 1].from < bs[|bs| - 1].to
    ensures bs[0].from <= bs[k].from && bs[k].to <= bs[|bs| - 1].to
  {
    if 0 < k {
      assert bs[0].to <= bs[k].from;
    }
    if k < |bs| - 1 {
      assert bs[k].to <= bs[|bs| - 1].from;
    }
  }


  // ------------------------------------------------------------- counting

  /** One point of a series: the bucket label and its count. */
  datatype Point = Point(t: string, c: nat)

  /** How many of the times fall, by `_bucketIndex`, in bucket `k`. */
  function Hits(times: seq<int>, bs: seq<Bucket>, k: int): nat {
    if times == [] then 0
    else
      var n := |times| - 1;
      Hits(times[..n], bs, k) + (if FirstBucket(times[n], bs) == k then 1 else 0)
  }

  /** The series the counting loops build: one point per bucket, counting
      the times that fall in it. */
  function Series(bs: seq<Bucket>, times: seq<int>): (s: seq<Point>)
    ensures |s| == |bs|
  {
    seq(|bs|, k requires 0 <= k < |bs| => Point(bs[k].labelText, Hits(times, bs, k)))
  }

  /** How many of the times fall in some bucket. */
  function Landed(times: seq<int>, bs: seq<Bucket>): (n: nat)
    ensures n <= |times|
  {
    if times == [] then 0
    else
      var n := |times| - 1;
      Landed(times[..n], bs) + (if FirstBucket(times[n], bs) >= 0 then 1 else 0)
  }

  function Total(s: seq<Point>): nat {
    if s == [] then 0 else Total(s[..|s| - 1]) + s[|s| - 1].c
  }

  /** `series[i].c++`. */
  function Increment(s: seq<Point>, i: int): (r: seq<Point>)
    ensures |r| == |s|
  {
    if 0 <= i < |s| then s[i := Point(s[i].t, s[i].c + 1)] else s
  }

  /** Counting one more time bumps exactly the bucket it falls in. */
  lemma SeriesSnoc(bs: seq<Bucket>, times: seq<int>, ts: int)
    ensures Series(bs, times + [ts]) == Increment(Series(bs, times), FirstBucket(ts, bs))
  {
    var t := times + [ts];
    assert t[..|times|] == times;
    var a, b := Series(bs, t), Increment(Series(bs, times), FirstBucket(ts, bs));
    assert forall k :: 0 <= k < |bs| ==> a[k] == b[k];
  }

  /** An increment adds one to the total when the index is a bucket. */
  lemma {:induction false} TotalIncrement(s: seq<Point>, i: int)
    ensures Total(Increment(s, i)) == Total(s) + (if 0 <= i < |s| then 1 else 0)
  {
    if s != [] && 0 <= i < |s| {
      var n := |s| - 1;
      var r := Increment(s, i);
      if i == n {
        assert r[..n] == s[..n];
      } else {
        assert r[..n] == Increment(s[..n], i);
        TotalIncrement(s[..n], i);
      }
    }
  }

  /** A series counts each time at most once: its total is the number of
      times that fall in some bucket, never more than the times given. */
  lemma {:induction false} SeriesTotal(bs: seq<Bucket>, times: seq<int>)
    ensures Total(Series(bs, times)) == Landed(times, bs) <= |times|
  {
    if times == [] {
      var s := Series(bs, times);
      assert forall k :: 0 <= k < |s| ==> s[k].c == 0;
      ZeroTotal(s);
    } else {
      var n := |times| - 1;
      SeriesTotal(bs, times[..n]);
      assert times == times[..n] + [times[n]];
      SeriesSnoc(bs, times[..n], times[n]);
      TotalIncrement(Series(bs, times[..n]), FirstBucket(times[n], bs));
    }
  }

  lemma {:induction false} ZeroTotal(s: seq<Point>)
    requires forall k :: 0 <= k < |s| ==> s[k].c == 0
    ensures Total(s) == 0
  {
    if s != [] {
      ZeroTotal(s[..|s| - 1]);
    }
  }

  /** The counting loop of `estimateTimeseries` and `readsTimeseries`: for
      each time, bump the bucket `_bucketIndex` finds, if any. */
  method Tally(bs: seq<Bucket>, times: seq<int>) returns (series: seq<Point>)
    ensures series == Series(bs, times)
  {
    series := seq(|bs|, k requires 0 <= k < |bs| => Point(bs[k].labelText, 0));
    assert series == Series(bs, times[..0]);
    for j := 0 to |times|
      invariant series == Series(bs, times[..j])
    {
      var idx := BucketIndex(times[j], bs);
      SeriesSnoc(bs, times[..j], times[j]);
      assert times[..j + 1] == times[..j] + [times[j]];
      if idx >= 0 {
        series := series[idx := Point(series[idx].t, series[idx].c + 1)];
      }
    }
    assert times[..|times|] == times;
  }

  /** The two dates `timeseries` reads of a blog. */
  datatype BlogDates = BlogDates(createdAt: int, publishedAt: Option<int>)

  function CreatedTimes(rows: seq<BlogDates>): (ts: seq<int>)
    ensures |ts| == |rows|
    ensures forall i :: 0 <= i < |rows| ==> ts[i] == rows[i].createdAt
  {
    seq(|rows|, i requires 0 <= i < |rows| => rows[i].createdAt)
  }

  /** The publication dates of the blogs that have one, in order. */
  function PublishedTimes(rows: seq<BlogDates>): (ts: seq<int>)
    ensures |ts| <= |rows|
  {
    if rows == [] then []
    else
      var n := |rows| - 1;
      PublishedTimes(rows[..n]) + (if rows[n].publishedAt.Some? then [rows[n].publishedAt.value] else [])
  }

  /** Only set publication dates are counted: every one counted belongs to
      a blog that has it, and a blog without one adds nothing. */
  lemma {:induction false} PublishedTimesFromRows(rows: seq<BlogDates>)
    ensures forall t :: t in PublishedTimes(rows) ==> exists i :: 0 <= i < |rows| && rows[i].publishedAt == Some(t)
    ensures (forall i :: 0 <= i < |rows| ==> rows[i].publishedAt.None?) ==> PublishedTimes(rows) == []
  {
    if rows != [] {
      var n := |rows| - 1;
      PublishedTimesFromRows(rows[..n]);
      forall t | t in PublishedTimes(rows)
        ensures exists i :: 0 <= i < |rows| && rows[i].publishedAt == Some(t)
      {
        if t in PublishedTimes(rows[..n]) {
          var i :| 0 <= i < n && rows[..n][i].publishedAt == Some(t);
          assert rows[i] == rows[..n][i];
        } else {
          assert rows[n].publishedAt == Some(t);
        }
      }
    }
  }

  lemma DatesSnoc(rows: seq<BlogDates>, j: nat)
    requires j < |rows|
    ensures CreatedTimes(rows[..j + 1]) == CreatedTimes(rows[..j]) + [rows[j].createdAt]
    ensures PublishedTimes(rows[..j + 1])
      == PublishedTimes(rows[..j]) + (if rows[j].publishedAt.Some? then [rows[j].publishedAt.value] else [])
  {
    assert rows[..j + 1][..j] == rows[..j];
  }

  /** One more blog bumps the bucket of its creation date, and that of its
      publication date when it has one. */
  lemma TimeseriesStep(bs: seq<Bucket>, rows: seq<BlogDates>, j: nat)
    requires j < |rows|
    ensures Series(bs, CreatedTimes(rows[..j + 1]))
      == Increment(Series(bs, CreatedTimes(rows[..j])), FirstBucket(rows[j].createdAt, bs))
    ensures Series(bs, PublishedTimes(rows[..j + 1]))
      == if rows[j].publishedAt.Some?
         then Increment(Series(bs, PublishedTimes(rows[..j])), FirstBucket(rows[j].publishedAt.value, bs))
         else Series(bs, PublishedTimes(rows[..j]))
  {
    DatesSnoc(rows, j);
    SeriesSnoc(bs, CreatedTimes(rows[..j]), rows[j].createdAt);
    if rows[j].publishedAt.Some? {
      SeriesSnoc(bs, PublishedTimes(rows[..j]), rows[j].publishedAt.value);
    } else {
      assert PublishedTimes(rows[..j + 1]) == PublishedTimes(rows[..j]);
    }
  }

  /** The counting loop of `timeseries`: each blog's creation date is
      counted, and its publication date only when set. */
  method Timeseries(bs: seq<Bucket>, rows: seq<BlogDates>) returns (created: seq<Point>, published: seq<Point>)
    ensures created == Series(bs, CreatedTimes(rows))
    ensures published == Series(bs, PublishedTimes(rows))
  {
    created := seq(|bs|, k requires 0 <= k < |bs| => Point(bs[k].labelText, 0));
    published := created;
    assert created == Series(bs, CreatedTimes(rows[..0]));
    for j := 0 to |rows|
      invariant created == Series(bs, CreatedTimes(rows[..j]))
      invariant published == Series(bs, PublishedTimes(rows[..j]))
    {
      var b := rows[j];
      TimeseriesStep(bs, rows, j);
      var iCreated := BucketIndex(b.createdAt, bs);
      if iCreated >= 0 {
        created := created[iCreated := Point(created[iCreated].t, created[iCreated].c + 1)];
      }
      if b.publishedAt.Some? {
        var iPub := BucketIndex(b.publishedAt.value, bs);
        if iPub >= 0 {
          published := published[iPub := Point(published[iPub].t, published[iPub].c + 1)];
        }
      }
    }
    assert rows[..|rows|] == rows;
  }

  // --------------------------------------------------------------- range

  /** How far back `_parseRangeStart` moves the current date. */
  datatype Shift = DaysBack(days: nat) | MonthsBack(months: nat) | YearsBack(years: nat)

  datatype RangeUnit = D | W | M | Y

  /** The unit letter of `/^(\d+)([dwmy])$/i`, in either case. */
  function UnitOf(c: char): Option<RangeUnit> {
    if c == 'd' || c == 'D' then Some(D)
    else if c == 'w' || c == 'W' then Some(W)
    else if c == 'm' || c == 'M' then Some(M)
    else if c == 'y' || c == 'Y' then Some(Y)
    else None
  }

  /** `_parseRangeStart`: one or more ASCII digits followed by one unit
      letter selects that many days, weeks (seven days each), months or
      years back; any other string selects thirty days back. */
  function ParseRangeStart(range: string): Shift {
    if |range| >= 2 && AllDigits(range[..|range| - 1]) && UnitOf(range[|range| - 1]).Some? then
      var n := ParseDigits(range[..|range| - 1]);
      match UnitOf(range[|range| - 1]).value
      case D => DaysBack(n)
      case W => DaysBack(7 * n)
      case M => MonthsBack(n)
      case Y => YearsBack(n)
    else DaysBack(30)
  }

  /** The shift a count and unit stand for. */
  function ShiftOf(n: nat, u: RangeUnit): Shift {
    match u
    case D => DaysBack(n)
    case W => DaysBack(7 * n)
    case M => MonthsBack(n)
    case Y => YearsBack(n)
  }

  /** A printed count followed by a unit letter, zero-padded or not, in
      either case, parses back to that count and unit. */
  lemma RangeRoundTrip(n: nat, width: nat, c: char)
    requires UnitOf(c).Some?
    ensures ParseRangeStart(PadStart(NatToString(n), width) + [c]) == ShiftOf(n, UnitOf(c).value)
  {
    var digits := PadStart(NatToString(n), width);
    ParsePadded(NatToString(n), width);
    ParsePrinted(n);
    var s := digits + [c];
    assert s[..|s| - 1] == digits;
  }

  /** A string that does not end in a unit letter, or has anything but
      digits before it, or has no digits at all, means thirty days. */
  lemma RangeFallback(range: string)
    requires range == [] || UnitOf(range[|range| - 1]).None? || |range| < 2
      || exists i :: 0 <= i < |range| - 1 && !IsDigit(range[i])
    ensures ParseRangeStart(range) == DaysBack(30)
  {
    if |range| >= 2 && UnitOf(range[|range| - 1]).Some? {
      var i :| 0 <= i < |range| - 1 && !IsDigit(range[i]);
      assert range[..|range| - 1][i] == range[i];
    }
  }

  // --------------------------------------------------------------- access

  /** One `$group` row of the access aggregation: the `type` value (absent
      or not a string as `None`) and its count. */
  datatype Group = Group(id: Option<string>, count: nat)

  /** The count the `let` loop leaves for `key`: that of the last group with
      that id, or 0 when there is none. */
  function LastCount(agg: seq<Group>, key: string): nat {
    if agg == [] then 0
    else if agg[|agg| - 1].id == Some(key) then agg[|agg| - 1].count
    else LastCount(agg[..|agg| - 1], key)
  }

  /** `accessLast30`'s loop over the groups and its total. */
  method AccessLast30(agg: seq<Group>) returns (viewCount: nat, readCount: nat, total: nat)
    ensures viewCount == LastCount(agg, "view") && readCount == LastCount(agg, "read")
    ensures total == viewCount + readCount
  {
    viewCount, readCount := 0, 0;
    for i := 0 to |agg|
      invariant viewCount == LastCount(agg[..i], "view") && readCount == LastCount(agg[..i], "read")
    {
      assert agg[..i + 1][..i] == agg[..i];
      var a := agg[i];
      if a.id == Some("view") {
        viewCount := a.count;
      } else if a.id == Some("read") {
        readCount := a.count;
      }
    }
    assert agg[..|agg|] == agg;
    total := viewCount + readCount;
  }

  /** With one group per type, as `$group` yields, each total is the count
      of that type's group, 0 when the type is absent, and the other groups
      are ignored. */
  lemma {:induction false} LastCountOfGroups(agg: seq<Group>, key: string)
    requires forall i, j :: 0 <= i < j < |agg| && agg[i].id.Some? ==> agg[i].id != agg[j].id
    ensures (forall i :: 0 <= i < |agg| ==> agg[i].id != Some(key)) ==> LastCount(agg, key) == 0
    ensures forall i :: 0 <= i < |agg| && agg[i].id == Some(key) ==> LastCount(agg, key) == agg[i].count
  {
    if agg != [] {
      var n := |agg| - 1;
      LastCountOfGroups(agg[..n], key);
      forall i | 0 <= i < n && agg[i].id == Some(key)
        ensures LastCount(agg, key) == agg[i].count
      {
        assert agg[..n][i] == agg[i];
      }
      if forall i :: 0 <= i < |agg| ==> agg[i].id != Some(key) {
        assert forall i :: 0 <= i < n ==> agg[..n][i] == agg[i];
      }
    }
  }

  // ------------------------------------------------------------- overview

  datatype Missing = Missing(withoutCover: int, withoutMetaTags: int, withoutSocial: int)

  /** `overview`'s `missing`: each count subtracted from the total. */
  function MissingCounts(total: int, withCover: int, withMetaTags: int, withSocial: int): Missing {
    Missing(total - withCover, total - withMetaTags, total - withSocial)
  }

  /** The three facts the counts filter on, per blog. */
  datatype BlogFacts = BlogFacts(hasCover: bool, hasMetaTags: bool, hasSocial: bool)

  datatype Fact = Cover | MetaTags | Social

  predicate Has(b: BlogFacts, f: Fact) {
    match f
    case Cover => b.hasCover
    case MetaTags => b.hasMetaTags
    case Social => b.hasSocial
  }

  /** How many blogs have (`want`) or lack (`!want`) the fact. */
  function CountWhere(blogs: seq<BlogFacts>, f: Fact, want: bool): (n: nat)
    ensures n <= |blogs|
  {
    if blogs == [] then 0
    else CountWhere(blogs[..|blogs| - 1], f, want) + (if Has(blogs[|blogs| - 1], f) == want then 1 else 0)
  }

  /** The blogs with a fact and those without it add up to all blogs. */
  lemma {:induction false} CountSplits(blogs: seq<BlogFacts>, f: Fact)
    ensures CountWhere(blogs, f, true) + CountWhere(blogs, f, false) == |blogs|
  {
    if blogs != [] {
      CountSplits(blogs[..|blogs| - 1], f);
    }
  }

  /** When the counts are taken over the same blogs, each `missing` count
      is the number of blogs without that fact, so none is negative. */
  lemma MissingAreComplements(blogs: seq<BlogFacts>)
    ensures var m := MissingCounts(|blogs|,
        CountWhere(blogs, Cover, true), CountWhere(blogs, MetaTags, true), CountWhere(blogs, Social, true));
      && m.withoutCover == CountWhere(blogs, Cover, false)
      && m.withoutMetaTags == CountWhere(blogs, MetaTags, false)
      && m.withoutSocial == CountWhere(blogs, Social, false)
  {
    CountSplits(blogs, Cover);
    CountSplits(blogs, MetaTags);
    CountSplits(blogs, Social);
  }

  // ------------------------------------------------------------ top tags

  /** The tags `topTags` counts from one blog, in order: each lower-cased,
      the empty ones skipped. */
  function Kept(tags: seq<string>): seq<string> {
    if tags == [] then []
    else
      var n := |tags| - 1;
      Kept(tags[..n]) + (if ToLower(tags[n]) != "" then [ToLower(tags[n])] else [])
  }

  /** The tags counted from all blogs, blog by blog. */
  function AllTags(blogs: seq<seq<string>>): seq<string> {
    if blogs == [] then [] else AllTags(blogs[..|blogs| - 1]) + Kept(blogs[|blogs| - 1])
  }

  /** Every counted tag is non-empty and already lower-case. */
  lemma {:induction false} AllTagsLowerNonEmpty(blogs: seq<seq<string>>)
    ensures forall t :: t in AllTags(blogs) ==> t != "" && ToLower(t) == t
  {
    if blogs != [] {
      AllTagsLowerNonEmpty(blogs[..|blogs| - 1]);
      KeptLowerNonEmpty(blogs[|blogs| - 1]);
    }
  }

  lemma {:induction false} KeptLowerNonEmpty(tags: seq<string>)
    ensures forall t :: t in Kept(tags) ==> t != "" && ToLower(t) == t
  {
    if tags != [] {
      KeptLowerNonEmpty(tags[..|tags| - 1]);
      var l := ToLower(tags[|tags| - 1]);
      assert ToLower(l) == l;
    }
  }

  /** The `freq` map: its keys in insertion order, the order `entries()`
      yields them, and the count of each. */
  datatype Freq = Freq(keys: seq<string>, count: map<string, nat>)

  predicate FreqValid(f: Freq) {
    && (forall i :: 0 <= i < |f.keys| ==> f.keys[i] in f.count)
    && (forall t :: t in f.count ==> t in f.keys)
    && (forall i, j :: 0 <= i < j < |f.keys| ==> f.keys[i] != f.keys[j])
  }

  /** `freq.set(t, (freq.get(t) || 0) + 1)`. */
  function AddTag(f: Freq, t: string): Freq {
    if t in f.count then Freq(f.keys, f.count[t := f.count[t] + 1])
    else Freq(f.keys + [t], f.count[t := 1])
  }

  /** The table after counting `tags` in order: each distinct tag once, in
      order of first occurrence, with the number of its occurrences. */
  function Frequencies(tags: seq<string>): (f: Freq)
    ensures FreqValid(f)
    ensures forall t :: t in f.count <==> t in tags
    ensures forall t :: t in f.count ==> f.count[t] == multiset(tags)[t]
  {
    if tags == [] then Freq([], map[])
    else
      var n := |tags| - 1;
      assert tags == tags[..n] + [tags[n]];
      AddTag(Frequencies(tags[..n]), tags[n])
  }

  datatype TagCount = TagCount(tag: string, count: nat)

  /** `Array.from(freq.entries())`. */
  function Entries(f: Freq): (es: seq<TagCount>)
    requires FreqValid(f)
    ensures |es| == |f.keys|
    ensures forall i :: 0 <= i < |es| ==> es[i] == TagCount(f.keys[i], f.count[f.keys[i]])
  {
    seq(|f.keys|, i requires 0 <= i < |f.keys| => TagCount(f.keys[i], f.count[f.keys[i]]))
  }

  predicate SortedByCount(s: seq<TagCount>) {
    forall i, j :: 0 <= i < j < |s| ==> s[i].count >= s[j].count
  }

  predicate DistinctTags(s: seq<TagCount>) {
    forall i, j :: 0 <= i < j < |s| ==> s[i].tag != s[j].tag
  }

  /** Inserts `e` after every entry whose count is at least its own. */
  function InsertByCount(e: TagCount, s: seq<TagCount>): (r: seq<TagCount>)
    ensures multiset(r) == multiset(s) + multiset{e} && |r| == |s| + 1
    ensures forall x :: x in r <==> x == e || x in s
  {
    if s == [] then [e]
    else if s[0].count >= e.count then
      var rest := InsertByCount(e, s[1..]);
      assert s == [s[0]] + s[1..];
      [s[0]] + rest
    else [e] + s
  }

  /** Inserting into a list sorted by count keeps it sorted, and the
      result starts with whichever of `e` and the old head comes first. */
  lemma {:induction false} InsertSorted(e: TagCount, s: seq<TagCount>)
    requires SortedByCount(s)
    ensures SortedByCount(InsertByCount(e, s))
    ensures InsertByCount(e, s)[0] == if s == [] || s[0].count < e.count then e else s[0]
  {
    if s == [] {
    } else if s[0].count >= e.count {
      SortedTail(s);
      InsertSorted(e, s[1..]);
      SortedCons(s[0], InsertByCount(e, s[1..]));
    } else {
      SortedCons(e, s);
    }
  }

  lemma SortedTail(s: seq<TagCount>)
    requires SortedByCount(s) && s != []
    ensures SortedByCount(s[1..])
    ensures |s| > 1 ==> s[1..][0].count <= s[0].count
  {
    var tail := s[1..];
    forall i, j | 0 <= i < j < |tail|
      ensures tail[i].count >= tail[j].count
    {
      assert tail[i] == s[i + 1] && tail[j] == s[j + 1];
    }
  }

  lemma SortedCons(h: TagCount, t: seq<TagCount>)
    requires SortedByCount(t) && (t != [] ==> t[0].count <= h.count)
    ensures SortedByCount([h] + t)
  {
    var r := [h] + t;
    forall i, j | 0 <= i < j < |r|
      ensures r[i].count >= r[j].count
    {
      assert r[j] == t[j - 1];
      if i > 0 {
        assert r[i] == t[i - 1];
      } else if j > 1 {
        assert t[0].count >= t[j - 1].count;
      }
    }
  }

  lemma {:induction false} InsertKeepsDistinct(e: TagCount, s: seq<TagCount>)
    requires SortedByCount(s) && DistinctTags(s)
    requires forall x :: x in s ==> x.tag != e.tag
    ensures DistinctTags(InsertByCount(e, s))
  {
    if s != [] && s[0].count >= e.count {
      InsertKeepsDistinct(e, s[1..]);
      var r := InsertByCount(e, s);
      forall i, j | 0 <= i < j < |r|
        ensures r[i].tag != r[j].tag
      {
        if i == 0 {
          assert r[j] in InsertByCount(e, s[1..]);
          assert r[j] == e || r[j] in s[1..];
          if r[j] in s[1..] {
            var k :| 0 <= k < |s[1..]| && s[1..][k] == r[j];
            assert s[k + 1] == r[j];
          }
        }
      }
    }
  }

  /** `.sort((a, b) => b[1] - a[1])`, stable: insertion from left to right
      places each entry after the earlier ones with a count at least its
      own. */
  function SortByCount(s: seq<TagCount>): (r: seq<TagCount>)
    ensures SortedByCount(r)
    ensures multiset(r) == multiset(s) && |r| == |s|
    ensures forall x :: x in r <==> x in s
  {
    if s == [] then []
    else
      var n := |s| - 1;
      assert s == s[..n] + [s[n]];
      InsertSorted(s[n], SortByCount(s[..n]));
      InsertByCount(s[n], SortByCount(s[..n]))
  }

  lemma {:induction false} SortKeepsDistinct(s: seq<TagCount>)
    requires DistinctTags(s)
    ensures DistinctTags(SortByCount(s))
  {
    if s != [] {
      var n := |s| - 1;
      assert DistinctTags(s[..n]);
      SortKeepsDistinct(s[..n]);
      forall x | x in SortByCount(s[..n])
        ensures x.tag != s[n].tag
      {
        var k :| 0 <= k < n && s[..n][k] == x;
        assert s[k] == x;
      }
      InsertKeepsDistinct(s[n], SortByCount(s[..n]));
    }
  }

  /** The end index of `.slice(0, limit)`: a negative limit counts from the
      end. */
  function SliceEnd(len: nat, limit: int): (e: nat)
    ensures e <= len
    ensures limit >= 0 ==> e <= limit
    ensures limit >= len ==> e == len
  {
    if limit < 0 then (if len + limit < 0 then 0 else len + limit)
    else if limit < len then limit
    else len
  }

  /** What `topTags` returns. */
  function TopTagsOf(blogs: seq<seq<string>>, limit: int): seq<TagCount> {
    TopOf(Frequencies(AllTags(blogs)), limit)
  }

  lemma KeptSnoc(tags: seq<string>, j: nat)
    requires j < |tags|
    ensures Kept(tags[..j + 1]) == Kept(tags[..j]) + (if ToLower(tags[j]) != "" then [ToLower(tags[j])] else [])
  {
    assert tags[..j + 1][..j] == tags[..j];
  }

  lemma FrequenciesSnoc(tags: seq<string>, t: string)
    ensures Frequencies(tags + [t]) == AddTag(Frequencies(tags), t)
  {
    assert (tags + [t])[..|tags|] == tags;
  }

  /** Counting one more tag of the current blog. */
  lemma CountStep(before: seq<string>, tags: seq<string>, j: nat)
    requires j < |tags|
    ensures var t := ToLower(tags[j]);
      Frequencies(before + Kept(tags[..j + 1]))
        == if t != "" then AddTag(Frequencies(before + Kept(tags[..j])), t) else Frequencies(before + Kept(tags[..j]))
  {
    KeptSnoc(tags, j);
    var t := ToLower(tags[j]);
    if t != "" {
      assert before + Kept(tags[..j + 1]) == (before + Kept(tags[..j])) + [t];
      FrequenciesSnoc(before + Kept(tags[..j]), t);
    } else {
      assert before + Kept(tags[..j + 1]) == before + Kept(tags[..j]);
    }
  }

  /** The table after the last tag of blog `i` is the table of the first
      `i + 1` blogs. */
  lemma BlogStep(blogs: seq<seq<string>>, i: nat)
    requires i < |blogs|
    ensures AllTags(blogs[..i + 1]) == AllTags(blogs[..i]) + Kept(blogs[i][..|blogs[i]|])
  {
    assert blogs[..i + 1][..i] == blogs[..i];
    assert blogs[i][..|blogs[i]|] == blogs[i];
  }

  /** `topTags`: the nested loop fills `freq`, then the entries are sorted
      by count and cut at `limit`. */
  method TopTags(blogs: seq<seq<string>>, limit: int) returns (list: seq<TagCount>)
    ensures list == TopTagsOf(blogs, limit)
  {
    var keys: seq<string> := [];
    var count: map<string, nat> := map[];
    for i := 0 to |blogs|
      invariant Freq(keys, count) == Frequencies(AllTags(blogs[..i]))
    {
      var tags := blogs[i];
      assert AllTags(blogs[..i]) + Kept(tags[..0]) == AllTags(blogs[..i]);
      for j := 0 to |tags|
        invariant Freq(keys, count) == Frequencies(AllTags(blogs[..i]) + Kept(tags[..j]))
      {
        CountStep(AllTags(blogs[..i]), tags, j);
        var t := ToLower(tags[j]);
        if t != "" {
          if t in count {
            count := count[t := count[t] + 1];
          } else {
            keys := keys + [t];
            count := count[t := 1];
          }
        }
      }
      BlogStep(blogs, i);
    }
    assert blogs[..|blogs|] == blogs;
    var sorted := SortByCount(Entries(Freq(keys, count)));
    list := sorted[..SliceEnd(|sorted|, limit)];
  }

  /** Every key of the table is in the sorted entries with its count. */
  lemma SortedHasEveryKey(f: Freq, t: string)
    requires FreqValid(f) && t in f.count
    ensures exists q :: 0 <= q < |SortByCount(Entries(f))| && SortByCount(Entries(f))[q] == TagCount(t, f.count[t])
  {
    var p :| 0 <= p < |f.keys| && f.keys[p] == t;
    assert Entries(f)[p] in SortByCount(Entries(f));
  }

  /** The first `limit` entries of a table by count. */
  function TopOf(f: Freq, limit: int): seq<TagCount>
    requires FreqValid(f)
  {
    var sorted := SortByCount(Entries(f));
    sorted[..SliceEnd(|sorted|, limit)]
  }

  /** The listed entries are table entries with distinct tags, sorted by
      count, at most `limit` of them. */
  lemma TopListed(f: Freq, limit: int)
    requires FreqValid(f)
    ensures var list := TopOf(f, limit);
      && (forall i :: 0 <= i < |list| ==> list[i].tag in f.count && list[i].count == f.count[list[i].tag])
      && DistinctTags(list) && SortedByCount(list)
      && (limit >= 0 ==> |list| <= limit)
  {
    var es := Entries(f);
    var sorted := SortByCount(es);
    var list := TopOf(f, limit);
    assert DistinctTags(es);
    SortKeepsDistinct(es);
    PrefixKeepsOrder(sorted, SliceEnd(|sorted|, limit));
    forall i | 0 <= i < |list|
      ensures list[i].tag in f.count && list[i].count == f.count[list[i].tag]
    {
      assert list[i] == sorted[i];
      assert sorted[i] in es;
    }
  }

  lemma PrefixKeepsOrder(s: seq<TagCount>, n: nat)
    requires n <= |s| && SortedByCount(s) && DistinctTags(s)
    ensures SortedByCount(s[..n]) && DistinctTags(s[..n])
  {
    var p := s[..n];
    forall i, j | 0 <= i < j < |p|
      ensures p[i].count >= p[j].count && p[i].tag != p[j].tag
    {
      assert p[i] == s[i] && p[j] == s[j];
    }
  }

  /** With room for every key, every key is listed. */
  lemma TopAllWhenRoom(f: Freq, limit: int, t: string)
    requires FreqValid(f) && limit >= |f.keys| && t in f.count
    ensures exists i :: 0 <= i < |TopOf(f, limit)| && TopOf(f, limit)[i].tag == t
  {
    var sorted := SortByCount(Entries(f));
    SortedHasEveryKey(f, t);
    var q :| 0 <= q < |sorted| && sorted[q] == TagCount(t, f.count[t]);
    assert TopOf(f, limit) == sorted;
  }

  /** A key left out counts no more than any listed entry. */
  lemma TopLeftOutNotMore(f: Freq, limit: int, t: string, i: int)
    requires FreqValid(f) && t in f.count
    requires forall k :: 0 <= k < |TopOf(f, limit)| ==> TopOf(f, limit)[k].tag != t
    requires 0 <= i < |TopOf(f, limit)|
    ensures TopOf(f, limit)[i].count >= f.count[t]
  {
    var sorted := SortByCount(Entries(f));
    var list := TopOf(f, limit);
    SortedHasEveryKey(f, t);
    var q :| 0 <= q < |sorted| && sorted[q] == TagCount(t, f.count[t]);
    assert list == sorted[..SliceEnd(|sorted|, limit)];
    forall k | 0 <= k < |list|
      ensures sorted[k].tag != t
    {
      assert list[k] == sorted[k];
    }
    assert i < q;
    assert list[i] == sorted[i];
  }

  /** What `topTags` promises: each entry is a non-empty lower-case tag
      with the number of its occurrences, no tag twice, counts
      non-increasing, at most `limit` entries (all of them when the limit
      is at least the number of distinct tags), and a tag left out occurs
      no more often than any tag listed. */
  lemma TopTagsCorrect(blogs: seq<seq<string>>, limit: int)
    ensures var list := TopTagsOf(blogs, limit);
      var tags := AllTags(blogs);
      && (forall i :: 0 <= i < |list| ==>
            list[i].tag != "" && ToLower(list[i].tag) == list[i].tag
            && list[i].tag in tags && list[i].count == multiset(tags)[list[i].tag])
      && DistinctTags(list)
      && SortedByCount(list)
      && (limit >= 0 ==> |list| <= limit)
      && (limit >= |Frequencies(tags).keys| ==> forall t :: t in tags ==> exists i :: 0 <= i < |list| && list[i].tag == t)
      && (forall t, i :: t in tags && (forall k :: 0 <= k < |list| ==> list[k].tag != t) && 0 <= i < |list|
            ==> list[i].count >= multiset(tags)[t])
  {
    var tags := AllTags(blogs);
    var f := Frequencies(tags);
    AllTagsLowerNonEmpty(blogs);
    TopListed(f, limit);
    forall t | limit >= |f.keys| && t in tags
      ensures exists i :: 0 <= i < |TopOf(f, limit)| && TopOf(f, limit)[i].tag == t
    {
      TopAllWhenRoom(f, limit, t);
    }
    forall t, i | t in tags && (forall k :: 0 <= k < |TopOf(f, limit)| ==> TopOf(f, limit)[k].tag != t) && 0 <= i < |TopOf(f, limit)|
      ensures TopOf(f, limit)[i].count >= multiset(tags)[t]
    {
      TopLeftOutNotMore(f, limit, t, i);
    }
  }
}
