/** A date range cut into one bucket per calendar month it touches.

    Days and months are numbered; a calendar is the function from a month to the number of its first day.
 */
module Months {
  const MAX_REPORT_MONTHS := 24

  predicate Grows(cal: nat -> nat, m: nat) {
    cal(m) < cal(m + 1)
  }

  /** Months start on ever later days, the first one on day 0. */
  ghost predicate Ascending(cal: nat -> nat) {
    cal(0) == 0 && forall m: nat {:trigger Grows(cal, m)} :: Grows(cal, m)
  }

  lemma {:induction false} Ascends(cal: nat -> nat, m: nat, n: nat)
    requires Ascending(cal) && m <= n
    ensures cal(n) >= cal(m) + (n - m)
  {
    if m < n {
      Ascends(cal, m, n - 1);
      assert Grows(cal, n - 1);
    }
  }

  function MonthFrom(cal: nat -> nat, day: nat, m: nat): (r: nat)
    requires Ascending(cal) && cal(m) <= day
    ensures cal(r) <= day < cal(r + 1)
    decreases day - cal(m)
  {
    assert Grows(cal, m);
    if day < cal(m + 1) then m else MonthFrom(cal, day, m + 1)
  }

  /** The calendar month a day falls in. */
  function MonthOf(cal: nat -> nat, day: nat): (m: nat)
    requires Ascending(cal)
    ensures cal(m) <= day < cal(m + 1)
  {
    MonthFrom(cal, day, 0)
  }

  lemma MonthIsUnique(cal: nat -> nat, day: nat, m: nat)
    requires Ascending(cal) && cal(m) <= day < cal(m + 1)
    ensures MonthOf(cal, day) == m
  {
    var r := MonthOf(cal, day);
    if r < m {
      Ascends(cal, r + 1, m);
    } else if m < r {
      Ascends(cal, m + 1, r);
    }
  }

  lemma MonthsInOrder(cal: nat -> nat, early: nat, late: nat)
    requires Ascending(cal) && early <= late
    ensures MonthOf(cal, early) <= MonthOf(cal, late)
  {
    var m, n := MonthOf(cal, early), MonthOf(cal, late);
    if n < m {
      Ascends(cal, n + 1, m);
    }
  }

  // ----- the buckets

  /** `start` is inclusive, `end` exclusive, `key` the month's number. */
  datatype Bucket = Bucket(key: nat, start: nat, end: nat)

  const YEAR_100: nat := 1200
  const YEARS_1900: nat := 22800

  /** The month the first cursor stands on. The JavaScript constructor behind it reads the years 0 to 99 as
      1900 to 1999. */
  function CursorMonth(cal: nat -> nat, from: nat): nat
    requires Ascending(cal)
  {
    if MonthOf(cal, from) < YEAR_100 then MonthOf(cal, from) + YEARS_1900 else MonthOf(cal, from)
  }

  function Clip(cal: nat -> nat, m: nat, from: nat, end: nat): Bucket {
    Bucket(m, if cal(m) > from then cal(m) else from, if cal(m + 1) < end then cal(m + 1) else end)
  }

  function Clipped(cal: nat -> nat, m: nat, from: nat, end: nat, n: nat): (bs: seq<Bucket>)
    ensures |bs| == n
    ensures forall i :: 0 <= i < n ==> bs[i] == Clip(cal, m + i, from, end)
  {
    seq(n, i requires 0 <= i < n => Clip(cal, m + i, from, end))
  }

  lemma ClippedSnoc(cal: nat -> nat, m: nat, from: nat, end: nat, n: nat)
    ensures Clipped(cal, m, from, end, n + 1) == Clipped(cal, m, from, end, n) + [Clip(cal, m + n, from, end)]
  {
  }

  /** How many months, from the cursor on, start before the day after `to`. */
  function BucketCount(cal: nat -> nat, from: nat, to: nat): nat
    requires Ascending(cal)
  {
    if from > to || CursorMonth(cal, from) > MonthOf(cal, to) then 0 else MonthOf(cal, to) - CursorMonth(cal, from) + 1
  }

  lemma StartsBeforeIff(cal: nat -> nat, m: nat, to: nat)
    requires Ascending(cal)
    ensures cal(m) < to + 1 <==> m <= MonthOf(cal, to)
  {
    var last := MonthOf(cal, to);
    if m <= last {
      Ascends(cal, m, last);
    } else {
      Ascends(cal, last + 1, m);
    }
  }

  function BucketsOf(cal: nat -> nat, from: nat, to: nat): seq<Bucket>
    requires Ascending(cal)
  {
    var n := BucketCount(cal, from, to);
    if n > MAX_REPORT_MONTHS then [] else Clipped(cal, CursorMonth(cal, from), from, to + 1, n)
  }

  /** Both ends inclusive; empty when the range is backwards or spans more than 24 months. */
  method BucketsOn(cal: nat -> nat, from: nat, to: nat) returns (buckets: seq<Bucket>)
    requires Ascending(cal)
    ensures buckets == BucketsOf(cal, from, to)
  {
    var end := to + 1;
    if !(from < end) {
      return [];
    }
    var first := CursorMonth(cal, from);
    ghost var last := MonthOf(cal, to);
    buckets := [];
    var m := first;
    StartsBeforeIff(cal, m, to);
    while cal(m) < end
      invariant m == first + |buckets| && |buckets| <= MAX_REPORT_MONTHS
      invariant |buckets| > 0 ==> m <= last + 1
      invariant cal(m) < end <==> m <= last
      invariant buckets == Clipped(cal, first, from, end, |buckets|)
      decreases end - cal(m)
    {
      assert Grows(cal, m);
      ClippedSnoc(cal, first, from, end, |buckets|);
      buckets := buckets + [Clip(cal, m, from, end)];
      if |buckets| > MAX_REPORT_MONTHS {
        return [];
      }
      StartsBeforeIff(cal, m + 1, to);
      m := m + 1;
    }
  }

  // ----- what they partition

  predicate Follows(a: Bucket, b: Bucket) {
    b.start == a.end && b.key == a.key + 1
  }

  predicate WithinMonth(cal: nat -> nat, b: Bucket) {
    cal(b.key) <= b.start < b.end <= cal(b.key + 1)
  }

  /** Non-empty buckets, each within one calendar month, end to end from `from` to the day before `end`. */
  ghost predicate Partitions(cal: nat -> nat, bs: seq<Bucket>, from: nat, end: nat) {
    && |bs| > 0
    && bs[0].start == from
    && bs[|bs| - 1].end == end
    && (forall i :: 0 <= i < |bs| ==> WithinMonth(cal, bs[i]))
    && (forall i :: 0 < i < |bs| ==> Follows(bs[i - 1], bs[i]))
  }

  lemma ClippedFits(cal: nat -> nat, from: nat, to: nat, m: nat)
    requires Ascending(cal) && from <= to && MonthOf(cal, from) <= m <= MonthOf(cal, to)
    ensures var b := Clip(cal, m, from, to + 1);
      && WithinMonth(cal, b)
      && b.start == (if m == MonthOf(cal, from) then from else cal(m))
      && b.end == (if m == MonthOf(cal, to) then to + 1 else cal(m + 1))
  {
    if m > MonthOf(cal, from) {
      Ascends(cal, MonthOf(cal, from) + 1, m);
    }
    if m < MonthOf(cal, to) {
      Ascends(cal, m + 1, MonthOf(cal, to));
    }
    assert Grows(cal, m);
  }

  lemma ClippedFollow(cal: nat -> nat, from: nat, to: nat, m: nat)
    requires Ascending(cal) && from <= to && MonthOf(cal, from) <= m < MonthOf(cal, to)
    ensures Follows(Clip(cal, m, from, to + 1), Clip(cal, m + 1, from, to + 1))
  {
    ClippedFits(cal, from, to, m);
    ClippedFits(cal, from, to, m + 1);
  }

  lemma RangePartitions(cal: nat -> nat, from: nat, to: nat, n: nat)
    requires Ascending(cal) && from <= to && MonthOf(cal, from) + n == MonthOf(cal, to) + 1 && n > 0
    ensures Partitions(cal, Clipped(cal, MonthOf(cal, from), from, to + 1, n), from, to + 1)
  {
    var m := MonthOf(cal, from);
    var bs := Clipped(cal, m, from, to + 1, n);
    forall i | 0 <= i < n
      ensures WithinMonth(cal, bs[i])
    {
      ClippedFits(cal, from, to, m + i);
    }
    forall i | 0 < i < n
      ensures Follows(bs[i - 1], bs[i])
    {
      ClippedFollow(cal, from, to, m + i - 1);
    }
    ClippedFits(cal, from, to, m);
    ClippedFits(cal, from, to, m + n - 1);
  }

  /** From the year 100 on, the months a range touches cover it exactly. */
  lemma BucketsPartition(cal: nat -> nat, from: nat, to: nat)
    requires Ascending(cal) && MonthOf(cal, from) >= YEAR_100 && from <= to
    ensures BucketCount(cal, from, to) == MonthOf(cal, to) - MonthOf(cal, from) + 1
    ensures Partitions(cal, Clipped(cal, CursorMonth(cal, from), from, to + 1, BucketCount(cal, from, to)), from,
      to + 1)
  {
    MonthsInOrder(cal, from, to);
    RangePartitions(cal, from, to, BucketCount(cal, from, to));
  }

  /** The list handed out covers the range exactly when it has at most 24 months, is not backwards, and
      does not start before the year 100 (from where the first cursor lands centuries late). */
  lemma PartitionIff(cal: nat -> nat, from: nat, to: nat)
    requires Ascending(cal)
    ensures Partitions(cal, BucketsOf(cal, from, to), from, to + 1) <==>
      from <= to && MonthOf(cal, from) >= 12 * 100 && MonthOf(cal, to) - MonthOf(cal, from) < 24
  {
    if from <= to && MonthOf(cal, from) >= YEAR_100 {
      BucketsPartition(cal, from, to);
    } else if from <= to {
      Ascends(cal, MonthOf(cal, from) + 1, CursorMonth(cal, from));
      var bs := BucketsOf(cal, from, to);
      assert |bs| > 0 ==> bs[0] == Clip(cal, CursorMonth(cal, from), from, to + 1);
    }
  }

  lemma {:induction false} BucketsAscend(cal: nat -> nat, bs: seq<Bucket>, from: nat, end: nat, i: nat, j: nat)
    requires Partitions(cal, bs, from, end) && i < j < |bs|
    ensures bs[i].end <= bs[j].start
  {
    assert Follows(bs[j - 1], bs[j]);
    if i < j - 1 {
      BucketsAscend(cal, bs, from, end, i, j - 1);
      assert WithinMonth(cal, bs[j - 1]);
    }
  }

  /** Every day of the range is in the bucket of its month and in no other. */
  lemma DayInOneBucket(cal: nat -> nat, bs: seq<Bucket>, from: nat, end: nat, day: nat) returns (i: nat)
    requires Ascending(cal) && Partitions(cal, bs, from, end) && from <= day < end
    ensures i < |bs| && bs[i].key == MonthOf(cal, day)
    ensures forall k :: 0 <= k < |bs| ==> (bs[k].start <= day < bs[k].end <==> k == i)
  {
    i := 0;
    while day >= bs[i].end
      invariant i < |bs| && bs[i].start <= day
      decreases |bs| - i
    {
      assert Follows(bs[i], bs[i + 1]);
      i := i + 1;
    }
    assert WithinMonth(cal, bs[i]);
    MonthIsUnique(cal, day, bs[i].key);
    forall k | 0 <= k < |bs| && k != i
      ensures !(bs[k].start <= day < bs[k].end)
    {
      if k < i {
        BucketsAscend(cal, bs, from, end, k, i);
      } else {
        BucketsAscend(cal, bs, from, end, i, k);
      }
    }
  }

  // ----- the civil calendar

  predicate IsLeap(year: nat) {
    year % 4 == 0 && (year % 100 != 0 || year % 400 == 0)
  }

  function MonthLength(m: nat): (days: nat)
    ensures 28 <= days <= 31
  {
    var month := m % 12 + 1;
    if month == 2 then if IsLeap(m / 12) then 29 else 28
    else if month == 4 || month == 6 || month == 9 || month == 11 then 30
    else 31
  }

  /** The number of a month's first day, days counted from 0000-01-01 and months from 0000-01 on the
      Gregorian calendar, run backwards as ISO 8601 does. */
  function MonthStart(m: nat): nat {
    if m == 0 then 0 else MonthStart(m - 1) + MonthLength(m - 1)
  }

  function Civil(): nat -> nat {
    (m: nat) => MonthStart(m)
  }

  lemma CivilAscends()
    ensures Ascending(Civil())
  {
    forall m: nat
      ensures Grows(Civil(), m)
    {
      assert MonthStart(m + 1) == MonthStart(m) + MonthLength(m);
    }
  }

  /** The buckets of a range of days, both ends inclusive. */
  function MonthBuckets(from: nat, to: nat): seq<Bucket> {
    CivilAscends();
    BucketsOf(Civil(), from, to)
  }

  /** A range the report accepts and cuts up right. */
  predicate Reportable(from: nat, to: nat) {
    CivilAscends();
    from <= to && MonthOf(Civil(), from) >= YEAR_100
      && MonthOf(Civil(), to) - MonthOf(Civil(), from) < MAX_REPORT_MONTHS
  }

  /** The first day there is: one day, one month, and nothing comes back. */
  lemma DayBeforeYear100IsLost()
    ensures MonthBuckets(0, 0) == [] && !Partitions(Civil(), MonthBuckets(0, 0), 0, 1)
  {
    CivilAscends();
    assert Civil()(1) == 31;
  }

  method MonthBucketsBetween(from: nat, to: nat) returns (buckets: seq<Bucket>)
    ensures buckets == MonthBuckets(from, to)
  {
    CivilAscends();
    buckets := BucketsOn(Civil(), from, to);
  }
}
