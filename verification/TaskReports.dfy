/** The inner algorithms of the delivery report. */
module TaskReports {
  import opened Basics
  import opened Rounding

  /** A date as its proleptic ordinal; day 1 is a Monday. */
  type Day = int

  type Status = string

  function Weekday(d: Day): int {
    (d + 6) % 7
  }

  function StartWeek(from: Day): Day {
    from - Weekday(from)
  }

  /** The week of a date starts on the last Monday up to it. */
  lemma WeekStartsOnMonday(d: Day)
    ensures StartWeek(d) <= d < StartWeek(d) + 7 && (StartWeek(d) - 1) % 7 == 0
  {
  }

  // ---- Weekly buckets ----

  /** Consecutive weeks from `start`, as many as begin no later than `until`. */
  ghost predicate Weeks(starts: seq<Day>, start: Day, until: Day) {
    && (forall i :: 0 <= i < |starts| ==> starts[i] == start + 7 * i && starts[i] <= until)
    && start + 7 * |starts| > until
  }

  method MakeBuckets(from: Day, until: Day) returns (starts: seq<Day>)
    ensures Weeks(starts, StartWeek(from), until)
    ensures starts != [] ==> starts[0] <= from < starts[0] + 7 && (starts[0] - 1) % 7 == 0
  {
    starts := [];
    var cursor := StartWeek(from);
    while cursor <= until
      invariant cursor == StartWeek(from) + 7 * |starts|
      invariant forall i :: 0 <= i < |starts| ==> starts[i] == StartWeek(from) + 7 * i && starts[i] <= until
      decreases until - cursor
    {
      starts := starts + [cursor];
      cursor := cursor + 7;
    }
  }

  function BucketIndex(starts: seq<Day>, day: Option<Day>, until: Day): (i: Option<nat>)
    ensures i.Some? ==> i.value < |starts|
  {
    if starts == [] || day.None? || day.value < starts[0] || day.value > until then None
    else
      var week := (day.value - starts[0]) / 7;
      Some(if week < |starts| - 1 then week else |starts| - 1)
  }

  /** A date has a bucket exactly when the report covers it, and it is the week that holds the
      date: the upper clamp never acts. */
  lemma BucketHoldsItsDay(starts: seq<Day>, start: Day, day: Day, until: Day)
    requires Weeks(starts, start, until)
    ensures BucketIndex(starts, Some(day), until).Some? <==> start <= day <= until
    ensures forall i: nat :: i < |starts| && day <= until ==>
      (BucketIndex(starts, Some(day), until) == Some(i) <==> starts[i] <= day < starts[i] + 7)
    ensures start <= day <= until ==> BucketIndex(starts, Some(day), until) == Some((day - start) / 7)
  {
    if start <= day <= until {
      assert starts != [] && starts[0] == start;
      assert (day - start) / 7 <= |starts| - 1;
    } else if starts != [] {
      assert starts[0] == start;
    }
  }

  datatype Task = Task(
    created: Option<Day>, completed: Option<Day>, status: Status, points: real)

  function CountIn(starts: seq<Day>, days: seq<Option<Day>>, until: Day, i: nat): nat {
    if days == [] then 0
    else CountIn(starts, days[..|days| - 1], until, i) + if BucketIndex(starts, days[|days| - 1], until) == Some(i) then 1 else 0
  }

  function CountWithin(start: Day, days: seq<Option<Day>>, until: Day): nat {
    if days == [] then 0
    else
      var d := days[|days| - 1];
      CountWithin(start, days[..|days| - 1], until) + if d.Some? && start <= d.value <= until then 1 else 0
  }

  function Total(counts: seq<nat>): nat {
    if counts == [] then 0 else Total(counts[..|counts| - 1]) + counts[|counts| - 1]
  }

  /** Count dates into their weeks; `counts` is the column of a report bucket. */
  method FillBuckets(starts: seq<Day>, days: seq<Option<Day>>, until: Day, counts: array<nat>)
    requires counts.Length == |starts|
    modifies counts
    ensures forall i :: 0 <= i < |starts| ==> counts[i] == old(counts[i]) + CountIn(starts, days, until, i)
  {
    for k := 0 to |days|
      invariant forall i :: 0 <= i < |starts| ==> counts[i] == old(counts[i]) + CountIn(starts, days[..k], until, i)
    {
      assert days[..k + 1][..k] == days[..k];
      var i := BucketIndex(starts, days[k], until);
      if i.Some? {
        counts[i.value] := counts[i.value] + 1;
      }
    }
    assert days[..|days|] == days;
  }

  function Column(starts: seq<Day>, days: seq<Option<Day>>, until: Day): seq<nat> {
    seq(|starts|, i requires 0 <= i < |starts| => CountIn(starts, days, until, i))
  }

  /** Every date the report covers is counted once: the buckets add up to their number. */
  lemma {:induction false} BucketsAddUp(starts: seq<Day>, start: Day, days: seq<Option<Day>>, until: Day)
    requires Weeks(starts, start, until)
    ensures Total(Column(starts, days, until)) == CountWithin(start, days, until)
  {
    if days == [] {
      AllZero(Column(starts, days, until));
    } else {
      var init, d := days[..|days| - 1], days[|days| - 1];
      BucketsAddUp(starts, start, init, until);
      if d.Some? {
        BucketHoldsItsDay(starts, start, d.value, until);
      }
      var i := BucketIndex(starts, d, until);
      if i.Some? {
        OneMore(Column(starts, init, until), Column(starts, days, until), i.value);
      } else {
        assert Column(starts, init, until) == Column(starts, days, until);
      }
    }
  }

  lemma {:induction false} AllZero(counts: seq<nat>)
    requires forall i :: 0 <= i < |counts| ==> counts[i] == 0
    ensures Total(counts) == 0
  {
    if counts != [] {
      AllZero(counts[..|counts| - 1]);
    }
  }

  lemma {:induction false} OneMore(before: seq<nat>, after: seq<nat>, i: nat)
    requires |before| == |after| && i < |before|
    requires forall j :: 0 <= j < |before| ==> after[j] == before[j] + if j == i then 1 else 0
    ensures Total(after) == Total(before) + 1
  {
    var n := |before| - 1;
    if i < n {
      OneMore(before[..n], after[..n], i);
    } else {
      assert before[..n] == after[..n];
    }
  }

  // ---- Percentiles ----

  predicate NonDecreasing(q: seq<int>) {
    forall i, j :: 0 <= i < j < |q| ==> q[i] <= q[j]
  }

  function InsertValue(q: seq<int>, x: int): seq<int> {
    if q == [] || x <= q[0] then [x] + q else [q[0]] + InsertValue(q[1..], x)
  }

  function SortedValues(values: seq<int>): seq<int> {
    if values == [] then [] else InsertValue(SortedValues(values[1..]), values[0])
  }

  lemma {:induction false} InsertAdds(q: seq<int>, x: int)
    ensures multiset(InsertValue(q, x)) == multiset(q) + multiset{x}
  {
    if q != [] && x > q[0] {
      InsertAdds(q[1..], x);
      assert q == [q[0]] + q[1..];
    }
  }

  lemma {:induction false} InsertAscends(q: seq<int>, x: int)
    requires NonDecreasing(q)
    ensures NonDecreasing(InsertValue(q, x))
    ensures forall y :: y in InsertValue(q, x) ==> y == x || y in q
  {
    if q != [] && x > q[0] {
      InsertAscends(q[1..], x);
      var rest := InsertValue(q[1..], x);
      forall i | 0 <= i < |rest| ensures q[0] <= rest[i] {
        assert rest[i] in rest;
      }
    }
  }

  lemma {:induction false} SortsValues(values: seq<int>)
    ensures NonDecreasing(SortedValues(values)) && multiset(SortedValues(values)) == multiset(values)
    ensures |SortedValues(values)| == |values|
  {
    if values != [] {
      SortsValues(values[1..]);
      InsertAdds(SortedValues(values[1..]), values[0]);
      InsertAscends(SortedValues(values[1..]), values[0]);
      assert values == [values[0]] + values[1..];
      assert |SortedValues(values)| == |multiset(SortedValues(values))| == |multiset(values)|;
    }
  }

  // Products of reals, one fact at a time.

  lemma Distribute(d: real, x: real, y: real)
    ensures d * (y - x) == d * y - d * x
  {
  }

  lemma NotNegative(x: real, y: real)
    requires 0.0 <= x && 0.0 <= y
    ensures 0.0 <= x * y
  {
  }

  lemma ScaleOrder(d: real, x: real, y: real)
    requires 0.0 <= d && x <= y
    ensures d * x <= d * y
  {
    NotNegative(d, y - x);
    Distribute(d, x, y);
  }

  /** The point a fraction `x` of the way from `a` to `b`. */
  function Blend(a: real, b: real, x: real): real {
    a + (b - a) * x
  }

  lemma BlendGrows(a: real, b: real, x: real, y: real)
    requires a <= b && x <= y
    ensures Blend(a, b, x) <= Blend(a, b, y)
  {
    ScaleOrder(b - a, x, y);
  }

  lemma BlendEnds(a: real, b: real)
    ensures Blend(a, b, 0.0) == a && Blend(a, b, 1.0) == b
  {
  }

  lemma BlendBetween(a: real, b: real, x: real)
    requires a <= b && 0.0 <= x <= 1.0
    ensures a <= Blend(a, b, x) <= b
  {
    BlendEnds(a, b);
    BlendGrows(a, b, 0.0, x);
    BlendGrows(a, b, x, 1.0);
  }

  function Percent(m: real, p: real): real {
    m * p / 100.0
  }

  lemma PercentGrows(m: real, p: real, q: real)
    requires 0.0 <= m && p <= q
    ensures Percent(m, p) <= Percent(m, q)
  {
    ScaleOrder(m, p, q);
    DivideOrder(m * p, m * q, 100.0);
  }

  lemma PercentEnds(m: real)
    ensures Percent(m, 0.0) == 0.0 && Percent(m, 100.0) == m
  {
  }

  lemma DivideOrder(a: real, b: real, n: real)
    requires a <= b && n > 0.0
    ensures a / n <= b / n
  {
    var d := (b - a) / n;
    DivideDifference(a, b, n);
    if d < 0.0 {
      NotNegative(-d, n);
      DivideBack(b - a, n);
    }
  }

  lemma DivideDifference(a: real, b: real, n: real)
    requires n != 0.0
    ensures b / n == a / n + (b - a) / n
  {
  }

  lemma DivideBack(a: real, n: real)
    requires n != 0.0
    ensures a / n * n == a
  {
  }

  /** The next place after `low`, as far as there is one. */
  function NextPlace(n: nat, low: nat): nat
    requires low < n
  {
    if low + 1 < n - 1 then low + 1 else n - 1
  }

  /** Linear interpolation at rank `k` of an ascending list. */
  function Interpolate(ordered: seq<int>, k: real): real
    requires ordered != [] && 0.0 <= k <= (|ordered| - 1) as real
  {
    var low := k.Floor;
    Blend(ordered[low] as real, ordered[NextPlace(|ordered|, low)] as real, k - low as real)
  }

  function RankOf(n: nat, pct: nat): real {
    Percent((n - 1) as real, pct as real)
  }

  function Percentile(values: seq<int>, pct: nat): (r: real)
    requires pct <= 100
    ensures values == [] ==> r == 0.0
  {
    if values == [] then 0.0
    else
      var ordered := SortedValues(values);
      SortsValues(values);
      Round1(Quantile(ordered, pct))
  }

  lemma RankInRange(n: nat, pct: nat)
    requires n > 0 && pct <= 100
    ensures 0.0 <= RankOf(n, pct) <= (n - 1) as real
  {
    PercentEnds((n - 1) as real);
    PercentGrows((n - 1) as real, 0.0, pct as real);
    PercentGrows((n - 1) as real, pct as real, 100.0);
  }

  lemma RankGrows(n: nat, p: nat, q: nat)
    requires n > 0 && p <= q
    ensures RankOf(n, p) <= RankOf(n, q)
  {
    PercentGrows((n - 1) as real, p as real, q as real);
  }

  lemma InterpolateBetween(ordered: seq<int>, k: real)
    requires ordered != [] && 0.0 <= k <= (|ordered| - 1) as real && NonDecreasing(ordered)
    ensures ordered[k.Floor] as real <= Interpolate(ordered, k)
    ensures Interpolate(ordered, k) <= ordered[NextPlace(|ordered|, k.Floor)] as real
  {
    var low := k.Floor;
    BlendBetween(ordered[low] as real, ordered[NextPlace(|ordered|, low)] as real, k - low as real);
  }

  lemma InterpolateGrows(ordered: seq<int>, k: real, m: real)
    requires ordered != [] && NonDecreasing(ordered) && 0.0 <= k <= m <= (|ordered| - 1) as real
    ensures Interpolate(ordered, k) <= Interpolate(ordered, m)
  {
    if k.Floor == m.Floor {
      GrowsInside(ordered, k, m);
    } else {
      InterpolateBetween(ordered, k);
      InterpolateBetween(ordered, m);
      FloorOrder(k, m);
      assert ordered[NextPlace(|ordered|, k.Floor)] <= ordered[m.Floor];
    }
  }

  lemma FloorOrder(k: real, m: real)
    requires k <= m && k.Floor != m.Floor
    ensures k.Floor + 1 <= m.Floor
  {
  }

  lemma GrowsInside(ordered: seq<int>, k: real, m: real)
    requires ordered != [] && NonDecreasing(ordered) && 0.0 <= k <= m <= (|ordered| - 1) as real && k.Floor == m.Floor
    ensures Interpolate(ordered, k) <= Interpolate(ordered, m)
  {
    var low := k.Floor;
    BlendGrows(ordered[low] as real, ordered[NextPlace(|ordered|, low)] as real, k - low as real, m - low as real);
  }

  /** The interpolated value before rounding. */
  function Quantile(ordered: seq<int>, pct: nat): real
    requires ordered != [] && pct <= 100
  {
    RankInRange(|ordered|, pct);
    Interpolate(ordered, RankOf(|ordered|, pct))
  }

  lemma QuantileGrows(ordered: seq<int>, p: nat, q: nat)
    requires ordered != [] && NonDecreasing(ordered) && p <= q <= 100
    ensures Quantile(ordered, p) <= Quantile(ordered, q)
  {
    RankInRange(|ordered|, p);
    RankInRange(|ordered|, q);
    RankGrows(|ordered|, p, q);
    InterpolateGrows(ordered, RankOf(|ordered|, p), RankOf(|ordered|, q));
  }

  lemma QuantileEnds(ordered: seq<int>)
    requires ordered != []
    ensures Quantile(ordered, 0) == ordered[0] as real
    ensures Quantile(ordered, 100) == ordered[|ordered| - 1] as real
  {
    var n := |ordered|;
    RankInRange(n, 0);
    RankInRange(n, 100);
    PercentEnds((n - 1) as real);
    InterpolateAt(ordered, 0);
    InterpolateAt(ordered, n - 1);
  }

  lemma InterpolateAt(ordered: seq<int>, i: nat)
    requires i < |ordered|
    ensures Interpolate(ordered, i as real) == ordered[i] as real
  {
    BlendEnds(ordered[i] as real, ordered[NextPlace(|ordered|, i)] as real);
  }

  /** At a rank between two places a percentile lies the same part of the way between them. */
  lemma QuantileInterpolates(ordered: seq<int>, pct: nat, i: nat)
    requires i < |ordered| && pct <= 100 && 100 * i <= (|ordered| - 1) * pct < 100 * (i + 1)
    ensures var part := ((|ordered| - 1) * pct - 100 * i) as real / 100.0;
      var next := if i + 1 < |ordered| then ordered[i + 1] else ordered[i];
      Quantile(ordered, pct) == ordered[i] as real + (next - ordered[i]) as real * part
  {
    RankInRange(|ordered|, pct);
    var whole := (|ordered| - 1) * pct;
    WholeRank(|ordered|, pct, whole);
    assert (whole as real / 100.0).Floor == i;
  }

  lemma WholeRank(n: nat, pct: nat, whole: nat)
    requires n > 0 && whole == (n - 1) * pct
    ensures RankOf(n, pct) == whole as real / 100.0
  {
    assert (n - 1) as real * pct as real == whole as real;
  }

  lemma PercentileGrows(values: seq<int>, p: nat, q: nat)
    requires p <= q <= 100
    ensures Percentile(values, p) <= Percentile(values, q)
  {
    if values != [] {
      var ordered := SortedValues(values);
      SortsValues(values);
      QuantileGrows(ordered, p, q);
      RoundingKeepsOrder(Quantile(ordered, p), Quantile(ordered, q));
    }
  }

  predicate Least(values: seq<int>, v: int) {
    v in values && forall u :: u in values ==> v <= u
  }

  predicate Greatest(values: seq<int>, v: int) {
    v in values && forall u :: u in values ==> u <= v
  }

  lemma SameMembers(values: seq<int>, ordered: seq<int>, v: int)
    requires multiset(values) == multiset(ordered)
    ensures v in values <==> v in ordered
  {
    assert v in values <==> v in multiset(values);
    assert v in ordered <==> v in multiset(ordered);
  }

  lemma EndsAreExtreme(ordered: seq<int>)
    requires NonDecreasing(ordered) && ordered != []
    ensures Least(ordered, ordered[0]) && Greatest(ordered, ordered[|ordered| - 1])
  {
  }

  lemma SortedEnds(values: seq<int>)
    requires values != []
    ensures var ordered := SortedValues(values);
      ordered != [] && Least(values, ordered[0]) && Greatest(values, ordered[|ordered| - 1])
  {
    var ordered := SortedValues(values);
    SortsValues(values);
    EndsAreExtreme(ordered);
    forall v ensures v in values <==> v in ordered {
      SameMembers(values, ordered, v);
    }
  }

  /** A percentile lies between the least and the greatest value, and reaches them at the ends. */
  lemma PercentileWithin(values: seq<int>, lo: int, hi: int, pct: nat)
    requires Least(values, lo) && Greatest(values, hi) && pct <= 100
    ensures Percentile(values, 0) == lo as real && Percentile(values, 100) == hi as real
    ensures lo as real <= Percentile(values, pct) <= hi as real
  {
    var ordered := SortedValues(values);
    SortedEnds(values);
    assert lo == ordered[0] && hi == ordered[|ordered| - 1];
    QuantileEnds(ordered);
    WholeNumbersStay(lo);
    WholeNumbersStay(hi);
    PercentileGrows(values, 0, pct);
    PercentileGrows(values, pct, 100);
  }

  // ---- Status on a day ----

  datatype Transition = Transition(day: Day, before: Status, after: Status)

  predicate Sorted(timeline: seq<Transition>) {
    forall i, j :: 0 <= i < j < |timeline| ==> timeline[i].day <= timeline[j].day
  }

  /** The status a task had at the end of `day`: None before its creation. */
  method StatusOn(task: Task, timeline: seq<Transition>, day: Day) returns (status: Option<Status>)
    ensures status.None? <==> task.created.None? || task.created.value > day
    ensures status.Some? && Sorted(timeline) ==> status.value == LastBy(timeline, day, task.status)
    ensures status.Some? && timeline == [] ==> status.value == task.status
    ensures status.Some? && timeline != [] && timeline[0].day > day ==> status.value == timeline[0].before
    ensures status.Some? && Sorted(timeline) ==>
      forall k :: 0 <= k < |timeline| && timeline[k].day <= day && (k + 1 < |timeline| ==> timeline[k + 1].day > day) ==>
        status.value == timeline[k].after
  {
    if task.created.None? || task.created.value > day {
      return None;
    }
    var current := if timeline != [] then timeline[0].before else task.status;
    var k := 0;
    while k < |timeline|
      invariant 0 <= k <= |timeline|
      invariant forall i :: 0 <= i < k ==> timeline[i].day <= day
      invariant current == if k == 0 then (if timeline != [] then timeline[0].before else task.status) else timeline[k - 1].after
    {
      if timeline[k].day > day {
        break;
      }
      current := timeline[k].after;
      k := k + 1;
    }
    if Sorted(timeline) {
      LastByIs(timeline, day, task.status, k);
    }
    return Some(current);
  }

  /** The outcome of the last transition on or before `day`, searched from the end. */
  function LastBy(timeline: seq<Transition>, day: Day, now: Status): Status {
    if timeline == [] then now
    else if timeline[|timeline| - 1].day <= day then timeline[|timeline| - 1].after
    else if |timeline| == 1 then timeline[0].before
    else LastBy(timeline[..|timeline| - 1], day, now)
  }

  lemma {:induction false} LastByIs(timeline: seq<Transition>, day: Day, now: Status, k: nat)
    requires Sorted(timeline) && k <= |timeline|
    requires forall i :: 0 <= i < k ==> timeline[i].day <= day
    requires k < |timeline| ==> timeline[k].day > day
    ensures LastBy(timeline, day, now) ==
      if timeline == [] then now else if k == 0 then timeline[0].before else timeline[k - 1].after
  {
    if k < |timeline| {
      assert timeline[|timeline| - 1].day >= timeline[k].day;
      if |timeline| > 1 {
        LastByIs(timeline[..|timeline| - 1], day, now, k);
      }
    }
  }

  // ---- Burndown ----

  function AllPoints(tasks: seq<Task>): real {
    if tasks == [] then 0.0 else AllPoints(tasks[..|tasks| - 1]) + tasks[|tasks| - 1].points
  }

  predicate BurnedBy(task: Task, completed: set<Status>, day: Day) {
    task.status in completed && task.completed.Some? && task.completed.value <= day
  }

  function Burned(tasks: seq<Task>, completed: set<Status>, day: Day): real {
    if tasks == [] then 0.0
    else
      var t := tasks[|tasks| - 1];
      Burned(tasks[..|tasks| - 1], completed, day) + if BurnedBy(t, completed, day) then t.points else 0.0
  }

  function Remaining(tasks: seq<Task>, completed: set<Status>, day: Day): real {
    Round1(AllPoints(tasks) - Burned(tasks, completed, day))
  }

  /** The straight line from all points on the first day to none on the last. */
  function Ideal(total: real, index: nat, days: nat): real {
    if days > 1 then Scaled(total, Left(index, days)) else total
  }

  function Scaled(total: real, part: real): real {
    Round1(total * part)
  }

  datatype BurnDay = BurnDay(ideal: real, remaining: Option<real>)

  function DayOf(tasks: seq<Task>, completed: set<Status>, start: Day, today: Day, index: nat, days: nat): BurnDay {
    BurnDay(Ideal(AllPoints(tasks), index, days),
      if start + index <= today then Some(Remaining(tasks, completed, start + index)) else None)
  }

  /** The points of the tasks that were not done by the end of `day`. */
  function PointsLeft(tasks: seq<Task>, completed: set<Status>, day: Day): real {
    if tasks == [] then 0.0
    else
      var t := tasks[|tasks| - 1];
      PointsLeft(tasks[..|tasks| - 1], completed, day) +
      if t.status !in completed || t.completed == None || t.completed.value > day then t.points else 0.0
  }

  lemma {:induction false} PointsLeftAre(tasks: seq<Task>, completed: set<Status>, day: Day)
    ensures PointsLeft(tasks, completed, day) == AllPoints(tasks) - Burned(tasks, completed, day)
  {
    if tasks != [] {
      PointsLeftAre(tasks[..|tasks| - 1], completed, day);
    }
  }

  /** A day of the line shows what is not done then, unless it is to come. */
  lemma DayMeans(tasks: seq<Task>, completed: set<Status>, start: Day, today: Day, i: nat, days: nat)
    requires i < days
    ensures var day := DayOf(tasks, completed, start, today, i, days);
      && day.remaining == (if start + i <= today then Some(Round1(PointsLeft(tasks, completed, start + i))) else None)
      && day.ideal == Ideal(AllPoints(tasks), i, days)
  {
    PointsLeftAre(tasks, completed, start + i);
  }

  method BurnedOn(tasks: seq<Task>, completed: set<Status>, day: Day) returns (burned: real)
    ensures burned == Burned(tasks, completed, day)
  {
    burned := 0.0;
    for k := 0 to |tasks|
      invariant burned == Burned(tasks[..k], completed, day)
    {
      assert tasks[..k + 1][..k] == tasks[..k];
      if BurnedBy(tasks[k], completed, day) {
        burned := burned + tasks[k].points;
      }
    }
    assert tasks[..|tasks|] == tasks;
  }

  /** The ideal and the remaining points of every day of a sprint; future days have none left
      to show. */
  method Burndown(tasks: seq<Task>, completed: set<Status>, start: Day, end: Day, today: Day)
    returns (line: seq<BurnDay>)
    ensures |line| == if end >= start then end - start + 1 else 0
    ensures forall i :: 0 <= i < |line| ==> line[i] == DayOf(tasks, completed, start, today, i, |line|)
  {
    line := [];
    var days := if end >= start then end - start + 1 else 0;
    var total := AllPoints(tasks);
    for index := 0 to days
      invariant |line| == index
      invariant forall i :: 0 <= i < |line| ==> line[i] == DayOf(tasks, completed, start, today, i, days)
    {
      var day := start + index;
      var burned := BurnedOn(tasks, completed, day);
      var left := if day <= today then Some(Round1(total - burned)) else None;
      line := line + [BurnDay(Ideal(total, index, days), left)];
    }
  }

  function Left(index: nat, days: nat): real
    requires days > 1
  {
    1.0 - index as real / (days - 1) as real
  }

  lemma OverItself(n: real)
    requires n != 0.0
    ensures n / n == 1.0 && 0.0 / n == 0.0
  {
  }

  /** The ideal line is straight: with `part` of the days after the first one still to come, it is
      within half a tenth of that part of all points. */
  lemma IdealIsStraight(total: real, i: nat, days: nat, part: real)
    requires i < days && days > 1 && part * (days - 1) as real == (days - 1 - i) as real
    ensures total * part - 0.05 <= Ideal(total, i, days) <= total * part + 0.05
  {
    hide Scaled;
    PartIsLeft(i as real, (days - 1) as real, part);
    assert part == Left(i, days);
    ScaledIsClose(total, part);
  }

  lemma ScaledIsClose(total: real, part: real)
    ensures total * part - 0.05 <= Scaled(total, part) <= total * part + 0.05
  {
    Round1IsNearest(total * part);
  }

  lemma PartIsLeft(i: real, n: real, part: real)
    requires n > 0.0 && part * n == n - i
    ensures part == 1.0 - i / n
  {
    DivideBack(n - i, n);
    DivideDifference(i, n, n);
    OverItself(n);
    SameFactor(part, (n - i) / n, n);
  }

  lemma SameFactor(x: real, y: real, n: real)
    requires n > 0.0 && x * n == y * n
    ensures x == y
  {
  }

  lemma ScaledGrows(total: real, x: real, y: real)
    requires total >= 0.0 && x <= y
    ensures Scaled(total, x) <= Scaled(total, y)
  {
    ScaleOrder(total, x, y);
    RoundingKeepsOrder(total * x, total * y);
  }

  lemma IdealOrder(total: real, i: nat, j: nat, days: nat)
    requires total >= 0.0 && i <= j < days && days > 1
    ensures Ideal(total, j, days) <= Ideal(total, i, days)
  {
    DivideOrder(i as real, j as real, (days - 1) as real);
    ScaledGrows(total, Left(j, days), Left(i, days));
  }

  /** The ideal line starts at all points, never rises, and ends at none. */
  lemma IdealFallsToZero(total: real, i: nat, j: nat, days: nat)
    requires total >= 0.0 && i <= j < days && days > 1
    ensures Ideal(total, j, days) <= Ideal(total, i, days)
    ensures Ideal(total, 0, days) == Round1(total) && Ideal(total, days - 1, days) == 0.0
  {
    IdealOrder(total, i, j, days);
    OverItself((days - 1) as real);
    assert Left(0, days) == 1.0 && Left(days - 1, days) == 0.0;
    Ends(total);
  }

  lemma Ends(total: real)
    ensures total * 1.0 == total && total * 0.0 == 0.0 && Round1(0.0) == 0.0
  {
    WholeNumbersStay(0);
  }

  predicate NonNegative(tasks: seq<Task>) {
    forall t :: t in tasks ==> t.points >= 0.0
  }

  lemma {:induction false} BurnedGrows(tasks: seq<Task>, completed: set<Status>, d: Day, e: Day)
    requires NonNegative(tasks) && d <= e
    ensures 0.0 <= Burned(tasks, completed, d) <= Burned(tasks, completed, e) <= AllPoints(tasks)
  {
    if tasks != [] {
      var init, t := tasks[..|tasks| - 1], tasks[|tasks| - 1];
      assert t in tasks;
      BurnedGrows(init, completed, d, e);
    }
  }

  /** With points that are not negative the line never rises and stays between zero and the total. */
  lemma RemainingNeverRises(tasks: seq<Task>, completed: set<Status>, d: Day, e: Day)
    requires NonNegative(tasks) && d <= e
    ensures 0.0 <= Remaining(tasks, completed, e) <= Remaining(tasks, completed, d) <= Round1(AllPoints(tasks))
  {
    hide Round1;
    BurnedGrows(tasks, completed, d, e);
    FourInOrder(0.0, AllPoints(tasks) - Burned(tasks, completed, e), AllPoints(tasks) - Burned(tasks, completed, d),
      AllPoints(tasks));
    WholeNumbersStay(0);
  }

  lemma FourInOrder(w: real, x: real, y: real, z: real)
    requires w <= x <= y <= z
    ensures Round1(w) <= Round1(x) <= Round1(y) <= Round1(z)
  {
    RoundingKeepsOrder(w, x);
    RoundingKeepsOrder(x, y);
    RoundingKeepsOrder(y, z);
  }
}
