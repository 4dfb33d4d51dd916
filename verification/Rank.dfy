/** Board ranks: fixed-width numerals that order as text, midpoints, and re-spacing. */
module Rank {
  import opened Basics

  const STEP: nat := 65536
  const WIDTH: nat := 12
  const CEILING: nat := 1_000_000_000_000

  // ---- Numerals ----

  function Digit(d: nat): char
    requires d < 10
  {
    ('0' as int + d) as char
  }

  predicate IsDigit(c: char) {
    '0' <= c <= '9'
  }

  predicate Numeral(s: string) {
    forall i :: 0 <= i < |s| ==> IsDigit(s[i])
  }

  function Decimal(n: nat): string {
    if n < 10 then [Digit(n)] else Decimal(n / 10) + [Digit(n % 10)]
  }

  function Zeros(k: nat): string {
    seq(k, _ => '0')
  }

  function Fmt(n: nat): string {
    var d := Decimal(n);
    if |d| < WIDTH then Zeros(WIDTH - |d|) + d else d
  }

  function Value(s: string): nat
    requires Numeral(s)
  {
    if s == "" then 0 else Value(s[..|s| - 1]) * 10 + (s[|s| - 1] as int - '0' as int)
  }

  /** A missing or malformed rank counts as zero. */
  function Parse(rank: string): nat {
    if Numeral(rank) then Value(rank) else 0
  }

  lemma {:induction false} DecimalReads(n: nat)
    ensures Decimal(n) != "" && Numeral(Decimal(n)) && Value(Decimal(n)) == n
  {
    if n >= 10 {
      DecimalReads(n / 10);
      var d := Decimal(n);
      assert d[..|d| - 1] == Decimal(n / 10);
    }
  }

  lemma {:induction false} LeadingZeros(k: nat, s: string)
    requires Numeral(s)
    ensures Numeral(Zeros(k) + s) && Value(Zeros(k) + s) == Value(s)
    decreases k + |s|
  {
    var t := Zeros(k) + s;
    if s != "" {
      LeadingZeros(k, s[..|s| - 1]);
      assert t[..|t| - 1] == Zeros(k) + s[..|s| - 1];
    } else if k > 0 {
      LeadingZeros(k - 1, "");
      assert t[..|t| - 1] == Zeros(k - 1) + "";
    }
  }

  lemma ParseUndoesFmt(n: nat)
    ensures Parse(Fmt(n)) == n && Fmt(n) != ""
  {
    DecimalReads(n);
    if |Decimal(n)| < WIDTH {
      LeadingZeros(WIDTH - |Decimal(n)|, Decimal(n));
    }
  }

  // ---- Text order ----

  /** How the database compares two ranks. */
  predicate TextLess(s: string, t: string) {
    t != "" && (s == "" || s[0] < t[0] || (s[0] == t[0] && TextLess(s[1..], t[1..])))
  }

  /** A text sorts before every longer one that begins with it; the empty rank before all. */
  lemma {:induction false} PrefixSortsFirst(s: string, more: string)
    requires more != ""
    ensures TextLess(s, s + more) && !TextLess(s + more, s)
  {
    if s != "" {
      assert (s + more)[1..] == s[1..] + more;
      PrefixSortsFirst(s[1..], more);
    }
  }

  /** Two texts that neither sorts before are equal. */
  lemma {:induction false} TextTotal(s: string, t: string)
    requires !TextLess(s, t) && !TextLess(t, s)
    ensures s == t
  {
    if s != "" && t != "" {
      TextTotal(s[1..], t[1..]);
    }
  }

  function Pow10(w: nat): nat {
    if w == 0 then 1 else 10 * Pow10(w - 1)
  }

  function Fixed(n: nat, w: nat): string {
    if w == 0 then "" else Fixed(n / 10, w - 1) + [Digit(n % 10)]
  }

  lemma {:induction false} FixedZero(w: nat)
    ensures Fixed(0, w) == Zeros(w)
  {
    if w > 0 {
      FixedZero(w - 1);
    }
  }

  lemma {:induction false} PaddedIsFixed(n: nat, w: nat)
    requires w > 0 && n < Pow10(w)
    ensures |Decimal(n)| <= w && Zeros(w - |Decimal(n)|) + Decimal(n) == Fixed(n, w)
    decreases w
  {
    if n < 10 {
      FixedZero(w - 1);
    } else {
      PaddedIsFixed(n / 10, w - 1);
      assert w - |Decimal(n)| == w - 1 - |Decimal(n / 10)|;
    }
  }

  lemma FmtIsFixed(n: nat)
    requires n < CEILING
    ensures Fmt(n) == Fixed(n, WIDTH)
  {
    assert Pow10(12) == CEILING;
    PaddedIsFixed(n, 12);
    assert |Decimal(n)| == WIDTH ==> Zeros(0) + Decimal(n) == Decimal(n);
  }

  lemma {:induction false} TextOfAppend(s: string, a: char, t: string, b: char)
    requires |s| == |t|
    ensures TextLess(s + [a], t + [b]) <==> TextLess(s, t) || (s == t && a < b)
  {
    if s != "" {
      TextOfAppend(s[1..], a, t[1..], b);
      assert (s + [a])[1..] == s[1..] + [a] && (t + [b])[1..] == t[1..] + [b];
      assert s == t <==> s[0] == t[0] && s[1..] == t[1..];
    }
  }

  lemma {:induction false} FixedOrder(m: nat, n: nat, w: nat)
    requires m < Pow10(w) && n < Pow10(w)
    ensures |Fixed(m, w)| == |Fixed(n, w)| == w
    ensures TextLess(Fixed(m, w), Fixed(n, w)) <==> m < n
    ensures Fixed(m, w) == Fixed(n, w) <==> m == n
    decreases w
  {
    if w > 0 {
      FixedOrder(m / 10, n / 10, w - 1);
      TextOfAppend(Fixed(m / 10, w - 1), Digit(m % 10), Fixed(n / 10, w - 1), Digit(n % 10));
      var f, g := Fixed(m, w), Fixed(n, w);
      assert f[..w - 1] == Fixed(m / 10, w - 1) && g[..w - 1] == Fixed(n / 10, w - 1);
      assert f[w - 1] == Digit(m % 10) && g[w - 1] == Digit(n % 10);
    }
  }

  /** Below the ceiling text order is number order. */
  lemma TextOrderIsNumberOrder(m: nat, n: nat)
    requires m < CEILING && n < CEILING
    ensures TextLess(Fmt(m), Fmt(n)) <==> m < n
  {
    assert Pow10(12) == CEILING;
    FmtIsFixed(m);
    FmtIsFixed(n);
    FixedOrder(m, n, 12);
  }

  lemma {:induction false} LeadingDigit(n: nat, d: nat, w: nat)
    requires 1 <= d < 10 && d * Pow10(w) <= n < (d + 1) * Pow10(w)
    ensures |Decimal(n)| == w + 1 && Decimal(n)[0] == Digit(d)
    decreases w
  {
    if w > 0 {
      Pow10Positive(w - 1);
      TenthBetween(n, d, Pow10(w - 1));
      LeadingDigit(n / 10, d, w - 1);
    }
  }

  lemma TenthBetween(n: nat, d: nat, p: nat)
    requires 1 <= d && 1 <= p && d * (10 * p) <= n < (d + 1) * (10 * p)
    ensures n >= 10 && d * p <= n / 10 < (d + 1) * p
  {
    var low, high := d * p, (d + 1) * p;
    assert d * (10 * p) == 10 * low && (d + 1) * (10 * p) == 10 * high;
    assert low >= 1 by {
      assert low == p + (d - 1) * p;
    }
  }

  lemma {:induction false} Pow10Positive(w: nat)
    ensures Pow10(w) >= 1
  {
    if w > 0 {
      Pow10Positive(w - 1);
    }
  }

  /** The twelve digits are exactly enough: text order is right on all numbers below a bound
      just when the bound is at most the ceiling. */
  lemma WidthIsExact(bound: nat)
    ensures (forall m: nat, n: nat :: m < n < bound ==> TextLess(Fmt(m), Fmt(n))) <==> bound <= CEILING
  {
    if bound <= CEILING {
      forall m: nat, n: nat | m < n < bound ensures TextLess(Fmt(m), Fmt(n)) {
        TextOrderIsNumberOrder(m, n);
      }
    } else {
      OverflowSortsFirst(CEILING - 1, CEILING);
      assert CEILING - 1 < CEILING < bound;
    }
  }

  lemma OverflowSortsFirst(m: nat, n: nat)
    requires 900_000_000_000 <= m < CEILING <= n < 2 * CEILING
    ensures !TextLess(Fmt(m), Fmt(n))
  {
    assert Pow10(11) == 100_000_000_000 && Pow10(12) == CEILING;
    LeadingDigit(m, 9, 11);
    LeadingDigit(n, 1, 12);
  }

  // ---- Midpoints ----

  /** A rank between two neighbours; the empty string is an open end or a missing rank. */
  function RankBetween(prev: string, next: string): Option<string> {
    if prev != "" && next != "" then
      var a, b := Parse(prev), Parse(next);
      if b > a + 1 then Some(Fmt((a + b) / 2)) else None
    else if prev != "" then Some(Fmt(Parse(prev) + STEP))
    else if next != "" then
      var b := Parse(next);
      if b > 1 then Some(Fmt(b / 2)) else None
    else Some(Fmt(STEP))
  }

  /** The number `x` lies strictly between the neighbours, and above zero. */
  predicate Fits(prev: string, next: string, x: nat) {
    (if prev == "" then 0 else Parse(prev)) < x && (next != "" ==> x < Parse(next))
  }

  /** A rank that is not all digits is a neighbour at zero: nothing fits below it, and half of
      the next rank above it. */
  lemma MalformedIsZero(rank: string, next: string, i: nat)
    requires i < |rank| && !('0' <= rank[i] <= '9') && next != ""
    ensures RankBetween("", rank) == None
    ensures RankBetween(rank, next) == RankBetween("", next)
  {
    assert !IsDigit(rank[i]);
  }

  /** A rank is found exactly when some number fits, and the one found fits. */
  lemma BetweenIsExact(prev: string, next: string)
    ensures RankBetween(prev, next).Some? <==> exists x: nat :: Fits(prev, next, x)
    ensures RankBetween(prev, next).Some? ==> Fits(prev, next, Parse(RankBetween(prev, next).value))
  {
    var r := RankBetween(prev, next);
    if r.Some? {
      ParseUndoesFmt(if next == "" then (if prev == "" then STEP else Parse(prev) + STEP)
                     else if prev == "" then Parse(next) / 2 else (Parse(prev) + Parse(next)) / 2);
      assert Fits(prev, next, Parse(r.value));
    }
  }

  // ---- How long the room lasts ----

  datatype Op = Insert(at: nat) | Append | Remove(at: nat)

  function TextAt(column: seq<nat>, i: int): string {
    if 0 <= i < |column| then Fmt(column[i]) else ""
  }

  /** One operation on the ranks of a column; None when the neighbours leave no room. */
  function Perform(column: seq<nat>, op: Op): Option<seq<nat>> {
    match op
    case Insert(p) =>
      if p >= |column| then Some(column)
      else
        var r := RankBetween(TextAt(column, p - 1), TextAt(column, p));
        if r.None? then None else Some(column[..p] + [Parse(r.value)] + column[p..])
    case Append =>
      var r := RankBetween(TextAt(column, |column| - 1), "");
      if r.None? then None else Some(column + [Parse(r.value)])
    case Remove(p) =>
      if p >= |column| then Some(column) else Some(column[..p] + column[p + 1..])
  }

  function PerformAll(column: seq<nat>, ops: seq<Op>): Option<seq<nat>> {
    if ops == [] then Some(column)
    else
      var earlier := PerformAll(column, ops[..|ops| - 1]);
      if earlier.None? then None else Perform(earlier.value, ops[|ops| - 1])
  }

  function Inserts(ops: seq<Op>): nat {
    if ops == [] then 0 else Inserts(ops[..|ops| - 1]) + if ops[|ops| - 1].Insert? then 1 else 0
  }

  function Appends(ops: seq<Op>): nat {
    if ops == [] then 0 else Appends(ops[..|ops| - 1]) + if ops[|ops| - 1].Append? then 1 else 0
  }

  function Gap(column: seq<nat>, i: nat): int
    requires i < |column|
  {
    if i == 0 then column[0] as int else column[i] as int - column[i - 1] as int
  }

  /** The first rank and every gap are at least `g`. */
  predicate Spaced(column: seq<nat>, g: nat) {
    forall i :: 0 <= i < |column| ==> Gap(column, i) >= g
  }

  function Top(column: seq<nat>): nat {
    if column == [] then 0 else column[|column| - 1]
  }

  function Pow2(k: nat): nat {
    if k == 0 then 1 else 2 * Pow2(k - 1)
  }

  /** The ranks a rebalance writes for `n` tasks. */
  function Even(n: nat): seq<nat> {
    seq(n, i requires 0 <= i < n => (i + 1) * STEP)
  }

  function Middle(low: nat, high: nat): Option<nat> {
    if high > low + 1 then Some((low + high) / 2) else None
  }

  function Read(rank: Option<string>): Option<nat> {
    if rank.None? then None else Some(Parse(rank.value))
  }

  /** Below, ranks are only read back: how they are spelled is left aside. */
  lemma BetweenTwo(prev: string, next: string)
    requires prev != "" && next != ""
    ensures Read(RankBetween(prev, next)) == Middle(Parse(prev), Parse(next))
  {
    hide Fmt, Parse;
    ParseUndoesFmt((Parse(prev) + Parse(next)) / 2);
  }

  lemma BeforeFirst(next: string)
    requires next != ""
    ensures Read(RankBetween("", next)) == Middle(0, Parse(next))
  {
    hide Fmt, Parse;
    ParseUndoesFmt(Parse(next) / 2);
  }

  lemma AfterLast(prev: string)
    ensures Read(RankBetween(prev, "")) == Some((if prev == "" then 0 else Parse(prev)) + STEP)
  {
    hide Fmt, Parse;
    ParseUndoesFmt(STEP);
    ParseUndoesFmt(Parse(prev) + STEP);
  }

  /** In numbers: an insertion in front of task `p` takes the middle of the gap there. */
  lemma InsertIsMiddle(column: seq<nat>, p: nat)
    requires p < |column|
    ensures var r := Middle(if p == 0 then 0 else column[p - 1], column[p]);
      Perform(column, Insert(p)) == if r.Some? then Some(column[..p] + [r.value] + column[p..]) else None
  {
    hide Fmt, Parse, RankBetween;
    ParseUndoesFmt(column[p]);
    if p == 0 {
      BeforeFirst(Fmt(column[p]));
    } else {
      ParseUndoesFmt(column[p - 1]);
      BetweenTwo(Fmt(column[p - 1]), Fmt(column[p]));
    }
  }

  lemma InsertHalvesTheGap(column: seq<nat>, p: nat, g: nat)
    requires Spaced(column, g) && g >= 2 && p < |column|
    ensures var after := Perform(column, Insert(p));
      after.Some? && Spaced(after.value, g / 2) && Top(after.value) == Top(column)
  {
    hide Perform;
    assert Gap(column, p) >= g;
    InsertIsMiddle(column, p);
    var low := if p == 0 then 0 else column[p - 1];
    MiddleSpaced(column, p, (low + column[p]) / 2, g);
  }

  lemma MiddleSpaced(column: seq<nat>, p: nat, x: nat, g: nat)
    requires Spaced(column, g) && p < |column|
    requires (if p == 0 then x as int else x as int - column[p - 1] as int) >= g / 2 && column[p] - x >= g / 2
    ensures var after := column[..p] + [x] + column[p..];
      Spaced(after, g / 2) && Top(after) == Top(column)
  {
    var after := column[..p] + [x] + column[p..];
    forall i | 0 <= i < |after| ensures Gap(after, i) >= g / 2 {
      if i < p {
        assert Gap(after, i) == Gap(column, i);
      } else if i > p + 1 {
        assert Gap(after, i) == Gap(column, i - 1);
      }
    }
  }

  lemma AppendIsOneStep(column: seq<nat>)
    ensures Perform(column, Append) == Some(column + [Top(column) + STEP])
  {
    hide Fmt, Parse, RankBetween;
    if column == [] {
      AfterLast("");
    } else {
      ParseUndoesFmt(Top(column));
      AfterLast(Fmt(Top(column)));
    }
  }

  lemma AppendKeepsTheGap(column: seq<nat>, g: nat)
    requires Spaced(column, g) && g <= STEP
    ensures var after := Perform(column, Append);
      after.Some? && Spaced(after.value, g) && Top(after.value) == Top(column) + STEP
  {
    hide Perform;
    AppendIsOneStep(column);
    var after := column + [Top(column) + STEP];
    forall i | 0 <= i < |after| ensures Gap(after, i) >= g {
      if i < |column| {
        assert Gap(after, i) == Gap(column, i);
      }
    }
  }

  lemma RemoveKeepsTheGap(column: seq<nat>, p: nat, g: nat)
    requires Spaced(column, g)
    ensures var after := Perform(column, Remove(p));
      after.Some? && Spaced(after.value, g) && Top(after.value) <= Top(column)
  {
    if p < |column| {
      var after := Perform(column, Remove(p)).value;
      forall i | 0 <= i < |after| ensures Gap(after, i) >= g {
        if i < p {
          assert Gap(after, i) == Gap(column, i);
        } else {
          assert Gap(column, i + 1) >= g && Gap(column, i) >= g;
        }
      }
      assert Gap(column, |column| - 1) >= g;
    }
  }

  lemma PerformCosts(column: seq<nat>, op: Op, g: nat)
    requires Spaced(column, g) && 1 <= g <= STEP && (op.Insert? ==> g >= 2)
    ensures var after := Perform(column, op);
      && after.Some? && Spaced(after.value, if op.Insert? then g / 2 else g)
      && Top(after.value) <= Top(column) + if op.Append? then STEP else 0
  {
    match op {
      case Insert(p) =>
        if p < |column| {
          InsertHalvesTheGap(column, p, g);
        } else {
          Looser(column, g, g / 2);
        }
      case Append => AppendKeepsTheGap(column, g);
      case Remove(p) => RemoveKeepsTheGap(column, p, g);
    }
  }

  lemma Looser(column: seq<nat>, g: nat, h: nat)
    requires Spaced(column, g) && h <= g
    ensures Spaced(column, h)
  {
    forall i | 0 <= i < |column| ensures Gap(column, i) >= h {
      assert Gap(column, i) >= g;
    }
  }

  /** After a rebalance of `n` tasks, up to sixteen insertions between neighbours or in front,
      with any number of appends and removals among them, all find room, and each insertion
      costs at most half of it. */
  lemma {:induction false} RoomForSixteen(n: nat, ops: seq<Op>)
    requires Inserts(ops) <= 16
    ensures var after := PerformAll(Even(n), ops);
      after.Some? && Spaced(after.value, Pow2(16 - Inserts(ops))) && Top(after.value) <= (n + Appends(ops)) * STEP
  {
    if ops == [] {
      Pow2Sixteen();
      assert forall i :: 0 <= i < n ==> Gap(Even(n), i) == STEP;
    } else {
      var init, op := ops[..|ops| - 1], ops[|ops| - 1];
      RoomForSixteen(n, init);
      Pow2Sixteen();
      Pow2Grows(16 - Inserts(init), 16);
      Pow2Grows(if op.Insert? then 1 else 0, 16 - Inserts(init));
      PerformCosts(PerformAll(Even(n), init).value, op, Pow2(16 - Inserts(init)));
    }
  }

  lemma Pow2Sixteen()
    ensures Pow2(16) == STEP
  {
    assert Pow2(4) == 16;
    assert Pow2(8) == 256;
    assert Pow2(12) == 4096;
  }

  lemma {:induction false} Pow2Grows(j: nat, k: nat)
    requires j <= k
    ensures 1 <= Pow2(j) <= Pow2(k)
    decreases k
  {
    if j < k {
      Pow2Grows(j, k - 1);
    } else if k > 0 {
      Pow2Grows(k - 1, k - 1);
    }
  }

  function Fronts(k: nat): seq<Op> {
    if k == 0 then [] else Fronts(k - 1) + [Insert(0)]
  }

  /** Sixteen is exact: always inserting in front uses the room up, and the seventeenth
      insertion needs a rebalance. */
  lemma SeventeenthNeedsRebalance()
    ensures Inserts(Fronts(17)) == 17
    ensures PerformAll(Even(1), Fronts(17)) == None
  {
    FrontRank(16);
    LastStep(Fronts(16), Insert(0));
    InsertIsMiddle(PerformAll(Even(1), Fronts(16)).value, 0);
  }

  lemma LastStep(ops: seq<Op>, op: Op)
    ensures Inserts(ops + [op]) == Inserts(ops) + if op.Insert? then 1 else 0
    ensures var earlier := PerformAll(Even(1), ops);
      PerformAll(Even(1), ops + [op]) == if earlier.None? then None else Perform(earlier.value, op)
  {
    assert (ops + [op])[..|ops|] == ops;
  }

  lemma FrontHalves(column: seq<nat>)
    requires column != [] && column[0] > 1
    ensures var after := Perform(column, Insert(0));
      after.Some? && after.value != [] && after.value[0] == column[0] / 2
  {
    InsertIsMiddle(column, 0);
  }

  lemma {:induction false} FrontRank(k: nat)
    requires k <= 16
    ensures Inserts(Fronts(k)) == k
    ensures var after := PerformAll(Even(1), Fronts(k));
      after.Some? && after.value != [] && after.value[0] == Pow2(16 - k)
  {
    if k == 0 {
      Pow2Sixteen();
    } else {
      FrontRank(k - 1);
      LastStep(Fronts(k - 1), Insert(0));
      Pow2Grows(0, 16 - k);
      FrontHalves(PerformAll(Even(1), Fronts(k - 1)).value);
    }
  }

  const MOST_TASKS: nat := 15_258_789

  /** Tasks and later appends together stay inside the text width up to `MOST_TASKS`. */
  lemma RunStaysOrdered(n: nat, ops: seq<Op>, i: nat, j: nat)
    requires Inserts(ops) <= 16 && n + Appends(ops) <= MOST_TASKS
    ensures var after := PerformAll(Even(n), ops);
      after.Some? && (i < j < |after.value| ==> TextLess(Fmt(after.value[i]), Fmt(after.value[j])))
  {
    RoomForSixteen(n, ops);
    Pow2Grows(0, 16 - Inserts(ops));
    var column := PerformAll(Even(n), ops).value;
    Looser(column, Pow2(16 - Inserts(ops)), 1);
    if i < j < |column| {
      RisingText(column, i, j);
    }
  }

  lemma RisingText(column: seq<nat>, i: nat, j: nat)
    requires Spaced(column, 1) && i < j < |column| && Top(column) < CEILING
    ensures TextLess(Fmt(column[i]), Fmt(column[j]))
  {
    Rising(column, i, j);
    if j < |column| - 1 {
      Rising(column, j, |column| - 1);
    }
    TextOrderIsNumberOrder(column[i], column[j]);
  }

  lemma {:induction false} Rising(column: seq<nat>, i: nat, j: nat)
    requires Spaced(column, 1) && i < j < |column|
    ensures column[i] < column[j]
  {
    assert Gap(column, j) >= 1;
    if i + 1 < j {
      Rising(column, i, j - 1);
    }
  }

  /** The rank a rebalance gives to the task at place `i`. */
  function Slot(i: nat): string {
    Fmt((i + 1) * STEP)
  }

  /** `MOST_TASKS` is exact: one more task in a rebalance and the last one sorts first. */
  lemma RebalanceWidthIsExact(n: nat)
    ensures (forall i: nat, j: nat :: i < j < n ==> TextLess(Slot(i), Slot(j))) <==> n <= MOST_TASKS
  {
    if n <= MOST_TASKS {
      forall i: nat, j: nat | i < j < n ensures TextLess(Slot(i), Slot(j)) {
        TextOrderIsNumberOrder((i + 1) * STEP, (j + 1) * STEP);
      }
    } else {
      var i, j := MOST_TASKS - 1, MOST_TASKS;
      OverflowSortsFirst((i + 1) * STEP, (j + 1) * STEP);
      assert i < j < n && !TextLess(Slot(i), Slot(j));
    }
  }

  /** Between two tasks of a freshly re-spaced column there is room exactly when they are in
      order; in front of the column and behind it there always is. */
  lemma RebalanceMakesRoom(i: nat, j: nat)
    ensures RankBetween(Slot(i), Slot(j)).Some? <==> i < j
    ensures RankBetween("", Slot(j)).Some? && RankBetween(Slot(i), "").Some?
  {
    ParseUndoesFmt((i + 1) * STEP);
    ParseUndoesFmt((j + 1) * STEP);
  }
}
