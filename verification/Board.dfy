/** One board column: its order, its re-spacing, and the drop of a card. */
module Board {
  import opened Basics
  import opened Rank
  import opened TaskForest

  type Ranks = map<TaskId, string>

  datatype Refusal = Blocked | Busy

  /** The board order: rank as text, then age. */
  predicate Before(ranks: Ranks, created: map<TaskId, int>, a: TaskId, b: TaskId)
    requires a in ranks && b in ranks && a in created && b in created
  {
    TextLess(ranks[a], ranks[b]) || (ranks[a] == ranks[b] && created[a] < created[b])
  }

  /** Every task asked about has a row. */
  predicate Known(ranks: Ranks, created: map<TaskId, int>, tasks: set<TaskId>) {
    forall t :: t in tasks ==> t in ranks && t in created
  }

  predicate Ordered(ranks: Ranks, created: map<TaskId, int>, names: seq<TaskId>) {
    && (forall i :: 0 <= i < |names| ==> names[i] in ranks && names[i] in created)
    && (forall i, j :: 0 <= i < j < |names| ==> !Before(ranks, created, names[j], names[i]))
  }

  lemma {:induction false} TextTransitive(r: string, s: string, t: string)
    requires TextLess(r, s) && TextLess(s, t)
    ensures TextLess(r, t)
    decreases |r|
  {
    if r != "" && r[0] == s[0] == t[0] {
      TextTransitive(r[1..], s[1..], t[1..]);
    }
  }

  lemma BeforeTransitive(ranks: Ranks, created: map<TaskId, int>, a: TaskId, b: TaskId, c: TaskId)
    requires Known(ranks, created, {a, b, c})
    requires Before(ranks, created, a, b) && Before(ranks, created, b, c)
    ensures Before(ranks, created, a, c)
  {
    if TextLess(ranks[a], ranks[b]) && TextLess(ranks[b], ranks[c]) {
      TextTransitive(ranks[a], ranks[b], ranks[c]);
    }
  }

  function InsertTask(ranks: Ranks, created: map<TaskId, int>, names: seq<TaskId>, x: TaskId): seq<TaskId>
    requires Ordered(ranks, created, names) && x in ranks && x in created
  {
    if names == [] || Before(ranks, created, x, names[0]) then [x] + names
    else [names[0]] + InsertTask(ranks, created, names[1..], x)
  }

  lemma {:induction false} InsertTaskOrders(ranks: Ranks, created: map<TaskId, int>, names: seq<TaskId>, x: TaskId)
    requires Ordered(ranks, created, names) && x in ranks && x in created && x !in names
    requires forall i, j :: 0 <= i < j < |names| ==> names[i] != names[j]
    ensures var r := InsertTask(ranks, created, names, x);
      && Ordered(ranks, created, r)
      && (forall y :: y in r <==> y == x || y in names)
      && (forall i, j :: 0 <= i < j < |r| ==> r[i] != r[j])
  {
    var r := InsertTask(ranks, created, names, x);
    if names == [] {
    } else if Before(ranks, created, x, names[0]) {
      forall j | 0 <= j < |names| ensures !Before(ranks, created, names[j], x) {
        if Before(ranks, created, names[j], x) {
          BeforeTransitive(ranks, created, names[j], x, names[0]);
          TextIrreflexive(ranks[names[0]]);
        }
      }
    } else {
      InsertTaskOrders(ranks, created, names[1..], x);
      var rest := InsertTask(ranks, created, names[1..], x);
      forall j | 0 <= j < |rest| ensures !Before(ranks, created, rest[j], names[0]) && rest[j] != names[0] {
        assert rest[j] in rest;
        if rest[j] != x {
          var k :| 0 <= k < |names[1..]| && names[1..][k] == rest[j];
          assert names[k + 1] == rest[j];
        }
      }
    }
  }

  lemma {:induction false} TextIrreflexive(s: string)
    ensures !TextLess(s, s)
  {
    if s != "" {
      TextIrreflexive(s[1..]);
    }
  }

  /** The ranks after the listed tasks were re-spaced. */
  function Respaced(ranks: Ranks, names: seq<TaskId>): Ranks {
    map t | t in ranks :: if t in names then Slot(PlaceOf(names, t)) else ranks[t]
  }

  function PlaceOf(names: seq<TaskId>, t: TaskId): (i: nat)
    requires t in names
    ensures i < |names| && names[i] == t
  {
    if names[0] == t then 0 else 1 + PlaceOf(names[1..], t)
  }

  function RankOf(ranks: Ranks, t: TaskId): string {
    if t in ranks then ranks[t] else ""
  }

  class ColumnTable {
    /** The ranks of all tasks, and the tasks of the column; an unset rank is empty. */
    var ranks: Ranks
    var column: set<TaskId>
    const created: map<TaskId, int>

    ghost predicate Valid()
      reads this
    {
      Known(ranks, created, column) && NO_TASK !in ranks
    }

    /** The column as the board lists it. */
    method Listing() returns (names: seq<TaskId>)
      requires Valid()
      ensures Lists(names, column) && Ordered(ranks, created, names)
      ensures forall i, j :: 0 <= i < j < |names| ==>
        TextLess(ranks[names[i]], ranks[names[j]])
        || (ranks[names[i]] == ranks[names[j]] && created[names[i]] <= created[names[j]])
    {
      names := [];
      var rest := column;
      while rest != {}
        invariant rest <= column && Lists(names, column - rest) && Ordered(ranks, created, names)
        decreases rest
      {
        var x :| x in rest;
        InsertTaskOrders(ranks, created, names, x);
        names := InsertTask(ranks, created, names, x);
        rest := rest - {x};
      }
      assert column - rest == column;
      forall i, j | 0 <= i < j < |names|
        ensures TextLess(ranks[names[i]], ranks[names[j]])
          || (ranks[names[i]] == ranks[names[j]] && created[names[i]] <= created[names[j]])
      {
        assert !Before(ranks, created, names[j], names[i]);
        if !TextLess(ranks[names[i]], ranks[names[j]]) {
          TextTotal(ranks[names[i]], ranks[names[j]]);
        }
      }
    }

    /** Every task of the column gets the slot of its place in the listing; no other rank moves. */
    method RebalanceColumn() returns (ghost names: seq<TaskId>)
      requires Valid()
      modifies this`ranks
      ensures Valid() && Lists(names, column) && Ordered(old(ranks), created, names)
      ensures ranks == Respaced(old(ranks), names)
    {
      hide Fmt, Ordered;
      var listed := Listing();
      names := listed;
      for i := 0 to |listed|
        invariant ranks.Keys == old(ranks).Keys
        invariant forall j :: 0 <= j < i ==> ranks[listed[j]] == Slot(j)
        invariant forall t :: t in ranks && t !in listed[..i] ==> ranks[t] == old(ranks)[t]
      {
        ranks := ranks[listed[i] := Fmt((i + 1) * STEP)];
        assert listed[..i + 1] == listed[..i] + [listed[i]];
      }
      assert listed[..|listed|] == listed;
      forall t | t in ranks ensures ranks[t] == Respaced(old(ranks), names)[t] {
        if t in names {
          assert names[PlaceOf(names, t)] == t;
        }
      }
    }

    /** A rank behind the whole column. */
    method EndRank() returns (r: string)
      requires Valid()
      ensures IsEndRank(ranks, column, r)
    {
      var names := Listing();
      if names == [] {
        return Fmt(STEP);
      }
      var t := names[|names| - 1];
      assert t in column;
      TextIrreflexive(ranks[t]);
      forall u | u in column ensures !TextLess(ranks[t], ranks[u]) {
        assert u in names;
        var i :| 0 <= i < |names| && names[i] == u;
        assert i < |names| - 1 ==> !Before(ranks, created, names[|names| - 1], names[i]);
      }
      var last := RankBetween(ranks[t], "");
      r := if ranks[t] == "" then Fmt(STEP) else last.value;
    }

    method PlaceAfterRebalance(above: TaskId, below: TaskId) returns (placed: string, ghost names: seq<TaskId>)
      requires Valid()
      modifies this`ranks
      ensures Valid() && Lists(names, column) && Ordered(old(ranks), created, names)
      ensures ranks == Respaced(old(ranks), names) && IsPlace(ranks, column, above, below, placed)
    {
      names := RebalanceColumn();
      var again := RankBetween(RankOf(ranks, above), RankOf(ranks, below));
      if again.Some? {
        placed := again.value;
      } else {
        placed := EndRank();
      }
    }

    /** Drop a card between two anchors, re-spacing the column once when there is no room.
        `blocked` says that unfinished blockers forbid the new status, `busy` that the lock of
        the column was not granted in time; either refuses the move and changes nothing. */
    method MoveTask(issue: TaskId, prev: TaskId, next: TaskId, blocked: bool, busy: bool)
      returns (r: Result<string, Refusal>, ghost names: seq<TaskId>)
      requires Valid() && issue in ranks && issue in created
      modifies this
      ensures Valid()
      ensures r.Raised? <==> blocked || busy
      ensures r.Raised? ==> r.error == if blocked then Blocked else Busy
      ensures r.Raised? ==> ranks == old(ranks) && column == old(column)
      ensures r.Ok? ==> column == old(column) + {issue}
      ensures r.Ok? ==>
        var first := RankBetween(if prev == issue || prev !in old(ranks) then "" else old(ranks)[prev],
          if next == issue || next !in old(ranks) then "" else old(ranks)[next]);
        if first.Some? then r.value == first.value && ranks == old(ranks)[issue := r.value]
        else
          && Lists(names, old(column)) && Ordered(old(ranks), created, names)
          && ranks == Respaced(old(ranks), names)[issue := r.value]
          && IsPlace(Respaced(old(ranks), names), old(column), Anchor(issue, prev), Anchor(issue, next), r.value)
    {
      names := [];
      if blocked {
        return Raised(Blocked), [];
      }
      if busy {
        return Raised(Busy), [];
      }
      var placed: string;
      var above, below := Anchor(issue, prev), Anchor(issue, next);
      var first := RankBetween(RankOf(ranks, above), RankOf(ranks, below));
      if first.Some? {
        placed := first.value;
      } else {
        placed, names := PlaceAfterRebalance(above, below);
      }
      ranks := ranks[issue := placed];
      column := column + {issue};
      r := Ok(placed);
    }
  }

  /** A card is never anchored to itself. */
  function Anchor(issue: TaskId, t: TaskId): TaskId {
    if t == issue then NO_TASK else t
  }

  /** `r` is one step behind the greatest rank of the column, or the first slot. */
  ghost predicate IsEndRank(ranks: Ranks, column: set<TaskId>, r: string)
    requires forall t :: t in column ==> t in ranks
  {
    if column == {} then r == Slot(0)
    else exists t :: t in column && Greatest(ranks, column, t) && r == Behind(ranks[t])
  }

  function Behind(last: string): string {
    if last == "" then Slot(0) else Fmt(Parse(last) + STEP)
  }

  ghost predicate Greatest(ranks: Ranks, column: set<TaskId>, t: TaskId)
    requires t in ranks && forall u :: u in column ==> u in ranks
  {
    forall u :: u in column ==> !TextLess(ranks[t], ranks[u])
  }

  /** In numbers: the end of a column is 65536 behind its greatest rank, an unset one counting as
      zero, and so is the first rank of an empty column. */
  lemma EndRankMeans(ranks: Ranks, column: set<TaskId>, r: string)
    requires (forall t :: t in column ==> t in ranks) && IsEndRank(ranks, column, r)
    ensures if column == {} then Parse(r) == 65536
            else exists t :: t in column && Greatest(ranks, column, t) && Parse(r) == Parse(ranks[t]) + 65536
  {
    ParseUndoesFmt(65536);
    if column != {} {
      var t :| t in column && Greatest(ranks, column, t) && r == Behind(ranks[t]);
      ParseUndoesFmt(Parse(ranks[t]) + STEP);
    }
  }

  /** After a rebalance: a rank between the anchors, or the end of the column. */
  ghost predicate IsPlace(ranks: Ranks, column: set<TaskId>, above: TaskId, below: TaskId, placed: string)
    requires forall t :: t in column ==> t in ranks
  {
    var again := RankBetween(RankOf(ranks, above), RankOf(ranks, below));
    if again.Some? then placed == again.value else IsEndRank(ranks, column, placed)
  }

  /** Dropped between two tasks of the column in their order, a card that needed a rebalance
      ends strictly between them; the end of the column is used only for anchors out of order. */
  lemma DropAfterRebalanceIsBetween(ranks: Ranks, created: map<TaskId, int>, names: seq<TaskId>, i: nat, j: nat)
    requires Ordered(ranks, created, names) && i < |names| && j < |names|
    requires forall a, b :: 0 <= a < b < |names| ==> names[a] != names[b]
    ensures var after := Respaced(ranks, names);
      var r := RankBetween(RankOf(after, names[i]), RankOf(after, names[j]));
      && (r.Some? <==> i < j)
      && (r.Some? ==> Parse(RankOf(after, names[i])) < Parse(r.value) < Parse(RankOf(after, names[j])))
  {
    var after := Respaced(ranks, names);
    assert PlaceOf(names, names[i]) == i && PlaceOf(names, names[j]) == j;
    assert after[names[i]] == Slot(i) && after[names[j]] == Slot(j);
    RebalanceMakesRoom(i, j);
    ParseUndoesFmt((i + 1) * STEP);
    ParseUndoesFmt((j + 1) * STEP);
    BetweenIsExact(Slot(i), Slot(j));
  }

  /** Re-spacing up to `MOST_TASKS` tasks keeps the order of the board and leaves no ties. */
  lemma RebalanceKeepsOrder(ranks: Ranks, created: map<TaskId, int>, names: seq<TaskId>, i: nat, j: nat)
    requires Ordered(ranks, created, names) && i < j < |names| <= MOST_TASKS
    requires forall a, b :: 0 <= a < b < |names| ==> names[a] != names[b]
    ensures TextLess(Respaced(ranks, names)[names[i]], Respaced(ranks, names)[names[j]])
  {
    assert PlaceOf(names, names[i]) == i && PlaceOf(names, names[j]) == j;
    TextOrderIsNumberOrder((i + 1) * STEP, (j + 1) * STEP);
  }
}
