/** How an invoice's totals are attributed to the projects of its lines. */
module Apportion {
  import opened Rounding

  /** A project name; the empty string is no project. */
  type Project = string

  datatype Item = Item(project: Project, net: real)

  datatype Weight = Weight(project: Project, share: real)

  const NO_PROJECT: Project := ""
  const TOLERANCE: real := 0.000000000001

  // ---- Weights ----

  /** A line without a project belongs to the project of the header. */
  function ProjectOf(item: Item, header: Project): Project {
    if item.project != NO_PROJECT then item.project else header
  }

  function NetOf(items: seq<Item>, header: Project, p: Project): real {
    if items == [] then 0.0
    else
      var item := items[|items| - 1];
      NetOf(items[..|items| - 1], header, p) + if ProjectOf(item, header) == p then item.net else 0.0
  }

  /** The net of all lines that belong to some project. */
  function AttributedNet(items: seq<Item>, header: Project): real {
    if items == [] then 0.0
    else
      var item := items[|items| - 1];
      AttributedNet(items[..|items| - 1], header) + if ProjectOf(item, header) != NO_PROJECT then item.net else 0.0
  }

  predicate Distinct(q: seq<Project>) {
    forall i, j :: 0 <= i < j < |q| ==> q[i] != q[j]
  }

  function SumOf(totals: map<Project, real>, order: seq<Project>): real
    requires forall p :: p in order ==> p in totals
  {
    if order == [] then 0.0
    else SumOf(totals, order[..|order| - 1]) + totals[order[|order| - 1]]
  }

  function SumWeights(weights: seq<Weight>): real {
    if weights == [] then 0.0 else SumWeights(weights[..|weights| - 1]) + weights[|weights| - 1].share
  }

  function Projects(weights: seq<Weight>): seq<Project> {
    seq(|weights|, i requires 0 <= i < |weights| => weights[i].project)
  }

  predicate Attributed(items: seq<Item>, header: Project, p: Project) {
    p != NO_PROJECT && exists i :: 0 <= i < |items| && ProjectOf(items[i], header) == p
  }

  /** The whole to the header, or nothing when there is none. */
  function HeaderOnly(header: Project): seq<Weight> {
    if header != NO_PROJECT then [Weight(header, 1.0)] else []
  }

  lemma {:induction false} SumAfterUpdate(totals: map<Project, real>, order: seq<Project>, p: Project, x: real)
    requires Distinct(order) && (forall q :: q in order ==> q in totals) && p in totals
    ensures SumOf(totals[p := totals[p] + x], order) == SumOf(totals, order) + if p in order then x else 0.0
  {
    if order != [] {
      var init, last := order[..|order| - 1], order[|order| - 1];
      assert order == init + [last];
      SumAfterUpdate(totals, init, p, x);
    }
  }

  lemma {:induction false} SumOfShares(totals: map<Project, real>, order: seq<Project>, whole: real, weights: seq<Weight>)
    requires (forall p :: p in order ==> p in totals) && whole != 0.0 && |weights| == |order|
    requires forall i :: 0 <= i < |order| ==> weights[i].share == totals[order[i]] / whole
    ensures SumWeights(weights) == SumOf(totals, order) / whole
  {
    if order != [] {
      SumOfShares(totals, order[..|order| - 1], whole, weights[..|weights| - 1]);
    }
  }

  lemma AttributedGrows(items: seq<Item>, header: Project, k: nat)
    requires k < |items|
    ensures forall p :: Attributed(items[..k + 1], header, p) <==>
      Attributed(items[..k], header, p) || (p != NO_PROJECT && p == ProjectOf(items[k], header))
  {
    forall p ensures Attributed(items[..k + 1], header, p) <==>
      Attributed(items[..k], header, p) || (p != NO_PROJECT && p == ProjectOf(items[k], header))
    {
      if Attributed(items[..k], header, p) {
        var i :| 0 <= i < k && ProjectOf(items[..k][i], header) == p;
        assert items[..k + 1][i] == items[i];
      }
      if p != NO_PROJECT && p == ProjectOf(items[k], header) {
        assert items[..k + 1][k] == items[k];
      }
      if Attributed(items[..k + 1], header, p) {
        var i :| 0 <= i < k + 1 && ProjectOf(items[..k + 1][i], header) == p;
        assert i < k ==> items[..k][i] == items[i];
      }
    }
  }

  /** Net by project, and the projects in the order they first appear. */
  datatype Tally = Tally(totals: map<Project, real>, order: seq<Project>)

  function Add(tally: Tally, p: Project, x: real): Tally {
    if p in tally.totals then tally.(totals := tally.totals[p := tally.totals[p] + x])
    else Tally(tally.totals[p := x], tally.order + [p])
  }

  /** A line without a project, its own or the header's, is left out. */
  function AddItem(tally: Tally, item: Item, header: Project): Tally {
    var p := ProjectOf(item, header);
    if p == NO_PROJECT then tally else Add(tally, p, item.net)
  }

  ghost predicate Listed(tally: Tally) {
    Distinct(tally.order) && forall p :: p in tally.order <==> p in tally.totals
  }

  /** The tally of a list of lines. */
  ghost predicate Collected(items: seq<Item>, header: Project, tally: Tally) {
    && Listed(tally)
    && (forall p :: p in tally.totals <==> Attributed(items, header, p))
    && (forall p :: p in tally.totals ==> tally.totals[p] == NetOf(items, header, p))
    && SumOf(tally.totals, tally.order) == AttributedNet(items, header)
  }

  lemma {:induction false} NothingAttributed(items: seq<Item>, header: Project, p: Project)
    requires p != NO_PROJECT && !Attributed(items, header, p)
    ensures NetOf(items, header, p) == 0.0
  {
    if items != [] {
      assert ProjectOf(items[|items| - 1], header) != p;
      var init := items[..|items| - 1];
      assert forall i :: 0 <= i < |init| ==> init[i] == items[i];
      NothingAttributed(init, header, p);
    }
  }

  lemma AddKeepsList(tally: Tally, p: Project, x: real)
    requires Listed(tally)
    ensures Listed(Add(tally, p, x))
  {
  }

  lemma AddToOld(tally: Tally, p: Project, x: real)
    requires Listed(tally) && p in tally.totals
    ensures SumOf(Add(tally, p, x).totals, tally.order) == SumOf(tally.totals, tally.order) + x
  {
    SumAfterUpdate(tally.totals, tally.order, p, x);
  }

  lemma AddNew(tally: Tally, p: Project, x: real)
    requires Listed(tally) && p !in tally.totals
    ensures SumOf(Add(tally, p, x).totals, tally.order + [p]) == SumOf(tally.totals, tally.order) + x
  {
    SumWithNew(tally.totals, tally.order, p, x);
  }

  lemma AddKeepsSum(tally: Tally, p: Project, x: real)
    requires Listed(tally)
    ensures var after := Add(tally, p, x);
      Listed(after) && SumOf(after.totals, after.order) == SumOf(tally.totals, tally.order) + x
  {
    AddKeepsList(tally, p, x);
    if p in tally.totals {
      AddToOld(tally, p, x);
    } else {
      AddNew(tally, p, x);
    }
  }

  lemma SumWithNew(totals: map<Project, real>, order: seq<Project>, p: Project, x: real)
    requires (forall q :: q in order ==> q in totals) && p !in order
    ensures SumOf(totals[p := x], order + [p]) == SumOf(totals, order) + x
  {
    SumIgnores(totals, order, p, x);
    assert (order + [p])[..|order|] == order;
  }

  lemma {:induction false} SumIgnores(totals: map<Project, real>, order: seq<Project>, p: Project, x: real)
    requires (forall q :: q in order ==> q in totals) && p !in order
    ensures SumOf(totals[p := x], order) == SumOf(totals, order)
  {
    if order != [] {
      SumIgnores(totals, order[..|order| - 1], p, x);
    }
  }

  lemma NetGrows(items: seq<Item>, header: Project, k: nat, p: Project)
    requires k < |items|
    ensures NetOf(items[..k + 1], header, p) ==
      NetOf(items[..k], header, p) + if ProjectOf(items[k], header) == p then items[k].net else 0.0
    ensures AttributedNet(items[..k + 1], header) ==
      AttributedNet(items[..k], header) + if ProjectOf(items[k], header) != NO_PROJECT then items[k].net else 0.0
  {
    assert items[..k + 1][..k] == items[..k];
  }

  lemma AddNets(items: seq<Item>, header: Project, k: nat, totals: map<Project, real>, q: Project)
    requires k < |items| && (q in totals <==> Attributed(items[..k], header, q))
    requires q in totals ==> totals[q] == NetOf(items[..k], header, q)
    ensures var p, x := ProjectOf(items[k], header), items[k].net;
      var before := if q in totals then totals[q] else 0.0;
      q != NO_PROJECT ==> NetOf(items[..k + 1], header, q) == before + if p == q then x else 0.0
  {
    NetGrows(items, header, k, q);
    if q != NO_PROJECT && q !in totals {
      NothingAttributed(items[..k], header, q);
    }
  }

  lemma AddValues(items: seq<Item>, header: Project, k: nat, tally: Tally)
    requires k < |items| && forall q :: q in tally.totals <==> Attributed(items[..k], header, q)
    requires forall q :: q in tally.totals ==> tally.totals[q] == NetOf(items[..k], header, q)
    ensures var after := AddItem(tally, items[k], header);
      && (forall q :: q in after.totals <==> Attributed(items[..k + 1], header, q))
      && (forall q :: q in after.totals ==> after.totals[q] == NetOf(items[..k + 1], header, q))
  {
    var more, after := items[..k + 1], AddItem(tally, items[k], header);
    AttributedGrows(items, header, k);
    forall q | q in after.totals ensures after.totals[q] == NetOf(more, header, q) {
      AddNets(items, header, k, tally.totals, q);
    }
  }

  lemma AddSums(items: seq<Item>, header: Project, k: nat, tally: Tally)
    requires k < |items| && Listed(tally)
    requires SumOf(tally.totals, tally.order) == AttributedNet(items[..k], header)
    ensures var after := AddItem(tally, items[k], header);
      Listed(after) && SumOf(after.totals, after.order) == AttributedNet(items[..k + 1], header)
  {
    var p := ProjectOf(items[k], header);
    NetGrows(items, header, k, p);
    if p != NO_PROJECT {
      AddKeepsSum(tally, p, items[k].net);
    }
  }

  lemma AddCollects(items: seq<Item>, header: Project, k: nat, tally: Tally)
    requires k < |items| && Collected(items[..k], header, tally)
    ensures Collected(items[..k + 1], header, AddItem(tally, items[k], header))
  {
    AddValues(items, header, k, tally);
    AddSums(items, header, k, tally);
  }

  method CollectTotals(items: seq<Item>, header: Project) returns (tally: Tally)
    ensures Collected(items, header, tally)
  {
    tally := Tally(map[], []);
    for k := 0 to |items|
      invariant Collected(items[..k], header, tally)
    {
      AddCollects(items, header, k, tally);
      tally := AddItem(tally, items[k], header);
    }
    assert items[..|items|] == items;
  }

  function Shares(tally: Tally, whole: real): seq<Weight>
    requires whole != 0.0 && forall p :: p in tally.order ==> p in tally.totals
  {
    seq(|tally.order|, i requires 0 <= i < |tally.order| => Weight(tally.order[i], tally.totals[tally.order[i]] / whole))
  }

  lemma HeaderTakesAll(header: Project)
    ensures var weights := HeaderOnly(header);
      Distinct(Projects(weights)) && (weights != [] ==> SumWeights(weights) == 1.0)
  {
    assert HeaderOnly(header) != [] ==> HeaderOnly(header)[..0] == [];
  }

  lemma SharesAreWhole(tally: Tally)
    requires Listed(tally) && SumOf(tally.totals, tally.order) != 0.0
    ensures SumWeights(Shares(tally, SumOf(tally.totals, tally.order))) == 1.0
  {
    var whole := SumOf(tally.totals, tally.order);
    SumOfShares(tally.totals, tally.order, whole, Shares(tally, whole));
    OverItself(whole);
  }

  lemma OverItself(x: real)
    requires x != 0.0
    ensures x / x == 1.0
  {
  }

  /** The net of the lines of project `p`, its own and, if it is the header's, those without one. */
  function NetOfProject(items: seq<Item>, header: Project, p: Project): real {
    if items == [] then 0.0
    else
      (if items[0].project == p || (items[0].project == "" && header == p) then items[0].net else 0.0)
      + NetOfProject(items[1..], header, p)
  }

  /** The net of the lines that have a project or take the header's. */
  function NetTotal(items: seq<Item>, header: Project): real {
    if items == [] then 0.0
    else (if items[0].project == "" && header == "" then 0.0 else items[0].net) + NetTotal(items[1..], header)
  }

  lemma {:induction false} NetOneMore(items: seq<Item>, header: Project, item: Item, p: Project)
    requires p != ""
    ensures NetOfProject(items + [item], header, p) ==
      NetOfProject(items, header, p) + if ProjectOf(item, header) == p then item.net else 0.0
    ensures NetTotal(items + [item], header) ==
      NetTotal(items, header) + if ProjectOf(item, header) != NO_PROJECT then item.net else 0.0
  {
    if items == [] {
      assert (items + [item])[1..] == [];
    } else {
      assert (items + [item])[1..] == items[1..] + [item];
      NetOneMore(items[1..], header, item, p);
    }
  }

  lemma {:induction false} NetAgrees(items: seq<Item>, header: Project, p: Project)
    requires p != ""
    ensures NetOf(items, header, p) == NetOfProject(items, header, p) && AttributedNet(items, header) == NetTotal(items, header)
  {
    if items != [] {
      var n := |items| - 1;
      NetAgrees(items[..n], header, p);
      assert items == items[..n] + [items[n]];
      NetOneMore(items[..n], header, items[n], p);
    }
  }

  lemma NetsAgree(items: seq<Item>, header: Project)
    ensures AttributedNet(items, header) == NetTotal(items, header)
  {
    NetAgrees(items, header, "p");
  }

  /** A project has a line when one names it, or none and it is the header's. */
  lemma AttributedMeans(items: seq<Item>, header: Project, p: Project)
    ensures Attributed(items, header, p) <==>
      p != "" && exists i :: 0 <= i < |items| && (items[i].project == p || (items[i].project == "" && header == p))
  {
    if i :| 0 <= i < |items| && (items[i].project == p || (items[i].project == "" && header == p)) {
      assert p != "" ==> ProjectOf(items[i], header) == p;
    }
  }

  lemma SharesAreExact(items: seq<Item>, header: Project, tally: Tally, whole: real)
    requires Collected(items, header, tally) && whole != 0.0
    ensures var weights := Shares(tally, whole);
      && Projects(weights) == tally.order
      && (forall w :: w in weights ==> w.share == NetOfProject(items, header, w.project) / whole)
  {
    var weights := Shares(tally, whole);
    assert Projects(weights) == tally.order;
    forall i | 0 <= i < |weights| ensures weights[i].share == NetOfProject(items, header, weights[i].project) / whole {
      assert tally.order[i] in tally.totals;
      NetAgrees(items, header, tally.order[i]);
    }
  }

  /** Distinct projects, shares of the attributed net that add up to one, or the header alone
      when no project has a line or the net is zero. */
  method SalesInvoiceProjectWeights(items: seq<Item>, header: Project) returns (weights: seq<Weight>)
    ensures Distinct(Projects(weights))
    ensures weights != [] ==> SumWeights(weights) == 1.0
    ensures var whole := NetTotal(items, header);
      if -0.000000000001 <= whole <= 0.000000000001 then weights == if header == "" then [] else [Weight(header, 1.0)]
      else
        && (forall p :: p in Projects(weights) <==> Attributed(items, header, p))
        && (forall w :: w in weights ==> w.share == NetOfProject(items, header, w.project) / whole)
  {
    HeaderTakesAll(header);
    NetsAgree(items, header);
    hide NetOfProject, NetTotal, Attributed, Distinct;
    var tally := CollectTotals(items, header);
    if tally.order == [] {
      return HeaderOnly(header);
    }
    var denominator := SumOf(tally.totals, tally.order);
    if Abs(denominator) <= TOLERANCE {
      return HeaderOnly(header);
    }
    SharesAreWhole(tally);
    SharesAreExact(items, header, tally, denominator);
    weights := Shares(tally, denominator);
  }

  // ---- Apportioning ----

  function Sum(q: seq<real>): real {
    if q == [] then 0.0 else Sum(q[..|q| - 1]) + q[|q| - 1]
  }

  /** The exact part of a project, and what it becomes when rounded. */
  function Exact(total: real, w: Weight): real {
    total * w.share
  }

  function Part(total: real, w: Weight): real {
    Round2(Exact(total, w))
  }

  /** Every project but the last takes its rounded part, and together they take the total. */
  ghost predicate AreShares(total: real, weights: seq<Weight>, shares: seq<real>) {
    && |shares| == |weights|
    && (forall i :: 0 <= i < |weights| - 1 ==> shares[i] == Part(total, weights[i]))
    && (shares != [] ==> Sum(shares) == total)
  }

  /** A project named twice keeps what was written last. */
  predicate LastNamed(weights: seq<Weight>, i: nat)
    requires i < |weights|
  {
    forall j :: i < j < |weights| ==> weights[j].project != weights[i].project
  }

  ghost predicate Written(amounts: map<Project, real>, weights: seq<Weight>, shares: seq<real>)
    requires |shares| == |weights|
  {
    && (forall p :: p in amounts <==> p in Projects(weights))
    && (forall i :: 0 <= i < |weights| && LastNamed(weights, i) ==>
          weights[i].project in amounts && amounts[weights[i].project] == shares[i])
  }

  /** What holds after `k` projects, with `remaining` still to hand out. */
  ghost predicate SoFar(total: real, weights: seq<Weight>, shares: seq<real>, remaining: real, k: nat) {
    && |shares| == k <= |weights| && Cents(remaining)
    && (forall i :: 0 <= i < k && i < |weights| - 1 ==> shares[i] == Part(total, weights[i]))
    && Sum(shares) == if 0 < k == |weights| then total else total - remaining
  }

  /** `amounts` holds, project by project, shares that together take the total. */
  ghost predicate Allocates(amounts: map<Project, real>, total: real, weights: seq<Weight>) {
    exists shares :: AreShares(total, weights, shares) && Written(amounts, weights, shares)
  }

  method Apportion(amount: real, weights: seq<Weight>) returns (amounts: map<Project, real>)
    ensures Allocates(amounts, Round2(amount), weights)
  {
    var total := Round2(amount);
    RoundsToNearest(amount);
    amounts := map[];
    ghost var shares: seq<real> := [];
    var remaining := total;
    for idx := 0 to |weights|
      invariant SoFar(total, weights, shares, remaining, idx)
      invariant Written(amounts, weights[..idx], shares)
    {
      NextShare(total, weights, shares, remaining, idx);
      var value: real;
      if idx == |weights| - 1 {
        value := remaining;
      } else {
        value := Part(total, weights[idx]);
        remaining := Round2(remaining - value);
      }
      Write(amounts, weights, idx, shares, value);
      amounts := amounts[weights[idx].project := value];
      shares := shares + [value];
    }
    assert weights[..|weights|] == weights;
    assert AreShares(total, weights, shares) && Written(amounts, weights, shares);
  }

  lemma NextShare(total: real, weights: seq<Weight>, shares: seq<real>, remaining: real, k: nat)
    requires SoFar(total, weights, shares, remaining, k) && k < |weights|
    ensures k == |weights| - 1 ==> SoFar(total, weights, shares + [remaining], remaining, k + 1)
    ensures var value := Part(total, weights[k]);
      k < |weights| - 1 ==> SoFar(total, weights, shares + [value], Round2(remaining - value), k + 1)
  {
    assert (shares + [remaining])[..k] == shares;
    var value := Part(total, weights[k]);
    assert (shares + [value])[..k] == shares;
    Subtract(remaining, Exact(total, weights[k]));
  }

  lemma Subtract(x: real, y: real)
    requires Cents(x)
    ensures Cents(x - Round2(y)) && Round2(x - Round2(y)) == x - Round2(y)
  {
    RoundsToNearest(y);
    var a, b := (x * 100.0).Floor, (Round2(y) * 100.0).Floor;
    assert (x - Round2(y)) * 100.0 == (a - b) as real;
    CentsStay(x - Round2(y));
  }

  lemma Write(amounts: map<Project, real>, weights: seq<Weight>, k: nat, shares: seq<real>, value: real)
    requires k < |weights| && |shares| == k && Written(amounts, weights[..k], shares)
    ensures Written(amounts[weights[k].project := value], weights[..k + 1], shares + [value])
  {
    var less, more := weights[..k], weights[..k + 1];
    assert Projects(more) == Projects(less) + [weights[k].project];
    assert more == less + [weights[k]];
    forall i | 0 <= i < k && LastNamed(more, i) ensures LastNamed(less, i) && weights[k].project != less[i].project {
      assert more[k].project != more[i].project;
      assert forall j :: i < j < k ==> more[j].project == less[j].project;
    }
  }

  lemma DistinctIsLast(weights: seq<Weight>, i: nat)
    requires Distinct(Projects(weights)) && i < |weights|
    ensures LastNamed(weights, i)
  {
    forall j | i < j < |weights| ensures weights[j].project != weights[i].project {
      assert Projects(weights)[j] != Projects(weights)[i];
    }
  }

  /** What the allocation hands out, project by project. */
  function Handed(amounts: map<Project, real>, weights: seq<Weight>): seq<real>
    requires forall w :: w in weights ==> w.project in amounts
  {
    seq(|weights|, i requires 0 <= i < |weights| => amounts[weights[i].project])
  }

  /** The amounts of distinct projects are the shares themselves. */
  lemma AmountsAreShares(amounts: map<Project, real>, total: real, weights: seq<Weight>) returns (shares: seq<real>)
    requires Allocates(amounts, total, weights) && Distinct(Projects(weights))
    ensures AreShares(total, weights, shares)
    ensures forall i :: 0 <= i < |weights| ==> weights[i].project in amounts && amounts[weights[i].project] == shares[i]
  {
    shares :| AreShares(total, weights, shares) && Written(amounts, weights, shares);
    forall i | 0 <= i < |weights| ensures weights[i].project in amounts && amounts[weights[i].project] == shares[i] {
      DistinctIsLast(weights, i);
    }
  }

  /** Nothing is lost: the amounts of distinct projects add up to the total. */
  lemma ApportionConserves(amounts: map<Project, real>, total: real, weights: seq<Weight>)
    requires Allocates(amounts, total, weights) && Distinct(Projects(weights)) && weights != []
    ensures (forall w :: w in weights ==> w.project in amounts) && Sum(Handed(amounts, weights)) == total
  {
    var shares := AmountsAreShares(amounts, total, weights);
    assert Handed(amounts, weights) == shares;
  }

  lemma PartIsClose(total: real, w: Weight)
    ensures Abs(Part(total, w) - Exact(total, w)) <= 0.005
  {
    RoundsToNearest(Exact(total, w));
  }

  function ExactSum(total: real, weights: seq<Weight>): real {
    if weights == [] then 0.0 else ExactSum(total, weights[..|weights| - 1]) + Exact(total, weights[|weights| - 1])
  }

  lemma {:induction false} ExactParts(total: real, weights: seq<Weight>)
    ensures ExactSum(total, weights) == total * SumWeights(weights)
  {
    if weights != [] {
      var init, w := weights[..|weights| - 1], weights[|weights| - 1];
      ExactParts(total, init);
      Distribute(total, SumWeights(init), w.share);
    }
  }

  lemma Distribute(x: real, y: real, z: real)
    ensures x * (y + z) == x * y + x * z
  {
  }

  lemma {:induction false} PartsAreClose(total: real, weights: seq<Weight>, shares: seq<real>)
    requires |shares| == |weights| && forall i :: 0 <= i < |weights| ==> shares[i] == Part(total, weights[i])
    ensures Abs(Sum(shares) - ExactSum(total, weights)) <= 0.005 * |weights| as real
  {
    if weights != [] {
      var last := |weights| - 1;
      PartsAreClose(total, weights[..last], shares[..last]);
      PartIsClose(total, weights[last]);
    }
  }

  lemma ExactAddsUp(total: real, weights: seq<Weight>)
    requires SumWeights(weights) == 1.0
    ensures ExactSum(total, weights) == total
  {
    ExactParts(total, weights);
  }

  lemma Leftover(total: real, taken: real, exact: real, share: real, part: real, gap: real)
    requires taken + share == total && exact + part == total && Abs(taken - exact) <= gap
    ensures Abs(share - part) <= gap
  {
  }

  lemma ShareIsClose(total: real, weights: seq<Weight>, shares: seq<real>, i: nat)
    requires AreShares(total, weights, shares) && i < |weights|
    requires SumWeights(weights) == 1.0
    ensures var n := |weights|;
      Abs(shares[i] - Exact(total, weights[i])) <= if i < n - 1 then 0.005 else 0.005 * (n - 1) as real
  {
    if i < |weights| - 1 {
      PartIsClose(total, weights[i]);
    } else {
      LastIsClose(total, weights, shares);
    }
  }

  /** With shares that add up to one, negative ones included, every project but the last is
      within half a cent of its exact part, and the last within half a cent for each other. */
  lemma ApportionIsClose(amounts: map<Project, real>, total: real, weights: seq<Weight>, i: nat)
    requires Allocates(amounts, total, weights) && Distinct(Projects(weights)) && i < |weights|
    requires SumWeights(weights) == 1.0
    ensures weights[i].project in amounts
    ensures var n := |weights|;
      Abs(amounts[weights[i].project] - total * weights[i].share) <= if i < n - 1 then 0.005 else 0.005 * (n - 1) as real
  {
    var shares := AmountsAreShares(amounts, total, weights);
    ShareIsClose(total, weights, shares, i);
  }

  lemma LastIsClose(total: real, weights: seq<Weight>, shares: seq<real>)
    requires AreShares(total, weights, shares) && weights != []
    requires SumWeights(weights) == 1.0
    ensures var last := |weights| - 1; Abs(shares[last] - Exact(total, weights[last])) <= 0.005 * last as real
  {
    var last := |weights| - 1;
    PartsAreClose(total, weights[..last], shares[..last]);
    ExactAddsUp(total, weights);
    Leftover(total, Sum(shares[..last]), ExactSum(total, weights[..last]), shares[last], Exact(total, weights[last]),
      0.005 * last as real);
  }
}
