/** The summary one hour bucket shows: nutrient totals, the carbohydrate
    progress bar and status colour, the check and warning icons, the
    sodium/potassium indicators and the items grouped by id. */
module HourlyBucket {
  import opened Types
  import opened Seqs

  // ---------------------------------------------------------------------
  // Totals. Absent sodium or potassium counts as 0.

  function Carbs(item: FuelItem): nat { item.carbs }
  function SodiumOrZero(item: FuelItem): nat { item.sodium.GetOr(0) }
  function PotassiumOrZero(item: FuelItem): nat { item.potassium.GetOr(0) }

  function TotalCarbs(items: seq<FuelItem>): nat { Sum(items, Carbs) }
  function TotalSodium(items: seq<FuelItem>): nat { Sum(items, SodiumOrZero) }
  function TotalPotassium(items: seq<FuelItem>): nat { Sum(items, PotassiumOrZero) }

  /** Totals are additive over concatenation. */
  lemma TotalsAppend(a: seq<FuelItem>, b: seq<FuelItem>)
    ensures TotalCarbs(a + b) == TotalCarbs(a) + TotalCarbs(b)
    ensures TotalSodium(a + b) == TotalSodium(a) + TotalSodium(b)
    ensures TotalPotassium(a + b) == TotalPotassium(a) + TotalPotassium(b)
  {
    SumAppend(a, b, Carbs);
    SumAppend(a, b, SodiumOrZero);
    SumAppend(a, b, PotassiumOrZero);
  }

  /** Totals depend only on which items are in the hour, not on their order. */
  lemma TotalsOrderIndependent(a: seq<FuelItem>, b: seq<FuelItem>)
    requires multiset(a) == multiset(b)
    ensures TotalCarbs(a) == TotalCarbs(b)
    ensures TotalSodium(a) == TotalSodium(b)
    ensures TotalPotassium(a) == TotalPotassium(b)
  {
    SumPermutation(a, b, Carbs);
    SumPermutation(a, b, SodiumOrZero);
    SumPermutation(a, b, PotassiumOrZero);
  }

  /** Adding one item raises each total by exactly that item's amount. */
  lemma TotalsAddOne(items: seq<FuelItem>, x: FuelItem)
    ensures TotalCarbs(items + [x]) == TotalCarbs(items) + x.carbs
    ensures TotalSodium(items + [x]) == TotalSodium(items) + x.sodium.GetOr(0)
    ensures TotalPotassium(items + [x]) == TotalPotassium(items) + x.potassium.GetOr(0)
  {
    TotalsAppend(items, [x]);
    SumSingle(x, Carbs);
    SumSingle(x, SodiumOrZero);
    SumSingle(x, PotassiumOrZero);
  }

  // ---------------------------------------------------------------------
  // Progress bar: the carbohydrate percentage of target, capped at 120.

  /** `Math.min(total / target * 100, 120)`. With a zero target JavaScript
      divides to Infinity (capped to 120) when the total is positive and to
      NaN (None here) when it is 0. */
  function Percentage(totalCarbs: nat, targetCarbs: nat): (p: Option<real>)
    ensures p.Some? ==> 0.0 <= p.value <= 120.0
    ensures p == None <==> totalCarbs == 0 && targetCarbs == 0
    ensures targetCarbs == 0 && totalCarbs > 0 ==> p == Some(120.0)
    ensures targetCarbs > 0 && 100 * totalCarbs >= 120 * targetCarbs ==> p == Some(120.0)
    ensures targetCarbs > 0 && 100 * totalCarbs < 120 * targetCarbs ==>
      p.Some? && p.value * targetCarbs as real == 100.0 * totalCarbs as real
  {
    if targetCarbs == 0 then
      (if totalCarbs == 0 then None else Some(120.0))
    else
      var ratio := totalCarbs as real / targetCarbs as real * 100.0;
      RatioScale(totalCarbs, targetCarbs);
      Some(if ratio < 120.0 then ratio else 120.0)
  }

  lemma RatioScale(total: nat, target: nat)
    requires target > 0
    ensures total as real / target as real * 100.0 * target as real == 100.0 * total as real
    ensures total as real / target as real * 100.0 < 120.0 <==> 100 * total < 120 * target
  {
    var t := target as real;
    var q := total as real / t;
    DivCancels(total as real, t);
    assert q * 100.0 * t == q * t * 100.0;
    ScaleBothSides(q * 100.0, 120.0, t);
  }

  lemma DivCancels(a: real, b: real)
    requires b > 0.0
    ensures a / b * b == a
  {
  }

  lemma ScaleBothSides(a: real, b: real, c: real)
    requires c > 0.0
    ensures a < b <==> a * c < b * c
  {
    if a < b {
      assert (b - a) * c > 0.0;
    } else {
      assert (a - b) * c >= 0.0;
    }
  }

  // ---------------------------------------------------------------------
  // Carbohydrate status. The thresholds 0.8 x target and 1.1 x target are
  // compared exactly, scaled by 10.

  /** `total < target * 0.8` */
  predicate BelowBand(total: nat, target: nat) { 10 * total < 8 * target }
  /** `total > target * 1.1` */
  predicate AboveBand(total: nat, target: nat) { 10 * total > 11 * target }

  /** The status colour of an hour: grey, yellow, emerald or orange. */
  datatype CarbStatus = Empty | Under | OnTarget | Over

  function Status(totalCarbs: nat, targetCarbs: nat): (s: CarbStatus)
    ensures s == Empty <==> totalCarbs == 0
    ensures s == Under <==> 0 < totalCarbs && 10 * totalCarbs < 8 * targetCarbs
    ensures s == OnTarget <==> 0 < totalCarbs && 8 * targetCarbs <= 10 * totalCarbs <= 11 * targetCarbs
    ensures s == Over <==> 0 < totalCarbs && 10 * totalCarbs > 11 * targetCarbs
  {
    if totalCarbs == 0 then Empty
    else if BelowBand(totalCarbs, targetCarbs) then Under
    else if AboveBand(totalCarbs, targetCarbs) then Over
    else OnTarget
  }

  /** The check icon: `0.9 x target <= total <= 1.1 x target`. */
  predicate ShowCheckIcon(totalCarbs: nat, targetCarbs: nat)
  {
    9 * targetCarbs <= 10 * totalCarbs && 10 * totalCarbs <= 11 * targetCarbs
  }

  /** The warning icon: `total > 1.1 x target`. */
  predicate ShowWarningIcon(totalCarbs: nat, targetCarbs: nat)
  {
    AboveBand(totalCarbs, targetCarbs)
  }

  /** The icons are never shown together; the warning icon is exactly the
      "over" status; the check band lies inside the on-target band and is
      strictly narrower than it. */
  lemma IconBands(totalCarbs: nat, targetCarbs: nat)
    ensures !(ShowCheckIcon(totalCarbs, targetCarbs) && ShowWarningIcon(totalCarbs, targetCarbs))
    ensures ShowWarningIcon(totalCarbs, targetCarbs) <==> Status(totalCarbs, targetCarbs) == Over
    ensures 0 < totalCarbs && ShowCheckIcon(totalCarbs, targetCarbs) ==>
      Status(totalCarbs, targetCarbs) == OnTarget
    ensures Status(85, 100) == OnTarget && !ShowCheckIcon(85, 100)
  {
  }

  /** The classification examples: 0, 79, 95 and 115 against a target of 100. */
  lemma StatusExamples()
    ensures Status(0, 100) == Empty
    ensures Status(79, 100) == Under
    ensures Status(95, 100) == OnTarget
    ensures Status(115, 100) == Over
  {
  }

  // ---------------------------------------------------------------------
  // Sodium and potassium: met or not met.

  predicate SodiumMet(items: seq<FuelItem>, targetSodium: nat)
  {
    TotalSodium(items) >= targetSodium
  }

  predicate PotassiumMet(items: seq<FuelItem>, targetPotassium: nat)
  {
    TotalPotassium(items) >= targetPotassium
  }

  /** Adding items never turns a met indicator back to not met. */
  lemma MetIsMonotone(items: seq<FuelItem>, more: seq<FuelItem>, targetSodium: nat, targetPotassium: nat)
    ensures SodiumMet(items, targetSodium) ==> SodiumMet(items + more, targetSodium)
    ensures PotassiumMet(items, targetPotassium) ==> PotassiumMet(items + more, targetPotassium)
  {
    TotalsAppend(items, more);
  }

  // ---------------------------------------------------------------------
  // Counting and finding items by id.

  function HasId(id: string): FuelItem -> bool
  {
    (item: FuelItem) => item.id == id
  }

  /** `items.filter(i => i.id === id).length` */
  function CountId(items: seq<FuelItem>, id: string): nat
  {
    |Filter(items, HasId(id))|
  }

  lemma CountIdAppend(a: seq<FuelItem>, b: seq<FuelItem>, id: string)
    ensures CountId(a + b, id) == CountId(a, id) + CountId(b, id)
  {
    FilterAppend(a, b, HasId(id));
  }

  lemma {:induction false} CountIdAbsent(items: seq<FuelItem>, id: string)
    requires forall i :: 0 <= i < |items| ==> items[i].id != id
    ensures CountId(items, id) == 0
  {
    if items != [] {
      CountIdAbsent(items[1..], id);
    }
  }

  /** `items.findIndex(i => i.id === id)`: the first position holding `id`,
      or -1. */
  function IndexOfId(items: seq<FuelItem>, id: string): (k: int)
    ensures -1 <= k < |items|
    ensures k == -1 <==> forall i :: 0 <= i < |items| ==> items[i].id != id
    ensures 0 <= k ==> items[k].id == id && forall i :: 0 <= i < k ==> items[i].id != id
  {
    if items == [] then -1
    else if items[0].id == id then 0
    else
      var k := IndexOfId(items[1..], id);
      if k < 0 then -1 else k + 1
  }

  /** The first position of `id` after appending one item. */
  lemma IndexOfIdSnoc(items: seq<FuelItem>, x: FuelItem, id: string)
    ensures IndexOfId(items + [x], id) ==
      if 0 <= IndexOfId(items, id) then IndexOfId(items, id)
      else if x.id == id then |items|
      else -1
  {
    var ys := items + [x];
    assert forall i :: 0 <= i < |items| ==> ys[i] == items[i];
    if IndexOfId(items, id) < 0 && x.id == id {
      assert ys[|items|].id == id;
      var k := IndexOfId(ys, id);
      assert k >= 0;
    }
  }

  /** How the first position and the count of `id` change when one more
      item is seen. */
  lemma PrefixStep(items: seq<FuelItem>, n: nat, id: string)
    requires n < |items|
    ensures IndexOfId(items[..n + 1], id) ==
      if 0 <= IndexOfId(items[..n], id) then IndexOfId(items[..n], id)
      else if items[n].id == id then n
      else -1
    ensures CountId(items[..n + 1], id) ==
      CountId(items[..n], id) + if items[n].id == id then 1 else 0
  {
    assert items[..n + 1] == items[..n] + [items[n]];
    CountIdAppend(items[..n], [items[n]], id);
    assert [items[n]][1..] == [];
  }

  // ---------------------------------------------------------------------
  // Grouping: one entry per distinct id, in order of first occurrence.

  /** An entry of the grouped list: the first item seen with an id and how
      many items carry that id. */
  datatype Group = Group(item: FuelItem, count: nat)

  function GroupCount(g: Group): nat { g.count }

  function GroupIds(groups: seq<Group>): (ids: seq<string>)
    ensures |ids| == |groups|
    ensures forall j :: 0 <= j < |groups| ==> ids[j] == groups[j].item.id
  {
    seq(|groups|, j requires 0 <= j < |groups| => groups[j].item.id)
  }

  /** The position of the group for `id`, or -1 (the record lookup `acc[id]`). */
  function GroupIndex(groups: seq<Group>, id: string): (k: int)
    ensures -1 <= k < |groups|
    ensures k == -1 <==> id !in GroupIds(groups)
    ensures 0 <= k ==> groups[k].item.id == id
  {
    if groups == [] then -1
    else if groups[0].item.id == id then 0
    else
      var k := GroupIndex(groups[1..], id);
      assert GroupIds(groups) == [groups[0].item.id] + GroupIds(groups[1..]);
      if k < 0 then -1 else k + 1
  }

  /** Every group holds the first item seen with its id and the number of
      items seen with that id. */
  ghost predicate GroupsFaithful(seen: seq<FuelItem>, groups: seq<Group>)
  {
    forall j :: 0 <= j < |groups| ==>
      0 <= IndexOfId(seen, groups[j].item.id) &&
      groups[j].item == seen[IndexOfId(seen, groups[j].item.id)] &&
      groups[j].count == CountId(seen, groups[j].item.id)
  }

  /** Every id seen has a group. */
  ghost predicate GroupsCover(seen: seq<FuelItem>, groups: seq<Group>)
  {
    forall i :: 0 <= i < |seen| ==> seen[i].id in GroupIds(groups)
  }

  /** Groups appear in order of first occurrence (so their ids are distinct). */
  ghost predicate GroupsOrdered(seen: seq<FuelItem>, groups: seq<Group>)
  {
    forall j, j' :: 0 <= j < j' < |groups| ==>
      IndexOfId(seen, groups[j].item.id) < IndexOfId(seen, groups[j'].item.id)
  }

  ghost predicate GroupsOf(seen: seq<FuelItem>, groups: seq<Group>)
  {
    GroupsFaithful(seen, groups) && GroupsCover(seen, groups) && GroupsOrdered(seen, groups)
  }

  /** One step of the `reduce`: create the group on first sight, then count. */
  function AddToGroups(groups: seq<Group>, item: FuelItem): seq<Group>
  {
    var k := GroupIndex(groups, item.id);
    if k < 0 then groups + [Group(item, 1)]
    else groups[k := groups[k].(count := groups[k].count + 1)]
  }

  // The step lemmas below are split by invariant to keep each proof small.

  lemma GroupStepNewFaithful(items: seq<FuelItem>, n: nat, groups: seq<Group>)
    requires n < |items|
    requires GroupsFaithful(items[..n], groups)
    requires forall i :: 0 <= i < n ==> items[i].id != items[n].id
    requires forall j :: 0 <= j < |groups| ==> groups[j].item.id != items[n].id
    ensures GroupsFaithful(items[..n + 1], groups + [Group(items[n], 1)])
  {
    var p, p', x := items[..n], items[..n + 1], items[n];
    var r := groups + [Group(x, 1)];
    CountIdAbsent(p, x.id);
    forall j | 0 <= j < |r|
      ensures 0 <= IndexOfId(p', r[j].item.id)
      ensures r[j].item == p'[IndexOfId(p', r[j].item.id)]
      ensures r[j].count == CountId(p', r[j].item.id)
    {
      PrefixStep(items, n, r[j].item.id);
      if j < |groups| {
        assert r[j] == groups[j];
        assert p'[IndexOfId(p, r[j].item.id)] == p[IndexOfId(p, r[j].item.id)];
      }
    }
  }

  lemma GroupStepNewCover(items: seq<FuelItem>, n: nat, groups: seq<Group>)
    requires n < |items|
    requires GroupsCover(items[..n], groups)
    ensures GroupsCover(items[..n + 1], groups + [Group(items[n], 1)])
  {
    var p, p', x := items[..n], items[..n + 1], items[n];
    var r := groups + [Group(x, 1)];
    assert GroupIds(r) == GroupIds(groups) + [x.id];
    forall i | 0 <= i < |p'|
      ensures p'[i].id in GroupIds(r)
    {
      if i < n {
        assert p'[i] == p[i];
        assert p[i].id in GroupIds(groups);
      }
    }
  }

  lemma GroupStepNewOrdered(items: seq<FuelItem>, n: nat, groups: seq<Group>)
    requires n < |items|
    requires GroupsOrdered(items[..n], groups)
    requires forall i :: 0 <= i < n ==> items[i].id != items[n].id
    requires forall j :: 0 <= j < |groups| ==> groups[j].item.id != items[n].id
    ensures GroupsOrdered(items[..n + 1], groups + [Group(items[n], 1)])
  {
    var p, p', x := items[..n], items[..n + 1], items[n];
    var r := groups + [Group(x, 1)];
    PrefixStep(items, n, x.id);
    forall j | 0 <= j < |groups|
      ensures IndexOfId(p', groups[j].item.id) == IndexOfId(p, groups[j].item.id)
    {
      PrefixStep(items, n, groups[j].item.id);
    }
    forall j, j' | 0 <= j < j' < |r|
      ensures IndexOfId(p', r[j].item.id) < IndexOfId(p', r[j'].item.id)
    {
      assert r[j] == groups[j];
      if j' < |groups| {
        assert r[j'] == groups[j'];
      }
    }
  }

  lemma GroupStepNew(items: seq<FuelItem>, n: nat, groups: seq<Group>)
    requires n < |items|
    requires GroupsOf(items[..n], groups)
    requires items[n].id !in GroupIds(groups)
    ensures GroupsOf(items[..n + 1], groups + [Group(items[n], 1)])
  {
    forall i | 0 <= i < n
      ensures items[i].id != items[n].id
    {
      assert items[..n][i].id in GroupIds(groups);
    }
    forall j | 0 <= j < |groups|
      ensures groups[j].item.id != items[n].id
    {
      assert GroupIds(groups)[j] == groups[j].item.id;
    }
    GroupStepNewFaithful(items, n, groups);
    GroupStepNewCover(items, n, groups);
    GroupStepNewOrdered(items, n, groups);
  }

  lemma GroupStepExistingFaithful(items: seq<FuelItem>, n: nat, groups: seq<Group>, k: nat)
    requires n < |items|
    requires GroupsFaithful(items[..n], groups)
    requires k < |groups| && groups[k].item.id == items[n].id
    requires forall j :: 0 <= j < |groups| && j != k ==> groups[j].item.id != items[n].id
    ensures GroupsFaithful(items[..n + 1], groups[k := groups[k].(count := groups[k].count + 1)])
  {
    var p, p' := items[..n], items[..n + 1];
    var r := groups[k := groups[k].(count := groups[k].count + 1)];
    forall j | 0 <= j < |r|
      ensures 0 <= IndexOfId(p', r[j].item.id)
      ensures r[j].item == p'[IndexOfId(p', r[j].item.id)]
      ensures r[j].count == CountId(p', r[j].item.id)
    {
      var id := groups[j].item.id;
      PrefixStep(items, n, id);
      assert p'[IndexOfId(p, id)] == p[IndexOfId(p, id)];
    }
  }

  lemma GroupStepExistingCover(items: seq<FuelItem>, n: nat, groups: seq<Group>, k: nat)
    requires n < |items|
    requires GroupsCover(items[..n], groups)
    requires k < |groups| && groups[k].item.id == items[n].id
    ensures GroupsCover(items[..n + 1], groups[k := groups[k].(count := groups[k].count + 1)])
  {
    var p, p' := items[..n], items[..n + 1];
    var r := groups[k := groups[k].(count := groups[k].count + 1)];
    assert GroupIds(r) == GroupIds(groups);
    forall i | 0 <= i < |p'|
      ensures p'[i].id in GroupIds(r)
    {
      if i < n {
        assert p'[i] == p[i];
        assert p[i].id in GroupIds(groups);
      } else {
        assert GroupIds(groups)[k] == items[n].id;
      }
    }
  }

  lemma GroupStepExistingOrdered(items: seq<FuelItem>, n: nat, groups: seq<Group>, k: nat)
    requires n < |items|
    requires GroupsFaithful(items[..n], groups)
    requires GroupsOrdered(items[..n], groups)
    requires k < |groups|
    ensures GroupsOrdered(items[..n + 1], groups[k := groups[k].(count := groups[k].count + 1)])
  {
    var p, p' := items[..n], items[..n + 1];
    var r := groups[k := groups[k].(count := groups[k].count + 1)];
    forall j | 0 <= j < |groups|
      ensures IndexOfId(p', groups[j].item.id) == IndexOfId(p, groups[j].item.id)
      ensures r[j].item == groups[j].item
    {
      PrefixStep(items, n, groups[j].item.id);
    }
  }

  lemma GroupStepExisting(items: seq<FuelItem>, n: nat, groups: seq<Group>, k: nat)
    requires n < |items|
    requires GroupsOf(items[..n], groups)
    requires k < |groups| && groups[k].item.id == items[n].id
    ensures GroupsOf(items[..n + 1], groups[k := groups[k].(count := groups[k].count + 1)])
  {
    forall j | 0 <= j < |groups| && j != k
      ensures groups[j].item.id != items[n].id
    {
      var j0, j1 := if j < k then j else k, if j < k then k else j;
      assert IndexOfId(items[..n], groups[j0].item.id) < IndexOfId(items[..n], groups[j1].item.id);
    }
    GroupStepExistingFaithful(items, n, groups, k);
    GroupStepExistingCover(items, n, groups, k);
    GroupStepExistingOrdered(items, n, groups, k);
  }

  lemma GroupStep(items: seq<FuelItem>, n: nat, groups: seq<Group>)
    requires n < |items|
    requires GroupsOf(items[..n], groups)
    ensures GroupsOf(items[..n + 1], AddToGroups(groups, items[n]))
    ensures Sum(AddToGroups(groups, items[n]), GroupCount) == Sum(groups, GroupCount) + 1
  {
    var x := items[n];
    var k := GroupIndex(groups, x.id);
    if k < 0 {
      GroupStepNew(items, n, groups);
      SumAppend(groups, [Group(x, 1)], GroupCount);
      SumSingle(Group(x, 1), GroupCount);
    } else {
      GroupStepExisting(items, n, groups, k);
      SumUpdate(groups, k, groups[k].(count := groups[k].count + 1), GroupCount);
    }
  }

  /** The grouping the bucket renders (the accumulator of `reduce` over a
      record keyed by id, read back with `Object.values` in key insertion
      order). */
  method GroupItems(items: seq<FuelItem>) returns (groups: seq<Group>)
    ensures forall j :: 0 <= j < |groups| ==>
      0 <= IndexOfId(items, groups[j].item.id) &&
      groups[j].item == items[IndexOfId(items, groups[j].item.id)]
    ensures forall j :: 0 <= j < |groups| ==> groups[j].count == CountId(items, groups[j].item.id)
    ensures forall i :: 0 <= i < |items| ==> items[i].id in GroupIds(groups)
    ensures forall j, j' :: 0 <= j < j' < |groups| ==>
      IndexOfId(items, groups[j].item.id) < IndexOfId(items, groups[j'].item.id)
    ensures Sum(groups, GroupCount) == |items|
    ensures groups == [] <==> items == []
  {
    groups := [];
    var n := 0;
    while n < |items|
      invariant 0 <= n <= |items|
      invariant GroupsOf(items[..n], groups)
      invariant Sum(groups, GroupCount) == n
    {
      GroupStep(items, n, groups);
      groups := AddToGroups(groups, items[n]);
      n := n + 1;
    }
    assert items[..|items|] == items;
    if items != [] {
      assert items[0].id in GroupIds(groups);
    }
  }

  /** Two copies of an item added to an hour show up as a count of 2 and
      twice its carbohydrate. */
  lemma AddTwice(items: seq<FuelItem>, x: FuelItem)
    requires forall i :: 0 <= i < |items| ==> items[i].id != x.id
    ensures CountId(items + [x, x], x.id) == 2
    ensures TotalCarbs(items + [x, x]) == TotalCarbs(items) + 2 * x.carbs
  {
    CountIdAbsent(items, x.id);
    CountIdAppend(items, [x, x], x.id);
    assert [x, x][1..] == [x] && [x][1..] == [];
    assert Filter([x, x], HasId(x.id)) == [x, x];
    SumAppend([x], [x], Carbs);
    SumSingle(x, Carbs);
    TotalsAppend(items, [x, x]);
  }

  /** The "Add fuel" placeholder is shown when the grouped list is empty. */
  predicate ShowAddPlaceholder(groups: seq<Group>)
  {
    |groups| == 0
  }
}
