/** The plan and settings transformations applied by the planner's handlers,
    and the views derived from them: the visible catalog, the per-item count
    in the picker and the chart. */
module App {
  import opened Types
  import opened Seqs
  import opened Text
  import Constants
  import HB = HourlyBucket

  // ---------------------------------------------------------------------
  // Goal time and the number of hour buckets.

  /** `Math.ceil(minutes / 60)` for whole minutes. */
  function CeilHours(minutes: int): (q: int)
    ensures 60 * (q - 1) < minutes <= 60 * q
  {
    -((-minutes) / 60)
  }

  /** `Math.ceil(targetTimeHours + targetTimeMinutes / 60)` for whole hours
      and minutes. */
  function TotalHours(s: UserSettings): int
  {
    s.targetTimeHours + CeilHours(s.targetTimeMinutes)
  }

  /** The number of buckets the plan is sized to: the loop that builds it
      runs no iteration for a count below 1. */
  function PlanLength(s: UserSettings): nat
  {
    if TotalHours(s) > 0 then TotalHours(s) else 0
  }

  /** For a goal time within the input clamps the plan has one bucket per
      started hour. */
  lemma PlanLengthOfGoalTime(s: UserSettings)
    requires s.targetTimeHours >= 1 && 0 <= s.targetTimeMinutes <= 59
    ensures PlanLength(s) == s.targetTimeHours + if s.targetTimeMinutes > 0 then 1 else 0
  {
  }

  /** `Math.max(1, value)` on the goal-hours input. */
  function ClampGoalHours(value: int): (h: int)
    ensures h >= 1
    ensures value >= 1 ==> h == value
    ensures value < 1 ==> h == 1
  {
    if value < 1 then 1 else value
  }

  /** `Math.min(59, Math.max(0, value))` on the goal-minutes input. */
  function ClampGoalMinutes(value: int): (m: int)
    ensures 0 <= m <= 59
    ensures 0 <= value <= 59 ==> m == value
    ensures value < 0 ==> m == 0
    ensures value > 59 ==> m == 59
  {
    if value > 59 then 59 else if value < 0 then 0 else value
  }

  /** Whatever is typed, the clamped goal time yields at least one bucket and
      exactly one per started hour. */
  lemma ClampedGoalTime(s: UserSettings, hours: int, minutes: int)
    ensures var t := s.(targetTimeHours := ClampGoalHours(hours), targetTimeMinutes := ClampGoalMinutes(minutes));
      PlanLength(t) >= 1 &&
      PlanLength(t) == t.targetTimeHours + if t.targetTimeMinutes > 0 then 1 else 0
  {
    var t := s.(targetTimeHours := ClampGoalHours(hours), targetTimeMinutes := ClampGoalMinutes(minutes));
    PlanLengthOfGoalTime(t);
  }

  predicate SameTime(a: UserSettings, b: UserSettings)
  {
    a.targetTimeHours == b.targetTimeHours && a.targetTimeMinutes == b.targetTimeMinutes
  }

  // ---------------------------------------------------------------------
  // Resizing the plan to the goal time.

  function EmptyHour(i: int): HourPlan
  {
    HourPlan(i, [])
  }

  /** The plan after the resize: unchanged when the length already matches;
      otherwise kept hours stay at their positions, new positions get empty
      hours, and positions beyond `n` are dropped. */
  function Resized(prev: seq<HourPlan>, n: nat): (r: seq<HourPlan>)
    ensures |r| == n
    ensures |prev| == n ==> r == prev
    ensures forall i :: 0 <= i < n && i < |prev| ==> r[i] == prev[i]
    ensures forall i :: |prev| <= i < n ==> r[i] == EmptyHour(i)
  {
    if |prev| == n then prev
    else seq(n, i requires 0 <= i < n => if i < |prev| then prev[i] else EmptyHour(i))
  }

  /** Every hour's index is its position. */
  predicate WellIndexed(plan: seq<HourPlan>)
  {
    forall i :: 0 <= i < |plan| ==> plan[i].hourIndex == i
  }

  lemma ResizeKeepsIndexing(prev: seq<HourPlan>, n: nat)
    requires WellIndexed(prev)
    ensures WellIndexed(Resized(prev, n))
  {
  }

  /** Growing the plan and shrinking it back gives the original plan. */
  lemma GrowThenShrink(prev: seq<HourPlan>, n: nat)
    requires |prev| <= n
    ensures Resized(Resized(prev, n), |prev|) == prev
  {
    var grown := Resized(prev, n);
    assert grown[..|prev|] == prev;
  }

  /** Shrinking and growing back loses the dropped hours: they come back
      empty. */
  lemma ShrinkThenGrow(prev: seq<HourPlan>, m: nat)
    requires m < |prev|
    ensures var r := Resized(Resized(prev, m), |prev|);
      r[..m] == prev[..m] &&
      forall i :: m <= i < |prev| ==> r[i] == EmptyHour(i)
  {
  }

  /** The plan "Clear" produces: `totalHours` empty hours indexed by position. */
  function EmptyPlan(n: nat): (r: seq<HourPlan>)
    ensures |r| == n
    ensures forall i :: 0 <= i < n ==> r[i] == EmptyHour(i)
  {
    seq(n, i requires 0 <= i < n => EmptyHour(i))
  }

  /** Clearing gives the plan a resize would build from nothing. */
  lemma EmptyPlanIsFreshResize(n: nat)
    ensures EmptyPlan(n) == Resized([], n)
    ensures WellIndexed(EmptyPlan(n))
  {
  }

  // ---------------------------------------------------------------------
  // Adding and removing items.

  /** `addItemToHour`: a copy of `item` is appended to every hour whose
      index is `k`. */
  function AddItemToHour(plan: seq<HourPlan>, item: FuelItem, k: int): (r: seq<HourPlan>)
    ensures |r| == |plan|
    ensures forall i :: 0 <= i < |plan| ==> r[i].hourIndex == plan[i].hourIndex
    ensures forall i :: 0 <= i < |plan| && plan[i].hourIndex != k ==> r[i] == plan[i]
    ensures forall i :: 0 <= i < |plan| && plan[i].hourIndex == k ==> r[i].items == plan[i].items + [item]
  {
    seq(|plan|, i requires 0 <= i < |plan| =>
      if plan[i].hourIndex == k then plan[i].(items := plan[i].items + [item]) else plan[i])
  }

  /** Adding to an hour index that no bucket has leaves the plan unchanged. */
  lemma AddToMissingHour(plan: seq<HourPlan>, item: FuelItem, k: int)
    requires forall i :: 0 <= i < |plan| ==> plan[i].hourIndex != k
    ensures AddItemToHour(plan, item, k) == plan
  {
  }

  /** Removes the first item with `id` (`findIndex` then `splice(index, 1)`). */
  function RemoveFirst(items: seq<FuelItem>, id: string): seq<FuelItem>
  {
    var k := HB.IndexOfId(items, id);
    if k < 0 then items else items[..k] + items[k + 1..]
  }

  /** Removal takes away exactly one item with `id` when there is one and
      leaves the count of every other id alone; the items kept stay in order. */
  lemma RemoveFirstCounts(items: seq<FuelItem>, id: string, other: string)
    ensures HB.IndexOfId(items, id) < 0 ==> RemoveFirst(items, id) == items
    ensures 0 <= HB.IndexOfId(items, id) ==>
      var k := HB.IndexOfId(items, id);
      RemoveFirst(items, id) == items[..k] + items[k + 1..] &&
      HB.CountId(RemoveFirst(items, id), id) == HB.CountId(items, id) - 1
    ensures other != id ==> HB.CountId(RemoveFirst(items, id), other) == HB.CountId(items, other)
  {
    var k := HB.IndexOfId(items, id);
    if 0 <= k {
      assert items == items[..k] + [items[k]] + items[k + 1..];
      HB.CountIdAppend(items[..k] + [items[k]], items[k + 1..], id);
      HB.CountIdAppend(items[..k], [items[k]], id);
      HB.CountIdAppend(items[..k], items[k + 1..], id);
      HB.CountIdAppend(items[..k] + [items[k]], items[k + 1..], other);
      HB.CountIdAppend(items[..k], [items[k]], other);
      HB.CountIdAppend(items[..k], items[k + 1..], other);
      assert [items[k]][1..] == [];
    }
  }

  /** `removeItemFromHour`: in every hour whose index is `k`, the first item
      with `id` is removed. */
  function RemoveItemFromHour(plan: seq<HourPlan>, k: int, id: string): (r: seq<HourPlan>)
    ensures |r| == |plan|
    ensures forall i :: 0 <= i < |plan| ==> r[i].hourIndex == plan[i].hourIndex
    ensures forall i :: 0 <= i < |plan| && plan[i].hourIndex != k ==> r[i] == plan[i]
    ensures forall i :: 0 <= i < |plan| && plan[i].hourIndex == k ==> r[i].items == RemoveFirst(plan[i].items, id)
  {
    seq(|plan|, i requires 0 <= i < |plan| =>
      if plan[i].hourIndex == k then plan[i].(items := RemoveFirst(plan[i].items, id)) else plan[i])
  }

  /** Appending an item and removing the first item with its id leaves the
      count of every id as it was. */
  lemma SnocThenRemoveCounts(xs: seq<FuelItem>, item: FuelItem, id: string)
    ensures HB.CountId(RemoveFirst(xs + [item], item.id), id) == HB.CountId(xs, id)
  {
    var ys := xs + [item];
    var k := HB.IndexOfId(xs, item.id);
    HB.IndexOfIdSnoc(xs, item, item.id);
    if k < 0 {
      assert RemoveFirst(ys, item.id) == xs by {
        assert ys[..|xs|] == xs && ys[|xs| + 1..] == [];
      }
    } else {
      assert RemoveFirst(ys, item.id) == RemoveFirst(xs, item.id) + [item] by {
        assert ys[..k] == xs[..k] && ys[k + 1..] == xs[k + 1..] + [item];
      }
      HB.CountIdAppend(RemoveFirst(xs, item.id), [item], id);
      RemoveFirstCounts(xs, item.id, id);
    }
  }

  /** Adding an item and removing its id again restores every hour's count
      of every id. */
  lemma AddThenRemoveCounts(plan: seq<HourPlan>, item: FuelItem, k: int, i: nat, id: string)
    requires i < |plan|
    ensures var r := RemoveItemFromHour(AddItemToHour(plan, item, k), k, item.id);
      HB.CountId(r[i].items, id) == HB.CountId(plan[i].items, id)
  {
    if plan[i].hourIndex == k {
      SnocThenRemoveCounts(plan[i].items, item, id);
    }
  }

  /** If the hour held no item with that id, adding and removing it restores
      the plan exactly. */
  lemma AddThenRemoveRestoresPlan(plan: seq<HourPlan>, item: FuelItem, k: int)
    requires forall j :: 0 <= j < |plan| && plan[j].hourIndex == k ==>
      HB.IndexOfId(plan[j].items, item.id) < 0
    ensures RemoveItemFromHour(AddItemToHour(plan, item, k), k, item.id) == plan
  {
    var r := RemoveItemFromHour(AddItemToHour(plan, item, k), k, item.id);
    forall j | 0 <= j < |plan|
      ensures r[j] == plan[j]
    {
      if plan[j].hourIndex == k {
        var xs := plan[j].items;
        HB.IndexOfIdSnoc(xs, item, item.id);
        assert (xs + [item])[..|xs|] == xs;
      }
    }
  }

  // ---------------------------------------------------------------------
  // The picker's per-item count.

  /** `plan.findIndex(h => h.hourIndex === k)` */
  function IndexOfHour(plan: seq<HourPlan>, k: int): (j: int)
    ensures -1 <= j < |plan|
    ensures j == -1 <==> forall i :: 0 <= i < |plan| ==> plan[i].hourIndex != k
    ensures 0 <= j ==> plan[j].hourIndex == k && forall i :: 0 <= i < j ==> plan[i].hourIndex != k
  {
    if plan == [] then -1
    else if plan[0].hourIndex == k then 0
    else
      var j := IndexOfHour(plan[1..], k);
      if j < 0 then -1 else j + 1
  }

  /** `getHourItemCount`: how many items with `id` the selected hour holds;
      0 when no hour is selected or the selected hour is not in the plan. */
  function HourItemCount(plan: seq<HourPlan>, selected: Option<int>, id: string): nat
  {
    match selected
    case None => 0
    case Some(k) =>
      var j := IndexOfHour(plan, k);
      if j < 0 then 0 else HB.CountId(plan[j].items, id)
  }

  /** After adding an item to the selected hour, the picker shows one more of
      that item and the same count for every other id. */
  lemma AddRaisesPickerCount(plan: seq<HourPlan>, item: FuelItem, k: int, other: string)
    requires exists i :: 0 <= i < |plan| && plan[i].hourIndex == k
    ensures HourItemCount(AddItemToHour(plan, item, k), Some(k), item.id) ==
      HourItemCount(plan, Some(k), item.id) + 1
    ensures other != item.id ==>
      HourItemCount(AddItemToHour(plan, item, k), Some(k), other) == HourItemCount(plan, Some(k), other)
  {
    var r := AddItemToHour(plan, item, k);
    var j := IndexOfHour(plan, k);
    assert IndexOfHour(r, k) == j;
    HB.CountIdAppend(plan[j].items, [item], item.id);
    HB.CountIdAppend(plan[j].items, [item], other);
    assert [item][1..] == [];
  }

  /** After removing an item the picker shows one fewer of it, if there was
      one, and the same count for every other id. */
  lemma RemoveLowersPickerCount(plan: seq<HourPlan>, k: int, id: string, other: string)
    ensures var before := HourItemCount(plan, Some(k), id);
      HourItemCount(RemoveItemFromHour(plan, k, id), Some(k), id) == if before > 0 then before - 1 else 0
    ensures other != id ==>
      HourItemCount(RemoveItemFromHour(plan, k, id), Some(k), other) == HourItemCount(plan, Some(k), other)
  {
    var r := RemoveItemFromHour(plan, k, id);
    var j := IndexOfHour(plan, k);
    assert IndexOfHour(r, k) == j;
    if 0 <= j {
      var xs := plan[j].items;
      assert r[j].items == RemoveFirst(xs, id);
      RemoveFirstCounts(xs, id, other);
      if HB.IndexOfId(xs, id) < 0 {
        HB.CountIdAbsent(xs, id);
      }
    }
  }

  // ---------------------------------------------------------------------
  // The visible catalog.

  /** Presets followed by the user's custom items. */
  function AllFuels(s: UserSettings): seq<FuelItem>
  {
    Constants.PresetFuels + s.customFuels
  }

  function IsEnabled(disabled: seq<string>): FuelItem -> bool
  {
    (f: FuelItem) => f.id !in disabled
  }

  function EnabledFuels(s: UserSettings): seq<FuelItem>
  {
    Filter(AllFuels(s), IsEnabled(s.disabledFuelIds))
  }

  /** The lower-cased name, or the lower-cased brand when there is a
      non-empty one, contains the lower-cased query. The query is not
      trimmed for this test. */
  predicate MatchesQuery(f: FuelItem, query: string)
  {
    Contains(Lower(f.name), Lower(query)) ||
    (f.brand.Some? && f.brand.value != "" && Contains(Lower(f.brand.value), Lower(query)))
  }

  function Matcher(query: string): FuelItem -> bool
  {
    (f: FuelItem) => MatchesQuery(f, query)
  }

  /** `filteredPresets`: enabled items, narrowed by the query unless it is
      blank after trimming. */
  function FilteredCatalog(s: UserSettings, query: string): seq<FuelItem>
  {
    if IsBlank(query) then EnabledFuels(s) else Filter(EnabledFuels(s), Matcher(query))
  }

  /** An item is listed iff it is a preset or custom item, its id is not
      disabled, and the query is blank or matches it; so a disabled item is
      never listed, whatever the query. */
  lemma CatalogMembership(s: UserSettings, query: string, f: FuelItem)
    ensures f in FilteredCatalog(s, query) <==>
      f in AllFuels(s) && f.id !in s.disabledFuelIds && (IsBlank(query) || MatchesQuery(f, query))
  {
    FilterMember(AllFuels(s), IsEnabled(s.disabledFuelIds), f);
    if !IsBlank(query) {
      FilterMember(EnabledFuels(s), Matcher(query), f);
    }
  }

  /** A blank query lists all enabled items, presets first, then custom items,
      each in their own order. */
  lemma BlankQueryCatalog(s: UserSettings, query: string)
    requires IsBlank(query)
    ensures FilteredCatalog(s, query) ==
      Filter(Constants.PresetFuels, IsEnabled(s.disabledFuelIds)) +
      Filter(s.customFuels, IsEnabled(s.disabledFuelIds))
    ensures s.disabledFuelIds == [] ==> FilteredCatalog(s, query) == AllFuels(s)
  {
    EnabledSplits(Constants.PresetFuels, s.customFuels, s.disabledFuelIds);
  }

  lemma EnabledSplits(presets: seq<FuelItem>, custom: seq<FuelItem>, disabled: seq<string>)
    ensures Filter(presets + custom, IsEnabled(disabled)) ==
      Filter(presets, IsEnabled(disabled)) + Filter(custom, IsEnabled(disabled))
    ensures disabled == [] ==> Filter(presets + custom, IsEnabled(disabled)) == presets + custom
  {
    FilterAppend(presets, custom, IsEnabled(disabled));
    if disabled == [] {
      FilterKeepsAll(presets + custom, IsEnabled(disabled));
    }
  }

  /** The search is case-insensitive: an enabled item whose name contains the
      query as typed is listed. */
  lemma CatalogFindsExactName(s: UserSettings, query: string, f: FuelItem)
    requires f in AllFuels(s) && f.id !in s.disabledFuelIds
    requires Contains(f.name, query)
    ensures f in FilteredCatalog(s, query)
  {
    ContainsLower(f.name, query);
    CatalogMembership(s, query, f);
  }

  /** The third preset is Maurten's "Gel 100". */
  lemma ThirdPreset()
    ensures Constants.PresetFuels[2].name == "Gel 100"
    ensures Constants.PresetFuels[2].brand == Some("Maurten")
  {
  }

  /** The lower-cased forms of the strings the example below compares. */
  lemma LowerExample()
    ensures Lower("Gel 100") == "gel 100" && Lower("Maurten") == "maurten"
    ensures Lower(" gel") == " gel" && Lower("gel") == "gel"
  {
    assert Lower("Gel 100") == "gel 100";
    assert Lower("Maurten") == "maurten";
  }

  /** The substring tests the example below relies on. */
  lemma ContainsExample()
    ensures Contains("gel 100", "gel")
    ensures !Contains("gel 100", " gel") && !Contains("maurten", " gel")
  {
    var name := "gel 100";
    assert name[..3] == "gel";
    assert name[1] != 'g' && name[2] != 'g' && name[3] != 'g' && name[4] != 'g';
    MissingAtOffset(name, " gel", 1);
    var brand := "maurten";
    assert brand[1] != 'g' && brand[2] != 'g' && brand[3] != 'g' && brand[4] != 'g';
    MissingAtOffset(brand, " gel", 1);
  }

  /** The query "gel" finds Maurten's "Gel 100". */
  lemma QueryFindsName(f: FuelItem)
    requires f.name == "Gel 100" && f.brand == Some("Maurten")
    ensures MatchesQuery(f, "gel")
  {
    LowerExample();
    ContainsExample();
    assert Contains(Lower(f.name), Lower("gel"));
  }

  /** A leading space is part of the search text: " gel" is not blank, yet it
      finds neither the name "Gel 100" nor the brand "Maurten". */
  lemma QueryIsNotTrimmed(f: FuelItem)
    requires f.name == "Gel 100" && f.brand == Some("Maurten")
    ensures !IsBlank(" gel") && !MatchesQuery(f, " gel")
  {
    assert !IsBlank(" gel") by {
      assert !IsTrimmedSpace(" gel"[1]);
    }
    LowerExample();
    ContainsExample();
    assert !Contains(Lower(f.name), Lower(" gel"));
    assert !Contains(Lower(f.brand.value), Lower(" gel"));
  }

  // ---------------------------------------------------------------------
  // Custom items from the search service.

  /** Some custom item has the same name under lower-casing. */
  predicate NameTaken(custom: seq<FuelItem>, name: string)
  {
    exists j :: 0 <= j < |custom| && Lower(custom[j].name) == Lower(name)
  }

  /** No two custom items share a name under lower-casing. */
  predicate NamesUnique(custom: seq<FuelItem>)
  {
    forall j, j' :: 0 <= j < j' < |custom| ==> Lower(custom[j].name) != Lower(custom[j'].name)
  }

  /** The settings part of `handleAddAiItem`: the item is put at the front of
      the custom list unless its name is already taken. */
  function IngestCustomFuel(s: UserSettings, item: FuelItem): (r: UserSettings)
    ensures NameTaken(s.customFuels, item.name) ==> r == s
    ensures !NameTaken(s.customFuels, item.name) ==> r == s.(customFuels := [item] + s.customFuels)
  {
    if NameTaken(s.customFuels, item.name) then s
    else s.(customFuels := [item] + s.customFuels)
  }

  /** After ingestion the name is taken, a second ingestion changes nothing,
      and names stay unique. */
  lemma IngestIsIdempotent(s: UserSettings, item: FuelItem)
    ensures NameTaken(IngestCustomFuel(s, item).customFuels, item.name)
    ensures IngestCustomFuel(IngestCustomFuel(s, item), item) == IngestCustomFuel(s, item)
    ensures NamesUnique(s.customFuels) ==> NamesUnique(IngestCustomFuel(s, item).customFuels)
  {
    var r := IngestCustomFuel(s, item);
    if !NameTaken(s.customFuels, item.name) {
      assert r.customFuels[0] == item;
      if NamesUnique(s.customFuels) {
        forall j, j' | 0 <= j < j' < |r.customFuels|
          ensures Lower(r.customFuels[j].name) != Lower(r.customFuels[j'].name)
        {
          assert r.customFuels[j'] == s.customFuels[j' - 1];
          if j > 0 {
            assert r.customFuels[j] == s.customFuels[j - 1];
          }
        }
      }
    }
  }

  // ---------------------------------------------------------------------
  // Hiding and deleting items.

  function NotId(id: string): string -> bool
  {
    (x: string) => x != id
  }

  function HasOtherId(id: string): FuelItem -> bool
  {
    (f: FuelItem) => f.id != id
  }

  /** `toggleFuelVisibility` on the id list: every occurrence is removed when
      present, otherwise it is appended. */
  function ToggleId(ids: seq<string>, id: string): seq<string>
  {
    if id in ids then Filter(ids, NotId(id)) else ids + [id]
  }

  /** Toggling flips the id's membership and leaves every other id's alone;
      toggling twice restores membership. */
  lemma ToggleFlips(ids: seq<string>, id: string, x: string)
    ensures id in ToggleId(ids, id) <==> id !in ids
    ensures x != id ==> (x in ToggleId(ids, id) <==> x in ids)
    ensures x in ToggleId(ToggleId(ids, id), id) <==> x in ids
  {
    FilterMember(ids, NotId(id), id);
    FilterMember(ids, NotId(id), x);
    var t := ToggleId(ids, id);
    FilterMember(t, NotId(id), x);
    FilterMember(t, NotId(id), id);
  }

  /** `toggleFuelVisibility`: only the hidden-id list changes; the id's
      membership flips and every other id's is kept. */
  function ToggleFuelVisibility(s: UserSettings, id: string): (r: UserSettings)
    ensures r == s.(disabledFuelIds := r.disabledFuelIds)
    ensures id in r.disabledFuelIds <==> id !in s.disabledFuelIds
    ensures forall x :: x != id ==> (x in r.disabledFuelIds <==> x in s.disabledFuelIds)
  {
    var r := s.(disabledFuelIds := ToggleId(s.disabledFuelIds, id));
    ToggleFlips(s.disabledFuelIds, id, id);
    forall x | x != id
      ensures x in r.disabledFuelIds <==> x in s.disabledFuelIds
    {
      ToggleFlips(s.disabledFuelIds, id, x);
    }
    r
  }

  /** `deleteCustomFuel` (confirmed): every custom item and every disabled
      entry with the id is dropped; nothing else changes. */
  function DeleteCustomFuel(s: UserSettings, id: string): (r: UserSettings)
    ensures r == s.(customFuels := r.customFuels, disabledFuelIds := r.disabledFuelIds)
    ensures r.customFuels == Filter(s.customFuels, HasOtherId(id))
    ensures r.disabledFuelIds == Filter(s.disabledFuelIds, NotId(id))
    ensures forall f :: f in r.customFuels <==> f in s.customFuels && f.id != id
    ensures forall x :: x in r.disabledFuelIds <==> x in s.disabledFuelIds && x != id
  {
    var r := s.(customFuels := Filter(s.customFuels, HasOtherId(id)),
                disabledFuelIds := Filter(s.disabledFuelIds, NotId(id)));
    forall f
      ensures f in r.customFuels <==> f in s.customFuels && f.id != id
    {
      FilterMember(s.customFuels, HasOtherId(id), f);
    }
    forall x
      ensures x in r.disabledFuelIds <==> x in s.disabledFuelIds && x != id
    {
      FilterMember(s.disabledFuelIds, NotId(id), x);
    }
    r
  }

  // ---------------------------------------------------------------------
  // The chart on the analysis view.

  /** One bar: the hour's index, its carbohydrate total and the target. */
  datatype Bar = Bar(hourIndex: int, carbs: nat, target: nat)

  /** `chartData` */
  function ChartData(plan: seq<HourPlan>, targetCarbs: nat): (bars: seq<Bar>)
    ensures |bars| == |plan|
    ensures forall i :: 0 <= i < |plan| ==>
      bars[i].hourIndex == plan[i].hourIndex && bars[i].target == targetCarbs &&
      bars[i].carbs == HB.TotalCarbs(plan[i].items)
  {
    seq(|plan|, i requires 0 <= i < |plan| =>
      Bar(plan[i].hourIndex, HB.TotalCarbs(plan[i].items), targetCarbs))
  }

  /** The bar fill: yellow, orange or emerald. There is no empty case. */
  datatype BarColour = Yellow | Orange | Emerald

  function BarColourOf(bar: Bar): BarColour
  {
    if HB.BelowBand(bar.carbs, bar.target) then Yellow
    else if HB.AboveBand(bar.carbs, bar.target) then Orange
    else Emerald
  }

  /** A bar has the colour of its hour's status, except that an empty hour
      with a positive target is drawn as under target. */
  lemma ChartMatchesBuckets(plan: seq<HourPlan>, targetCarbs: nat, i: nat)
    requires i < |plan|
    ensures var c := BarColourOf(ChartData(plan, targetCarbs)[i]);
      var st := HB.Status(HB.TotalCarbs(plan[i].items), targetCarbs);
      (st == HB.Under ==> c == Yellow) &&
      (st == HB.Over ==> c == Orange) &&
      (st == HB.OnTarget ==> c == Emerald) &&
      (st == HB.Empty ==> c == if targetCarbs > 0 then Yellow else Emerald)
  {
  }

  /** Editing one hour changes only that hour's bar. */
  lemma AddChangesOneBar(plan: seq<HourPlan>, item: FuelItem, k: int, targetCarbs: nat, i: nat)
    requires i < |plan|
    ensures var before := ChartData(plan, targetCarbs)[i];
      var after := ChartData(AddItemToHour(plan, item, k), targetCarbs)[i];
      after.carbs == before.carbs + if plan[i].hourIndex == k then item.carbs else 0
  {
    if plan[i].hourIndex == k {
      HB.TotalsAddOne(plan[i].items, item);
    }
  }

  // ---------------------------------------------------------------------
  // Factory reset.

  /** The plan `handleFactoryReset` leaves as written: it sets the plan to []
      and relies on the resize effect, which only runs when the goal time
      differs from the default one. */
  function ResetPlanAsWritten(previous: UserSettings): seq<HourPlan>
  {
    if SameTime(previous, Constants.DefaultSettings) then []
    else Resized([], PlanLength(Constants.DefaultSettings))
  }

  /** Resetting while the goal time is already 3 h 30 min leaves a plan with
      no hours, although the goal time asks for 4. */
  lemma ResetAsWrittenLeavesNoHours()
    ensures ResetPlanAsWritten(Constants.DefaultSettings) == []
    ensures PlanLength(Constants.DefaultSettings) == 4
  {
  }

  /** The plan a reset should leave: one empty bucket per hour of the
      default goal time, whatever the previous settings. */
  function ResetPlan(): (r: seq<HourPlan>)
    ensures |r| == PlanLength(Constants.DefaultSettings) == 4
    ensures WellIndexed(r)
    ensures forall i :: 0 <= i < |r| ==> r[i].items == []
  {
    EmptyPlan(PlanLength(Constants.DefaultSettings))
  }
}
