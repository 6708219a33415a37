/** The planner's session state: the plan and the settings held at the
    application root, and the handlers that replace them. Each handler's
    frame names the fields it may change; everything else stays as it was. */
module AppSession {
  import opened Types
  import opened Text
  import opened App
  import Constants

  class Session {
    var plan: seq<HourPlan>
    var settings: UserSettings
    /** The hour whose picker is open, if any. */
    var selectedHour: Option<int>
    var searchQuery: string
    /** What the food-lookup service returned for the last search. */
    var searchResults: seq<FuelItem>

    /** The plan has one bucket per started hour of the goal time. */
    ghost predicate Valid()
      reads this
    {
      |plan| == PlanLength(settings)
    }

    /** Start-up: the stored settings (or defaults) and the stored plan (or
        none), after the resize effect's first run. */
    constructor (stored: UserSettings, storedPlan: Option<seq<HourPlan>>)
      ensures settings == stored
      ensures plan == Resized(storedPlan.GetOr([]), PlanLength(stored))
      ensures selectedHour == None && searchQuery == "" && searchResults == []
      ensures Valid()
    {
      settings := stored;
      plan := storedPlan.GetOr([]);
      selectedHour := None;
      searchQuery := "";
      searchResults := [];
      new;
      SyncPlanLength();
    }

    /** The resize effect: keep the plan if its length matches the goal
        time, otherwise rebuild it hour by hour. */
    method SyncPlanLength()
      modifies this`plan
      ensures plan == Resized(old(plan), PlanLength(settings))
      ensures Valid()
    {
      var totalHours := PlanLength(settings);
      var prev := plan;
      if |prev| == totalHours {
        return;
      }
      var newPlan: seq<HourPlan> := [];
      var i := 0;
      while i < totalHours
        invariant 0 <= i <= totalHours
        invariant |newPlan| == i
        invariant forall j :: 0 <= j < i && j < |prev| ==> newPlan[j] == prev[j]
        invariant forall j :: |prev| <= j < i ==> newPlan[j] == EmptyHour(j)
      {
        if i < |prev| {
          newPlan := newPlan + [prev[i]];
        } else {
          newPlan := newPlan + [EmptyHour(i)];
        }
        i := i + 1;
      }
      plan := newPlan;
    }

    /** `setSettings`, followed by the resize effect when the goal time
        changed (the effect depends on the hours and minutes only). */
    method SetSettings(next: UserSettings)
      modifies this`settings, this`plan
      ensures settings == next
      ensures plan == if SameTime(old(settings), next) then old(plan)
                      else Resized(old(plan), PlanLength(next))
      ensures old(Valid()) ==> Valid()
    {
      var timeChanged := !SameTime(settings, next);
      settings := next;
      if timeChanged {
        SyncPlanLength();
      }
    }

    /** The goal-hours input. */
    method SetGoalHours(value: int)
      requires Valid()
      modifies this`settings, this`plan
      ensures settings == old(settings).(targetTimeHours := ClampGoalHours(value))
      ensures plan == Resized(old(plan), PlanLength(settings))
      ensures Valid()
    {
      SetSettings(settings.(targetTimeHours := ClampGoalHours(value)));
    }

    /** The goal-minutes input. */
    method SetGoalMinutes(value: int)
      requires Valid()
      modifies this`settings, this`plan
      ensures settings == old(settings).(targetTimeMinutes := ClampGoalMinutes(value))
      ensures plan == Resized(old(plan), PlanLength(settings))
      ensures Valid()
    {
      SetSettings(settings.(targetTimeMinutes := ClampGoalMinutes(value)));
    }

    /** The "Add Hour" button: one more goal hour, so one more empty bucket. */
    method AddHour()
      requires Valid()
      modifies this`settings, this`plan
      ensures settings == old(settings).(targetTimeHours := old(settings).targetTimeHours + 1)
      ensures plan == Resized(old(plan), PlanLength(settings))
      ensures PlanLength(settings) > 0 ==> plan == old(plan) + [EmptyHour(|old(plan)|)]
      ensures Valid()
    {
      SetSettings(settings.(targetTimeHours := settings.targetTimeHours + 1));
    }

    /** The three target sliders; the browser keeps each value within its
        slider's range and step. */
    method SetTargetCarbs(value: nat)
      requires 30 <= value <= 120 && value % 5 == 0
      modifies this`settings
      ensures settings == old(settings).(targetCarbsPerHour := value)
    {
      settings := settings.(targetCarbsPerHour := value);
    }

    method SetTargetSodium(value: nat)
      requires value <= 1000 && value % 50 == 0
      modifies this`settings
      ensures settings == old(settings).(targetSodiumPerHour := value)
    {
      settings := settings.(targetSodiumPerHour := value);
    }

    method SetTargetPotassium(value: nat)
      requires value <= 500 && value % 10 == 0
      modifies this`settings
      ensures settings == old(settings).(targetPotassiumPerHour := value)
    {
      settings := settings.(targetPotassiumPerHour := value);
    }

    /** Opening the picker for an hour, or closing it. */
    method SelectHour(hour: Option<int>)
      modifies this`selectedHour
      ensures selectedHour == hour
    {
      selectedHour := hour;
    }

    /** Typing in the search box clears the previous lookup result. */
    method SetSearchQuery(query: string)
      modifies this`searchQuery, this`searchResults
      ensures searchQuery == query && searchResults == []
    {
      searchQuery := query;
      searchResults := [];
    }

    /** The lookup's answer for a non-blank query: the item, or nothing. */
    method ReceiveSearchResult(result: Option<FuelItem>)
      modifies this`searchResults
      ensures IsBlank(searchQuery) ==> searchResults == old(searchResults)
      ensures !IsBlank(searchQuery) ==>
        searchResults == if result.Some? then [result.value] else []
    {
      if IsBlank(searchQuery) {
        return;
      }
      searchResults := if result.Some? then [result.value] else [];
    }

    method AddItemToHour(item: FuelItem, k: int)
      modifies this`plan
      ensures plan == App.AddItemToHour(old(plan), item, k)
      ensures old(Valid()) ==> Valid()
    {
      plan := App.AddItemToHour(plan, item, k);
    }

    /** `handleAddAiItem`: with an hour selected, the item goes into that
        hour, into the custom list unless its name is taken, and the search
        is cleared; with none selected nothing happens. */
    method AddAiItem(item: FuelItem)
      modifies this`plan, this`settings, this`searchQuery, this`searchResults
      ensures selectedHour == None ==>
        plan == old(plan) && settings == old(settings) &&
        searchQuery == old(searchQuery) && searchResults == old(searchResults)
      ensures selectedHour.Some? ==>
        plan == App.AddItemToHour(old(plan), item, selectedHour.value) &&
        settings == IngestCustomFuel(old(settings), item) &&
        searchQuery == "" && searchResults == []
      ensures old(Valid()) ==> Valid()
    {
      if selectedHour == None {
        return;
      }
      AddItemToHour(item, selectedHour.value);
      settings := IngestCustomFuel(settings, item);
      searchQuery := "";
      searchResults := [];
    }

    method RemoveItemFromHour(k: int, id: string)
      modifies this`plan
      ensures plan == App.RemoveItemFromHour(old(plan), k, id)
      ensures old(Valid()) ==> Valid()
    {
      plan := App.RemoveItemFromHour(plan, k, id);
    }

    method ToggleFuelVisibility(id: string)
      modifies this`settings
      ensures settings == App.ToggleFuelVisibility(old(settings), id)
      ensures old(Valid()) ==> Valid()
    {
      settings := App.ToggleFuelVisibility(settings, id);
    }

    /** Deletion happens only when the user confirms the dialog. */
    method DeleteCustomFuel(id: string, confirmed: bool)
      modifies this`settings
      ensures settings == if confirmed then App.DeleteCustomFuel(old(settings), id) else old(settings)
      ensures old(Valid()) ==> Valid()
    {
      if confirmed {
        settings := App.DeleteCustomFuel(settings, id);
      }
    }

    /** "Clear Current Plan", when confirmed: empty buckets for the goal time. */
    method ClearPlan(confirmed: bool)
      modifies this`plan
      ensures plan == if confirmed then EmptyPlan(PlanLength(settings)) else old(plan)
      ensures confirmed ==> Valid() && WellIndexed(plan)
      ensures old(Valid()) ==> Valid()
    {
      if confirmed {
        plan := EmptyPlan(PlanLength(settings));
        EmptyPlanIsFreshResize(PlanLength(settings));
      }
    }

    /** "Reset All Data", when confirmed: default settings and empty buckets
        for the default goal time. This rebuilds the plan directly rather
        than through the resize effect (see ResetPlanAsWritten). */
    method FactoryReset(confirmed: bool)
      modifies this`settings, this`plan
      ensures confirmed ==> settings == Constants.DefaultSettings && plan == ResetPlan()
      ensures !confirmed ==> settings == old(settings) && plan == old(plan)
      ensures confirmed ==> Valid() && |plan| == 4
      ensures old(Valid()) ==> Valid()
    {
      if confirmed {
        settings := Constants.DefaultSettings;
        plan := ResetPlan();
      }
    }
  }
}
