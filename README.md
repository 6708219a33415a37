# Race-fuel planner: a verified model

This project models the core of a race-nutrition planner. A runner picks a
goal time. The plan gets one bucket per started hour. The runner fills each
bucket with fuel items (gels, chews, drinks, solid food) taken from a
built-in catalog, from their own custom items, or from an online
food-lookup service. Each bucket shows:

- its carbohydrate, sodium and potassium totals;
- a carbohydrate status (empty, under, on target, over) with its icons;
- the items, grouped by id with a count.

A chart shows one bar per hour, coloured by the same bands.

The model is split into modules:

- `Types` (types.dfy): the fuel item, hour plan and settings records.
- `Seqs` (seqs.dfy): sums and filters over sequences, the `reduce` and
  `filter` the source uses.
- `Text` (text.dfy): lower-casing, `includes` and `trim`-emptiness.
- `Constants` (constants.dfy): the twenty presets, the default targets,
  `MAX_HOURS` and the default settings.
- `HourlyBucket` (hourly_bucket.dfy): the per-hour card. It holds the
  totals, the progress percentage, the status bands and icons, the
  sodium/potassium tests and the grouping loop (a `method` with loop
  invariants, proved against the specification predicate `GroupsOf`).
- `App` (app.dfy): the handlers' pure transformations of the plan and the
  settings, and the derived views (catalog filter, picker count, chart).
- `AppSession` (session.dfy): the application root as a `class Session`.
  Its fields are the plan, the settings, the selected hour, the search
  text and the search results. Its methods are the handlers, each with a
  field frame and its exact new state. The resize effect is the method
  `SyncPlanLength`, a loop proved equal to `App.Resized`.

Thresholds that the source writes as `target * 0.8`, `* 0.9` and `* 1.1`
are compared exactly, scaled by ten (`10 * total < 8 * target`, and so on).
The progress percentage is computed on reals. Its `NaN` case (0 / 0) is
`None`.

## Model

| member | source | states |
|---|---|---|
| Constants.PresetIdsDistinct | constants.ts:17-38 | the catalog has 20 presets and no two share an id |
| Constants.PresetIdsInOrder | constants.ts:17-38 | the preset ids, in catalog order |
| Constants.PresetsHaveCarbsAndBrand | constants.ts:17-38 | every preset has positive carbohydrates and a brand, and is not marked custom |
| Constants.PresetsDefineElectrolytes | constants.ts:17-38 | every preset states its sodium and potassium |
| Constants.PresetCaffeine | constants.ts:17-38 | exactly three presets carry caffeine: Maurten Gel 100 Caf 100 (100 mg), GU Original (20 mg) and GU Roctane (35 mg) |
| Constants.DefaultTargets | constants.ts:4-7 | the defaults are 60 g carbohydrate, 400 mg sodium and 100 mg potassium per hour; the carbohydrate default lies on the slider's 5 g grid between 30 and 120; MAX_HOURS is 7 |
| HourlyBucket.TotalsAppend | components/HourlyBucket.tsx:25-27 | each total of a concatenation is the sum of the totals, with a missing sodium or potassium counted as 0 |
| HourlyBucket.TotalsOrderIndependent | components/HourlyBucket.tsx:25-27 | the totals depend only on the multiset of items, not their order |
| HourlyBucket.TotalsAddOne | components/HourlyBucket.tsx:25-27 | adding one item raises each total by exactly that item's amount |
| HourlyBucket.Percentage | components/HourlyBucket.tsx:29 | the bar width is capped at 120 and never negative; it is undefined (NaN) exactly when total and target are both 0; a positive total against a zero target gives 120 (`Math.min(Infinity, 120)`); it is exactly 120 once the total reaches 120 % of a positive target, and otherwise equals 100 * total / target |
| HourlyBucket.RatioScale | components/HourlyBucket.tsx:29 | the real ratio total / target * 100 is under 120 exactly when 100 * total < 120 * target |
| HourlyBucket.Status | components/HourlyBucket.tsx:47-61 | the four statuses partition the totals: empty iff the total is 0, under iff below 80 % of target, over iff above 110 %, and on target in between |
| HourlyBucket.IconBands | components/HourlyBucket.tsx:75-80 | the check and warning icons never show together; the warning shows exactly when the status is over; a shown check with a positive total means on target; at 85 % the status is on target but no check shows |
| HourlyBucket.StatusExamples | components/HourlyBucket.tsx:47-61 | 0, 79, 95 and 115 g against a 100 g target are empty, under, on target and over |
| HourlyBucket.MetIsMonotone | components/HourlyBucket.tsx:94-101 | once sodium or potassium is met, adding items keeps it met |
| HourlyBucket.IndexOfId | App.tsx:114 | `findIndex` by id: -1 exactly when no item has the id, otherwise the first item that has it |
| HourlyBucket.CountIdAppend | App.tsx:202 | the number of items with an id is additive over concatenation |
| HourlyBucket.CountIdAbsent | App.tsx:202 | an id no item carries is counted 0 times |
| HourlyBucket.IndexOfIdSnoc | App.tsx:114 | appending an item keeps an existing first position, and otherwise the new item is found at the end exactly when it has the id |
| HourlyBucket.GroupIndex | components/HourlyBucket.tsx:33 | the group lookup finds a group with the id, or -1 exactly when there is none |
| HourlyBucket.PrefixStep | components/HourlyBucket.tsx:32-38 | extending the scanned prefix by one item updates first positions and counts as the fold expects |
| HourlyBucket.GroupStep | components/HourlyBucket.tsx:33-36 | one step of the fold keeps the groups faithful, covering and ordered, and raises the total count by one |
| HourlyBucket.GroupStepNew | components/HourlyBucket.tsx:33-34 | an id not yet grouped gets a new last group holding that item with count 1 |
| HourlyBucket.GroupStepExisting | components/HourlyBucket.tsx:36 | an id already grouped has its count raised by one and nothing else changes |
| HourlyBucket.GroupItems | components/HourlyBucket.tsx:32-40 | each group holds the first item with its id and the number of items with that id; every id appears; groups follow first occurrence; the counts sum to the number of items; there are no groups exactly when the hour is empty |
| HourlyBucket.AddTwice | components/HourlyBucket.tsx:32-38 | adding the same new item twice shows one group with count 2 and twice its carbohydrates |
| Seqs.SumPermutation | components/HourlyBucket.tsx:25-27 | a `reduce` sum is the same for any reordering of the items |
| Seqs.FilterMember | App.tsx:67 | an element survives `filter` exactly when it was present and satisfies the predicate |
| Seqs.FilterAppend | App.tsx:67 | filtering distributes over concatenation, keeping order |
| Text.Lower | App.tsx:71 | lower-casing keeps the length and maps each character |
| Text.ContainsAt | App.tsx:73-74 | `includes` holds exactly when the needle occurs at some position |
| Text.ContainsLower | App.tsx:71-74 | a case-sensitive match is also found after lower-casing both sides |
| Text.MissingAtOffset | App.tsx:73-74 | a needle whose k-th character never lines up with the haystack is not included |
| App.CeilHours | App.tsx:41 | `Math.ceil(m / 60)` is the q with 60(q-1) < m <= 60q |
| App.PlanLengthOfGoalTime | App.tsx:41-48 | for a goal time within the input clamps the plan has one bucket per started hour |
| App.ClampGoalHours | App.tsx:317 | the hours input is at least 1 and keeps any value of 1 or more |
| App.ClampGoalMinutes | App.tsx:326 | the minutes input lies in 0..59 and keeps any value already in range |
| App.ClampedGoalTime | App.tsx:317-326 | whatever is typed, the plan has at least one bucket, one per started hour |
| App.Resized | App.tsx:45-55 | the resized plan has the goal length, is the old plan when the length already matches, keeps every surviving old hour unchanged and fills new hours with empty buckets indexed by position |
| App.ResizeKeepsIndexing | App.tsx:45-55 | a plan whose buckets are indexed by position stays so after resizing |
| App.GrowThenShrink | App.tsx:40-57 | raising the goal time and lowering it again gives back the original plan |
| App.ShrinkThenGrow | App.tsx:40-57 | lowering the goal time and raising it again keeps the early hours and empties the dropped ones |
| App.EmptyPlan | App.tsx:148-149 | the cleared plan has one empty bucket per hour, indexed by position |
| App.EmptyPlanIsFreshResize | App.tsx:146-152 | clearing produces what the resize effect builds from nothing |
| App.AddItemToHour | App.tsx:80-87 | adding appends the item to every bucket with that hour index and leaves all other buckets and all indices alone |
| App.AddToMissingHour | App.tsx:80-87 | adding to an hour index no bucket has changes nothing |
| App.RemoveFirstCounts | App.tsx:114-118 | removal takes out exactly the first item with the id when there is one, lowering its count by one, leaves the items when there is none, and keeps every other id's count |
| App.RemoveItemFromHour | App.tsx:111-122 | removing keeps the plan's length and indices, leaves buckets with another hour index alone, and in each bucket with that index removes exactly the first item with the id (`RemoveFirst`) |
| App.SnocThenRemoveCounts | App.tsx:80-122 | appending an item and removing its id leaves every id's count in the bucket as it was |
| App.AddThenRemoveCounts | App.tsx:80-122 | adding an item to an hour and removing its id restores every bucket's count of every id |
| App.AddThenRemoveRestoresPlan | App.tsx:80-122 | when the hour held no item with that id, add then remove restores the plan exactly |
| App.IndexOfHour | App.tsx:200 | `find` by hour index returns the first bucket with that index, or none exactly when no bucket has it |
| App.AddRaisesPickerCount | App.tsx:198-203 | after adding to the selected hour the picker shows one more of that item and the same count for every other item |
| App.RemoveLowersPickerCount | App.tsx:198-203 | after removing, the picker shows one fewer of that item, never below 0, and the same count for every other item |
| App.CatalogMembership | App.tsx:60-76 | an item is listed exactly when it is a preset or custom item, its id is not hidden, and the query is blank or its name or non-empty brand includes the query, ignoring case |
| App.BlankQueryCatalog | App.tsx:67-70 | a blank query lists the enabled presets followed by the enabled custom items, and with nothing hidden the whole catalog |
| App.EnabledSplits | App.tsx:62-67 | hiding ids filters presets and custom items separately and keeps their order |
| App.CatalogFindsExactName | App.tsx:72-74 | an enabled item whose name includes the query is listed |
| App.QueryFindsName | App.tsx:70-74 | the query "gel" finds Maurten's "Gel 100" |
| App.QueryIsNotTrimmed | App.tsx:70-74 | " gel" is not blank, yet it finds neither the name "Gel 100" nor the brand "Maurten": the query is trimmed only for the blank test |
| App.ThirdPreset | constants.ts:20 | the third preset is Maurten's "Gel 100" |
| App.IngestCustomFuel | App.tsx:96-104 | an item whose name is already taken, ignoring case, leaves the settings unchanged; otherwise it goes to the front of the custom list and nothing else changes |
| App.IngestIsIdempotent | App.tsx:96-104 | after ingestion the name is taken; ingesting the same item again changes nothing; custom names unique up to case stay unique |
| App.ToggleFlips | App.tsx:124-134 | toggling flips whether the id is hidden, leaves every other id alone, and toggling twice restores membership |
| App.ToggleFuelVisibility | App.tsx:124-134 | only the hidden-id list changes: the id becomes hidden exactly when it was visible, and every other id keeps its visibility |
| App.DeleteCustomFuel | App.tsx:136-144 | the custom list loses exactly the items with that id and the hidden list exactly that id, both keeping the order of what remains (a `filter`); nothing else changes |
| App.ChartData | App.tsx:205-209 | one bar per bucket, in order, carrying its hour index, its carbohydrate total and the target |
| App.ChartMatchesBuckets | App.tsx:488-490 | a bar is yellow, orange or emerald when its bucket is under, over or on target; an empty hour with a positive target is drawn yellow |
| App.AddChangesOneBar | App.tsx:80-87 | adding an item raises only the bars of buckets with that hour index, by that item's carbohydrates |
| App.ResetAsWrittenLeavesNoHours | App.tsx:154-162 | with the goal time already at the default 3 h 30 min, Reset All Data leaves the plan with no buckets, although the default time calls for 4 |
| App.ResetPlan | App.tsx:154-162 | the corrected reset plan has 4 empty buckets indexed by position |
| AppSession.Session.constructor | App.tsx:14-15 | start-up holds the stored settings and the stored plan (or none) resized to the goal time, with no hour selected and no search |
| AppSession.Session.SyncPlanLength | App.tsx:40-57 | the effect's loop leaves exactly `Resized(old plan, goal length)` and restores the length invariant |
| AppSession.Session.SetSettings | App.tsx:40-57 | new settings trigger the resize only when the goal time changed; the length invariant is kept |
| AppSession.Session.SetGoalHours | App.tsx:317 | the clamped hours replace the old ones and the plan is resized |
| AppSession.Session.SetGoalMinutes | App.tsx:326 | the clamped minutes replace the old ones and the plan is resized |
| AppSession.Session.AddHour | App.tsx:546 | the goal grows by one hour and one empty bucket is appended |
| AppSession.Session.SetTargetCarbs | App.tsx:339-345 | only the carbohydrate target changes, to a slider value 30..120 in steps of 5 |
| AppSession.Session.SetTargetSodium | App.tsx:353-359 | only the sodium target changes, to a slider value 0..1000 in steps of 50 |
| AppSession.Session.SetTargetPotassium | App.tsx:367-373 | only the potassium target changes, to a slider value 0..500 in steps of 10 |
| AppSession.Session.SelectHour | App.tsx:537-538 | opening or closing the picker sets the selected hour |
| AppSession.Session.SetSearchQuery | App.tsx:164-170 | typing replaces the search text and clears earlier results |
| AppSession.Session.ReceiveSearchResult | App.tsx:172-188 | a blank query triggers no lookup; otherwise the results are the returned item or nothing |
| AppSession.Session.AddItemToHour | App.tsx:80-87 | the plan becomes `App.AddItemToHour` of the old plan |
| AppSession.Session.AddAiItem | App.tsx:89-109 | with no hour selected nothing changes; otherwise the item is added to that hour, ingested into the custom list, and the search is cleared |
| AppSession.Session.RemoveItemFromHour | App.tsx:111-122 | the plan becomes `App.RemoveItemFromHour` of the old plan |
| AppSession.Session.ToggleFuelVisibility | App.tsx:124-134 | the settings become `App.ToggleFuelVisibility` of the old settings |
| AppSession.Session.DeleteCustomFuel | App.tsx:136-144 | the deletion happens only when confirmed |
| AppSession.Session.ClearPlan | App.tsx:146-152 | when confirmed, the plan becomes empty buckets for the goal time, indexed by position |
| AppSession.Session.FactoryReset | App.tsx:154-162 | when confirmed, default settings and 4 empty buckets whatever the previous goal time; otherwise nothing changes |

## Left out

- Local storage: loading, saving and clearing are left out. Start-up takes
  the stored settings and plan as constructor parameters
  (services/storageService.ts is not part of this model beyond
  DEFAULT_SETTINGS).
- The food-lookup and plan-analysis services: these are network calls into
  a language model. Their answer is a parameter of
  `Session.ReceiveSearchResult`. The loading flags, the error text and
  the analysis text are left out.
- The weather service (services/weatherService.ts): a geolocation and
  network lookup that nothing in App.tsx calls; it is not part of this
  model.
- The FuelCard component and the fuel-type icons: presentation only.
- The tab and mobile-menu state: presentation only.
- Confirmation dialogs: the user's answer is a `confirmed` parameter.
- React scheduling: each handler is modelled as one atomic state change.
  The effect that resizes the plan runs inside `SetSettings`,
  `SetGoalHours`, `SetGoalMinutes` and `AddHour`, exactly when the goal
  time changed.
- The "Add fuel" placeholder (`HourlyBucket.ShowAddPlaceholder`, shown when
  there are no groups) only opens the picker, which is `Session.SelectHour`.
- HourlyBucket.Percentage: computed on exact reals, not IEEE doubles. A
  positive total against a zero target is modelled as the cap 120 (the
  source's Infinity capped by `Math.min`).
- HourlyBucket.Status and App.BarColourOf: the band thresholds are compared
  exactly. The source compares against doubles such as `target * 1.1`,
  whose rounding can differ at the exact boundary.
- Text.Lower: lower-cases ASCII letters only. JavaScript's `toLowerCase`
  also folds the rest of Unicode.
- HourlyBucket.GroupItems: groups in first-occurrence order. `Object.values`
  keeps insertion order only for keys that are not array indices. Preset
  ids and the time-stamped custom ids are never such keys, so the
  model assumes it.
- App.CeilHours and App.PlanLength: assume whole hours and minutes. The
  number inputs can hold fractions; the model does not cover them.
- The custom-item ids made from the clock (`custom-<time>`) are an
  opaque part of the item.
- `MAX_HOURS` is imported by App.tsx but never used: "Add Hour" is
  unbounded, and so is `Session.AddHour`.
- The sodium slider runs from 0 to 1000 mg in steps of 50 (App.tsx:355),
  so `Session.SetTargetSodium` accepts exactly those values.
- Nutrient amounts (carbohydrates, sodium, potassium, caffeine) are whole,
  non-negative numbers in the model. The food-lookup service returns them
  as JSON numbers (services/geminiService.ts:27-29, 46-48), which may be
  fractional, and the app adds and compares them as they are; whole
  numbers keep the totals and thresholds exact integer arithmetic, and the
  laws proved here (additivity, order independence, monotonicity) hold
  for fractional amounts in the same way but are not proved for them.
- The search text is trimmed only to test for blankness; the substring
  test uses it untrimmed (`App.QueryIsNotTrimmed`). This follows the code.

## Findings

| source | as written | input that shows it | evidently intended | confidence | as-written member | corrected member |
|---|---|---|---|---|---|---|
| App.tsx:154-162 | Reset All Data sets the settings to the defaults and the plan to `[]`, relying on the resize effect to rebuild the buckets; that effect depends only on the goal hours and minutes | Reset All Data while the goal time is already 3 h 30 min: the effect does not run and the plan is left with no hours | after a reset the plan has the 4 empty buckets of the default goal time | medium, not executed | App.ResetAsWrittenLeavesNoHours | AppSession.Session.FactoryReset |
