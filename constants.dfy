/** The built-in catalog and the default targets. */
module Constants {
  import opened Types

  const DefaultTargetCarbs: nat := 60
  const DefaultTargetSodium: nat := 400
  const DefaultTargetPotassium: nat := 100
  const MaxHours: nat := 7

  /** The bounds of the carbohydrate target slider (step 5). */
  const CarbsSliderMin: nat := 30
  const CarbsSliderMax: nat := 120

  /** A built-in item: every preset has a brand, sodium and potassium, and is
      not marked custom. */
  function Preset(id: string, name: string, brand: string, carbs: nat, fuelType: FuelType,
                  sodium: nat, caffeine: Option<nat>, potassium: nat): FuelItem
  {
    FuelItem(id, name, Some(brand), carbs, caffeine, Some(sodium), Some(potassium), fuelType, None)
  }

  const PresetFuels: seq<FuelItem> := [
    Preset("ritz-pb", "Ritz PB Sandwich (1)", "Ritz", 4, Solid, 48, None, 35),
    Preset("pretzel-nibs", "Sourdough Nibs (5)", "Snyder's", 7, Solid, 80, None, 20),
    Preset("maurten-100", "Gel 100", "Maurten", 25, Gel, 0, Some(0), 0),
    Preset("maurten-100-caf", "Gel 100 Caf 100", "Maurten", 25, Gel, 0, Some(100), 0),
    Preset("maurten-160", "Drink Mix 160", "Maurten", 39, Drink, 0, None, 0),
    Preset("maurten-320", "Drink Mix 320", "Maurten", 79, Drink, 0, None, 0),
    Preset("gu-orig", "Original Energy Gel", "GU", 22, Gel, 60, Some(20), 40),
    Preset("gu-roctane", "Roctane Gel", "GU", 21, Gel, 180, Some(35), 40),
    Preset("sis-iso", "Go Isotonic Gel", "SiS", 22, Gel, 10, None, 0),
    Preset("sis-beta", "Beta Fuel Gel", "SiS", 40, Gel, 0, None, 0),
    Preset("clif-blok", "Blok (1 piece)", "Clif", 8, Chew, 17, None, 20),
    Preset("skratch-chew", "Energy Chews (pack)", "Skratch", 38, Chew, 160, None, 40),
    Preset("swedish-fish", "Swedish Fish (1)", "Candy", 5, Chew, 5, None, 0),
    Preset("banana", "Banana (Medium)", "Whole Food", 27, Solid, 1, None, 422),
    Preset("dates", "Medjool Date (1)", "Whole Food", 18, Solid, 0, None, 167),
    Preset("dried-apricot", "Dried Apricot (1)", "Whole Food", 5, Solid, 0, None, 65),
    Preset("gatorade", "Gatorade Endurance (12oz)", "Gatorade", 22, Drink, 300, None, 140),
    Preset("tailwind", "Endurance Fuel (2 scoops)", "Tailwind", 50, Drink, 600, None, 180),
    Preset("precision-30", "PF 30 Gel", "Precision Fuel", 30, Gel, 0, None, 0),
    Preset("precision-90", "PF 90 Gel", "Precision Fuel", 90, Gel, 0, None, 0)
  ]

  /** The preset ids, in catalog order. */
  const PresetIds: seq<string> := [
    "ritz-pb", "pretzel-nibs", "maurten-100", "maurten-100-caf", "maurten-160",
    "maurten-320", "gu-orig", "gu-roctane", "sis-iso", "sis-beta", "clif-blok",
    "skratch-chew", "swedish-fish", "banana", "dates", "dried-apricot", "gatorade",
    "tailwind", "precision-30", "precision-90"
  ]

  lemma PresetIdsInOrder()
    ensures |PresetFuels| == |PresetIds| == 20
    ensures forall i :: 0 <= i < |PresetFuels| ==> PresetFuels[i].id == PresetIds[i]
  {
  }

  lemma PresetIdListDistinct()
    ensures forall i, j :: 0 <= i < j < |PresetIds| ==> PresetIds[i] != PresetIds[j]
  {
  }

  /** No two presets share an id, so an id names one catalog entry. */
  lemma PresetIdsDistinct()
    ensures |PresetFuels| == 20
    ensures forall i, j :: 0 <= i < j < |PresetFuels| ==> PresetFuels[i].id != PresetFuels[j].id
  {
    PresetIdsInOrder();
    PresetIdListDistinct();
    forall i, j | 0 <= i < j < |PresetFuels|
      ensures PresetFuels[i].id != PresetFuels[j].id
    {
      assert PresetFuels[i].id == PresetIds[i] && PresetFuels[j].id == PresetIds[j];
    }
  }

  lemma PresetsHaveCarbsAndBrand()
    ensures forall i :: 0 <= i < |PresetFuels| ==>
      PresetFuels[i].carbs > 0 && PresetFuels[i].brand.Some? && PresetFuels[i].isCustom == None
  {
  }

  lemma PresetsDefineElectrolytes()
    ensures forall i :: 0 <= i < |PresetFuels| ==>
      PresetFuels[i].sodium.Some? && PresetFuels[i].potassium.Some?
  {
  }

  /** Only three presets carry caffeine: 100 mg, 20 mg and 35 mg. */
  lemma PresetCaffeine()
    ensures forall i :: 0 <= i < |PresetFuels| ==>
      (PresetFuels[i].caffeine.GetOr(0) > 0 <==>
        PresetFuels[i].id in ["maurten-100-caf", "gu-orig", "gu-roctane"])
    ensures PresetFuels[3].id == "maurten-100-caf" && PresetFuels[3].caffeine == Some(100)
    ensures PresetFuels[6].id == "gu-orig" && PresetFuels[6].caffeine == Some(20)
    ensures PresetFuels[7].id == "gu-roctane" && PresetFuels[7].caffeine == Some(35)
  {
  }

  /** The settings used when nothing is stored: 3 h 30 min at the default targets. */
  const DefaultSettings: UserSettings :=
    UserSettings(3, 30, DefaultTargetCarbs, DefaultTargetSodium, DefaultTargetPotassium, None, [], [])

  lemma DefaultTargets()
    ensures DefaultSettings.targetCarbsPerHour == 60
    ensures DefaultSettings.targetSodiumPerHour == 400
    ensures DefaultSettings.targetPotassiumPerHour == 100
    ensures CarbsSliderMin <= DefaultTargetCarbs <= CarbsSliderMax
    ensures DefaultTargetCarbs % 5 == 0
    ensures MaxHours == 7
  {
  }
}
