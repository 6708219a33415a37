/** The entities of the fuel planner: catalog items, hour buckets and the
    user's settings. */
module Types {

  datatype Option<T> = None | Some(value: T) {
    /** The value, or `default` when absent (JavaScript's `x || d` for a
        non-negative number behaves the same: 0 and absent both give d = 0). */
    function GetOr(default: T): T {
      match this
      case Some(v) => v
      case None => default
    }
  }

  /** The closed set of fuel categories. */
  datatype FuelType = Gel | Chew | Drink | Solid | Other

  /** A catalog entry, or a value copy of one placed in an hour. */
  datatype FuelItem = FuelItem(
    id: string,
    name: string,
    brand: Option<string>,
    carbs: nat,
    caffeine: Option<nat>,
    sodium: Option<nat>,
    potassium: Option<nat>,
    fuelType: FuelType,
    isCustom: Option<bool>)

  /** One hour bucket: its index (0 for hour 1) and the items in it, in the
      order they were added. */
  datatype HourPlan = HourPlan(hourIndex: int, items: seq<FuelItem>)

  datatype UserSettings = UserSettings(
    targetTimeHours: int,
    targetTimeMinutes: int,
    targetCarbsPerHour: nat,
    targetSodiumPerHour: nat,
    targetPotassiumPerHour: nat,
    weight: Option<nat>,
    disabledFuelIds: seq<string>,
    customFuels: seq<FuelItem>)
}
