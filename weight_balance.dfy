/** The C-172S weight-and-balance load sheet: a per-aircraft Basic Empty
    Weight record, four load stations, fuel and fuel burn, and the three
    aggregates (Zero Fuel, Take-Off, Landing) whose arm is moment / weight.
    Weights, arms and moments are exact reals. */
module WeightBalance {
  import opened Outcomes

  /** One row of the sheet: weight in lb, arm in inches aft of datum, moment in lb-in. */
  datatype LoadItem = LoadItem(item: string, weight: real, arm: real, moment: real)

  /** The values read from the widgets. The sliders and integer inputs give
      integers; the flight-hours input gives a float. */
  datatype Loads = Loads(passengers: int, fuelGallons: int, hours: real,
                         rearSeats: int, baggage1: int, baggage2: int)

  /** The two ways building the sheet raises: a tail number that is not a key
      of the Basic Empty Weight table (KeyError), and an aggregate whose weight
      is zero (ZeroDivisionError when its arm is derived). */
  datatype SheetError = UnknownAircraft(tail: string) | ZeroWeight(item: string)

  const FRONT_ARM: real := 37.0
  const REAR_ARM: real := 73.0
  const BAGGAGE1_ARM: real := 95.0
  const BAGGAGE2_ARM: real := 123.0
  const FUEL_ARM: real := 48.0
  const LBS_PER_GALLON: real := 6.0
  const BURN_LBS_PER_HOUR: real := 60.0

  /** The choices offered by the aircraft selector. */
  const SELECTABLE_AIRCRAFT: seq<string> := ["C-FAQA", "C-FMNB", "C-CAU"]

  /** Basic Empty Weight record per tail number; the moments are stored
      constants, not recomputed from weight and arm. */
  const BASIC_EMPTY: map<string, LoadItem> := map[
    "C-FAQA" := LoadItem("Basic Empty Weight", 1665.47, 39.06, 65055.33),
    "C-FMNB" := LoadItem("Basic Empty Weight", 1701.0, 40.08, 69876.0),
    "C-FCAU" := LoadItem("Basic Empty Weight", 1734.0, 43.85, 76044.0)]

  /** The item names of the ten rows, in the order the sheet lists them. */
  const ROW_NAMES: seq<string> := [
    "Basic Empty Weight", "Pilot & Front Passengers", "Rear Seats",
    "Baggage Area 1", "Baggage Area 2", "Zero Fuel Weight",
    "Fuel(6lbs/US Gal)", "Take-Off Weight", "Fuel Burn", "Landing Weight"]

  /** The ranges the widgets allow (their step sizes are not needed). With
      "others" unticked the three optional loads are 0, which is in range. */
  predicate WithinWidgetRanges(l: Loads) {
    && 100 <= l.passengers <= 500
    && 10 <= l.fuelGallons <= 56
    && 0.5 <= l.hours <= 2.0
    && 0 <= l.rearSeats <= 200
    && 0 <= l.baggage1 <= 200
    && 0 <= l.baggage2 <= 200
  }

  // ---------------------------------------------------------------------------
  // Primary items: moment is weight times a fixed arm

  function Station(name: string, weight: int, arm: real): LoadItem {
    LoadItem(name, weight as real, arm, weight as real * arm)
  }

  function FuelItem(gallons: int): LoadItem {
    LoadItem("Fuel(6lbs/US Gal)", gallons as real * LBS_PER_GALLON, FUEL_ARM,
             gallons as real * LBS_PER_GALLON * FUEL_ARM)
  }

  /** Fuel consumed in flight, at a fixed 60 lb per hour, entered as a negative weight. */
  function FuelBurnItem(hours: real): LoadItem {
    var burn := hours * BURN_LBS_PER_HOUR;
    LoadItem("Fuel Burn", -burn, FUEL_ARM, -burn * FUEL_ARM)
  }

  // ---------------------------------------------------------------------------
  // Aggregates, specified as sums over their parts

  function TotalWeight(parts: seq<LoadItem>): real {
    if parts == [] then 0.0 else TotalWeight(parts[..|parts| - 1]) + parts[|parts| - 1].weight
  }

  function TotalMoment(parts: seq<LoadItem>): real {
    if parts == [] then 0.0 else TotalMoment(parts[..|parts| - 1]) + parts[|parts| - 1].moment
  }

  /** An aggregate row: weight and moment are the totals of its parts, and
      its arm is back-derived as moment / weight, which fails on zero weight. */
  function Aggregate(name: string, parts: seq<LoadItem>): Result<LoadItem, SheetError> {
    var w := TotalWeight(parts);
    var m := TotalMoment(parts);
    if w == 0.0 then Err(ZeroWeight(name)) else Ok(LoadItem(name, w, m / w, m))
  }

  /** The parts of each aggregate. Zero Fuel leaves out the Rear Seats item,
      as the program does; Take-Off adds Fuel and Landing adds Fuel Burn. */
  function ZeroFuelParts(base: LoadItem, l: Loads): seq<LoadItem> {
    [base,
     Station("Pilot & Front Passengers", l.passengers, FRONT_ARM),
     Station("Baggage Area 1", l.baggage1, BAGGAGE1_ARM),
     Station("Baggage Area 2", l.baggage2, BAGGAGE2_ARM)]
  }

  function TakeOffParts(base: LoadItem, l: Loads): seq<LoadItem> {
    ZeroFuelParts(base, l) + [FuelItem(l.fuelGallons)]
  }

  function LandingParts(base: LoadItem, l: Loads): seq<LoadItem> {
    TakeOffParts(base, l) + [FuelBurnItem(l.hours)]
  }

  /** The ten-row sheet for a given Basic Empty Weight record, or the first
      aggregate whose weight is zero. */
  function Sheet(base: LoadItem, l: Loads): Result<seq<LoadItem>, SheetError> {
    var zeroFuel := Aggregate("Zero Fuel Weight", ZeroFuelParts(base, l));
    var takeOff := Aggregate("Take-Off Weight", TakeOffParts(base, l));
    var landing := Aggregate("Landing Weight", LandingParts(base, l));
    if zeroFuel.Err? then Err(zeroFuel.error)
    else if takeOff.Err? then Err(takeOff.error)
    else if landing.Err? then Err(landing.error)
    else
      Ok([base,
          Station("Pilot & Front Passengers", l.passengers, FRONT_ARM),
          Station("Rear Seats", l.rearSeats, REAR_ARM),
          Station("Baggage Area 1", l.baggage1, BAGGAGE1_ARM),
          Station("Baggage Area 2", l.baggage2, BAGGAGE2_ARM),
          zeroFuel.value,
          FuelItem(l.fuelGallons),
          takeOff.value,
          FuelBurnItem(l.hours),
          landing.value])
  }

  /** The sheet for a selected tail number. */
  function LoadSheet(aircraft: string, l: Loads): Result<seq<LoadItem>, SheetError> {
    if aircraft in BASIC_EMPTY then Sheet(BASIC_EMPTY[aircraft], l)
    else Err(UnknownAircraft(aircraft))
  }

  // ---------------------------------------------------------------------------
  // The computation as the program performs it

  lemma {:induction false} TotalsOfFour(a: LoadItem, b: LoadItem, c: LoadItem, d: LoadItem)
    ensures TotalWeight([a, b, c, d]) == a.weight + b.weight + c.weight + d.weight
    ensures TotalMoment([a, b, c, d]) == a.moment + b.moment + c.moment + d.moment
  {
    TotalsOfSnoc([], a);
    assert [] + [a] == [a];
    TotalsOfSnoc([a], b);
    assert [a] + [b] == [a, b];
    TotalsOfSnoc([a, b], c);
    assert [a, b] + [c] == [a, b, c];
    TotalsOfSnoc([a, b, c], d);
    assert [a, b, c] + [d] == [a, b, c, d];
  }

  lemma TotalsOfSnoc(parts: seq<LoadItem>, x: LoadItem)
    ensures TotalWeight(parts + [x]) == TotalWeight(parts) + x.weight
    ensures TotalMoment(parts + [x]) == TotalMoment(parts) + x.moment
  {
  }

  /** Builds the sheet step by step: each aggregate starts with the
      placeholder arm -1, which is then replaced by moment / weight. */
  method ComputeLoadSheet(aircraft: string, l: Loads) returns (r: Result<seq<LoadItem>, SheetError>)
    ensures r == LoadSheet(aircraft, l)
  {
    if aircraft !in BASIC_EMPTY {
      return Err(UnknownAircraft(aircraft));
    }
    var base := BASIC_EMPTY[aircraft];
    var front := Station("Pilot & Front Passengers", l.passengers, FRONT_ARM);
    var rear := Station("Rear Seats", l.rearSeats, REAR_ARM);
    var bag1 := Station("Baggage Area 1", l.baggage1, BAGGAGE1_ARM);
    var bag2 := Station("Baggage Area 2", l.baggage2, BAGGAGE2_ARM);
    TotalsOfFour(base, front, bag1, bag2);
    TotalsOfSnoc(ZeroFuelParts(base, l), FuelItem(l.fuelGallons));
    TotalsOfSnoc(TakeOffParts(base, l), FuelBurnItem(l.hours));

    var zeroFuel := LoadItem("Zero Fuel Weight",
                             base.weight + front.weight + bag1.weight + bag2.weight,
                             -1.0,
                             base.moment + front.moment + bag1.moment + bag2.moment);
    if zeroFuel.weight == 0.0 {
      return Err(ZeroWeight(zeroFuel.item));
    }
    zeroFuel := zeroFuel.(arm := zeroFuel.moment / zeroFuel.weight);

    var fuel := FuelItem(l.fuelGallons);
    var takeOff := LoadItem("Take-Off Weight", fuel.weight + zeroFuel.weight, -1.0,
                            fuel.moment + zeroFuel.moment);
    if takeOff.weight == 0.0 {
      return Err(ZeroWeight(takeOff.item));
    }
    takeOff := takeOff.(arm := takeOff.moment / takeOff.weight);

    var burn := FuelBurnItem(l.hours);
    var landing := LoadItem("Landing Weight", takeOff.weight + burn.weight, -1.0,
                            takeOff.moment + burn.moment);
    if landing.weight == 0.0 {
      return Err(ZeroWeight(landing.item));
    }
    landing := landing.(arm := landing.moment / landing.weight);

    r := Ok([base, front, rear, bag1, bag2, zeroFuel, fuel, takeOff, burn, landing]);
  }

  // ---------------------------------------------------------------------------
  // Properties of the sheet

  /** The tail numbers that have a Basic Empty Weight record. */
  lemma TableKeys()
    ensures BASIC_EMPTY.Keys == {"C-FAQA", "C-FMNB", "C-FCAU"}
  {
  }

  /** Of the three selectable aircraft, "C-CAU" has no record (the table key
      is "C-FCAU"), so selecting it fails whatever the loads. */
  lemma SelectingCCauFails(l: Loads)
    ensures "C-CAU" in SELECTABLE_AIRCRAFT && "C-CAU" !in BASIC_EMPTY
    ensures LoadSheet("C-CAU", l) == Err(UnknownAircraft("C-CAU"))
    ensures forall t :: t in SELECTABLE_AIRCRAFT && t != "C-CAU" ==> t in BASIC_EMPTY
  {
  }

  /** The sheet has ten rows named in the fixed order, and its first row is
      the stored record of the selected aircraft, passed through unchanged. */
  lemma SheetLayout(aircraft: string, l: Loads)
    requires LoadSheet(aircraft, l).Ok?
    ensures aircraft in BASIC_EMPTY
    ensures var s := LoadSheet(aircraft, l).value;
      && |s| == |ROW_NAMES| == 10
      && s[0] == BASIC_EMPTY[aircraft]
      && forall k :: 0 <= k < |s| ==> s[k].item == ROW_NAMES[k]
  {
  }

  /** Each station row carries the entered weight, its fixed arm, and the
      moment weight * arm. */
  lemma StationRows(aircraft: string, l: Loads)
    requires LoadSheet(aircraft, l).Ok?
    ensures var s := LoadSheet(aircraft, l).value;
      && s[1].weight == l.passengers as real && s[1].arm == 37.0 && s[1].moment == s[1].weight * 37.0
      && s[2].weight == l.rearSeats as real && s[2].arm == 73.0 && s[2].moment == s[2].weight * 73.0
      && s[3].weight == l.baggage1 as real && s[3].arm == 95.0 && s[3].moment == s[3].weight * 95.0
      && s[4].weight == l.baggage2 as real && s[4].arm == 123.0 && s[4].moment == s[4].weight * 123.0
  {
  }

  /** Zero Fuel weight and moment are the sums of Basic Empty, Front,
      Baggage 1 and Baggage 2; Rear Seats is not among them. */
  lemma ZeroFuelRow(aircraft: string, l: Loads)
    requires LoadSheet(aircraft, l).Ok?
    ensures var s := LoadSheet(aircraft, l).value;
      && s[5].weight == s[0].weight + s[1].weight + s[3].weight + s[4].weight
      && s[5].moment == s[0].moment + s[1].moment + s[3].moment + s[4].moment
  {
    var b := BASIC_EMPTY[aircraft];
    TotalsOfFour(b, Station("Pilot & Front Passengers", l.passengers, FRONT_ARM),
                 Station("Baggage Area 1", l.baggage1, BAGGAGE1_ARM),
                 Station("Baggage Area 2", l.baggage2, BAGGAGE2_ARM));
  }

  /** Changing only the Rear Seats weight changes only the Rear Seats row:
      neither the aggregates nor whether the sheet can be built depend on it. */
  lemma RearSeatsNoEffect(aircraft: string, l: Loads, rear: int)
    ensures var l' := l.(rearSeats := rear);
      && (LoadSheet(aircraft, l).Err? ==> LoadSheet(aircraft, l') == LoadSheet(aircraft, l))
      && (LoadSheet(aircraft, l).Ok? ==>
            LoadSheet(aircraft, l').Ok? &&
            LoadSheet(aircraft, l').value
              == LoadSheet(aircraft, l).value[2 := Station("Rear Seats", rear, REAR_ARM)])
  {
  }

  /** Every aggregate has a non-zero weight and an arm equal to moment / weight. */
  lemma AggregateArms(aircraft: string, l: Loads)
    requires LoadSheet(aircraft, l).Ok?
    ensures var s := LoadSheet(aircraft, l).value;
      && s[5].weight != 0.0 && s[5].arm == s[5].moment / s[5].weight
      && s[7].weight != 0.0 && s[7].arm == s[7].moment / s[7].weight
      && s[9].weight != 0.0 && s[9].arm == s[9].moment / s[9].weight
  {
  }

  /** Fuel is 6 lb per gallon at arm 48, and Take-Off is Zero Fuel plus Fuel,
      weight and moment alike. */
  lemma TakeOffRow(aircraft: string, l: Loads)
    requires LoadSheet(aircraft, l).Ok?
    ensures var s := LoadSheet(aircraft, l).value; var g := l.fuelGallons as real;
      && s[6].weight == g * 6.0 && s[6].arm == 48.0 && s[6].moment == g * 288.0
      && s[7].weight == s[5].weight + s[6].weight
      && s[7].moment == s[5].moment + s[6].moment
  {
  }

  /** Fuel Burn is -(60 * hours) at arm 48, so Landing is Take-Off less
      60 lb and 2880 lb-in per hour of flight. */
  lemma LandingRow(aircraft: string, l: Loads)
    requires LoadSheet(aircraft, l).Ok?
    ensures var s := LoadSheet(aircraft, l).value; var h := l.hours;
      && s[8].weight == -(h * 60.0) && s[8].arm == 48.0 && s[8].moment == -(h * 2880.0)
      && s[9].weight == s[7].weight - 60.0 * h
      && s[9].moment == s[7].moment - 2880.0 * h
  {
  }

  /** When the sheet cannot be built: an unknown tail number, or one of the
      three aggregate weights (written out in the loads) is zero. */
  lemma SheetErrors(aircraft: string, l: Loads)
    ensures LoadSheet(aircraft, l) == Err(UnknownAircraft(aircraft)) <==> aircraft !in BASIC_EMPTY
    ensures aircraft in BASIC_EMPTY ==>
      var zf := BASIC_EMPTY[aircraft].weight + l.passengers as real + l.baggage1 as real + l.baggage2 as real;
      var to := zf + l.fuelGallons as real * 6.0;
      var ld := to - l.hours * 60.0;
      && (LoadSheet(aircraft, l) == Err(ZeroWeight("Zero Fuel Weight")) <==> zf == 0.0)
      && (LoadSheet(aircraft, l) == Err(ZeroWeight("Take-Off Weight")) <==> zf != 0.0 && to == 0.0)
      && (LoadSheet(aircraft, l) == Err(ZeroWeight("Landing Weight")) <==> zf != 0.0 && to != 0.0 && ld == 0.0)
      && (LoadSheet(aircraft, l).Ok? <==> zf != 0.0 && to != 0.0 && ld != 0.0)
  {
    if aircraft in BASIC_EMPTY {
      var b := BASIC_EMPTY[aircraft];
      TotalsOfFour(b, Station("Pilot & Front Passengers", l.passengers, FRONT_ARM),
                   Station("Baggage Area 1", l.baggage1, BAGGAGE1_ARM),
                   Station("Baggage Area 2", l.baggage2, BAGGAGE2_ARM));
      TotalsOfSnoc(ZeroFuelParts(b, l), FuelItem(l.fuelGallons));
      TotalsOfSnoc(TakeOffParts(b, l), FuelBurnItem(l.hours));
    }
  }

  /** Within the widget ranges, every recorded aircraft gets a sheet, and all
      three aggregate weights are strictly positive (the lightest record is
      1665.47 lb), so every arm division is defined. */
  lemma WidgetRangesGiveSheet(aircraft: string, l: Loads)
    requires aircraft in BASIC_EMPTY && WithinWidgetRanges(l)
    ensures LoadSheet(aircraft, l).Ok?
    ensures var s := LoadSheet(aircraft, l).value;
      && s[5].weight >= 1765.47
      && s[7].weight >= 1825.47
      && s[9].weight >= 1705.47
  {
    SheetErrors(aircraft, l);
    assert BASIC_EMPTY[aircraft].weight >= 1665.47;
    ZeroFuelRow(aircraft, l);
    TakeOffRow(aircraft, l);
    LandingRow(aircraft, l);
  }

  /** More fuel, everything else equal: Take-Off and Landing weights rise by
      6 lb per gallon, and the Zero Fuel row does not change. */
  lemma MoreFuelHeavierTakeOff(aircraft: string, l: Loads, gallons: int)
    requires l.fuelGallons < gallons
    requires LoadSheet(aircraft, l).Ok? && LoadSheet(aircraft, l.(fuelGallons := gallons)).Ok?
    ensures var s := LoadSheet(aircraft, l).value;
      var s' := LoadSheet(aircraft, l.(fuelGallons := gallons)).value;
      && s'[5] == s[5]
      && s'[7].weight == s[7].weight + 6.0 * (gallons - l.fuelGallons) as real > s[7].weight
      && s'[9].weight == s[9].weight + 6.0 * (gallons - l.fuelGallons) as real > s[9].weight
  {
  }

  /** The default loads for C-FAQA: 360 lb in front, 20 gallons, one hour. */
  lemma DefaultLoadsSheet()
    ensures var r := LoadSheet("C-FAQA", Loads(360, 20, 1.0, 0, 0, 0));
      && r.Ok?
      && r.value[6].weight == 120.0 && r.value[6].moment == 5760.0
      && r.value[5].weight == 2025.47
      && r.value[7].weight == 2145.47
      && r.value[8].weight == -60.0
      && r.value[9].weight == 2085.47
  {
    var l := Loads(360, 20, 1.0, 0, 0, 0);
    SheetErrors("C-FAQA", l);
    ZeroFuelRow("C-FAQA", l);
    TakeOffRow("C-FAQA", l);
    LandingRow("C-FAQA", l);
  }
}
