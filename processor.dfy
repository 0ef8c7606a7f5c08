/** The `Processor` object: the server-side storage that every polling
    cycle reads into, runs the rules over in place, and diffs; plus the two
    light gates the settings form goes through. The source keeps this state
    at class level behind a singleton, so one object stands for it here. */
module Home {
  import opened Values
  import opened Rules
  import opened Merge
  import opened Changes

  class Processor {
    /** Controller name to last known value, including the two setpoints. */
    var storage: Snapshot
    /** How many leak alerts have been mailed. */
    var alertsSent: nat

    /** The storage starts out holding only the two default setpoints. */
    constructor ()
      ensures storage == Seed && alertsSent == 0
    {
      storage := Seed;
      alertsSent := 0;
    }

    /** The polling step of `_read_all_controllers`: each fetched position
        first gets a `None` placeholder if its name is new, then its value;
        afterwards the setpoints from the settings store overwrite the
        fetched ones. `hot` and `bedroom` are the two stored settings, or
        `None` when the store has no such row. */
    method ReadAllControllers(fetched: seq<Position>, hot: Option<Val>, bedroom: Option<Val>)
      modifies this
      ensures storage == WithSetpoints(Merged(old(storage), fetched), hot, bedroom)
      ensures alertsSent == old(alertsSent)
    {
      var i := 0;
      while i < |fetched|
        invariant 0 <= i <= |fetched|
        invariant storage == Merged(old(storage), fetched[..i])
        invariant alertsSent == old(alertsSent)
      {
        var position := fetched[i];
        if position.name !in storage {
          storage := storage[position.name := Null];
        }
        storage := storage[position.name := position.value];
        assert fetched[..i + 1][..i] == fetched[..i];
        i := i + 1;
      }
      assert fetched[..i] == fetched;
      if hot.Some? {
        storage := storage[HotWaterTarget := hot.value];
        if bedroom.Some? {
          storage := storage[BedroomTarget := bedroom.value];
        }
      }
    }

    /** `check_signalization`: the six rules as in-place writes to the
        storage, in source order, each rule testing the storage as the
        previous ones left it. A truthy leak detector mails one alert. */
    method CheckSignalization()
      requires Ready(storage)
      modifies this
      ensures storage == Cascade(old(storage))
      ensures alertsSent == old(alertsSent) + (if Truthy(old(storage)[LeakDetector]) then 1 else 0)
    {
      ghost var s := storage;
      ApplyBedroomClimate();
      ApplyWaterHeating();
      assert Kept(s, BedroomClimate(s), LeakDetector);
      assert Kept(BedroomClimate(s), storage, LeakDetector);
      ApplyLeakShutOff();
      assert storage == RulesOneToThree(s);
      ApplyColdWaterDependency();
      ApplySmokeOverride();
      assert storage == RulesOneToFive(s);
      ApplyCurtainRule();
    }

    /** Rule 1: the bedroom air conditioner. */
    method ApplyBedroomClimate()
      requires BedroomInputs(storage)
      modifies this
      ensures storage == BedroomClimate(old(storage)) && alertsSent == old(alertsSent)
    {
      if Num(storage[BedroomTemperature]) > 1.1 * Num(storage[BedroomTarget]) {
        storage := storage[AirConditioner := B(true)];
      }
      if Num(storage[BedroomTemperature]) < 0.9 * Num(storage[BedroomTarget]) {
        storage := storage[AirConditioner := B(false)];
      }
    }

    /** Rule 2: a TypeError from either comparison skips the rule. */
    method ApplyWaterHeating()
      requires BoilerTemperature in storage && HotWaterTarget in storage
      modifies this
      ensures storage == WaterHeating(old(storage)) && alertsSent == old(alertsSent)
    {
      if WaterNumeric(storage) {
        if Num(storage[BoilerTemperature]) < 0.9 * Num(storage[HotWaterTarget]) {
          storage := storage[Boiler := B(true)];
        }
        if Num(storage[BoilerTemperature]) >= 1.1 * Num(storage[HotWaterTarget]) {
          storage := storage[Boiler := B(false)];
        }
      }
    }

    /** Rule 3: a leak mails one alert and shuts both water supplies. */
    method ApplyLeakShutOff()
      requires LeakDetector in storage
      modifies this
      ensures storage == LeakShutOff(old(storage))
      ensures alertsSent == old(alertsSent) + (if Truthy(old(storage)[LeakDetector]) then 1 else 0)
    {
      if Truthy(storage[LeakDetector]) {
        alertsSent := alertsSent + 1;
        storage := storage[ColdWater := B(false)];
        storage := storage[HotWater := B(false)];
      }
    }

    /** Rule 4: no cold water, no boiler and no washing machine. */
    method ApplyColdWaterDependency()
      requires ColdWater in storage
      modifies this
      ensures storage == ColdWaterDependency(old(storage)) && alertsSent == old(alertsSent)
    {
      if !Truthy(storage[ColdWater]) {
        storage := storage[Boiler := B(false)];
        storage := storage[WashingMachine := Off];
      }
    }

    /** Rule 5: smoke switches off every appliance and both lights. */
    method ApplySmokeOverride()
      requires SmokeDetector in storage
      modifies this
      ensures storage == SmokeOverride(old(storage)) && alertsSent == old(alertsSent)
    {
      if Truthy(storage[SmokeDetector]) {
        storage := storage[AirConditioner := B(false)];
        storage := storage[BedroomLight := B(false)];
        storage := storage[BathroomLight := B(false)];
        storage := storage[Boiler := B(false)];
        storage := storage[WashingMachine := Off];
      }
    }

    /** Rule 6: the curtains follow the outdoor light. */
    method ApplyCurtainRule()
      requires CurtainInputs(storage)
      modifies this
      ensures storage == CurtainRule(old(storage)) && alertsSent == old(alertsSent)
    {
      if Num(storage[OutdoorLight]) < DaylightThreshold && storage[BedroomLight] == B(false)
        && storage[Curtains] != SlightlyOpen
      {
        storage := storage[Curtains := Open];
      } else if Num(storage[OutdoorLight]) > DaylightThreshold && storage[Curtains] != SlightlyOpen {
        storage := storage[Curtains := Close];
      }
    }

    /** `control_bedroom_light` and `control_bathroom_light`, which have
        the same body: pass the requested value through unless the smoke
        detector is set, in which case the light stays off. */
    function ControlLight(val: Val): (r: Val)
      reads this
      requires SmokeDetector in storage
      ensures Truthy(storage[SmokeDetector]) ==> r == B(false)
      ensures !Truthy(storage[SmokeDetector]) ==> r == val
    {
      if !Truthy(storage[SmokeDetector]) then val else B(false)
    }

    /** The gate agrees with the smoke rule of the cascade: what it lets
        through for a light is what rule 5 would leave on that light. */
    lemma LightGateMatchesSmokeRule(light: string, val: Val)
      requires light == BedroomLight || light == BathroomLight
      requires SmokeDetector in storage
      ensures ControlLight(val) == SmokeOverride(storage[light := val])[light]
    {
      var s := storage[light := val];
      assert s[SmokeDetector] == storage[SmokeDetector];
      assert !Truthy(s[SmokeDetector]) ==> Kept(s, SmokeOverride(s), light);
    }

    /** One run of `smart_home_manager`: poll, copy, run the rules, copy
        again, and publish the minimal diff if it is not empty. The
        returned value is what is posted to the API, or `None` when
        nothing is. */
    method SmartHomeManager(fetched: seq<Position>, hot: Option<Val>, bedroom: Option<Val>)
      returns (published: Option<Snapshot>)
      requires Ready(WithSetpoints(Merged(storage, fetched), hot, bedroom))
      modifies this
      ensures var d1 := WithSetpoints(Merged(old(storage), fetched), hot, bedroom);
        && storage == Cascade(d1)
        && alertsSent == old(alertsSent) + (if Truthy(d1[LeakDetector]) then 1 else 0)
        && d1.Keys <= storage.Keys
        && published == if Diff(d1, storage) == map[] then None else Some(Diff(d1, storage))
    {
      ReadAllControllers(fetched, hot, bedroom);
      var d1 := storage;
      CheckSignalization();
      var d2 := storage;
      CascadeTouchesOnlyDevices(d1);
      var d := MinimalDiff(d1, d2);
      if |d| > 0 {
        published := Some(d);
      } else {
        published := None;
      }
    }
  }
}
