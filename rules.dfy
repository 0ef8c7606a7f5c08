/** The rule cascade of `Processor.check_signalization`: six rules applied
    in a fixed order to one snapshot, each a conditional write of device
    keys, later rules overriding earlier ones. Each rule is a function from
    snapshot to snapshot; `Cascade` composes them in source order, and
    `Expected` states the same outcome independently, key by key, as a
    priority table. */
module Rules {
  import opened Values

  // Sensor and setpoint names the rules read.
  const BedroomTemperature: string := "bedroom_temperature"
  const BedroomTarget: string := "bedroom_target_temperature"
  const BoilerTemperature: string := "boiler_temperature"
  const HotWaterTarget: string := "hot_water_target_temperature"
  const LeakDetector: string := "leak_detector"
  const SmokeDetector: string := "smoke_detector"
  const OutdoorLight: string := "outdoor_light"

  // Device names the rules write.
  const AirConditioner: string := "air_conditioner"
  const Boiler: string := "boiler"
  const ColdWater: string := "cold_water"
  const HotWater: string := "hot_water"
  const WashingMachine: string := "washing_machine"
  const BedroomLight: string := "bedroom_light"
  const BathroomLight: string := "bathroom_light"
  const Curtains: string := "curtains"

  /** Every key the cascade may write; no other key is ever touched. */
  const DeviceKeys: set<string> :=
    {AirConditioner, Boiler, ColdWater, HotWater, WashingMachine, BedroomLight, BathroomLight, Curtains}

  const Off: Val := S("off")
  const Open: Val := S("open")
  const Close: Val := S("close")
  /** The manual curtain position that no rule overwrites. */
  const SlightlyOpen: Val := S("slightly_open")

  /** The light level at which the curtains are left alone. */
  const DaylightThreshold: real := 50.0

  /** `r` keeps key `k` as `s` has it: same presence, same value. */
  ghost predicate Kept(s: Snapshot, r: Snapshot, k: string) {
    (k in r <==> k in s) && (k in s ==> r[k] == s[k])
  }

  /** `s` and `r` agree on every key outside `keys`. */
  ghost predicate SameOutside(s: Snapshot, r: Snapshot, keys: set<string>) {
    forall k :: k !in keys ==> Kept(s, r, k)
  }

  // ---------------------------------------------------------------------
  // Rule 1: bedroom air conditioner with a hysteresis band

  predicate BedroomInputs(s: Snapshot) {
    && BedroomTemperature in s && IsNumber(s[BedroomTemperature])
    && BedroomTarget in s && IsNumber(s[BedroomTarget])
  }

  /** Switch the air conditioner on above 110% of the bedroom target and
      off below 90% of it; the later write wins when both hold. */
  function BedroomClimate(s: Snapshot): (r: Snapshot)
    requires BedroomInputs(s)
    ensures SameOutside(s, r, {AirConditioner})
    ensures var t, target := Num(s[BedroomTemperature]), Num(s[BedroomTarget]);
      && (t < 0.9 * target ==> AirConditioner in r && r[AirConditioner] == B(false))
      && (t > 1.1 * target && !(t < 0.9 * target) ==> AirConditioner in r && r[AirConditioner] == B(true))
      && (!(t > 1.1 * target) && !(t < 0.9 * target) ==> Kept(s, r, AirConditioner))
  {
    var t, target := Num(s[BedroomTemperature]), Num(s[BedroomTarget]);
    var s1 := if t > 1.1 * target then s[AirConditioner := B(true)] else s;
    if t < 0.9 * target then s1[AirConditioner := B(false)] else s1
  }

  // ---------------------------------------------------------------------
  // Rule 2: boiler with a hysteresis band, skipped on non-numeric operands

  /** Both boiler operands are numbers, so neither comparison raises the
      TypeError that the source catches and ignores. */
  predicate WaterNumeric(s: Snapshot)
    requires BoilerTemperature in s && HotWaterTarget in s
  {
    IsNumber(s[BoilerTemperature]) && IsNumber(s[HotWaterTarget])
  }

  /** Switch the boiler on below 90% of the hot-water target and off at or
      above 110% of it; a non-numeric operand leaves the snapshot as it is. */
  function WaterHeating(s: Snapshot): (r: Snapshot)
    requires BoilerTemperature in s && HotWaterTarget in s
    ensures SameOutside(s, r, {Boiler})
    ensures !WaterNumeric(s) ==> Kept(s, r, Boiler)
    ensures WaterNumeric(s) ==>
      var t, target := Num(s[BoilerTemperature]), Num(s[HotWaterTarget]);
      && (t >= 1.1 * target ==> Boiler in r && r[Boiler] == B(false))
      && (t < 0.9 * target && !(t >= 1.1 * target) ==> Boiler in r && r[Boiler] == B(true))
      && (!(t < 0.9 * target) && !(t >= 1.1 * target) ==> Kept(s, r, Boiler))
  {
    if !WaterNumeric(s) then s
    else
      var t, target := Num(s[BoilerTemperature]), Num(s[HotWaterTarget]);
      var s1 := if t < 0.9 * target then s[Boiler := B(true)] else s;
      if t >= 1.1 * target then s1[Boiler := B(false)] else s1
  }

  // ---------------------------------------------------------------------
  // Rule 3: a leak shuts off both water supplies

  function LeakShutOff(s: Snapshot): (r: Snapshot)
    requires LeakDetector in s
    ensures SameOutside(s, r, {ColdWater, HotWater})
    ensures Truthy(s[LeakDetector]) ==>
      ColdWater in r && HotWater in r && r[ColdWater] == B(false) && r[HotWater] == B(false)
    ensures !Truthy(s[LeakDetector]) ==> Kept(s, r, ColdWater) && Kept(s, r, HotWater)
  {
    if Truthy(s[LeakDetector]) then s[ColdWater := B(false)][HotWater := B(false)] else s
  }

  // ---------------------------------------------------------------------
  // Rule 4: no cold water, no boiler and no washing machine

  function ColdWaterDependency(s: Snapshot): (r: Snapshot)
    requires ColdWater in s
    ensures SameOutside(s, r, {Boiler, WashingMachine})
    ensures !Truthy(s[ColdWater]) ==>
      Boiler in r && WashingMachine in r && r[Boiler] == B(false) && r[WashingMachine] == Off
    ensures Truthy(s[ColdWater]) ==> Kept(s, r, Boiler) && Kept(s, r, WashingMachine)
  {
    if !Truthy(s[ColdWater]) then s[Boiler := B(false)][WashingMachine := Off] else s
  }

  // ---------------------------------------------------------------------
  // Rule 5: smoke switches off every appliance and both lights

  function SmokeOverride(s: Snapshot): (r: Snapshot)
    requires SmokeDetector in s
    ensures SameOutside(s, r, {AirConditioner, BedroomLight, BathroomLight, Boiler, WashingMachine})
    ensures Truthy(s[SmokeDetector]) ==>
      && AirConditioner in r && r[AirConditioner] == B(false)
      && BedroomLight in r && r[BedroomLight] == B(false)
      && BathroomLight in r && r[BathroomLight] == B(false)
      && Boiler in r && r[Boiler] == B(false)
      && WashingMachine in r && r[WashingMachine] == Off
    ensures !Truthy(s[SmokeDetector]) ==>
      && Kept(s, r, AirConditioner) && Kept(s, r, BedroomLight) && Kept(s, r, BathroomLight)
      && Kept(s, r, Boiler) && Kept(s, r, WashingMachine)
  {
    if Truthy(s[SmokeDetector]) then
      s[AirConditioner := B(false)][BedroomLight := B(false)][BathroomLight := B(false)]
       [Boiler := B(false)][WashingMachine := Off]
    else s
  }

  // ---------------------------------------------------------------------
  // Rule 6: curtains follow the outdoor light, except when slightly open

  /** The keys the curtain rule reads exist, and the light level is a number.
      The bedroom light is read only below the threshold, and the curtains
      only when one of the two branches can still fire. */
  predicate CurtainInputs(s: Snapshot) {
    && OutdoorLight in s && IsNumber(s[OutdoorLight])
    && (Num(s[OutdoorLight]) < DaylightThreshold ==> BedroomLight in s)
    && (Num(s[OutdoorLight]) < DaylightThreshold && s[BedroomLight] == B(false) ==> Curtains in s)
    && (Num(s[OutdoorLight]) > DaylightThreshold ==> Curtains in s)
  }

  /** Open the curtains in the dark when the bedroom light is the boolean
      `False` (identity, not truthiness), close them in daylight, and never
      move them out of the slightly-open position. */
  function CurtainRule(s: Snapshot): (r: Snapshot)
    requires CurtainInputs(s)
    ensures SameOutside(s, r, {Curtains})
    ensures Curtains in s && s[Curtains] == SlightlyOpen ==> Kept(s, r, Curtains)
    ensures Num(s[OutdoorLight]) == DaylightThreshold ==> Kept(s, r, Curtains)
    ensures Num(s[OutdoorLight]) < DaylightThreshold && s[BedroomLight] != B(false) ==> Kept(s, r, Curtains)
    ensures Num(s[OutdoorLight]) < DaylightThreshold && s[BedroomLight] == B(false) && s[Curtains] != SlightlyOpen ==>
      Curtains in r && r[Curtains] == Open
    ensures Num(s[OutdoorLight]) > DaylightThreshold && s[Curtains] != SlightlyOpen ==>
      Curtains in r && r[Curtains] == Close
  {
    var light := Num(s[OutdoorLight]);
    if light < DaylightThreshold && s[BedroomLight] == B(false) && s[Curtains] != SlightlyOpen then
      s[Curtains := Open]
    else if light > DaylightThreshold && s[Curtains] != SlightlyOpen then
      s[Curtains := Close]
    else
      s
  }

  // ---------------------------------------------------------------------
  // The cascade

  /** The bedroom light as the curtain rule sees it, after the smoke rule. */
  function LightAfterSmoke(s: Snapshot): Val
    requires SmokeDetector in s
    requires !Truthy(s[SmokeDetector]) ==> BedroomLight in s
  {
    if Truthy(s[SmokeDetector]) then B(false) else s[BedroomLight]
  }

  /** The snapshot holds every key `check_signalization` reads, with a
      number wherever an uncaught comparison needs one, so the cascade runs
      to completion without a KeyError or a TypeError. */
  predicate Ready(s: Snapshot) {
    && BedroomInputs(s)
    && BoilerTemperature in s && HotWaterTarget in s
    && LeakDetector in s
    && (ColdWater in s || Truthy(s[LeakDetector]))
    && SmokeDetector in s
    && OutdoorLight in s && IsNumber(s[OutdoorLight])
    && (Num(s[OutdoorLight]) < DaylightThreshold && !Truthy(s[SmokeDetector]) ==> BedroomLight in s)
    && (Num(s[OutdoorLight]) < DaylightThreshold && LightAfterSmoke(s) == B(false) ==> Curtains in s)
    && (Num(s[OutdoorLight]) > DaylightThreshold ==> Curtains in s)
  }

  /** Rules 1 to 4 in source order: they write neither the lights nor the
      curtains, and read no sensor that a later rule reads. */
  function RulesOneToFour(s: Snapshot): (s4: Snapshot)
    requires Ready(s)
    ensures SmokeDetector in s4 && s4[SmokeDetector] == s[SmokeDetector]
    ensures Kept(s, s4, OutdoorLight) && Kept(s, s4, Curtains) && Kept(s, s4, BedroomLight)
  {
    var s3 := RulesOneToThree(s);
    var s4 := ColdWaterDependency(s3);
    assert Kept(s3, s4, SmokeDetector) && Kept(s3, s4, OutdoorLight);
    assert Kept(s3, s4, Curtains) && Kept(s3, s4, BedroomLight);
    s4
  }

  /** Rules 1 to 3 in source order; afterwards the cold water key exists,
      since the source reads it next. */
  function RulesOneToThree(s: Snapshot): (s3: Snapshot)
    requires Ready(s)
    ensures ColdWater in s3
    ensures Kept(s, s3, SmokeDetector) && Kept(s, s3, OutdoorLight)
    ensures Kept(s, s3, Curtains) && Kept(s, s3, BedroomLight)
  {
    var s1 := BedroomClimate(s);
    var s2 := WaterHeating(s1);
    var s3 := LeakShutOff(s2);
    assert Kept(s, s1, LeakDetector) && Kept(s1, s2, LeakDetector);
    assert Kept(s, s1, ColdWater) && Kept(s1, s2, ColdWater);
    assert Kept(s, s1, SmokeDetector) && Kept(s1, s2, SmokeDetector) && Kept(s2, s3, SmokeDetector);
    assert Kept(s, s1, OutdoorLight) && Kept(s1, s2, OutdoorLight) && Kept(s2, s3, OutdoorLight);
    assert Kept(s, s1, Curtains) && Kept(s1, s2, Curtains) && Kept(s2, s3, Curtains);
    assert Kept(s, s1, BedroomLight) && Kept(s1, s2, BedroomLight) && Kept(s2, s3, BedroomLight);
    s3
  }

  /** Rules 1 to 5 in source order: everything before the curtain rule.
      Their output still holds what the curtain rule reads. */
  function RulesOneToFive(s: Snapshot): (s5: Snapshot)
    requires Ready(s)
    ensures CurtainInputs(s5)
    ensures Kept(s, s5, OutdoorLight) && Kept(s, s5, Curtains)
    ensures Num(s[OutdoorLight]) < DaylightThreshold ==> s5[BedroomLight] == LightAfterSmoke(s)
  {
    var s4 := RulesOneToFour(s);
    var s5 := SmokeOverride(s4);
    assert Kept(s4, s5, OutdoorLight) && Kept(s4, s5, Curtains);
    assert !Truthy(s[SmokeDetector]) ==> Kept(s4, s5, BedroomLight);
    s5
  }

  /** The six rules in source order. */
  function Cascade(s: Snapshot): Snapshot
    requires Ready(s)
  {
    CurtainRule(RulesOneToFive(s))
  }

  // ---------------------------------------------------------------------
  // The same outcome as a priority table, one device key at a time

  /** After the leak rule, the cold water is off. */
  predicate ColdWaterOff(s: Snapshot)
    requires LeakDetector in s && (ColdWater in s || Truthy(s[LeakDetector]))
  {
    Truthy(s[LeakDetector]) || !Truthy(s[ColdWater])
  }

  /** The value the cascade forces on key `k`, highest priority first, or
      `None` when the cascade leaves `k` as it was. */
  function Forced(s: Snapshot, k: string): Option<Val>
    requires Ready(s)
  {
    var smoke := Truthy(s[SmokeDetector]);
    if k == AirConditioner then
      var t, target := Num(s[BedroomTemperature]), Num(s[BedroomTarget]);
      if smoke || t < 0.9 * target then Some(B(false))
      else if t > 1.1 * target then Some(B(true))
      else None
    else if k == Boiler then
      if smoke || ColdWaterOff(s) then Some(B(false))
      else if !WaterNumeric(s) then None
      else
        var t, target := Num(s[BoilerTemperature]), Num(s[HotWaterTarget]);
        if t >= 1.1 * target then Some(B(false))
        else if t < 0.9 * target then Some(B(true))
        else None
    else if k == ColdWater || k == HotWater then
      if Truthy(s[LeakDetector]) then Some(B(false)) else None
    else if k == WashingMachine then
      if smoke || ColdWaterOff(s) then Some(Off) else None
    else if k == BedroomLight || k == BathroomLight then
      if smoke then Some(B(false)) else None
    else if k == Curtains then
      var light := Num(s[OutdoorLight]);
      if light < DaylightThreshold then
        if LightAfterSmoke(s) == B(false) && s[Curtains] != SlightlyOpen then Some(Open) else None
      else if light > DaylightThreshold && s[Curtains] != SlightlyOpen then Some(Close)
      else None
    else None
  }

  /** Every key keeps its value unless the priority table forces one. */
  function Expected(s: Snapshot): Snapshot
    requires Ready(s)
  {
    map k | k in s.Keys + DeviceKeys && (k in s || Forced(s, k).Some?) ::
      if Forced(s, k).Some? then Forced(s, k).value else s[k]
  }

  /** Running the rules one after another in source order yields exactly
      the priority table: smoke beats the cold-water dependency, which beats
      the boiler hysteresis, and so on. */
  lemma CascadeFollowsPriority(s: Snapshot)
    requires Ready(s)
    ensures Cascade(s) == Expected(s)
  {
    var r, e := Cascade(s), Expected(s);
    forall k
      ensures (k in r <==> k in e) && (k in r ==> r[k] == e[k])
    {
      CascadeAt(s, k);
    }
  }

  /** The key-by-key core of `CascadeFollowsPriority`. */
  lemma CascadeAt(s: Snapshot, k: string)
    requires Ready(s)
    ensures k in Cascade(s) <==> k in s || Forced(s, k).Some?
    ensures k in Cascade(s) ==> Cascade(s)[k] == if Forced(s, k).Some? then Forced(s, k).value else s[k]
  {
    if k == AirConditioner {
      CascadeAtAirConditioner(s);
    } else if k == Boiler {
      CascadeAtBoiler(s);
    } else if k == WashingMachine {
      CascadeAtWashingMachine(s);
    } else if k == Curtains {
      CascadeAtCurtains(s);
    } else if k == ColdWater || k == HotWater {
      CascadeAtWater(s, k);
    } else if k == BedroomLight || k == BathroomLight {
      CascadeAtLight(s, k);
    } else {
      CascadeAtOther(s, k);
    }
  }

  // Each row of the priority table, with the key fixed.

  lemma ForcedAirConditioner(s: Snapshot)
    requires Ready(s)
    ensures var t, target := Num(s[BedroomTemperature]), Num(s[BedroomTarget]);
      Forced(s, AirConditioner) ==
        if Truthy(s[SmokeDetector]) || t < 0.9 * target then Some(B(false))
        else if t > 1.1 * target then Some(B(true))
        else None
  {
  }

  lemma ForcedBoiler(s: Snapshot)
    requires Ready(s)
    ensures Forced(s, Boiler) ==
      if Truthy(s[SmokeDetector]) || ColdWaterOff(s) then Some(B(false))
      else if !WaterNumeric(s) then None
      else
        var t, target := Num(s[BoilerTemperature]), Num(s[HotWaterTarget]);
        if t >= 1.1 * target then Some(B(false))
        else if t < 0.9 * target then Some(B(true))
        else None
  {
  }

  lemma ForcedWater(s: Snapshot, k: string)
    requires Ready(s)
    requires k == ColdWater || k == HotWater
    ensures Forced(s, k) == if Truthy(s[LeakDetector]) then Some(B(false)) else None
  {
  }

  lemma ForcedWashingMachine(s: Snapshot)
    requires Ready(s)
    ensures Forced(s, WashingMachine) ==
      if Truthy(s[SmokeDetector]) || ColdWaterOff(s) then Some(Off) else None
  {
  }

  lemma ForcedLight(s: Snapshot, k: string)
    requires Ready(s)
    requires k == BedroomLight || k == BathroomLight
    ensures Forced(s, k) == if Truthy(s[SmokeDetector]) then Some(B(false)) else None
  {
  }

  lemma CascadeAtAirConditioner(s: Snapshot)
    requires Ready(s)
    ensures var k := AirConditioner;
      && (k in Cascade(s) <==> k in s || Forced(s, k).Some?)
      && (k in Cascade(s) ==> Cascade(s)[k] == if Forced(s, k).Some? then Forced(s, k).value else s[k])
  {
    var k := AirConditioner;
    var s1 := BedroomClimate(s);
    var s2 := WaterHeating(s1);
    var s3 := LeakShutOff(s2);
    var s4 := ColdWaterDependency(s3);
    var s5 := SmokeOverride(s4);
    ForcedAirConditioner(s);
    assert Kept(s5, Cascade(s), k);
    assert s4[SmokeDetector] == s[SmokeDetector];
    if !Truthy(s[SmokeDetector]) {
      assert Kept(s4, s5, k);
      assert Kept(s1, s2, k) && Kept(s2, s3, k) && Kept(s3, s4, k);
    }
  }

  lemma CascadeAtBoiler(s: Snapshot)
    requires Ready(s)
    ensures var k := Boiler;
      && (k in Cascade(s) <==> k in s || Forced(s, k).Some?)
      && (k in Cascade(s) ==> Cascade(s)[k] == if Forced(s, k).Some? then Forced(s, k).value else s[k])
  {
    var k := Boiler;
    var s1 := BedroomClimate(s);
    var s2 := WaterHeating(s1);
    var s3 := LeakShutOff(s2);
    var s4 := ColdWaterDependency(s3);
    var s5 := SmokeOverride(s4);
    ForcedBoiler(s);
    assert Kept(s5, Cascade(s), k);
    assert s4[SmokeDetector] == s[SmokeDetector];
    if !Truthy(s[SmokeDetector]) {
      assert Kept(s4, s5, k);
      assert s2[LeakDetector] == s[LeakDetector];
      if Truthy(s[LeakDetector]) {
        assert s3[ColdWater] == B(false);
      } else {
        assert Kept(s2, s3, ColdWater) && Kept(s1, s2, ColdWater) && Kept(s, s1, ColdWater);
        if Truthy(s[ColdWater]) {
          assert Kept(s3, s4, k) && Kept(s2, s3, k) && Kept(s, s1, k);
          assert s1[BoilerTemperature] == s[BoilerTemperature] && s1[HotWaterTarget] == s[HotWaterTarget];
        }
      }
    }
  }

  lemma CascadeAtWashingMachine(s: Snapshot)
    requires Ready(s)
    ensures var k := WashingMachine;
      && (k in Cascade(s) <==> k in s || Forced(s, k).Some?)
      && (k in Cascade(s) ==> Cascade(s)[k] == if Forced(s, k).Some? then Forced(s, k).value else s[k])
  {
    var k := WashingMachine;
    var s1 := BedroomClimate(s);
    var s2 := WaterHeating(s1);
    var s3 := LeakShutOff(s2);
    var s4 := ColdWaterDependency(s3);
    var s5 := SmokeOverride(s4);
    ForcedWashingMachine(s);
    assert Kept(s5, Cascade(s), k);
    assert s4[SmokeDetector] == s[SmokeDetector];
    if !Truthy(s[SmokeDetector]) {
      assert Kept(s4, s5, k);
      assert s2[LeakDetector] == s[LeakDetector];
      if Truthy(s[LeakDetector]) {
        assert s3[ColdWater] == B(false);
      } else {
        assert Kept(s2, s3, ColdWater) && Kept(s1, s2, ColdWater) && Kept(s, s1, ColdWater);
        if Truthy(s[ColdWater]) {
          assert Kept(s3, s4, k) && Kept(s2, s3, k) && Kept(s1, s2, k) && Kept(s, s1, k);
        }
      }
    }
  }

  lemma CascadeAtCurtains(s: Snapshot)
    requires Ready(s)
    ensures var k := Curtains;
      && (k in Cascade(s) <==> k in s || Forced(s, k).Some?)
      && (k in Cascade(s) ==> Cascade(s)[k] == if Forced(s, k).Some? then Forced(s, k).value else s[k])
  {
    ForcedCurtains(s);
    var s5 := RulesOneToFive(s);
  }

  /** The water supplies: only the leak rule writes them. */
  lemma CascadeAtWater(s: Snapshot, k: string)
    requires Ready(s)
    requires k == ColdWater || k == HotWater
    ensures k in Cascade(s) <==> k in s || Forced(s, k).Some?
    ensures k in Cascade(s) ==> Cascade(s)[k] == if Forced(s, k).Some? then Forced(s, k).value else s[k]
  {
    var s1 := BedroomClimate(s);
    var s2 := WaterHeating(s1);
    var s3 := LeakShutOff(s2);
    var s4 := ColdWaterDependency(s3);
    var s5 := SmokeOverride(s4);
    ForcedWater(s, k);
    assert Kept(s3, s4, k) && Kept(s4, s5, k) && Kept(s5, Cascade(s), k);
    assert s2[LeakDetector] == s[LeakDetector];
    if !Truthy(s[LeakDetector]) {
      assert Kept(s, s1, k) && Kept(s1, s2, k) && Kept(s2, s3, k);
    }
  }

  /** The two lights: only the smoke rule writes them. */
  lemma CascadeAtLight(s: Snapshot, k: string)
    requires Ready(s)
    requires k == BedroomLight || k == BathroomLight
    ensures k in Cascade(s) <==> k in s || Forced(s, k).Some?
    ensures k in Cascade(s) ==> Cascade(s)[k] == if Forced(s, k).Some? then Forced(s, k).value else s[k]
  {
    var s1 := BedroomClimate(s);
    var s2 := WaterHeating(s1);
    var s3 := LeakShutOff(s2);
    var s4 := ColdWaterDependency(s3);
    var s5 := SmokeOverride(s4);
    ForcedLight(s, k);
    assert Kept(s5, Cascade(s), k);
    assert s4[SmokeDetector] == s[SmokeDetector];
    if !Truthy(s[SmokeDetector]) {
      assert Kept(s, s1, k) && Kept(s1, s2, k) && Kept(s2, s3, k) && Kept(s3, s4, k) && Kept(s4, s5, k);
    }
  }

  /** Every key outside the device keys passes through unchanged. */
  lemma CascadeAtOther(s: Snapshot, k: string)
    requires Ready(s)
    requires k !in DeviceKeys
    ensures Forced(s, k) == None
    ensures k in Cascade(s) <==> k in s
    ensures k in s ==> Cascade(s)[k] == s[k]
  {
    var s1 := BedroomClimate(s);
    var s2 := WaterHeating(s1);
    var s3 := LeakShutOff(s2);
    var s4 := ColdWaterDependency(s3);
    var s5 := SmokeOverride(s4);
    assert Kept(s, s1, k) && Kept(s1, s2, k) && Kept(s2, s3, k) && Kept(s3, s4, k) && Kept(s4, s5, k) && Kept(s5, Cascade(s), k);
  }

  // ---------------------------------------------------------------------
  // What the cascade promises

  /** The cascade writes only device keys, never removes a key, and every
      other key keeps its value. */
  lemma CascadeTouchesOnlyDevices(s: Snapshot)
    requires Ready(s)
    ensures SameOutside(s, Cascade(s), DeviceKeys)
    ensures s.Keys <= Cascade(s).Keys <= s.Keys + DeviceKeys
  {
    forall k | k !in DeviceKeys
      ensures (k in Cascade(s) <==> k in s) && (k in s ==> Cascade(s)[k] == s[k])
    {
      CascadeAtOther(s, k);
    }
    forall k | k in s
      ensures k in Cascade(s)
    {
      CascadeAt(s, k);
    }
  }

  /** Without smoke, the air conditioner follows the bedroom hysteresis:
      on above 110% of the target, off below 90% (off wins when both hold),
      and left exactly as it was inside the band. */
  lemma AirConditionerHysteresis(s: Snapshot)
    requires Ready(s) && !Truthy(s[SmokeDetector])
    ensures var r, t, target := Cascade(s), Num(s[BedroomTemperature]), Num(s[BedroomTarget]);
      && (t < 0.9 * target ==> AirConditioner in r && r[AirConditioner] == B(false))
      && (t > 1.1 * target && !(t < 0.9 * target) ==> AirConditioner in r && r[AirConditioner] == B(true))
      && (0.9 * target <= t <= 1.1 * target ==>
            (AirConditioner in r <==> AirConditioner in s)
            && (AirConditioner in s ==> r[AirConditioner] == s[AirConditioner]))
  {
    CascadeAtAirConditioner(s);
  }

  /** With water running and no smoke, the boiler follows its hysteresis:
      on below 90% of the hot-water target, off at or above 110% (off wins
      when both hold), untouched inside the band or when an operand is not
      a number. */
  lemma BoilerHysteresis(s: Snapshot)
    requires Ready(s) && !Truthy(s[SmokeDetector]) && !ColdWaterOff(s)
    ensures var r := Cascade(s);
      var kept := (Boiler in r <==> Boiler in s) && (Boiler in s ==> r[Boiler] == s[Boiler]);
      && (!WaterNumeric(s) ==> kept)
      && (WaterNumeric(s) ==>
            var t, target := Num(s[BoilerTemperature]), Num(s[HotWaterTarget]);
            && (t >= 1.1 * target ==> Boiler in r && r[Boiler] == B(false))
            && (t < 0.9 * target && !(t >= 1.1 * target) ==> Boiler in r && r[Boiler] == B(true))
            && (!(t < 0.9 * target) && !(t >= 1.1 * target) ==> kept))
  {
    CascadeAtBoiler(s);
  }

  /** A leak shuts both water supplies and, through the cold-water
      dependency, the boiler and the washing machine, whatever the boiler
      rule decided. */
  lemma LeakShutsWater(s: Snapshot)
    requires Ready(s) && Truthy(s[LeakDetector])
    ensures var r := Cascade(s);
      && ColdWater in r && r[ColdWater] == B(false)
      && HotWater in r && r[HotWater] == B(false)
      && Boiler in r && r[Boiler] == B(false)
      && WashingMachine in r && r[WashingMachine] == Off
  {
    CascadeAtWater(s, ColdWater);
    CascadeAtWater(s, HotWater);
    CascadeAtBoiler(s);
    CascadeAtWashingMachine(s);
  }

  /** With the cold water off when rule 4 runs, the boiler is off and the
      washing machine is "off", even when the boiler rule switched it on. */
  lemma ColdWaterStopsBoiler(s: Snapshot)
    requires Ready(s) && ColdWaterOff(s)
    ensures var r := Cascade(s);
      Boiler in r && r[Boiler] == B(false) && WashingMachine in r && r[WashingMachine] == Off
  {
    CascadeAtBoiler(s);
    CascadeAtWashingMachine(s);
  }

  /** Smoke wins over every other rule. */
  lemma SmokeOverridesAll(s: Snapshot)
    requires Ready(s) && Truthy(s[SmokeDetector])
    ensures var r := Cascade(s);
      && AirConditioner in r && r[AirConditioner] == B(false)
      && BedroomLight in r && r[BedroomLight] == B(false)
      && BathroomLight in r && r[BathroomLight] == B(false)
      && Boiler in r && r[Boiler] == B(false)
      && WashingMachine in r && r[WashingMachine] == Off
  {
    CascadeAtAirConditioner(s);
    CascadeAtLight(s, BedroomLight);
    CascadeAtLight(s, BathroomLight);
    CascadeAtBoiler(s);
    CascadeAtWashingMachine(s);
  }

  /** The curtains: "slightly_open" is never changed, a light level of
      exactly 50 changes nothing, darkness with the bedroom light
      identically `False` opens them and daylight closes them. */
  lemma CurtainsFollowLight(s: Snapshot)
    requires Ready(s)
    ensures var r, light := Cascade(s), Num(s[OutdoorLight]);
      var kept := (Curtains in r <==> Curtains in s) && (Curtains in s ==> r[Curtains] == s[Curtains]);
      && (Curtains in s && s[Curtains] == SlightlyOpen ==> kept)
      && (light == DaylightThreshold ==> kept)
      && (light < DaylightThreshold && LightAfterSmoke(s) != B(false) ==> kept)
      && (light < DaylightThreshold && LightAfterSmoke(s) == B(false) && s[Curtains] != SlightlyOpen ==>
            Curtains in r && r[Curtains] == Open)
      && (light > DaylightThreshold && s[Curtains] != SlightlyOpen ==> Curtains in r && r[Curtains] == Close)
  {
    CascadeAtCurtains(s);
    ForcedCurtains(s);
  }

  /** The curtain row of the priority table. */
  lemma ForcedCurtains(s: Snapshot)
    requires Ready(s)
    ensures var light := Num(s[OutdoorLight]);
      Forced(s, Curtains) ==
        if light < DaylightThreshold then
          if LightAfterSmoke(s) == B(false) && s[Curtains] != SlightlyOpen then Some(Open) else None
        else if light > DaylightThreshold && s[Curtains] != SlightlyOpen then Some(Close)
        else None
  {
  }

  /** The cascade leaves every sensor reading alone, so the conditions the
      rules test are the same on its output as on its input. */
  lemma SensorsUnchanged(s: Snapshot)
    requires Ready(s)
    ensures var r := Cascade(s);
      && BedroomInputs(r) && r[BedroomTemperature] == s[BedroomTemperature] && r[BedroomTarget] == s[BedroomTarget]
      && BoilerTemperature in r && r[BoilerTemperature] == s[BoilerTemperature]
      && HotWaterTarget in r && r[HotWaterTarget] == s[HotWaterTarget]
      && LeakDetector in r && r[LeakDetector] == s[LeakDetector]
      && SmokeDetector in r && r[SmokeDetector] == s[SmokeDetector]
      && OutdoorLight in r && r[OutdoorLight] == s[OutdoorLight]
  {
    var r := Cascade(s);
    SensorsAreNotDevices();
    CascadeAtOther(s, BedroomTemperature);
    CascadeAtOther(s, BedroomTarget);
    CascadeAtOther(s, BoilerTemperature);
    CascadeAtOther(s, HotWaterTarget);
    CascadeAtOther(s, LeakDetector);
    CascadeAtOther(s, SmokeDetector);
    CascadeAtOther(s, OutdoorLight);
  }

  lemma SensorsAreNotDevices()
    ensures BedroomTemperature !in DeviceKeys && BedroomTarget !in DeviceKeys
    ensures BoilerTemperature !in DeviceKeys && HotWaterTarget !in DeviceKeys
    ensures LeakDetector !in DeviceKeys && SmokeDetector !in DeviceKeys && OutdoorLight !in DeviceKeys
  {
  }

  /** The cold-water test of rule 4 gives the same answer on the output. */
  lemma ColdWaterUnchanged(s: Snapshot)
    requires Ready(s)
    ensures LeakDetector in Cascade(s) && Cascade(s)[LeakDetector] == s[LeakDetector]
    ensures ColdWater in Cascade(s) && ColdWaterOff(Cascade(s)) == ColdWaterOff(s)
  {
    SensorsAreNotDevices();
    CascadeAtOther(s, LeakDetector);
    CascadeAtWater(s, ColdWater);
    if Truthy(s[LeakDetector]) {
      assert Forced(s, ColdWater) == Some(B(false));
    } else {
      assert Forced(s, ColdWater) == None;
    }
  }

  /** The output of the cascade is again a complete input, and the curtain
      rule sees the same bedroom light on it. */
  lemma CascadeOutputReady(s: Snapshot)
    requires Ready(s)
    ensures Ready(Cascade(s))
    ensures Num(s[OutdoorLight]) < DaylightThreshold ==> LightAfterSmoke(Cascade(s)) == LightAfterSmoke(s)
  {
    var r := Cascade(s);
    SensorsUnchanged(s);
    ColdWaterUnchanged(s);
    var light := Num(s[OutdoorLight]);
    if light < DaylightThreshold {
      CascadeAtLight(s, BedroomLight);
      assert LightAfterSmoke(r) == LightAfterSmoke(s);
    }
    if (light < DaylightThreshold && LightAfterSmoke(r) == B(false)) || light > DaylightThreshold {
      CascadeAtCurtains(s);
      ForcedCurtains(s);
    }
  }

  /** The cascade reads back what it wrote: the priority table of its own
      output forces the same values as that of its input. */
  lemma ForcedIsStable(s: Snapshot, k: string)
    requires Ready(s)
    ensures Ready(Cascade(s))
    ensures Forced(Cascade(s), k) == Forced(s, k)
  {
    CascadeOutputReady(s);
    if k == Curtains {
      CurtainRowIsStable(s);
    } else {
      SensorRowsAreStable(s, k);
    }
  }

  /** Every row but the curtain row reads only sensors and the cold water,
      which the cascade reads back unchanged. */
  lemma SensorRowsAreStable(s: Snapshot, k: string)
    requires Ready(s) && k != Curtains
    ensures Ready(Cascade(s))
    ensures Forced(Cascade(s), k) == Forced(s, k)
  {
    var r := Cascade(s);
    SensorsUnchanged(s);
    ColdWaterUnchanged(s);
    CascadeOutputReady(s);
    assert WaterNumeric(r) == WaterNumeric(s);
  }

  /** The curtain row: "slightly_open" stays, and any other position stays
      other than "slightly_open". */
  lemma CurtainRowIsStable(s: Snapshot)
    requires Ready(s)
    ensures Ready(Cascade(s))
    ensures Forced(Cascade(s), Curtains) == Forced(s, Curtains)
  {
    var r := Cascade(s);
    SensorsUnchanged(s);
    CascadeOutputReady(s);
    ForcedCurtains(s);
    ForcedCurtains(r);
    CascadeAtCurtains(s);
  }

  /** Re-running the rules on their own output changes nothing: the
      hysteresis bands, the overrides and the sticky curtain state are all
      fixed points. */
  lemma CascadeIdempotent(s: Snapshot)
    requires Ready(s)
    ensures Ready(Cascade(s))
    ensures Cascade(Cascade(s)) == Cascade(s)
  {
    var r := Cascade(s);
    CascadeOutputReady(s);
    forall k
      ensures (k in Cascade(r) <==> k in r)
      ensures k in r ==> Cascade(r)[k] == r[k]
    {
      ForcedIsStable(s, k);
      CascadeAt(s, k);
      CascadeAt(r, k);
    }
  }
}
