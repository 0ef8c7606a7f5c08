# Smart house controller: rule cascade, merge and minimal diff

This project models the control core of a small smart-house server, the
`Processor` of `coursera_house/core/tasks.py`. Every polling cycle does
four things:

1. It fetches the controller list from the house API.
2. It merges the list into a server-side storage. The storage is seeded
   with two setpoints, and setpoints from the settings form override the
   fetched ones.
3. It runs six rules over the storage, in place and in a fixed order:
   - bedroom air conditioner
   - boiler
   - leak
   - cold-water dependency
   - smoke
   - curtains
4. It publishes only the keys whose values the rules changed. Separately,
   two light gates pass an operator's light request through unless smoke
   is detected.

The model has five modules:

- `Values` (`values.dfy`): a controller value, one of boolean, number,
  text or the `None` placeholder. It also gives the parts of Python's
  value semantics that the code relies on:
  - truthiness (`if x`)
  - `bool` counting as a number in comparisons
  - `==` comparing numbers by value across `bool`, `int` and `float`
- `Rules` (`rules.dfy`): each rule as a function from snapshot to
  snapshot, and `Cascade`, their composition in source order.
  - `Ready` is the exact condition under which `check_signalization`
    finishes without an exception.
  - `Forced` and `Expected` restate the cascade independently, key by
    key, as a priority table.
  - `CascadeFollowsPriority` proves that the two agree. The per-rule
    properties, the "only device keys change" frame and idempotence are
    all derived from that lemma.
- `Merge` (`merge.dfy`): the fetched positions, `Merged` (the state after
  each step of the merge loop), and the setpoint override.
- `Changes` (`diff.dfy`): `Diff`, the update to publish, and
  `MinimalDiff`, the pop loop of `smart_home_manager`, proved equal to
  `Diff`.
- `Home` (`processor.dfy`): class `Processor`.
  - Its fields are `storage` and `alertsSent`, a count of leak mails.
  - One method per rule writes `storage` in place.
  - `CheckSignalization` runs the rule methods in order and is proved to
    produce `Cascade(old(storage))`.
  - `ReadAllControllers` holds the merge loop.
  - `SmartHomeManager` is one whole cycle.
  - `ControlLight` is the light gate.

Behaviour of the code that the model follows:

- **Missing or wrong-typed keys.** The rules do not skip themselves when a
  key is missing or has the wrong type. Only the boiler block catches an
  exception, and only `TypeError`. Any other missing key raises
  `KeyError`, and so does a non-number in an uncaught comparison. This
  aborts the rest of the cascade. `Ready` states exactly when no such
  exception occurs. It accounts for the short-circuit reads: `curtains`
  is read only when one of its branches can still fire, and
  `bedroom_light` only below the light threshold.
- **The bedroom light test uses identity.** The curtain rule tests
  `bedroom_light is False`, not equality with `False`. Only the boolean
  `False` opens the curtains; `0` does not.
- **The cascade can add keys.** The rules write device keys even when the
  snapshot lacked them. Such keys are new relative to the pre-rule copy,
  so the diff always publishes them.
- **A Bad Gateway does not skip the cycle.** On a decode error,
  `_read_all_controllers` returns a 502 response object.
  `smart_home_manager` does not check for it and carries on. See "Left
  out".
- **Thresholds.** The two thresholds are 110% and 90% of the target. For
  the boiler, "off" is tested with `>=`; for the air conditioner, "on" is
  tested with `>`. When both tests hold, which needs a negative target,
  the later write wins.

## Model

| member | source | states |
|---|---|---|
| Values.PyEqIsEquivalence | coursera_house/core/tasks.py:165 | Python `==` on controller values is symmetric and transitive, and equal values have the same truthiness |
| Rules.BedroomClimate | coursera_house/core/tasks.py:105-108 | air conditioner off below 90% of the bedroom target, on above 110% unless also below 90%, kept otherwise; no other key changes |
| Rules.WaterHeating | coursera_house/core/tasks.py:111-117 | boiler off at or above 110% of the hot-water target, on below 90% unless also at or above 110%, kept inside the band or when an operand is not a number (the caught TypeError); no other key changes |
| Rules.LeakShutOff | coursera_house/core/tasks.py:120-124 | a truthy leak detector sets cold and hot water to False, otherwise both are kept; no other key changes |
| Rules.ColdWaterDependency | coursera_house/core/tasks.py:126-128 | falsy cold water sets the boiler to False and the washing machine to "off", otherwise both are kept; no other key changes |
| Rules.SmokeOverride | coursera_house/core/tasks.py:130-135 | a truthy smoke detector switches off the air conditioner, both lights, the boiler and the washing machine, otherwise all five are kept; no other key changes |
| Rules.CurtainRule | coursera_house/core/tasks.py:137-140 | curtains "open" in the dark when the bedroom light is identically False, "close" above 50, kept when "slightly_open", at exactly 50 or when the light is not False; no other key changes |
| Rules.RulesOneToFive | coursera_house/core/tasks.py:102-137 | after the first five rules, every key the curtain rule reads exists, outdoor light and curtains are as they were, and below the light threshold the bedroom light is False under smoke and otherwise as it was |
| Rules.CascadeFollowsPriority | coursera_house/core/tasks.py:102-140 | the six rules in source order produce exactly the per-key priority table: smoke over cold water over boiler hysteresis, leak over the water supplies, and every other key kept |
| Rules.CascadeTouchesOnlyDevices | coursera_house/core/tasks.py:102-140 | the cascade removes no key, adds only device keys, and leaves every key outside the eight device keys unchanged |
| Rules.AirConditionerHysteresis | coursera_house/core/tasks.py:105-108 | without smoke, the final air conditioner is False below 90%, True above 110% (unless also below 90%), and exactly as before inside the band |
| Rules.BoilerHysteresis | coursera_house/core/tasks.py:111-117 | with cold water on and no smoke, the final boiler is False at or above 110%, True below 90% (unless also at or above 110%), and as before inside the band or when an operand is not a number |
| Rules.LeakShutsWater | coursera_house/core/tasks.py:120-128 | a truthy leak leaves cold water, hot water and the boiler False and the washing machine "off" |
| Rules.ColdWaterStopsBoiler | coursera_house/core/tasks.py:126-128 | when cold water is off at rule 4, the boiler ends False and the washing machine "off", whatever rule 2 decided |
| Rules.SmokeOverridesAll | coursera_house/core/tasks.py:130-135 | a truthy smoke detector leaves the air conditioner, both lights and the boiler False and the washing machine "off", whatever the other inputs |
| Rules.CurtainsFollowLight | coursera_house/core/tasks.py:137-140 | "slightly_open" is never changed, light exactly 50 changes nothing, darkness with the final bedroom light identically False opens, daylight closes |
| Rules.SensorsUnchanged | coursera_house/core/tasks.py:102-140 | every sensor and setpoint the rules read has the same value after the cascade |
| Rules.CascadeOutputReady | coursera_house/core/tasks.py:102-140 | the cascade's output can be run through the cascade again without an exception, and the curtain rule sees the same bedroom light on it |
| Rules.ForcedIsStable | coursera_house/core/tasks.py:102-140 | the priority table of the cascade's output forces the same value on every key as that of its input |
| Rules.CascadeIdempotent | coursera_house/core/tasks.py:102-140 | running the rules again on their own output changes nothing, so hysteresis, overrides and the sticky curtain state are fixed points |
| Merge.MergedKeys | coursera_house/core/tasks.py:44-48 | after the merge loop the storage holds exactly the old names plus the fetched names |
| Merge.MergedValues | coursera_house/core/tasks.py:44-48 | a fetched name holds the value of its last position in the list, and a name not fetched keeps its stored value |
| Merge.WithSetpoints | coursera_house/core/tasks.py:50-56 | the hot-water setpoint overrides the fetched one when stored; the bedroom setpoint overrides only when both are stored; every other key is kept |
| Merge.SeedKeysStay | coursera_house/core/tasks.py:30-56 | the two seeded setpoint keys are still present after every poll |
| Changes.MinimalDiff | coursera_house/core/tasks.py:164-166 | popping every key of the pre-rule copy whose value is `==` to the post-rule one leaves exactly `Diff`, whatever the order of the walk |
| Changes.PatchRestores | coursera_house/core/tasks.py:164-168 | the pre-rule snapshot updated with the published diff has the post-rule keys and `==`-equal values, so no change is lost |
| Changes.DiffEmptyIff | coursera_house/core/tasks.py:164-168 | the diff is empty exactly when no key was added and every value compares equal |
| Changes.CascadeDiff | coursera_house/core/tasks.py:157-168 | only device keys are published, and a device key is published exactly when the priority table forces on it a value not `==` to the stored one |
| Changes.SteadyStateNoWrite | coursera_house/core/tasks.py:157-168 | a cycle over storage that the rules have already processed, with no new readings, publishes nothing |
| Home.Processor.constructor | coursera_house/core/tasks.py:30-33 | the storage starts as exactly the two setpoints, 80 for hot water and 21 for the bedroom, and no alert has been sent |
| Home.Processor.ReadAllControllers | coursera_house/core/tasks.py:44-56 | the loop, with its None placeholder for new names, leaves the storage equal to the merge of the fetched list followed by the setpoint override |
| Home.Processor.CheckSignalization | coursera_house/core/tasks.py:102-140 | the in-place writes leave the storage equal to the cascade of the old storage and send one alert exactly when the leak detector is truthy |
| Home.Processor.ApplyBedroomClimate | coursera_house/core/tasks.py:105-108 | the two in-place writes give `BedroomClimate` of the old storage |
| Home.Processor.ApplyWaterHeating | coursera_house/core/tasks.py:111-117 | the guarded writes give `WaterHeating` of the old storage |
| Home.Processor.ApplyLeakShutOff | coursera_house/core/tasks.py:120-124 | the writes give `LeakShutOff` of the old storage, and one alert is counted exactly on a truthy leak |
| Home.Processor.ApplyColdWaterDependency | coursera_house/core/tasks.py:126-128 | the writes give `ColdWaterDependency` of the old storage |
| Home.Processor.ApplySmokeOverride | coursera_house/core/tasks.py:130-135 | the writes give `SmokeOverride` of the old storage |
| Home.Processor.ApplyCurtainRule | coursera_house/core/tasks.py:137-140 | the writes give `CurtainRule` of the old storage |
| Home.Processor.ControlLight | coursera_house/core/tasks.py:64-75 | both light gates return the requested value when the stored smoke detector is falsy, and False when it is truthy |
| Home.Processor.LightGateMatchesSmokeRule | coursera_house/core/tasks.py:64-75 | for either light, the gate's answer is the value the smoke rule would leave on that light |
| Home.Processor.SmartHomeManager | coursera_house/core/tasks.py:155-173 | one cycle leaves the storage equal to the cascade of the merged snapshot, and publishes `Diff(pre, post)` exactly when it is non-empty |

## Left out

- HTTP and JSON (`requests.get`, `requests.post`, `json.dumps`, decoding the response). The fetched list is a parameter of `ReadAllControllers`. The published update is the return value of `SmartHomeManager`.
- The Bad Gateway path (tasks.py:58-60). `smart_home_manager` goes on to deep-copy and iterate the returned Django response object. What that does depends on Django, which is not part of this model.
- A fetched position without a `name` or `value` field: that is JSON shape checking.
- `send_mail` is an external notification. It is modelled only as the `alertsSent` counter.
- The settings store (the Django ORM).
  - The two stored setpoints are `Option` parameters of `ReadAllControllers`; `None` means the row does not exist.
  - `MultipleObjectsReturned` is not modelled.
  - The setpoint writers `control_bedroom_target_temperature` and `control_hot_water_target_temperature` (tasks.py:78-99) only write the store, which is outside the model. Their `DoesNotExist` branch can never be taken, because indexing an empty query set raises `IndexError` first.
- Home.Processor.CheckSignalization: requires `Ready(storage)`, so it does not model the partial writes left behind when a missing key or a non-number raises `KeyError` or `TypeError` part-way through the cascade.
- Home.Processor.SmartHomeManager: for the same reason, requires `Ready` of the merged snapshot.
- Floating point. Temperatures and light levels are exact reals, so IEEE-754 rounding of `1.1 * target` and `0.9 * target` is not modelled. Python ints and floats share the one number variant, and NaN is not modelled.
- Other Python value kinds (lists, dicts) as controller values.
- Framework plumbing:
  - The singleton `__new__` (class-level state is one `Processor` object here).
  - The Celery `@task` decorator and the `print` logging.
  - `views.py`, which only forwards form fields to the gates and setpoint writers.
- `copy.deepcopy`: maps are values in Dafny, so the two copies are implicit.
