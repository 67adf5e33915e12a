# rfsys core in Dafny

This project models the core of `rfsys`, a small RF system simulator. A
component (a filter, an amplifier, ...) holds named, frequency-dependent
parameters such as `gain` and `NF`. Each parameter is a pair of parallel
lists: frequencies and values. A value is read back by clamped linear
interpolation and written by an in-place upsert. The cascade engine walks a
component list in order. For every stage it records the cascaded gain and
the cascaded noise figure (the Friis recurrence) at a frequency, in a
parallel list of data entries. Around this sit:

- the passive-part rule that derives `NF` from `gain`;
- the component builder that turns a type name into a component;
- the two argument validators;
- the netlist token parser.

Files and modules:

| file | module | models |
|---|---|---|
| errors.dfy | `Errors` | the error kinds, `Result`/`Outcome` in place of exceptions, `validate_arg`, `verify_kwargs` |
| tolerance.dfy | `Tolerances` | `Tolerance` construction, `_validate_value`, the rejection loop of `get_value` |
| curves.dfy | `Curves` | a parameter's value side: interpolation and upsert on a `Curve` value |
| component_types.dfy | `ComponentTypes` | the closed set of type names and the passive/active split |
| param_maps.dfy | `ParamMaps` | a component's parameter table as a map value: add (base and passive policy), read, update |
| components.dfy | `Components` | the classes `Parameter` and `Component`, updated in place and proved against `Curves` and `ParamMaps` |
| cascade.dfy | `Cascade` | one `run(freq)` on values, and the properties of a run |
| cascade_failure.dfy | `CascadeFailure` | a run fails at a component without `gain` or `NF`, on any component and data list |
| engine.dfy | `Engine` | the class `CascadeEngine`, with its data list of objects, proved against `Cascade` |
| builder.dfy | `Builder` | `component_builder` |
| netlist.dfy | `Netlist` | `parse_part` (both regular expressions, matched as the regex engine does) and `parse_net` |

Modelling choices:

- Exceptions are modelled as `Err`/`Fail` values, and a raised error ends the operation.
  - Where the source leaves partial effects behind, the model keeps them. Two examples: the `gain` that a passive part adds before `NF` fails, and the entries that a failed run has already written.
- One class `Component` stands for `Component`, `PassiveComponent`, `ActiveComponent` and `ComponentData`.
  - A type tag selects the passive override of `add_parameter`.
  - An untagged component is a plain `Component` or a `ComponentData`.
  - `active_components.py` adds no behaviour, so an active tag means "no override".
- Each `Parameter` and `Component` object carries a ghost value: `Parameter.State()` and `Component.model`. The methods are specified through these values.
- The engine's `comp_data` list is a sequence of `Component` objects that the engine owns. A ghost list of stage values mirrors it. `run` is proved equal to the value-level `Cascade.Run`.
- Numbers are `real`.
  - `10**(x/10)`, `10*log10(x)` and `round(x, 2)` are function parameters (`Cascade.Conversions`), so the cascade results hold whatever these compute.
  - The two failures that the library calls can raise are explicit: a zero linear gain (division by zero) and a non-positive `log10` argument.
- `np.interp` is written out exactly for ascending frequencies. The read-back properties assume distinct ascending frequencies. Every upsert keeps that shape (`Curves.UpsertKeepsShape`).
- The netlist patterns are matched as `re.search` matches them:
  - the leftmost start position wins;
  - greedy groups give characters back one at a time;
  - an unescaped `.` matches any character except a newline.

  So the model accepts exactly the tokens the source accepts, including odd ones like `R1-U23`, and no well-formedness precondition is needed.
- `parse_net` on an empty line raises an IndexError in the source (`line[-1]`). It is modelled as the error `IndexOutOfRange`, not as a precondition.

## Model

| member | source | states |
|---|---|---|
| Errors.ValidateArg | rfsys/core/errors.py:19-21 | fails exactly when `arg` is not in the list (exact, case-sensitive membership), with an `InvalidArgument` naming the list, which is a ValueError |
| Errors.Missing | rfsys/core/errors.py:36-40 | the loop's collected list, specified by `MissingExactly`, `MissingEmptyIff`, `MissingIsSubsequence` and `MissingIgnoresExtra` |
| Errors.MissingExactly | rfsys/core/errors.py:38-40 | a key is reported as missing if and only if it is one of the required keys and absent from the keyword map |
| Errors.MissingEmptyIff | rfsys/core/errors.py:42-44 | nothing is reported if and only if every required key is present |
| Errors.MissingIsSubsequence | rfsys/core/errors.py:38-40 | the report keeps the order of the required keys: a strictly increasing map of positions places each reported key at a position of the required list holding it |
| Errors.MissingIgnoresExtra | rfsys/core/errors.py:37-40 | extra keys in the keyword map never change what is reported |
| Errors.VerifyKwargs | rfsys/core/errors.py:36-44 | the loop fails if and only if some required key is absent, and the failure lists exactly the absent keys in required order |
| Tolerances.NewTolerance | rfsys/components/base_component.py:154-175 | `Tolerance.__init__`: `tol` is checked first, then `dist`, both upper-cased; `NewToleranceValid`, `NewToleranceCaseInsensitive` and `NewToleranceExamples` state its outcomes |
| Tolerances.NewToleranceValid | rfsys/components/base_component.py:150-175 | construction succeeds if and only if the upper-cased `tol` is in {DB, PER} and the upper-cased `dist` is in {UNIFORM, NORMAL}; the tolerance built is then exactly (`tol.upper()`, `limits`, `dist.upper()`, `num_std_dev`); otherwise it raises InvalidArgument |
| Tolerances.NewToleranceCaseInsensitive | rfsys/components/base_component.py:169-174 | names that upper-case alike construct alike |
| Tolerances.NewToleranceExamples | test/test_parameter.py:6-9 | `tol="invalid_arg"` and `dist="invalid_dist"` are refused; `tol="dB"` with a uniform distribution is accepted |
| Tolerances.FromKwargs | rfsys/components/base_component.py:99-104 | the tolerance the `Parameter` constructor attaches, with `verify_kwargs` and the vocabulary errors swallowed; `FromKwargsOutcomes` states its outcomes |
| Tolerances.FromKwargsOutcomes | rfsys/components/base_component.py:99-104 | a missing `tol`/`limits` or a refused vocabulary leaves the parameter without a tolerance (the ValueError is swallowed); only non-ValueErrors escape; an attached tolerance holds the upper-cased `tol`, the given limits, the upper-cased `dist` (UNIFORM by default) and the given `num_std_dev` (3 by default) |
| Tolerances.ValidateValue | rfsys/components/base_component.py:209-222 | `_validate_value`: the inclusive check lower <= v <= upper, used by `Sample`'s contract |
| Tolerances.Sample | rfsys/components/base_component.py:188-222 | a normal distribution without a mean raises; malformed limits, a non-numeric `num_std_dev` and a zero `num_std_dev` raise in the source's order; otherwise it succeeds if and only if some draw passes `_validate_value`, the value is the first such draw and lies within [lower, upper] inclusive, and running out of draws means none passed |
| Curves.CurveValue | rfsys/components/base_component.py:106-125 | `Parameter.get_value` on a curve: one sample answers every query, an empty curve fails, and otherwise the query is clamped to [min, max] and interpolated; `QueryAtSample`, `QueryBetweenSamples`, `QueryBelowMinimum`, `QueryAboveMaximum` and `SingleSampleConstant` state its values |
| Curves.Interp | rfsys/components/base_component.py:124 | `np.interp` for ascending frequencies; `InterpAtSample` and `InterpBetween` state its values |
| Curves.Min | rfsys/components/base_component.py:119-120 | `min(freqs)` is an element of the list and at most every element |
| Curves.Max | rfsys/components/base_component.py:121-122 | `max(freqs)` is an element of the list and at least every element |
| Curves.IndexOf | rfsys/components/base_component.py:140 | `list.index` gives the first position holding the frequency |
| Curves.SingleSampleConstant | rfsys/components/base_component.py:115-117 | a one-sample parameter returns `values[0]` at every frequency |
| Curves.SortedMinMax | rfsys/components/base_component.py:119-122 | for ascending frequencies, min and max are the first and last frequency |
| Curves.InterpAtSample | rfsys/components/base_component.py:124 | interpolation at a sample frequency gives that sample's value |
| Curves.InterpBetween | rfsys/components/base_component.py:124 | strictly between two neighbouring samples, interpolation is the straight line through them |
| Curves.QueryBelowMinimum | rfsys/components/base_component.py:119-124 | with two or more ascending samples, a query at or below the first frequency returns `values[0]` |
| Curves.QueryAboveMaximum | rfsys/components/base_component.py:121-124 | with two or more ascending samples, a query at or above the last frequency returns the last value |
| Curves.QueryAtSample | rfsys/components/base_component.py:115-124 | a query exactly at `freqs[i]` returns `values[i]` |
| Curves.QueryBetweenSamples | rfsys/components/base_component.py:124 | a query strictly between `freqs[i]` and `freqs[i+1]` returns their linear interpolant |
| Curves.Upsert | rfsys/components/base_component.py:138-146 | `update_value` on a curve: overwrite at the first index of a known frequency, else insert at the count of smaller ones; `UpsertExisting`, `UpsertNew`, `UpsertKeepsShape`, `UpsertReadBack` and `UpsertTwice` state its effect |
| Curves.CountLess | rfsys/components/base_component.py:144 | the number of frequencies below `freq`; `CountLessSplits` states that it is the insertion point |
| Curves.UpsertExisting | rfsys/components/base_component.py:138-141 | overwriting an existing frequency changes only the value at its first index; the frequencies, both lengths and the tolerance are kept |
| Curves.CountLessSplits | rfsys/components/base_component.py:144 | in an ascending list, the count of smaller frequencies is the insertion point: everything before it is smaller, everything from it on is larger |
| Curves.UpsertNew | rfsys/components/base_component.py:143-146 | a new frequency is inserted with its value at index \|{f < freq}\|; both lists grow by one and everything else keeps its order |
| Curves.UpsertKeepsShape | rfsys/components/base_component.py:138-146 | an upsert keeps the lists parallel, and keeps the frequencies ascending without repeats if they were so |
| Curves.UpsertReadBack | rfsys/components/base_component.py:127-146 | on ascending frequencies, after an upsert the parameter reads back the value just written at that frequency |
| Curves.UpsertTwice | rfsys/components/base_component.py:138-146 | two upserts at one frequency equal a single upsert of the last value |
| Curves.SortedInsertionExample | rfsys/components/base_component.py:143-146 | inserting 10 and then 15 into a curve at 20 ends with the frequencies 10, 15, 20 |
| ComponentTypes.ParseType | rfsys/components/__init__.py:4-19 | a type name has a tag if and only if it is in VALID_COMPONENTS; the match is exact, and the tag's name is that name |
| ComponentTypes.ParseTypeName | rfsys/components/__init__.py:4-19 | every tag's name is valid and parses back to the tag |
| ComponentTypes.ValidComponentsLayout | rfsys/components/__init__.py:4-19 | VALID_COMPONENTS is the six passive names followed by the three active names, without repeats; a tag is passive exactly when its name is not active |
| ParamMaps.ValueAt | rfsys/components/base_component.py:60-72 | `get_value` on a parameter table: a missing name fails, otherwise its curve is read; `ValueAtMissing` states it |
| ParamMaps.Add | rfsys/components/base_component.py:20-43 | the base `add_parameter`: duplicate, then length check, then the tolerance; `AddDuplicate` and `AddNewName` state its effect |
| ParamMaps.PassiveAdd | rfsys/components/passive_components.py:15-31 | the passive override: only `gain` is added, then `NF` with negated values; `PassiveIgnoresOtherNames`, `PassiveGainDerivesNF`, `PassiveGainExists` and `PassiveNFExists` state its effect |
| ParamMaps.AddWithPolicy | rfsys/components/passive_components.py:15-31 | the passive override for a passive tag, the base rule otherwise |
| ParamMaps.ValueAtMissing | rfsys/components/base_component.py:55-72 | reading a parameter fails with "missing parameter" if and only if the name is absent; a present, non-empty parameter reads successfully |
| ParamMaps.AddDuplicate | rfsys/components/base_component.py:30-31 | adding an existing name fails and leaves the map unchanged |
| ParamMaps.AddNewName | rfsys/components/base_component.py:38-43 | a new name with mismatched lengths fails and leaves the map unchanged; with matching lengths and acceptable options, exactly that key is added, holding the given lists and tolerance, and nothing else changes |
| ParamMaps.Negate | rfsys/components/passive_components.py:30 | the derived NF list has one value per gain value |
| ParamMaps.PassiveIgnoresOtherNames | rfsys/components/passive_components.py:27 | a passive part ignores every name other than `gain` and leaves its map unchanged |
| ParamMaps.PassiveGainDerivesNF | rfsys/components/passive_components.py:27-31 | adding `gain` to a passive part adds `gain` as given, with its tolerance, and `NF` at the same frequencies with every value negated and no tolerance; nothing else changes |
| ParamMaps.PassiveGainExists | rfsys/components/passive_components.py:29 | an existing `gain` fails at once and leaves the map unchanged, so `NF` is not touched |
| ParamMaps.PassiveNFExists | rfsys/components/passive_components.py:29-31 | an existing `NF` lets `gain` in and then fails on the derived `NF`, which keeps its old curve |
| ParamMaps.PassiveFilterExample | rfsys/components/passive_components.py:27-31 | gain [-0.5, -1.0] at [10, 20] yields NF [0.5, 1.0] at [10, 20] |
| ParamMaps.Update | rfsys/components/base_component.py:233-249 | `update_parameter` on a table: a one-sample add for a new name, an `Upsert` of the existing curve otherwise; `UpdateAbsentAdds`, `UpdateReadBack`, `UpdateLength`, `UpdateParallel` and `UpdateRecorded` state its effect |
| ParamMaps.UpdateAbsentAdds | rfsys/components/base_component.py:245-246 | for an absent name the update is `add_parameter(name, [freq], [value])`, and that add succeeds |
| ParamMaps.UpdateReadBack | rfsys/components/base_component.py:245-249 | after an update the name is present, it reads back `value` at `freq`, every curve stays ascending, and no other entry changes |
| ParamMaps.UpdateLength | rfsys/components/base_component.py:248-249 | updating an existing name keeps its curve length when the frequency is known and grows it by one otherwise |
| ParamMaps.UpdateParallel | rfsys/components/base_component.py:245-249 | updates keep every curve parallel and touch only the named key |
| ParamMaps.UpdateRecorded | rfsys/components/base_component.py:245-249 | after an update the curve holds `freq`, and its length is 1 if the name was new, unchanged if `freq` was known, and one more otherwise |
| Components.Parameter.constructor | rfsys/components/base_component.py:95-97 | a new parameter holds the given name, lists and tolerance |
| Components.Parameter.GetValue | rfsys/components/base_component.py:106-125 | the read is `CurveValue` of the parameter's state, so the `Curves.Query*` lemmas apply: it fails only on an empty curve; one sample answers every query; with ascending samples, queries below or above the range are clamped to the first or last value |
| Components.Parameter.UpdateValue | rfsys/components/base_component.py:127-146 | the two loops leave the parameter's state equal to `Upsert` of its old state, which is the overwrite-or-insert above, and keep the lists parallel |
| Components.Component.constructor | rfsys/components/base_component.py:8-18 | a new component has the given uid, name and type and no parameters |
| Components.Component.AddBase | rfsys/components/base_component.py:20-43 | the component's parameter table and the outcome are those of `ParamMaps.Add` on the old table |
| Components.Component.AddParameter | rfsys/components/passive_components.py:15-31 | a passive part follows the passive rule (`gain` then the derived `NF`, other names dropped) and every other part follows the base rule, both stated by `AddWithPolicy` |
| Components.Component.GetParameter | rfsys/components/base_component.py:45-58 | returns the stored parameter object if and only if the name is present; otherwise fails naming it |
| Components.Component.GetValue | rfsys/components/base_component.py:60-72 | the value is the named curve read at `freq`; it fails with "missing parameter" if and only if the name is absent |
| Components.Component.UpdateParameter | rfsys/components/base_component.py:233-249 | only an untagged component (a `ComponentData`) has the method; the table becomes `Update` of the old one: a one-sample parameter for a new name, an in-place upsert of the existing `Parameter` otherwise, which keeps the very same object under that name |
| Cascade.FindUid | rfsys/core/sim_engine.py:26-28 | the scan finds the first entry holding the uid, or reports that none does |
| Cascade.GetOrAppend | rfsys/core/sim_engine.py:26-33 | the entry returned holds the requested uid |
| Cascade.GetOrAppendEffect | rfsys/core/sim_engine.py:26-33 | an existing uid leaves the list unchanged; otherwise exactly one new, empty entry with that uid and name is appended |
| Cascade.SetParam | rfsys/components/base_component.py:233-249 | writing into one data entry keeps the list's length and every other entry |
| Cascade.Before | rfsys/core/sim_engine.py:56-84 | stage 0 starts from 0 and reads no earlier entry; a later stage reads entry idx-1, and fails with an index error when there is none |
| Cascade.StageGain | rfsys/core/sim_engine.py:56-63 | `cascade_gain` on values: keeps the list's length; `StepValues` and `RunCascade` state the gain it writes, and `StepShape` that a missing `gain` fails |
| Cascade.NoiseFigure | rfsys/core/sim_engine.py:88-92 | the Friis step in linear units, failing on a zero linear gain or a non-positive logarithm argument; `StageNfFrom` and `StepValues` state its use |
| Cascade.StageNf | rfsys/core/sim_engine.py:78-93 | `cascade_nf` on values: keeps the list's length; `StepValues` and `RunCascade` state the Friis value it writes, and `StepShape` that a missing `NF` fails |
| Cascade.Step | rfsys/core/sim_engine.py:37-41 | one loop iteration keeps every curve parallel; `StepShape`, `StepValues` and `StepRecorded` state its effect |
| Cascade.RunFrom | rfsys/core/sim_engine.py:37-41 | the iterations from `idx` on keep every curve parallel; `RunFromCascade`, `RunFromRecorded` and `RunFromStops` carry the run lemmas by induction |
| Cascade.Run | rfsys/core/sim_engine.py:35-41 | `run(freq)` on values; `RunCascade`, `RunRecorded`, `RunStopsAtMissing` and `RunSorted` state its effect |
| Cascade.GainSumNext | rfsys/core/sim_engine.py:62 | the running sum of own gains extends by the next stage's own gain |
| Cascade.StepShape | rfsys/core/sim_engine.py:37-41 | one iteration keeps the data list aligned with the component list by uid and ascending, touches only entry idx, and fails if the component lacks `gain` or `NF` |
| Cascade.StepValues | rfsys/core/sim_engine.py:56-93 | a successful iteration writes into entry idx the previous cascaded gain plus the own gain, and the noise figure `prev_nf_lin + (own_nf_lin - 1) / prev_gain_lin`, converted back to dB and rounded |
| Cascade.StepRecorded | rfsys/core/sim_engine.py:63-93 | a successful iteration records one sample at `freq` in both the gain and the NF curve of entry idx |
| Cascade.RunRecorded | rfsys/core/sim_engine.py:37-93 | after a successful run, every stage's gain and NF curves hold `freq`: lengths are unchanged for a frequency already seen, one longer for a new one, and exactly one for an entry the run created |
| CascadeFailure.RunFailsAtMissing | rfsys/core/sim_engine.py:37-86 | on any component list and data list, repeated uids included, a component without `gain` or `NF` makes the run fail |
| Cascade.RunStopsAtMissing | rfsys/core/sim_engine.py:40-86 | with distinct uids and aligned data, the failure at a component without `gain` or `NF` also leaves every later entry unwritten and unappended |
| Cascade.RunCascade | rfsys/core/sim_engine.py:35-93 | with distinct uids, a successful run leaves one entry per component, aligned by uid; entry k's gain at `freq` is the sum of the own gains of stages 0..k, and its NF is the Friis recurrence over entry k-1's cascaded gain and NF (0 and 0 at stage 0) and stage k's own NF |
| Cascade.RunSorted | rfsys/core/sim_engine.py:35-41 | any run, with repeated uids or not, keeps every curve in the data list ascending without repeats |
| Engine.CascadeEngine.constructor | rfsys/core/sim_engine.py:7-14 | the engine holds the component list and an empty data list |
| Engine.CascadeEngine.AddComponentData | rfsys/core/sim_engine.py:16-33 | the data list and the returned index are `GetOrAppend` of the old list, and the returned object is that entry |
| Engine.CascadeEngine.AppendData | rfsys/core/sim_engine.py:31-33 | exactly one new, empty, fresh `ComponentData` is appended |
| Engine.CascadeEngine.UpdateEntry | rfsys/core/sim_engine.py:63-93 | `update_parameter` on entry k changes the data list exactly as `SetParam` does; no other entry changes |
| Engine.CascadeEngine.CascadeGain | rfsys/core/sim_engine.py:43-63 | on success the data list is `StageGain` of the old one; a failed read fails with that read's error and leaves the data list unchanged |
| Engine.CascadeEngine.CascadeNf | rfsys/core/sim_engine.py:65-93 | on success the data list is `StageNf` of the old one; a failed read, a zero linear gain or a non-positive logarithm argument fails with that error and writes nothing |
| Engine.CascadeEngine.RunStage | rfsys/core/sim_engine.py:37-41 | one loop iteration (resolve the entry, cascade gain, then NF) is `Step` on the old data list |
| Engine.CascadeEngine.Run | rfsys/core/sim_engine.py:35-41 | the new data list and the outcome are `Cascade.Run` on the old data list, so `RunCascade`, `RunRecorded`, `RunStopsAtMissing` and `RunSorted` hold of the engine |
| Engine.StageGainCases | rfsys/core/sim_engine.py:56-63 | gain cascading fails with the first failing read; otherwise it writes previous plus own gain into the entry |
| Engine.StageNfFails | rfsys/core/sim_engine.py:78-86 | NF cascading fails with the first failing read: previous gain, then previous NF, then own NF |
| Engine.StageNfFrom | rfsys/core/sim_engine.py:86-93 | once the reads have succeeded, NF cascading fails exactly when the recurrence fails, and otherwise writes the recurrence's value |
| Builder.BoundClass | rfsys/components/__init__.py:1-2 | only `Filter` and `Amplifier` resolve to a class |
| Builder.AddAll | rfsys/components/__init__.py:41-43 | the `add_parameter` calls in dictionary order, stopping at the first failure with earlier additions kept; `AddAllAppend`, `AddAllKeeps`, `AddAllBase` and `AddAllBaseValues` state its effect |
| Builder.Build | rfsys/components/__init__.py:22-47 | an invalid type fails naming VALID_COMPONENTS; a valid but unbound type fails at the lookup; for `Filter` and `Amplifier` the build succeeds if and only if every addition passes, a failing addition's error is the build's error, and a built component has the dict's uid, name and type, and holds what the dict's additions, run in order, produce |
| Builder.AddAllAppend | rfsys/components/__init__.py:42-43 | running two lists of additions is running the first and then, if it passed, the second |
| Builder.AddAllKeeps | rfsys/components/__init__.py:42-43 | additions never remove or overwrite an existing parameter; every new key is one the entries name, or the derived `NF` of a passive part |
| Builder.AddAllBase | rfsys/components/__init__.py:42-43 | under the base rule, entries with distinct fresh names, matching lengths and acceptable options all succeed; the table gains exactly their names and keeps every old entry |
| Builder.AddAllBaseValues | rfsys/components/__init__.py:42-43 | under the same conditions, each entry's name holds that entry's lists and tolerance |
| Builder.PassiveBuildKeys | rfsys/components/__init__.py:42-43 | additions to a passive part can only introduce `gain` and `NF` |
| Builder.PassiveOnlyGain | rfsys/components/passive_components.py:27-31 | a name that a passive part gains is `gain` or `NF` |
| Builder.ComponentBuilder | rfsys/components/__init__.py:22-47 | the method fails exactly when `Build` fails, with the same error; otherwise it returns a fresh, well-formed component whose uid, name, tag and parameter table are `Build`'s |
| Netlist.PartAt | rfsys/core/netlist_parser.py:69-75 | the part pattern tried at one start position; `PartAtShape` states its groups |
| Netlist.SearchPart | rfsys/core/netlist_parser.py:69 | `re.search` of the part pattern: the leftmost start that matches; `SearchPartSkips` and `PartToken` state its result |
| Netlist.NameAt | rfsys/core/netlist_parser.py:78 | the source/sink pattern tried at one start position |
| Netlist.SearchName | rfsys/core/netlist_parser.py:78 | `re.search` of the source/sink pattern; `SourceSinkToken` and `NoDigitNoMatch` state its result |
| Netlist.SpanEnd | rfsys/core/netlist_parser.py:69-78 | a greedy character-class run ends at the first character outside the class |
| Netlist.DotDigits | rfsys/core/netlist_parser.py:69-78 | backtracking picks the largest group end at which `.` plus a digit can follow, and no larger end can |
| Netlist.ParsePart | rfsys/core/netlist_parser.py:67-86 | a parse error names the token |
| Netlist.SearchPartSkips | rfsys/core/netlist_parser.py:69 | a part match cannot start in leading characters that are not letters or digits |
| Netlist.PartAtShape | rfsys/core/netlist_parser.py:69-75 | at a position where the token has the shape refdes `-` uid separator port, the part pattern yields exactly those three fields |
| Netlist.PartToken | rfsys/core/netlist_parser.py:69-75 | `REFDES-UID.PORT`, after junk without letters or digits and before a tail that does not start with a digit, is the part with exactly those fields |
| Netlist.PartTokenAt | rfsys/core/netlist_parser.py:69-75 | the same statement, in terms of positions in the token |
| Netlist.NoDashNoPart | rfsys/core/netlist_parser.py:69 | without a `-`, the part pattern finds nothing |
| Netlist.SourceSinkToken | rfsys/core/netlist_parser.py:76-86 | `NAME.N` whose name upper-cases to SOURCE or SINK is `Source(N)` or `Sink(N)`; any other name is a parse error |
| Netlist.PartPatternFirst | rfsys/core/netlist_parser.py:69-78 | the part pattern is tried first: `SOURCE-A.1` is a part with refdes `SOURCE` |
| Netlist.AnyCharSeparator | rfsys/core/netlist_parser.py:69 | since `.` is unescaped, `R1-U23` is the part with refdes `R1`, uid `U` and port `3` |
| Netlist.NoDigitNoMatch | rfsys/core/netlist_parser.py:69-78 | both patterns need a digit, so a token without one matches neither |
| Netlist.NoDigitFails | rfsys/core/netlist_parser.py:86 | a token without a digit (the empty token, a bare `SOURCE`) is a parse error |
| Netlist.Split | rfsys/core/netlist_parser.py:51 | `split` gives at least one piece, and no piece contains the separator |
| Netlist.JoinSplit | rfsys/core/netlist_parser.py:51 | joining the pieces of a split gives the line back |
| Netlist.SplitJoin | rfsys/core/netlist_parser.py:51 | splitting a join of separator-free pieces gives the pieces back |
| Netlist.StripSemicolon | rfsys/core/netlist_parser.py:48-49 | at most one trailing `;` is removed, and only if present |
| Netlist.Tokens | rfsys/core/netlist_parser.py:48-51 | the pieces of the line after one trailing `;` is dropped; `TokensOfJoin` states them |
| Netlist.TokensOfJoin | rfsys/core/netlist_parser.py:48-51 | a line written as its tokens joined by `;` has exactly those tokens, with a trailing `;` or (when the last token is non-empty) without one |
| Netlist.ParseAll | rfsys/core/netlist_parser.py:56-61 | every token parsed in order, stopping at the first failure; `ParseAllMeaning` states it |
| Netlist.NetOf | rfsys/core/netlist_parser.py:51-64 | the first token as the input node and the rest as the outputs; `NetOfMeaning` states it |
| Netlist.ParseAllMeaning | rfsys/core/netlist_parser.py:56-61 | the outputs parse if and only if every token does, into their nodes in order; otherwise the error is the first failing token's |
| Netlist.NetOfMeaning | rfsys/core/netlist_parser.py:51-64 | a net exists if and only if every token parses; its input is the first token's node, and its outputs, one fewer than the tokens, are the other tokens' nodes in order; otherwise the error is the first failing token's |
| Netlist.ParseNet | rfsys/core/netlist_parser.py:40-64 | the loop's result is `NetOf` of the line's tokens; an empty line fails with an index error |

## Left out

- `Tolerances.Sample` models the random draws as a finite input sequence. It does not model the uniform or normal distributions, the value of sigma, or the final `round(value, 2)`. A run of draws that never passes ends in `NoValidDraw`, where the source would loop on.
- The cascade's `10**(x/10)`, `10*log10(x)` and `round(x, 2)` are parameters, not floating-point functions. No concrete dB result is derived.
- All numbers are exact `real`. Float rounding, NaN and infinities are not modelled, and neither is the `float()` text conversion.
- `CurveValue` interpolates exactly as `np.interp` does for ascending frequencies. For unsorted frequencies, numpy's result is not specified, and the model's is just some value. The read-back lemmas assume ascending frequencies, which every upsert preserves.
- `Engine.CascadeEngine` keeps its component list as the stage values the components hold when the engine is built. The source holds references, so a later change to a component would be seen by the next `run`. The model does not capture that aliasing.
- `Components.Parameter` copies the lists it is given. The source stores the caller's list objects (`base_component.py` lines 42 and 96-97), and `PassiveComponent.add_parameter` hands the same `freqs` list to both `gain` and `NF`. So in the source, `update_value` on `gain` at a new frequency also grows `NF`'s frequency list but not its values, and a later `NF` read goes wrong in `np.interp`. `Components.Component.AddParameter` gives `NF` its own copy, so the model does not capture this shared-list effect.
- A missing attribute on a `Parameter` without a tolerance is not modelled. The model sets `tolerance` to `None` and no attribute error can arise.
- `Builder`: a component dictionary missing `uid`, `name`, `type` or `params`, or an entry missing `name`/`freqs`/`values`, would raise KeyError or TypeError. These are not modelled: the dictionary is a record with all fields present.
- `add_parameter` converts non-list `freqs`/`values` with `list(...)`. The model takes sequences directly.
- `Tolerance` stores `limits` and `num_std_dev` unchecked, as the source does. A malformed `limits` surfaces only when sampling, as `WrongArgumentType`.
- `rfsys/core/xml_parser.py` (file I/O through ElementTree, and `float()` conversion) is not part of this model. Its `string_to_list` always splits at `,` and ignores its `sep` argument.
- The scripts (`test/scratch.py`, `usr/sim_test.py`, `rfsys/core/sim_ex.py`) and the `__main__` block of `netlist_parser.py` read files and print. They are not part of this model.
- `Netlist`: regular-expression matching is modelled only for the two patterns `parse_part` uses. Their classes are ASCII ranges, as in the source.
- `Tolerances.NewTolerance` upper-cases ASCII letters only. Python's `str.upper` also maps a few other letters onto ASCII ones (the dotless `ı` becomes `I`), so a `dist` spelled `unıform` is accepted by the source and refused by the model.
