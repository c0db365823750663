# Tuya smart-home control: a verified model of the decision rules

The program is a desktop window (with a tray icon) that switches cloud-connected
fans (category tag `fskg`) and lights (category tag `tdq`) through the vendor's
REST API. Nearly all of it is widget code. This project models the part that
makes decisions:

- **fan_config.dfy** (`FanConfig`) models `get_normal_speed` and
  `get_normalize_display_text`. The normal speed of a fan is 40 when its
  lower-cased name contains `exaust`, and 45 otherwise.
- **category_status.dfy** (`CategoryStatus`) models the "Fans", "Lights" and
  "All" status lines. Each line shows one of Unknown, ON, MIXED or OFF, in a
  colour, and chooses which master buttons stay visible.
- **commands.dfy** (`Commands`) models status maps, command tuples and the
  decision `device_action` makes before it posts: skip the command, or send a
  toggled or coerced value. It also models the `last_state` that an accepted
  command leaves behind.
- **widgets.dfy** (`Widgets`) models the device file and the `device_widgets`
  table built from it, as an insertion-ordered dictionary that includes the two
  master pseudo-entries. It also holds the functions that specify the batch
  action lists, the split of polled switch states into fans and lights, the
  `last_state` refresh and the "all on" indicators.
- **cloud_ui.dfy** (`CloudUi`) has the class `CloudUI`. Its constant fields are
  the device file and the widget table. Its variable fields are the `last_state`
  entries and the cached poll. Its methods are the loops and state updates of
  `main.py`, and each is proved against the functions in `Widgets`.

Remote calls are replaced by inputs. A status read becomes a map from device id
to the status map that the read returns; a missing id or an empty map means the
read failed. Whether a posted command succeeded becomes a boolean.

Two places where the code does something other than what it evidently means:

- fan_config.py:6 tests for the misspelling `exaust`, although the comment on
  line 7 says the 40% speed is meant for exhaust fans. The model follows the
  test. A fan named "Exhaust Fan 1" therefore gets 45
  (`FanConfig.ExhaustFanOneGetsRegularSpeed`), and a name containing
  "exhaust" does not contain the marker (`FanConfig.CorrectSpellingLacksMarker`).
- `device_widgets` also holds the pseudo-entries `master_fans` and
  `master_lights` (main.py:300-303, 390-393). The overall indicator filters
  them out (main.py:685-686), but `set_all_state` walks the whole table and
  meets them (see Findings).

## Model

| member | source | states |
|---|---|---|
| `FanConfig.GetNormalSpeed` | fan_config.py:3-8 | The result is 40 or 45. It is 40 exactly when the lower-cased name contains "exaust". |
| `FanConfig.Lower` | fan_config.py:5 | Keeps the length. Each character is lower-cased, and no upper-case letter is left. |
| `FanConfig.LowerIdempotent` | fan_config.py:5 | Lower-casing twice gives the same result as lower-casing once. |
| `FanConfig.NormalSpeedIgnoresCase` | fan_config.py:5-8 | `get_normal_speed(n) == get_normal_speed(n.lower())`. |
| `FanConfig.MisspelledMarkerGetsExhaustSpeed` | fan_config.py:6-7 | Any name containing "exaust" or "EXAUST" gets 40. |
| `FanConfig.CorrectSpellingLacksMarker` | fan_config.py:6 | "exhaust" does not contain the marker "exaust". |
| `FanConfig.RegularSpeedWithoutMarker` | fan_config.py:6-8 | A name with no "e" followed two places later by an "a" (either case) gets 45. |
| `FanConfig.ExhaustFanOneGetsRegularSpeed` | fan_config.py:6-8 | "Exhaust Fan 1" gets 45, not 40. |
| `FanConfig.FanTwoGetsRegularSpeed` | fan_config.py:8 | "Fan 2" gets 45. |
| `FanConfig.GetNormalizeDisplayText` | fan_config.py:10-12 | Always returns the fixed label "Normalize (E:40%/F:45%)". |
| `CategoryStatus.All` | main.py:766 | `all(states)` holds iff no state is false. |
| `CategoryStatus.Any` | main.py:770 | `any(states)` holds iff some state is true. |
| `CategoryStatus.Classify` | main.py:761-777 | Empty gives Unknown. All true gives ON. Both values present gives MIXED. All false gives OFF. Green iff ON, orange iff MIXED. Only "off" shown iff ON, only "on" shown iff OFF, otherwise both. |
| `CategoryStatus.ClassifyIgnoresOrder` | main.py:761-777 | Two lists with the same multiset of states get the same classification. |
| `CategoryStatus.ClassifyAppend` | main.py:759 | The "All" status of `fan_states + light_states` follows from the statuses of the two parts. |
| `Commands.CommandSwitch` | main.py:835 | Batch commands use "switch_fan" exactly for `fskg`, and "switch_1" for every other category. |
| `Commands.StatusSwitch` | main.py:749 | Status reads use "switch_1" exactly for `tdq`, and "switch_fan" for every other category. |
| `Commands.SwitchCodesAgree` | main.py:749 | For `fskg` and `tdq`, the code read and the code commanded are the same. |
| `Commands.Decide` | main.py:616-633 | A non-forced switch command with an empty read is skipped. Otherwise it sends `not status.get(cmd, False)`. `fan_speed` sends `int(value)` of the caller's value. Every other code sends `bool` of the value decided on. |
| `Commands.DecideSkipsReadWhenForced` | main.py:618 | A forced command, or one that is not a switch, does not depend on the status read and is never skipped. |
| `Commands.ForcedSwitchSendsRequest` | main.py:630-631 | A forced switch command with value `s` sends exactly `s`. |
| `Commands.ToggleNegatesCurrent` | main.py:620-622 | A toggle where the switch reads `b` sends `not b`. A toggle where the code is missing sends true. |
| `Commands.ToggleTwiceRestores` | main.py:618-633 | Once the device holds the value the first toggle sent, a second toggle sends the original value. |
| `Commands.LastStateAfter` | main.py:639-643 | After an accepted switch command, `last_state` is the boolean sent. `fan_speed` keeps the previous `last_state`, or False if there was none. |
| `Widgets.FirstName` | main.py:869-870 | The name of the first file entry whose id matches. |
| `Widgets.FirstIndex` | main.py:869-870 | The index of the first file entry whose id matches: that entry has the id and no earlier one does. |
| `Widgets.FirstIndexOfPrefix` | main.py:97-99 | An id listed in a prefix of the file has the same first index in the whole file. |
| `Widgets.PollOrder` | main.py:96-100 | The keys of a full poll: every file id and nothing else, each once. |
| `Widgets.PollOrderFollowsFile` | main.py:97-99 | The poll visits ids in the order of their first entry in the file. |
| `Widgets.Poll` | main.py:96-100 | `get_all_statuses` maps exactly the file's ids to their status reads. |
| `Widgets.Insert` | main.py:522-537 | Dictionary assignment. A new key goes last and an existing key keeps its place. |
| `Widgets.WidgetTableEntries` | main.py:402-406 | Every table entry is a master entry or a fan/light that the file lists with that category. |
| `Widgets.WidgetTableHasEveryDevice` | main.py:402-406 | Every fan and light of the file has an entry, and that entry has a device category. |
| `Widgets.FanEntryIsListed` | main.py:403-404 | Every fan entry's id is in the file, so the name lookup of `normalize_fan_speeds` cannot fail. |
| `Widgets.WidgetTableLastEntryWins` | main.py:402-406 | When the file lists an id more than once as a fan or light, the last such entry decides its category in the table, because `add_fan`/`add_light` replace the entry (main.py:522, 593). |
| `Widgets.WidgetTableKeepsMaster` | main.py:390-393 | `master_fans` and `master_lights` stay in the table with their master categories unless the file reuses their ids. |
| `Widgets.CategoryActionsExact` | main.py:831-836 | A category batch has exactly one action per entry of that category. Each action is `(id, 'switch_fan' if c == 'fskg' else 'switch_1', s, True)`. |
| `Widgets.AllActionsExact` | main.py:849-853 | The batch as written has exactly one action per table entry, using that entry's command code. |
| `Widgets.SetAllStateTargetsMasterEntries` | main.py:849-853 | As written, the batch includes `('master_fans', 'switch_1', s, True)` and `('master_lights', 'switch_1', s, True)`. |
| `Widgets.DeviceActionsExact` | main.py:849-853 | The corrected batch has exactly one action per fan and light entry. |
| `Widgets.DeviceActionsAreBothCategories` | main.py:849-853 | The corrected batch is, as a multiset, the fan batch plus the light batch. |
| `Widgets.DeviceActionsTargetTheFile` | main.py:849-853 | The corrected batch targets only ids from the file, and reaches every fan and light in it. |
| `Widgets.NormalizeActionsExact` | main.py:863-872 | There is one forced `fan_speed` action per fan whose read is non-empty and shows `switch_fan` on. Its value is the normal speed of the fan's name. Fans that are off or unreadable get no action. |
| `Widgets.NormalizeSpeedsAreNormal` | main.py:871-872 | Every normalize action is a forced `fan_speed` command with value 40 or 45. |
| `Widgets.PartitionIsPermutation` | main.py:744-757 | `fan_states + light_states` is a reordering of the switch states of all polled devices in the table. |
| `Widgets.Refreshed` | main.py:723-729 | A non-empty read sets the device's `last_state` to its switch value. An empty read changes nothing. No other entry changes. |
| `Widgets.RefreshAllReadsEachDevice` | main.py:744-746 | After the status pass, each polled id with a table entry and a non-empty read holds its switch value under its table category. Every other id keeps its old `last_state`, or stays without one. |
| `Widgets.InitialLastStateReadsTable` | main.py:402-406 | After construction, an id has a `last_state` exactly when the file lists it as a fan or light and its read is non-empty. Its value is its switch as read under its table category. |
| `Widgets.CategoryAllOn` | main.py:673-682 | A category indicator is on iff every entry of that category has `last_state` on. It is on when the category has no entries. |
| `Widgets.EveryDeviceOn` | main.py:684-689 | The overall indicator is on iff every `fskg` and `tdq` entry has `last_state` on. Master entries are ignored. |
| `Widgets.EveryDeviceOnIsBothCategories` | main.py:673-689 | The overall indicator is on iff the fan indicator and the light indicator are both on. |
| `Widgets.IndicatorsFor` | main.py:664-689 | Shows the device's own light. Updates the fan indicator only for fans and the light indicator only for lights. Always updates the overall indicator. |
| `CloudUi.CloudUI.constructor` | main.py:402-406 | Builds the table from the file after the two master entries. Reads each fan and light once as it is added, then polls every device. A reused id replaces its entry and drops its `last_state` before the new read (closed form: `InitialLastStateReadsTable`). |
| `CloudUi.CloudUI.UpdateDeviceStatus` | main.py:723-731 | A non-empty read of a table entry sets its `last_state` and returns its indicators. Otherwise nothing changes. |
| `CloudUi.CloudUI.DeviceAction` | main.py:612-662 | Sends what `Decide` chooses. A skip or a rejected command leaves `last_state` and `cached_states` unchanged. An accepted command sets only this device's `last_state` (as `LastStateAfter`) and re-polls. |
| `CloudUi.CloudUI.UpdateAllStatuses` | main.py:739-759 | Splits polled switch states into the fan list and the list of every other entry, in poll order. Refreshes `last_state` from a second read (its closed form is `RefreshAllReadsEachDevice`). Classifies the fans, the lights and both together. |
| `CloudUi.CloudUI.SetCategoryState` | main.py:831-836 | Returns the category batch, with the properties in `CategoryActionsExact`. |
| `CloudUi.CloudUI.SetAllState` | main.py:849-853 | Returns the batch as written: one action per table entry, master entries included. |
| `CloudUi.CloudUI.SetAllDevicesState` | main.py:849-853 | The corrected batch: one action per fan and light, each targeting an id from the file. |
| `CloudUi.CloudUI.NormalizeFanSpeeds` | main.py:863-872 | Returns the normalize batch. Every action is a forced `fan_speed` command with value 40 or 45. |
| `CloudUi.AllStatusCoversKnownDevices` | main.py:744-759 | The "All" line classifies the switch states of every polled device in the table, whatever their order. |
| `CloudUi.EveryDeviceReadsOn` | main.py:744-757 | If every polled device in the table reads on, neither list contains an off state. |
| `CloudUi.BothDevicesOnScenario` | main.py:739-777 | With one fan `f1` and one light `l1` both reading on, the fan, light and overall lines all read ON. |

## Findings

| source | as written | input that shows it | evidently intended | confidence | as-written member | corrected member |
|---|---|---|---|---|---|---|
| main.py:849-853 | `set_all_state` walks all of `device_widgets`. That table also holds the pseudo-entries `master_fans` and `master_lights` (main.py:300-303, 390-393), so "turn everything on/off" also queues `('master_fans', 'switch_1', s, True)` and `('master_lights', 'switch_1', s, True)`. | Any device file that does not use those two ids, for example the empty file. | One action per fan and light only. This matches the filter the overall indicator uses at main.py:685-686. | high that the extra actions are queued; their remote effect is unknown; not executed | `Widgets.SetAllStateTargetsMasterEntries` | `CloudUi.CloudUI.SetAllDevicesState` |

## Left out

- Widget construction, layout, colours, button text and flash feedback, and `root.after` timers (main.py:102-426, 444-608, 644-662, 779-816). `IndicatorsFor` and `Classify` keep only the on/off values shown and the choice of visible master buttons.
- Network calls in `CloudControl.control` and `get_device_status` (main.py:75-94). Their results are inputs: status maps and a success flag.
- `_run_concurrent_actions` (main.py:818-829): one thread per action, the 0.05 s stagger and the deferred re-polls. Each `DeviceAction` runs as one atomic step. The unsynchronised writes to `last_state` from several threads are not modelled.
- Tray menu, window show/hide, startup shortcuts, environment variables, JSON loading, the copy-from-example fallback and the expiry label (main.py:27-73, 410-423, 881-1029). `generate_icon.py` and `build.py` are not part of this model.
- `update_device_status` also moves the speed slider and label of a fan (main.py:733-737). This is UI only.
- `CloudUi.CloudUI.constructor`: does not itself run the `update_all_statuses` call at main.py:424. A caller runs `UpdateAllStatuses` afterwards. One `polled` input stands for both the per-device reads during construction and the poll at main.py:425. So a reused id is read twice with the same result, and the dropped `last_state` is visible only when that read is empty.
- `CloudUi.CloudUI.DeviceAction`: requires the id to be in the table. In the code, an unknown id raises `KeyError` in `_update_device_ui` (main.py:691) after an accepted command. Every caller passes an id from the table.
- `CloudUi.CloudUI.UpdateAllStatuses`: the two reads it makes (the full poll and the per-device re-read) are separate inputs, because the remote may change between them.
- Values: status and command values are booleans or integers only. Strings, floats and the `int()` error on a non-numeric value are not modelled. `last_state` stores the truth value of the switch read; the code stores the raw value. Every reader uses its truth value, so the indicators agree.
- `FanConfig.Lower`: lower-cases ASCII letters only. Python's `str.lower` also folds non-ASCII letters; the marker is ASCII.
