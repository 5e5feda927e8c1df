# Steam presence integration: sensors and the primary-game device condition

A Dafny model of two pieces of the Home Assistant `steam_online` integration.

- **Sensor platform** (module `SteamSensor`, `sensor.dfy`). A Steam account's
  status record is projected into a sensor value, an availability flag and
  extra attributes. There are two sensor descriptions:
  - `player_status` shows the status label from the persona-state table.
  - `player_status_int` shows the raw `personastate` integer.
  Platform setup creates one sensor per (description, configured account)
  pair. Each sensor gets the unique id `sensor.steam_<account>_<key>`. The
  module also models the coordinator's game-icon cache. A hit returns the
  cached icon. A miss clears the whole cache.
- **Device condition** (module `DeviceCondition`, `device_condition.dfy`).
  Listing a device's conditions gives one entry per condition type. Building
  a checker from a configuration does three things:
  - It resolves the device and the device's first config entry.
  - It reads the primary account id stored in that entry.
  - It picks the first entity of the device, in registry order, whose unique
    id ends with that account id.
  The primary-game checker holds exactly when the primary entity's current
  `game_id` attribute is present and equal to the trigger's `to_state`
  `game_id`. Two absent games do not match. Every other condition type gets
  a checker that is constantly false.

Exceptions raised on the modelled paths become explicit error values, apart
from the cases listed under "## Left out". Results use `Result` and
"possibly None" values use `Option`, both in `wrappers.dfy`. `text.dfy` holds
`str.startswith` and `str.endswith`.

Two behaviours of the code are worth stating plainly:

- A sensor whose account has no record in non-None coordinator data is not
  merely unavailable. Reading `available` indexes the data with the account
  id and raises. `SteamSensor.Available` returns `Failure(UnknownAccount(..))`
  in that case. It returns `Success(false)` only when the base availability
  is false or the data is None.
- When no entity matches the primary account id, `next(...)` raises
  `StopIteration`. The model names this error `NoPrimaryEntity`. Primary
  resolution also runs for condition types other than the primary-game type,
  so such a configuration fails too when no entity matches.

The sensor unique ids built by `SteamSensor.UniqueId` end with the
description key, not with the account id. So, for a non-empty primary
account id whose last character is a digit, as a Steam id's is, the suffix
test used in primary resolution never selects these sensors. Other account
ids can select them: an empty id matches every entity, and "status" matches
every `player_status` sensor. Primary resolution is therefore modelled over
an arbitrary entity list.

## Model

| member | source | states |
|---|---|---|
| SteamSensor.ApplyValue | homeassistant/components/steam_online/sensor.py:37-39 | The status-label value is defined exactly when the record's status has a table entry, and is that entry's label. Otherwise it fails with UnknownPersonaState for that status. The raw value is always the record's status. |
| SteamSensor.ApplyAttrs | homeassistant/components/steam_online/sensor.py:47-49 | The default attribute function reports nothing. attr_fn reports exactly {"some_attr": "foo"}. |
| SteamSensor.ApplyAvailable | homeassistant/components/steam_online/sensor.py:42-44 | Both availability functions accept every record. |
| SteamSensor.DescriptionDefaults | homeassistant/components/steam_online/sensor.py:33-34 | A description that sets only its key and value function reports no attributes and is available for every record. |
| SteamSensor.SensorDescriptionsProject | homeassistant/components/steam_online/sensor.py:60-77 | There are exactly two descriptions, keyed player_status and player_status_int. The first yields the status label and fails for an unknown status. The second yields the raw status. Both are always available and report the placeholder attributes. |
| SteamSensor.StatusCodeDefinedWhenLabelFails | homeassistant/components/steam_online/sensor.py:74 | For a status missing from the table, the label projection fails but the raw projection still returns the status. |
| SteamSensor.LabelAndCodeConsistent | homeassistant/components/steam_online/sensor.py:60-77 | When the table gives distinct codes distinct labels, the raw status is the only code that carries the displayed label. |
| SteamSensor.AttrsIgnoreRecord | homeassistant/components/steam_online/sensor.py:47-49 | The attributes are the same for every record. |
| SteamSensor.UniqueId | homeassistant/components/steam_online/sensor.py:172 | The id starts with "sensor.steam_", ends with "_" followed by the key, and holds the account right after the prefix. Its length is the sum of its parts. |
| SteamSensor.UniqueIdRoundTrip | homeassistant/components/steam_online/sensor.py:172 | Reading the account back out of a unique id, given the key, recovers the account. |
| SteamSensor.AccountOfUniqueIdSound | homeassistant/components/steam_online/sensor.py:172 | Any string from which an account is read back is exactly that account's unique id for the key. |
| SteamSensor.UniqueIdsDistinct | homeassistant/components/steam_online/sensor.py:172 | With the two shipped keys, different (account, key) pairs never share a unique id. |
| SteamSensor.UniqueIdAmbiguousForOtherKeys | homeassistant/components/steam_online/sensor.py:172 | For keys other than the shipped ones the id format collides: ("a_b", "c") and ("a", "b_c") give the same id. |
| SteamSensor.SensorIdsMissNumericAccount | homeassistant/components/steam_online/sensor.py:172 | A sensor's unique id never ends with a non-empty account id whose last character is a digit. |
| SteamSensor.SensorIdsMatchKeyTail | homeassistant/components/steam_online/sensor.py:172 | Every player_status sensor's unique id ends with "status", so that account id would select it. |
| SteamSensor.NewSensor | homeassistant/components/steam_online/sensor.py:157-172 | A new sensor keeps its description and account. The account is read back from its unique id for the description's key. |
| SteamSensor.SensorsFor | homeassistant/components/steam_online/sensor.py:147-149 | For one description there is one sensor per account, in account order, and the j-th is the sensor for the j-th account. |
| SteamSensor.SetupEntities | homeassistant/components/steam_online/sensor.py:145-150 | Setup creates exactly descriptions × accounts sensors. |
| SteamSensor.SetupEntitiesOrder | homeassistant/components/steam_online/sensor.py:145-150 | The sensor for description i and account j is at position i·|accounts| + j, so the order is description-major. |
| SteamSensor.SetupEntitiesCover | homeassistant/components/steam_online/sensor.py:145-150 | Every created sensor is the sensor of some (description, account) pair, at that pair's position. |
| SteamSensor.SetupUniqueIdsDistinct | homeassistant/components/steam_online/sensor.py:145-172 | Setting up the shipped descriptions for distinct accounts gives pairwise distinct unique ids. |
| SteamSensor.AccountRecord | homeassistant/components/steam_online/sensor.py:202 | The coordinator-data lookup fails with NoCoordinatorData when the data is None and with UnknownAccount when the account is missing. Otherwise it returns the account's record. |
| SteamSensor.Available | homeassistant/components/steam_online/sensor.py:183-189 | The result is false when base availability is false or the data is None, and no lookup happens then. It fails with UnknownAccount exactly when the data lacks the account. It is true exactly when all three hold. |
| SteamSensor.NativeValue | homeassistant/components/steam_online/sensor.py:199-202 | The value is defined exactly when the data holds the account and, for the label sensor, the status is in the table. It is the label or the raw status. Each failure names its cause: no data, unknown account or unknown status. |
| SteamSensor.ExtraStateAttributes | homeassistant/components/steam_online/sensor.py:204-207 | The attributes are defined exactly when the data holds the account. Otherwise they fail with NoCoordinatorData for None data and with UnknownAccount for a missing account. They are absent only for the default attribute function and otherwise are the placeholder mapping. |
| SteamSensor.AvailableImpliesReadable | homeassistant/components/steam_online/sensor.py:183-207 | An available sensor has defined attributes and a defined raw value. Its only possible failure is the label lookup of an unknown status. |
| SteamSensor.SensorReadsOnlyItsAccount | homeassistant/components/steam_online/sensor.py:199-207 | A sensor's value and attributes depend only on its own account's record, so other accounts' records never change or break it. |
| SteamSensor.GetGameIcon | homeassistant/components/steam_online/sensor.py:238-244 | On a hit (the record has a game id that is in the cache) the result is the cached icon and the cache is unchanged. Otherwise the result is None and the cache is empty. |
| SteamSensor.GameIconIdempotent | homeassistant/components/steam_online/sensor.py:240-244 | Repeating a lookup gives the same icon and cache, so a repeated miss leaves the cache empty. |
| SteamSensor.GameIconMissForgetsAll | homeassistant/components/steam_online/sensor.py:242-244 | After a miss, every lookup for any record misses. |
| SteamSensor.GameIconNeverAdds | homeassistant/components/steam_online/sensor.py:238-244 | A lookup never adds or changes a cache entry, and a returned icon is one of the cached values. |
| DeviceCondition.GetConditions | homeassistant/components/steam_online/device_condition.py:37-51 | There is one entry per condition type, and the entry types are exactly the condition types. Each entry has exactly the keys condition, device_id, domain and type, with values "device", the given device and the integration's domain. |
| DeviceCondition.ResolveConfigEntry | homeassistant/components/steam_online/device_condition.py:61-67 | An unknown device fails with NoDevice. A device without config entries fails with DeviceWithoutEntry. A first entry id that does not resolve fails with EntryNotFound. Otherwise the result is that first entry. |
| DeviceCondition.FirstEndingWith | homeassistant/components/steam_online/device_condition.py:71-77 | A found position is the first entity, in registry order, whose unique id ends with the suffix. None means no entity's unique id ends with it. |
| DeviceCondition.FirstMatchUnique | homeassistant/components/steam_online/device_condition.py:71-77 | There is at most one first match. |
| DeviceCondition.EmptySuffixSelectsFirstEntity | homeassistant/components/steam_online/device_condition.py:76 | An empty primary account id selects the device's first entity. |
| DeviceCondition.ResolvePrimaryEntity | homeassistant/components/steam_online/device_condition.py:60-77 | A failure to resolve the config entry is passed on unchanged. An entry without a stored primary account id fails with NoPrimaryAccount. Once the entry and account id resolve, resolution succeeds exactly when some entity's unique id ends with that id, and fails with NoPrimaryEntity otherwise. A result is the entity id of the first such entity. |
| DeviceCondition.ConditionFromConfig | homeassistant/components/steam_online/device_condition.py:55-110 | Building fails exactly when primary resolution fails, with the same error, for any condition type. On success the checker is the primary-game checker, bound to the resolved entity, exactly for the primary-game type. |
| DeviceCondition.ConditionBuildsWhenPrimaryMatches | homeassistant/components/steam_online/device_condition.py:60-110 | When the config entry resolves, stores a primary account id and some entity matches it, building succeeds for any condition type. A primary-game condition is bound to the first matching entity. Any other type gets the always-false checker. |
| DeviceCondition.UnknownDeviceFails | homeassistant/components/steam_online/device_condition.py:61-63 | A configuration whose device does not resolve produces no checker and fails with NoDevice. |
| DeviceCondition.NoPrimaryEntityFails | homeassistant/components/steam_online/device_condition.py:71-77 | When no entity's unique id ends with the primary account id, building fails with NoPrimaryEntity whatever the condition type. |
| DeviceCondition.GamesMatch | homeassistant/components/steam_online/device_condition.py:103 | A match means both games are present and equal. An absent game on either side is never a match. |
| DeviceCondition.GamesMatchVersusEquality | homeassistant/components/steam_online/device_condition.py:98-103 | The match is option equality with the absent/absent case excluded. It is symmetric even though only the primary side is tested for None. |
| DeviceCondition.Check | homeassistant/components/steam_online/device_condition.py:79-103 | The default checker is false for every input. The primary-game checker fails with NoTrigger without a trigger and with NoToState without a to_state. It never fails once the trigger carries a to_state. It is true exactly when the primary entity has a state with a game_id equal to the to_state's game_id. |
| DeviceCondition.AbsentPrimaryGameNeverMatches | homeassistant/components/steam_online/device_condition.py:98-103 | If the primary entity has no state or no game_id, the condition never holds, whatever the trigger's game, absent included. With a trigger that carries a to_state, the result is false. |
| DeviceCondition.OtherConditionTypesNeverHold | homeassistant/components/steam_online/device_condition.py:105-108 | A built condition of any other type evaluates to false for all states and variables. |
| DeviceCondition.PrimaryGameConditionEndToEnd | homeassistant/components/steam_online/device_condition.py:69-103 | For a built primary-game condition and a trigger with a to_state, evaluation succeeds. It is true exactly when the first entity whose unique id ends with the stored primary account id reports a game equal to the to_state's game. |
| DeviceCondition.SameGameExample | homeassistant/components/steam_online/device_condition.py:86-103 | Worked example: primary game "10" with trigger game "10" matches. Trigger game "20" does not. A primary without a game does not match. |

## Left out

- The Home Assistant registries, state machine and config-entry storage are plain maps and sequences. The polling coordinator is not part of this model. Its data is an optional map from account id to record, and its icon cache is a map.
- Async setup, entity registration, the sensor and Steam entity base classes, and PARALLEL_UPDATES are left out. `super().available` is the boolean parameter `baseAvailable`.
- The `print` calls in `value_fn`, `avabl_fn` and `attr_fn` are console output only.
- The voluptuous condition schema is left out. Configurations are taken as already validated, with a device id and a type.
- The commented-out code is left out, because it is not live behaviour. That includes the attribute builder with game URLs and last-online time, the older `native_value`, the device info and the sample payload.
- The contents of `STEAM_STATUSES` are not modelled; the table is a parameter. DOMAIN, CONDITION_PRIMARY_GAME and CONF_ACCOUNT come from the integration's `const.py`, which is not part of this model, so they are fields of `IntegrationConstants`. The condition keys use Home Assistant's values "condition", "device_id", "domain" and "type".
- Reading the configured accounts at setup (`entry.options[CONF_ACCOUNTS]`) is not modelled. `SetupEntities` takes the account list directly, so a missing accounts option, which would raise KeyError, is not represented.
- The stored primary account id is a string. A stored value of another type, which would fail at `.endswith`, is not modelled.
- The status record holds only `personastate`, always present, and an optional `gameid`. A record without `personastate`, which would raise KeyError, is not modelled.
- The game-icon cache is keyed by the record's game id type. A record without a game id therefore always misses. How the coordinator refills the cache is left out.
- An empty trigger mapping is falsy and raises just like a missing trigger, so it is modelled as an absent trigger. Attribute values are strings, so Python equality of other value types is not modelled.
- The entity registry's filtering of disabled entities in `async_entries_for_device` is not modelled.
- The device's config entries are a set in the registry, and `list(...)[0]` picks an arbitrary one. The model fixes an order and always takes the head of its sequence. This matters only for a device with more than one config entry.
- The entity category, state class and suggested unit are recorded on the descriptions. Their effect on the host's display is not modelled.
