/** The Steam device condition "the primary account plays the same game":
    listing the condition types of a device, building a checker from a
    condition configuration (resolving the device, its config entry and the
    primary account's entity), and evaluating the checker against a trigger. */
module DeviceCondition {
  import opened Wrappers
  import opened Text

  /** The configuration keys of a device condition (Home Assistant's
      CONF_CONDITION, CONF_DEVICE_ID, CONF_DOMAIN and CONF_TYPE). */
  const ConfCondition: string := "condition"
  const ConfDeviceId: string := "device_id"
  const ConfDomain: string := "domain"
  const ConfType: string := "type"

  /** The state attribute that carries an account's current game. */
  const GameIdAttribute: string := "game_id"

  /** The integration's own constants DOMAIN, CONDITION_PRIMARY_GAME and
      CONF_ACCOUNT; their values are defined outside this model. */
  datatype IntegrationConstants = IntegrationConstants(domain: string, primaryGame: string, confAccount: string)

  /** CONDITION_TYPES. */
  function ConditionTypes(k: IntegrationConstants): set<string> {
    {k.primaryGame}
  }

  /** async_get_conditions: one condition per condition type, each naming the
      device condition, the device, the integration's domain and the type. */
  function GetConditions(k: IntegrationConstants, deviceId: string): (r: seq<map<string, string>>)
    ensures |r| == |ConditionTypes(k)|
    ensures forall c :: c in r ==> c.Keys == {ConfCondition, ConfDeviceId, ConfDomain, ConfType}
    ensures forall c :: c in r ==> c[ConfCondition] == "device" && c[ConfDeviceId] == deviceId && c[ConfDomain] == k.domain
    ensures (set c | c in r :: c[ConfType]) == ConditionTypes(k)
  {
    var base := map[ConfCondition := "device", ConfDeviceId := deviceId, ConfDomain := k.domain];
    var r := [base[ConfType := k.primaryGame]];
    assert (set c | c in r :: c[ConfType]) == {k.primaryGame} by {
      assert r[0] in r;
    }
    r
  }

  // ---------------------------------------------------------------------
  // Registries, read at construction time
  // ---------------------------------------------------------------------

  /** A device registry entry: the ids of the config entries it belongs to. */
  datatype Device = Device(configEntries: seq<string>)

  /** A config entry: its stored data. */
  datatype ConfigEntry = ConfigEntry(data: map<string, string>)

  /** An entity registry entry: its stable unique id and its entity id. */
  datatype EntityEntry = EntityEntry(uniqueId: string, entityId: string)

  /** The device registry, the config entries and the entity registry's
      entries per device, in registry order. */
  datatype Registries = Registries(
    devices: map<string, Device>,
    configEntries: map<string, ConfigEntry>,
    deviceEntities: map<string, seq<EntityEntry>>)

  /** A validated condition configuration. */
  datatype ConditionConfig = ConditionConfig(deviceId: string, conditionType: string)

  datatype ConditionError =
    | NoDevice              // TypeError("No device")
    | DeviceWithoutEntry    // IndexError: the device lists no config entry
    | EntryNotFound         // the entry id does not resolve; reading its data fails
    | NoPrimaryAccount      // KeyError: the entry stores no primary account id
    | NoPrimaryEntity       // StopIteration: no entity's unique id ends with it
    | NoTrigger             // TypeError("No trigger")
    | NoToState             // the trigger carries no to_state to read attributes from

  /** The entities registered for a device; none for an unknown device. */
  function EntitiesForDevice(reg: Registries, deviceId: string): seq<EntityEntry> {
    if deviceId in reg.deviceEntities then reg.deviceEntities[deviceId] else []
  }

  /** The config entry of a device: the device must exist, and its first
      config entry must resolve. */
  function ResolveConfigEntry(reg: Registries, deviceId: string): (r: Result<ConfigEntry, ConditionError>)
    ensures deviceId !in reg.devices ==> r == Failure(NoDevice)
    ensures deviceId in reg.devices && |reg.devices[deviceId].configEntries| == 0 ==> r == Failure(DeviceWithoutEntry)
    ensures (deviceId in reg.devices && |reg.devices[deviceId].configEntries| > 0
             && reg.devices[deviceId].configEntries[0] !in reg.configEntries) ==> r == Failure(EntryNotFound)
    ensures r.Success? <==> (deviceId in reg.devices && |reg.devices[deviceId].configEntries| > 0
                             && reg.devices[deviceId].configEntries[0] in reg.configEntries)
    ensures r.Success? ==> r.value == reg.configEntries[reg.devices[deviceId].configEntries[0]]
  {
    if deviceId !in reg.devices then Failure(NoDevice)
    else
      var device := reg.devices[deviceId];
      if |device.configEntries| == 0 then Failure(DeviceWithoutEntry)
      else if device.configEntries[0] !in reg.configEntries then Failure(EntryNotFound)
      else Success(reg.configEntries[device.configEntries[0]])
  }

  /** Position i holds the first entity, in registry order, whose unique id
      ends with the suffix. */
  ghost predicate IsFirstMatch(entities: seq<EntityEntry>, suffix: string, i: int) {
    && 0 <= i < |entities|
    && EndsWith(entities[i].uniqueId, suffix)
    && forall j :: 0 <= j < i ==> !EndsWith(entities[j].uniqueId, suffix)
  }

  /** There is at most one first match. */
  lemma FirstMatchUnique(entities: seq<EntityEntry>, suffix: string, i: int, j: int)
    requires IsFirstMatch(entities, suffix, i) && IsFirstMatch(entities, suffix, j)
    ensures i == j
  {
  }

  /** The search `next(...)` performs: the position of the first entity whose
      unique id ends with the suffix, or None when there is none. */
  function FirstEndingWith(entities: seq<EntityEntry>, suffix: string): (r: Option<nat>)
    ensures r.Some? ==> IsFirstMatch(entities, suffix, r.value)
    ensures r.None? <==> forall j :: 0 <= j < |entities| ==> !EndsWith(entities[j].uniqueId, suffix)
  {
    if |entities| == 0 then None
    else if EndsWith(entities[0].uniqueId, suffix) then Some(0)
    else
      match FirstEndingWith(entities[1..], suffix)
      case None => None
      case Some(i) => Some(i + 1)
  }

  /** With an empty primary account id every unique id matches, so the
      device's first entity is chosen. */
  lemma EmptySuffixSelectsFirstEntity(entities: seq<EntityEntry>)
    requires |entities| > 0
    ensures FirstEndingWith(entities, "") == Some(0)
  {
  }

  /** The primary account's entity of a device: the first entity of the
      device whose unique id ends with the primary account id stored in the
      device's config entry. */
  function ResolvePrimaryEntity(k: IntegrationConstants, reg: Registries, deviceId: string): (r: Result<string, ConditionError>)
    ensures deviceId !in reg.devices ==> r == Failure(NoDevice)
    ensures ResolveConfigEntry(reg, deviceId).Failure? ==> r == Failure(ResolveConfigEntry(reg, deviceId).error)
    ensures ResolveConfigEntry(reg, deviceId).Success? && k.confAccount !in ResolveConfigEntry(reg, deviceId).value.data ==>
              r == Failure(NoPrimaryAccount)
    ensures r.Success? ==> ResolveConfigEntry(reg, deviceId).Success?
                           && k.confAccount in ResolveConfigEntry(reg, deviceId).value.data
    ensures r.Success? ==>
              var pid := ResolveConfigEntry(reg, deviceId).value.data[k.confAccount];
              var entities := EntitiesForDevice(reg, deviceId);
              exists i :: IsFirstMatch(entities, pid, i) && r.value == entities[i].entityId
    ensures ResolveConfigEntry(reg, deviceId).Success? && k.confAccount in ResolveConfigEntry(reg, deviceId).value.data ==>
              var pid := ResolveConfigEntry(reg, deviceId).value.data[k.confAccount];
              var entities := EntitiesForDevice(reg, deviceId);
              (r == Failure(NoPrimaryEntity) <==> forall j :: 0 <= j < |entities| ==> !EndsWith(entities[j].uniqueId, pid))
              && (r.Success? <==> exists j :: 0 <= j < |entities| && EndsWith(entities[j].uniqueId, pid))
  {
    match ResolveConfigEntry(reg, deviceId)
    case Failure(e) => Failure(e)
    case Success(entry) =>
      if k.confAccount !in entry.data then Failure(NoPrimaryAccount)
      else
        var entities := EntitiesForDevice(reg, deviceId);
        match FirstEndingWith(entities, entry.data[k.confAccount])
        case None => Failure(NoPrimaryEntity)
        case Some(i) => Success(entities[i].entityId)
  }

  // ---------------------------------------------------------------------
  // Checkers and their evaluation
  // ---------------------------------------------------------------------

  /** The checker async_condition_from_config returns, closed over the
      primary entity id it resolved. */
  datatype Checker =
    | SameGameAsPrimary(primaryEntityId: string)   // test_is_same_game_as_primary
    | AlwaysFalse                                  // default_checker_method

  /** async_condition_from_config: resolve the primary entity (failing as
      that resolution fails, whatever the condition type), then pick the
      checker by condition type. */
  function ConditionFromConfig(k: IntegrationConstants, reg: Registries, config: ConditionConfig): (r: Result<Checker, ConditionError>)
    ensures config.deviceId !in reg.devices ==> r == Failure(NoDevice)
    ensures r.Failure? <==> ResolvePrimaryEntity(k, reg, config.deviceId).Failure?
    ensures r.Failure? ==> r.error == ResolvePrimaryEntity(k, reg, config.deviceId).error
    ensures r.Success? ==> (r.value.SameGameAsPrimary? <==> config.conditionType == k.primaryGame)
    ensures r.Success? && r.value.SameGameAsPrimary? ==>
              r.value.primaryEntityId == ResolvePrimaryEntity(k, reg, config.deviceId).value
  {
    match ResolvePrimaryEntity(k, reg, config.deviceId)
    case Failure(e) => Failure(e)
    case Success(primary) =>
      if config.conditionType == k.primaryGame then Success(SameGameAsPrimary(primary))
      else Success(AlwaysFalse)
  }

  /** A state in the state machine: its attributes. */
  datatype State = State(attributes: map<string, string>)

  /** A trigger: the new state of the entity that triggered, if any. An
      empty trigger mapping is falsy like a missing one and is modelled as
      absent. */
  datatype Trigger = Trigger(toState: Option<State>)

  /** The template variables a checker is called with. */
  datatype Variables = Variables(trigger: Option<Trigger>)

  /** The game id attribute of a state, absent when the state has none. */
  function GameIdOf(s: State): Option<string> {
    if GameIdAttribute in s.attributes then Some(s.attributes[GameIdAttribute]) else None
  }

  /** The game of the primary entity's current state; absent when the entity
      has no state. */
  function PrimaryGame(states: map<string, State>, entityId: string): Option<string> {
    if entityId in states then GameIdOf(states[entityId]) else None
  }

  /** The trigger of the variables; absent when there are no variables. */
  function TriggerOf(variables: Option<Variables>): Option<Trigger> {
    if variables.Some? then variables.value.trigger else None
  }

  /** The comparison of the primary game with the trigger's game: a match
      needs the primary game to be present, so two absent games do not match. */
  function GamesMatch(primaryGame: Option<string>, toGame: Option<string>): (r: bool)
    ensures r <==> primaryGame.Some? && toGame.Some? && primaryGame.value == toGame.value
    ensures primaryGame.None? || toGame.None? ==> !r
  {
    primaryGame.Some? && primaryGame == toGame
  }

  /** GamesMatch is option equality minus the absent/absent case, and it is
      symmetric although only the primary side is tested for presence. */
  lemma GamesMatchVersusEquality(a: Option<string>, b: Option<string>)
    ensures GamesMatch(a, b) <==> (a == b && a != None)
    ensures GamesMatch(a, b) == GamesMatch(b, a)
    ensures !GamesMatch(None, None)
  {
  }

  /** Evaluates a checker against the current states and the template
      variables. The default checker is false for every input. The primary
      game checker raises without a trigger or without a to_state, and
      otherwise holds exactly when the primary entity's game is present and
      equal to the to_state's game. */
  function Check(c: Checker, states: map<string, State>, variables: Option<Variables>): (r: Result<bool, ConditionError>)
    ensures c.AlwaysFalse? ==> r == Success(false)
    ensures c.SameGameAsPrimary? && TriggerOf(variables).None? ==> r == Failure(NoTrigger)
    ensures c.SameGameAsPrimary? && TriggerOf(variables).Some? && TriggerOf(variables).value.toState.None? ==>
              r == Failure(NoToState)
    ensures r.Failure? ==> c.SameGameAsPrimary?
    ensures r.Failure? ==> TriggerOf(variables).None? || TriggerOf(variables).value.toState.None?
    ensures r == Success(true) <==>
              && c.SameGameAsPrimary?
              && TriggerOf(variables).Some? && TriggerOf(variables).value.toState.Some?
              && c.primaryEntityId in states
              && GameIdAttribute in states[c.primaryEntityId].attributes
              && GameIdAttribute in TriggerOf(variables).value.toState.value.attributes
              && states[c.primaryEntityId].attributes[GameIdAttribute]
                 == TriggerOf(variables).value.toState.value.attributes[GameIdAttribute]
  {
    match c
    case AlwaysFalse => Success(false)
    case SameGameAsPrimary(primary) =>
      var trigger := TriggerOf(variables);
      if trigger.None? then Failure(NoTrigger)
      else if trigger.value.toState.None? then Failure(NoToState)
      else
        var toGame := GameIdOf(trigger.value.toState.value);
        Success(GamesMatch(PrimaryGame(states, primary), toGame))
  }

  /** Without a current state or game for the primary entity the condition
      never holds, whatever game the trigger reports, absent included. */
  lemma AbsentPrimaryGameNeverMatches(primary: string, states: map<string, State>, variables: Option<Variables>)
    requires primary !in states || GameIdAttribute !in states[primary].attributes
    ensures Check(SameGameAsPrimary(primary), states, variables) != Success(true)
    ensures TriggerOf(variables).Some? && TriggerOf(variables).value.toState.Some? ==>
              Check(SameGameAsPrimary(primary), states, variables) == Success(false)
  {
  }

  /** A configured condition of any type other than the primary-game type
      is false for every state and every variables. */
  lemma OtherConditionTypesNeverHold(k: IntegrationConstants, reg: Registries, config: ConditionConfig,
                                     states: map<string, State>, variables: Option<Variables>)
    requires config.conditionType != k.primaryGame
    requires ConditionFromConfig(k, reg, config).Success?
    ensures Check(ConditionFromConfig(k, reg, config).value, states, variables) == Success(false)
  {
  }

  /** From configuration to verdict: a primary-game condition that builds
      holds for a trigger exactly when the first entity of the device whose
      unique id ends with the stored primary account id currently reports a
      game, and the trigger's new state reports that same game. */
  lemma PrimaryGameConditionEndToEnd(k: IntegrationConstants, reg: Registries, config: ConditionConfig,
                                     states: map<string, State>, toState: State)
    requires config.conditionType == k.primaryGame
    requires ConditionFromConfig(k, reg, config).Success?
    ensures ResolveConfigEntry(reg, config.deviceId).Success?
    ensures k.confAccount in ResolveConfigEntry(reg, config.deviceId).value.data
    ensures
      var pid := ResolveConfigEntry(reg, config.deviceId).value.data[k.confAccount];
      var entities := EntitiesForDevice(reg, config.deviceId);
      var verdict := Check(ConditionFromConfig(k, reg, config).value, states, Some(Variables(Some(Trigger(Some(toState))))));
      verdict.Success? &&
      (verdict.value <==> exists i :: IsFirstMatch(entities, pid, i)
                                   && GamesMatch(PrimaryGame(states, entities[i].entityId), GameIdOf(toState)))
  {
  }

  /** A condition builds, whatever its type, once the device's config entry
      resolves, stores a primary account id, and some entity of the device
      has a unique id ending with it; a primary-game condition is then bound
      to the first such entity. */
  lemma ConditionBuildsWhenPrimaryMatches(k: IntegrationConstants, reg: Registries, config: ConditionConfig, i: int)
    requires ResolveConfigEntry(reg, config.deviceId).Success?
    requires k.confAccount in ResolveConfigEntry(reg, config.deviceId).value.data
    requires IsFirstMatch(EntitiesForDevice(reg, config.deviceId),
                          ResolveConfigEntry(reg, config.deviceId).value.data[k.confAccount], i)
    ensures ConditionFromConfig(k, reg, config).Success?
    ensures config.conditionType == k.primaryGame ==>
              ConditionFromConfig(k, reg, config) == Success(SameGameAsPrimary(EntitiesForDevice(reg, config.deviceId)[i].entityId))
    ensures config.conditionType != k.primaryGame ==> ConditionFromConfig(k, reg, config) == Success(AlwaysFalse)
  {
  }

  /** A condition whose device does not resolve produces no checker. */
  lemma UnknownDeviceFails(k: IntegrationConstants, reg: Registries, config: ConditionConfig)
    requires config.deviceId !in reg.devices
    ensures ConditionFromConfig(k, reg, config) == Failure(NoDevice)
  {
  }

  /** A device whose entities all fail the suffix test produces no checker,
      whatever the condition type. */
  lemma NoPrimaryEntityFails(k: IntegrationConstants, reg: Registries, config: ConditionConfig)
    requires ResolveConfigEntry(reg, config.deviceId).Success?
    requires k.confAccount in ResolveConfigEntry(reg, config.deviceId).value.data
    requires forall e :: e in EntitiesForDevice(reg, config.deviceId) ==>
               !EndsWith(e.uniqueId, ResolveConfigEntry(reg, config.deviceId).value.data[k.confAccount])
    ensures ConditionFromConfig(k, reg, config) == Failure(NoPrimaryEntity)
  {
  }

  /** Two accounts whose status records both report game "10", with A the
      primary: B switching to game "10" matches, to game "20" does not, and
      nothing matches once A reports no game. */
  lemma SameGameExample()
    ensures Check(SameGameAsPrimary("sensor.a"), map["sensor.a" := State(map[GameIdAttribute := "10"])],
                  Some(Variables(Some(Trigger(Some(State(map[GameIdAttribute := "10"]))))))) == Success(true)
    ensures Check(SameGameAsPrimary("sensor.a"), map["sensor.a" := State(map[GameIdAttribute := "10"])],
                  Some(Variables(Some(Trigger(Some(State(map[GameIdAttribute := "20"]))))))) == Success(false)
    ensures Check(SameGameAsPrimary("sensor.a"), map["sensor.a" := State(map[])],
                  Some(Variables(Some(Trigger(Some(State(map[GameIdAttribute := "10"]))))))) == Success(false)
  {
  }
}
