/** The Steam sensor platform: two sensor descriptions that project one
    account's status record into a displayed value, an availability flag and
    extra attributes; the fan-out of one sensor per (description, account)
    pair; and the coordinator's game-icon cache. */
module SteamSensor {
  import opened Wrappers
  import opened Text

  /** STEAM_STATUSES: persona-state code to human-readable label. Its
      contents are defined outside this model, so every operation that reads
      it takes it as a parameter. */
  type StatusTable = map<int, string>

  /** One account's status record, as the polling coordinator delivers it;
      only the fields the sensors read. */
  datatype Player = Player(personaState: int, gameId: Option<string>)

  /** The coordinator's data: account id to status record. */
  type Snapshot = map<string, Player>

  /** A sensor's native value: a status label or the raw status integer. */
  datatype SensorValue = Label(text: string) | Number(code: int)

  datatype SensorError =
    | UnknownPersonaState(state: int)   // KeyError on the status table
    | NoCoordinatorData                 // subscripting coordinator data that is None
    | UnknownAccount(account: string)   // KeyError on the coordinator data

  datatype EntityCategory = Config | Diagnostic

  datatype StateClass = Measurement | Total | TotalIncreasing

  /** The value functions the descriptions use. */
  datatype ValueFn =
    | StatusLabelValue   // the module-level value_fn: status table lookup
    | StatusCodeValue    // the inline lambda: the raw personastate

  /** The attribute functions: the description's default, and attr_fn. */
  datatype AttrFn = DefaultAttrs | PlaceholderAttrs

  /** The availability functions: the description's default, and avabl_fn. */
  datatype AvailFn = DefaultAvailable | RecordAvailable

  /** SteamSensorEntityDescription. The defaults of attrFn and avablFn are
      the description's own defaults. */
  datatype SensorDescription = SensorDescription(
    key: string,
    valueFn: ValueFn,
    entityCategory: Option<EntityCategory> := None,
    stateClass: Option<StateClass> := None,
    suggestedUnit: Option<string> := None,
    attrFn: AttrFn := DefaultAttrs,
    avablFn: AvailFn := DefaultAvailable)

  const PlayerStatusKey: string := "player_status"
  const PlayerStatusIntKey: string := "player_status_int"

  /** SENSOR_DESCRIPTIONS, in declaration order. */
  const SensorDescriptions: seq<SensorDescription> := [
    SensorDescription(
      key := PlayerStatusKey,
      entityCategory := Some(Diagnostic),
      valueFn := StatusLabelValue,
      avablFn := RecordAvailable,
      attrFn := PlaceholderAttrs),
    SensorDescription(
      key := PlayerStatusIntKey,
      entityCategory := Some(Diagnostic),
      stateClass := Some(Measurement),
      suggestedUnit := Some("Status"),
      valueFn := StatusCodeValue,
      avablFn := RecordAvailable,
      attrFn := PlaceholderAttrs)
  ]

  /** The attributes attr_fn reports for every record. */
  const PlaceholderAttributes: map<string, string> := map["some_attr" := "foo"]

  // ---------------------------------------------------------------------
  // Projections of one record
  // ---------------------------------------------------------------------

  /** Applies a description's value function to a record. The label lookup
      raises when the record's status has no table entry; the raw status
      never fails. */
  function ApplyValue(statuses: StatusTable, f: ValueFn, p: Player): (r: Result<SensorValue, SensorError>)
    ensures f == StatusCodeValue ==> r == Success(Number(p.personaState))
    ensures f == StatusLabelValue ==> (r.Success? <==> p.personaState in statuses)
    ensures f == StatusLabelValue && r.Success? ==> r.value.Label? && r.value.text == statuses[p.personaState]
    ensures r.Failure? ==> r.error == UnknownPersonaState(p.personaState)
  {
    match f
    case StatusLabelValue =>
      if p.personaState in statuses then Success(Label(statuses[p.personaState]))
      else Failure(UnknownPersonaState(p.personaState))
    case StatusCodeValue => Success(Number(p.personaState))
  }

  /** Applies a description's attribute function: the default reports no
      attributes, attr_fn reports the placeholder mapping. */
  function ApplyAttrs(f: AttrFn, p: Player): (r: Option<map<string, string>>)
    ensures r.None? <==> f == DefaultAttrs
    ensures r.Some? ==> r.value == PlaceholderAttributes
  {
    match f
    case DefaultAttrs => None
    case PlaceholderAttrs => Some(PlaceholderAttributes)
  }

  /** Applies a description's availability function; both accept every record. */
  function ApplyAvailable(f: AvailFn, p: Player): (r: bool)
    ensures r
  {
    match f
    case DefaultAvailable => true
    case RecordAvailable => true
  }

  /** A description that overrides only its key and value function reports
      no attributes and is available for every record. */
  lemma DescriptionDefaults(key: string, f: ValueFn, p: Player)
    ensures ApplyAttrs(SensorDescription(key := key, valueFn := f).attrFn, p) == None
    ensures ApplyAvailable(SensorDescription(key := key, valueFn := f).avablFn, p)
  {
  }

  /** What the two shipped descriptions compute for any record: the first the
      status label (failing for an unknown status), the second the raw status;
      both are available and report the placeholder attributes. */
  lemma SensorDescriptionsProject(statuses: StatusTable, p: Player)
    ensures |SensorDescriptions| == 2
    ensures SensorDescriptions[0].key == PlayerStatusKey && SensorDescriptions[1].key == PlayerStatusIntKey
    ensures ApplyValue(statuses, SensorDescriptions[0].valueFn, p).Success? <==> p.personaState in statuses
    ensures p.personaState in statuses ==>
              ApplyValue(statuses, SensorDescriptions[0].valueFn, p) == Success(Label(statuses[p.personaState]))
    ensures ApplyValue(statuses, SensorDescriptions[1].valueFn, p) == Success(Number(p.personaState))
    ensures forall d :: d in SensorDescriptions ==>
              ApplyAvailable(d.avablFn, p) && ApplyAttrs(d.attrFn, p) == Some(PlaceholderAttributes)
  {
  }

  /** The raw status is defined exactly where the label lookup fails too. */
  lemma StatusCodeDefinedWhenLabelFails(statuses: StatusTable, p: Player)
    requires p.personaState !in statuses
    ensures ApplyValue(statuses, StatusLabelValue, p) == Failure(UnknownPersonaState(p.personaState))
    ensures ApplyValue(statuses, StatusCodeValue, p) == Success(Number(p.personaState))
  {
  }

  /** A table that gives distinct labels to distinct codes. */
  ghost predicate LabelsDistinct(statuses: StatusTable) {
    forall a, b :: a in statuses && b in statuses && a != b ==> statuses[a] != statuses[b]
  }

  /** The two projections agree: when the table labels codes distinctly,
      the raw status is the only code that carries the displayed label. */
  lemma LabelAndCodeConsistent(statuses: StatusTable, p: Player, c: int)
    requires LabelsDistinct(statuses)
    requires ApplyValue(statuses, StatusLabelValue, p).Success?
    requires c in statuses && statuses[c] == ApplyValue(statuses, StatusLabelValue, p).value.text
    ensures ApplyValue(statuses, StatusCodeValue, p) == Success(Number(c))
  {
  }

  /** The attributes never depend on the record. */
  lemma AttrsIgnoreRecord(f: AttrFn, p: Player, q: Player)
    ensures ApplyAttrs(f, p) == ApplyAttrs(f, q)
  {
  }

  // ---------------------------------------------------------------------
  // Sensor entities
  // ---------------------------------------------------------------------

  const UniqueIdPrefix: string := "sensor.steam_"

  /** The unique id a sensor is created with. */
  function UniqueId(account: string, key: string): (id: string)
    ensures StartsWith(id, UniqueIdPrefix)
    ensures EndsWith(id, "_" + key)
    ensures |id| == |UniqueIdPrefix| + |account| + 1 + |key|
    ensures id[|UniqueIdPrefix|..|UniqueIdPrefix| + |account|] == account
  {
    var id := UniqueIdPrefix + account + "_" + key;
    assert id[..|UniqueIdPrefix|] == UniqueIdPrefix;
    assert id[|id| - |"_" + key|..] == "_" + key;
    assert id[|UniqueIdPrefix|..|UniqueIdPrefix| + |account|] == account;
    id
  }

  /** The account a unique id belongs to, given the description key; None
      for a string that is not of the unique-id form for that key. */
  function AccountOfUniqueId(id: string, key: string): (r: Option<string>)
  {
    if |UniqueIdPrefix| + 1 + |key| <= |id| && StartsWith(id, UniqueIdPrefix) && EndsWith(id, "_" + key)
    then Some(id[|UniqueIdPrefix|..|id| - 1 - |key|])
    else None
  }

  /** Reading the account back out of a unique id recovers it. */
  lemma UniqueIdRoundTrip(account: string, key: string)
    ensures AccountOfUniqueId(UniqueId(account, key), key) == Some(account)
  {
  }

  /** Every string AccountOfUniqueId accepts is the unique id of the account
      it reports. */
  lemma AccountOfUniqueIdSound(id: string, key: string)
    requires AccountOfUniqueId(id, key).Some?
    ensures UniqueId(AccountOfUniqueId(id, key).value, key) == id
  {
  }

  /** The two keys the shipped descriptions use. */
  predicate IsSensorKey(key: string) {
    key == PlayerStatusKey || key == PlayerStatusIntKey
  }

  /** With the two shipped keys, different (account, key) pairs never share
      a unique id: the key is recovered from the id's last character and the
      account from the round trip. */
  lemma UniqueIdsDistinct(a1: string, k1: string, a2: string, k2: string)
    requires IsSensorKey(k1) && IsSensorKey(k2)
    requires a1 != a2 || k1 != k2
    ensures UniqueId(a1, k1) != UniqueId(a2, k2)
  {
    var id1, id2 := UniqueId(a1, k1), UniqueId(a2, k2);
    if k1 == k2 {
      UniqueIdRoundTrip(a1, k1);
      UniqueIdRoundTrip(a2, k2);
    } else {
      assert id1[|id1| - 1] == k1[|k1| - 1];
      assert id2[|id2| - 1] == k2[|k2| - 1];
    }
  }

  /** Beyond the two shipped keys the id format is ambiguous: an underscore
      in the account can move into the key. */
  lemma UniqueIdAmbiguousForOtherKeys()
    ensures UniqueId("a_b", "c") == UniqueId("a", "b_c")
  {
  }

  /** A sensor's unique id never ends with an account id whose last
      character is a digit, as a Steam id's is: the id ends with the last
      character of its key, which is a letter. */
  lemma SensorIdsMissNumericAccount(a: string, k: string, pid: string)
    requires IsSensorKey(k) && |pid| > 0 && '0' <= pid[|pid| - 1] <= '9'
    ensures !EndsWith(UniqueId(a, k), pid)
  {
    var id := UniqueId(a, k);
    assert id[|id| - 1] == k[|k| - 1];
  }

  /** An account id that is a tail of the key does match: every
      player_status sensor's unique id ends with "status". */
  lemma SensorIdsMatchKeyTail(a: string)
    ensures EndsWith(UniqueId(a, PlayerStatusKey), "status")
  {
    var id := UniqueId(a, PlayerStatusKey);
    assert id[|id| - 6..] == PlayerStatusKey[|PlayerStatusKey| - 6..];
  }

  /** A SteamSensor: its description, its account and its unique id. */
  datatype Sensor = Sensor(description: SensorDescription, accountId: string, uniqueId: string)

  /** SteamSensor.__init__: the sensor keeps its description and account,
      and its unique id names exactly that account for the description's key. */
  function NewSensor(d: SensorDescription, account: string): (s: Sensor)
    ensures s.description == d && s.accountId == account
    ensures AccountOfUniqueId(s.uniqueId, d.key) == Some(account)
  {
    UniqueIdRoundTrip(account, d.key);
    Sensor(d, account, UniqueId(account, d.key))
  }

  /** The sensors of one description, one per account, in account order. */
  function SensorsFor(d: SensorDescription, accounts: seq<string>): (r: seq<Sensor>)
    ensures |r| == |accounts|
    ensures forall j :: 0 <= j < |accounts| ==> r[j] == NewSensor(d, accounts[j])
  {
    seq(|accounts|, j requires 0 <= j < |accounts| => NewSensor(d, accounts[j]))
  }

  lemma MulSucc(i: nat, n: nat)
    ensures (i + 1) * n == i * n + n
  {
  }

  lemma {:induction false} MulBound(i: nat, j: nat, m: nat, n: nat)
    requires i < m && j < n
    ensures i * n + j < m * n
  {
    if i + 1 < m {
      MulBound(i, j, m - 1, n);
      MulSucc(m - 1, n);
    } else {
      MulSucc(i, n);
    }
  }

  /** The entity fan-out of platform setup: one sensor per (description,
      account) pair, all sensors of a description before the next. */
  function SetupEntities(descs: seq<SensorDescription>, accounts: seq<string>): (r: seq<Sensor>)
    ensures |r| == |descs| * |accounts|
  {
    if |descs| == 0 then []
    else
      var rest := SetupEntities(descs[1..], accounts);
      MulSucc(|descs| - 1, |accounts|);
      SensorsFor(descs[0], accounts) + rest
  }

  /** The sensor for the i-th description and j-th account sits at
      position i * |accounts| + j. */
  lemma {:induction false} SetupEntitiesOrder(descs: seq<SensorDescription>, accounts: seq<string>, i: nat, j: nat)
    requires i < |descs| && j < |accounts|
    ensures i * |accounts| + j < |SetupEntities(descs, accounts)|
    ensures SetupEntities(descs, accounts)[i * |accounts| + j] == NewSensor(descs[i], accounts[j])
  {
    MulBound(i, j, |descs|, |accounts|);
    if i > 0 {
      SetupEntitiesOrder(descs[1..], accounts, i - 1, j);
      MulSucc(i - 1, |accounts|);
    }
  }

  /** Every created sensor is the sensor of some (description, account)
      pair, at that pair's position. */
  lemma {:induction false} SetupEntitiesCover(descs: seq<SensorDescription>, accounts: seq<string>, k: nat)
    requires k < |SetupEntities(descs, accounts)|
    ensures exists i, j :: 0 <= i < |descs| && 0 <= j < |accounts| && k == i * |accounts| + j
                           && SetupEntities(descs, accounts)[k] == NewSensor(descs[i], accounts[j])
  {
    var n := |accounts|;
    var r := SetupEntities(descs, accounts);
    var rest := SetupEntities(descs[1..], accounts);
    assert r == SensorsFor(descs[0], accounts) + rest;
    if k < n {
      assert k == 0 * n + k && r[k] == NewSensor(descs[0], accounts[k]);
    } else {
      SetupEntitiesCover(descs[1..], accounts, k - n);
      var i, j :| 0 <= i < |descs| - 1 && 0 <= j < n && k - n == i * n + j
                  && rest[k - n] == NewSensor(descs[1..][i], accounts[j]);
      MulSucc(i, n);
      assert r[k] == rest[k - n];
      assert descs[1..][i] == descs[i + 1];
      assert k == (i + 1) * n + j && r[k] == NewSensor(descs[i + 1], accounts[j]);
    }
  }

  /** Setting up the shipped descriptions for distinct accounts yields
      sensors with pairwise distinct unique ids. */
  lemma SetupUniqueIdsDistinct(accounts: seq<string>)
    requires forall x, y :: 0 <= x < y < |accounts| ==> accounts[x] != accounts[y]
    ensures forall x, y :: 0 <= x < y < |SetupEntities(SensorDescriptions, accounts)| ==>
              SetupEntities(SensorDescriptions, accounts)[x].uniqueId != SetupEntities(SensorDescriptions, accounts)[y].uniqueId
  {
    var r := SetupEntities(SensorDescriptions, accounts);
    forall x, y | 0 <= x < y < |r|
      ensures r[x].uniqueId != r[y].uniqueId
    {
      SetupEntitiesCover(SensorDescriptions, accounts, x);
      SetupEntitiesCover(SensorDescriptions, accounts, y);
      var i1, j1 :| 0 <= i1 < 2 && 0 <= j1 < |accounts| && x == i1 * |accounts| + j1
                    && r[x] == NewSensor(SensorDescriptions[i1], accounts[j1]);
      var i2, j2 :| 0 <= i2 < 2 && 0 <= j2 < |accounts| && y == i2 * |accounts| + j2
                    && r[y] == NewSensor(SensorDescriptions[i2], accounts[j2]);
      if j1 == j2 {
        assert i1 != i2;
      } else {
        assert accounts[j1] != accounts[j2] by {
          if j1 < j2 {} else {}
        }
      }
      UniqueIdsDistinct(accounts[j1], SensorDescriptions[i1].key, accounts[j2], SensorDescriptions[i2].key);
    }
  }

  // ---------------------------------------------------------------------
  // Entity properties, read from the coordinator's data
  // ---------------------------------------------------------------------

  /** `coordinator.data[account]`. */
  function AccountRecord(data: Option<Snapshot>, account: string): (r: Result<Player, SensorError>)
    ensures data.None? ==> r == Failure(NoCoordinatorData)
    ensures data.Some? && account !in data.value ==> r == Failure(UnknownAccount(account))
    ensures r.Success? <==> data.Some? && account in data.value
    ensures r.Success? ==> r.value == data.value[account]
  {
    if data.None? then Failure(NoCoordinatorData)
    else if account !in data.value then Failure(UnknownAccount(account))
    else Success(data.value[account])
  }

  /** SteamSensor.available: the base availability, then data being present,
      then the description's availability of the account's record, each
      evaluated only when the previous ones hold. */
  function Available(baseAvailable: bool, data: Option<Snapshot>, s: Sensor): (r: Result<bool, SensorError>)
    ensures !baseAvailable || data.None? ==> r == Success(false)
    ensures r.Failure? <==> baseAvailable && data.Some? && s.accountId !in data.value
    ensures r.Failure? ==> r.error == UnknownAccount(s.accountId)
    ensures r == Success(true) <==> baseAvailable && data.Some? && s.accountId in data.value
  {
    if !baseAvailable then Success(false)
    else if data.None? then Success(false)
    else
      match AccountRecord(data, s.accountId)
      case Failure(e) => Failure(e)
      case Success(p) => Success(ApplyAvailable(s.description.avablFn, p))
  }

  /** SteamSensor.native_value: the description's value of the account's record. */
  function NativeValue(statuses: StatusTable, data: Option<Snapshot>, s: Sensor): (r: Result<SensorValue, SensorError>)
    ensures r.Success? <==> (data.Some? && s.accountId in data.value
                             && (s.description.valueFn == StatusCodeValue || data.value[s.accountId].personaState in statuses))
    ensures r.Success? && s.description.valueFn == StatusCodeValue ==>
              r.value == Number(data.value[s.accountId].personaState)
    ensures r.Success? && s.description.valueFn == StatusLabelValue ==>
              r.value == Label(statuses[data.value[s.accountId].personaState])
    ensures r.Failure? ==> r.error == (if data.None? then NoCoordinatorData
                                       else if s.accountId !in data.value then UnknownAccount(s.accountId)
                                       else UnknownPersonaState(data.value[s.accountId].personaState))
  {
    match AccountRecord(data, s.accountId)
    case Failure(e) => Failure(e)
    case Success(p) => ApplyValue(statuses, s.description.valueFn, p)
  }

  /** SteamSensor.extra_state_attributes: the description's attributes of the
      account's record. */
  function ExtraStateAttributes(data: Option<Snapshot>, s: Sensor): (r: Result<Option<map<string, string>>, SensorError>)
    ensures r.Success? <==> data.Some? && s.accountId in data.value
    ensures r.Success? ==> (r.value.None? <==> s.description.attrFn == DefaultAttrs)
    ensures r.Success? && r.value.Some? ==> r.value.value == PlaceholderAttributes
    ensures data.None? ==> r == Failure(NoCoordinatorData)
    ensures data.Some? && s.accountId !in data.value ==> r == Failure(UnknownAccount(s.accountId))
  {
    match AccountRecord(data, s.accountId)
    case Failure(e) => Failure(e)
    case Success(p) => Success(ApplyAttrs(s.description.attrFn, p))
  }

  /** An available sensor can be read: its attributes are defined, and so is
      its value unless it is the label sensor of an unknown status. */
  lemma AvailableImpliesReadable(statuses: StatusTable, baseAvailable: bool, data: Option<Snapshot>, s: Sensor)
    requires Available(baseAvailable, data, s) == Success(true)
    ensures ExtraStateAttributes(data, s).Success?
    ensures s.description.valueFn == StatusCodeValue ==> NativeValue(statuses, data, s).Success?
    ensures NativeValue(statuses, data, s).Failure? ==>
              NativeValue(statuses, data, s).error == UnknownPersonaState(data.value[s.accountId].personaState)
  {
  }

  /** A sensor reads only its own account's record: changing or failing
      records of other accounts never changes its value or attributes. */
  lemma SensorReadsOnlyItsAccount(statuses: StatusTable, d1: Snapshot, d2: Snapshot, s: Sensor)
    requires s.accountId in d1 <==> s.accountId in d2
    requires s.accountId in d1 ==> d1[s.accountId] == d2[s.accountId]
    ensures NativeValue(statuses, Some(d1), s) == NativeValue(statuses, Some(d2), s)
    ensures ExtraStateAttributes(Some(d1), s) == ExtraStateAttributes(Some(d2), s)
  {
  }

  // ---------------------------------------------------------------------
  // Game-icon cache
  // ---------------------------------------------------------------------

  /** The icon found (if any) and the cache afterwards. */
  datatype IconLookup = IconLookup(icon: Option<string>, gameIcons: map<string, string>)

  /** SteamSensor._get_game_icon: a hit returns the cached icon and keeps the
      cache; a miss (including a record without a game) clears the whole cache. */
  function GetGameIcon(gameIcons: map<string, string>, p: Player): (r: IconLookup)
    ensures r.icon.Some? <==> p.gameId.Some? && p.gameId.value in gameIcons
    ensures r.icon.Some? ==> r.icon.value == gameIcons[p.gameId.value] && r.gameIcons == gameIcons
    ensures r.icon.None? ==> r.gameIcons == map[]
  {
    if p.gameId.Some? && p.gameId.value in gameIcons then IconLookup(Some(gameIcons[p.gameId.value]), gameIcons)
    else IconLookup(None, map[])
  }

  /** Looking the same record up again gives the same answer and cache:
      a hit stays a hit, a miss stays a miss on an empty cache. */
  lemma GameIconIdempotent(gameIcons: map<string, string>, p: Player)
    ensures GetGameIcon(GetGameIcon(gameIcons, p).gameIcons, p) == GetGameIcon(gameIcons, p)
  {
  }

  /** After a miss every lookup misses, whatever the record, until the
      coordinator refills the cache. */
  lemma GameIconMissForgetsAll(gameIcons: map<string, string>, p: Player, q: Player)
    requires GetGameIcon(gameIcons, p).icon.None?
    ensures GetGameIcon(GetGameIcon(gameIcons, p).gameIcons, q) == IconLookup(None, map[])
  {
  }

  /** The lookup never invents an icon or a cache entry: the cache afterwards
      is contained in the cache before. */
  lemma GameIconNeverAdds(gameIcons: map<string, string>, p: Player)
    ensures GetGameIcon(gameIcons, p).gameIcons.Keys <= gameIcons.Keys
    ensures forall g :: g in GetGameIcon(gameIcons, p).gameIcons ==> GetGameIcon(gameIcons, p).gameIcons[g] == gameIcons[g]
    ensures GetGameIcon(gameIcons, p).icon.Some? ==> GetGameIcon(gameIcons, p).icon.value in gameIcons.Values
  {
  }
}
