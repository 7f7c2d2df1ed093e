/** From transactions to charge detail records (00_Base/src/mapper/BaseTransactionMapper.ts,
    SessionMapper.ts and CdrMapper.ts). The loaders cache what they read onto the transaction
    objects, so that the second round of loads finds what the first one read. */
module CdrPipeline {
  import opened Wrappers
  import EvseUid
  import Text
  import Metering
  import Pricing = CdrPricing

  datatype Party = Party(countryCode: string, partyId: string)

  datatype Connector = Connector(id: string, standard: string, format: string, powerType: string)

  datatype Evse = Evse(uid: string, evseId: Option<string>, connectors: seq<Connector>)

  datatype Address = Address(name: string, address: string, city: string, postalCode: string, country: string,
    coordinates: (string, string))

  datatype Location = Location(id: string, party: Party, address: Address, evses: seq<Evse>)

  /** A location row, with what mapping it gives or throws: it throws without coordinates or tenant. */
  datatype LocationRow = LocationRow(dto: Result<Location>)

  datatype CdrToken = CdrToken(uid: string, contractId: string)

  /** An authorization, with what mapping it to a token gives or throws and the partner it belongs to. */
  datatype Authorization = Authorization(token: Result<CdrToken>, tenantPartnerId: Option<nat>)

  /** What the reads of one round find. Each read is made on behalf of a transaction, named first by its id
      or its session's, since the database may change between any two reads. */
  datatype Db = Db(
    locations: map<(nat, nat), LocationRow>,
    authorizations: map<(nat, nat), Authorization>,
    transactionTariffIds: map<nat, nat>,
    tariffs: map<(nat, nat, Party), Pricing.Tariff>,
    ocpiTariffs: map<(string, nat, Party), Pricing.Tariff>)

  /** The columns of a transaction that the mappers only read. */
  datatype Fixed = Fixed(
    id: nat,
    isActive: bool,
    locationId: Option<nat>,
    authorizationId: Option<nat>,
    tenant: Option<Party>,
    totalKwh: Option<real>,
    startTime: Option<int>,
    endTime: Option<int>,
    createdAt: int,
    updatedAt: int,
    stationId: string,
    evseId: Option<nat>,
    connectorId: Option<nat>,
    authorizationReference: Option<string>,
    meterValues: seq<Metering.MeterValue>)

  class Transaction {
    const fixed: Fixed
    var location: Option<LocationRow>
    var authorization: Option<Authorization>
    var tariffId: Option<nat>
    var tariff: Option<Pricing.Tariff>

    constructor (fixed: Fixed, tariffId: Option<nat>)
      ensures this.fixed == fixed && this.tariffId == tariffId && location == None && authorization == None
              && tariff == None
    {
      this.fixed, this.tariffId := fixed, tariffId;
      location, authorization, tariff := None, None, None;
    }
  }

  predicate Truthy(id: Option<nat>) {
    id.Some? && id.value != 0
  }

  function Lookup<K, V>(m: map<K, V>, k: K): Option<V> {
    if k in m then Some(m[k]) else None
  }

  function Key(t: Transaction): string {
    Text.ToString(t.fixed.id)
  }

  ghost predicate DistinctIds(ts: seq<Transaction>) {
    forall i, j :: 0 <= i < j < |ts| ==> ts[i].fixed.id != ts[j].fixed.id
  }

  lemma DistinctKeys(ts: seq<Transaction>)
    requires DistinctIds(ts)
    ensures forall i, j :: 0 <= i < j < |ts| ==> ts[i] != ts[j] && Key(ts[i]) != Key(ts[j])
  {
    forall i, j | 0 <= i < j < |ts| ensures Key(ts[i]) != Key(ts[j]) {
      assert Text.NumberOf(Key(ts[i])) == ts[i].fixed.id;
    }
  }

  // ---------- What one transaction resolves to ----------

  function ResolvedLocation(t: Transaction, db: Db): Option<LocationRow>
    reads t`location
  {
    if t.location.Some? then t.location
    else if Truthy(t.fixed.locationId) then Lookup(db.locations, (t.fixed.id, t.fixed.locationId.value))
    else None
  }

  /** The authorization is read again whenever there is an id for it. */
  function ResolvedAuthorization(t: Transaction, db: Db): Option<Authorization>
    reads t`authorization
  {
    if Truthy(t.fixed.authorizationId) && (t.fixed.id, t.fixed.authorizationId.value) in db.authorizations
    then Some(db.authorizations[(t.fixed.id, t.fixed.authorizationId.value)])
    else t.authorization
  }

  function ResolvedTariffId(t: Transaction, db: Db): Option<nat>
    reads t`tariff, t`tariffId
  {
    if t.tariff.None? && !Truthy(t.tariffId) && t.fixed.id != 0 && Truthy(Lookup(db.transactionTariffIds, t.fixed.id))
    then Lookup(db.transactionTariffIds, t.fixed.id)
    else t.tariffId
  }

  /** A tariff is looked up under the transaction's tenant, which then has to be there. */
  predicate TariffThrows(t: Transaction, db: Db)
    reads t`tariff, t`tariffId
  {
    t.tariff.None? && Truthy(ResolvedTariffId(t, db)) && t.fixed.tenant.None?
  }

  function ResolvedTariff(t: Transaction, db: Db): Option<Pricing.Tariff>
    reads t`tariff, t`tariffId
  {
    if t.tariff.Some? then t.tariff
    else if Truthy(ResolvedTariffId(t, db)) && t.fixed.tenant.Some?
    then Lookup(db.tariffs, (t.fixed.id, ResolvedTariffId(t, db).value, t.fixed.tenant.value))
    else None
  }

  // ---------- The caching loaders ----------

  predicate Maps(location: Option<LocationRow>) {
    location.Some? ==> location.value.dto.Ok?
  }

  function LocationOf(location: Option<LocationRow>): Option<Location> {
    if location.Some? && location.value.dto.Ok? then Some(location.value.dto.value) else None
  }

  method GetLocationDtosForTransactions(ts: seq<Transaction>, db: Db) returns (r: Result<map<string, Location>>)
    requires DistinctIds(ts)
    modifies ts`location
    ensures (forall t :: t in ts ==> old(Maps(ResolvedLocation(t, db)))) ==> r.Ok?
    ensures r.Ok? ==> forall t :: t in ts ==>
                        && t.location == old(ResolvedLocation(t, db))
                        && Maps(t.location) && Lookup(r.value, Key(t)) == LocationOf(t.location)
  {
    DistinctKeys(ts);
    hide Key, DistinctIds;
    var locations: map<string, Location> := map[];
    for i := 0 to |ts|
      invariant forall j :: 0 <= j < i ==> ts[j].location == old(ResolvedLocation(ts[j], db))
      invariant forall j :: i <= j < |ts| ==> ts[j].location == old(ts[j].location)
      invariant forall j :: 0 <= j < i ==>
                  Maps(ts[j].location) && Lookup(locations, Key(ts[j])) == LocationOf(ts[j].location)
      invariant forall j :: i <= j < |ts| ==> Key(ts[j]) !in locations
    {
      var t := ts[i];
      if t.location.None? && Truthy(t.fixed.locationId) {
        t.location := Lookup(db.locations, (t.fixed.id, t.fixed.locationId.value));
      }
      assert t.location == old(ResolvedLocation(ts[i], db));
      if t.location.Some? {
        if t.location.value.dto.Err? {
          assert t in ts && !Maps(t.location);
          return Err(t.location.value.dto.message);
        }
        locations := locations[Key(t) := t.location.value.dto.value];
      }
    }
    r := Ok(locations);
  }

  predicate Converts(authorization: Option<Authorization>) {
    authorization.Some? ==> authorization.value.token.Ok?
  }

  function TokenOf(authorization: Option<Authorization>): Option<CdrToken> {
    if authorization.Some? && authorization.value.token.Ok? then Some(authorization.value.token.value) else None
  }

  method GetTokensForTransactions(ts: seq<Transaction>, db: Db) returns (r: Result<map<string, CdrToken>>)
    requires DistinctIds(ts)
    modifies ts`authorization
    ensures (forall t :: t in ts ==> old(Converts(ResolvedAuthorization(t, db)))) ==> r.Ok?
    ensures r.Ok? ==> forall t :: t in ts ==>
                        && t.authorization == old(ResolvedAuthorization(t, db))
                        && Converts(t.authorization) && Lookup(r.value, Key(t)) == TokenOf(t.authorization)
  {
    DistinctKeys(ts);
    hide Key, DistinctIds;
    var tokens: map<string, CdrToken> := map[];
    for i := 0 to |ts|
      invariant forall j :: 0 <= j < i ==> ts[j].authorization == old(ResolvedAuthorization(ts[j], db))
      invariant forall j :: i <= j < |ts| ==> ts[j].authorization == old(ts[j].authorization)
      invariant forall j :: 0 <= j < i ==>
        Converts(ts[j].authorization)
        && Lookup(tokens, Key(ts[j])) == TokenOf(ts[j].authorization)
      invariant forall j :: i <= j < |ts| ==> Key(ts[j]) !in tokens
    {
      var t := ts[i];
      if Truthy(t.fixed.authorizationId) {
        var read := Lookup(db.authorizations, (t.fixed.id, t.fixed.authorizationId.value));
        if read.Some? {
          t.authorization := read;
        }
      }
      assert t.authorization == old(ResolvedAuthorization(ts[i], db));
      if t.authorization.Some? {
        if t.authorization.value.token.Err? {
          assert t in ts && !Converts(t.authorization);
          return Err(t.authorization.value.token.message);
        }
        tokens := tokens[Key(t) := t.authorization.value.token.value];
      }
    }
    r := Ok(tokens);
  }

  method GetTariffsForTransactions(ts: seq<Transaction>, db: Db) returns (r: Result<map<string, Pricing.Tariff>>)
    requires DistinctIds(ts)
    modifies ts`tariffId, ts`tariff
    ensures (forall t :: t in ts ==> !old(TariffThrows(t, db))) ==> r.Ok?
    ensures r.Ok? ==> forall t :: t in ts ==>
                        t.tariff == old(ResolvedTariff(t, db)) && Lookup(r.value, Key(t)) == t.tariff
  {
    DistinctKeys(ts);
    hide Key, DistinctIds, Lookup;
    var tariffs: map<string, Pricing.Tariff> := map[];
    for i := 0 to |ts|
      invariant forall j :: 0 <= j < i ==> ts[j].tariff == old(ResolvedTariff(ts[j], db))
      invariant forall j :: i <= j < |ts| ==> ts[j].tariff == old(ts[j].tariff) && ts[j].tariffId == old(ts[j].tariffId)
      invariant forall j :: 0 <= j < i ==> Lookup(tariffs, Key(ts[j])) == ts[j].tariff
      invariant forall j :: i <= j < |ts| ==> Key(ts[j]) !in tariffs
    {
      var t := ts[i];
      if t.tariff.None? && !Truthy(t.tariffId) && t.fixed.id != 0 {
        var read := Lookup(db.transactionTariffIds, t.fixed.id);
        if Truthy(read) {
          t.tariffId := read;
        }
      }
      if t.tariff.None? && Truthy(t.tariffId) {
        if t.fixed.tenant.None? {
          assert t in ts;
          return Err("TypeError");
        }
        var read := Lookup(db.tariffs, (t.fixed.id, t.tariffId.value, t.fixed.tenant.value));
        if read.Some? {
          t.tariff := read;
        }
      }
      if t.tariff.Some? {
        tariffs := tariffs[Key(t) := t.tariff.value];
      }
    }
    r := Ok(tariffs);
  }

  // ---------- Sessions ----------

  /** A transaction's columns with the three parts loaded for it. */
  datatype View = View(fixed: Fixed, location: Option<LocationRow>, authorization: Option<Authorization>,
    tariff: Option<Pricing.Tariff>)

  /** What is cached on the transactions now. */
  function CachedViews(ts: seq<Transaction>): (views: seq<View>)
    reads ts
    ensures |views| == |ts|
    ensures forall i :: 0 <= i < |ts| ==>
            views[i] == View(ts[i].fixed, ts[i].location, ts[i].authorization, ts[i].tariff)
  {
    if ts == [] then []
    else [View(ts[0].fixed, ts[0].location, ts[0].authorization, ts[0].tariff)] + CachedViews(ts[1..])
  }

  /** What loading against a snapshot would cache. */
  function ResolvedViews(ts: seq<Transaction>, db: Db): (views: seq<View>)
    reads ts
    ensures |views| == |ts|
    ensures forall i :: 0 <= i < |ts| ==>
            views[i] == View(ts[i].fixed, ResolvedLocation(ts[i], db), ResolvedAuthorization(ts[i], db),
            ResolvedTariff(ts[i], db))
  {
    if ts == [] then []
    else
      [View(ts[0].fixed, ResolvedLocation(ts[0], db), ResolvedAuthorization(ts[0], db), ResolvedTariff(ts[0], db))]
      + ResolvedViews(ts[1..], db)
  }

  /** The loads of all three parts. */
  method LoadAll(ts: seq<Transaction>, db: Db)
    returns (r: Result<(map<string, Location>, map<string, CdrToken>, map<string, Pricing.Tariff>)>)
    requires DistinctIds(ts)
    modifies ts
    ensures (forall t :: t in ts ==>
               && t.fixed.tenant.Some? && old(Converts(ResolvedAuthorization(t, db)))
               && old(Maps(ResolvedLocation(t, db)))) ==> r.Ok?
    ensures r.Ok? ==>
              && CachedViews(ts) == old(ResolvedViews(ts, db))
              && forall t :: t in ts ==>
                   && Maps(t.location) && Lookup(r.value.0, Key(t)) == LocationOf(t.location)
                   && Converts(t.authorization) && Lookup(r.value.1, Key(t)) == TokenOf(t.authorization)
                   && Lookup(r.value.2, Key(t)) == t.tariff
  {
    hide Key, Lookup, TokenOf, LocationOf, Converts, Maps, CachedViews, ResolvedViews, ResolvedLocation, ResolvedTariff,
      ResolvedTariffId, ResolvedAuthorization;
    var locations := GetLocationDtosForTransactions(ts, db);
    if locations.Err? {
      return Err(locations.message);
    }
    var tokens := GetTokensForTransactions(ts, db);
    if tokens.Err? {
      return Err(tokens.message);
    }
    var tariffs := GetTariffsForTransactions(ts, db);
    if tariffs.Err? {
      return Err(tariffs.message);
    }
    r := Ok((locations.value, tokens.value, tariffs.value));
  }

  datatype AuthMethod = WHITELIST | OtherMethod

  datatype Session = Session(
    id: string,
    party: Party,
    startDateTime: int,
    endDateTime: Option<int>,
    kwh: real,
    token: CdrToken,
    authMethod: AuthMethod,
    authorizationReference: Option<string>,
    locationId: string,
    evseUid: string,
    connectorId: string,
    currency: string,
    chargingPeriods: seq<Metering.ChargingPeriod>,
    totalCost: Pricing.Price,
    lastUpdated: int)

  /** What a template prints for an id column. */
  function PrintedId(id: Option<nat>): string {
    if id.Some? then Text.ToString(id.value) else "null"
  }

  /** A session needs a connector; without one the mapping throws. */
  function SessionOf(f: Fixed, location: Location, token: CdrToken, tariff: Pricing.Tariff): Session {
    var kwh := f.totalKwh.GetOr(0.0);
    Session(
      Text.ToString(f.id), location.party, f.startTime.GetOr(f.createdAt), f.endTime, kwh, token, WHITELIST,
      f.authorizationReference,
      location.id, EvseUid.UidFormat(f.stationId, PrintedId(f.evseId)),
      if f.connectorId.Some? then Text.ToString(f.connectorId.value) else "",
      tariff.currency, Metering.Periods(f.meterValues, Text.ToString(tariff.id)),
      if f.endTime.Some? then Pricing.SessionTotalCost(kwh, tariff.pricePerKwh.GetOr(0.0))
        else Pricing.Price(0.0, None),
      f.updatedAt)
  }

  /** Location, token and tariff are all there. */
  predicate Resolves(v: View) {
    LocationOf(v.location).Some? && TokenOf(v.authorization).Some? && v.tariff.Some?
  }

  function ViewSession(v: View): Session
    requires Resolves(v)
  {
    SessionOf(v.fixed, LocationOf(v.location).value, TokenOf(v.authorization).value, v.tariff.value)
  }

  /** One session for each view that resolves, in order. */
  function SessionsOf(views: seq<View>): seq<Session> {
    if views == [] then []
    else
      var n := |views| - 1;
      SessionsOf(views[..n]) + (if Resolves(views[n]) then [ViewSession(views[n])] else [])
  }

  /** Skips transactions without all three parts; a session needs a connector. */
  method MapTransactionsToSessionsHelper(ts: seq<Transaction>, locations: map<string, Location>,
                                         tokens: map<string, CdrToken>, tariffs: map<string, Pricing.Tariff>)
    returns (r: Result<seq<Session>>)
    requires forall t :: t in ts ==>
               && Maps(t.location) && Lookup(locations, Key(t)) == LocationOf(t.location)
               && Converts(t.authorization) && Lookup(tokens, Key(t)) == TokenOf(t.authorization)
               && Lookup(tariffs, Key(t)) == t.tariff
    ensures (forall t :: t in ts ==> t.fixed.connectorId.Some?) ==> r.Ok?
    ensures r.Ok? ==> r.value == SessionsOf(CachedViews(ts))
  {
    hide Key, Converts, Maps, SessionOf, CachedViews;
    ghost var views := CachedViews(ts);
    var sessions: seq<Session> := [];
    for i := 0 to |ts|
      invariant sessions == SessionsOf(views[..i])
    {
      var t := ts[i];
      assert views[..i + 1][..i] == views[..i] && t in ts;
      var location, token, tariff := Lookup(locations, Key(t)), Lookup(tokens, Key(t)), Lookup(tariffs, Key(t));
      if location.Some? && token.Some? && tariff.Some? {
        if t.fixed.connectorId.None? {
          return Err("TypeError");
        }
        sessions := sessions + [SessionOf(t.fixed, location.value, token.value, tariff.value)];
      }
    }
    assert views[..|ts|] == views;
    r := Ok(sessions);
  }

  /** Loads the three parts, then maps. */
  method MapTransactionsToSessions(ts: seq<Transaction>, db: Db) returns (r: Result<seq<Session>>)
    requires DistinctIds(ts)
    modifies ts
    ensures (forall t :: t in ts ==>
               && t.fixed.tenant.Some? && t.fixed.connectorId.Some? && old(Converts(ResolvedAuthorization(t, db)))
               && old(Maps(ResolvedLocation(t, db)))) ==> r.Ok?
    ensures r.Ok? ==> CachedViews(ts) == old(ResolvedViews(ts, db)) && r.value == SessionsOf(CachedViews(ts))
    ensures r.Ok? ==> forall t :: t in ts ==>
                        t.authorization == old(ResolvedAuthorization(t, db))
                          && t.location == old(ResolvedLocation(t, db))
  {
    hide *;
    ghost var views := ResolvedViews(ts, db);
    var loaded := LoadAll(ts, db);
    if loaded.Err? {
      return Err(loaded.message);
    }
    assert CachedViews(ts) == views;
    forall t | t in ts
      ensures t.authorization == old(ResolvedAuthorization(t, db)) && t.location == old(ResolvedLocation(t, db))
    {
      var i :| 0 <= i < |ts| && ts[i] == t;
      assert views[i].authorization == t.authorization && views[i].location == t.location;
    }
    r := MapTransactionsToSessionsHelper(ts, loaded.value.0, loaded.value.1, loaded.value.2);
  }

  // ---------- Charge detail records ----------

  datatype CdrLocation = CdrLocation(
    id: string,
    address: Address,
    evseUid: string,
    evseId: string,
    connectorId: string,
    connectorStandard: string,
    connectorFormat: string,
    connectorPowerType: string)

  datatype Cdr = Cdr(
    id: string,
    sessionId: string,
    party: Party,
    startDateTime: int,
    endDateTime: Option<int>,
    token: CdrToken,
    authMethod: AuthMethod,
    authorizationReference: Option<string>,
    location: CdrLocation,
    currency: string,
    tariffs: seq<Option<Pricing.Tariff>>,
    chargingPeriods: seq<Metering.ChargingPeriod>,
    totalCost: Pricing.Price,
    totalFixedCost: Option<Pricing.Price>,
    totalEnergy: real,
    totalEnergyCost: Option<Pricing.Price>,
    totalTime: real,
    totalTimeCost: Option<Pricing.Price>,
    totalParkingTime: real,
    lastUpdated: int)

  // ---------- The location of a record ----------

  ghost predicate FirstEvse(evses: seq<Evse>, uid: string, i: nat) {
    i < |evses| && evses[i].uid == uid && forall j :: 0 <= j < i ==> evses[j].uid != uid
  }

  ghost predicate FirstConnector(connectors: seq<Connector>, id: string, i: nat) {
    i < |connectors| && connectors[i].id == id && forall j :: 0 <= j < i ==> connectors[j].id != id
  }

  function FindEvse(evses: seq<Evse>, uid: string): (evse: Option<Evse>)
    ensures evse.Some? ==> exists i: nat :: FirstEvse(evses, uid, i) && evse.value == evses[i]
    ensures evse.None? ==> forall i :: 0 <= i < |evses| ==> evses[i].uid != uid
  {
    if evses == [] then None
    else if evses[0].uid == uid then
      assert FirstEvse(evses, uid, 0);
      Some(evses[0])
    else
      var found := FindEvse(evses[1..], uid);
      assert forall i: nat :: FirstEvse(evses[1..], uid, i) ==> FirstEvse(evses, uid, i + 1);
      found
  }

  function FindConnector(connectors: seq<Connector>, id: string): (connector: Option<Connector>)
    ensures connector.Some? ==>
            exists i: nat :: FirstConnector(connectors, id, i) && connector.value == connectors[i]
    ensures connector.None? ==> forall i :: 0 <= i < |connectors| ==> connectors[i].id != id
  {
    if connectors == [] then None
    else if connectors[0].id == id then
      assert FirstConnector(connectors, id, 0);
      Some(connectors[0])
    else
      var found := FindConnector(connectors[1..], id);
      assert forall i: nat :: FirstConnector(connectors[1..], id, i) ==> FirstConnector(connectors, id, i + 1);
      found
  }

  /** What cannot be found is left empty. */
  function CreateCdrLocation(location: Location, session: Session): CdrLocation {
    var evse := FindEvse(location.evses, session.evseUid);
    var connector := if evse.Some? then FindConnector(evse.value.connectors, session.connectorId) else None;
    CdrLocation(
      location.id, location.address, session.evseUid, if evse.Some? then evse.value.evseId.GetOr("") else "",
      session.connectorId,
      if connector.Some? then connector.value.standard else "",
      if connector.Some? then connector.value.format else "",
      if connector.Some? then connector.value.powerType else "")
  }

  ghost predicate Unconnected(l: CdrLocation) {
    l.connectorStandard == "" && l.connectorFormat == "" && l.connectorPowerType == ""
  }

  /** A record's location carries the first EVSE with the session's uid and, on that one, the first connector with
      its id; it is empty where the location has none. */
  lemma RecordNamesOwnConnector(location: Location, session: Session)
    ensures
      var l := CreateCdrLocation(location, session);
      && l.id == location.id && l.address == location.address && l.evseUid == session.evseUid
      && l.connectorId == session.connectorId
      && ((forall e :: e in location.evses ==> e.uid != session.evseUid) ==> l.evseId == "" && Unconnected(l))
      && forall i: nat :: FirstEvse(location.evses, session.evseUid, i) ==>
           var evse := location.evses[i];
           && l.evseId == (if evse.evseId.Some? then evse.evseId.value else "")
           && ((forall c :: c in evse.connectors ==> c.id != session.connectorId) ==> Unconnected(l))
           && forall k: nat :: FirstConnector(evse.connectors, session.connectorId, k) ==>
                var c := evse.connectors[k];
                && l.connectorStandard == c.standard && l.connectorFormat == c.format
                && l.connectorPowerType == c.powerType
  {
  }

  /** An EVSE of a station, as the location mapper names it. */
  predicate IsEvseOf(evse: Evse, stationId: string, evseId: nat) {
    evse.uid == EvseUid.UidFormat(stationId, Text.ToString(evseId))
  }

  /** A record names the EVSE its transaction ran on, if the location has it, and has one object for each
      EVSE: no other EVSE of any station shares its uid. */
  lemma RecordNamesOwnEvse(location: Location, session: Session, own: Evse, stationId: string, evseId: nat)
    requires own in location.evses && IsEvseOf(own, stationId, evseId)
    requires session.evseUid == EvseUid.UidFormat(stationId, PrintedId(Some(evseId)))
    requires forall e :: e in location.evses && e != own ==>
               exists station: string, n: nat :: IsEvseOf(e, station, n) && (station, n) != (stationId, evseId)
    ensures CreateCdrLocation(location, session).evseId == own.evseId.GetOr("")
  {
    var found := FindEvse(location.evses, session.evseUid).value;
    var i: nat :| FirstEvse(location.evses, session.evseUid, i) && found == location.evses[i];
    assert found in location.evses;
    if found != own {
      var station: string, n: nat :| IsEvseOf(found, station, n) && (station, n) != (stationId, evseId);
      EvseUid.UidOfNumberInjective(station, n, stationId, evseId);
    }
  }

  function GenerateCdrId(sessionId: string): string {
    "CDR**REX**" + Text.PadStart(sessionId, 5)
  }

  /** Milliseconds to hours; an unfinished session has no duration. */
  function TotalTime(session: Session): real {
    if session.endDateTime.Some? then (session.endDateTime.value - session.startDateTime) as real / 3600000.0 else 0.0
  }

  function CdrOf(session: Session, location: Location, tariff: Pricing.Tariff,
                 ocpiTariff: Option<Pricing.Tariff>): Cdr {
    var hours := TotalTime(session);
    Cdr(
      GenerateCdrId(session.id), session.id, session.party, session.startDateTime, session.endDateTime, session.token,
      session.authMethod, session.authorizationReference, CreateCdrLocation(location, session), session.currency,
      [ocpiTariff], session.chargingPeriods,
      Pricing.TotalCost(session.kwh, hours, tariff), Pricing.ComputeFixedCost(tariff),
      session.kwh, Pricing.ComputeEnergyCost(session.kwh, tariff),
      hours, Pricing.ComputeTimeCost(hours, tariff),
      Metering.TotalParking(session.chargingPeriods), session.lastUpdated)
  }

  method MapSessionToCdr(session: Session, location: Location, tariff: Pricing.Tariff,
                         ocpiTariff: Option<Pricing.Tariff>) returns (cdr: Cdr)
    ensures cdr == CdrOf(session, location, tariff, ocpiTariff)
  {
    var totalTime := TotalTime(session);
    var totalParkingTime := Metering.CalculateTotalParkingTimeFromPeriods(session.chargingPeriods);
    var totalEnergyCost := Pricing.ComputeEnergyCost(session.kwh, tariff);
    var totalTimeCost := Pricing.ComputeTimeCost(totalTime, tariff);
    var totalFixedCost := Pricing.ComputeFixedCost(tariff);
    var totalCost := Pricing.SumCosts([totalEnergyCost, totalTimeCost, totalFixedCost], tariff);
    cdr := Cdr(
      GenerateCdrId(session.id), session.id, session.party, session.startDateTime, session.endDateTime, session.token,
      session.authMethod, session.authorizationReference, CreateCdrLocation(location, session), session.currency,
      [ocpiTariff], session.chargingPeriods, totalCost, totalFixedCost, session.kwh, totalEnergyCost,
      totalTime, totalTimeCost, totalParkingTime, session.lastUpdated);
  }

  /** The inactive transactions, in order. */
  function Completed(ts: seq<Transaction>): (kept: seq<Transaction>)
    ensures forall t :: t in kept ==> t in ts && !t.fixed.isActive
  {
    if ts == [] then []
    else Completed(ts[..|ts| - 1]) + (if ts[|ts| - 1].fixed.isActive then [] else [ts[|ts| - 1]])
  }

  /** None is left out, and they come in the order of the transactions. */
  lemma {:induction false} CompletedInOrder(ts: seq<Transaction>)
    ensures
      var kept := Completed(ts);
      && (forall t :: t in ts && !t.fixed.isActive ==> t in kept)
      && forall a, b :: 0 <= a < b < |kept| ==> InOrder(ts, kept[a], kept[b])
  {
    if ts != [] {
      var n := |ts| - 1;
      var before := Completed(ts[..n]);
      CompletedInOrder(ts[..n]);
      hide InOrder;
      forall a, b | 0 <= a < b < |Completed(ts)| ensures InOrder(ts, Completed(ts)[a], Completed(ts)[b]) {
        assert Completed(ts)[a] in before;
        if b < |before| {
          InOrderLonger(ts, before[a], before[b]);
        } else {
          InOrderLast(ts, before[a]);
        }
      }
    }
  }

  ghost predicate InOrder(ts: seq<Transaction>, t: Transaction, u: Transaction) {
    exists i, j :: 0 <= i < j < |ts| && ts[i] == t && ts[j] == u
  }

  lemma InOrderLonger(ts: seq<Transaction>, t: Transaction, u: Transaction)
    requires ts != [] && InOrder(ts[..|ts| - 1], t, u)
    ensures InOrder(ts, t, u)
  {
    var i, j :| 0 <= i < j < |ts| - 1 && ts[..|ts| - 1][i] == t && ts[..|ts| - 1][j] == u;
    assert ts[i] == t && ts[j] == u;
  }

  lemma InOrderLast(ts: seq<Transaction>, t: Transaction)
    requires ts != [] && t in ts[..|ts| - 1]
    ensures InOrder(ts, t, ts[|ts| - 1])
  {
    var i :| 0 <= i < |ts| - 1 && ts[..|ts| - 1][i] == t;
    assert ts[i] == t;
  }

  lemma CompletedDistinct(ts: seq<Transaction>)
    requires DistinctIds(ts)
    ensures DistinctIds(Completed(ts))
  {
    if ts != [] {
      CompletedDistinct(ts[..|ts| - 1]);
    }
  }

  /** The tariff in OCPI form is looked up once more, under the location's party. */
  function OcpiTariff(db: Db, session: Session, tariff: Pricing.Tariff): Option<Pricing.Tariff> {
    Lookup(db.ocpiTariffs, (session.id, tariff.id, session.party))
  }

  /** The record of a view that resolves; `db` is what the later loads read. */
  function ViewCdr(v: View, db: Db): Cdr
    requires Resolves(v)
  {
    var session := ViewSession(v);
    CdrOf(session, LocationOf(v.location).value, v.tariff.value, OcpiTariff(db, session, v.tariff.value))
  }

  /** One record for each view that resolves, in order. */
  function CdrsOf(views: seq<View>, db: Db): seq<Cdr> {
    if views == [] then []
    else
      var n := |views| - 1;
      CdrsOf(views[..n], db) + (if Resolves(views[n]) then [ViewCdr(views[n], db)] else [])
  }

  /** The views that resolve, in order. */
  function Resolving(views: seq<View>): (kept: seq<View>)
    ensures forall v :: v in kept <==> v in views && Resolves(v)
  {
    if views == [] then []
    else
      var n := |views| - 1;
      Resolving(views[..n]) + (if Resolves(views[n]) then [views[n]] else [])
  }

  /** The record starts with the transaction, or with its row when that has no start, and lasts as long as the
      transaction did, in hours. */
  ghost predicate Lasts(cdr: Cdr, f: Fixed) {
    var start := if f.startTime.Some? then f.startTime.value else f.createdAt;
    && cdr.startDateTime == start && cdr.endDateTime == f.endTime
    && if f.endTime.Some? then cdr.totalTime * 3600000.0 == (f.endTime.value - start) as real
       else cdr.totalTime == 0.0
  }

  /** Energy, minutes and fee are charged at the tariff's prices, and the total is their exact sum. */
  ghost predicate ChargedFor(cdr: Cdr, f: Fixed, tariff: Pricing.Tariff) {
    && cdr.totalEnergy == (if f.totalKwh.Some? then f.totalKwh.value else 0.0) && cdr.currency == tariff.currency
    && Pricing.Charged(cdr.totalEnergyCost, cdr.totalEnergy, tariff.pricePerKwh, tariff.taxRate)
    && Pricing.Charged(cdr.totalTimeCost, cdr.totalTime * 60.0, tariff.pricePerMin, tariff.taxRate)
    && Pricing.Charged(cdr.totalFixedCost, 1.0, tariff.pricePerSession, tariff.taxRate)
    && cdr.totalCost.exclVat == Pricing.ExclVat(cdr.totalEnergyCost) + Pricing.ExclVat(cdr.totalTimeCost)
      + Pricing.ExclVat(cdr.totalFixedCost)
    && Pricing.Taxed(cdr.totalCost, tariff.taxRate)
  }

  /** The record names its transaction, its location's party and place, its token and its tariff. */
  ghost predicate Names(cdr: Cdr, f: Fixed, location: Location, token: CdrToken, tariff: Pricing.Tariff) {
    && cdr.sessionId == Text.ToString(f.id) && cdr.id == "CDR**REX**" + Text.PadStart(Text.ToString(f.id), 5)
    && cdr.party == location.party && cdr.token == token && cdr.authMethod == WHITELIST
    && cdr.authorizationReference == f.authorizationReference && cdr.lastUpdated == f.updatedAt
    && cdr.location.id == location.id && cdr.location.address == location.address
    && cdr.location.evseUid
       == EvseUid.UidFormat(f.stationId, if f.evseId.Some? then Text.ToString(f.evseId.value) else "null")
    && (f.connectorId.Some? ==> cdr.location.connectorId == Text.ToString(f.connectorId.value))
    && cdr.chargingPeriods == Metering.Periods(f.meterValues, Text.ToString(tariff.id))
    && cdr.totalParkingTime == 0.0
  }

  /** What a record says, from the transaction's columns and what was loaded for it; only the OCPI tariff comes
      from the later reads. */
  ghost predicate RecordOf(cdr: Cdr, v: View, db: Db)
    requires Resolves(v)
  {
    var location, token, tariff := v.location.value.dto.value, v.authorization.value.token.value, v.tariff.value;
    var key := (Text.ToString(v.fixed.id), tariff.id, location.party);
    && Names(cdr, v.fixed, location, token, tariff) && Lasts(cdr, v.fixed) && ChargedFor(cdr, v.fixed, tariff)
    && cdr.location == CreateCdrLocation(location, ViewSession(v))
    && cdr.tariffs == [if key in db.ocpiTariffs then Some(db.ocpiTariffs[key]) else None]
  }

  /** The tariff a transaction is priced by has this id: its own, or the one read for it when it has none. */
  ghost predicate PricedBy(t: Transaction, db: Db, tariffId: nat)
    reads t`tariffId
  {
    && tariffId != 0
    && if t.tariffId.Some? && t.tariffId.value != 0 then tariffId == t.tariffId.value
       else
         && t.fixed.id != 0 && t.fixed.id in db.transactionTariffIds && db.transactionTariffIds[t.fixed.id] == tariffId
  }

  /** Which records a fresh transaction gets: it resolves exactly when the location and authorization it refers to are
      found and can be mapped, and a tariff is found for it under its tenant. A reference to 0 is none. */
  lemma FreshResolvesIff(t: Transaction, db: Db)
    requires t.location.None? && t.authorization.None? && t.tariff.None?
    ensures
      var f, id := t.fixed, t.fixed.id;
      var view := View(f, ResolvedLocation(t, db), ResolvedAuthorization(t, db), ResolvedTariff(t, db));
      && (Resolves(view)
          <==> && f.locationId.Some? && f.locationId.value != 0 && (id, f.locationId.value) in db.locations
               && db.locations[(id, f.locationId.value)].dto.Ok?
               && f.authorizationId.Some? && f.authorizationId.value != 0
               && (id, f.authorizationId.value) in db.authorizations
               && db.authorizations[(id, f.authorizationId.value)].token.Ok?
               && f.tenant.Some?
               && exists tariffId: nat :: PricedBy(t, db, tariffId) && (id, tariffId, f.tenant.value) in db.tariffs)
      && (Resolves(view) ==>
            && view.location == Some(db.locations[(id, f.locationId.value)])
            && view.authorization == Some(db.authorizations[(id, f.authorizationId.value)])
            && exists tariffId: nat ::
                 && PricedBy(t, db, tariffId) && (id, tariffId, f.tenant.value) in db.tariffs
                 && view.tariff == Some(db.tariffs[(id, tariffId, f.tenant.value)]))
  {
    var id := ResolvedTariffId(t, db);
    if Truthy(id) {
      assert PricedBy(t, db, id.value);
    }
  }

  /** Once loaded, a location and a tariff stay whatever the database holds; an authorization is read again, and stays
      only where the read finds nothing. */
  lemma LoadedStays(t: Transaction, db: Db)
    ensures t.location.Some? ==> ResolvedLocation(t, db) == t.location
    ensures t.tariff.Some? ==> ResolvedTariff(t, db) == t.tariff && !TariffThrows(t, db)
    ensures ResolvedAuthorization(t, db) != t.authorization ==>
              && t.fixed.authorizationId.Some? && t.fixed.authorizationId.value != 0
              && (t.fixed.id, t.fixed.authorizationId.value) in db.authorizations
              && ResolvedAuthorization(t, db) == Some(db.authorizations[(t.fixed.id, t.fixed.authorizationId.value)])
    ensures t.fixed.tenant.Some? ==> !TariffThrows(t, db)
    ensures t.tariff.None? && t.fixed.tenant.None? ==>
              (TariffThrows(t, db) <==> exists tariffId: nat :: PricedBy(t, db, tariffId))
  {
    var id := ResolvedTariffId(t, db);
    if Truthy(id) && t.tariff.None? {
      assert PricedBy(t, db, id.value);
    }
  }

  lemma HoursOf(ms: int)
    ensures (ms as real / 3600000.0) * 3600000.0 == ms as real
  {
  }

  lemma ViewRecord(v: View, db: Db)
    requires Resolves(v)
    ensures RecordOf(ViewCdr(v, db), v, db)
  {
    hide Text.PadStart, Text.ToString, Pricing.TotalCost, Pricing.ComputeEnergyCost, Pricing.ComputeTimeCost,
      Pricing.ComputeFixedCost, Pricing.Charged, Pricing.Taxed, Metering.Periods, Metering.TotalParking;
    var session, f := ViewSession(v), v.fixed;
    Pricing.TotalIsExactSum(session.kwh, TotalTime(session), v.tariff.value);
    Pricing.ComponentsCharged(session.kwh, TotalTime(session), v.tariff.value);
    Metering.ParkingTimeIsZero(f.meterValues, Text.ToString(v.tariff.value.id));
    if f.endTime.Some? {
      HoursOf(f.endTime.value - session.startDateTime);
    }
  }

  /** A finished session's total is its energy at the tariff's price, cut off at the cent; a running one's is zero. */
  lemma SessionTotal(v: View)
    requires Resolves(v)
    ensures
      var total, f, price := ViewSession(v).totalCost, v.fixed, v.tariff.value.pricePerKwh;
      if f.endTime.None? || f.totalKwh.None? || price.None? then total == Pricing.Price(0.0, None)
      else
        && total.inclVat.None? && 0.0 <= f.totalKwh.value * price.value - total.exclVat < 0.01
        && exists cents: int :: total.exclVat == Pricing.Hundredths(cents)
  {
    Pricing.SessionTotalIs(v.fixed.totalKwh.GetOr(0.0), v.tariff.value.pricePerKwh.GetOr(0.0));
  }

  /** The records stand for exactly the transactions that resolve, in input order. */
  lemma {:induction false} OneCdrPerResolving(views: seq<View>, db: Db)
    ensures
      var kept, cdrs := Resolving(views), CdrsOf(views, db);
      |cdrs| == |kept| && forall k :: 0 <= k < |kept| ==> RecordOf(cdrs[k], kept[k], db)
  {
    hide RecordOf, ViewCdr, Resolves;
    if views != [] {
      var n := |views| - 1;
      OneCdrPerResolving(views[..n], db);
      if Resolves(views[n]) {
        ViewRecord(views[n], db);
      }
    }
  }

  ghost predicate DistinctViews(views: seq<View>) {
    forall i, j :: 0 <= i < j < |views| ==> views[i].fixed.id != views[j].fixed.id
  }

  ghost predicate DistinctSessions(sessions: seq<Session>) {
    forall j, k :: 0 <= j < k < |sessions| ==> sessions[j].id != sessions[k].id
  }

  lemma {:induction false} SessionFromView(views: seq<View>, s: Session)
    requires s in SessionsOf(views)
    ensures exists i :: 0 <= i < |views| && Resolves(views[i]) && s == ViewSession(views[i])
  {
    var n := |views| - 1;
    if s in SessionsOf(views[..n]) {
      SessionFromView(views[..n], s);
      var i :| 0 <= i < n && Resolves(views[..n][i]) && s == ViewSession(views[..n][i]);
      assert views[i] == views[..n][i];
    } else {
      assert s == ViewSession(views[n]);
    }
  }

  lemma {:induction false} SessionsDistinct(views: seq<View>)
    requires DistinctViews(views)
    ensures DistinctSessions(SessionsOf(views))
  {
    if views != [] {
      var n := |views| - 1;
      SessionsDistinct(views[..n]);
      var before := SessionsOf(views[..n]);
      forall j | 0 <= j < |before| ensures before[j].id != Text.ToString(views[n].fixed.id) {
        SessionFromView(views[..n], before[j]);
        var i :| 0 <= i < n && Resolves(views[..n][i]) && before[j] == ViewSession(views[..n][i]);
        assert Text.NumberOf(before[j].id) == views[i].fixed.id;
      }
    }
  }

  /** The tariffs in OCPI form, for the sessions that have a tariff. */
  method GetOcpiTariffsForTransactions(sessions: seq<Session>, tariffs: map<string, Pricing.Tariff>, db: Db)
    returns (ocpiTariffs: map<string, Pricing.Tariff>)
    requires DistinctSessions(sessions)
    ensures forall s :: s in sessions && s.id in tariffs ==>
            Lookup(ocpiTariffs, s.id) == OcpiTariff(db, s, tariffs[s.id])
  {
    ocpiTariffs := map[];
    for k := 0 to |sessions|
      invariant forall j :: 0 <= j < k && sessions[j].id in tariffs ==>
                  Lookup(ocpiTariffs, sessions[j].id) == OcpiTariff(db, sessions[j], tariffs[sessions[j].id])
      invariant forall j :: k <= j < |sessions| ==> sessions[j].id !in ocpiTariffs
    {
      var session := sessions[k];
      if session.id in tariffs {
        var tariff := OcpiTariff(db, session, tariffs[session.id]);
        if tariff.Some? {
          ocpiTariffs := ocpiTariffs[session.id := tariff.value];
        }
      }
    }
  }

  /** The record of a session whose location and tariff are in the maps. */
  function CdrFor(session: Session, locations: map<string, Location>, tariffs: map<string, Pricing.Tariff>, db: Db): Cdr
    requires session.id in locations && session.id in tariffs
  {
    CdrOf(session, locations[session.id], tariffs[session.id], OcpiTariff(db, session, tariffs[session.id]))
  }

  function CdrsFor(sessions: seq<Session>, locations: map<string, Location>, tariffs: map<string, Pricing.Tariff>,
                   db: Db): seq<Cdr>
    requires forall s :: s in sessions ==> s.id in locations && s.id in tariffs
  {
    if sessions == [] then []
    else
      CdrsFor(sessions[..|sessions| - 1], locations, tariffs, db)
      + [CdrFor(sessions[|sessions| - 1], locations, tariffs, db)]
  }

  /** Maps the sessions that have a tariff. Sessions whose location and tariff are in the maps all
      pass the filter, and no lookup fails. */
  method MapSessionsToCdrs(sessions: seq<Session>, locations: map<string, Location>,
                           tariffs: map<string, Pricing.Tariff>, ocpiTariffs: map<string, Pricing.Tariff>, ghost db: Db)
    returns (cdrs: seq<Cdr>)
    requires forall s :: s in sessions ==> s.id in tariffs && s.id in locations
    requires forall s :: s in sessions ==> Lookup(ocpiTariffs, s.id) == OcpiTariff(db, s, tariffs[s.id])
    ensures cdrs == CdrsFor(sessions, locations, tariffs, db)
  {
    cdrs := [];
    for k := 0 to |sessions|
      invariant cdrs == CdrsFor(sessions[..k], locations, tariffs, db)
    {
      var session := sessions[k];
      assert session in sessions && sessions[..k + 1][..k] == sessions[..k];
      if session.id in tariffs {
        var cdr := MapSessionToCdr(session, locations[session.id], tariffs[session.id],
          Lookup(ocpiTariffs, session.id));
        cdrs := cdrs + [cdr];
      }
    }
    assert sessions[..|sessions|] == sessions;
  }

  /** The maps hold the view's own location and tariff. */
  predicate InMaps(v: View, locations: map<string, Location>, tariffs: map<string, Pricing.Tariff>) {
    var id := Text.ToString(v.fixed.id);
    Resolves(v) ==> Lookup(locations, id) == LocationOf(v.location) && Lookup(tariffs, id) == v.tariff
  }

  lemma CdrsForAppend(sessions: seq<Session>, s: Session, locations: map<string, Location>,
                      tariffs: map<string, Pricing.Tariff>, db: Db)
    requires s.id in locations && s.id in tariffs
    requires forall s' :: s' in sessions ==> s'.id in locations && s'.id in tariffs
    ensures forall s' :: s' in sessions + [s] ==> s'.id in locations && s'.id in tariffs
    ensures CdrsFor(sessions + [s], locations, tariffs, db)
            == CdrsFor(sessions, locations, tariffs, db) + [CdrFor(s, locations, tariffs, db)]
  {
    assert (sessions + [s])[..|sessions|] == sessions;
  }

  lemma {:induction false} CdrsForViews(views: seq<View>, locations: map<string, Location>,
                                        tariffs: map<string, Pricing.Tariff>, db: Db)
    requires forall i :: 0 <= i < |views| ==> InMaps(views[i], locations, tariffs)
    ensures forall s :: s in SessionsOf(views) ==> s.id in locations && s.id in tariffs
    ensures CdrsFor(SessionsOf(views), locations, tariffs, db) == CdrsOf(views, db)
  {
    if views != [] {
      var n := |views| - 1;
      var before := SessionsOf(views[..n]);
      CdrsForViews(views[..n], locations, tariffs, db);
      assert InMaps(views[n], locations, tariffs);
      if Resolves(views[n]) {
        var last := ViewSession(views[n]);
        assert CdrFor(last, locations, tariffs, db) == ViewCdr(views[n], db);
        CdrsForAppend(before, last, locations, tariffs, db);
        assert SessionsOf(views) == before + [last];
      } else {
        assert SessionsOf(views) == before;
      }
    }
  }

  /** For distinct ids: whenever the mapping returns, it gives exactly one record, in input order,
      for each inactive transaction whose location, token and tariff resolve. No lookup of a
      session's location or tariff fails, because the first loads cached both on the transaction.
      `db` is what the first loads read, `db'` what the later ones read. It is sure to return when what is
      read can be mapped; the later loads map the locations of active transactions as well. */
  method MapTransactionsToCdrs(transactions: seq<Transaction>, db: Db, db': Db) returns (r: Result<seq<Cdr>>)
    requires DistinctIds(transactions)
    modifies transactions
    ensures (forall t :: t in transactions && !t.fixed.isActive ==>
               && t.fixed.tenant.Some? && t.fixed.connectorId.Some? && old(Converts(ResolvedAuthorization(t, db)))
               && old(Maps(ResolvedLocation(t, db))))
            && (forall t :: t in transactions ==> old(Maps(ResolvedLocation(t, db'))))
            ==> r.Ok?
    ensures r.Ok? ==> r.value == CdrsOf(old(ResolvedViews(Completed(transactions), db)), db')
    ensures r.Ok? ==> forall t :: t in Completed(transactions) ==> t.authorization == old(ResolvedAuthorization(t, db))
  {
    hide Completed, ResolvedViews, CachedViews, SessionsOf, CdrsOf, Converts, ResolvedAuthorization, ResolvedTariff,
      Lookup, Truthy;
    var valid := Completed(transactions);
    CompletedDistinct(transactions);
    assert forall i :: 0 <= i < |valid| ==> valid[i] in valid;
    ghost var mapped := set t | t in valid && Maps(ResolvedLocation(t, db));
    ghost var reread := set t | t in transactions && Maps(ResolvedLocation(t, db'));
    ghost var views := ResolvedViews(valid, db);
    var sessions := MapTransactionsToSessions(valid, db);
    if sessions.Err? {
      return Err(sessions.message);
    }
    forall t | t in reread && (t in valid ==> t in mapped) ensures Maps(ResolvedLocation(t, db')) {
      assert t in valid ==> t.location == old(ResolvedLocation(t, db));
      assert t !in valid ==> t.location == old(t.location);
    }
    r := MapLoadedSessions(transactions, valid, sessions.value, views, db');
  }

  /** The later loads find the first ones' results on the transactions, whatever the database
      holds by then. */
  method MapLoadedSessions(transactions: seq<Transaction>, valid: seq<Transaction>, sessions: seq<Session>,
                           ghost views: seq<View>, db: Db)
    returns (r: Result<seq<Cdr>>)
    requires DistinctIds(transactions) && DistinctIds(valid)
    requires forall i :: 0 <= i < |valid| ==> valid[i] in transactions
    requires views == CachedViews(valid) && sessions == SessionsOf(views)
    modifies transactions
    ensures (forall t :: t in valid ==> t.fixed.tenant.Some?)
            && (forall t :: t in transactions ==> old(Maps(ResolvedLocation(t, db))))
            ==> r.Ok?
    ensures r.Ok? ==> r.value == CdrsOf(views, db)
    ensures forall t :: t in transactions ==> t.authorization == old(t.authorization)
  {
    assert DistinctViews(views);
    hide *;
    var loaded := LoadAgain(transactions, valid, views, db);
    if loaded.Err? {
      return Err(loaded.message);
    }
    var (tariffs, locations) := loaded.value;
    CdrsForViews(views, locations, tariffs, db);
    SessionsDistinct(views);
    var ocpiTariffs := GetOcpiTariffsForTransactions(sessions, tariffs, db);
    var cdrs := MapSessionsToCdrs(sessions, locations, tariffs, ocpiTariffs, db);
    r := Ok(cdrs);
  }

  /** The maps of the later loads hold every view's own location and tariff. */
  method LoadAgain(transactions: seq<Transaction>, valid: seq<Transaction>, ghost views: seq<View>, db: Db)
    returns (r: Result<(map<string, Pricing.Tariff>, map<string, Location>)>)
    requires DistinctIds(transactions) && DistinctIds(valid)
    requires forall i :: 0 <= i < |valid| ==> valid[i] in transactions
    requires views == CachedViews(valid)
    modifies transactions
    ensures (forall t :: t in valid ==> t.fixed.tenant.Some?)
            && (forall t :: t in transactions ==> old(Maps(ResolvedLocation(t, db))))
            ==> r.Ok?
    ensures r.Ok? ==> forall i :: 0 <= i < |views| ==> InMaps(views[i], r.value.1, r.value.0)
    ensures forall t :: t in transactions ==> t.authorization == old(t.authorization)
  {
    hide CachedViews, Lookup, Text.ToString, LocationOf, TokenOf, ResolvedTariffId;
    var tariffs := GetTariffsForTransactions(valid, db);
    if tariffs.Err? {
      return Err(tariffs.message);
    }
    var locations := GetLocationDtosForTransactions(transactions, db);
    if locations.Err? {
      return Err(locations.message);
    }
    forall i | 0 <= i < |views| ensures InMaps(views[i], locations.value, tariffs.value) {
      var t := valid[i];
      assert t in valid && t in transactions;
      assert views[i].tariff.Some? ==> t.tariff == views[i].tariff;
      assert views[i].location.Some? ==> t.location == views[i].location;
      LocatedSome(views[i]);
    }
    r := Ok((tariffs.value, locations.value));
  }

  lemma LocatedSome(v: View)
    ensures Resolves(v) ==> v.location.Some? && v.tariff.Some?
  {
  }
}
