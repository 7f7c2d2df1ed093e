/** The status of an EVSE from its connectors (00_Base/src/mapper/LocationMapper.ts). */
module EvseStatusAggregation {

  /** `NoStatus` is a null status. */
  datatype ConnectorStatus =
    | Available | Preparing | Charging | SuspendedEVSE | SuspendedEV | Finishing
    | Reserved | Unavailable | Faulted | Unknown | NoStatus

  datatype EvseStatus = AVAILABLE | CHARGING | INOPERATIVE | OUTOFORDER | RESERVED | UNKNOWN

  predicate Some_(statuses: seq<ConnectorStatus>, wanted: set<ConnectorStatus>) {
    exists s :: s in statuses && s in wanted
  }

  function MapEvseStatusFromConnectors(statuses: seq<ConnectorStatus>): EvseStatus {
    if statuses == [] then UNKNOWN
    else if Some_(statuses, {Charging, SuspendedEVSE, SuspendedEV, Finishing}) then CHARGING
    else if Some_(statuses, {Reserved}) then RESERVED
    else if Some_(statuses, {Available, Preparing}) then AVAILABLE
    else if Some_(statuses, {Unavailable}) then INOPERATIVE
    else if Some_(statuses, {Faulted}) then OUTOFORDER
    else UNKNOWN
  }

  /** What one connector alone stands for. */
  function StatusOf(status: ConnectorStatus): EvseStatus {
    match status
    case Charging | SuspendedEVSE | SuspendedEV | Finishing => CHARGING
    case Reserved => RESERVED
    case Available | Preparing => AVAILABLE
    case Unavailable => INOPERATIVE
    case Faulted => OUTOFORDER
    case Unknown | NoStatus => UNKNOWN
  }

  function Rank(status: EvseStatus): nat {
    match status
    case UNKNOWN => 0
    case OUTOFORDER => 1
    case INOPERATIVE => 2
    case AVAILABLE => 3
    case RESERVED => 4
    case CHARGING => 5
  }

  function Higher(a: EvseStatus, b: EvseStatus): EvseStatus {
    if Rank(a) >= Rank(b) then a else b
  }

  lemma RankInjective(a: EvseStatus, b: EvseStatus)
    requires Rank(a) == Rank(b)
    ensures a == b
  {
  }

  /** The aggregate is the rank maximum: no connector ranks higher, and some connector has it. */
  lemma AggregateIsMaximum(statuses: seq<ConnectorStatus>)
    ensures forall s :: s in statuses ==> Rank(StatusOf(s)) <= Rank(MapEvseStatusFromConnectors(statuses))
    ensures statuses != [] ==> exists s :: s in statuses && StatusOf(s) == MapEvseStatusFromConnectors(statuses)
  {
    if statuses != [] && MapEvseStatusFromConnectors(statuses) == UNKNOWN {
      assert statuses[0] in statuses;
    }
  }

  /** It is determined by which statuses occur, so the order of connectors does not matter. */
  lemma AggregateIgnoresOrder(a: seq<ConnectorStatus>, b: seq<ConnectorStatus>)
    requires multiset(a) == multiset(b)
    ensures MapEvseStatusFromConnectors(a) == MapEvseStatusFromConnectors(b)
  {
    assert forall s :: s in a <==> s in multiset(a);
    assert forall s :: s in b <==> s in multiset(b);
    assert |multiset(a)| == |a| && |multiset(b)| == |b|;
  }

  /** It can be computed from any split of the list. */
  lemma AggregateOfSplit(a: seq<ConnectorStatus>, b: seq<ConnectorStatus>)
    ensures MapEvseStatusFromConnectors(a + b) == Higher(MapEvseStatusFromConnectors(a), MapEvseStatusFromConnectors(b))
  {
    AggregateIsMaximum(a);
    AggregateIsMaximum(b);
    AggregateIsMaximum(a + b);
    var whole, left, right := MapEvseStatusFromConnectors(a + b), MapEvseStatusFromConnectors(a),
      MapEvseStatusFromConnectors(b);
    if a == [] {
      assert a + b == b;
    } else if b == [] {
      assert a + b == a;
    } else {
      var s :| s in a && StatusOf(s) == left;
      var t :| t in b && StatusOf(t) == right;
      assert s in a + b && t in a + b;
      RankInjective(whole, Higher(left, right));
    }
  }
}

/** The handler of connector updates (03_Modules/Locations/src/index.ts). */
module LocationsHandler {
  import opened Wrappers
  import opened ChangeFeed
  import opened EvseStatusAggregation

  datatype Connector = Connector(evseId: Json, stationId: Json, status: ConnectorStatus)

  /** The station read back for a notification; its connectors may be missing. */
  datatype Station = Station(dto: Json, connectors: Option<seq<Connector>>)

  datatype Broadcast =
    | Nothing
    | PatchEvseStatus(evseId: Option<Json>, stationId: Option<Json>, status: EvseStatus)
    | PatchConnector(dto: Row)

  const METADATA := {"id", "evseId", "stationId", "tenant", "tenantId", "chargingStation", "updatedAt", "createdAt",
    "timestamp"}

  function Get(row: Row, key: string): Option<Json> {
    if key in row then Some(row[key]) else None
  }

  predicate IsStatusOnlyUpdate(dto: Row) {
    dto.Keys - METADATA == {"status"}
  }

  function ConnectorsOf(connectors: seq<Connector>, evseId: Option<Json>,
                        stationId: Option<Json>): seq<ConnectorStatus> {
    if connectors == [] then []
    else
      var c := connectors[0];
      (if Some(c.evseId) == evseId && Some(c.stationId) == stationId then [c.status] else [])
      + ConnectorsOf(connectors[1..], evseId, stationId)
  }

  function ConnectorBroadcast(payload: Row, station: Option<Station>): Broadcast {
    if Get(payload, "tenant").GetOr(JNull) == JNull || station.None? then Nothing
    else
      var dto := payload["chargingStation" := station.value.dto];
      if IsStatusOnlyUpdate(dto) then
        var statuses := ConnectorsOf(station.value.connectors.GetOr([]), Get(dto, "evseId"), Get(dto, "stationId"));
        if statuses == [] then Nothing
        else PatchEvseStatus(Get(dto, "evseId"), Get(dto, "stationId"), MapEvseStatusFromConnectors(statuses))
      else PatchConnector(dto)
  }

  /** The handler, which attaches the station to the DTO it was given. */
  method HandleConnectorUpdate(payload: Row, station: Option<Station>) returns (broadcast: Broadcast)
    ensures broadcast == ConnectorBroadcast(payload, station)
  {
    var dto := payload;
    var tenant := Get(dto, "tenant");
    if tenant.None? || tenant.value == JNull {
      return Nothing;
    }
    if station.None? {
      return Nothing;
    }
    dto := dto["chargingStation" := station.value.dto];
    if IsStatusOnlyUpdate(dto) {
      if station.value.connectors.None? {
        return Nothing;
      }
      var statuses := ConnectorsOf(station.value.connectors.value, Get(dto, "evseId"), Get(dto, "stationId"));
      if |statuses| == 0 {
        return Nothing;
      }
      broadcast := PatchEvseStatus(Get(dto, "evseId"), Get(dto, "stationId"), MapEvseStatusFromConnectors(statuses));
    } else {
      broadcast := PatchConnector(dto);
    }
  }

  /** The columns an update changed, beside the required ones and two timestamps. */
  ghost function Changed(columns: set<string>, old_: Row, new_: Row): set<string>
    requires old_.Keys == columns && new_.Keys == columns
  {
    (set c | c in columns && old_[c] != new_[c]) - CONNECTOR_REQUIRED - {"createdAt", "timestamp"}
  }

  lemma PayloadKeys(columns: set<string>, old_: Row, new_: Row, tenants: map<Json, Json>, station: Json)
    requires HasSchema(old_, columns, CONNECTOR_REQUIRED) && HasSchema(new_, columns, CONNECTOR_REQUIRED)
    requires "chargingStation" !in columns
    requires Notify(ConnectorFeed(columns), Update(old_, new_), tenants).Some?
    ensures
      var data := Notify(ConnectorFeed(columns), Update(old_, new_), tenants).value.data;
      && data.Some?
      && data.value["chargingStation" := station].Keys - METADATA == Changed(columns, old_, new_)
      && Get(data.value, "evseId") == Some(new_["evseId"]) && Get(data.value, "stationId") == Some(new_["stationId"])
      && Get(data.value, "tenant") == TenantOf(tenants, new_)
  {
    var data := Notify(ConnectorFeed(columns), Update(old_, new_), tenants).value.data.value;
    assert forall c :: c in Only(new_, CONNECTOR_REQUIRED) <==> c in CONNECTOR_REQUIRED;
    assert forall c :: c in ChangedColumns(old_, new_, CONNECTOR_REQUIRED) <==>
      c in columns && old_[c] != new_[c]
      && c !in CONNECTOR_REQUIRED;
  }

  /** The connector is on this EVSE of this station. */
  predicate IsOn(c: Connector, evseId: Json, stationId: Json) {
    c.evseId == evseId && c.stationId == stationId
  }

  /** What the status path sends for an EVSE: nothing exactly when the station has no connector on it; otherwise a
      status that one of its connectors has and none of them ranks above. */
  ghost predicate SendsHighest(b: Broadcast, connectors: seq<Connector>, evseId: Json, stationId: Json) {
    if forall c :: c in connectors ==> !IsOn(c, evseId, stationId) then b == Nothing
    else
      && b.PatchEvseStatus? && b.evseId == Some(evseId) && b.stationId == Some(stationId)
      && (forall c :: c in connectors && IsOn(c, evseId, stationId) ==> Rank(StatusOf(c.status)) <= Rank(b.status))
      && exists c :: c in connectors && IsOn(c, evseId, stationId) && StatusOf(c.status) == b.status
  }

  lemma {:induction false} ConnectorsOfAre(connectors: seq<Connector>, evseId: Json, stationId: Json)
    ensures forall status :: status in ConnectorsOf(connectors, Some(evseId), Some(stationId))
              <==> exists c :: c in connectors && IsOn(c, evseId, stationId) && c.status == status
  {
    if connectors != [] {
      ConnectorsOfAre(connectors[1..], evseId, stationId);
      assert forall c :: c in connectors <==> c == connectors[0] || c in connectors[1..];
    }
  }

  lemma HighestSent(connectors: seq<Connector>, evseId: Json, stationId: Json)
    ensures
      var statuses := ConnectorsOf(connectors, Some(evseId), Some(stationId));
      SendsHighest(
        if statuses == [] then Nothing
        else PatchEvseStatus(Some(evseId), Some(stationId), MapEvseStatusFromConnectors(statuses)),
        connectors, evseId, stationId)
  {
    var statuses := ConnectorsOf(connectors, Some(evseId), Some(stationId));
    ConnectorsOfAre(connectors, evseId, stationId);
    AggregateIsMaximum(statuses);
    hide ConnectorsOf, StatusOf, Rank, MapEvseStatusFromConnectors;
    if statuses != [] {
      assert statuses[0] in statuses;
    } else if c :| c in connectors && IsOn(c, evseId, stationId) {
      assert c.status in statuses;
    }
    forall c | c in connectors && IsOn(c, evseId, stationId) ensures c.status in statuses {
    }
  }

  /** Trigger composed with handler: an update reaches the EVSE-status path exactly when `status` is all that changed
      beside the required columns, `createdAt` and `timestamp`; what is sent is the highest status over that EVSE's
      connectors. Every other announced update is sent at connector level, with the station attached. Nothing is
      sent for an unknown tenant or station. */
  lemma StatusPathIff(columns: set<string>, old_: Row, new_: Row, tenants: map<Json, Json>, station: Option<Station>)
    requires HasSchema(old_, columns, CONNECTOR_REQUIRED) && HasSchema(new_, columns, CONNECTOR_REQUIRED)
    requires "chargingStation" !in columns
    ensures
      var sent := Notify(ConnectorFeed(columns), Update(old_, new_), tenants);
      && (sent.Some? ==> sent.value.data.Some?)
      && if TenantOf(tenants, new_) in {None, Some(JNull)} || station.None? then
           sent.Some? ==> ConnectorBroadcast(sent.value.data.value, station) == Nothing
         else if Changed(columns, old_, new_) == {"status"} then
           sent.Some? && SendsHighest(ConnectorBroadcast(sent.value.data.value, station),
             station.value.connectors.GetOr([]), new_["evseId"], new_["stationId"])
         else
           sent.Some? ==> ConnectorBroadcast(sent.value.data.value, station)
                          == PatchConnector(sent.value.data.value["chargingStation" := station.value.dto])
  {
    if Changed(columns, old_, new_) == {"status"} {
      assert "status" in Changed(columns, old_, new_);
      UpdateEmitsIff(ConnectorFeed(columns), old_, new_, tenants);
    }
    var sent := Notify(ConnectorFeed(columns), Update(old_, new_), tenants);
    if sent.Some? {
      PayloadKeys(columns, old_, new_, tenants, if station.Some? then station.value.dto else JNull);
      if station.Some? {
        HighestSent(station.value.connectors.GetOr([]), new_["evseId"], new_["stationId"]);
      }
      hide SendsHighest, ConnectorsOf, MapEvseStatusFromConnectors, Changed, Notify;
    }
  }
}

/** The handler of transaction updates (03_Modules/Sessions/src/index.ts). */
module SessionsHandler {
  import opened Wrappers
  import opened ChangeFeed

  /** Whether an update notification makes the handler post a charge detail record. */
  predicate PostsCdr(payload: Row, transactionFound: bool) {
    && "tenant" in payload && payload["tenant"] != JNull
    && "isActive" in payload && payload["isActive"] == JBool(false)
    && transactionFound
  }

  /** The update ended the transaction. */
  predicate Ended(old_: Row, new_: Row) {
    && "isActive" in old_ && "isActive" in new_
    && new_["isActive"] == JBool(false) && old_["isActive"] != JBool(false)
  }

  predicate TenantKnown(tenants: map<Json, Json>, row: Row) {
    TenantOf(tenants, row).Some? && TenantOf(tenants, row) != Some(JNull)
  }

  /** Whether a transaction update makes the handler post, through the trigger's notification. */
  predicate UpdatePosts(columns: set<string>, old_: Row, new_: Row, tenants: map<Json, Json>, transactionFound: bool) {
    var sent := Notify(TransactionFeed(columns), Update(old_, new_), tenants);
    sent.Some? && sent.value.data.Some? && PostsCdr(sent.value.data.value, transactionFound)
  }

  /** A transaction update makes the handler post exactly when it ended the transaction (`isActive` became
      false), its tenant is known and it is found again. Updates of a transaction that already ended post
      nothing. */
  lemma CdrPostedIffJustEnded(columns: set<string>, old_: Row, new_: Row, tenants: map<Json, Json>,
                              transactionFound: bool)
    requires HasSchema(old_, columns, TRANSACTION_REQUIRED) && HasSchema(new_, columns, TRANSACTION_REQUIRED)
    requires "isActive" in columns
    ensures UpdatePosts(columns, old_, new_, tenants, transactionFound)
       <==> Ended(old_, new_) && TenantKnown(tenants, new_) && transactionFound
  {
    var sent := Notify(TransactionFeed(columns), Update(old_, new_), tenants);
    UpdateEmitsIff(TransactionFeed(columns), old_, new_, tenants);
    if sent.Some? {
      assert "isActive" in ChangedColumns(old_, new_, TRANSACTION_REQUIRED) <==> old_["isActive"] != new_["isActive"];
      assert "isActive" !in Only(new_, TRANSACTION_REQUIRED);
    }
  }
}

/** From the updates of one transaction to its charge detail record: trigger, handler, broadcaster and table
    together. */
module SessionBilling {
  import opened Wrappers
  import opened ChangeFeed
  import opened SessionsHandler
  import Records = CdrRecords

  /** An update of the transaction's row, and what its handling meets: the tenants the trigger sees, whether
      the transaction is found again, and the post this may lead to. */
  datatype Change = Change(new_: Row, tenants: map<Json, Json>, found: bool, post: Records.Event)

  /** All rows are the transaction's own, and what the handler reads again is that transaction. */
  ghost predicate WellFormed(columns: set<string>, first: Row, changes: seq<Change>, transactionId: nat) {
    && "isActive" in columns && HasSchema(first, columns, TRANSACTION_REQUIRED)
    && first["id"] == JNumber(transactionId as real)
    && forall k :: 0 <= k < |changes| ==> WellFormedChange(columns, changes[k], transactionId)
  }

  ghost predicate WellFormedChange(columns: set<string>, c: Change, transactionId: nat) {
    && HasSchema(c.new_, columns, TRANSACTION_REQUIRED) && c.new_["id"] == JNumber(transactionId as real)
    && c.post.PostCdr? && c.post.view.fixed.id == transactionId
  }

  function RowBefore(first: Row, changes: seq<Change>, k: nat): Row
    requires k <= |changes|
  {
    if k == 0 then first else changes[k - 1].new_
  }

  /** The posts the handler makes, in order. */
  function Posts(columns: set<string>, first: Row, changes: seq<Change>): seq<Records.Event> {
    if changes == [] then []
    else
      var n := |changes| - 1;
      Posts(columns, first, changes[..n])
      + (if UpdatePosts(columns, RowBefore(first, changes, n), changes[n].new_, changes[n].tenants, changes[n].found)
         then [changes[n].post] else [])
  }

  /** The update ends the transaction, seen against the row before it, with its tenant known and the transaction found
      again. */
  predicate EndsBillably(first: Row, changes: seq<Change>, k: nat)
    requires k < |changes|
  {
    && Ended(if k == 0 then first else changes[k - 1].new_, changes[k].new_)
    && TenantKnown(changes[k].tenants, changes[k].new_) && changes[k].found
  }

  function Endings(first: Row, changes: seq<Change>): nat {
    if changes == [] then 0
    else Endings(first, changes[..|changes| - 1]) + (if EndsBillably(first, changes, |changes| - 1) then 1 else 0)
  }

  lemma PostIffEnding(columns: set<string>, first: Row, changes: seq<Change>, k: nat, transactionId: nat)
    requires WellFormed(columns, first, changes, transactionId) && k < |changes|
    ensures UpdatePosts(columns, RowBefore(first, changes, k), changes[k].new_, changes[k].tenants, changes[k].found)
       <==> EndsBillably(first, changes, k)
  {
    hide UpdatePosts, Ended, TenantKnown;
    assert WellFormedChange(columns, changes[k], transactionId);
    assert k > 0 ==> WellFormedChange(columns, changes[k - 1], transactionId);
    CdrPostedIffJustEnded(columns, RowBefore(first, changes, k), changes[k].new_, changes[k].tenants, changes[k].found);
  }

  lemma SameEnding(first: Row, changes: seq<Change>, n: nat, k: nat)
    requires k < n <= |changes|
    ensures EndsBillably(first, changes[..n], k) <==> EndsBillably(first, changes, k)
  {
  }

  /** Over all updates, the handler posts once for each ending and for nothing else. */
  lemma {:induction false} OnePostPerEnding(columns: set<string>, first: Row, changes: seq<Change>, transactionId: nat)
    requires WellFormed(columns, first, changes, transactionId)
    ensures |Posts(columns, first, changes)| == Endings(first, changes)
    ensures forall e :: e in Posts(columns, first, changes) <==> PostOfEnding(first, changes, e)
  {
    if changes != [] {
      var n := |changes| - 1;
      OnePostPerEnding(columns, first, changes[..n], transactionId);
      PostIffEnding(columns, first, changes, n, transactionId);
      hide UpdatePosts, EndsBillably, WellFormed, WellFormedChange, PostOfEnding, RowBefore;
      forall e ensures e in Posts(columns, first, changes) <==> PostOfEnding(first, changes, e) {
        EndingsExtend(first, changes, e);
      }
    }
  }

  lemma EndingsExtend(first: Row, changes: seq<Change>, e: Records.Event)
    requires changes != []
    ensures
      var n := |changes| - 1;
      PostOfEnding(first, changes, e)
      <==> PostOfEnding(first, changes[..n], e) || (EndsBillably(first, changes, n) && e == changes[n].post)
  {
    hide EndsBillably;
    var n := |changes| - 1;
    forall k: nat | k < n ensures EndsBillably(first, changes[..n], k) <==> EndsBillably(first, changes, k) {
      SameEnding(first, changes, n, k);
    }
    if k :| 0 <= k < n && EndsBillably(first, changes[..n], k) && changes[..n][k].post == e {
      assert EndsBillably(first, changes, k) && changes[k].post == e;
    }
    if k :| 0 <= k < |changes| && EndsBillably(first, changes, k) && changes[k].post == e {
      assert k < n ==> EndsBillably(first, changes[..n], k) && changes[..n][k].post == e;
    }
  }

  ghost predicate PostOfEnding(first: Row, changes: seq<Change>, e: Records.Event) {
    exists k :: 0 <= k < |changes| && EndsBillably(first, changes, k) && changes[k].post == e
  }

  /** The transaction has a record exactly when some ending of it was persisted; whatever its updates, it
      never has two, no other transaction gets one, and no post hits the unique constraint on transactions. */
  lemma RecordedIffEnded(columns: set<string>, first: Row, changes: seq<Change>, transactionId: nat)
    requires WellFormed(columns, first, changes, transactionId)
    ensures
      var posts := Posts(columns, first, changes);
      var rows := Records.Run([], posts);
      && (Records.RowOf(rows, transactionId).Some?
          <==> exists k ::
                 && 0 <= k < |changes| && EndsBillably(first, changes, k)
                 && Records.Writes(changes[k].post, transactionId))
      && Records.OneRowEach(rows)
      && (forall other :: other != transactionId ==> Records.RowOf(rows, other).None?)
      && forall k :: 0 <= k < |posts| ==>
           Records.Step(Records.Run([], posts[..k]), posts[k]).1 != Some(Records.UniqueViolation)
  {
    var posts := Posts(columns, first, changes);
    OnePostPerEnding(columns, first, changes, transactionId);
    Records.RunKeepsConsistent([], posts);
    forall id ensures Records.RowOf(Records.Run([], posts), id).Some? <==> WrittenByEnding(first, changes, id) {
      RecordIffWrittenByEnding(columns, first, changes, transactionId, id);
    }
    forall other | WrittenByEnding(first, changes, other) ensures other == transactionId {
      var k :| 0 <= k < |changes| && EndsBillably(first, changes, k) && Records.Writes(changes[k].post, other);
      assert WellFormedChange(columns, changes[k], transactionId);
    }
  }

  ghost predicate WrittenByEnding(first: Row, changes: seq<Change>, id: nat) {
    exists k :: 0 <= k < |changes| && EndsBillably(first, changes, k) && Records.Writes(changes[k].post, id)
  }

  lemma RecordIffWrittenByEnding(columns: set<string>, first: Row, changes: seq<Change>, transactionId: nat, id: nat)
    requires WellFormed(columns, first, changes, transactionId)
    ensures Records.RowOf(Records.Run([], Posts(columns, first, changes)), id).Some?
            <==> WrittenByEnding(first, changes, id)
  {
    var posts := Posts(columns, first, changes);
    OnePostPerEnding(columns, first, changes, transactionId);
    Records.RowIffWritten(posts, id);
    hide EndsBillably, WellFormed, Posts, Records.Writes, Records.RowOf;
    if e :| e in posts && Records.Writes(e, id) {
      var k :| 0 <= k < |changes| && EndsBillably(first, changes, k) && changes[k].post == e;
      assert Records.Writes(changes[k].post, id);
    }
    if k :| 0 <= k < |changes| && EndsBillably(first, changes, k) && Records.Writes(changes[k].post, id) {
      assert changes[k].post in posts;
    }
  }
}
