/** The change feed: row triggers that notify minimal patches (migrations/20250730123502,
    20250730123503 and 20250730123507), and a consumer that keeps a replica. */
module ChangeFeed {
  import opened Wrappers

  datatype Json =
    | JNull
    | JBool(b: bool)
    | JNumber(n: real)
    | JString(s: string)
    | JArray(items: seq<Json>)
    | JObject(fields: map<string, Json>)

  /** A row as jsonb: every column is a key, SQL NULL is JSON null. */
  type Row = map<string, Json>

  datatype Op = Insert(new_: Row) | Update(old_: Row, new_: Row) | Delete(old_: Row)

  datatype Notification = Notification(op: Op, data: Option<Row>)

  const TARIFF_REQUIRED := {"id", "tenantId", "updatedAt"}
  const TRANSACTION_REQUIRED := {"id", "transactionId", "tenantId", "updatedAt"}
  const CONNECTOR_REQUIRED := {"id", "tenantId", "updatedAt", "stationId", "evseId"}

  // ---------- What the SQL expressions compute ----------

  /** `jsonb_object_agg` over no rows is NULL. */
  function ObjectAgg(m: Row): Option<Row> {
    if m == map[] then None else Some(m)
  }

  function Only(row: Row, keys: set<string>): Row {
    map c | c in row && c in keys :: row[c]
  }

  /** The columns of the new row that differ and are not required. */
  function ChangedColumns(old_: Row, new_: Row, required: set<string>): Row {
    map c | c in new_ && c in old_ && new_[c] != old_[c] && c !in required :: new_[c]
  }

  /** `a || b`, NULL when either is. */
  function Concat(a: Option<Row>, b: Option<Row>): Option<Row> {
    if a.Some? && b.Some? then Some(a.value + b.value) else None
  }

  function TenantOf(tenants: map<Json, Json>, row: Row): Option<Json> {
    if "tenantId" in row && row["tenantId"] in tenants then Some(tenants[row["tenantId"]]) else None
  }

  function WithTenant(data: Option<Row>, tenant: Option<Json>): Option<Row> {
    if tenant.Some? then Concat(data, Some(map["tenant" := tenant.value])) else data
  }

  /** The notification of an update: absent unless some column beside the required ones changed. */
  function UpdatePatch(old_: Row, new_: Row, required: set<string>): Option<Row> {
    if ChangedColumns(old_, new_, required) == map[] then None
    else Some(Only(new_, required) + ChangedColumns(old_, new_, required))
  }

  // ---------- The triggers ----------

  /** Rows of a table with these columns; the required ones are among them, `tenant` is not. */
  ghost predicate HasSchema(row: Row, columns: set<string>, required: set<string>) {
    row.Keys == columns && required <= columns && "id" in required && "tenant" !in columns
  }

  ghost predicate SchemaOp(feed: Feed, op: Op) {
    && (op.Insert? || op.Update? ==> HasSchema(op.new_, feed.columns, feed.required))
    && (op.Update? || op.Delete? ==> HasSchema(op.old_, feed.columns, feed.required))
  }

  /** A feed: its table's columns, the required ones, and whether deletions are announced. */
  datatype Feed = Feed(columns: set<string>, required: set<string>, announcesDeletes: bool, nullTenant: bool)

  /** The trigger of a feed, as a function; the three methods below are its instances. */
  function Notify(feed: Feed, op: Op, tenants: map<Json, Json>): Option<Notification> {
    match op
    case Insert(new_) => Some(Notification(op, WithTenant(Some(new_), FeedTenant(feed, tenants, new_))))
    case Update(old_, new_) =>
      if UpdatePatch(old_, new_, feed.required).None? then None
      else Some(Notification(op, WithTenant(UpdatePatch(old_, new_, feed.required), FeedTenant(feed, tenants, new_))))
    case Delete(old_) =>
      if !feed.announcesDeletes then None
      else Some(Notification(op, WithTenant(ObjectAgg(Only(old_, feed.required)), FeedTenant(feed, tenants, old_))))
  }

  function FeedTenant(feed: Feed, tenants: map<Json, Json>, row: Row): Option<Json> {
    if feed.nullTenant then Some(TenantOf(tenants, row).GetOr(JNull)) else TenantOf(tenants, row)
  }

  function TariffFeed(columns: set<string>): Feed {
    Feed(columns, TARIFF_REQUIRED, true, false)
  }

  function ConnectorFeed(columns: set<string>): Feed {
    Feed(columns, CONNECTOR_REQUIRED, false, false)
  }

  function TransactionFeed(columns: set<string>): Feed {
    Feed(columns, TRANSACTION_REQUIRED, false, true)
  }

  method TariffNotify(columns: set<string>, op: Op, tenants: map<Json, Json>) returns (sent: Option<Notification>)
    requires SchemaOp(TariffFeed(columns), op)
    ensures sent == Notify(TariffFeed(columns), op, tenants)
  {
    var notificationData: Option<Row> := None;
    var tenantData: Option<Json>;
    if op.Insert? {
      notificationData := Some(op.new_);
      tenantData := TenantOf(tenants, op.new_);
    } else if op.Update? {
      var requiredData := ObjectAgg(Only(op.new_, TARIFF_REQUIRED));
      assert "id" in Only(op.new_, TARIFF_REQUIRED);
      var changedData := ObjectAgg(ChangedColumns(op.old_, op.new_, TARIFF_REQUIRED));
      if changedData.None? {
        return None;
      }
      notificationData := Concat(requiredData, changedData);
      tenantData := TenantOf(tenants, op.new_);
    } else {
      notificationData := ObjectAgg(Only(op.old_, TARIFF_REQUIRED));
      tenantData := TenantOf(tenants, op.old_);
    }
    if tenantData.Some? {
      notificationData := Concat(notificationData, Some(map["tenant" := tenantData.value]));
    }
    sent := Some(Notification(op, notificationData));
  }

  /** As for tariffs, with more required columns; no trigger fires on deletions. */
  method ConnectorNotify(columns: set<string>, op: Op, tenants: map<Json, Json>) returns (sent: Option<Notification>)
    requires SchemaOp(ConnectorFeed(columns), op) && !op.Delete?
    ensures sent == Notify(ConnectorFeed(columns), op, tenants)
  {
    var notificationData: Option<Row> := None;
    if op.Insert? {
      notificationData := Some(op.new_);
    } else {
      var requiredData := ObjectAgg(Only(op.new_, CONNECTOR_REQUIRED));
      assert "id" in Only(op.new_, CONNECTOR_REQUIRED);
      var changedData := ObjectAgg(ChangedColumns(op.old_, op.new_, CONNECTOR_REQUIRED));
      if changedData.None? {
        return None;
      }
      notificationData := Concat(requiredData, changedData);
    }
    var tenantData := TenantOf(tenants, op.new_);
    if tenantData.Some? {
      notificationData := Concat(notificationData, Some(map["tenant" := tenantData.value]));
    }
    sent := Some(Notification(op, notificationData));
  }

  /** Transactions always carry a tenant key, null when the tenant is unknown. */
  method TransactionNotify(columns: set<string>, op: Op, tenants: map<Json, Json>) returns (sent: Option<Notification>)
    requires SchemaOp(TransactionFeed(columns), op) && !op.Delete?
    ensures sent == Notify(TransactionFeed(columns), op, tenants)
  {
    var tenantData := TenantOf(tenants, op.new_);
    var tenantObject := Some(map["tenant" := tenantData.GetOr(JNull)]);
    var notificationData: Option<Row>;
    if op.Insert? {
      notificationData := Concat(Some(op.new_), tenantObject);
    } else {
      var requiredData := ObjectAgg(Only(op.new_, TRANSACTION_REQUIRED));
      assert "id" in Only(op.new_, TRANSACTION_REQUIRED);
      var changedData := ObjectAgg(ChangedColumns(op.old_, op.new_, TRANSACTION_REQUIRED));
      if changedData.None? {
        return None;
      }
      notificationData := Concat(Concat(requiredData, changedData), tenantObject);
    }
    sent := Some(Notification(op, notificationData));
  }

  // ---------- The replica ----------

  type Table = map<Json, Row>

  /** The consumer stores an inserted payload, overlays an update patch, and drops a deleted row,
      reading the id from the payload and setting the tenant aside. */
  function Receive(replica: Table, n: Notification): Table {
    if n.data.None? || "id" !in n.data.value then replica
    else
      var id, data := n.data.value["id"], n.data.value - {"tenant"};
      match n.op
      case Insert(_) => replica[id := data]
      case Update(_, _) => if id in replica then replica[id := replica[id] + data] else replica
      case Delete(_) => replica - {id}
  }

  /** A statement on one row, with the tenants at that time. */
  datatype Statement = Statement(op: Op, tenants: map<Json, Json>)

  function NewTable(db: Table, op: Op): Table
    requires match op case Insert(r) => "id" in r case Update(_, r) => "id" in r case Delete(r) => "id" in r
  {
    match op
    case Insert(new_) => db[new_["id"] := new_]
    case Update(_, new_) => db[new_["id"] := new_]
    case Delete(old_) => db - {old_["id"]}
  }

  /** Statements that PostgreSQL would run: new ids are new, an update keeps its row's id. */
  ghost predicate Legal(feed: Feed, db: Table, op: Op) {
    match op
    case Insert(new_) => HasSchema(new_, feed.columns, feed.required) && new_["id"] !in db
    case Update(old_, new_) =>
      && HasSchema(old_, feed.columns, feed.required) && HasSchema(new_, feed.columns, feed.required)
      && new_["id"] == old_["id"] && old_["id"] in db && db[old_["id"]] == old_
    case Delete(old_) => HasSchema(old_, feed.columns, feed.required) && old_["id"] in db && db[old_["id"]] == old_
  }

  datatype State = State(db: Table, replica: Table)

  function Apply(feed: Feed, s: State, st: Statement): State
    requires Legal(feed, s.db, st.op)
  {
    var sent := Notify(feed, st.op, st.tenants);
    State(NewTable(s.db, st.op), if sent.Some? then Receive(s.replica, sent.value) else s.replica)
  }

  ghost predicate IsRun(feed: Feed, s: State, sts: seq<Statement>)
    decreases |sts|
  {
    sts == [] || (Legal(feed, s.db, sts[0].op) && IsRun(feed, Apply(feed, s, sts[0]), sts[1..]))
  }

  function Run(feed: Feed, s: State, sts: seq<Statement>): State
    requires IsRun(feed, s, sts)
    decreases |sts|
  {
    if sts == [] then s else Run(feed, Apply(feed, s, sts[0]), sts[1..])
  }

  /** The two rows have the same columns and agree on those that are not required. */
  ghost predicate AgreeBesideRequired(row: Row, copy: Row, required: set<string>) {
    row.Keys == copy.Keys && forall c :: c in row && c !in required ==> row[c] == copy[c]
  }

  ghost predicate Mirrors(feed: Feed, s: State) {
    && (forall id :: id in s.db ==>
          && HasSchema(s.db[id], feed.columns, feed.required) && s.db[id]["id"] == id
          && id in s.replica && AgreeBesideRequired(s.db[id], s.replica[id], feed.required))
    && (feed.announcesDeletes ==> s.db.Keys == s.replica.Keys)
  }

  /** An update emits exactly when a column beside the required ones changed. */
  lemma UpdateEmitsIff(feed: Feed, old_: Row, new_: Row, tenants: map<Json, Json>)
    requires HasSchema(old_, feed.columns, feed.required) && HasSchema(new_, feed.columns, feed.required)
    ensures Notify(feed, Update(old_, new_), tenants).Some?
       <==> exists c :: c in feed.columns && c !in feed.required && old_[c] != new_[c]
  {
    var changed := ChangedColumns(old_, new_, feed.required);
    if c :| c in feed.columns && c !in feed.required && old_[c] != new_[c] {
      assert c in changed;
    }
    if changed != map[] {
      var c :| c in changed;
      assert c in feed.columns && c !in feed.required && old_[c] != new_[c];
    }
  }

  /** The row a statement is about: the new one, or the one that is deleted. */
  function Subject(op: Op): Row {
    if op.Delete? then op.old_ else op.new_
  }

  ghost predicate RowsOver(op: Op, columns: set<string>) {
    (op.Delete? || op.new_.Keys == columns) && (op.Insert? || op.old_.Keys == columns) && "tenant" !in columns
  }

  /** The column is announced: all of an inserted row, the required columns of a deleted one, and of an updated one
      these and every column that changed. */
  ghost predicate Announced(op: Op, required: set<string>, column: string) {
    && column in Subject(op)
    && (op.Insert? || column in required
        || (op.Update? && column in op.old_ && op.old_[column] != op.new_[column]))
  }

  /** The notification carries the announced columns with their values and, beside them, the row's tenant. An unknown
      tenant is no key at all, or a null where the feed says so. */
  ghost predicate Carries(sent: Notification, op: Op, required: set<string>, nullTenant: bool, tenants: map<Json, Json>)
    requires "tenantId" in Subject(op)
  {
    var row := Subject(op);
    && sent.op == op && sent.data.Some?
    && (forall c :: c != "tenant" ==>
          && (c in sent.data.value <==> Announced(op, required, c))
          && (c in sent.data.value ==> sent.data.value[c] == row[c]))
    && if row["tenantId"] in tenants then
         "tenant" in sent.data.value && sent.data.value["tenant"] == tenants[row["tenantId"]]
       else if nullTenant then "tenant" in sent.data.value && sent.data.value["tenant"] == JNull
       else "tenant" !in sent.data.value
  }

  /** The update changes a column beside these. */
  ghost predicate ChangesBeside(op: Op, required: set<string>)
    requires op.Update? && op.new_.Keys == op.old_.Keys
  {
    exists c :: c in op.new_ && c !in required && op.old_[c] != op.new_[c]
  }

  lemma PayloadIs(feed: Feed, op: Op, tenants: map<Json, Json>)
    requires SchemaOp(feed, op) && "tenantId" in feed.columns && Notify(feed, op, tenants).Some?
    ensures Carries(Notify(feed, op, tenants).value, op, feed.required, feed.nullTenant, tenants)
  {
    match op
    case Insert(_) =>
    case Update(old_, new_) => PatchCarries(feed, old_, new_, tenants);
    case Delete(old_) =>
      assert "id" in Only(old_, feed.required);
      hide UpdatePatch, ChangedColumns;
  }

  lemma PatchCarries(feed: Feed, old_: Row, new_: Row, tenants: map<Json, Json>)
    requires SchemaOp(feed, Update(old_, new_)) && "tenantId" in feed.columns
    requires Notify(feed, Update(old_, new_), tenants).Some?
    ensures Carries(Notify(feed, Update(old_, new_), tenants).value, Update(old_, new_), feed.required, feed.nullTenant,
            tenants)
  {
    var patch := Only(new_, feed.required) + ChangedColumns(old_, new_, feed.required);
    assert UpdatePatch(old_, new_, feed.required) == Some(patch);
    PatchKeys(old_, new_, feed.required);
    hide UpdatePatch, Only, ChangedColumns;
  }

  lemma PatchKeys(old_: Row, new_: Row, required: set<string>)
    ensures
      var patch := Only(new_, required) + ChangedColumns(old_, new_, required);
      forall c ::
        && (c in patch <==> c in new_ && (c in required || (c in old_ && old_[c] != new_[c])))
        && (c in patch ==> patch[c] == new_[c])
  {
  }

  /** Every insert and deletion of a tariff is announced, and every update beside its required columns. */
  lemma TariffsAnnounced(columns: set<string>, op: Op, tenants: map<Json, Json>)
    requires RowsOver(op, columns) && {"id", "tenantId", "updatedAt"} <= columns
    ensures
      var sent, required := Notify(TariffFeed(columns), op, tenants), {"id", "tenantId", "updatedAt"};
      && (sent.Some? <==> !op.Update? || ChangesBeside(op, required))
      && (sent.Some? ==> Carries(sent.value, op, required, false, tenants))
  {
    if op.Update? {
      UpdateEmitsIff(TariffFeed(columns), op.old_, op.new_, tenants);
    }
    if Notify(TariffFeed(columns), op, tenants).Some? {
      PayloadIs(TariffFeed(columns), op, tenants);
    }
  }

  /** Deletions of a connector are not announced. */
  lemma ConnectorsAnnounced(columns: set<string>, op: Op, tenants: map<Json, Json>)
    requires RowsOver(op, columns) && {"id", "tenantId", "updatedAt", "stationId", "evseId"} <= columns
    ensures
      var sent, required := Notify(ConnectorFeed(columns), op, tenants),
        {"id", "tenantId", "updatedAt", "stationId", "evseId"};
      && (sent.Some? <==> op.Insert? || (op.Update? && ChangesBeside(op, required)))
      && (sent.Some? ==> Carries(sent.value, op, required, false, tenants))
  {
    if op.Update? {
      UpdateEmitsIff(ConnectorFeed(columns), op.old_, op.new_, tenants);
    }
    if Notify(ConnectorFeed(columns), op, tenants).Some? {
      PayloadIs(ConnectorFeed(columns), op, tenants);
    }
  }

  /** Nor are those of a transaction, whose notifications alone name an unknown tenant. */
  lemma TransactionsAnnounced(columns: set<string>, op: Op, tenants: map<Json, Json>)
    requires RowsOver(op, columns) && {"id", "transactionId", "tenantId", "updatedAt"} <= columns
    ensures
      var sent, required := Notify(TransactionFeed(columns), op, tenants),
        {"id", "transactionId", "tenantId", "updatedAt"};
      && (sent.Some? <==> op.Insert? || (op.Update? && ChangesBeside(op, required)))
      && (sent.Some? ==> Carries(sent.value, op, required, true, tenants))
  {
    if op.Update? {
      UpdateEmitsIff(TransactionFeed(columns), op.old_, op.new_, tenants);
    }
    if Notify(TransactionFeed(columns), op, tenants).Some? {
      PayloadIs(TransactionFeed(columns), op, tenants);
    }
  }

  /** A patch laid over a copy that agrees beside the required columns gives the new row. */
  lemma OverlayGivesNewRow(old_: Row, new_: Row, copy: Row, required: set<string>)
    requires old_.Keys == new_.Keys && AgreeBesideRequired(old_, copy, required)
    ensures copy + (Only(new_, required) + ChangedColumns(old_, new_, required)) == new_
  {
  }

  lemma TenantSetAside(data: Row, tenant: Option<Json>)
    requires "tenant" !in data
    ensures WithTenant(Some(data), tenant).Some? && WithTenant(Some(data), tenant).value - {"tenant"} == data
    ensures "id" in data ==>
            "id" in WithTenant(Some(data), tenant).value
            && WithTenant(Some(data), tenant).value["id"] == data["id"]
  {
  }

  lemma InsertMirrors(feed: Feed, s: State, new_: Row, tenants: map<Json, Json>)
    requires Mirrors(feed, s) && Legal(feed, s.db, Insert(new_))
    ensures
      var s' := Apply(feed, s, Statement(Insert(new_), tenants));
      Mirrors(feed, s') && s'.replica == s.replica[new_["id"] := new_]
  {
    TenantSetAside(new_, FeedTenant(feed, tenants, new_));
    RowMirrors(feed, s, new_);
  }

  lemma NoisyUpdateMirrors(feed: Feed, s: State, old_: Row, new_: Row, tenants: map<Json, Json>)
    requires Mirrors(feed, s) && Legal(feed, s.db, Update(old_, new_))
    requires UpdatePatch(old_, new_, feed.required).Some?
    ensures
      var s' := Apply(feed, s, Statement(Update(old_, new_), tenants));
      Mirrors(feed, s') && s'.replica == s.replica[new_["id"] := new_]
  {
    var id := new_["id"];
    assert s.db[id] == old_;
    ReceivePatch(feed, s.replica, old_, new_, tenants);
    OverlayGivesNewRow(old_, new_, s.replica[id], feed.required);
    hide Receive, UpdatePatch;
    RowMirrors(feed, s, new_);
  }

  lemma RowMirrors(feed: Feed, s: State, row: Row)
    requires Mirrors(feed, s) && HasSchema(row, feed.columns, feed.required)
    ensures Mirrors(feed, State(s.db[row["id"] := row], s.replica[row["id"] := row]))
  {
  }

  lemma ReceivePatch(feed: Feed, replica: Table, old_: Row, new_: Row, tenants: map<Json, Json>)
    requires HasSchema(old_, feed.columns, feed.required) && HasSchema(new_, feed.columns, feed.required)
    requires new_["id"] in replica && UpdatePatch(old_, new_, feed.required).Some?
    ensures Receive(replica, Notify(feed, Update(old_, new_), tenants).value)
         == replica[new_["id"] := replica[new_["id"]]
           + (Only(new_, feed.required) + ChangedColumns(old_, new_, feed.required))]
  {
    var patch := Only(new_, feed.required) + ChangedColumns(old_, new_, feed.required);
    assert "id" in Only(new_, feed.required) && "id" !in ChangedColumns(old_, new_, feed.required);
    TenantSetAside(patch, FeedTenant(feed, tenants, new_));
  }

  lemma SilentUpdateMirrors(feed: Feed, s: State, old_: Row, new_: Row, tenants: map<Json, Json>)
    requires Mirrors(feed, s) && Legal(feed, s.db, Update(old_, new_))
    requires UpdatePatch(old_, new_, feed.required).None?
    ensures Mirrors(feed, Apply(feed, s, Statement(Update(old_, new_), tenants)))
  {
    var id := new_["id"];
    assert s.db[id] == old_;
    forall c | c in new_ && c !in feed.required ensures new_[c] == s.replica[id][c] {
      assert c !in ChangedColumns(old_, new_, feed.required);
    }
    assert AgreeBesideRequired(new_, s.replica[id], feed.required);
  }

  lemma DeleteMirrors(feed: Feed, s: State, old_: Row, tenants: map<Json, Json>)
    requires Mirrors(feed, s) && Legal(feed, s.db, Delete(old_))
    ensures Mirrors(feed, Apply(feed, s, Statement(Delete(old_), tenants)))
  {
    if feed.announcesDeletes {
      var required := Only(old_, feed.required);
      assert "id" in required;
      TenantSetAside(required, FeedTenant(feed, tenants, old_));
      assert Apply(feed, s, Statement(Delete(old_), tenants)) == State(s.db - {old_["id"]}, s.replica - {old_["id"]});
    }
  }

  /** One statement keeps the mirror; a notified row is then mirrored on every column. */
  lemma StepMirrors(feed: Feed, s: State, st: Statement)
    requires Mirrors(feed, s) && Legal(feed, s.db, st.op)
    ensures
      var s' := Apply(feed, s, st);
      && Mirrors(feed, s')
      && (!st.op.Delete? && Notify(feed, st.op, st.tenants).Some? ==>
        s'.replica == s.replica[st.op.new_["id"] := st.op.new_])
  {
    match st.op
    case Insert(new_) => InsertMirrors(feed, s, new_, st.tenants);
    case Update(old_, new_) =>
      if UpdatePatch(old_, new_, feed.required).Some? {
        NoisyUpdateMirrors(feed, s, old_, new_, st.tenants);
      } else {
        SilentUpdateMirrors(feed, s, old_, new_, st.tenants);
      }
    case Delete(old_) => DeleteMirrors(feed, s, old_, st.tenants);
  }

  /** Replica refinement: after every statement of every run the replica agrees with each row on
      all columns beside the required ones. */
  lemma {:induction false} ReplicaRefines(feed: Feed, s: State, sts: seq<Statement>)
    requires Mirrors(feed, s) && IsRun(feed, s, sts)
    ensures Mirrors(feed, Run(feed, s, sts))
    decreases |sts|
  {
    if sts != [] {
      StepMirrors(feed, s, sts[0]);
      ReplicaRefines(feed, Apply(feed, s, sts[0]), sts[1..]);
    }
  }

  /** Right after a notified insert or update the replica holds the whole row, from any run. */
  lemma NotifiedRowMirrored(feed: Feed, sts: seq<Statement>, st: Statement)
    requires IsRun(feed, State(map[], map[]), sts)
    requires Legal(feed, Run(feed, State(map[], map[]), sts).db, st.op) && !st.op.Delete?
    requires Notify(feed, st.op, st.tenants).Some?
    ensures
      var s' := Apply(feed, Run(feed, State(map[], map[]), sts), st);
      st.op.new_["id"] in s'.replica && s'.replica[st.op.new_["id"]] == s'.db[st.op.new_["id"]]
  {
    ReplicaRefines(feed, State(map[], map[]), sts);
    StepMirrors(feed, Run(feed, State(map[], map[]), sts), st);
  }

  /** The required columns can lag: an update of `updatedAt` alone is not announced. */
  lemma SilentUpdateLags(feed: Feed, s: State, old_: Row, new_: Row, tenants: map<Json, Json>)
    requires Mirrors(feed, s) && Legal(feed, s.db, Update(old_, new_))
    requires forall c :: c in feed.columns && c !in feed.required ==> old_[c] == new_[c]
    ensures Apply(feed, s, Statement(Update(old_, new_), tenants)).replica == s.replica
  {
    UpdateEmitsIff(feed, old_, new_, tenants);
  }
}
