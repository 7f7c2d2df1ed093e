/** Posting charge detail records to partners and keeping them in the CdrRecords table
    (00_Base/src/broadcaster/CdrBroadcaster.ts, with the insert mutation in
    00_Base/src/graphql/queries/cdr.queries.ts and the table's constraints). */
module CdrRecords {
  import opened Wrappers
  import Text
  import Metering
  import EvseUid
  import Pricing = CdrPricing
  import Pipeline = CdrPipeline

  type Cdr = Pipeline.Cdr

  // ---------- The record id ----------

  function CdrIdOf(transactionId: nat): string {
    Pipeline.GenerateCdrId(Text.ToString(transactionId))
  }

  lemma {:induction false} NumberOfLeadingZero(s: string)
    requires forall c :: c in s ==> Text.IsDigit(c)
    ensures forall c :: c in ['0'] + s ==> Text.IsDigit(c)
    ensures Text.NumberOf(['0'] + s) == Text.NumberOf(s)
  {
    if s != "" {
      var n := |s| - 1;
      NumberOfLeadingZero(s[..n]);
      assert (['0'] + s)[..n + 1] == ['0'] + s[..n];
    }
  }

  /** Padding puts zeros in front, up to the width. */
  lemma {:induction false} PaddingIsZeros(s: string, width: nat)
    ensures Text.PadStart(s, width) == seq(if |s| >= width then 0 else width - |s|, _ => '0') + s
    decreases width
  {
    if |s| < width {
      PaddingIsZeros(s, width - 1);
    }
  }

  /** Padding with zeros changes neither the digits nor the number. */
  lemma {:induction false} PaddingKeepsNumber(s: string, width: nat)
    requires forall c :: c in s ==> Text.IsDigit(c)
    ensures forall c :: c in Text.PadStart(s, width) ==> Text.IsDigit(c)
    ensures Text.NumberOf(Text.PadStart(s, width)) == Text.NumberOf(s)
    decreases width
  {
    if |s| < width {
      PaddingKeepsNumber(s, width - 1);
      NumberOfLeadingZero(Text.PadStart(s, width - 1));
    }
  }

  /** Two transactions never share a record id. */
  lemma CdrIdInjective(a: nat, b: nat)
    requires CdrIdOf(a) == CdrIdOf(b)
    ensures a == b
  {
    PaddingKeepsNumber(Text.ToString(a), 5);
    PaddingKeepsNumber(Text.ToString(b), 5);
    assert forall n: nat :: CdrIdOf(n)[10..] == Text.PadStart(Text.ToString(n), 5);
  }

  // ---------- The table ----------

  /** The columns that say what was billed. */
  datatype Billing = Billing(
    ocpiSessionId: string,
    startDateTime: int,
    endDateTime: int,
    currency: string,
    totalEnergy: real,
    totalTime: real,
    totalParkingTime: real,
    totalCostExclVat: real,
    totalCostInclVat: Option<real>,
    totalEnergyCostExclVat: Option<real>,
    totalTimeCostExclVat: Option<real>,
    totalParkingCostExclVat: Option<real>,
    totalFixedCostExclVat: Option<real>,
    cdrData: Cdr)

  datatype CdrRecord = CdrRecord(
    cdrId: string,
    transactionId: Option<nat>,
    tenantPartnerId: Option<nat>,
    billing: Billing,
    createdAt: int,
    updatedAt: int)

  function ExclVat(price: Option<Pricing.Price>): Option<real> {
    if price.Some? then Some(price.value.exclVat) else None
  }

  function BillingOf(cdr: Cdr): Billing
    requires cdr.endDateTime.Some?
  {
    Billing(
      cdr.sessionId, cdr.startDateTime, cdr.endDateTime.value, cdr.currency, cdr.totalEnergy, cdr.totalTime,
      cdr.totalParkingTime,
      cdr.totalCost.exclVat, cdr.totalCost.inclVat, ExclVat(cdr.totalEnergyCost), ExclVat(cdr.totalTimeCost), None,
      ExclVat(cdr.totalFixedCost), cdr)
  }

  datatype Outcome = Inserted | Touched | UniqueViolation | Rejected

  /** The position of the row with this record id, or the length. */
  function IndexOfCdrId(rows: seq<CdrRecord>, cdrId: string): (i: nat)
    ensures i <= |rows|
    ensures i < |rows| ==> rows[i].cdrId == cdrId
    ensures forall j :: 0 <= j < i ==> rows[j].cdrId != cdrId
  {
    if rows == [] then 0 else if rows[0].cdrId == cdrId then 0 else 1 + IndexOfCdrId(rows[1..], cdrId)
  }

  predicate TransactionTaken(rows: seq<CdrRecord>, transactionId: nat) {
    exists i :: 0 <= i < |rows| && rows[i].transactionId == Some(transactionId)
  }

  /** The insert mutation: a conflict on the record id only touches `updatedAt`; a conflict on the
      transaction id alone is an error; a missing end time is no `timestamptz!`. */
  function InsertCdrRecord(rows: seq<CdrRecord>, cdr: Cdr, transactionId: nat, tenantPartnerId: Option<nat>, now: int)
    : (r: (seq<CdrRecord>, Outcome))
  {
    var i := IndexOfCdrId(rows, cdr.id);
    if cdr.endDateTime.None? then (rows, Rejected)
    else if i < |rows| then (rows[i := rows[i].(updatedAt := now)], Touched)
    else if TransactionTaken(rows, transactionId) then (rows, UniqueViolation)
    else (rows + [CdrRecord(cdr.id, Some(transactionId), tenantPartnerId, BillingOf(cdr), now, now)], Inserted)
  }

  /** What the insert does in any table, consistent or not: a record without an end is refused, a known record id only
      touches its row, and a transaction that another record has is a violation. */
  lemma InsertOutcome(rows: seq<CdrRecord>, cdr: Cdr, transactionId: nat, tenantPartnerId: Option<nat>, now: int)
    ensures
      var (rows', outcome) := InsertCdrRecord(rows, cdr, transactionId, tenantPartnerId, now);
      var known, taken := exists r :: r in rows && r.cdrId == cdr.id,
        exists r :: r in rows && r.transactionId == Some(transactionId);
      && (outcome.Rejected? <==> cdr.endDateTime.None?)
      && (outcome.Touched? <==> cdr.endDateTime.Some? && known)
      && (outcome.UniqueViolation? <==> cdr.endDateTime.Some? && !known && taken)
      && (outcome.Inserted? ==> |rows'| == |rows| + 1 && rows' == rows + [rows'[|rows|]])
      && (outcome.Rejected? || outcome.UniqueViolation? ==> rows' == rows)
  {
    hide BillingOf;
    if r :| r in rows && r.transactionId == Some(transactionId) {
      assert TransactionTaken(rows, transactionId);
    }
  }

  // ---------- Runs ----------

  /** A post finds the transaction as in `view`, with `db` behind the later loads. The database may
      refuse the insert for reasons of its own. Deleting a transaction or a partner clears the
      column that refers to it. */
  datatype Event =
    | PostCdr(view: Pipeline.View, db: Pipeline.Db, databaseFails: bool, now: int)
    | TransactionDeleted(transactionId: nat)
    | TenantPartnerDeleted(tenantPartnerId: nat)

  function PartnerOf(authorization: Option<Pipeline.Authorization>): Option<nat> {
    if authorization.Some? then authorization.value.tenantPartnerId else None
  }

  /** The records generated for one transaction. */
  function GeneratedCdrs(view: Pipeline.View, db: Pipeline.Db): seq<Cdr> {
    if view.fixed.isActive then [] else Pipeline.CdrsOf([view], db)
  }

  /** One record exactly when the transaction is over and its location, token and tariff are there. */
  lemma GeneratedIff(view: Pipeline.View, db: Pipeline.Db)
    ensures GeneratedCdrs(view, db)
         == if !view.fixed.isActive && Pipeline.Resolves(view) then [Pipeline.ViewCdr(view, db)] else []
  {
    hide Pipeline.ViewCdr, Pipeline.Resolves;
    assert [view][..0] == [] && Pipeline.CdrsOf([], db) == [];
  }

  /** At most one, and it carries the id of its transaction. */
  lemma GeneratedForTransaction(view: Pipeline.View, db: Pipeline.Db)
    ensures var cdrs := GeneratedCdrs(view, db);
      |cdrs| <= 1 && (cdrs != [] ==> cdrs[0].id == CdrIdOf(view.fixed.id) && cdrs[0].endDateTime == view.fixed.endTime)
  {
    GeneratedIff(view, db);
    if !view.fixed.isActive && Pipeline.Resolves(view) {
      Pipeline.ViewRecord(view, db);
    }
  }

  function Cleared(rows: seq<CdrRecord>, e: Event): (r: seq<CdrRecord>)
    requires !e.PostCdr?
    ensures |r| == |rows|
  {
    seq(|rows|, i requires 0 <= i < |rows| =>
      match e
      case TransactionDeleted(id) => if rows[i].transactionId == Some(id) then rows[i].(transactionId := None)
      else rows[i]
      case TenantPartnerDeleted(id) => if rows[i].tenantPartnerId == Some(id) then rows[i].(tenantPartnerId := None)
      else rows[i])
  }

  function Persisted(rows: seq<CdrRecord>, cdr: Cdr, transactionId: nat, tenantPartnerId: Option<nat>,
                     databaseFails: bool, now: int)
    : (r: (seq<CdrRecord>, Outcome))
  {
    if databaseFails then (rows, Rejected) else InsertCdrRecord(rows, cdr, transactionId, tenantPartnerId, now)
  }

  function Step(rows: seq<CdrRecord>, e: Event): (seq<CdrRecord>, Option<Outcome>) {
    if e.PostCdr? then
      var cdrs := GeneratedCdrs(e.view, e.db);
      if cdrs == [] then (rows, None)
      else
        var r := Persisted(rows, cdrs[0], e.view.fixed.id, PartnerOf(e.view.authorization), e.databaseFails, e.now);
        (r.0, Some(r.1))
    else (Cleared(rows, e), None)
  }

  function Run(rows: seq<CdrRecord>, events: seq<Event>): seq<CdrRecord> {
    if events == [] then rows else Step(Run(rows, events[..|events| - 1]), events[|events| - 1]).0
  }

  ghost predicate Consistent(rows: seq<CdrRecord>) {
    && (forall i, j :: 0 <= i < j < |rows| ==> rows[i].cdrId != rows[j].cdrId)
    && (forall i :: 0 <= i < |rows| && rows[i].transactionId.Some? ==>
      rows[i].cdrId == CdrIdOf(rows[i].transactionId.value))
  }

  /** The unique constraint on the transaction id is never hit, and stays satisfied. */
  lemma StepKeepsConsistent(rows: seq<CdrRecord>, e: Event)
    requires Consistent(rows)
    ensures Consistent(Step(rows, e).0)
    ensures Step(rows, e).1 != Some(UniqueViolation)
    ensures e.PostCdr? && Writes(e, e.view.fixed.id) ==> Step(rows, e).1 in {Some(Inserted), Some(Touched)}
  {
    if e.PostCdr? {
      GeneratedForTransaction(e.view, e.db);
    }
  }

  ghost predicate OneRowEach(rows: seq<CdrRecord>) {
    forall i, j :: 0 <= i < j < |rows| && rows[i].transactionId.Some? ==> rows[i].transactionId != rows[j].transactionId
  }

  /** At most one row for each transaction, at every moment. */
  lemma {:induction false} RunKeepsConsistent(rows: seq<CdrRecord>, events: seq<Event>)
    requires Consistent(rows)
    ensures Consistent(Run(rows, events)) && OneRowEach(Run(rows, events))
    ensures forall k :: 0 <= k < |events| ==> Step(Run(rows, events[..k]), events[k]).1 != Some(UniqueViolation)
  {
    hide Step, CdrIdOf;
    if events != [] {
      var n := |events| - 1;
      RunKeepsConsistent(rows, events[..n]);
      StepKeepsConsistent(Run(rows, events[..n]), events[n]);
      forall k | 0 <= k < n ensures Step(Run(rows, events[..k]), events[k]).1 != Some(UniqueViolation) {
        assert events[..n][..k] == events[..k] && events[..n][k] == events[k];
      }
    }
  }

  // ---------- What a row says ----------

  /** The event writes the row of this transaction: a record is generated, with an end time, and the
      database accepts it. */
  predicate Writes(e: Event, transactionId: nat) {
    e.PostCdr? && e.view.fixed.id == transactionId && !e.databaseFails && GeneratedCdrs(e.view, e.db) != []
      && e.view.fixed.endTime.Some?
  }

  function FirstWrite(events: seq<Event>, transactionId: nat): (e: Option<Event>)
    ensures e.Some? ==> e.value in events && Writes(e.value, transactionId)
    ensures e.None? ==> forall k :: 0 <= k < |events| ==> !Writes(events[k], transactionId)
  {
    if events == [] then None
    else if Writes(events[0], transactionId) then Some(events[0])
    else FirstWrite(events[1..], transactionId)
  }

  function LastWrite(events: seq<Event>, transactionId: nat): (e: Option<Event>)
    ensures e.Some? ==> Writes(e.value, transactionId)
    ensures e.None? ==> forall k :: 0 <= k < |events| ==> !Writes(events[k], transactionId)
  {
    if events == [] then None
    else if Writes(events[|events| - 1], transactionId) then Some(events[|events| - 1])
    else LastWrite(events[..|events| - 1], transactionId)
  }

  lemma {:induction false} FirstWriteExtend(events: seq<Event>, e: Event, transactionId: nat)
    ensures FirstWrite(events + [e], transactionId)
         == if FirstWrite(events, transactionId).Some? then FirstWrite(events, transactionId)
            else if Writes(e, transactionId) then Some(e) else None
  {
    if events != [] && !Writes(events[0], transactionId) {
      FirstWriteExtend(events[1..], e, transactionId);
      assert (events + [e])[1..] == events[1..] + [e];
    }
  }

  /** The record that such an event persists. */
  function WrittenCdr(e: Event, transactionId: nat): (cdr: Cdr)
    requires Writes(e, transactionId)
    ensures cdr.id == CdrIdOf(transactionId) && cdr.endDateTime.Some?
  {
    GeneratedForTransaction(e.view, e.db);
    GeneratedCdrs(e.view, e.db)[0]
  }

  /** The row kept for a transaction, whether or not the transaction is still there. */
  function RowOf(rows: seq<CdrRecord>, transactionId: nat): (r: Option<CdrRecord>)
    ensures r.Some? ==> r.value in rows && r.value.cdrId == CdrIdOf(transactionId)
    ensures r.None? ==> forall i :: 0 <= i < |rows| ==> rows[i].cdrId != CdrIdOf(transactionId)
  {
    var i := IndexOfCdrId(rows, CdrIdOf(transactionId));
    if i < |rows| then Some(rows[i]) else None
  }

  /** The columns that no event but the first write decides, and the one that the last write does. */
  ghost predicate SameBut(a: Option<CdrRecord>, b: Option<CdrRecord>, updatedAt: int) {
    && a.Some? == b.Some?
    && (a.Some? ==> b.value == a.value.(transactionId := b.value.transactionId,
      tenantPartnerId := b.value.tenantPartnerId, updatedAt := updatedAt))
  }

  lemma IndexIs(rows: seq<CdrRecord>, cdrId: string, i: nat)
    requires i <= |rows| && (i < |rows| ==> rows[i].cdrId == cdrId)
    requires forall j :: 0 <= j < i ==> rows[j].cdrId != cdrId
    ensures IndexOfCdrId(rows, cdrId) == i
  {
  }

  lemma ClearedRow(rows: seq<CdrRecord>, e: Event, transactionId: nat)
    requires !e.PostCdr?
    ensures
      var before, after := RowOf(rows, transactionId), RowOf(Cleared(rows, e), transactionId);
      SameBut(before, after, if before.Some? then before.value.updatedAt else 0)
  {
    hide CdrIdOf;
    var i := IndexOfCdrId(rows, CdrIdOf(transactionId));
    IndexIs(Cleared(rows, e), CdrIdOf(transactionId), i);
  }

  /** Persisting a record of one transaction writes that transaction's row and no other. */
  lemma PersistedRow(rows: seq<CdrRecord>, cdr: Cdr, owner: nat, partner: Option<nat>, databaseFails: bool, now: int,
                     transactionId: nat)
    requires Consistent(rows) && cdr.id == CdrIdOf(owner)
    ensures
      var before, after := RowOf(rows, transactionId),
        RowOf(Persisted(rows, cdr, owner, partner, databaseFails, now).0, transactionId);
      if owner == transactionId && !databaseFails && cdr.endDateTime.Some? then
        if before.Some? then SameBut(before, after, now)
        else after == Some(CdrRecord(cdr.id, Some(owner), partner, BillingOf(cdr), now, now))
      else SameBut(before, after, if before.Some? then before.value.updatedAt else 0)
  {
    if cdr.id == CdrIdOf(transactionId) {
      CdrIdInjective(owner, transactionId);
    }
    hide CdrIdOf, BillingOf;
    var id := CdrIdOf(transactionId);
    var rows', i := Persisted(rows, cdr, owner, partner, databaseFails, now).0, IndexOfCdrId(rows, id);
    IndexIs(rows', id, if i == |rows| && owner != transactionId then |rows'| else i);
  }

  /** How one event changes the row of a transaction. */
  lemma StepRow(rows: seq<CdrRecord>, e: Event, transactionId: nat)
    requires Consistent(rows)
    ensures
      var before, after := RowOf(rows, transactionId), RowOf(Step(rows, e).0, transactionId);
      if Writes(e, transactionId) then
        if before.Some? then SameBut(before, after, e.now)
        else
          after.Some? && after.value.billing == BillingOf(WrittenCdr(e, transactionId))
          && after.value.createdAt == after.value.updatedAt == e.now
      else SameBut(before, after, if before.Some? then before.value.updatedAt else 0)
  {
    hide CdrIdOf, BillingOf, RowOf, Persisted, Cleared;
    if e.PostCdr? {
      GeneratedForTransaction(e.view, e.db);
      var cdrs := GeneratedCdrs(e.view, e.db);
      if cdrs != [] {
        PersistedRow(rows, cdrs[0], e.view.fixed.id, PartnerOf(e.view.authorization), e.databaseFails, e.now,
          transactionId);
      }
    } else {
      ClearedRow(rows, e, transactionId);
    }
  }

  /** A transaction has a row exactly when some post wrote one; the row keeps the billing and the
      creation time of the first write and the update time of the last. */
  lemma {:induction false} FirstBillingKept(events: seq<Event>, transactionId: nat)
    ensures
      var row, first, last := RowOf(Run([], events), transactionId), FirstWrite(events, transactionId),
        LastWrite(events, transactionId);
      && row.Some? == first.Some? == last.Some?
      && (row.Some? ==>
            && row.value.billing == BillingOf(WrittenCdr(first.value, transactionId))
            && row.value.createdAt == first.value.now
            && row.value.updatedAt == last.value.now)
  {
    hide CdrIdOf, BillingOf, RowOf, Step, Writes, WrittenCdr;
    if events != [] {
      var n := |events| - 1;
      FirstBillingKept(events[..n], transactionId);
      RunKeepsConsistent([], events[..n]);
      StepRow(Run([], events[..n]), events[n], transactionId);
      FirstWriteExtend(events[..n], events[n], transactionId);
      assert events[..n] + [events[n]] == events;
    }
  }

  /** The billing columns, from the transaction and the tariff of the write. */
  ghost predicate BillsFor(b: Billing, f: Pipeline.Fixed, tariff: Pricing.Tariff) {
    var start := if f.startTime.Some? then f.startTime.value else f.createdAt;
    && b.ocpiSessionId == Text.ToString(f.id) && b.startDateTime == start && f.endTime == Some(b.endDateTime)
    && b.currency == tariff.currency && b.totalEnergy == (if f.totalKwh.Some? then f.totalKwh.value else 0.0)
    && b.totalTime * 3600000.0 == (b.endDateTime - start) as real
    && b.totalParkingTime == 0.0 && b.totalParkingCostExclVat == None
    && Amounts(b.totalEnergyCostExclVat, b.totalEnergy, tariff.pricePerKwh)
    && Amounts(b.totalTimeCostExclVat, b.totalTime * 60.0, tariff.pricePerMin)
    && Amounts(b.totalFixedCostExclVat, 1.0, tariff.pricePerSession)
    && b.totalCostExclVat == b.totalEnergyCostExclVat.GetOr(0.0) + b.totalTimeCostExclVat.GetOr(0.0)
      + b.totalFixedCostExclVat.GetOr(0.0)
    && Pricing.Taxed(Pricing.Price(b.totalCostExclVat, b.totalCostInclVat), tariff.taxRate)
  }

  /** A cost column is empty exactly when there is no unit price, and otherwise quantity times price to four
      decimals. */
  ghost predicate Amounts(column: Option<real>, quantity: real, unitPrice: Option<real>) {
    if unitPrice.None? || unitPrice.value == 0.0 then column.None?
    else column.Some? && -0.00005 < column.value - quantity * unitPrice.value <= 0.00005
  }

  /** A row bills what the transaction's own columns and tariff said at the first write, whatever they say later. */
  lemma RowBillsTransaction(events: seq<Event>, transactionId: nat)
    requires FirstWrite(events, transactionId).Some?
    ensures
      var row, view := RowOf(Run([], events), transactionId), FirstWrite(events, transactionId).value.view;
      && view.fixed.id == transactionId && !view.fixed.isActive && Pipeline.Resolves(view)
      && row.Some? && BillsFor(row.value.billing, view.fixed, view.tariff.value)
      && Pipeline.RecordOf(row.value.billing.cdrData, view, FirstWrite(events, transactionId).value.db)
  {
    FirstBillingKept(events, transactionId);
    hide RowOf, Run;
    var e := FirstWrite(events, transactionId).value;
    WrittenBills(e, transactionId);
  }

  lemma WrittenBills(e: Event, transactionId: nat)
    requires Writes(e, transactionId)
    ensures !e.view.fixed.isActive && Pipeline.Resolves(e.view)
    ensures BillsFor(BillingOf(WrittenCdr(e, transactionId)), e.view.fixed, e.view.tariff.value)
    ensures Pipeline.RecordOf(WrittenCdr(e, transactionId), e.view, e.db)
  {
    GeneratedIff(e.view, e.db);
    Pipeline.ViewRecord(e.view, e.db);
    hide Pipeline.ViewCdr, Pipeline.RecordOf, BillsFor, BillingOf, GeneratedCdrs, CdrIdOf;
    BillsRecord(WrittenCdr(e, transactionId), e.view, e.db);
  }

  lemma ChargedAmounts(cost: Option<Pricing.Price>, quantity: real, unitPrice: Option<real>, taxRate: Option<real>)
    requires Pricing.Charged(cost, quantity, unitPrice, taxRate)
    ensures Amounts(ExclVat(cost), quantity, unitPrice)
  {
  }

  lemma BillsRecord(cdr: Cdr, view: Pipeline.View, db: Pipeline.Db)
    requires Pipeline.Resolves(view) && Pipeline.RecordOf(cdr, view, db) && cdr.endDateTime.Some?
    ensures BillsFor(BillingOf(cdr), view.fixed, view.tariff.value)
  {
    hide Pipeline.CreateCdrLocation, Pipeline.ViewSession, Text.ToString, Text.PadStart, Metering.Periods,
      Pricing.Taxed,
      Pricing.Charged, Amounts, EvseUid.UidFormat, Pipeline.PrintedId;
    var b, tariff := BillingOf(cdr), view.tariff.value;
    assert cdr.totalCost == Pricing.Price(b.totalCostExclVat, b.totalCostInclVat);
    ChargedAmounts(cdr.totalEnergyCost, cdr.totalEnergy, tariff.pricePerKwh, tariff.taxRate);
    ChargedAmounts(cdr.totalTimeCost, cdr.totalTime * 60.0, tariff.pricePerMin, tariff.taxRate);
    ChargedAmounts(cdr.totalFixedCost, 1.0, tariff.pricePerSession, tariff.taxRate);
  }

  /** Persisting a record leaves the ids and references of the rows that are there. */
  lemma PersistedKeepsReferences(rows: seq<CdrRecord>, cdr: Cdr, owner: nat, partner: Option<nat>, databaseFails: bool,
                                 now: int)
    ensures
      var rows' := Persisted(rows, cdr, owner, partner, databaseFails, now).0;
      && |rows| <= |rows'|
      && forall i :: 0 <= i < |rows| ==>
           && rows'[i].cdrId == rows[i].cdrId && rows'[i].transactionId == rows[i].transactionId
           && rows'[i].tenantPartnerId == rows[i].tenantPartnerId
  {
    hide BillingOf;
  }

  /** One event clears a reference exactly when what it refers to is deleted. */
  lemma StepReferences(rows: seq<CdrRecord>, e: Event, transactionId: nat)
    requires Consistent(rows) && RowOf(rows, transactionId).Some?
    ensures
      var before, after := RowOf(rows, transactionId).value, RowOf(Step(rows, e).0, transactionId);
      && after.Some? && before.transactionId in {None, Some(transactionId)}
      && after.value.transactionId
         == (if e == TransactionDeleted(transactionId) then None else before.transactionId)
      && after.value.tenantPartnerId
         == (if before.tenantPartnerId.Some? && e == TenantPartnerDeleted(before.tenantPartnerId.value) then None
             else before.tenantPartnerId)
  {
    var i := IndexOfCdrId(rows, CdrIdOf(transactionId));
    if rows[i].transactionId.Some? {
      CdrIdInjective(rows[i].transactionId.value, transactionId);
    }
    hide CdrIdOf, GeneratedCdrs, Persisted;
    if e.PostCdr? && GeneratedCdrs(e.view, e.db) != [] {
      PersistedKeepsReferences(rows, GeneratedCdrs(e.view, e.db)[0], e.view.fixed.id, PartnerOf(e.view.authorization),
        e.databaseFails, e.now);
    }
    IndexIs(Step(rows, e).0, CdrIdOf(transactionId), i);
  }

  /** What the references of a transaction's row are after a first write by `view` and these later events. */
  ghost predicate RefersTo(row: Option<CdrRecord>, view: Pipeline.View, later: seq<Event>) {
    && row.Some? && view.authorization.Some?
    && row.value.transactionId
       == (if TransactionDeleted(view.fixed.id) in later then None else Some(view.fixed.id))
    && row.value.tenantPartnerId
       == match view.authorization.value.tenantPartnerId
          case None => None
          case Some(p) => if TenantPartnerDeleted(p) in later then None else Some(p)
  }

  /** The first write files the transaction and the partner that authorized it; each reference stays until what it
      refers to is deleted, and is gone from then on. */
  lemma {:induction false} ReferencesUntilDeleted(before: seq<Event>, e: Event, later: seq<Event>)
    requires e.PostCdr? && Writes(e, e.view.fixed.id)
    requires forall x :: x in before ==> !Writes(x, e.view.fixed.id)
    ensures RefersTo(RowOf(Run([], before + [e] + later), e.view.fixed.id), e.view, later)
    decreases |later|
  {
    hide RowOf, Step, Writes, Consistent, RefersTo;
    var id := e.view.fixed.id;
    if later == [] {
      assert before + [e] + later == before + [e];
      RunAppend(before, e);
      RowIffWritten(before, id);
      FirstWriteFiles(Run([], before), e, id);
    } else {
      var n := |later| - 1;
      ReferencesUntilDeleted(before, e, later[..n]);
      assert before + [e] + later == before + [e] + later[..n] + [later[n]];
      RunAppend(before + [e] + later[..n], later[n]);
      StepRefersTo(Run([], before + [e] + later[..n]), later[n], e.view, later[..n]);
      assert later[..n] + [later[n]] == later;
    }
  }

  lemma RunAppend(events: seq<Event>, e: Event)
    ensures Run([], events + [e]) == Step(Run([], events), e).0 && Consistent(Run([], events))
  {
    RunKeepsConsistent([], events);
    assert (events + [e])[..|events|] == events;
  }

  lemma StepRefersTo(rows: seq<CdrRecord>, e: Event, view: Pipeline.View, later: seq<Event>)
    requires Consistent(rows) && RefersTo(RowOf(rows, view.fixed.id), view, later)
    ensures RefersTo(RowOf(Step(rows, e).0, view.fixed.id), view, later + [e])
  {
    StepReferences(rows, e, view.fixed.id);
    hide RowOf, Step, Consistent;
  }

  lemma FirstWriteFiles(rows: seq<CdrRecord>, e: Event, transactionId: nat)
    requires Consistent(rows) && Writes(e, transactionId) && RowOf(rows, transactionId).None?
    ensures RefersTo(RowOf(Step(rows, e).0, transactionId), e.view, [])
  {
    assert e.view.authorization.Some? && e.view.fixed.id == transactionId by { GeneratedIff(e.view, e.db); }
    GeneratedForTransaction(e.view, e.db);
    hide CdrIdOf, BillingOf, RowOf, Persisted, GeneratedCdrs, Consistent;
    PersistedRow(rows, GeneratedCdrs(e.view, e.db)[0], transactionId, PartnerOf(e.view.authorization), false, e.now,
      transactionId);
  }

  lemma RowIffWritten(events: seq<Event>, transactionId: nat)
    ensures RowOf(Run([], events), transactionId).Some? <==> exists e :: e in events && Writes(e, transactionId)
  {
    FirstBillingKept(events, transactionId);
    hide RowOf, Run, Writes;
    var first := FirstWrite(events, transactionId);
    if e :| e in events && Writes(e, transactionId) {
      assert first.Some?;
    }
  }
}

/** The broadcaster, over the table and the requests it attempts. */
module CdrBroadcasting {
  import opened Wrappers
  import Pipeline = CdrPipeline
  import Spec = CdrRecords

  datatype Attempt = Attempt(cdr: Pipeline.Cdr, tenantPartnerId: nat)

  class CdrBroadcaster {
    var records: seq<Spec.CdrRecord>
    var attempts: seq<Attempt>

    constructor ()
      ensures records == [] && attempts == []
    {
      records, attempts := [], [];
    }

    /** A failed request is logged and goes no further. */
    method Request(cdr: Pipeline.Cdr, tenantPartnerId: nat, fails: bool) returns (r: Result<()>)
      modifies this`attempts
      ensures attempts == old(attempts) + [Attempt(cdr, tenantPartnerId)]
      ensures r.Err? == fails
    {
      attempts := attempts + [Attempt(cdr, tenantPartnerId)];
      r := if fails then Err("request failed") else Ok(());
    }

    method PersistCdrRecord(cdr: Pipeline.Cdr, transactionId: nat, tenantPartnerId: Option<nat>, databaseFails: bool,
                            now: int)
      modifies this`records
      ensures records == Spec.Persisted(old(records), cdr, transactionId, tenantPartnerId, databaseFails, now).0
    {
      if !databaseFails {
        records := Spec.InsertCdrRecord(records, cdr, transactionId, tenantPartnerId, now).0;
      }
    }

    /** One attempt at most, to the partner that authorized the session; the record is persisted
        whether or not there is such a partner and whether or not the request succeeds. Nothing
        happens when the mapping throws or generates nothing. */
    method BroadcastPostCdr(transaction: Pipeline.Transaction, db: Pipeline.Db, db': Pipeline.Db, requestFails: bool,
                            databaseFails: bool, now: int)
      returns (r: Result<()>)
      modifies this, transaction
      ensures r.Err? ==> records == old(records) && attempts == old(attempts)
      ensures r.Ok? ==>
        var view := Pipeline.View(
          transaction.fixed, old(Pipeline.ResolvedLocation(transaction, db)),
          old(Pipeline.ResolvedAuthorization(transaction, db)),
          old(Pipeline.ResolvedTariff(transaction, db)));
        var cdrs, partner := Spec.GeneratedCdrs(view, db'), Spec.PartnerOf(view.authorization);
        && records == Spec.Step(old(records), Spec.PostCdr(view, db', databaseFails, now)).0
        && attempts == old(attempts) + (if cdrs != [] && partner.Some? then [Attempt(cdrs[0], partner.value)] else [])
    {
      assert [transaction][..0] == [];
      ghost var view := Pipeline.View(
        transaction.fixed, Pipeline.ResolvedLocation(transaction, db), Pipeline.ResolvedAuthorization(transaction, db),
        Pipeline.ResolvedTariff(transaction, db));
      ghost var kept := Pipeline.Completed([transaction]);
      assert Pipeline.Completed([]) == [];
      assert kept == if transaction.fixed.isActive then [] else [transaction];
      assert Pipeline.ResolvedViews(kept, db) == if transaction.fixed.isActive then [] else [view];
      var mapped := Pipeline.MapTransactionsToCdrs([transaction], db, db');
      if mapped.Err? {
        return Err(mapped.message);
      }
      var cdrs := mapped.value;
      assert cdrs == Spec.GeneratedCdrs(view, db');
      if cdrs == [] {
        return Ok(());
      }
      assert transaction in kept;
      var tenantPartnerId := Spec.PartnerOf(transaction.authorization);
      if tenantPartnerId.Some? {
        var _ := Request(cdrs[0], tenantPartnerId.value, requestFails);
      }
      PersistCdrRecord(cdrs[0], transaction.fixed.id, tenantPartnerId, databaseFails, now);
      r := Ok(());
    }
  }
}
