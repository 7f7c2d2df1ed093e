/** Handing an authorization reference from a StartSession command to the transaction it starts
    (00_Base/src/util/CommandExecutor.ts, 03_Modules/Sessions/src/index.ts). */
module AuthReference {
  import opened Wrappers
  import opened TokensMapper
  import Tokens = TokensService

  const TTL := 60
  const FIELD := "authorization_reference"

  // ---------- The key a token is filed under ----------

  /** The uid a row shows normalises to the row's own id token. */
  ghost predicate Agrees(h: Digest, row: Tokens.Row) {
    Given(row.customData) ==> NormalizeToken(h, row.customData) == Some(row.key.idToken)
  }

  ghost predicate AllAgree(h: Digest, s: Tokens.Store) {
    Tokens.Good(s) && forall k :: Tokens.First(s.rows, k).Some? ==> Agrees(h, Tokens.First(s.rows, k).value)
  }

  /** A PATCH body whose uid, if any, is short enough to be stored as it is or stands for the
      same token as the path's uid. */
  predicate UidKept(h: Digest, uid: string, body: PartialToken) {
    !Given(body.uid) || |body.uid.value| <= MAX_ID_TOKEN || NormalizeToken(h, body.uid) == NormalizeToken(h, Some(uid))
  }

  lemma UpsertKeepsAgreement(h: Digest, s: Tokens.Store, token: Token, tenantId: int, partner: int, now: int)
    requires AllAgree(h, s) && partner in s.partners && token.uid != "" && !Tokens.SelfGroup(h, s, token, partner)
    ensures AllAgree(h, Tokens.UpsertToken(h, s, token, tenantId, partner, now).store)
  {
    Tokens.UpsertKeepsKeysUniqueIff(h, s, token, tenantId, partner, now);
    Tokens.UpsertEffect(h, s, token, tenantId, partner, now);
    var s' := Tokens.UpsertToken(h, s, token, tenantId, partner, now).store;
    var k := Tokens.KeyOf(h, token.uid, token.kind, partner);
    hide Tokens.UpsertToken;
    forall k' | Tokens.First(s'.rows, k').Some? ensures Agrees(h, Tokens.First(s'.rows, k').value) {
      if k' != k && Tokens.First(s.rows, k').Some? {
        assert Tokens.First(s'.rows, k') == Tokens.First(s.rows, k');
      }
    }
  }

  lemma PatchKeepsOthers(h: Digest, s: Tokens.Store, uid: string, kind: TokenType, body: PartialToken, tenantId: int,
                         partner: int, now: int)
    requires AllAgree(h, s) && partner in s.partners
    ensures
      var s' := Tokens.PatchToken(h, s, uid, kind, body, tenantId, partner, now).store;
      forall k :: k != Tokens.KeyOf(h, uid, kind, partner) && Tokens.First(s'.rows, k).Some? ==>
        Agrees(h, Tokens.First(s'.rows, k).value)
  {
    var k := Tokens.KeyOf(h, uid, kind, partner);
    var existing := Tokens.First(s.rows, k);
    if body.lastUpdated.Some? && existing.Some? {
      Tokens.GroupStep(s, body.groupId, tenantId, partner, now);
      var (s1, group) := Tokens.HandleOptionalGroup(s, body.groupId, tenantId, partner, now);
      var set_ := Tokens.PatchSet(AuthorizationOf(h, body), existing.value, group, body.lastUpdated.value);
      forall k' | k' != k && Tokens.First(s1.rows, k').Some?
        ensures Agrees(h, Tokens.First(Tokens.UpdateRows(s1.rows, k, set_), k').value)
      {
        Tokens.FirstUpdate(s1.rows, k, set_, k');
      }
      forall k' ensures Tokens.First(Tokens.UpdateRows(s1.rows, k, set_), k').Some? ==>
        Tokens.First(s1.rows, k').Some? {
        Tokens.FirstUpdate(s1.rows, k, set_, k');
      }
    }
  }

  /** A patch of a known token keeps the key agreement exactly when its body keeps the uid. */
  lemma PatchKeepsAgreementIff(h: Digest, s: Tokens.Store, uid: string, kind: TokenType, body: PartialToken,
                               tenantId: int, partner: int, now: int)
    requires AllAgree(h, s) && partner in s.partners && uid != "" && body.lastUpdated.Some?
    requires Tokens.First(s.rows, Tokens.KeyOf(h, uid, kind, partner)).Some?
    ensures AllAgree(h, Tokens.PatchToken(h, s, uid, kind, body, tenantId, partner, now).store)
            <==> UidKept(h, uid, body)
  {
    var k := Tokens.KeyOf(h, uid, kind, partner);
    var existing := Tokens.First(s.rows, k);
    Tokens.PatchKeepsGood(h, s, uid, kind, body, tenantId, partner, now);
    PatchKeepsOthers(h, s, uid, kind, body, tenantId, partner, now);
    Tokens.GroupStep(s, body.groupId, tenantId, partner, now);
    var (s1, group) := Tokens.HandleOptionalGroup(s, body.groupId, tenantId, partner, now);
    var set_ := Tokens.PatchSet(AuthorizationOf(h, body), existing.value, group, body.lastUpdated.value);
    Tokens.FirstUpdate(s1.rows, k, set_, k);
    var row := Tokens.UpdateRow(existing.value, k, set_);
    assert row.customData == Tokens.Or(AuthorizationOf(h, body).customData, existing.value.customData);
    assert Agrees(h, row) <==> UidKept(h, uid, body);
    var s' := Tokens.PatchToken(h, s, uid, kind, body, tenantId, partner, now).store;
    assert Tokens.First(s'.rows, k) == Some(row);
  }

  /** Calls whose PATCH bodies keep the uid. */
  ghost predicate UidsKept(h: Digest, calls: seq<Tokens.Call>) {
    forall c :: c in calls && c.Patch? ==> c.uid != "" && UidKept(h, c.uid, c.body)
  }

  lemma StepKeepsAgreement(h: Digest, s: Tokens.Store, call: Tokens.Call)
    requires AllAgree(h, s) && Tokens.Admissible(h, s, call) && UidsKept(h, [call])
    ensures AllAgree(h, Tokens.Step(h, s, call).store)
  {
    match call
    case Upsert(token, tenantId, partner, now) => UpsertKeepsAgreement(h, s, token, tenantId, partner, now);
    case Patch(uid, kind, body, tenantId, partner, now) =>
      assert call in [call];
      if body.lastUpdated.Some? && Tokens.First(s.rows, Tokens.KeyOf(h, uid, kind, partner)).Some? {
        PatchKeepsAgreementIff(h, s, uid, kind, body, tenantId, partner, now);
      }
  }

  lemma {:induction false} RunKeepsAgreement(h: Digest, s: Tokens.Store, calls: seq<Tokens.Call>)
    requires AllAgree(h, s) && Tokens.IsRun(h, s, calls) && UidsKept(h, calls)
    ensures AllAgree(h, Tokens.Run(h, s, calls))
    decreases |calls|
  {
    if calls != [] {
      assert forall c :: c in calls[1..] ==> c in calls;
      assert forall c :: c in [calls[0]] ==> c in calls;
      StepKeepsAgreement(h, s, calls[0]);
      RunKeepsAgreement(h, Tokens.Step(h, s, calls[0]).store, calls[1..]);
    }
  }

  lemma UpsertedKeysAreShort(h: Digest, calls: seq<Tokens.Call>, s: Tokens.Store, k: Tokens.Key)
    requires Tokens.IsRun(h, s, calls) && k in Tokens.UpsertedKeys(h, calls)
    ensures 0 < |k.idToken| <= MAX_ID_TOKEN
    decreases |calls|
  {
    if k !in Tokens.UpsertedKey(h, calls[0]) {
      UpsertedKeysAreShort(h, calls[1..], Tokens.Step(h, s, calls[0]).store, k);
    }
  }

  /** Over every run, the uid by which a partner knows an upserted row normalises to the row's
      id token: references are filed and looked up under the same key. */
  lemma SameKeyOverRuns(h: Digest, s: Tokens.Store, calls: seq<Tokens.Call>, row: Tokens.Row)
    requires AllAgree(h, s) && Tokens.IsRun(h, s, calls) && UidsKept(h, calls)
    requires row in Tokens.Run(h, s, calls).rows && exists c :: c in calls && Tokens.Upserts(h, c, row.key)
    ensures row.key.partner in Tokens.Run(h, s, calls).partners
    ensures
      var dto := Tokens.ToDto(Tokens.Run(h, s, calls), row);
      dto.Ok? && NormalizeToken(h, Some(dto.value.uid)) == Some(row.key.idToken)
  {
    Tokens.UpsertedKeysAre(h, calls, row.key);
    Tokens.UpsertedRowsStayReadable(h, s, calls, row);
    RunKeepsAgreement(h, s, calls);
    Tokens.FirstUnique(Tokens.Run(h, s, calls).rows, row);
    UpsertedKeysAreShort(h, calls, s, row.key);
  }

  // ---------- Filing and attaching ----------

  /** A StartSession's reference, as it was filed. */
  datatype Filing = Filing(uid: string, reference: string)

  /** A cache entry: which filing it holds, and until when. */
  datatype Entry = Entry(filing: nat, reference: string, expiry: nat)

  datatype Attachment = Attachment(transaction: nat, idToken: string, filing: nat)

  type CustomData = map<string, string>

  datatype State = State(
    now: nat,
    cache: map<string, Entry>,
    filings: seq<Filing>,
    attachments: seq<Attachment>,
    customData: map<nat, CustomData>)

  function Init(): State {
    State(0, map[], [], [], map[])
  }

  function FileReference(h: Digest, s: State, uid: string, reference: string): State {
    if uid == "" || reference == "" then s
    else
      var entry := Entry(|s.filings|, reference, s.now + TTL);
      s.(cache := s.cache[NormalizeToken(h, Some(uid)).GetOr("") := entry],
        filings := s.filings + [Filing(uid, reference)])
  }

  function CustomDataOf(s: State, transaction: nat): CustomData {
    if transaction in s.customData then s.customData[transaction] else map[]
  }

  /** Get, remove and attach in one step; a failed table write attaches nothing. */
  function InsertTransaction(s: State, transaction: nat, idToken: string, writeSucceeds: bool): State {
    if idToken == "" then s
    else
      var removed := s.(cache := s.cache - {idToken});
      if idToken in s.cache && s.cache[idToken].reference != "" && writeSucceeds then
        var entry := s.cache[idToken];
        removed.(
        attachments := s.attachments + [Attachment(transaction, idToken, entry.filing)],
        customData := s.customData[transaction := CustomDataOf(s, transaction)[FIELD := entry.reference]])
      else removed
  }

  /** The custom data of the DTO that is broadcast. An object the transaction already has is assigned to
      before the write, so it carries the reference even when the write fails. */
  function BroadcastData(s: State, transaction: nat, idToken: string, writeSucceeds: bool): Option<CustomData> {
    var own := if transaction in s.customData then Some(s.customData[transaction]) else None;
    if idToken == "" || idToken !in s.cache || s.cache[idToken].reference == "" then own
    else if own.Some? || writeSucceeds then Some(CustomDataOf(s, transaction)[FIELD := s.cache[idToken].reference])
    else None
  }

  /** A reference taken from the cache is in the table exactly when the write succeeds (or it was there), and
      in the broadcast exactly when the write succeeds or the transaction had custom data already. */
  lemma ReferenceKeptIff(s: State, transaction: nat, idToken: string, writeSucceeds: bool)
    requires idToken != "" && idToken in s.cache && s.cache[idToken].reference != ""
    ensures
      var reference := s.cache[idToken].reference;
      var kept := CustomDataOf(InsertTransaction(s, transaction, idToken, writeSucceeds), transaction);
      var sent := BroadcastData(s, transaction, idToken, writeSucceeds).GetOr(map[]);
      && ((FIELD in kept && kept[FIELD] == reference)
          <==> || writeSucceeds
               || (FIELD in CustomDataOf(s, transaction) && CustomDataOf(s, transaction)[FIELD] == reference))
      && (FIELD in sent && sent[FIELD] == reference <==> writeSucceeds || transaction in s.customData)
  {
  }

  datatype Event =
    | FileEvent(uid: string, reference: string)
    | InsertEvent(transaction: nat, idToken: string, writeSucceeds: bool)
    | ExpireEvent(key: string)
    | TickEvent(seconds: nat)

  function Apply(h: Digest, s: State, e: Event): State {
    match e
    case FileEvent(uid, reference) => FileReference(h, s, uid, reference)
    case InsertEvent(transaction, idToken, writeSucceeds) => InsertTransaction(s, transaction, idToken, writeSucceeds)
    case ExpireEvent(key) => if key in s.cache && s.cache[key].expiry <= s.now then s.(cache := s.cache - {key}) else s
    case TickEvent(seconds) => s.(now := s.now + seconds)
  }

  function Run(h: Digest, s: State, es: seq<Event>): State
    decreases |es|
  {
    if es == [] then s else Run(h, Apply(h, s, es[0]), es[1..])
  }

  /** An entry belongs to the filing it names, made for a uid that normalises to its key, and
      that filing was not attached yet. */
  ghost predicate EntryConsistent(h: Digest, s: State, k: string)
    requires k in s.cache
  {
    var entry := s.cache[k];
    && entry.filing < |s.filings|
    && s.filings[entry.filing].reference == entry.reference
    && NormalizeToken(h, Some(s.filings[entry.filing].uid)) == Some(k)
    && forall i :: 0 <= i < |s.attachments| ==> s.attachments[i].filing != entry.filing
  }

  /** An attachment went to a transaction of the token it was filed for. */
  ghost predicate AttachmentConsistent(h: Digest, s: State, a: Attachment) {
    a.filing < |s.filings| && NormalizeToken(h, Some(s.filings[a.filing].uid)) == Some(a.idToken)
  }

  ghost predicate Consistent(h: Digest, s: State) {
    && (forall k :: k in s.cache ==> EntryConsistent(h, s, k))
    && (forall i :: 0 <= i < |s.attachments| ==> AttachmentConsistent(h, s, s.attachments[i]))
    && (forall i, j :: 0 <= i < j < |s.attachments| ==> s.attachments[i].filing != s.attachments[j].filing)
  }

  lemma EntryStays(h: Digest, s: State, s': State, k: string)
    requires k in s.cache && k in s'.cache && s.cache[k] == s'.cache[k] && EntryConsistent(h, s, k)
    requires s.filings <= s'.filings && s.attachments <= s'.attachments
    requires forall i :: |s.attachments| <= i < |s'.attachments| ==> s'.attachments[i].filing != s.cache[k].filing
    ensures EntryConsistent(h, s', k)
  {
    hide NormalizeToken;
    forall i | 0 <= i < |s'.attachments| ensures s'.attachments[i].filing != s'.cache[k].filing {
      if i < |s.attachments| {
        assert s'.attachments[i] == s.attachments[i];
      }
    }
  }

  lemma AttachmentsStay(h: Digest, s: State, s': State)
    requires Consistent(h, s) && s.filings <= s'.filings
    ensures forall i :: 0 <= i < |s.attachments| ==> AttachmentConsistent(h, s', s.attachments[i])
  {
    hide NormalizeToken;
    forall i | 0 <= i < |s.attachments| ensures AttachmentConsistent(h, s', s.attachments[i]) {
      assert AttachmentConsistent(h, s, s.attachments[i]);
    }
  }

  lemma FileKeepsConsistent(h: Digest, s: State, uid: string, reference: string)
    requires Consistent(h, s)
    ensures Consistent(h, FileReference(h, s, uid, reference))
  {
    var s' := FileReference(h, s, uid, reference);
    if uid != "" && reference != "" {
      var key := NormalizeToken(h, Some(uid)).GetOr("");
      assert NormalizeToken(h, Some(uid)) == Some(key);
      hide NormalizeToken;
      AttachmentsStay(h, s, s');
      forall k | k in s'.cache ensures EntryConsistent(h, s', k) {
        if k == key {
          forall i | 0 <= i < |s'.attachments| ensures s'.attachments[i].filing != s'.cache[k].filing {
            assert AttachmentConsistent(h, s, s.attachments[i]);
          }
        } else {
          EntryStays(h, s, s', k);
        }
      }
    }
  }

  lemma InsertKeepsConsistent(h: Digest, s: State, transaction: nat, idToken: string, writeSucceeds: bool)
    requires Consistent(h, s)
    ensures Consistent(h, InsertTransaction(s, transaction, idToken, writeSucceeds))
  {
    hide NormalizeToken;
    var s' := InsertTransaction(s, transaction, idToken, writeSucceeds);
    if s'.attachments == s.attachments {
      SameEntries(h, s, s');
    } else {
      AttachKeepsConsistent(h, s, s', transaction, idToken);
    }
  }

  /** Attaching an entry uses up its filing. */
  lemma AttachKeepsConsistent(h: Digest, s: State, s': State, transaction: nat, idToken: string)
    requires Consistent(h, s) && idToken in s.cache && s'.cache == s.cache - {idToken} && s'.filings == s.filings
    requires s'.attachments == s.attachments + [Attachment(transaction, idToken, s.cache[idToken].filing)]
    ensures Consistent(h, s')
  {
    hide NormalizeToken;
    assert EntryConsistent(h, s, idToken);
    AttachmentsStay(h, s, s');
    forall k | k in s'.cache ensures EntryConsistent(h, s', k) {
      OtherEntry(h, s, k, idToken);
      EntryStays(h, s, s', k);
    }
  }

  /** Entries under different keys are different filings. */
  lemma OtherEntry(h: Digest, s: State, k: string, k': string)
    requires Consistent(h, s) && k in s.cache && k' in s.cache && k != k'
    ensures s.cache[k].filing != s.cache[k'].filing
  {
    hide NormalizeToken;
    assert EntryConsistent(h, s, k) && EntryConsistent(h, s, k');
  }

  lemma StepKeepsConsistent(h: Digest, s: State, e: Event)
    requires Consistent(h, s)
    ensures Consistent(h, Apply(h, s, e))
  {
    hide NormalizeToken;
    match e
    case FileEvent(uid, reference) => FileKeepsConsistent(h, s, uid, reference);
    case InsertEvent(transaction, idToken, writeSucceeds) => InsertKeepsConsistent(h, s, transaction, idToken,
      writeSucceeds);
    case ExpireEvent(_) => SameEntries(h, s, Apply(h, s, e));
    case TickEvent(_) => SameEntries(h, s, Apply(h, s, e));
  }

  lemma SameEntries(h: Digest, s: State, s': State)
    requires Consistent(h, s) && s'.filings == s.filings && s'.attachments == s.attachments
    requires forall k :: k in s'.cache ==> k in s.cache && s'.cache[k] == s.cache[k]
    ensures Consistent(h, s')
  {
    hide NormalizeToken;
    AttachmentsStay(h, s, s');
    forall k | k in s'.cache ensures EntryConsistent(h, s', k) {
      EntryStays(h, s, s', k);
    }
  }

  lemma {:induction false} RunKeepsConsistent(h: Digest, s: State, es: seq<Event>)
    requires Consistent(h, s)
    ensures Consistent(h, Run(h, s, es))
    decreases |es|
  {
    if es != [] {
      StepKeepsConsistent(h, s, es[0]);
      RunKeepsConsistent(h, Apply(h, s, es[0]), es[1..]);
    }
  }

  /** In every run each filed reference is attached to at most one transaction, and only to one
      whose id token is the normalised uid it was filed for. */
  lemma AttachedAtMostOnce(h: Digest, es: seq<Event>, i: nat, j: nat)
    requires i < |Run(h, Init(), es).attachments| && j < |Run(h, Init(), es).attachments|
    requires Run(h, Init(), es).attachments[i].filing == Run(h, Init(), es).attachments[j].filing
    ensures i == j
    ensures
      var s := Run(h, Init(), es);
      var a := s.attachments[i];
      a.filing < |s.filings| && NormalizeToken(h, Some(s.filings[a.filing].uid)) == Some(a.idToken)
  {
    RunKeepsConsistent(h, Init(), es);
  }

  /** The event leaves the entry of this id token alone: it neither files a reference under it nor starts
      a transaction of it. */
  predicate Undisturbed(h: Digest, e: Event, idToken: string) {
    match e
    case FileEvent(uid, reference) => uid == "" || reference == "" || NormalizeToken(h, Some(uid)) != Some(idToken)
    case InsertEvent(_, other, _) => other != idToken
    case _ => true
  }

  ghost predicate AllUndisturbed(h: Digest, es: seq<Event>, idToken: string) {
    forall i :: 0 <= i < |es| ==> Undisturbed(h, es[i], idToken)
  }

  /** The seconds that pass in a run. */
  function Elapsed(es: seq<Event>): nat {
    if es == [] then 0 else (if es[0].TickEvent? then es[0].seconds else 0) + Elapsed(es[1..])
  }

  lemma {:induction false} EntrySurvives(h: Digest, s: State, es: seq<Event>, k: string)
    requires k != "" && k in s.cache && AllUndisturbed(h, es, k) && s.now + Elapsed(es) < s.cache[k].expiry
    ensures k in Run(h, s, es).cache && Run(h, s, es).cache[k] == s.cache[k]
    decreases |es|
  {
    if es != [] {
      var s' := Apply(h, s, es[0]);
      assert Undisturbed(h, es[0], k);
      assert k in s'.cache && s'.cache[k] == s.cache[k] && s'.now + Elapsed(es[1..]) == s.now + Elapsed(es);
      hide *;
      EntrySurvives(h, s', es[1..], k);
    }
  }

  lemma {:induction false} AttachmentsGrow(h: Digest, s: State, es: seq<Event>)
    ensures s.attachments <= Run(h, s, es).attachments && s.filings <= Run(h, s, es).filings
    decreases |es|
  {
    if es != [] {
      AttachmentsGrow(h, Apply(h, s, es[0]), es[1..]);
    }
  }

  /** The filing was attached to this transaction, and to no other. */
  ghost predicate AttachedOnlyTo(s: State, filing: nat, transaction: nat) {
    && (exists i :: 0 <= i < |s.attachments| && s.attachments[i].filing == filing)
    && forall i :: 0 <= i < |s.attachments| && s.attachments[i].filing == filing ==>
      s.attachments[i].transaction == transaction
  }

  /** A filed reference, within its time to live and while no other is filed for the token, reaches the
      next transaction of the token; and in every later run it stays with that one alone. */
  lemma FiledIsAttached(h: Digest, before: seq<Event>, uid: string, idToken: string, reference: string,
                        between: seq<Event>, transaction: nat, later: seq<Event>)
    requires NormalizeToken(h, Some(uid)) == Some(idToken) && reference != ""
    requires AllUndisturbed(h, between, idToken) && Elapsed(between) < 60
    ensures
      var s := Run(h, Init(), before);
      var reached := Run(h, FileReference(h, s, uid, reference), between);
      var inserted := InsertTransaction(reached, transaction, idToken, true);
      && CustomDataOf(inserted, transaction)
        == CustomDataOf(reached, transaction)["authorization_reference" := reference]
      && AttachedOnlyTo(Run(h, inserted, later), |s.filings|, transaction)
      && |s.filings| < |inserted.filings| && inserted.filings[|s.filings|] == Filing(uid, reference)
  {
    var s := Run(h, Init(), before);
    var filed := FileReference(h, s, uid, reference);
    assert filed.cache[idToken] == Entry(|s.filings|, reference, s.now + TTL) && filed.now == s.now;
    assert filed.filings == s.filings + [Filing(uid, reference)] && idToken != "";
    RunKeepsConsistent(h, Init(), before);
    FileKeepsConsistent(h, s, uid, reference);
    EntrySurvives(h, filed, between, idToken);
    RunKeepsConsistent(h, filed, between);
    AttachmentsGrow(h, filed, between);
    var reached := Run(h, filed, between);
    InsertAttaches(h, reached, transaction, idToken, |s.filings|, reference, later);
  }

  lemma InsertAttaches(h: Digest, s: State, transaction: nat, idToken: string, filing: nat, reference: string,
                       later: seq<Event>)
    requires Consistent(h, s) && idToken != "" && reference != ""
    requires idToken in s.cache && s.cache[idToken].filing == filing && s.cache[idToken].reference == reference
    ensures
      var inserted := InsertTransaction(s, transaction, idToken, true);
      && CustomDataOf(inserted, transaction) == CustomDataOf(s, transaction)[FIELD := reference]
      && AttachedOnlyTo(Run(h, inserted, later), filing, transaction)
      && inserted.filings == s.filings
  {
    hide NormalizeToken, EntryConsistent, AttachmentConsistent, Run;
    var inserted := InsertTransaction(s, transaction, idToken, true);
    var n := |s.attachments|;
    assert inserted.attachments[n] == Attachment(transaction, idToken, filing);
    InsertKeepsConsistent(h, s, transaction, idToken, true);
    RunKeepsConsistent(h, inserted, later);
    AttachmentsGrow(h, inserted, later);
    var all := Run(h, inserted, later).attachments;
    hide InsertTransaction, CustomDataOf;
    assert all[n] == inserted.attachments[n];
    forall i | 0 <= i < |all| && all[i].filing == filing ensures i == n {
    }
  }

  /** The filing waits under this key alone, until `expiry` at the latest, and is attached to nothing. */
  ghost predicate WaitsOnly(s: State, filing: nat, key: string, expiry: nat) {
    && filing < |s.filings| && (forall i :: 0 <= i < |s.attachments| ==> s.attachments[i].filing != filing)
    && forall k :: k in s.cache && s.cache[k].filing == filing ==> k == key && s.cache[k].expiry == expiry
  }

  /** The filing is neither attached nor waiting. */
  ghost predicate Gone(s: State, filing: nat) {
    && filing < |s.filings| && (forall i :: 0 <= i < |s.attachments| ==> s.attachments[i].filing != filing)
    && forall k :: k in s.cache ==> s.cache[k].filing != filing
  }

  lemma {:induction false} GoneStaysGone(h: Digest, s: State, es: seq<Event>, filing: nat)
    requires Gone(s, filing)
    ensures Gone(Run(h, s, es), filing)
    decreases |es|
  {
    hide NormalizeToken;
    if es != [] {
      GoneStaysGone(h, Apply(h, s, es[0]), es[1..], filing);
    }
  }

  lemma {:induction false} WaitsUndisturbed(h: Digest, s: State, es: seq<Event>, filing: nat, key: string, expiry: nat)
    requires key != "" && WaitsOnly(s, filing, key, expiry) && AllUndisturbed(h, es, key)
    ensures WaitsOnly(Run(h, s, es), filing, key, expiry) && Run(h, s, es).now == s.now + Elapsed(es)
    decreases |es|
  {
    hide NormalizeToken;
    if es != [] {
      assert Undisturbed(h, es[0], key);
      assert AllUndisturbed(h, es[1..], key);
      WaitsUndisturbed(h, Apply(h, s, es[0]), es[1..], filing, key, expiry);
    }
  }

  lemma EntryWaits(h: Digest, s: State, key: string)
    requires Consistent(h, s) && key in s.cache
    ensures WaitsOnly(s, s.cache[key].filing, key, s.cache[key].expiry)
  {
    hide NormalizeToken;
    assert EntryConsistent(h, s, key);
    forall k | k in s.cache && s.cache[k].filing == s.cache[key].filing ensures k == key {
      if k != key {
        OtherEntry(h, s, k, key);
      }
    }
  }

  lemma FiledWaits(h: Digest, before: seq<Event>, uid: string, idToken: string, reference: string)
    requires NormalizeToken(h, Some(uid)) == Some(idToken) && reference != ""
    ensures
      var s := Run(h, Init(), before);
      && WaitsOnly(FileReference(h, s, uid, reference), |s.filings|, idToken, s.now + 60)
      && FileReference(h, s, uid, reference).now == s.now && idToken != ""
  {
    var s := Run(h, Init(), before);
    var filed := FileReference(h, s, uid, reference);
    assert filed.cache[idToken] == Entry(|s.filings|, reference, s.now + TTL) && idToken != "";
    assert filed.now == s.now;
    RunKeepsConsistent(h, Init(), before);
    FileKeepsConsistent(h, s, uid, reference);
    hide *;
    EntryWaits(h, filed, idToken);
  }

  /** A reference is taken from the cache for the transaction that finds it, even when that one's write fails: it then
      reaches no transaction at all, in any later run. */
  lemma FailedWriteLosesReference(h: Digest, before: seq<Event>, uid: string, idToken: string, reference: string,
                                  between: seq<Event>, transaction: nat, later: seq<Event>)
    requires NormalizeToken(h, Some(uid)) == Some(idToken) && reference != ""
    requires AllUndisturbed(h, between, idToken)
    ensures
      var s := Run(h, Init(), before);
      var reached := Run(h, FileReference(h, s, uid, reference), between);
      var inserted := InsertTransaction(reached, transaction, idToken, false);
      && inserted == reached.(cache := reached.cache - {idToken})
      && Gone(Run(h, inserted, later), |s.filings|)
  {
    var s := Run(h, Init(), before);
    hide NormalizeToken, FileReference, Run;
    FiledWaits(h, before, uid, idToken, reference);
    WaitsUndisturbed(h, FileReference(h, s, uid, reference), between, |s.filings|, idToken, s.now + 60);
    var reached := Run(h, FileReference(h, s, uid, reference), between);
    GoneStaysGone(h, InsertTransaction(reached, transaction, idToken, false), later, |s.filings|);
  }

  lemma ExpiryMakesGone(h: Digest, s: State, key: string, filing: nat, expiry: nat)
    requires WaitsOnly(s, filing, key, expiry) && expiry <= s.now
    ensures Gone(Apply(h, s, ExpireEvent(key)), filing)
  {
  }

  /** A reference that no transaction has found after 60 seconds can expire; it then reaches none either. */
  lemma ExpiredReferenceIsLost(h: Digest, before: seq<Event>, uid: string, idToken: string, reference: string,
                               between: seq<Event>, later: seq<Event>)
    requires NormalizeToken(h, Some(uid)) == Some(idToken) && reference != ""
    requires AllUndisturbed(h, between, idToken) && Elapsed(between) >= 60
    ensures
      var s := Run(h, Init(), before);
      var reached := Run(h, FileReference(h, s, uid, reference), between);
      Gone(Run(h, Apply(h, reached, ExpireEvent(idToken)), later), |s.filings|)
  {
    var s := Run(h, Init(), before);
    hide *;
    FiledWaits(h, before, uid, idToken, reference);
    WaitsUndisturbed(h, FileReference(h, s, uid, reference), between, |s.filings|, idToken, s.now + 60);
    var reached := Run(h, FileReference(h, s, uid, reference), between);
    ExpiryMakesGone(h, reached, idToken, |s.filings|, s.now + 60);
    GoneStaysGone(h, Apply(h, reached, ExpireEvent(idToken)), later, |s.filings|);
  }

  /** End to end, over runs: a reference filed with the uid the partner was shown for an upserted row
      reaches the next transaction authorized by that row, if that starts within the time to live and no
      other reference is filed for the row meanwhile; and no other transaction, then or later. */
  lemma ReferenceReachesTransaction(h: Digest, store: Tokens.Store, calls: seq<Tokens.Call>, row: Tokens.Row,
                                    before: seq<Event>, reference: string, between: seq<Event>, transaction: nat,
                                    later: seq<Event>)
    requires AllAgree(h, store) && Tokens.IsRun(h, store, calls) && UidsKept(h, calls)
    requires row in Tokens.Run(h, store, calls).rows && exists c :: c in calls && Tokens.Upserts(h, c, row.key)
    requires reference != "" && AllUndisturbed(h, between, row.key.idToken) && Elapsed(between) < 60
    ensures row.key.partner in Tokens.Run(h, store, calls).partners
    ensures
      var dto := Tokens.ToDto(Tokens.Run(h, store, calls), row);
      && dto.Ok?
      && var s := Run(h, Init(), before);
         var reached := Run(h, FileReference(h, s, dto.value.uid, reference), between);
         var inserted := InsertTransaction(reached, transaction, row.key.idToken, true);
         && CustomDataOf(inserted, transaction)
           == CustomDataOf(reached, transaction)["authorization_reference" := reference]
         && AttachedOnlyTo(Run(h, inserted, later), |s.filings|, transaction)
         && |s.filings| < |inserted.filings| && inserted.filings[|s.filings|] == Filing(dto.value.uid, reference)
  {
    SameKeyOverRuns(h, store, calls, row);
    var uid := Tokens.ToDto(Tokens.Run(h, store, calls), row).value.uid;
    hide *;
    FiledIsAttached(h, before, uid, row.key.idToken, reference, between, transaction, later);
  }

  // ---------- The handlers ----------

  /** The cache shared by the executor and the sessions module, and the transactions table. */
  class ReferenceHandoff {
    const digest: Digest
    var now: nat
    var cache: map<string, Entry>
    ghost var filings: seq<Filing>
    ghost var attachments: seq<Attachment>
    var serial: nat
    var customData: map<nat, CustomData>

    ghost predicate Valid()
      reads this
    {
      serial == |filings|
    }

    ghost function Current(): State
      reads this
    {
      State(now, cache, filings, attachments, customData)
    }

    constructor (digest: Digest)
      ensures Valid() && Current() == Init()
    {
      this.digest := digest;
      now, cache, serial, customData := 0, map[], 0, map[];
      filings, attachments := [], [];
    }

    /** What executeStartSession does after sending. */
    method FileReferenceOf(uid: string, reference: string)
      requires Valid()
      modifies this
      ensures Valid() && Current() == FileReference(digest, old(Current()), uid, reference)
    {
      if uid == "" || reference == "" {
        return;
      }
      var key := NormalizeToken(digest, Some(uid)).GetOr("");
      cache := cache[key := Entry(serial, reference, now + TTL)];
      filings := filings + [Filing(uid, reference)];
      serial := serial + 1;
    }

    /** Returns the custom data of the DTO to broadcast. */
    method HandleTransactionInsert(transaction: nat, idToken: string, writeSucceeds: bool)
      returns (dto: Option<CustomData>)
      requires Valid()
      modifies this
      ensures Valid() && Current() == InsertTransaction(old(Current()), transaction, idToken, writeSucceeds)
      ensures dto == BroadcastData(old(Current()), transaction, idToken, writeSucceeds)
    {
      dto := if transaction in customData then Some(customData[transaction]) else None;
      if idToken == "" {
        return;
      }
      var found: Option<Entry> := if idToken in cache then Some(cache[idToken]) else None;
      cache := cache - {idToken};
      if found.Some? && found.value.reference != "" {
        var data := dto.GetOr(map[])[FIELD := found.value.reference];
        if dto.Some? {
          dto := Some(data);
        }
        if writeSucceeds {
          customData := customData[transaction := data];
          attachments := attachments + [Attachment(transaction, idToken, found.value.filing)];
          dto := Some(data);
        }
      }
    }
  }
}
