/** The token store: find-or-create, upsert and patch over the Authorizations table
    (00_Base/src/services/TokensService.ts). */
module TokensService {
  import opened Wrappers
  import opened TokensMapper

  datatype Key = Key(idToken: string, idTokenType: IdTokenType, partner: int)

  datatype Row = Row(
    id: nat,
    key: Key,
    tenantId: int,
    additionalInfo: Option<seq<Info>>,
    customData: Option<string>,
    status: Status,
    language1: Option<string>,
    groupAuthorizationId: Option<nat>,
    realTimeAuth: Option<RealTimeAuth>,
    createdAt: int,
    updatedAt: int)

  datatype Partner = Partner(countryCode: string, partyId: string)

  /** The table, in insertion order, with the partners its rows belong to. */
  datatype Store = Store(rows: seq<Row>, nextId: nat, partners: map<int, Partner>)

  /** The store after a call, and what the call returned or threw. */
  datatype Outcome = Outcome(store: Store, result: Result<Token>)

  // ---------- Queries ----------

  function First(rows: seq<Row>, k: Key): (row: Option<Row>)
    ensures row.Some? ==> row.value in rows && row.value.key == k
    ensures row.None? ==> forall r :: r in rows ==> r.key != k
  {
    if rows == [] then None
    else if rows[0].key == k then Some(rows[0])
    else First(rows[1..], k)
  }

  function ById(rows: seq<Row>, id: nat): (row: Option<Row>)
    ensures row.Some? ==> row.value in rows && row.value.id == id
    ensures row.None? ==> forall r :: r in rows ==> r.id != id
  {
    if rows == [] then None
    else if rows[0].id == id then Some(rows[0])
    else ById(rows[1..], id)
  }

  /** The rows of one idToken and type whose partner has the given country and party. */
  function FirstOfParty(s: Store, rows: seq<Row>, idToken: string, kind: IdTokenType,
                        party: Partner): (row: Option<Row>)
    ensures row.Some? ==> row.value in rows && MatchesParty(s, row.value, idToken, kind, party)
    ensures row.None? ==> forall r :: r in rows ==> !MatchesParty(s, r, idToken, kind, party)
  {
    if rows == [] then None
    else if MatchesParty(s, rows[0], idToken, kind, party) then Some(rows[0])
    else FirstOfParty(s, rows[1..], idToken, kind, party)
  }

  predicate MatchesParty(s: Store, row: Row, idToken: string, kind: IdTokenType, party: Partner) {
    && row.key.idToken == idToken && row.key.idTokenType == kind
    && row.key.partner in s.partners && s.partners[row.key.partner] == party
  }

  // ---------- Mutations ----------

  /** A set input; an absent field leaves its column alone. */
  datatype SetInput = SetInput(
    additionalInfo: Option<seq<Info>>,
    customData: Option<string>,
    status: Status,
    language1: Option<string>,
    groupAuthorizationId: Option<nat>,
    realTimeAuth: Option<Option<RealTimeAuth>>,
    updatedAt: int)

  function Or<T>(update: Option<T>, column: Option<T>): Option<T> {
    if update.Some? then update else column
  }

  function ApplySet(row: Row, set_: SetInput): (updated: Row)
    ensures updated.id == row.id && updated.key == row.key
  {
    row.(
    additionalInfo := Or(set_.additionalInfo, row.additionalInfo),
    customData := Or(set_.customData, row.customData),
    status := set_.status,
    language1 := Or(set_.language1, row.language1),
    groupAuthorizationId := Or(set_.groupAuthorizationId, row.groupAuthorizationId),
    realTimeAuth := set_.realTimeAuth.GetOr(row.realTimeAuth),
    updatedAt := set_.updatedAt)
  }

  /** The update touches every row with the key. */
  function UpdateRows(rows: seq<Row>, k: Key, set_: SetInput): (updated: seq<Row>)
    ensures |updated| == |rows|
    ensures forall i :: 0 <= i < |rows| ==> updated[i].key == rows[i].key && updated[i].id == rows[i].id
  {
    seq(|rows|, i requires 0 <= i < |rows| => UpdateRow(rows[i], k, set_))
  }

  function UpdateRow(row: Row, k: Key, set_: SetInput): (updated: Row)
    ensures updated.id == row.id && updated.key == row.key
  {
    if row.key == k then ApplySet(row, set_) else row
  }

  function InsertRow(s: Store, row: Row): Store {
    s.(rows := s.rows + [row.(id := s.nextId)], nextId := s.nextId + 1)
  }

  // ---------- Reading a row as a token ----------

  function OriginalUid(row: Row): string {
    if Given(row.customData) then row.customData.value else row.key.idToken
  }

  function InfoValue(row: Row, kind: InfoKind): Option<string> {
    if row.additionalInfo.None? then None else FindInfo(row.additionalInfo.value, kind)
  }

  function GroupOf(s: Store, row: Row): Option<string> {
    if row.groupAuthorizationId.None? then None
    else
      var group := ById(s.rows, row.groupAuthorizationId.value);
      if group.Some? then Some(group.value.key.idToken) else None
  }

  function ToDto(s: Store, row: Row): Result<Token>
    requires row.key.partner in s.partners
  {
    var kind := ToTokenType(row.key.idTokenType);
    if kind.Err? then Err(kind.message)
    else if !Given(InfoValue(row, EMAID)) then Err("Contract ID not found")
    else if !Given(InfoValue(row, VISUAL_NUMBER)) then Err("Visual number not found")
    else if !Given(InfoValue(row, ISSUER)) then Err("Issuer not found")
    else
      var partner := s.partners[row.key.partner];
      Ok(Token(
           partner.countryCode, partner.partyId, OriginalUid(row), kind.value,
           InfoValue(row, EMAID).value, InfoValue(row, VISUAL_NUMBER), InfoValue(row, ISSUER).value,
           GroupOf(s, row), row.status == Accepted, MapRealTimeEnumType(row.realTimeAuth), row.language1,
           row.updatedAt))
  }

  // ---------- The service ----------

  function GroupKey(groupId: string, partner: int): Key {
    Key(groupId, Central, partner)
  }

  function GroupRow(groupId: string, tenantId: int, partner: int, now: int): Row {
    Row(0, GroupKey(groupId, partner), tenantId, None, None, Invalid, None, None, None, now, now)
  }

  /** Finds or creates the group's own row. */
  function HandleGroupAuthorization(s: Store, groupId: string, tenantId: int, partner: int, now: int): (r: (Store, nat))
    ensures r.0.partners == s.partners
  {
    var existing := First(s.rows, GroupKey(groupId, partner));
    if existing.Some? then (s, existing.value.id)
    else (InsertRow(s, GroupRow(groupId, tenantId, partner, now)), s.nextId)
  }

  function HandleOptionalGroup(s: Store, groupId: Option<string>, tenantId: int, partner: int,
                               now: int): (r: (Store, Option<nat>))
    ensures r.0.partners == s.partners
  {
    if Given(groupId) then
      var (s', id) := HandleGroupAuthorization(s, groupId.value, tenantId, partner, now);
      (s', Some(id))
    else (s, None)
  }

  /** `realTimeAuth || 'Always'` */
  function OrAlways(auth: Option<Option<RealTimeAuth>>): Option<RealTimeAuth> {
    if auth.Some? && auth.value.Some? then auth.value else Some(Always)
  }

  function UpsertSet(a: PartialAuthorization, group: Option<nat>, updatedAt: int): SetInput {
    SetInput(a.additionalInfo, a.customData, a.status, a.language1, group, Some(OrAlways(a.realTimeAuth)), updatedAt)
  }

  function NewRow(a: PartialAuthorization, k: Key, tenantId: int, group: Option<nat>, timestamp: int): Row {
    Row(0, k, tenantId, a.additionalInfo, a.customData, a.status, a.language1, group, OrAlways(a.realTimeAuth),
      timestamp, timestamp)
  }

  function KeyOf(h: Digest, uid: string, kind: TokenType, partner: int): Key {
    Key(NormalizeToken(h, Some(uid)).GetOr(""), ToIdTokenType(kind), partner)
  }

  /** Writes through the key and returns the first row written. */
  function WriteRows(s: Store, k: Key, set_: SetInput): (outcome: Outcome)
    requires k.partner in s.partners
    ensures outcome.store.partners == s.partners
  {
    var s' := s.(rows := UpdateRows(s.rows, k, set_));
    var first := First(s'.rows, k);
    Outcome(s', if first.Some? then ToDto(s', first.value) else Err("No row returned"))
  }

  function UpsertToken(h: Digest, s: Store, token: Token, tenantId: int, partner: int, now: int): (outcome: Outcome)
    requires partner in s.partners
    ensures outcome.store.partners == s.partners
  {
    if token.uid == "" then Outcome(s, Err("Variable idToken is required"))
    else
      var a := AuthorizationOf(h, AsPartial(token));
      var k := KeyOf(h, token.uid, token.kind, partner);
      var existing := First(s.rows, k);
      var (s1, group) := HandleOptionalGroup(s, token.groupId, tenantId, partner, now);
      if existing.Some? then WriteRows(s1, k, UpsertSet(a, group, token.lastUpdated))
      else
        var s2 := InsertRow(s1, NewRow(a, k, tenantId, group, token.lastUpdated));
        Outcome(s2, ToDto(s2, s2.rows[|s2.rows| - 1]))
  }

  function PatchedInfo(update: Option<seq<Info>>, column: Option<seq<Info>>): Option<seq<Info>> {
    if update.None? then None
    else if column.Some? then Some(MergedInfo(update.value, column.value))
    else update
  }

  function PatchSet(a: PartialAuthorization, existing: Row, group: Option<nat>, updatedAt: int): SetInput {
    SetInput(
      PatchedInfo(a.additionalInfo, existing.additionalInfo), a.customData, a.status,
      if Given(a.language1) then a.language1 else None, group, a.realTimeAuth, updatedAt)
  }

  function PatchToken(h: Digest, s: Store, uid: string, kind: TokenType, body: PartialToken, tenantId: int,
                      partner: int, now: int): (outcome: Outcome)
    requires partner in s.partners
    ensures outcome.store.partners == s.partners
  {
    if body.lastUpdated.None? then Outcome(s, Err("Tokens PATCH must contain last_updated."))
    else
      var a := AuthorizationOf(h, body);
      var k := KeyOf(h, uid, kind, partner);
      var existing := First(s.rows, k);
      if existing.None? then Outcome(s, Err("Unknown token"))
      else
        var (s1, group) := HandleOptionalGroup(s, body.groupId, tenantId, partner, now);
        WriteRows(s1, k, PatchSet(a, existing.value, group, body.lastUpdated.value))
  }

  function GetToken(h: Digest, s: Store, uid: string, kind: Option<TokenType>, party: Partner): Result<Option<Token>> {
    var row := FirstOfParty(s, s.rows, NormalizeToken(h, Some(uid)).GetOr(""), ToIdTokenType(kind.GetOr(RFID)), party);
    if row.None? then Ok(None)
    else
      var dto := ToDto(s, row.value);
      if dto.Ok? then Ok(Some(dto.value)) else Err(dto.message)
  }

  // ---------- Invariants of the table ----------

  ghost predicate UniqueKeys(rows: seq<Row>) {
    forall i, j :: 0 <= i < j < |rows| ==> rows[i].key != rows[j].key
  }

  ghost predicate UniqueIds(s: Store) {
    && (forall i :: 0 <= i < |s.rows| ==> s.rows[i].id < s.nextId)
    && forall i, j :: 0 <= i < j < |s.rows| ==> s.rows[i].id != s.rows[j].id
  }

  ghost predicate KnownPartners(s: Store) {
    forall r :: r in s.rows ==> r.key.partner in s.partners
  }

  ghost predicate Good(s: Store) {
    UniqueKeys(s.rows) && UniqueIds(s) && KnownPartners(s)
  }

  /** A first-time APP_USER token whose normalised uid is its own group id. */
  predicate SelfGroup(h: Digest, s: Store, token: Token, partner: int) {
    && Given(token.groupId)
    && KeyOf(h, token.uid, token.kind, partner) == GroupKey(token.groupId.value, partner)
    && First(s.rows, KeyOf(h, token.uid, token.kind, partner)).None?
  }

  lemma FirstUnique(rows: seq<Row>, row: Row)
    requires UniqueKeys(rows) && row in rows
    ensures First(rows, row.key) == Some(row)
  {
    var first := First(rows, row.key);
    var i :| 0 <= i < |rows| && rows[i] == row;
    var j :| 0 <= j < |rows| && rows[j] == first.value;
    assert i == j;
  }

  lemma FirstAppend(rows: seq<Row>, row: Row, k: Key)
    ensures First(rows + [row], k)
            == if First(rows, k).Some? then First(rows, k) else if row.key == k then Some(row) else None
  {
    if rows != [] {
      assert (rows + [row])[1..] == rows[1..] + [row];
      FirstAppend(rows[1..], row, k);
    }
  }

  lemma ByIdAppend(rows: seq<Row>, row: Row, id: nat)
    ensures ById(rows + [row], id)
            == if ById(rows, id).Some? then ById(rows, id) else if row.id == id then Some(row) else None
  {
    if rows != [] {
      assert (rows + [row])[1..] == rows[1..] + [row];
      ByIdAppend(rows[1..], row, id);
    }
  }

  lemma FirstUpdate(rows: seq<Row>, k: Key, set_: SetInput, k': Key)
    ensures First(UpdateRows(rows, k, set_), k')
         == if First(rows, k').None? then None else Some(UpdateRow(First(rows, k').value, k, set_))
  {
    if rows != [] {
      assert UpdateRows(rows, k, set_)[1..] == UpdateRows(rows[1..], k, set_);
      FirstUpdate(rows[1..], k, set_, k');
    }
  }

  lemma InsertKeepsIds(s: Store, row: Row)
    requires UniqueIds(s) && KnownPartners(s) && row.key.partner in s.partners
    ensures UniqueIds(InsertRow(s, row)) && KnownPartners(InsertRow(s, row))
  {
  }

  lemma InsertKeepsUniqueIff(s: Store, row: Row)
    requires UniqueKeys(s.rows)
    ensures UniqueKeys(InsertRow(s, row).rows) <==> First(s.rows, row.key).None?
  {
    var rows := InsertRow(s, row).rows;
    var first := First(s.rows, row.key);
    if first.Some? {
      var i :| 0 <= i < |s.rows| && s.rows[i] == first.value;
      assert rows[i].key == rows[|s.rows|].key;
    }
  }

  /** After the group step: the invariants hold, the group row is found again, and any other key
      is found as before. */
  lemma GroupStep(s: Store, groupId: Option<string>, tenantId: int, partner: int, now: int)
    requires Good(s) && partner in s.partners
    ensures
      var (s', id) := HandleOptionalGroup(s, groupId, tenantId, partner, now);
      && Good(s') && s'.partners == s.partners
      && (forall k :: First(s.rows, k).Some? ==> First(s'.rows, k) == First(s.rows, k))
      && (forall r :: r in s'.rows ==>
            || r in s.rows
            || (Given(groupId) && r.key == Key(groupId.value, Central, partner)
                && r.additionalInfo == None && r.customData == None && r.tenantId == tenantId && r.status == Invalid
                && r.createdAt == r.updatedAt == now))
      && (Given(groupId) ==>
            && id.Some? && First(s'.rows, Key(groupId.value, Central, partner)).Some?
            && First(s'.rows, Key(groupId.value, Central, partner)).value.id == id.value
            && ById(s'.rows, id.value) == First(s'.rows, Key(groupId.value, Central, partner)))
      && (!Given(groupId) ==> s' == s && id == None)
      && (forall k :: First(s.rows, k).None? && First(s'.rows, k).Some? ==>
            Given(groupId) && k == Key(groupId.value, Central, partner))
  {
    if Given(groupId) {
      var k := GroupKey(groupId.value, partner);
      var row := GroupRow(groupId.value, tenantId, partner, now);
      var existing := First(s.rows, k);
      if existing.Some? {
        ByIdUnique(s, existing.value);
      } else {
        var s' := InsertRow(s, row);
        InsertKeepsIds(s, row);
        InsertKeepsUniqueIff(s, row);
        forall k' ensures First(s'.rows, k')
          == if First(s.rows, k').Some? then First(s.rows, k') else if k == k' then Some(row.(id := s.nextId))
          else None {
          FirstAppend(s.rows, row.(id := s.nextId), k');
        }
        ByIdAppend(s.rows, row.(id := s.nextId), s.nextId);
      }
    }
  }

  lemma ByIdUnique(s: Store, row: Row)
    requires UniqueIds(s) && row in s.rows
    ensures ById(s.rows, row.id) == Some(row)
  {
    var found := ById(s.rows, row.id);
    var i :| 0 <= i < |s.rows| && s.rows[i] == row;
    var j :| 0 <= j < |s.rows| && s.rows[j] == found.value;
    assert i == j;
  }

  lemma UpdateKeepsGood(s: Store, k: Key, set_: SetInput)
    requires Good(s)
    ensures Good(s.(rows := UpdateRows(s.rows, k, set_)))
  {
    var rows := UpdateRows(s.rows, k, set_);
    forall r | r in rows ensures r.key.partner in s.partners {
      var i :| 0 <= i < |rows| && rows[i] == r;
      assert s.rows[i] in s.rows;
    }
  }

  // ---------- Key uniqueness ----------

  /** From unique keys, an upsert keeps keys unique exactly when the token is not a first-time
      member of a group bearing its own key. */
  lemma UpsertKeepsKeysUniqueIff(h: Digest, s: Store, token: Token, tenantId: int, partner: int, now: int)
    requires Good(s) && partner in s.partners && token.uid != ""
    ensures
      var s' := UpsertToken(h, s, token, tenantId, partner, now).store;
      && UniqueIds(s') && KnownPartners(s') && s'.partners == s.partners
      && (UniqueKeys(s'.rows) <==> !SelfGroup(h, s, token, partner))
  {
    var a := AuthorizationOf(h, AsPartial(token));
    var k := KeyOf(h, token.uid, token.kind, partner);
    GroupStep(s, token.groupId, tenantId, partner, now);
    var (s1, group) := HandleOptionalGroup(s, token.groupId, tenantId, partner, now);
    if First(s.rows, k).Some? {
      UpdateKeepsGood(s1, k, UpsertSet(a, group, token.lastUpdated));
    } else {
      var row := NewRow(a, k, tenantId, group, token.lastUpdated);
      InsertKeepsIds(s1, row);
      InsertKeepsUniqueIff(s1, row);
    }
  }

  lemma PatchKeepsGood(h: Digest, s: Store, uid: string, kind: TokenType, body: PartialToken, tenantId: int,
                       partner: int, now: int)
    requires Good(s) && partner in s.partners
    ensures
      var s' := PatchToken(h, s, uid, kind, body, tenantId, partner, now).store;
      Good(s') && s'.partners == s.partners
  {
    var k := KeyOf(h, uid, kind, partner);
    var existing := First(s.rows, k);
    if body.lastUpdated.Some? && existing.Some? {
      GroupStep(s, body.groupId, tenantId, partner, now);
      var (s1, group) := HandleOptionalGroup(s, body.groupId, tenantId, partner, now);
      UpdateKeepsGood(s1, k, PatchSet(AuthorizationOf(h, body), existing.value, group, body.lastUpdated.value));
    }
  }

  // ---------- Round trip and idempotence ----------

  /** What a partner reads back: its own country and party, the visual number defaulting to the
      contract id, an empty group id dropped. */
  function Stored(token: Token, partner: Partner): Token {
    token.(
    countryCode := partner.countryCode,
    partyId := partner.partyId,
    visualNumber := if Given(token.visualNumber) then token.visualNumber else Some(token.contractId),
    groupId := if Given(token.groupId) then token.groupId else None)
  }

  /** The fields an upsert needs; a type OTHER does not map back. */
  predicate Mappable(token: Token) {
    token.uid != "" && token.contractId != "" && token.issuer != "" && !token.kind.OTHER?
  }

  lemma InfoOfMappable(token: Token)
    requires token.contractId != "" && token.issuer != ""
    ensures
      var info := InfoOf(AsPartial(token));
      && info != [] && CompleteInfo(info)
      && FindInfo(info, EMAID) == Some(token.contractId)
      && FindInfo(info, VISUAL_NUMBER)
        == (if Given(token.visualNumber) then token.visualNumber else Some(token.contractId))
      && FindInfo(info, ISSUER) == Some(token.issuer)
  {
    InfoOfFinds(AsPartial(token));
  }

  lemma NewRowReads(h: Digest, s: Store, row: Row, token: Token, tenantId: int, group: Option<nat>)
    requires row.key.partner in s.partners && Mappable(token)
    requires row == NewRow(AuthorizationOf(h, AsPartial(token)), KeyOf(h, token.uid, token.kind, row.key.partner),
             tenantId, group, token.lastUpdated).(id := row.id)
    requires GroupOf(s, row) == if Given(token.groupId) then token.groupId else None
    ensures ToDto(s, row) == Ok(Stored(token, s.partners[row.key.partner]))
  {
    hide InfoOf, FindInfo, NormalizeToken, CompleteInfo, GroupOf;
    InfoOfMappable(token);
    assert OriginalUid(row) == token.uid;
  }

  /** A first upsert returns the same token on its stored fields. */
  lemma FirstUpsertRoundTrip(h: Digest, s: Store, token: Token, tenantId: int, partner: int, now: int)
    requires Good(s) && partner in s.partners && Mappable(token)
    requires First(s.rows, KeyOf(h, token.uid, token.kind, partner)).None?
    ensures UpsertToken(h, s, token, tenantId, partner, now).result == Ok(Stored(token, s.partners[partner]))
  {
    var a := AuthorizationOf(h, AsPartial(token));
    var k := KeyOf(h, token.uid, token.kind, partner);
    GroupStep(s, token.groupId, tenantId, partner, now);
    var (s1, group) := HandleOptionalGroup(s, token.groupId, tenantId, partner, now);
    var row := NewRow(a, k, tenantId, group, token.lastUpdated).(id := s1.nextId);
    var s2 := InsertRow(s1, row);
    if group.Some? {
      ByIdAppend(s1.rows, row, group.value);
    }
    NewRowReads(h, s2, row, token, tenantId, group);
    assert UpsertToken(h, s, token, tenantId, partner, now) == Outcome(s2, ToDto(s2, row));
  }

  lemma SetTwice(row: Row, k: Key, set_: SetInput)
    ensures UpdateRow(UpdateRow(row, k, set_), k, set_) == UpdateRow(row, k, set_)
  {
  }

  /** A second group step finds what the first made. */
  lemma GroupAgain(s: Store, groupId: Option<string>, id: Option<nat>, tenantId: int, partner: int, now: int)
    requires Given(groupId) ==>
               First(s.rows, GroupKey(groupId.value, partner)).Some?
               && id == Some(First(s.rows, GroupKey(groupId.value, partner)).value.id)
    requires !Given(groupId) ==> id == None
    ensures HandleOptionalGroup(s, groupId, tenantId, partner, now) == (s, id)
  {
  }

  /** What the group step leaves behind: the group is found again under the id it returned. */
  ghost predicate GroupFound(rows: seq<Row>, groupId: Option<string>, partner: int, group: Option<nat>) {
    if Given(groupId) then
      && First(rows, GroupKey(groupId.value, partner)).Some?
      && group == Some(First(rows, GroupKey(groupId.value, partner)).value.id)
    else group == None
  }

  lemma WrittenAgain(s: Store, k: Key, set_: SetInput, groupId: Option<string>, group: Option<nat>, tenantId: int,
                     partner: int, now: int)
    requires k.partner in s.partners && First(s.rows, k).Some? && GroupFound(s.rows, groupId, partner, group)
    ensures
      var once := WriteRows(s, k, set_);
      && First(once.store.rows, k).Some?
      && HandleOptionalGroup(once.store, groupId, tenantId, partner, now) == (once.store, group)
      && WriteRows(once.store, k, set_) == once
  {
    hide ToDto, ApplySet;
    var once := WriteRows(s, k, set_);
    FirstUpdate(s.rows, k, set_, k);
    if Given(groupId) {
      FirstUpdate(s.rows, k, set_, GroupKey(groupId.value, partner));
    }
    GroupAgain(once.store, groupId, group, tenantId, partner, now);
    forall i | 0 <= i < |s.rows| ensures UpdateRow(once.store.rows[i], k, set_) == once.store.rows[i] {
      SetTwice(s.rows[i], k, set_);
    }
    assert UpdateRows(once.store.rows, k, set_) == once.store.rows;
  }

  lemma CreatedAgain(s: Store, row: Row, set_: SetInput, groupId: Option<string>, group: Option<nat>, tenantId: int,
                     partner: int, now: int)
    requires row.key.partner in s.partners && First(s.rows, row.key).None?
             && GroupFound(s.rows, groupId, partner, group)
    requires forall r: Row :: r == row.(id := r.id) ==> ApplySet(r, set_) == r
    ensures
      var s' := InsertRow(s, row);
      && First(s'.rows, row.key) == Some(s'.rows[|s.rows|])
      && HandleOptionalGroup(s', groupId, tenantId, partner, now) == (s', group)
      && WriteRows(s', row.key, set_) == Outcome(s', ToDto(s', s'.rows[|s.rows|]))
  {
    hide ToDto, ApplySet;
    var s', created := InsertRow(s, row), row.(id := s.nextId);
    FirstAppend(s.rows, created, row.key);
    if Given(groupId) {
      FirstAppend(s.rows, created, GroupKey(groupId.value, partner));
    }
    GroupAgain(s', groupId, group, tenantId, partner, now);
    assert ApplySet(created, set_) == created;
    assert UpdateRows(s'.rows, row.key, set_) == s'.rows;
  }

  /** Repeating an upsert changes nothing and returns the same. */
  lemma UpsertIdempotent(h: Digest, s: Store, token: Token, tenantId: int, partner: int, now: int, later: int)
    requires Good(s) && partner in s.partners && token.uid != "" && !SelfGroup(h, s, token, partner)
    ensures
      var once := UpsertToken(h, s, token, tenantId, partner, now);
      UpsertToken(h, once.store, token, tenantId, partner, later) == once
  {
    var a := AuthorizationOf(h, AsPartial(token));
    var k := KeyOf(h, token.uid, token.kind, partner);
    GroupStep(s, token.groupId, tenantId, partner, now);
    var (s1, group) := HandleOptionalGroup(s, token.groupId, tenantId, partner, now);
    var set_, row := UpsertSet(a, group, token.lastUpdated), NewRow(a, k, tenantId, group, token.lastUpdated);
    assert forall r: Row :: r == row.(id := r.id) ==> ApplySet(r, set_) == r;
    hide AuthorizationOf, HandleOptionalGroup, NewRow, UpsertSet, ApplySet, WriteRows, InsertRow, Good;
    if First(s.rows, k).Some? {
      WrittenAgain(s1, k, set_, token.groupId, group, tenantId, partner, later);
    } else {
      CreatedAgain(s1, row, set_, token.groupId, group, tenantId, partner, later);
    }
  }

  /** A GET by uid and type, from a party no other partner shares, returns what the upsert stored. */
  lemma UpsertThenGet(h: Digest, s: Store, token: Token, tenantId: int, partner: int, now: int)
    requires Good(s) && partner in s.partners && token.uid != "" && !SelfGroup(h, s, token, partner)
    requires forall p :: p in s.partners && s.partners[p] == s.partners[partner] ==> p == partner
    ensures
      var upsert := UpsertToken(h, s, token, tenantId, partner, now);
      var got := GetToken(h, upsert.store, token.uid, Some(token.kind), s.partners[partner]);
      if upsert.result.Ok? then got == Ok(Some(upsert.result.value)) else got.Err?
  {
    UpsertKeepsKeysUniqueIff(h, s, token, tenantId, partner, now);
    var a := AuthorizationOf(h, AsPartial(token));
    var k := KeyOf(h, token.uid, token.kind, partner);
    GroupStep(s, token.groupId, tenantId, partner, now);
    var (s1, group) := HandleOptionalGroup(s, token.groupId, tenantId, partner, now);
    var s' := UpsertToken(h, s, token, tenantId, partner, now).store;
    if First(s.rows, k).Some? {
      FirstUpdate(s1.rows, k, UpsertSet(a, group, token.lastUpdated), k);
    } else {
      FirstAppend(s1.rows, s'.rows[|s1.rows|], k);
    }
    var row := First(s'.rows, k).value;
    assert MatchesParty(s', row, k.idToken, k.idTokenType, s.partners[partner]);
    var got := FirstOfParty(s', s'.rows, k.idToken, k.idTokenType, s.partners[partner]);
    FirstUnique(s'.rows, got.value);
    assert got.value.key == k;
  }

  /** What an upsert does to the rows found by key. */
  lemma UpsertEffect(h: Digest, s: Store, token: Token, tenantId: int, partner: int, now: int)
    requires Good(s) && partner in s.partners && token.uid != "" && !SelfGroup(h, s, token, partner)
    ensures
      var upsert := UpsertToken(h, s, token, tenantId, partner, now);
      var k := KeyOf(h, token.uid, token.kind, partner);
      var row := First(upsert.store.rows, k);
      && row.Some? && upsert.result == ToDto(upsert.store, row.value)
      && AuthorizationOf(h, AsPartial(token)).idToken == Some(k.idToken)
      && AuthorizationOf(h, AsPartial(token)).idTokenType == Some(k.idTokenType)
      && row.value.additionalInfo
         == (if InfoOf(AsPartial(token)) != [] then Some(InfoOf(AsPartial(token)))
             else if First(s.rows, k).Some? then First(s.rows, k).value.additionalInfo
             else None)
      && row.value.customData == Or(AuthorizationOf(h, AsPartial(token)).customData,
        if First(s.rows, k).Some? then First(s.rows, k).value.customData else None)
      && row.value.updatedAt == token.lastUpdated
      && row.value.realTimeAuth == Some(match token.whitelist
                                        case ALLOWED => Allowed
                                        case ALLOWED_OFFLINE => AllowedOffline
                                        case NEVER => Never
                                        case ALWAYS => Always)
      && (row.value.tenantId, row.value.createdAt)
         == (if First(s.rows, k).Some? then (First(s.rows, k).value.tenantId, First(s.rows, k).value.createdAt)
             else (tenantId, token.lastUpdated))
      && (forall k' :: k' != k && First(s.rows, k').Some? ==> First(upsert.store.rows, k') == First(s.rows, k'))
      && (forall k' :: k' != k && First(s.rows, k').None? && First(upsert.store.rows, k').Some? ==>
        First(upsert.store.rows, k').value.customData == None)
  {
    var a := AuthorizationOf(h, AsPartial(token));
    var k := KeyOf(h, token.uid, token.kind, partner);
    GroupStep(s, token.groupId, tenantId, partner, now);
    var (s1, group) := HandleOptionalGroup(s, token.groupId, tenantId, partner, now);
    var upsert := UpsertToken(h, s, token, tenantId, partner, now);
    if First(s.rows, k).Some? {
      var set_ := UpsertSet(a, group, token.lastUpdated);
      assert upsert == WriteRows(s1, k, set_);
      FirstUpdate(s1.rows, k, set_, k);
      forall k' | k' != k ensures First(upsert.store.rows, k') == First(s1.rows, k') {
        FirstUpdate(s1.rows, k, set_, k');
      }
    } else {
      var row := NewRow(a, k, tenantId, group, token.lastUpdated).(id := s1.nextId);
      assert upsert.store.rows == s1.rows + [row];
      forall k' ensures First(upsert.store.rows, k')
        == if First(s1.rows, k').Some? then First(s1.rows, k') else if k == k' then Some(row) else None {
        FirstAppend(s1.rows, row, k');
      }
    }
  }

  /** The three entries are there, so the row can be read if its type maps back. */
  predicate HasEntries(row: Row) {
    Given(InfoValue(row, EMAID)) && Given(InfoValue(row, VISUAL_NUMBER)) && Given(InfoValue(row, ISSUER))
  }

  /** When an upsert succeeds, in terms of the token and the row there was. */
  predicate Upsertable(h: Digest, s: Store, token: Token, partner: int) {
    var existing := First(s.rows, KeyOf(h, token.uid, token.kind, partner));
    if existing.Some? && InfoOf(AsPartial(token)) == [] then token.uid != "" && !token.kind.OTHER?
      && HasEntries(existing.value)
    else Mappable(token)
  }

  lemma KeyKind(h: Digest, token: Token, partner: int)
    ensures KeyOf(h, token.uid, token.kind, partner).idTokenType == ToIdTokenType(token.kind)
  {
  }

  lemma UpsertOverRow(h: Digest, s: Store, token: Token, tenantId: int, partner: int, now: int)
    requires Good(s) && partner in s.partners && token.uid != ""
    requires First(s.rows, KeyOf(h, token.uid, token.kind, partner)).Some?
    ensures UpsertToken(h, s, token, tenantId, partner, now).result.Ok? <==> Upsertable(h, s, token, partner)
  {
    hide UpsertToken, Good, AuthorizationOf, First, NormalizeToken, GroupOf, InfoOf;
    UpsertEffect(h, s, token, tenantId, partner, now);
    var info := InfoOf(AsPartial(token));
    InfoOfFinds(AsPartial(token));
    assert info == [] ==> FindInfo(info, EMAID).None?;
    hide FindInfo, KeyOf;
    var upsert := UpsertToken(h, s, token, tenantId, partner, now);
    var row := First(upsert.store.rows, KeyOf(h, token.uid, token.kind, partner)).value;
    assert upsert.result.Ok? <==> ToTokenType(row.key.idTokenType).Ok? && HasEntries(row);
    assert ToTokenType(row.key.idTokenType).Ok? <==> !token.kind.OTHER? by {
      KeyKind(h, token, partner);
    }
  }

  lemma UpsertOfNewRow(h: Digest, s: Store, token: Token, tenantId: int, partner: int, now: int)
    requires Good(s) && partner in s.partners && token.uid != ""
    requires First(s.rows, KeyOf(h, token.uid, token.kind, partner)).None?
    ensures UpsertToken(h, s, token, tenantId, partner, now).result.Ok? <==> Mappable(token)
  {
    if Mappable(token) {
      FirstUpsertRoundTrip(h, s, token, tenantId, partner, now);
    } else {
      InfoOfFinds(AsPartial(token));
      hide InfoOf, FindInfo, NormalizeToken, GroupOf, HandleOptionalGroup, Good;
      var upsert := UpsertToken(h, s, token, tenantId, partner, now);
      var row := upsert.store.rows[|upsert.store.rows| - 1];
      assert upsert.result == ToDto(upsert.store, row);
      assert row.additionalInfo.Some? ==> row.additionalInfo == Some(InfoOf(AsPartial(token)));
    }
  }

  /** An upsert succeeds exactly when the token has uid, contract id and issuer and is not of type OTHER,
      except that a token without any entry relies on those of the row there was. */
  lemma UpsertSucceedsIff(h: Digest, s: Store, token: Token, tenantId: int, partner: int, now: int)
    requires Good(s) && partner in s.partners
    ensures UpsertToken(h, s, token, tenantId, partner, now).result.Ok? <==> Upsertable(h, s, token, partner)
  {
    var k := KeyOf(h, token.uid, token.kind, partner);
    if token.uid != "" {
      if First(s.rows, k).Some? {
        UpsertOverRow(h, s, token, tenantId, partner, now);
      } else {
        UpsertOfNewRow(h, s, token, tenantId, partner, now);
      }
    }
  }

  // ---------- What a write returns ----------

  lemma {:induction false} ByIdUpdate(rows: seq<Row>, k: Key, set_: SetInput, id: nat)
    ensures
      var before, after := ById(rows, id), ById(UpdateRows(rows, k, set_), id);
      after.Some? == before.Some? && (before.Some? ==> after.value.key == before.value.key)
  {
    if rows != [] {
      assert UpdateRows(rows, k, set_)[1..] == UpdateRows(rows[1..], k, set_);
      ByIdUpdate(rows[1..], k, set_, id);
    }
  }

  /** The group of a row after a write: the one given, or the one the row had. */
  lemma WrittenGroup(s: Store, groupId: Option<string>, tenantId: int, partner: int, now: int, k: Key, set_: SetInput,
                     row: Row, row': Row)
    requires Good(s) && partner in s.partners
    requires set_.groupAuthorizationId == HandleOptionalGroup(s, groupId, tenantId, partner, now).1
    requires row'.groupAuthorizationId == Or(set_.groupAuthorizationId, row.groupAuthorizationId)
    ensures
      var s1 := HandleOptionalGroup(s, groupId, tenantId, partner, now).0;
      GroupOf(s1.(rows := UpdateRows(s1.rows, k, set_)), row') == if Given(groupId) then groupId else GroupOf(s, row)
  {
    GroupStep(s, groupId, tenantId, partner, now);
    var s1 := HandleOptionalGroup(s, groupId, tenantId, partner, now).0;
    hide HandleOptionalGroup, Good, ApplySet;
    if row'.groupAuthorizationId.Some? {
      ByIdUpdate(s1.rows, k, set_, row'.groupAuthorizationId.value);
    }
  }

  /** What a token read back says: whose it is, and each field that the token written gives; a short uid is the key's
      own unless the row keeps an original one. */
  ghost predicate Returns(r: Token, token: Token, s: Store, was: Option<Row>, partner: Partner) {
    && r.countryCode == partner.countryCode && r.partyId == partner.partyId && r.kind == token.kind
    && r.valid == token.valid && r.whitelist == token.whitelist && r.lastUpdated == token.lastUpdated
    && r.language == (if token.language.Some? || was.None? then token.language else was.value.language1)
    && r.groupId == (if Given(token.groupId) then token.groupId else if was.Some? then GroupOf(s, was.value) else None)
    && r.uid == (if |token.uid| <= 20 && was.Some? && Given(was.value.customData)
                 then was.value.customData.value else token.uid)
    && ReturnsEntries(r, token, was)
  }

  /** The three entries are the token's when it gives any, the visual number defaulting to the contract id. */
  ghost predicate ReturnsEntries(r: Token, token: Token, was: Option<Row>) {
    if token.contractId != "" || token.issuer != "" || Given(token.visualNumber) then
      && r.contractId == token.contractId && r.issuer == token.issuer
      && r.visualNumber == (if Given(token.visualNumber) then token.visualNumber else Some(token.contractId))
    else
      && was.Some? && InfoValue(was.value, EMAID) == Some(r.contractId)
      && InfoValue(was.value, ISSUER) == Some(r.issuer) && InfoValue(was.value, VISUAL_NUMBER) == r.visualNumber
  }

  /** An upsert that returns a token returns what was put, over new and existing rows alike; where the token gives
      nothing, the row's own value stays. */
  lemma UpsertReturns(h: Digest, s: Store, token: Token, tenantId: int, partner: int, now: int)
    requires Good(s) && partner in s.partners
    ensures
      var upsert := UpsertToken(h, s, token, tenantId, partner, now);
      upsert.result.Ok? ==>
        Returns(upsert.result.value, token, s, First(s.rows, KeyOf(h, token.uid, token.kind, partner)),
        s.partners[partner])
  {
    var k := KeyOf(h, token.uid, token.kind, partner);
    if token.uid != "" && UpsertToken(h, s, token, tenantId, partner, now).result.Ok? {
      if First(s.rows, k).None? {
        UpsertOfNewRow(h, s, token, tenantId, partner, now);
        FirstUpsertRoundTrip(h, s, token, tenantId, partner, now);
      } else {
        UpsertReturnsOver(h, s, token, tenantId, partner, now);
      }
    }
  }

  lemma UpsertReturnsOver(h: Digest, s: Store, token: Token, tenantId: int, partner: int, now: int)
    requires Good(s) && partner in s.partners && token.uid != ""
    requires First(s.rows, KeyOf(h, token.uid, token.kind, partner)).Some?
    requires UpsertToken(h, s, token, tenantId, partner, now).result.Ok?
    ensures Returns(UpsertToken(h, s, token, tenantId, partner, now).result.value, token, s,
            First(s.rows, KeyOf(h, token.uid, token.kind, partner)), s.partners[partner])
  {
    var k, a := KeyOf(h, token.uid, token.kind, partner), AuthorizationOf(h, AsPartial(token));
    var (s1, group) := HandleOptionalGroup(s, token.groupId, tenantId, partner, now);
    var set_, was := UpsertSet(a, group, token.lastUpdated), First(s.rows, k).value;
    var s' := s1.(rows := UpdateRows(s1.rows, k, set_));
    assert First(s'.rows, k) == Some(ApplySet(was, set_)) by {
      GroupStep(s, token.groupId, tenantId, partner, now);
      FirstUpdate(s1.rows, k, set_, k);
    }
    WrittenGroup(s, token.groupId, tenantId, partner, now, k, set_, was, ApplySet(was, set_));
    assert UpsertToken(h, s, token, tenantId, partner, now) == WriteRows(s1, k, set_);
    hide *;
    SetReturns(h, s, s', token, was, group);
  }

  lemma SetReturns(h: Digest, s: Store, s': Store, token: Token, was: Row, group: Option<nat>)
    requires token.uid != "" && was.key == KeyOf(h, token.uid, token.kind, was.key.partner)
    requires was.key.partner in s'.partners
    requires
      var row := ApplySet(was, UpsertSet(AuthorizationOf(h, AsPartial(token)), group, token.lastUpdated));
      && ToDto(s', row).Ok?
      && GroupOf(s', row) == if Given(token.groupId) then token.groupId else GroupOf(s, was)
    ensures
      var row := ApplySet(was, UpsertSet(AuthorizationOf(h, AsPartial(token)), group, token.lastUpdated));
      Returns(ToDto(s', row).value, token, s, Some(was), s'.partners[was.key.partner])
  {
    EntriesReturn(h, s', token, was, group);
    hide InfoOf, FindInfo, NormalizeToken, GroupOf, ReturnsEntries;
  }

  lemma EntriesReturn(h: Digest, s': Store, token: Token, was: Row, group: Option<nat>)
    requires was.key.partner in s'.partners
    ensures
      var row := ApplySet(was, UpsertSet(AuthorizationOf(h, AsPartial(token)), group, token.lastUpdated));
      ToDto(s', row).Ok? ==> ReturnsEntries(ToDto(s', row).value, token, Some(was))
  {
    InfoOfFinds(AsPartial(token));
    assert InfoOf(AsPartial(token)) != []
      <==> token.contractId != "" || token.issuer != "" || Given(token.visualNumber);
    hide InfoOf, FindInfo, NormalizeToken, GroupOf, MapRealTimeEnumType, MapWhitelistType, OrAlways;
  }

  /** What a token read back after a patch says: each field the body gives, and otherwise the row's; `valid` is only
      ever what the body says. */
  ghost predicate ReturnsPatched(r: Token, body: PartialToken, s: Store, was: Row, partner: Partner) {
    && r.countryCode == partner.countryCode && r.partyId == partner.partyId
    && body.lastUpdated == Some(r.lastUpdated) && (r.valid <==> body.valid == Some(true))
    && r.whitelist == (if body.whitelist.Some? then body.whitelist.value else MapRealTimeEnumType(was.realTimeAuth))
    && r.language == (if Given(body.language) then body.language else was.language1)
    && r.groupId == (if Given(body.groupId) then body.groupId else GroupOf(s, was))
    && r.uid == (if body.uid.Some? && |body.uid.value| > 20 then body.uid.value else OriginalUid(was))
  }

  lemma PatchReturns(h: Digest, s: Store, uid: string, kind: TokenType, body: PartialToken, tenantId: int,
                     partner: int, now: int)
    requires Good(s) && partner in s.partners
    ensures
      var patch, was := PatchToken(h, s, uid, kind, body, tenantId, partner, now), First(s.rows, KeyOf(h, uid, kind,
        partner));
      patch.result.Ok? ==>
        && was.Some? && patch.result.value.kind == kind
        && ReturnsPatched(patch.result.value, body, s, was.value, s.partners[partner])
  {
    var k := KeyOf(h, uid, kind, partner);
    var was := First(s.rows, k);
    if body.lastUpdated.Some? && was.Some? {
      var (s1, group) := HandleOptionalGroup(s, body.groupId, tenantId, partner, now);
      var set_ := PatchSet(AuthorizationOf(h, body), was.value, group, body.lastUpdated.value);
      var s', row := s1.(rows := UpdateRows(s1.rows, k, set_)), ApplySet(was.value, set_);
      assert First(s'.rows, k) == Some(row) by {
        GroupStep(s, body.groupId, tenantId, partner, now);
        FirstUpdate(s1.rows, k, set_, k);
      }
      WrittenGroup(s, body.groupId, tenantId, partner, now, k, set_, was.value, row);
      assert PatchToken(h, s, uid, kind, body, tenantId, partner, now) == Outcome(s', ToDto(s', row));
      assert was.value.key.idTokenType == ToIdTokenType(kind);
      hide *;
      if ToDto(s', row).Ok? {
        PatchSetReturns(h, s, s', body, was.value, group, kind);
      }
    }
  }

  lemma PatchSetReturns(h: Digest, s: Store, s': Store, body: PartialToken, was: Row, group: Option<nat>,
                        kind: TokenType)
    requires body.lastUpdated.Some? && was.key.partner in s'.partners && was.key.idTokenType == ToIdTokenType(kind)
    requires
      var row := ApplySet(was, PatchSet(AuthorizationOf(h, body), was, group, body.lastUpdated.value));
      ToDto(s', row).Ok? && GroupOf(s', row) == if Given(body.groupId) then body.groupId else GroupOf(s, was)
    ensures
      var row := ApplySet(was, PatchSet(AuthorizationOf(h, body), was, group, body.lastUpdated.value));
      && ToDto(s', row).value.kind == kind
      && ReturnsPatched(ToDto(s', row).value, body, s, was, s'.partners[was.key.partner])
  {
    hide InfoOf, FindInfo, MergedInfo, NormalizeToken, GroupOf;
  }

  /** A GET finds a token exactly when a row of its party has the id token and the type, RFID when none is asked for;
      what it returns is one of these rows. */
  lemma GetFindsIff(h: Digest, s: Store, uid: string, kind: Option<TokenType>, party: Partner)
    requires KnownPartners(s) && uid != ""
    ensures
      var idToken, idTokenType := NormalizeToken(h, Some(uid)).value,
        ToIdTokenType(if kind.Some? then kind.value else RFID);
      var got := GetToken(h, s, uid, kind, party);
      && (got == Ok(None)
          <==> forall r :: r in s.rows ==>
                 r.key.idToken != idToken || r.key.idTokenType != idTokenType || s.partners[r.key.partner] != party)
      && (got.Ok? && got.value.Some? ==>
            exists r :: r in s.rows && r.key.idToken == idToken && r.key.idTokenType == idTokenType
                        && s.partners[r.key.partner] == party && ToDto(s, r) == Ok(got.value.value))
  {
    hide ToDto, NormalizeToken;
  }

  /** A token of type OTHER is stored, yet every upsert of it fails. */
  lemma OtherNeverMapsBack(h: Digest, s: Store, token: Token, tenantId: int, partner: int, now: int)
    requires Good(s) && partner in s.partners && token.uid != "" && token.kind.OTHER?
    ensures
      var upsert := UpsertToken(h, s, token, tenantId, partner, now);
      upsert.result.Err? && First(upsert.store.rows, KeyOf(h, token.uid, OTHER, partner)).Some?
  {
    hide UpsertToken, AuthorizationOf;
    UpsertEffect(h, s, token, tenantId, partner, now);
  }

  // ---------- Rows stay readable over every run ----------

  datatype Call =
    | Upsert(token: Token, tenantId: int, partner: int, now: int)
    | Patch(uid: string, kind: TokenType, body: PartialToken, tenantId: int, partner: int, now: int)

  function Step(h: Digest, s: Store, call: Call): (outcome: Outcome)
    requires call.partner in s.partners
    ensures outcome.store.partners == s.partners
  {
    match call
    case Upsert(token, tenantId, partner, now) => UpsertToken(h, s, token, tenantId, partner, now)
    case Patch(uid, kind, body, tenantId, partner, now) => PatchToken(h, s, uid, kind, body, tenantId, partner, now)
  }

  /** What an upsert has to check before the call. */
  predicate Admissible(h: Digest, s: Store, call: Call) {
    call.partner in s.partners && (call.Upsert? ==> Mappable(call.token) && !SelfGroup(h, s, call.token, call.partner))
  }

  ghost predicate IsRun(h: Digest, s: Store, calls: seq<Call>)
    decreases |calls|
  {
    calls == [] || (Admissible(h, s, calls[0]) && IsRun(h, Step(h, s, calls[0]).store, calls[1..]))
  }

  function Run(h: Digest, s: Store, calls: seq<Call>): Store
    requires IsRun(h, s, calls)
    decreases |calls|
  {
    if calls == [] then s else Run(h, Step(h, s, calls[0]).store, calls[1..])
  }

  /** The keys a run has upserted. */
  function UpsertedKeys(h: Digest, calls: seq<Call>): set<Key> {
    if calls == [] then {} else UpsertedKey(h, calls[0]) + UpsertedKeys(h, calls[1..])
  }

  function UpsertedKey(h: Digest, call: Call): set<Key> {
    if call.Upsert? then {KeyOf(h, call.token.uid, call.token.kind, call.partner)} else {}
  }

  /** The call upserts a token under this key. */
  predicate Upserts(h: Digest, call: Call, k: Key) {
    call.Upsert? && KeyOf(h, call.token.uid, call.token.kind, call.partner) == k
  }

  lemma {:induction false} UpsertedKeysAre(h: Digest, calls: seq<Call>, k: Key)
    ensures k in UpsertedKeys(h, calls) <==> exists c :: c in calls && Upserts(h, c, k)
  {
    if calls != [] {
      UpsertedKeysAre(h, calls[1..], k);
      hide KeyOf;
      assert k in UpsertedKey(h, calls[0]) <==> Upserts(h, calls[0], k);
      if c :| c in calls && Upserts(h, c, k) {
        assert c == calls[0] || c in calls[1..];
      }
      assert forall c :: c in calls[1..] ==> c in calls;
      assert calls[0] in calls;
    }
  }

  /** A row that can be read as a token. */
  ghost predicate Readable(row: Row) {
    ToTokenType(row.key.idTokenType).Ok? && row.additionalInfo.Some? && CompleteInfo(row.additionalInfo.value)
  }

  ghost predicate UpsertedReadable(s: Store, keys: set<Key>) {
    && Good(s)
    && forall k :: k in keys ==> First(s.rows, k).Some? && Readable(First(s.rows, k).value)
  }

  lemma ReadableToDto(s: Store, row: Row)
    requires row.key.partner in s.partners && Readable(row)
    ensures ToDto(s, row).Ok?
  {
  }

  lemma UpsertKeepsReadable(h: Digest, s: Store, token: Token, tenantId: int, partner: int, now: int, keys: set<Key>)
    requires UpsertedReadable(s, keys) && Admissible(h, s, Upsert(token, tenantId, partner, now))
    ensures
      var upsert := UpsertToken(h, s, token, tenantId, partner, now);
      upsert.result.Ok? && UpsertedReadable(upsert.store, keys + {KeyOf(h, token.uid, token.kind, partner)})
  {
    hide UpsertToken, InfoOf, FindInfo, SelfGroup;
    UpsertKeepsKeysUniqueIff(h, s, token, tenantId, partner, now);
    UpsertEffect(h, s, token, tenantId, partner, now);
    InfoOfMappable(token);
    var k := KeyOf(h, token.uid, token.kind, partner);
    var s' := UpsertToken(h, s, token, tenantId, partner, now).store;
    assert Readable(First(s'.rows, k).value);
    hide Admissible, Readable, UniqueKeys;
    ReadableToDto(s', First(s'.rows, k).value);
    ReadableTransfers(s, s', k, keys);
  }

  lemma ReadableTransfers(s: Store, s': Store, k: Key, keys: set<Key>)
    requires UpsertedReadable(s, keys) && Good(s')
    requires First(s'.rows, k).Some? && Readable(First(s'.rows, k).value)
    requires forall k' :: k' != k && First(s.rows, k').Some? ==> First(s'.rows, k') == First(s.rows, k')
    ensures UpsertedReadable(s', keys + {k})
  {
  }

  lemma PatchKeepsReadable(h: Digest, s: Store, uid: string, kind: TokenType, body: PartialToken, tenantId: int,
                           partner: int, now: int, keys: set<Key>)
    requires UpsertedReadable(s, keys) && partner in s.partners
    ensures UpsertedReadable(PatchToken(h, s, uid, kind, body, tenantId, partner, now).store, keys)
    ensures KeyOf(h, uid, kind, partner) in keys && body.lastUpdated.Some? ==>
            PatchToken(h, s, uid, kind, body, tenantId, partner, now).result.Ok?
  {
    PatchKeepsGood(h, s, uid, kind, body, tenantId, partner, now);
    var k := KeyOf(h, uid, kind, partner);
    var existing := First(s.rows, k);
    if body.lastUpdated.Some? && existing.Some? {
      GroupStep(s, body.groupId, tenantId, partner, now);
      var (s1, group) := HandleOptionalGroup(s, body.groupId, tenantId, partner, now);
      var set_ := PatchSet(AuthorizationOf(h, body), existing.value, group, body.lastUpdated.value);
      var s' := s1.(rows := UpdateRows(s1.rows, k, set_));
      forall k' | k' in keys ensures First(s'.rows, k').Some? && Readable(First(s'.rows, k').value) {
        FirstUpdate(s1.rows, k, set_, k');
        if k' == k {
          MergeKeepsComplete(body, existing.value.additionalInfo.value);
        }
      }
      if k in keys {
        ReadableToDto(s', First(s'.rows, k).value);
      }
    }
  }

  lemma StepKeepsReadable(h: Digest, s: Store, call: Call, keys: set<Key>)
    requires UpsertedReadable(s, keys) && Admissible(h, s, call)
    ensures UpsertedReadable(Step(h, s, call).store, keys + UpsertedKey(h, call))
  {
    match call
    case Upsert(token, tenantId, partner, now) =>
      UpsertKeepsReadable(h, s, token, tenantId, partner, now, keys);
    case Patch(uid, kind, body, tenantId, partner, now) =>
      PatchKeepsReadable(h, s, uid, kind, body, tenantId, partner, now, keys);
      assert keys + UpsertedKey(h, call) == keys;
  }

  lemma UpsertedKeysFrom(h: Digest, calls: seq<Call>, keys: set<Key>)
    requires calls != []
    ensures keys + UpsertedKeys(h, calls) == (keys + UpsertedKey(h, calls[0])) + UpsertedKeys(h, calls[1..])
  {
    hide UpsertedKey;
  }

  lemma {:induction false} RunKeepsReadable(h: Digest, s: Store, calls: seq<Call>, keys: set<Key>)
    requires UpsertedReadable(s, keys) && IsRun(h, s, calls)
    ensures UpsertedReadable(Run(h, s, calls), keys + UpsertedKeys(h, calls))
    decreases |calls|
  {
    if calls == [] {
      assert keys + UpsertedKeys(h, calls) == keys;
    } else {
      assert calls[0].partner in s.partners && IsRun(h, Step(h, s, calls[0]).store, calls[1..]);
      assert Run(h, s, calls) == Run(h, Step(h, s, calls[0]).store, calls[1..]);
      hide *;
      StepKeepsReadable(h, s, calls[0], keys);
      RunKeepsReadable(h, Step(h, s, calls[0]).store, calls[1..], keys + UpsertedKey(h, calls[0]));
      UpsertedKeysFrom(h, calls, keys);
    }
  }

  /** Over every run of upserts and patches, every row that was ever upserted keeps its three
      entries with non-empty values, so it can always be read as a token. */
  lemma UpsertedRowsStayReadable(h: Digest, s: Store, calls: seq<Call>, row: Row)
    requires Good(s) && IsRun(h, s, calls)
    requires row in Run(h, s, calls).rows && exists c :: c in calls && Upserts(h, c, row.key)
    ensures Readable(row) && row.key.partner in Run(h, s, calls).partners && ToDto(Run(h, s, calls), row).Ok?
  {
    RunKeepsReadable(h, s, calls, {});
    UpsertedKeysAre(h, calls, row.key);
    assert {} + UpsertedKeys(h, calls) == UpsertedKeys(h, calls);
    FirstUnique(Run(h, s, calls).rows, row);
    ReadableToDto(Run(h, s, calls), row);
  }

  // ---------- The self-group guard is exact ----------

  /** A PATCH of the contract id alone. */
  function ContractPatch(contractId: string, at: int): PartialToken {
    PartialToken(None, None, Some(contractId), None, None, None, None, None, None, Some(at))
  }

  lemma ContractPatchInfo(contractId: string, at: int)
    requires contractId != ""
    ensures InfoOf(ContractPatch(contractId, at)) != [] && FindInfo(InfoOf(ContractPatch(contractId, at)), ISSUER).None?
  {
    InfoOfFinds(ContractPatch(contractId, at));
  }

  /** After an upsert, all later patches of that token succeed exactly when it was not a
      first-time member of a group bearing its own key. Otherwise the group's row, which has no
      entries, is found first, and a patch of the contract id alone makes the token unreadable. */
  lemma PatchesSucceedIffNotSelfGroup(h: Digest, s: Store, token: Token, tenantId: int, partner: int, now: int)
    requires Good(s) && partner in s.partners && Mappable(token)
    ensures
      var s' := UpsertToken(h, s, token, tenantId, partner, now).store;
      !SelfGroup(h, s, token, partner)
      <==> forall body: PartialToken :: body.lastUpdated.Some? ==>
        PatchToken(h, s', token.uid, token.kind, body, tenantId, partner, now).result.Ok?
  {
    UpsertKeepsKeysUniqueIff(h, s, token, tenantId, partner, now);
    var s' := UpsertToken(h, s, token, tenantId, partner, now).store;
    if SelfGroup(h, s, token, partner) {
      SelfGroupPatchFails(h, s, token, tenantId, partner, now);
      assert ContractPatch(token.contractId, now).lastUpdated.Some?;
    } else {
      UpsertKeepsReadable(h, s, token, tenantId, partner, now, {});
      var k := KeyOf(h, token.uid, token.kind, partner);
      forall body: PartialToken | body.lastUpdated.Some?
        ensures PatchToken(h, s', token.uid, token.kind, body, tenantId, partner, now).result.Ok?
      {
        PatchKeepsReadable(h, s', token.uid, token.kind, body, tenantId, partner, now, {} + {k});
      }
    }
  }

  lemma SelfGroupPatchFails(h: Digest, s: Store, token: Token, tenantId: int, partner: int, now: int)
    requires Good(s) && partner in s.partners && Mappable(token) && SelfGroup(h, s, token, partner)
    ensures
      var s' := UpsertToken(h, s, token, tenantId, partner, now).store;
      && s'.partners == s.partners
      && PatchToken(h, s', token.uid, token.kind, ContractPatch(token.contractId, now), tenantId, partner,
        now).result.Err?
  {
    var k := KeyOf(h, token.uid, token.kind, partner);
    var group := GroupRow(token.groupId.value, tenantId, partner, now).(id := s.nextId);
    var row := NewRow(AuthorizationOf(h, AsPartial(token)), k, tenantId, Some(s.nextId),
      token.lastUpdated).(id := s.nextId + 1);
    var s' := UpsertToken(h, s, token, tenantId, partner, now).store;
    assert s'.rows == s.rows + [group] + [row];
    FirstAppend(s.rows, group, k);
    FirstAppend(s.rows + [group], row, k);
    assert First(s'.rows, k) == Some(group);
    ContractPatchInfo(token.contractId, now);
    var body := ContractPatch(token.contractId, now);
    var set_ := PatchSet(AuthorizationOf(h, body), group, None, now);
    FirstUpdate(s'.rows, k, set_, k);
  }

  // ---------- What a patch silently does ----------

  /** A patch without `valid` makes the token invalid. */
  lemma PatchWithoutValidInvalidates(h: Digest, s: Store, uid: string, kind: TokenType, body: PartialToken,
                                     tenantId: int, partner: int, now: int)
    requires Good(s) && partner in s.partners
    ensures
      var patch := PatchToken(h, s, uid, kind, body, tenantId, partner, now);
      patch.result.Ok? ==> (patch.result.value.valid <==> body.valid == Some(true))
  {
    hide InfoOf, MergedInfo, FindInfo, NormalizeToken, GroupOf, Good, HandleOptionalGroup;
    var k := KeyOf(h, uid, kind, partner);
    var existing := First(s.rows, k);
    if body.lastUpdated.Some? && existing.Some? {
      GroupStep(s, body.groupId, tenantId, partner, now);
      var (s1, group) := HandleOptionalGroup(s, body.groupId, tenantId, partner, now);
      FirstUpdate(s1.rows, k, PatchSet(AuthorizationOf(h, body), existing.value, group, body.lastUpdated.value), k);
    }
  }

  /** On a readable row, a patch sets exactly the entries it gives; a contract id without a visual
      number also overwrites the visual number. */
  lemma PatchSetsEntries(h: Digest, s: Store, uid: string, kind: TokenType, body: PartialToken, tenantId: int,
                         partner: int, now: int)
    requires Good(s) && partner in s.partners && body.lastUpdated.Some?
    requires First(s.rows, KeyOf(h, uid, kind, partner)).Some?
             && Readable(First(s.rows, KeyOf(h, uid, kind, partner)).value)
    ensures
      var old_ := First(s.rows, KeyOf(h, uid, kind, partner)).value;
      var patch := PatchToken(h, s, uid, kind, body, tenantId, partner, now);
      && patch.result.Ok?
      && Some(patch.result.value.contractId)
        == (if Given(body.contractId) then body.contractId else InfoValue(old_, EMAID))
      && Some(patch.result.value.issuer) == (if Given(body.issuer) then body.issuer else InfoValue(old_, ISSUER))
      && patch.result.value.visualNumber
         == (if Given(body.visualNumber) then body.visualNumber
             else if Given(body.contractId) then body.contractId
             else InfoValue(old_, VISUAL_NUMBER))
  {
    var k := KeyOf(h, uid, kind, partner);
    var existing := First(s.rows, k);
    GroupStep(s, body.groupId, tenantId, partner, now);
    var (s1, group) := HandleOptionalGroup(s, body.groupId, tenantId, partner, now);
    var set_ := PatchSet(AuthorizationOf(h, body), existing.value, group, body.lastUpdated.value);
    FirstUpdate(s1.rows, k, set_, k);
    var info := existing.value.additionalInfo.value;
    InfoOfFinds(body);
    FindMerged(InfoOf(body), info, EMAID);
    FindMerged(InfoOf(body), info, VISUAL_NUMBER);
    FindMerged(InfoOf(body), info, ISSUER);
  }
}
