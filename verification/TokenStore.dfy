/** The token service as the source runs it: calls that read the table, then write to it. */
module TokenStore {
  import opened Wrappers
  import opened TokensMapper
  import Spec = TokensService

  class TokensService {
    const digest: Digest
    const partners: map<int, Spec.Partner>
    var rows: seq<Spec.Row>
    var nextId: nat

    function Current(): Spec.Store
      reads this
    {
      Spec.Store(rows, nextId, partners)
    }

    constructor (digest: Digest, partners: map<int, Spec.Partner>)
      ensures Current() == Spec.Store([], 0, partners)
    {
      this.digest, this.partners := digest, partners;
      rows, nextId := [], 0;
    }

    method GetAuthorizationByToken(k: Spec.Key) returns (row: Option<Spec.Row>)
      ensures row == Spec.First(rows, k)
    {
      var i := 0;
      while i < |rows|
        invariant i <= |rows|
        invariant Spec.First(rows, k) == Spec.First(rows[i..], k)
      {
        if rows[i].key == k {
          return Some(rows[i]);
        }
        i := i + 1;
      }
      row := None;
    }

    method CreateAuthorization(row: Spec.Row) returns (id: nat)
      modifies this
      ensures Current() == Spec.InsertRow(old(Current()), row) && id == old(nextId)
    {
      id := nextId;
      rows := rows + [row.(id := nextId)];
      nextId := nextId + 1;
    }

    method UpdateAuthorization(k: Spec.Key, set_: Spec.SetInput) returns (result: Result<Token>)
      requires k.partner in partners
      modifies this
      ensures Spec.Outcome(Current(), result) == Spec.WriteRows(old(Current()), k, set_)
    {
      rows := Spec.UpdateRows(rows, k, set_);
      var first := GetAuthorizationByToken(k);
      result := if first.Some? then Spec.ToDto(Current(), first.value) else Err("No row returned");
    }

    method HandleGroupAuthorization(groupId: string, tenantId: int, partner: int, now: int) returns (id: nat)
      modifies this
      ensures (Current(), id) == Spec.HandleGroupAuthorization(old(Current()), groupId, tenantId, partner, now)
    {
      var existing := GetAuthorizationByToken(Spec.GroupKey(groupId, partner));
      if existing.Some? {
        id := existing.value.id;
      } else {
        id := CreateAuthorization(Spec.GroupRow(groupId, tenantId, partner, now));
      }
    }

    method UpsertToken(token: Token, tenantId: int, partner: int, now: int) returns (result: Result<Token>)
      requires partner in partners
      modifies this
      ensures Spec.Outcome(Current(), result) == Spec.UpsertToken(digest, old(Current()), token, tenantId, partner, now)
    {
      var authorization := MapOcpiTokenToPartialOcppAuthorization(digest, AsPartial(token));
      if authorization.idToken.None? {
        return Err("Variable idToken is required");
      }
      var k := Spec.Key(authorization.idToken.value, authorization.idTokenType.value, partner);
      var existing := GetAuthorizationByToken(k);
      var group: Option<nat> := None;
      if Given(token.groupId) {
        var id := HandleGroupAuthorization(token.groupId.value, tenantId, partner, now);
        group := Some(id);
      }
      if existing.Some? {
        result := UpdateAuthorization(k, Spec.UpsertSet(authorization, group, token.lastUpdated));
      } else {
        var id := CreateAuthorization(Spec.NewRow(authorization, k, tenantId, group, token.lastUpdated));
        result := Spec.ToDto(Current(), rows[|rows| - 1]);
      }
    }

    method PatchToken(uid: string, kind: TokenType, body: PartialToken, tenantId: int, partner: int, now: int)
      returns (result: Result<Token>)
      requires partner in partners
      modifies this
      ensures Spec.Outcome(Current(), result)
              == Spec.PatchToken(digest, old(Current()), uid, kind, body, tenantId, partner, now)
    {
      if body.lastUpdated.None? {
        return Err("Tokens PATCH must contain last_updated.");
      }
      var k := Spec.KeyOf(digest, uid, kind, partner);
      var authorization := MapOcpiTokenToPartialOcppAuthorization(digest, body);
      var existing := GetAuthorizationByToken(k);
      if existing.None? {
        return Err("Unknown token");
      }
      var info := MergeFetched(authorization.additionalInfo, existing.value.additionalInfo);
      var language1 := if Given(authorization.language1) then authorization.language1 else None;
      var group: Option<nat> := None;
      if Given(body.groupId) {
        var id := HandleGroupAuthorization(body.groupId.value, tenantId, partner, now);
        group := Some(id);
      }
      var set_ := Spec.SetInput(
        info, authorization.customData, authorization.status, language1, group, authorization.realTimeAuth,
        body.lastUpdated.value);
      result := UpdateAuthorization(k, set_);
    }

    /** Merges into the entries of the fetched row, which are this call's own copy. */
    method MergeFetched(update: Option<seq<Info>>, column: Option<seq<Info>>) returns (info: Option<seq<Info>>)
      ensures info == Spec.PatchedInfo(update, column)
    {
      if update.None? {
        info := None;
      } else if column.None? {
        info := update;
      } else {
        var old_ := column.value;
        var fetched := new Info[|old_|](i requires 0 <= i < |old_| => old_[i]);
        assert fetched[..] == old_;
        MergeAdditionalInfo(update.value, fetched);
        info := Some(fetched[..]);
      }
    }
  }
}
