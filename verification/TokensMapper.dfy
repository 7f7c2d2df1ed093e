/** OCPI tokens and OCPP authorization rows (00_Base/src/mapper/TokensMapper.ts; section 12 of
    OCPI 2.2.1). */
module TokensMapper {
  import opened Wrappers

  /** SHA-256 as a number; nothing is known of it. */
  type Digest = string -> int

  const HEX_DIGITS := 64

  /** The last `width` hexadecimal digits of a number. */
  function Hex(n: int, width: nat): (digits: string)
    ensures |digits| == width
    decreases width
  {
    if width == 0 then "" else Hex(n / 16, width - 1) + ["0123456789abcdef"[n % 16]]
  }

  const MAX_ID_TOKEN := 20

  datatype TokenType = AD_HOC_USER | APP_USER | OTHER | RFID

  /** `Unmapped` stands for the id token types no OCPI token maps to. */
  datatype IdTokenType = Central | ISO14443 | Local | OtherType | Unmapped

  datatype WhitelistType = ALWAYS | ALLOWED | ALLOWED_OFFLINE | NEVER

  datatype RealTimeAuth = Allowed | AllowedOffline | Never | Always

  datatype Status = Accepted | Invalid

  datatype InfoKind = EMAID | VISUAL_NUMBER | ISSUER | OtherKind(name: string)

  datatype Info = Info(additionalIdToken: string, kind: InfoKind)

  datatype Token = Token(
    countryCode: string,
    partyId: string,
    uid: string,
    kind: TokenType,
    contractId: string,
    visualNumber: Option<string>,
    issuer: string,
    groupId: Option<string>,
    valid: bool,
    whitelist: WhitelistType,
    language: Option<string>,
    lastUpdated: int)

  /** A PATCH body: any field may be absent. */
  datatype PartialToken = PartialToken(
    uid: Option<string>,
    kind: Option<TokenType>,
    contractId: Option<string>,
    visualNumber: Option<string>,
    issuer: Option<string>,
    groupId: Option<string>,
    valid: Option<bool>,
    whitelist: Option<WhitelistType>,
    language: Option<string>,
    lastUpdated: Option<int>)

  function AsPartial(t: Token): PartialToken {
    PartialToken(
      Some(t.uid), Some(t.kind), Some(t.contractId), t.visualNumber, Some(t.issuer), t.groupId,
      Some(t.valid), Some(t.whitelist), t.language, Some(t.lastUpdated))
  }

  /** What a token says about an authorization row. For `realTimeAuth`, None is undefined and
      Some(None) is null. `customData` is the original token uid. */
  datatype PartialAuthorization = PartialAuthorization(
    additionalInfo: Option<seq<Info>>,
    idToken: Option<string>,
    idTokenType: Option<IdTokenType>,
    status: Status,
    language1: Option<string>,
    realTimeAuth: Option<Option<RealTimeAuth>>,
    customData: Option<string>)

  /** Present and not empty. */
  predicate Given(s: Option<string>) {
    s.Some? && s.value != ""
  }

  function NormalizeToken(h: Digest, uid: Option<string>): (idToken: Option<string>)
    ensures idToken.Some? <==> Given(uid)
    ensures idToken.Some? ==> 0 < |idToken.value| <= 20
    ensures idToken.Some? ==> if |uid.value| <= 20 then idToken == uid else |idToken.value| == 20
  {
    if !Given(uid) then None
    else if |uid.value| <= MAX_ID_TOKEN then uid
    else Some(Hex(h(uid.value), HEX_DIGITS)[..MAX_ID_TOKEN])
  }

  function ToIdTokenType(kind: TokenType): IdTokenType {
    match kind
    case RFID => ISO14443
    case AD_HOC_USER => Local
    case APP_USER => Central
    case OTHER => OtherType
  }

  function ToTokenType(kind: IdTokenType): Result<TokenType> {
    match kind
    case ISO14443 => Ok(RFID)
    case Local => Ok(AD_HOC_USER)
    case Central => Ok(APP_USER)
    case _ => Err("Unknown token type")
  }

  function MapRealTimeEnumType(auth: Option<RealTimeAuth>): WhitelistType {
    match auth
    case Some(Allowed) => ALLOWED
    case Some(AllowedOffline) => ALLOWED_OFFLINE
    case Some(Never) => NEVER
    case _ => ALWAYS
  }

  function MapWhitelistType(whitelist: Option<WhitelistType>): Option<Option<RealTimeAuth>> {
    match whitelist
    case Some(ALLOWED) => Some(Some(Allowed))
    case Some(ALLOWED_OFFLINE) => Some(Some(AllowedOffline))
    case Some(NEVER) => Some(Some(Never))
    case Some(ALWAYS) => Some(None)
    case None => None
  }

  /** The additional info a token carries; the visual number defaults to the contract id. */
  function InfoOf(t: PartialToken): seq<Info> {
    (if Given(t.contractId) then [Info(t.contractId.value, EMAID)] else [])
    + (if Given(t.visualNumber) then [Info(t.visualNumber.value, VISUAL_NUMBER)]
       else if Given(t.contractId) then [Info(t.contractId.value, VISUAL_NUMBER)]
       else [])
    + (if Given(t.issuer) then [Info(t.issuer.value, ISSUER)] else [])
  }

  function AuthorizationOf(h: Digest, t: PartialToken): PartialAuthorization {
    var idToken := NormalizeToken(h, t.uid);
    PartialAuthorization(
      if InfoOf(t) == [] then None else Some(InfoOf(t)),
      idToken,
      if t.kind.Some? then Some(ToIdTokenType(t.kind.value)) else None,
      if t.valid == Some(true) then Accepted else Invalid,
      t.language,
      MapWhitelistType(t.whitelist),
      if Given(t.uid) && t.uid != idToken then t.uid else None)
  }

  /** The mapper itself, pushing the additional info one by one. */
  method MapOcpiTokenToPartialOcppAuthorization(h: Digest, tokenDto: PartialToken)
    returns (result: PartialAuthorization)
    ensures result == AuthorizationOf(h, tokenDto)
  {
    var idToken := NormalizeToken(h, tokenDto.uid);
    var idTokenType := if tokenDto.kind.Some? then Some(ToIdTokenType(tokenDto.kind.value)) else None;
    var info: seq<Info> := [];
    if Given(tokenDto.contractId) {
      info := info + [Info(tokenDto.contractId.value, EMAID)];
    }
    if Given(tokenDto.visualNumber) {
      info := info + [Info(tokenDto.visualNumber.value, VISUAL_NUMBER)];
    } else if Given(tokenDto.contractId) {
      info := info + [Info(tokenDto.contractId.value, VISUAL_NUMBER)];
    }
    if Given(tokenDto.issuer) {
      info := info + [Info(tokenDto.issuer.value, ISSUER)];
    }
    assert info == InfoOf(tokenDto);
    result := PartialAuthorization(
      if |info| > 0 then Some(info) else None,
      idToken,
      idTokenType,
      if tokenDto.valid == Some(true) then Accepted else Invalid,
      tokenDto.language,
      MapWhitelistType(tokenDto.whitelist),
      if Given(tokenDto.uid) && tokenDto.uid != idToken then tokenDto.uid else None);
  }

  // ---------- Additional info ----------

  /** The value of the first entry of a kind. */
  function FindInfo(info: seq<Info>, kind: InfoKind): Option<string> {
    if info == [] then None
    else if info[0].kind == kind then Some(info[0].additionalIdToken)
    else FindInfo(info[1..], kind)
  }

  /** The entries a token needs, each with a value. */
  ghost predicate CompleteInfo(info: seq<Info>) {
    Given(FindInfo(info, EMAID)) && Given(FindInfo(info, VISUAL_NUMBER)) && Given(FindInfo(info, ISSUER))
  }

  /** New entries replace the value of an old entry of their kind; no entry is added. */
  function MergedInfo(update: seq<Info>, info: seq<Info>): (merged: seq<Info>)
    ensures |merged| == |info|
  {
    seq(|info|, i requires 0 <= i < |info| => MergedEntry(update, info[i]))
  }

  function MergedEntry(update: seq<Info>, entry: Info): Info {
    var found := FindInfo(update, entry.kind);
    if found.Some? then entry.(additionalIdToken := found.value) else entry
  }

  /** `mergeAdditionalInfo` overwrites the entries of the row it fetched. */
  method MergeAdditionalInfo(update: seq<Info>, info: array<Info>)
    modifies info
    ensures info[..] == MergedInfo(update, old(info[..]))
  {
    for i := 0 to info.Length
      invariant forall j :: 0 <= j < i ==> info[j] == MergedEntry(update, old(info[j]))
      invariant forall j :: i <= j < info.Length ==> info[j] == old(info[j])
    {
      var updated := FindInfo(update, info[i].kind);
      if updated.Some? {
        info[i] := info[i].(additionalIdToken := updated.value);
      }
    }
  }

  lemma {:induction false} FindMerged(update: seq<Info>, info: seq<Info>, kind: InfoKind)
    ensures FindInfo(MergedInfo(update, info), kind)
         == if FindInfo(info, kind).Some?
           && FindInfo(update, kind).Some? then FindInfo(update, kind) else FindInfo(info, kind)
  {
    if info != [] {
      assert MergedInfo(update, info)[1..] == MergedInfo(update, info[1..]);
      FindMerged(update, info[1..], kind);
    }
  }

  lemma FindSingle(entry: Info, rest: seq<Info>, kind: InfoKind)
    ensures FindInfo([entry] + rest, kind)
            == if entry.kind == kind then Some(entry.additionalIdToken) else FindInfo(rest, kind)
  {
    assert ([entry] + rest)[1..] == rest;
  }

  /** What a token's own entries say. */
  lemma InfoOfFinds(t: PartialToken)
    ensures FindInfo(InfoOf(t), EMAID) == if Given(t.contractId) then t.contractId else None
    ensures FindInfo(InfoOf(t), VISUAL_NUMBER)
         == if Given(t.visualNumber) then t.visualNumber else if Given(t.contractId) then t.contractId else None
    ensures FindInfo(InfoOf(t), ISSUER) == if Given(t.issuer) then t.issuer else None
  {
    var visual := if Given(t.visualNumber) then [Info(t.visualNumber.value, VISUAL_NUMBER)]
                  else if Given(t.contractId) then [Info(t.contractId.value, VISUAL_NUMBER)]
                  else [];
    var issuer := if Given(t.issuer) then [Info(t.issuer.value, ISSUER)] else [];
    forall kind ensures FindInfo(visual + issuer, kind) ==
      if kind == VISUAL_NUMBER && visual != [] then Some(visual[0].additionalIdToken)
      else if kind == ISSUER && issuer != [] then Some(issuer[0].additionalIdToken) else None
    {
      if issuer != [] {
        FindSingle(issuer[0], [], kind);
        assert issuer == [issuer[0]] + [];
      }
      if visual != [] {
        FindSingle(visual[0], issuer, kind);
        assert visual + issuer == [visual[0]] + issuer;
      } else {
        assert visual + issuer == issuer;
      }
    }
    if Given(t.contractId) {
      var contract := Info(t.contractId.value, EMAID);
      assert InfoOf(t) == [contract] + (visual + issuer);
      FindSingle(contract, visual + issuer, EMAID);
      FindSingle(contract, visual + issuer, VISUAL_NUMBER);
      FindSingle(contract, visual + issuer, ISSUER);
    } else {
      assert InfoOf(t) == visual + issuer;
    }
  }

  /** Merging never loses a required entry. */
  lemma MergeKeepsComplete(t: PartialToken, info: seq<Info>)
    requires CompleteInfo(info)
    ensures CompleteInfo(MergedInfo(InfoOf(t), info))
  {
    InfoOfFinds(t);
    FindMerged(InfoOf(t), info, EMAID);
    FindMerged(InfoOf(t), info, VISUAL_NUMBER);
    FindMerged(InfoOf(t), info, ISSUER);
  }
}
