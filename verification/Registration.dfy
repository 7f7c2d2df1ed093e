/** Registration of partners (00_Base/src/services/CredentialsService.ts; section 7 of OCPI 2.2.1).
    Every call runs over the table of partners as one step; each remote call and each write to
    the table may fail. */
module Registration {
  import opened Wrappers

  datatype Party = Party(countryCode: string, partyId: string)

  datatype ServerCredentials = ServerCredentials(versionsUrl: string, token: string)

  datatype ClientCredentials = ClientCredentials(versionsUrl: string, token: Option<string>)

  datatype VersionInfo = VersionInfo(version: string, url: string)

  datatype Role = CPO | EMSP | HUB | NAP | NSP | SCSP

  datatype Image = Image(url: string, imageType: string, category: string, height: Option<int>, width: Option<int>)

  datatype BusinessDetails = BusinessDetails(name: string, website: Option<string>, logo: Option<Image>)

  /** A role as it is stored, without its party. */
  datatype CredentialRole = CredentialRole(role: Role, businessDetails: Option<BusinessDetails>)

  /** The tenant's own side of the registration; any part of the column may be missing. */
  datatype ServerProfile = ServerProfile(credentialsRole: Option<CredentialRole>)

  datatype Profile = Profile(
    serverCredentials: Option<ServerCredentials>,
    credentials: Option<ClientCredentials>,
    version: string,
    versionDetailsUrl: Option<string>,
    endpoints: seq<string>,
    roles: seq<CredentialRole>)

  /** A partner, read together with the server profile of its tenant. */
  datatype PartnerRow = PartnerRow(
    id: nat,
    tenant: Party,
    serverProfile: Option<ServerProfile>,
    client: Party,
    profile: Option<Profile>)

  /** A role as it is sent. */
  datatype RoleDto = RoleDto(party: Party, role: Role, businessDetails: BusinessDetails)

  /** The credentials object a partner sends or is sent. */
  datatype Credentials = Credentials(url: string, token: string, roles: seq<RoleDto>)

  /** A remote call: it fails, answers without data, or answers. */
  datatype Remote<T> = Unreachable | Empty | Reply(data: T)

  /** `issued` holds every server token ever in use. */
  datatype State = State(rows: seq<PartnerRow>, issued: set<string>)

  /** Calls that answer nothing, or were answered nothing, return None. */
  datatype Outcome = Outcome(state: State, result: Result<Option<Credentials>>)

  // ---------- The table ----------

  predicate Owns(row: PartnerRow, token: string) {
    row.profile.Some? && row.profile.value.serverCredentials.Some?
      && row.profile.value.serverCredentials.value.token == token
  }

  /** The partner a server token authenticates. */
  function Resolve(rows: seq<PartnerRow>, token: string): (row: Option<PartnerRow>)
    ensures row.Some? ==> row.value in rows && Owns(row.value, token)
    ensures row.None? ==> forall r :: r in rows ==> !Owns(r, token)
  {
    if rows == [] then None else if Owns(rows[0], token) then Some(rows[0]) else Resolve(rows[1..], token)
  }

  /** The first row of this client under this tenant. */
  function FindParty(rows: seq<PartnerRow>, tenant: Party, client: Party): (row: Option<PartnerRow>)
    ensures row.Some? ==> row.value in rows && row.value.tenant == tenant && row.value.client == client
    ensures row.None? ==> forall r :: r in rows ==> r.tenant != tenant || r.client != client
  {
    if rows == [] then None
    else if rows[0].tenant == tenant && rows[0].client == client then Some(rows[0])
    else FindParty(rows[1..], tenant, client)
  }

  function UpdateProfile(rows: seq<PartnerRow>, id: nat, profile: Profile): (updated: seq<PartnerRow>)
    ensures |updated| == |rows|
  {
    seq(|rows|, i requires 0 <= i < |rows| => if rows[i].id == id then rows[i].(profile := Some(profile)) else rows[i])
  }

  function DeleteById(rows: seq<PartnerRow>, id: nat): (kept: seq<PartnerRow>)
    ensures forall r :: r in kept <==> r in rows && r.id != id
  {
    if rows == [] then []
    else (if rows[0].id == id then [] else [rows[0]]) + DeleteById(rows[1..], id)
  }

  function DeleteByToken(rows: seq<PartnerRow>, token: string): (kept: seq<PartnerRow>)
    ensures forall r :: r in kept <==> r in rows && !Owns(r, token)
  {
    if rows == [] then []
    else (if Owns(rows[0], token) then [] else [rows[0]]) + DeleteByToken(rows[1..], token)
  }

  // ---------- Mapping credentials ----------

  const IMAGE_TYPES := {"jpeg", "jpg", "png"}
  const IMAGE_CATEGORIES := {"CHARGER", "ENTRANCE", "LOCATION", "NETWORK", "OPERATOR", "OTHER", "OWNER"}

  /** `x || undefined` */
  function OrUndefined(n: Option<int>): Option<int> {
    if n == Some(0) then None else n
  }

  function ToRegistrationImage(image: Image): Image {
    image.(height := OrUndefined(image.height), width := OrUndefined(image.width))
  }

  function ToRegistrationBusinessDetails(details: BusinessDetails): BusinessDetails {
    BusinessDetails(
      details.name,
      if details.website == Some("") then None else details.website,
      if details.logo.Some? then Some(ToRegistrationImage(details.logo.value)) else None)
  }

  /** What is stored of the roles a partner sends. */
  function ToCredentialsRoles(roles: seq<RoleDto>): (stored: seq<CredentialRole>)
    ensures |stored| == |roles|
  {
    seq(|roles|, i requires 0 <= i < |roles| =>
      CredentialRole(roles[i].role, Some(ToRegistrationBusinessDetails(roles[i].businessDetails))))
  }

  function ToImage(image: Image): Result<Image> {
    if image.imageType !in IMAGE_TYPES then Err("Unknown image type")
    else if image.category !in IMAGE_CATEGORIES then Err("Unknown image category")
    else Ok(image)
  }

  function ToBusinessDetails(details: BusinessDetails): Result<BusinessDetails> {
    if details.logo.None? then Ok(details)
    else
      var image := ToImage(details.logo.value);
      if image.Err? then Err(image.message) else Ok(details.(logo := Some(image.value)))
  }

  /** The credentials a partner is sent: built from its server credentials and its tenant's profile. */
  function TenantPartnerToCredentialsDto(partner: PartnerRow): Result<Credentials> {
    if partner.profile.None? || partner.profile.value.serverCredentials.None? then Err("TypeError")
    else if partner.serverProfile.None? || partner.serverProfile.value.credentialsRole.None? then Err("TypeError")
    else
      var own := partner.serverProfile.value.credentialsRole.value;
      if own.businessDetails.None? then Err("TypeError")
      else
        var details := ToBusinessDetails(own.businessDetails.value);
        if details.Err? then Err(details.message)
        else
          var server := partner.profile.value.serverCredentials.value;
          Ok(Credentials(server.versionsUrl, server.token, [RoleDto(partner.tenant, own.role, details.value)]))
  }

  /** A tenant's profile from which a reply can be built: role and business details are there, and a logo
      has a type and a category that OCPI knows, other than svg. */
  predicate Repliable(serverProfile: Option<ServerProfile>) {
    && serverProfile.Some? && serverProfile.value.credentialsRole.Some?
    && serverProfile.value.credentialsRole.value.businessDetails.Some?
    && var logo := serverProfile.value.credentialsRole.value.businessDetails.value.logo;
       logo.Some? ==> logo.value.imageType in IMAGE_TYPES && logo.value.category in IMAGE_CATEGORIES
  }

  lemma ReplyIffRepliable(partner: PartnerRow)
    requires partner.profile.Some? && partner.profile.value.serverCredentials.Some?
    ensures TenantPartnerToCredentialsDto(partner).Ok? <==> Repliable(partner.serverProfile)
    ensures
      var reply := TenantPartnerToCredentialsDto(partner);
      reply.Ok? ==>
        && reply.value.token == partner.profile.value.serverCredentials.value.token
        && reply.value.url == partner.profile.value.serverCredentials.value.versionsUrl
        && var own := partner.serverProfile.value.credentialsRole.value;
        && reply.value.roles == [RoleDto(partner.tenant, own.role, own.businessDetails.value)]
  {
  }

  // ---------- The calls ----------

  ghost predicate FirstVersion(versions: seq<VersionInfo>, version: string, i: nat) {
    i < |versions| && versions[i].version == version && forall j :: 0 <= j < i ==> versions[j].version != version
  }

  function FindVersion(versions: seq<VersionInfo>, version: string): (found: Option<VersionInfo>)
    ensures found.Some? ==> found.value in versions && found.value.version == version
    ensures found.None? ==> forall v :: v in versions ==> v.version != version
  {
    if versions == [] then None
    else if versions[0].version == version then Some(versions[0])
    else FindVersion(versions[1..], version)
  }

  /** Maps all endpoints; one whose module and role are not known makes the mapping throw. */
  function ToEndpoints(endpoints: seq<Result<string>>): Result<seq<string>> {
    if endpoints == [] then Ok([])
    else if endpoints[0].Err? then Err(endpoints[0].message)
    else
      var rest := ToEndpoints(endpoints[1..]);
      if rest.Err? then Err(rest.message) else Ok([endpoints[0].value] + rest.value)
  }

  /** `details` holds what mapping each endpoint of the version gives. */
  function GetVersionDetails(profile: Profile, versions: Remote<seq<VersionInfo>>,
                             details: Remote<seq<Result<string>>>): (r: Result<Profile>)
    ensures r.Ok? ==>
            && r.value.serverCredentials == profile.serverCredentials
            && r.value.credentials == profile.credentials
  {
    if !versions.Reply? then Err("Versions list response was null")
    else
      var version := FindVersion(versions.data, profile.version);
      if version.None? then Err("Matching version not found")
      else if !details.Reply? then Err("Matching version details not found")
      else
        var endpoints := ToEndpoints(details.data);
        if endpoints.Err? then Err(endpoints.message)
        else Ok(profile.(versionDetailsUrl := Some(version.value.url), endpoints := endpoints.value))
  }

  /** The table after writing a profile, if the write succeeds. */
  function Persist(s: State, id: nat, profile: Profile, succeeds: bool): State {
    if succeeds then s.(rows := UpdateProfile(s.rows, id, profile)) else s
  }

  function Answer(reply: Result<Credentials>): Result<Option<Credentials>> {
    if reply.Ok? then Ok(Some(reply.value)) else Err(reply.message)
  }

  /** Writes a profile, then builds the reply, which may throw although the write is done. */
  function PersistAndReply(s: State, partner: PartnerRow, profile: Profile, persists: bool): Outcome {
    Outcome(
      Persist(s, partner.id, profile, persists),
      if persists then Answer(TenantPartnerToCredentialsDto(partner.(profile := Some(profile))))
      else Err("Persisting failed"))
  }

  function Issue(s: State, token: string): State {
    s.(issued := s.issued + {token})
  }

  function Registered(profile: Profile, server: ServerCredentials, sent: Credentials): Profile {
    profile.(
    serverCredentials := Some(server),
    credentials := Some(ClientCredentials(sent.url, Some(sent.token))),
    roles := ToCredentialsRoles(sent.roles))
  }

  /** Renames the server token, keeping the versions URL. */
  function Renewed(profile: Profile, uuid: string): ServerCredentials
    requires profile.serverCredentials.Some?
  {
    profile.serverCredentials.value.(token := uuid)
  }

  /** The caller is the partner its server token resolves to. */
  function PostCredentials(s: State, auth: string, sent: Credentials, version: string,
                           versions: Remote<seq<VersionInfo>>, details: Remote<seq<Result<string>>>, uuid: string,
                           persists: bool): Outcome {
    var partner := Resolve(s.rows, auth);
    if partner.None? then Outcome(s, Err("Unauthorized"))
    else
      var profile := partner.value.profile.value;
      if profile.credentials.Some? then Outcome(s, Err("AlreadyRegistered"))
      else if version != profile.version then Outcome(s, Err("NotFound"))
      else
        var detailed := GetVersionDetails(profile, versions, details);
        if detailed.Err? then Outcome(s, Err(detailed.message))
        else
          var registered := Registered(detailed.value, Renewed(detailed.value, uuid), sent);
          PersistAndReply(Issue(s, uuid), partner.value, registered, persists)
  }

  function PutCredentials(s: State, auth: string, sent: Credentials, uuid: string, persists: bool): Outcome {
    var partner := Resolve(s.rows, auth);
    if partner.None? then Outcome(s, Err("Unauthorized"))
    else
      var profile := partner.value.profile.value;
      if profile.credentials.None? then Outcome(s, Err("NotRegistered"))
      else PersistAndReply(Issue(s, uuid), partner.value, Registered(profile, Renewed(profile, uuid), sent), persists)
  }

  function DeleteCredentials(s: State, token: string): Outcome {
    var kept := DeleteByToken(s.rows, token);
    if |kept| == |s.rows| then Outcome(s.(rows := kept), Err("NotFound"))
    else Outcome(s.(rows := kept), Ok(None))
  }

  /** Persists, then sends the new credentials to the partner. */
  function RegisterCredentialsTokenA(s: State, tenant: Party, versionsUrl: string, sent: Credentials, version: string,
                                     versions: Remote<seq<VersionInfo>>, details: Remote<seq<Result<string>>>,
                                     uuid: string, persists: bool, posted: Remote<Credentials>): Outcome {
    if sent.roles == [] then Outcome(s, Err("TypeError"))
    else
      var partner := FindParty(s.rows, tenant, sent.roles[0].party);
      if partner.None? || partner.value.profile.None? then Outcome(s, Err("TypeError"))
      else
        var profile := partner.value.profile.value;
        if profile.serverCredentials.Some? then Outcome(s, Err("AlreadyRegistered"))
        else if version != profile.version then Outcome(s, Err("NotFound"))
        else
          var detailed := GetVersionDetails(profile, versions, details);
          if detailed.Err? then Outcome(s, Err(detailed.message))
          else
            var registered := Registered(detailed.value, ServerCredentials(versionsUrl, uuid), sent);
            var replied := PersistAndReply(Issue(s, uuid), partner.value, registered, persists);
            if replied.result.Err? then replied
            else if posted.Unreachable? then Outcome(replied.state, Err("Post failed"))
            else Outcome(replied.state, Ok(if posted.Reply? then Some(posted.data) else None))
  }

  /** Builds the reply, persists the new server token, tells the partner, then persists its answer. */
  function RegenerateCredentialsToken(s: State, tenant: Party, client: Party, url: string, version: string,
                                      uuid: string, persists: bool, put: Remote<Credentials>,
                                      persistsAgain: bool): Outcome {
    var partner := FindParty(s.rows, tenant, client);
    if partner.None? || partner.value.profile.None? || partner.value.profile.value.serverCredentials.None? then
      Outcome(s, Err("TypeError"))
    else
      var old_ := partner.value.profile.value;
      var profile := old_.(serverCredentials := Some(ServerCredentials(url, uuid)), version := version);
      var reply := TenantPartnerToCredentialsDto(partner.value.(profile := Some(profile)));
      if reply.Err? then Outcome(Issue(s, uuid), Err(reply.message))
      else
        var first := Persist(Issue(s, uuid), partner.value.id, profile, persists);
        if !persists then Outcome(first, Err("Persisting failed"))
        else if !put.Reply? then Outcome(first, Err("Put failed"))
        else
          Outcome(
            Persist(first, partner.value.id, Answered(profile, put.data), persistsAgain),
            if persistsAgain then Answer(reply) else Err("Persisting failed"))
  }

  /** The profile after the partner's answer to a regenerated token. */
  function Answered(profile: Profile, answer: Credentials): Profile {
    profile.(
    credentials := Some(ClientCredentials(answer.url, Some(answer.token))),
    roles := ToCredentialsRoles(answer.roles))
  }

  function UnregisterClient(s: State, tenant: Party, client: Party, deleted: bool, persists: bool): Outcome {
    var partner := FindParty(s.rows, tenant, client);
    if partner.None? then Outcome(s, Err("TypeError"))
    else if !deleted then Outcome(s, Err("Delete failed"))
    else if !persists then Outcome(s, Err("Persisting failed"))
    else Outcome(s.(rows := DeleteById(s.rows, partner.value.id)), Ok(None))
  }

  function GenerateCredentialsTokenA(s: State, tenant: Party, client: Party, url: string, version: string, uuid: string,
                                     persists: bool): Outcome {
    var partner := FindParty(s.rows, tenant, client);
    if partner.None? then Outcome(s, Err("TypeError"))
    else if partner.value.profile.Some? then Outcome(s, Err("Already has credentials token A"))
    else
      var profile := Profile(Some(ServerCredentials(url, uuid)), None, version, None, [], []);
      PersistAndReply(Issue(s, uuid), partner.value, profile, persists)
  }

  // ---------- Runs ----------

  datatype Call =
    | Post(auth: string, sent: Credentials, version: string, versions: Remote<seq<VersionInfo>>,
      details: Remote<seq<Result<string>>>, uuid: string, persists: bool)
    | Put(auth: string, sent: Credentials, uuid: string, persists: bool)
    | Delete(auth: string)
    | Register(tenant: Party, url: string, sent: Credentials, version: string, versions: Remote<seq<VersionInfo>>,
      details: Remote<seq<Result<string>>>, uuid: string, persists: bool, posted: Remote<Credentials>)
    | Regenerate(tenant: Party, client: Party, url: string, version: string, uuid: string, persists: bool,
      put: Remote<Credentials>, persistsAgain: bool)
    | Unregister(tenant: Party, client: Party, deleted: bool, persists: bool)
    | Generate(tenant: Party, client: Party, url: string, version: string, uuid: string, persists: bool)

  function Step(s: State, call: Call): Outcome {
    match call
    case Post(auth, sent, version, versions, details, uuid, persists) => PostCredentials(s, auth, sent, version,
      versions, details, uuid, persists)
    case Put(auth, sent, uuid, persists) => PutCredentials(s, auth, sent, uuid, persists)
    case Delete(auth) => DeleteCredentials(s, auth)
    case Register(tenant, url, sent, version, versions, details, uuid, persists, posted) =>
      RegisterCredentialsTokenA(s, tenant, url, sent, version, versions, details, uuid, persists, posted)
    case Regenerate(tenant, client, url, version, uuid, persists, put, persistsAgain) =>
      RegenerateCredentialsToken(s, tenant, client, url, version, uuid, persists, put, persistsAgain)
    case Unregister(tenant, client, deleted, persists) => UnregisterClient(s, tenant, client, deleted, persists)
    case Generate(tenant, client, url, version, uuid, persists) => GenerateCredentialsTokenA(s, tenant, client, url,
      version, uuid, persists)
  }

  /** New tokens are fresh. */
  predicate IsFresh(s: State, call: Call) {
    call.Delete? || call.Unregister? || call.uuid !in s.issued
  }

  ghost predicate IsRun(s: State, calls: seq<Call>)
    decreases |calls|
  {
    calls == [] || (IsFresh(s, calls[0]) && IsRun(Step(s, calls[0]).state, calls[1..]))
  }

  function Run(s: State, calls: seq<Call>): State
    requires IsRun(s, calls)
    decreases |calls|
  {
    if calls == [] then s else Run(Step(s, calls[0]).state, calls[1..])
  }

  /** Client credentials are stored only beside server credentials. */
  predicate Backed(row: PartnerRow) {
    row.profile.Some? && row.profile.value.credentials.Some? ==> row.profile.value.serverCredentials.Some?
  }

  ghost predicate Good(s: State) {
    && (forall r :: r in s.rows ==> Backed(r))
    && (forall r, t :: r in s.rows && Owns(r, t) ==> t in s.issued)
    && (forall r, r', t :: r in s.rows && r' in s.rows && Owns(r, t) && Owns(r', t) ==> r.id == r'.id)
    && (forall i, j :: 0 <= i < j < |s.rows| ==> s.rows[i].id != s.rows[j].id)
  }

  lemma UpdatedRows(rows: seq<PartnerRow>, id: nat, profile: Profile)
    ensures forall r :: r in UpdateProfile(rows, id, profile) ==>
              (r in rows && r.id != id) || (r.id == id && r.profile == Some(profile))
  {
  }

  lemma UpdateTwice(rows: seq<PartnerRow>, id: nat, first: Profile, second: Profile)
    ensures UpdateProfile(UpdateProfile(rows, id, first), id, second) == UpdateProfile(rows, id, second)
  {
  }

  /** The profile carries the new server token. */
  predicate Carries(profile: Profile, uuid: string) {
    profile.serverCredentials.Some? && profile.serverCredentials.value.token == uuid
  }

  /** All a call other than a deletion can do to the table: nothing, or give one partner a profile
      with the new server token. */
  ghost predicate Rewrites(s: State, s': State, uuid: string) {
    || s' == s
    || s' == Issue(s, uuid)
    || exists id, profile :: Carries(profile, uuid) && s' == Issue(s, uuid).(rows := UpdateProfile(s.rows, id, profile))
  }

  lemma PersistRewrites(s: State, id: nat, profile: Profile, succeeds: bool, uuid: string)
    requires Carries(profile, uuid)
    ensures Rewrites(s, Persist(Issue(s, uuid), id, profile, succeeds), uuid)
  {
  }

  predicate Deletes(call: Call) {
    call.Delete? || call.Unregister?
  }

  lemma StepRewrites(s: State, call: Call)
    requires !Deletes(call)
    ensures Rewrites(s, Step(s, call).state, call.uuid)
  {
    hide TenantPartnerToCredentialsDto, ToCredentialsRoles;
    match call
    case Post(_, _, _, _, _, _, _) =>
    case Put(_, _, _, _) =>
    case Register(_, _, _, _, _, _, _, _, _) =>
    case Regenerate(tenant, client, url, version, uuid, persists, put, persistsAgain) =>
      var partner := FindParty(s.rows, tenant, client);
      if partner.Some? && partner.value.profile.Some? {
        var old_ := partner.value.profile.value;
        var profile := old_.(serverCredentials := Some(ServerCredentials(url, uuid)), version := version);
        PersistRewrites(s, partner.value.id, profile, persists, uuid);
        if put.Reply? {
          var answered := Answered(profile, put.data);
          UpdateTwice(s.rows, partner.value.id, profile, answered);
          PersistRewrites(s, partner.value.id, answered, persistsAgain, uuid);
        }
      }
    case Generate(_, _, _, _, _, _) =>
  }

  lemma IdsKept(rows: seq<PartnerRow>, id: nat, token: string)
    requires forall i, j :: 0 <= i < j < |rows| ==> rows[i].id != rows[j].id
    ensures forall i, j :: 0 <= i < j < |DeleteById(rows, id)| ==>
            DeleteById(rows, id)[i].id != DeleteById(rows, id)[j].id
    ensures forall i, j :: 0 <= i < j < |DeleteByToken(rows, token)| ==>
            DeleteByToken(rows, token)[i].id != DeleteByToken(rows, token)[j].id
  {
    if rows != [] {
      IdsKept(rows[1..], id, token);
      forall r | r in rows[1..] ensures r.id != rows[0].id {
      }
    }
  }

  lemma StepKeepsGood(s: State, call: Call)
    requires Good(s) && IsFresh(s, call)
    ensures Good(Step(s, call).state)
  {
    var s' := Step(s, call).state;
    if call.Delete? {
      IdsKept(s.rows, 0, call.auth);
    } else if call.Unregister? {
      var partner := FindParty(s.rows, call.tenant, call.client);
      if partner.Some? {
        IdsKept(s.rows, partner.value.id, "");
      }
    } else {
      StepRewrites(s, call);
      hide Step;
      if s' != s && s' != Issue(s, call.uuid) {
        var id, profile :| Carries(profile, call.uuid)
          && s' == Issue(s, call.uuid).(rows := UpdateProfile(s.rows, id, profile));
        UpdatedRows(s.rows, id, profile);
      }
    }
  }

  /** In every run: stored credentials imply stored server credentials, and no two partners share
      a server token. */
  lemma {:induction false} RunKeepsGood(s: State, calls: seq<Call>)
    requires Good(s) && IsRun(s, calls)
    ensures Good(Run(s, calls)) && s.issued <= Run(s, calls).issued
    decreases |calls|
  {
    if calls != [] {
      StepKeepsGood(s, calls[0]);
      IssuedGrows(s, calls[0]);
      RunKeepsGood(Step(s, calls[0]).state, calls[1..]);
    }
  }

  lemma IssuedGrows(s: State, call: Call)
    ensures s.issued <= Step(s, call).state.issued
  {
    if !Deletes(call) {
      StepRewrites(s, call);
    }
  }

  lemma StepKeepsRetired(s: State, call: Call, token: string)
    requires IsFresh(s, call) && token in s.issued && Resolve(s.rows, token).None?
    ensures Resolve(Step(s, call).state.rows, token).None?
  {
    var s' := Step(s, call).state;
    if !Deletes(call) {
      StepRewrites(s, call);
      if s' != s && s' != Issue(s, call.uuid) {
        var id, profile :| Carries(profile, call.uuid)
          && s' == Issue(s, call.uuid).(rows := UpdateProfile(s.rows, id, profile));
        UpdatedRows(s.rows, id, profile);
      }
    }
  }

  /** A server token that was in use once and resolves to nobody never resolves to anybody again. */
  lemma {:induction false} RetiredTokenStaysRetired(s: State, calls: seq<Call>, token: string)
    requires IsRun(s, calls) && token in s.issued && Resolve(s.rows, token).None?
    ensures Resolve(Run(s, calls).rows, token).None?
    decreases |calls|
  {
    if calls != [] {
      StepKeepsRetired(s, calls[0], token);
      IssuedGrows(s, calls[0]);
      RetiredTokenStaysRetired(Step(s, calls[0]).state, calls[1..], token);
    }
  }

  // ---------- What each call does to tokens ----------

  lemma ResolveOwner(s: State, row: PartnerRow, token: string)
    requires Good(s) && row in s.rows && Owns(row, token)
    ensures Resolve(s.rows, token) == Some(row)
  {
    var found := Resolve(s.rows, token).value;
    assert found.id == row.id;
    var i :| 0 <= i < |s.rows| && s.rows[i] == row;
    var j :| 0 <= j < |s.rows| && s.rows[j] == found;
    assert i == j;
  }

  /** Giving a partner a new token retires its old one and leaves all others alone. */
  lemma RewriteReplaces(s: State, row: PartnerRow, profile: Profile, uuid: string, token: string)
    requires Good(s) && row in s.rows && Carries(profile, uuid) && uuid !in s.issued
    ensures
      var s' := Issue(s, uuid).(rows := UpdateProfile(s.rows, row.id, profile));
      && (var now := Resolve(s'.rows, uuid); now.Some? && now.value.id == row.id)
      && (token != uuid ==> Resolve(s'.rows, token) == if Owns(row, token) then None else Resolve(s.rows, token))
  {
    var s' := Issue(s, uuid).(rows := UpdateProfile(s.rows, row.id, profile));
    UpdatedRows(s.rows, row.id, profile);
    var i :| 0 <= i < |s.rows| && s.rows[i] == row;
    assert s'.rows[i] in s'.rows && Owns(s'.rows[i], uuid);
    if token != uuid && !Owns(row, token) {
      ResolveUpdated(s.rows, row, profile, token);
    }
    if token != uuid && Owns(row, token) {
      forall r | r in s'.rows ensures !Owns(r, token) {
      }
    }
  }

  lemma ResolveUpdated(rows: seq<PartnerRow>, row: PartnerRow, profile: Profile, token: string)
    requires forall r :: r in rows && r.id == row.id ==> r == row
    requires !Owns(row, token) && !Carries(profile, token)
    ensures Resolve(UpdateProfile(rows, row.id, profile), token) == Resolve(rows, token)
  {
    if rows != [] {
      assert UpdateProfile(rows, row.id, profile)[1..] == UpdateProfile(rows[1..], row.id, profile);
      ResolveUpdated(rows[1..], row, profile, token);
    }
  }

  /** `deleteCredentials` removes exactly the owner of the token, or throws and removes nobody. */
  lemma DeleteRemovesExactlyOwner(s: State, token: string)
    requires Good(s)
    ensures
      var deletion := DeleteCredentials(s, token);
      var owner := Resolve(s.rows, token);
      && (deletion.result.Ok? <==> owner.Some?)
      && (owner.None? ==> deletion.state == s)
      && (owner.Some? ==> |deletion.state.rows| == |s.rows| - 1 && Resolve(deletion.state.rows, token).None?
                          && forall r :: r in deletion.state.rows <==> r in s.rows && r != owner.value)
  {
    var owner := Resolve(s.rows, token);
    if owner.None? {
      DeleteNone(s.rows, token);
    } else {
      var i :| 0 <= i < |s.rows| && s.rows[i] == owner.value;
      forall j | 0 <= j < |s.rows| && j != i ensures !Owns(s.rows[j], token) {
        assert s.rows[j].id != s.rows[i].id;
      }
      DeleteOne(s.rows, token, i);
      forall r | r in s.rows && Owns(r, token) ensures r == owner.value {
        ResolveOwner(s, r, token);
      }
    }
  }

  lemma DeleteNone(rows: seq<PartnerRow>, token: string)
    requires forall r :: r in rows ==> !Owns(r, token)
    ensures DeleteByToken(rows, token) == rows
  {
    if rows != [] {
      DeleteNone(rows[1..], token);
    }
  }

  lemma DeleteOne(rows: seq<PartnerRow>, token: string, i: nat)
    requires i < |rows| && Owns(rows[i], token) && forall j :: 0 <= j < |rows| && j != i ==> !Owns(rows[j], token)
    ensures |DeleteByToken(rows, token)| == |rows| - 1
  {
    if i == 0 {
      DeleteNone(rows[1..], token);
    } else {
      DeleteOne(rows[1..], token, i - 1);
    }
  }

  /** The new token has replaced the partner's old one: it resolves to the partner, the old one to nobody,
      and every other token as before. */
  ghost predicate TokenReplaced(rows: seq<PartnerRow>, rows': seq<PartnerRow>, partner: PartnerRow, uuid: string) {
    && Resolve(rows', uuid).Some? && Resolve(rows', uuid).value.id == partner.id
    && forall token :: token != uuid ==>
         Resolve(rows', token) == if Owns(partner, token) then None else Resolve(rows, token)
  }

  lemma RewriteReplacesAll(s: State, row: PartnerRow, profile: Profile, uuid: string)
    requires Good(s) && row in s.rows && Carries(profile, uuid) && uuid !in s.issued
    ensures
      var rows' := UpdateProfile(s.rows, row.id, profile);
      rows' != s.rows && TokenReplaced(s.rows, rows', row, uuid)
  {
    var rows' := UpdateProfile(s.rows, row.id, profile);
    RewriteReplaces(s, row, profile, uuid, uuid);
    assert Resolve(s.rows, uuid).None?;
    forall token | token != uuid
      ensures Resolve(rows', token) == if Owns(row, token) then None else Resolve(s.rows, token)
    {
      RewriteReplaces(s, row, profile, uuid, token);
    }
  }

  /** What a write followed by a reply comes to: the table changes exactly when the write succeeds, the call
      returns exactly when the reply can be built as well. */
  lemma PersistThenReply(s: State, partner: PartnerRow, profile: Profile, uuid: string, persists: bool)
    requires Good(s) && partner in s.rows && Carries(profile, uuid) && uuid !in s.issued
    ensures
      var outcome := PersistAndReply(Issue(s, uuid), partner, profile, persists);
      && (outcome.state.rows != s.rows <==> persists)
      && (outcome.result.Ok? <==> persists && Repliable(partner.serverProfile))
      && (outcome.result.Ok? ==> outcome.result.value.Some? && outcome.result.value.value.token == uuid)
      && (persists ==>
            && TokenReplaced(s.rows, outcome.state.rows, partner, uuid)
            && OthersKept(s.rows, outcome.state.rows, partner.tenant, partner.client))
  {
    RewriteReplacesAll(s, partner, profile, uuid);
    WrittenKeepsOthers(s, partner, profile);
    hide OthersKept, TokenReplaced;
    ReplyIffRepliable(partner.(profile := Some(profile)));
  }

  // ---------- Which row a call writes, and what it writes there ----------

  /** Row `i` is the first of this client under this tenant. */
  ghost predicate PartyAt(rows: seq<PartnerRow>, tenant: Party, client: Party, i: nat) {
    && i < |rows| && rows[i].tenant == tenant && rows[i].client == client
    && forall j :: 0 <= j < i ==> rows[j].tenant != tenant || rows[j].client != client
  }

  lemma {:induction false} FindPartyAt(rows: seq<PartnerRow>, tenant: Party, client: Party, i: nat)
    requires PartyAt(rows, tenant, client, i)
    ensures FindParty(rows, tenant, client) == Some(rows[i])
  {
    if i > 0 {
      FindPartyAt(rows[1..], tenant, client, i - 1);
    }
  }

  /** All rows of other parties are as before, and none of theirs is new. */
  ghost predicate OthersKept(rows: seq<PartnerRow>, rows': seq<PartnerRow>, tenant: Party, client: Party) {
    forall r: PartnerRow :: r.tenant != tenant || r.client != client ==> (r in rows <==> r in rows')
  }

  /** Row `i` has a new profile, and nothing else has changed. */
  ghost predicate ProfileWritten(rows: seq<PartnerRow>, rows': seq<PartnerRow>, i: nat, profile: Profile) {
    i < |rows| && rows' == rows[i := rows[i].(profile := Some(profile))]
  }

  lemma WrittenAt(s: State, i: nat, profile: Profile)
    requires Good(s) && i < |s.rows|
    ensures ProfileWritten(s.rows, UpdateProfile(s.rows, s.rows[i].id, profile), i, profile)
  {
  }

  lemma WrittenKeepsOthers(s: State, row: PartnerRow, profile: Profile)
    requires Good(s) && row in s.rows
    ensures OthersKept(s.rows, UpdateProfile(s.rows, row.id, profile), row.tenant, row.client)
  {
    var i :| 0 <= i < |s.rows| && s.rows[i] == row;
    var rows' := UpdateProfile(s.rows, row.id, profile);
    WrittenAt(s, i, profile);
    forall r: PartnerRow | r.tenant != row.tenant || r.client != row.client ensures r in s.rows <==> r in rows' {
      if r in s.rows {
        var k :| 0 <= k < |s.rows| && s.rows[k] == r;
        assert rows'[k] == r;
      }
    }
  }

  /** What is stored of a role: no empty website, and no zero size of a logo. */
  ghost predicate KeepsRole(stored: CredentialRole, sent: RoleDto) {
    && stored.role == sent.role && stored.businessDetails.Some?
    && var kept, given := stored.businessDetails.value, sent.businessDetails;
    && kept.name == given.name && kept.website == (if given.website == Some("") then None else given.website)
    && kept.logo.Some? == given.logo.Some?
    && (given.logo.Some? ==>
          && var image, logo := kept.logo.value, given.logo.value;
          && image.url == logo.url && image.imageType == logo.imageType && image.category == logo.category
          && image.height == (if logo.height == Some(0) then None else logo.height)
          && image.width == (if logo.width == Some(0) then None else logo.width))
  }

  /** The profile holds the client credentials and the roles that were sent. */
  ghost predicate KeepsSent(profile: Profile, sent: Credentials) {
    && profile.credentials == Some(ClientCredentials(sent.url, Some(sent.token))) && |profile.roles| == |sent.roles|
    && forall k :: 0 <= k < |sent.roles| ==> KeepsRole(profile.roles[k], sent.roles[k])
  }

  lemma {:induction false} EndpointsIff(endpoints: seq<Result<string>>)
    ensures ToEndpoints(endpoints).Ok? <==> forall e :: e in endpoints ==> e.Ok?
    ensures ToEndpoints(endpoints).Ok? ==>
              && |ToEndpoints(endpoints).value| == |endpoints|
              && forall k :: 0 <= k < |endpoints| ==> endpoints[k] == Ok(ToEndpoints(endpoints).value[k])
  {
    if endpoints != [] {
      EndpointsIff(endpoints[1..]);
      assert forall e :: e in endpoints <==> e == endpoints[0] || e in endpoints[1..];
    }
  }

  lemma {:induction false} FindVersionAt(versions: seq<VersionInfo>, version: string, i: nat)
    requires FirstVersion(versions, version, i)
    ensures FindVersion(versions, version) == Some(versions[i])
  {
    if i > 0 {
      FindVersionAt(versions[1..], version, i - 1);
    }
  }

  /** The details of a version can be read exactly when both answers carry data, the version is listed and all its
      endpoints are known. They are the first such version's URL and all the endpoints, in order. */
  lemma VersionDetailsIff(profile: Profile, versions: Remote<seq<VersionInfo>>, details: Remote<seq<Result<string>>>)
    ensures
      var read := GetVersionDetails(profile, versions, details);
      && (read.Ok?
          <==> && versions.Reply? && details.Reply? && (forall e :: e in details.data ==> e.Ok?)
               && exists v :: v in versions.data && v.version == profile.version)
      && (read.Ok? ==>
            && read.value == profile.(versionDetailsUrl := read.value.versionDetailsUrl,
                 endpoints := read.value.endpoints)
            && (forall i: nat :: FirstVersion(versions.data, profile.version, i) ==>
                  read.value.versionDetailsUrl == Some(versions.data[i].url))
            && |read.value.endpoints| == |details.data|
            && forall k :: 0 <= k < |details.data| ==> details.data[k] == Ok(read.value.endpoints[k]))
  {
    if versions.Reply? {
      forall i: nat | FirstVersion(versions.data, profile.version, i)
        ensures FindVersion(versions.data, profile.version) == Some(versions.data[i])
      {
        FindVersionAt(versions.data, profile.version, i);
      }
    }
    if details.Reply? {
      EndpointsIff(details.data);
    }
  }

  lemma RegisteredKeepsSent(profile: Profile, server: ServerCredentials, sent: Credentials)
    ensures
      var p := Registered(profile, server, sent);
      && KeepsSent(p, sent) && p.serverCredentials == Some(server)
      && p == profile.(serverCredentials := p.serverCredentials, credentials := p.credentials, roles := p.roles)
  {
  }

  /** A written PUT gives the caller's row the new server token, and the client credentials and roles that were
      sent; the rest of the row and all other rows stay. */
  lemma PutWritesCaller(s: State, i: nat, versionsUrl: string, auth: string, sent: Credentials, uuid: string)
    requires Good(s) && i < |s.rows| && s.rows[i].profile.Some? && s.rows[i].profile.value.credentials.Some?
    requires s.rows[i].profile.value.serverCredentials == Some(ServerCredentials(versionsUrl, auth))
    ensures
      exists p: Profile ::
        && ProfileWritten(s.rows, PutCredentials(s, auth, sent, uuid, true).state.rows, i, p) && KeepsSent(p, sent)
        && p.serverCredentials == Some(ServerCredentials(versionsUrl, uuid))
        && p == s.rows[i].profile.value.(serverCredentials := p.serverCredentials, credentials := p.credentials,
             roles := p.roles)
  {
    ResolveOwner(s, s.rows[i], auth);
    var profile := s.rows[i].profile.value;
    var p := Registered(profile, Renewed(profile, uuid), sent);
    RegisteredKeepsSent(profile, Renewed(profile, uuid), sent);
    WrittenAt(s, i, p);
    hide KeepsSent, ToCredentialsRoles, ProfileWritten, TenantPartnerToCredentialsDto;
    assert PutCredentials(s, auth, sent, uuid, true).state.rows == UpdateProfile(s.rows, s.rows[i].id, p);
  }

  /** A written POST does the same to a caller that had no client credentials, and files besides the URL of the first
      listed version that has the expected number, and all its endpoints. */
  lemma PostWritesCaller(s: State, i: nat, versionsUrl: string, auth: string, sent: Credentials,
                         listed: seq<VersionInfo>, v: nat, endpoints: seq<Result<string>>, uuid: string)
    requires Good(s) && i < |s.rows| && s.rows[i].profile.Some? && s.rows[i].profile.value.credentials.None?
    requires s.rows[i].profile.value.serverCredentials == Some(ServerCredentials(versionsUrl, auth))
    requires FirstVersion(listed, s.rows[i].profile.value.version, v) && forall e :: e in endpoints ==> e.Ok?
    ensures
      var was := s.rows[i].profile.value;
      var post := PostCredentials(s, auth, sent, was.version, Reply(listed), Reply(endpoints), uuid, true);
      exists p: Profile ::
        && ProfileWritten(s.rows, post.state.rows, i, p) && KeepsSent(p, sent)
        && p.serverCredentials == Some(ServerCredentials(versionsUrl, uuid)) && p.version == was.version
        && p.versionDetailsUrl == Some(listed[v].url) && |p.endpoints| == |endpoints|
        && forall k :: 0 <= k < |endpoints| ==> endpoints[k] == Ok(p.endpoints[k])
  {
    ResolveOwner(s, s.rows[i], auth);
    var was := s.rows[i].profile.value;
    VersionDetailsIff(was, Reply(listed), Reply(endpoints));
    assert listed[v] in listed;
    var read := GetVersionDetails(was, Reply(listed), Reply(endpoints)).value;
    var p := Registered(read, Renewed(read, uuid), sent);
    RegisteredKeepsSent(read, Renewed(read, uuid), sent);
    WrittenAt(s, i, p);
    var post := PostCredentials(s, auth, sent, was.version, Reply(listed), Reply(endpoints), uuid, true);
    hide KeepsSent, ToCredentialsRoles, ProfileWritten, TenantPartnerToCredentialsDto, GetVersionDetails;
    assert post.state.rows == UpdateProfile(s.rows, s.rows[i].id, p);
  }

  /** A written registration gives this client's row a server token under the given URL, what was sent, and the
      version's details. */
  lemma RegisterWritesParty(s: State, i: nat, tenant: Party, versionsUrl: string, sent: Credentials,
                            listed: seq<VersionInfo>, v: nat, endpoints: seq<Result<string>>, uuid: string,
                            posted: Remote<Credentials>)
    requires Good(s) && sent.roles != [] && PartyAt(s.rows, tenant, sent.roles[0].party, i)
    requires s.rows[i].profile.Some? && s.rows[i].profile.value.serverCredentials.None?
    requires FirstVersion(listed, s.rows[i].profile.value.version, v) && forall e :: e in endpoints ==> e.Ok?
    ensures
      var was := s.rows[i].profile.value;
      var registered := RegisterCredentialsTokenA(s, tenant, versionsUrl, sent, was.version, Reply(listed),
        Reply(endpoints), uuid, true, posted);
      && (registered.result.Ok? ==>
            registered.result.value == if posted.Reply? then Some(posted.data) else None)
      && exists p: Profile ::
           && ProfileWritten(s.rows, registered.state.rows, i, p) && KeepsSent(p, sent)
           && p.serverCredentials == Some(ServerCredentials(versionsUrl, uuid)) && p.version == was.version
           && p.versionDetailsUrl == Some(listed[v].url) && |p.endpoints| == |endpoints|
           && forall k :: 0 <= k < |endpoints| ==> endpoints[k] == Ok(p.endpoints[k])
  {
    FindPartyAt(s.rows, tenant, sent.roles[0].party, i);
    var was := s.rows[i].profile.value;
    VersionDetailsIff(was, Reply(listed), Reply(endpoints));
    assert listed[v] in listed;
    var read := GetVersionDetails(was, Reply(listed), Reply(endpoints)).value;
    var p := Registered(read, ServerCredentials(versionsUrl, uuid), sent);
    RegisteredKeepsSent(read, ServerCredentials(versionsUrl, uuid), sent);
    WrittenAt(s, i, p);
    var registered := RegisterCredentialsTokenA(s, tenant, versionsUrl, sent, was.version, Reply(listed),
      Reply(endpoints), uuid, true, posted);
    hide KeepsSent, ToCredentialsRoles, ProfileWritten, TenantPartnerToCredentialsDto, GetVersionDetails, FindParty;
    assert registered.state.rows == UpdateProfile(s.rows, s.rows[i].id, p);
  }

  /** A regeneration that is written, answered and written again gives this client's row the new server credentials
      and version, and the client credentials and roles of the answer. */
  lemma RegenerateWritesParty(s: State, i: nat, tenant: Party, client: Party, url: string, version: string,
                              uuid: string, answer: Credentials)
    requires Good(s) && PartyAt(s.rows, tenant, client, i)
    requires s.rows[i].profile.Some? && s.rows[i].profile.value.serverCredentials.Some?
    requires Repliable(s.rows[i].serverProfile)
    ensures
      var regenerated := RegenerateCredentialsToken(s, tenant, client, url, version, uuid, true, Reply(answer), true);
      && regenerated.result.Ok? && regenerated.result.value.Some?
      && regenerated.result.value.value.token == uuid && regenerated.result.value.value.url == url
      && exists p: Profile ::
           && ProfileWritten(s.rows, regenerated.state.rows, i, p) && KeepsSent(p, answer)
           && p.serverCredentials == Some(ServerCredentials(url, uuid)) && p.version == version
           && p.versionDetailsUrl == s.rows[i].profile.value.versionDetailsUrl
           && p.endpoints == s.rows[i].profile.value.endpoints
  {
    FindPartyAt(s.rows, tenant, client, i);
    var row, was := s.rows[i], s.rows[i].profile.value;
    var first := was.(serverCredentials := Some(ServerCredentials(url, uuid)), version := version);
    ReplyIffRepliable(row.(profile := Some(first)));
    var p := Answered(first, answer);
    assert KeepsSent(p, answer);
    UpdateTwice(s.rows, row.id, first, p);
    WrittenAt(s, i, p);
    var regenerated := RegenerateCredentialsToken(s, tenant, client, url, version, uuid, true, Reply(answer), true);
    hide KeepsSent, ToCredentialsRoles, ProfileWritten, TenantPartnerToCredentialsDto, FindParty, Repliable;
    assert regenerated.state.rows == UpdateProfile(s.rows, row.id, p);
  }

  /** A written generation gives this client's row, which had no profile, its first one: a server token and a version,
      and nothing from the client. */
  lemma GenerateWritesParty(s: State, i: nat, tenant: Party, client: Party, url: string, version: string, uuid: string)
    requires Good(s) && PartyAt(s.rows, tenant, client, i) && s.rows[i].profile.None?
    ensures ProfileWritten(s.rows, GenerateCredentialsTokenA(s, tenant, client, url, version, uuid, true).state.rows, i,
            Profile(Some(ServerCredentials(url, uuid)), None, version, None, [], []))
  {
    FindPartyAt(s.rows, tenant, client, i);
    WrittenAt(s, i, Profile(Some(ServerCredentials(url, uuid)), None, version, None, [], []));
    hide ProfileWritten, FindParty, TenantPartnerToCredentialsDto;
  }

  /** Unregistering takes out this client's row and no other. */
  lemma UnregisterRemovesParty(s: State, i: nat, tenant: Party, client: Party)
    requires Good(s) && PartyAt(s.rows, tenant, client, i)
    ensures UnregisterClient(s, tenant, client, true, true).state.rows == s.rows[..i] + s.rows[i + 1..]
  {
    FindPartyAt(s.rows, tenant, client, i);
    DeletedAt(s.rows, i);
  }

  lemma {:induction false} DeletedAt(rows: seq<PartnerRow>, i: nat)
    requires i < |rows| && forall j :: 0 <= j < |rows| && j != i ==> rows[j].id != rows[i].id
    ensures DeleteById(rows, rows[i].id) == rows[..i] + rows[i + 1..]
  {
    if i == 0 {
      DeletedNone(rows[1..], rows[0].id);
    } else {
      DeletedAt(rows[1..], i - 1);
    }
  }

  lemma {:induction false} DeletedNone(rows: seq<PartnerRow>, id: nat)
    requires forall j :: 0 <= j < |rows| ==> rows[j].id != id
    ensures DeleteById(rows, id) == rows
  {
    if rows != [] {
      DeletedNone(rows[1..], id);
    }
  }

  /** When a PUT writes: the caller is known and registered, and the write succeeds. */
  predicate PutWrites(s: State, auth: string, persists: bool) {
    var partner := Resolve(s.rows, auth);
    partner.Some? && partner.value.profile.value.credentials.Some? && persists
  }

  /** A PUT changes the table exactly when it writes, and then replaces the caller's token; it returns exactly
      when, besides, a reply can be built from the tenant's profile. So it throws with the token replaced, and
      the partner never told, exactly when it writes and that profile is not repliable. */
  lemma PutReplacesToken(s: State, auth: string, sent: Credentials, uuid: string, persists: bool)
    requires Good(s) && uuid !in s.issued
    ensures
      var put, partner := PutCredentials(s, auth, sent, uuid, persists), Resolve(s.rows, auth);
      && (put.state.rows != s.rows <==> PutWrites(s, auth, persists))
      && (put.result.Ok? <==> PutWrites(s, auth, persists) && Repliable(partner.value.serverProfile))
      && (put.result.Ok? ==> put.result.value.Some? && put.result.value.value.token == uuid)
      && (put.result.Err? && put.state.rows != s.rows
          <==> PutWrites(s, auth, persists) && !Repliable(partner.value.serverProfile))
      && (PutWrites(s, auth, persists) ==> TokenReplaced(s.rows, put.state.rows, partner.value, uuid))
  {
    var partner := Resolve(s.rows, auth);
    if partner.Some? && partner.value.profile.value.credentials.Some? {
      var profile := partner.value.profile.value;
      hide Repliable, TokenReplaced, OthersKept, PersistAndReply, TenantPartnerToCredentialsDto, ToCredentialsRoles;
      PersistThenReply(s, partner.value, Registered(profile, Renewed(profile, uuid), sent), uuid, persists);
    }
  }

  /** When a POST writes: the caller is known but not registered, expects this version, its version and
      endpoints can be read, and the write succeeds. */
  predicate PostWrites(s: State, auth: string, version: string, versions: Remote<seq<VersionInfo>>,
                       details: Remote<seq<Result<string>>>, persists: bool) {
    var partner := Resolve(s.rows, auth);
    && partner.Some? && partner.value.profile.value.credentials.None? && partner.value.profile.value.version == version
    && GetVersionDetails(partner.value.profile.value, versions, details).Ok? && persists
  }

  /** The same for POST, which also registers the partner. */
  lemma PostReplacesToken(s: State, auth: string, sent: Credentials, version: string,
                          versions: Remote<seq<VersionInfo>>, details: Remote<seq<Result<string>>>, uuid: string,
                          persists: bool)
    requires Good(s) && uuid !in s.issued
    ensures
      var post := PostCredentials(s, auth, sent, version, versions, details, uuid, persists);
      var partner, writes := Resolve(s.rows, auth), PostWrites(s, auth, version, versions, details, persists);
      && (post.state.rows != s.rows <==> writes)
      && (post.result.Ok? <==> writes && Repliable(partner.value.serverProfile))
      && (post.result.Ok? ==> post.result.value.Some? && post.result.value.value.token == uuid)
      && (post.result.Err? && post.state.rows != s.rows <==> writes && !Repliable(partner.value.serverProfile))
      && (writes ==>
            && TokenReplaced(s.rows, post.state.rows, partner.value, uuid)
            && Resolve(post.state.rows, uuid).value.profile.value.credentials
               == Some(ClientCredentials(sent.url, Some(sent.token))))
  {
    var partner := Resolve(s.rows, auth);
    var post := PostCredentials(s, auth, sent, version, versions, details, uuid, persists);
    if partner.Some? && PostWrites(s, auth, version, versions, details, true) {
      var detailed := GetVersionDetails(partner.value.profile.value, versions, details).value;
      var registered := Registered(detailed, Renewed(detailed, uuid), sent);
      UpdatedRows(s.rows, partner.value.id, registered);
      assert persists ==> post.state.rows == UpdateProfile(s.rows, partner.value.id, registered);
      PersistThenReply(s, partner.value, registered, uuid, persists);
      hide Repliable, PersistAndReply, TenantPartnerToCredentialsDto, ToCredentialsRoles, GetVersionDetails;
    }
  }

  /** The seeded default tenant, whose logo is an svg image, and one of its registered partners. */
  function SvgTenantRow(client: Party, token: string): PartnerRow {
    var logo := Image("https://citrineos.github.io/latest/assets/img/Icon.svg", "svg", "OPERATOR", Some(80), Some(200));
    var details := BusinessDetails("CitrineOSElectricVehicleSolutions", Some("https://citrineos.github.io"),
      Some(logo));
    PartnerRow(
      1, Party("US", "S44"), Some(ServerProfile(Some(CredentialRole(CPO, Some(details))))), client,
      Some(Profile(
        Some(ServerCredentials("versions", token)), Some(ClientCredentials("versions", Some("theirs"))), "2.2.1", None,
        [],
        [])))
  }

  /** There, every PUT whose write succeeds throws with the token replaced. */
  lemma SvgTenantPutThrows(client: Party, token: string, sent: Credentials, uuid: string)
    requires uuid != token
    ensures
      var s := State([SvgTenantRow(client, token)], {token});
      var put := PutCredentials(s, token, sent, uuid, true);
      put.result == Err("Unknown image type") && Resolve(put.state.rows, token).None?
        && Resolve(put.state.rows, uuid).Some?
  {
    var s := State([SvgTenantRow(client, token)], {token});
    assert Resolve(s.rows, token) == Some(s.rows[0]);
    PutReplacesToken(s, token, sent, uuid, true);
  }

  lemma UnregisterKeepsOthers(s: State, tenant: Party, client: Party, deleted: bool, persists: bool)
    requires Good(s)
    ensures OthersKept(s.rows, UnregisterClient(s, tenant, client, deleted, persists).state.rows, tenant, client)
  {
    hide Owns, DeleteById;
    var partner := FindParty(s.rows, tenant, client);
    if partner.Some? {
      forall r | r in s.rows && r.id == partner.value.id ensures r == partner.value {
        var i :| 0 <= i < |s.rows| && s.rows[i] == r;
        var j :| 0 <= j < |s.rows| && s.rows[j] == partner.value;
      }
    }
  }

  /** Unregistering removes the partner alone, if the partner's answer and the deletion succeed. Its server
      token then resolves to nobody, in every later run; every other token resolves as before. */
  lemma UnregisterRetiresToken(s: State, tenant: Party, client: Party, deleted: bool, persists: bool, token: string,
                               calls: seq<Call>)
    requires Good(s) && IsRun(UnregisterClient(s, tenant, client, deleted, persists).state, calls)
    ensures
      var unregistered := UnregisterClient(s, tenant, client, deleted, persists);
      var partner := FindParty(s.rows, tenant, client);
      && (unregistered.result.Ok?
          <==> (exists r :: r in s.rows && r.tenant == tenant && r.client == client) && deleted && persists)
      && (unregistered.result.Err? ==> unregistered.state == s)
      && (unregistered.result.Ok? ==>
            && OthersKept(s.rows, unregistered.state.rows, tenant, client) && partner.Some?
            && (forall r :: r in unregistered.state.rows <==> r in s.rows && r != partner.value)
            && Resolve(unregistered.state.rows, token)
              == (if Owns(partner.value, token) then None else Resolve(s.rows, token))
            && (Owns(partner.value, token) ==> Resolve(Run(unregistered.state, calls).rows, token).None?))
  {
    var unregistered := UnregisterClient(s, tenant, client, deleted, persists);
    if unregistered.result.Ok? {
      var partner := FindParty(s.rows, tenant, client).value;
      UnregisterKeepsOthers(s, tenant, client, deleted, persists);
      hide OthersKept;
      if !Owns(partner, token) {
        DeletedResolve(s.rows, partner.id, token);
      } else {
        ResolveOwner(s, partner, token);
        assert forall r :: r in unregistered.state.rows ==> !Owns(r, token);
        RetiredTokenStaysRetired(unregistered.state, calls, token);
      }
    }
  }

  lemma {:induction false} DeletedResolve(rows: seq<PartnerRow>, id: nat, token: string)
    requires forall r :: r in rows && r.id == id ==> !Owns(r, token)
    ensures Resolve(DeleteById(rows, id), token) == Resolve(rows, token)
  {
    hide Owns;
    if rows != [] {
      var head, rest := rows[0], DeleteById(rows[1..], id);
      DeletedResolve(rows[1..], id, token);
      if head.id == id {
        assert head in rows && DeleteById(rows, id) == rest;
      } else {
        assert DeleteById(rows, id) == [head] + rest && ([head] + rest)[1..] == rest;
      }
    }
  }

  /** When generating writes: the partner is there without a profile, and the write succeeds. */
  predicate GenerateWrites(s: State, tenant: Party, client: Party, persists: bool) {
    var partner := FindParty(s.rows, tenant, client);
    partner.Some? && partner.value.profile.None? && persists
  }

  /** The same for generating, after which the partner has its first token. */
  lemma GenerateHalfDoneIff(s: State, tenant: Party, client: Party, url: string, version: string, uuid: string,
                            persists: bool)
    requires Good(s) && uuid !in s.issued
    ensures
      var generated := GenerateCredentialsTokenA(s, tenant, client, url, version, uuid, persists);
      var partner, writes := FindParty(s.rows, tenant, client), GenerateWrites(s, tenant, client, persists);
      && (generated.state.rows != s.rows <==> writes)
      && (generated.result.Ok? <==> writes && Repliable(partner.value.serverProfile))
      && (generated.result.Err? && generated.state.rows != s.rows
          <==> writes && !Repliable(partner.value.serverProfile))
      && (writes ==>
            && TokenReplaced(s.rows, generated.state.rows, partner.value, uuid)
            && OthersKept(s.rows, generated.state.rows, tenant, client))
  {
    var partner := FindParty(s.rows, tenant, client);
    if partner.Some? && partner.value.profile.None? {
      hide Repliable, TokenReplaced, OthersKept, PersistAndReply, TenantPartnerToCredentialsDto;
      var profile := Profile(Some(ServerCredentials(url, uuid)), None, version, None, [], []);
      PersistThenReply(s, partner.value, profile, uuid, persists);
    }
  }

  /** When regenerating writes first: the partner has a token, a reply can be built, and the write succeeds. */
  predicate RegenerateWrites(s: State, tenant: Party, client: Party, persists: bool) {
    var partner := FindParty(s.rows, tenant, client);
    && partner.Some? && partner.value.profile.Some? && partner.value.profile.value.serverCredentials.Some?
    && Repliable(partner.value.serverProfile) && persists
  }

  /** Regeneration is not all-or-nothing: it throws although the table changed exactly when the first write
      succeeded and then the partner's answer or the second write failed. The new token is then in force all
      the same, and the old one retired. Its reply is built first, so an unrepliable profile changes nothing. */
  lemma RegenerateHalfDoneIff(s: State, tenant: Party, client: Party, url: string, version: string, uuid: string,
                              persists: bool, put: Remote<Credentials>, persistsAgain: bool)
    requires Good(s) && uuid !in s.issued
    ensures
      var regenerated := RegenerateCredentialsToken(s, tenant, client, url, version, uuid, persists, put,
        persistsAgain);
      var partner, writes := FindParty(s.rows, tenant, client), RegenerateWrites(s, tenant, client, persists);
      && (regenerated.state.rows != s.rows <==> writes)
      && (regenerated.result.Ok? <==> writes && put.Reply? && persistsAgain)
      && (regenerated.result.Err? && regenerated.state.rows != s.rows <==> writes && !(put.Reply? && persistsAgain))
      && (writes ==>
            && TokenReplaced(s.rows, regenerated.state.rows, partner.value, uuid)
            && OthersKept(s.rows, regenerated.state.rows, tenant, client))
  {
    var partner := FindParty(s.rows, tenant, client);
    if partner.Some? && partner.value.profile.Some? && partner.value.profile.value.serverCredentials.Some? {
      var old_ := partner.value.profile.value;
      var profile := old_.(serverCredentials := Some(ServerCredentials(url, uuid)), version := version);
      ReplyIffRepliable(partner.value.(profile := Some(profile)));
      RewriteReplacesAll(s, partner.value, profile, uuid);
      WrittenKeepsOthers(s, partner.value, profile);
      hide Repliable, TokenReplaced, OthersKept, TenantPartnerToCredentialsDto, ToCredentialsRoles;
      if put.Reply? {
        var answered := Answered(profile, put.data);
        UpdateTwice(s.rows, partner.value.id, profile, answered);
        RewriteReplacesAll(s, partner.value, answered, uuid);
        WrittenKeepsOthers(s, partner.value, answered);
      }
    }
  }

  /** When registering writes: the partner expects this version but has no server token yet, its version and
      endpoints can be read, and the write succeeds. */
  predicate RegisterWrites(s: State, tenant: Party, sent: Credentials, version: string,
                           versions: Remote<seq<VersionInfo>>, details: Remote<seq<Result<string>>>, persists: bool) {
    sent.roles != [] &&
    var partner := FindParty(s.rows, tenant, sent.roles[0].party);
    && partner.Some? && partner.value.profile.Some? && partner.value.profile.value.serverCredentials.None?
    && partner.value.profile.value.version == version
    && GetVersionDetails(partner.value.profile.value, versions, details).Ok? && persists
  }

  /** Registering returns exactly when it writes, a reply can be built and the partner takes it. Otherwise, if
      it wrote, it throws with the partner registered. */
  lemma RegisterHalfDoneIff(s: State, tenant: Party, versionsUrl: string, sent: Credentials, version: string,
                            versions: Remote<seq<VersionInfo>>, details: Remote<seq<Result<string>>>, uuid: string,
                            persists: bool, posted: Remote<Credentials>)
    requires Good(s) && uuid !in s.issued
    ensures
      var registered := RegisterCredentialsTokenA(s, tenant, versionsUrl, sent, version, versions, details, uuid,
        persists, posted);
      var writes := RegisterWrites(s, tenant, sent, version, versions, details, persists);
      && (registered.state.rows != s.rows <==> writes)
      && (writes ==>
            && var partner := FindParty(s.rows, tenant, sent.roles[0].party).value;
            && (registered.result.Ok? <==> Repliable(partner.serverProfile) && !posted.Unreachable?)
            && TokenReplaced(s.rows, registered.state.rows, partner, uuid)
            && OthersKept(s.rows, registered.state.rows, tenant, sent.roles[0].party)
            && HasToken(registered.state.rows, tenant, sent.roles[0].party))
      && (!writes ==> registered.result.Err?)
  {
    if RegisterWrites(s, tenant, sent, version, versions, details, true) {
      var client := sent.roles[0].party;
      var partner := FindParty(s.rows, tenant, client).value;
      var detailed := GetVersionDetails(partner.profile.value, versions, details).value;
      var profile := Registered(detailed, ServerCredentials(versionsUrl, uuid), sent);
      PersistThenReply(s, partner, profile, uuid, persists);
      FindUpdated(s.rows, tenant, client, partner.id, profile);
      hide Repliable, TokenReplaced, OthersKept, TenantPartnerToCredentialsDto, ToCredentialsRoles, GetVersionDetails,
        FindParty;
    }
  }

  /** The partner is there and has a server token. */
  predicate HasToken(rows: seq<PartnerRow>, tenant: Party, client: Party) {
    var partner := FindParty(rows, tenant, client);
    partner.Some? && partner.value.profile.Some? && partner.value.profile.value.serverCredentials.Some?
  }

  /** Writing a profile does not change which row is a party's. */
  lemma {:induction false} FindUpdated(rows: seq<PartnerRow>, tenant: Party, client: Party, id: nat, profile: Profile)
    ensures
      var before, after := FindParty(rows, tenant, client), FindParty(UpdateProfile(rows, id, profile), tenant, client);
      if before.Some? && before.value.id == id then after == Some(before.value.(profile := Some(profile)))
      else after == before
  {
    if rows != [] {
      assert UpdateProfile(rows, id, profile)[1..] == UpdateProfile(rows[1..], id, profile);
      FindUpdated(rows[1..], tenant, client, id, profile);
    }
  }

  /** Once a partner has a server token, every retry of registering it fails and changes nothing, however many
      other calls come in between, until a call deletes a partner. */
  lemma {:induction false} RegisterRetryFails(s: State, calls: seq<Call>, tenant: Party, versionsUrl: string,
                                              sent: Credentials, version: string, versions: Remote<seq<VersionInfo>>,
                                              details: Remote<seq<Result<string>>>, uuid: string, persists: bool,
                                              posted: Remote<Credentials>)
    requires IsRun(s, calls) && forall i :: 0 <= i < |calls| ==> !Deletes(calls[i])
    requires sent.roles != [] && HasToken(s.rows, tenant, sent.roles[0].party)
    ensures
      var s' := Run(s, calls);
      RegisterCredentialsTokenA(s', tenant, versionsUrl, sent, version, versions, details, uuid, persists, posted)
      == Outcome(s', Err("AlreadyRegistered"))
    decreases |calls|
  {
    if calls != [] {
      assert !Deletes(calls[0]);
      StepKeepsToken(s, calls[0], tenant, sent.roles[0].party);
      RegisterRetryFails(Step(s, calls[0]).state, calls[1..], tenant, versionsUrl, sent, version, versions, details,
        uuid, persists, posted);
    }
  }

  lemma StepKeepsToken(s: State, call: Call, tenant: Party, client: Party)
    requires !Deletes(call) && HasToken(s.rows, tenant, client)
    ensures HasToken(Step(s, call).state.rows, tenant, client)
  {
    StepRewrites(s, call);
    hide Step;
    var s' := Step(s, call).state;
    if s' != s && s' != Issue(s, call.uuid) {
      var id, profile :| Carries(profile, call.uuid)
        && s' == Issue(s, call.uuid).(rows := UpdateProfile(s.rows, id, profile));
      FindUpdated(s.rows, tenant, client, id, profile);
    }
  }
}
