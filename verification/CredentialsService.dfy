/** The credentials service as the source runs it: it assigns the fields of a working copy of the
    partner's profile one by one, then persists the copy. */
module CredentialsServiceModel {
  import opened Wrappers
  import Spec = Registration

  class CredentialsService {
    var rows: seq<Spec.PartnerRow>
    ghost var issued: set<string>

    ghost function Current(): Spec.State
      reads this
    {
      Spec.State(rows, issued)
    }

    constructor (partners: seq<Spec.PartnerRow>, ghost issued: set<string>)
      ensures Current() == Spec.State(partners, issued)
    {
      rows, this.issued := partners, issued;
    }

    /** The update of the profile column; it may fail. */
    method UpdatePartnerProfile(id: nat, profile: Spec.Profile, succeeds: bool)
      modifies this`rows
      ensures rows == if succeeds then Spec.UpdateProfile(old(rows), id, profile) else old(rows)
    {
      if succeeds {
        rows := Spec.UpdateProfile(rows, id, profile);
      }
    }

    method PostCredentials(auth: string, sent: Spec.Credentials, version: string,
                           versions: Spec.Remote<seq<Spec.VersionInfo>>, details: Spec.Remote<seq<Result<string>>>,
                           uuid: string, persists: bool) returns (result: Result<Option<Spec.Credentials>>)
      modifies this
      ensures Spec.Outcome(Current(), result)
              == Spec.PostCredentials(old(Current()), auth, sent, version, versions, details, uuid, persists)
    {
      var partner := Spec.Resolve(rows, auth);
      if partner.None? {
        return Err("Unauthorized");
      }
      var profile := partner.value.profile.value;
      if profile.credentials.Some? {
        return Err("AlreadyRegistered");
      }
      if version != profile.version {
        return Err("NotFound");
      }
      var detailed := Spec.GetVersionDetails(profile, versions, details);
      if detailed.Err? {
        return Err(detailed.message);
      }
      profile := detailed.value;
      issued := issued + {uuid};
      profile := profile.(serverCredentials := Some(profile.serverCredentials.value.(token := uuid)));
      profile := profile.(credentials := Some(Spec.ClientCredentials(sent.url, Some(sent.token))));
      profile := profile.(roles := Spec.ToCredentialsRoles(sent.roles));
      UpdatePartnerProfile(partner.value.id, profile, persists);
      if !persists {
        return Err("Persisting failed");
      }
      result := Spec.Answer(Spec.TenantPartnerToCredentialsDto(partner.value.(profile := Some(profile))));
    }

    method PutCredentials(auth: string, sent: Spec.Credentials, uuid: string, persists: bool)
      returns (result: Result<Option<Spec.Credentials>>)
      modifies this
      ensures Spec.Outcome(Current(), result) == Spec.PutCredentials(old(Current()), auth, sent, uuid, persists)
    {
      var partner := Spec.Resolve(rows, auth);
      if partner.None? {
        return Err("Unauthorized");
      }
      var profile := partner.value.profile.value;
      if profile.credentials.None? {
        return Err("NotRegistered");
      }
      issued := issued + {uuid};
      profile := profile.(serverCredentials := Some(profile.serverCredentials.value.(token := uuid)));
      profile := profile.(credentials := Some(Spec.ClientCredentials(sent.url, Some(sent.token))));
      profile := profile.(roles := Spec.ToCredentialsRoles(sent.roles));
      UpdatePartnerProfile(partner.value.id, profile, persists);
      if !persists {
        return Err("Persisting failed");
      }
      result := Spec.Answer(Spec.TenantPartnerToCredentialsDto(partner.value.(profile := Some(profile))));
    }

    method DeleteCredentials(token: string) returns (result: Result<Option<Spec.Credentials>>)
      modifies this
      ensures Spec.Outcome(Current(), result) == Spec.DeleteCredentials(old(Current()), token)
    {
      var before := |rows|;
      rows := Spec.DeleteByToken(rows, token);
      result := if |rows| == before then Err("NotFound") else Ok(None);
    }

    method RegisterCredentialsTokenA(tenant: Spec.Party, versionsUrl: string, sent: Spec.Credentials, version: string,
                                     versions: Spec.Remote<seq<Spec.VersionInfo>>,
                                     details: Spec.Remote<seq<Result<string>>>, uuid: string, persists: bool,
                                     posted: Spec.Remote<Spec.Credentials>)
      returns (result: Result<Option<Spec.Credentials>>)
      modifies this
      ensures Spec.Outcome(Current(), result)
           == Spec.RegisterCredentialsTokenA(old(Current()), tenant, versionsUrl, sent, version, versions, details,
             uuid, persists, posted)
    {
      hide Spec.TenantPartnerToCredentialsDto, Spec.ToCredentialsRoles, Spec.UpdateProfile, Spec.FindParty;
      if sent.roles == [] {
        return Err("TypeError");
      }
      var partner := Spec.FindParty(rows, tenant, sent.roles[0].party);
      if partner.None? || partner.value.profile.None? {
        return Err("TypeError");
      }
      var profile := partner.value.profile.value;
      if profile.serverCredentials.Some? {
        return Err("AlreadyRegistered");
      }
      if version != profile.version {
        return Err("NotFound");
      }
      profile := profile.(credentials := Some(Spec.ClientCredentials(sent.url, Some(sent.token))));
      profile := profile.(roles := Spec.ToCredentialsRoles(sent.roles));
      var detailed := Spec.GetVersionDetails(profile, versions, details);
      if detailed.Err? {
        return Err(detailed.message);
      }
      profile := detailed.value;
      issued := issued + {uuid};
      profile := profile.(serverCredentials := Some(Spec.ServerCredentials(versionsUrl, uuid)));
      UpdatePartnerProfile(partner.value.id, profile, persists);
      if !persists {
        return Err("Persisting failed");
      }
      var reply := Spec.TenantPartnerToCredentialsDto(partner.value.(profile := Some(profile)));
      if reply.Err? {
        return Err(reply.message);
      }
      if posted.Unreachable? {
        return Err("Post failed");
      }
      result := Ok(if posted.Reply? then Some(posted.data) else None);
    }

    method RegenerateCredentialsToken(tenant: Spec.Party, client: Spec.Party, url: string, version: string,
                                      uuid: string, persists: bool, put: Spec.Remote<Spec.Credentials>,
                                      persistsAgain: bool) returns (result: Result<Option<Spec.Credentials>>)
      modifies this
      ensures Spec.Outcome(Current(), result)
           == Spec.RegenerateCredentialsToken(old(Current()), tenant, client, url, version, uuid, persists, put,
             persistsAgain)
    {
      var partner := Spec.FindParty(rows, tenant, client);
      if partner.None? || partner.value.profile.None? || partner.value.profile.value.serverCredentials.None? {
        return Err("TypeError");
      }
      var profile := partner.value.profile.value;
      issued := issued + {uuid};
      profile := profile.(serverCredentials := Some(profile.serverCredentials.value.(versionsUrl := url)));
      profile := profile.(serverCredentials := Some(profile.serverCredentials.value.(token := uuid)));
      profile := profile.(version := version);
      var reply := Spec.TenantPartnerToCredentialsDto(partner.value.(profile := Some(profile)));
      if reply.Err? {
        return Err(reply.message);
      }
      UpdatePartnerProfile(partner.value.id, profile, persists);
      if !persists {
        return Err("Persisting failed");
      }
      if !put.Reply? {
        return Err("Put failed");
      }
      profile := profile.(credentials := Some(Spec.ClientCredentials(put.data.url, Some(put.data.token))));
      profile := profile.(roles := Spec.ToCredentialsRoles(put.data.roles));
      UpdatePartnerProfile(partner.value.id, profile, persistsAgain);
      result := if persistsAgain then Spec.Answer(reply) else Err("Persisting failed");
    }

    method UnregisterClient(tenant: Spec.Party, client: Spec.Party, deleted: bool, persists: bool)
      returns (result: Result<Option<Spec.Credentials>>)
      modifies this
      ensures Spec.Outcome(Current(), result)
              == Spec.UnregisterClient(old(Current()), tenant, client, deleted, persists)
    {
      var partner := Spec.FindParty(rows, tenant, client);
      if partner.None? {
        return Err("TypeError");
      }
      if !deleted {
        return Err("Delete failed");
      }
      if !persists {
        return Err("Persisting failed");
      }
      rows := Spec.DeleteById(rows, partner.value.id);
      result := Ok(None);
    }

    method GenerateCredentialsTokenA(tenant: Spec.Party, client: Spec.Party, url: string, version: string, uuid: string,
                                     persists: bool)
      returns (result: Result<Option<Spec.Credentials>>)
      modifies this
      ensures Spec.Outcome(Current(), result)
              == Spec.GenerateCredentialsTokenA(old(Current()), tenant, client, url, version, uuid, persists)
    {
      var partner := Spec.FindParty(rows, tenant, client);
      if partner.None? {
        return Err("TypeError");
      }
      if partner.value.profile.Some? {
        return Err("Already has credentials token A");
      }
      issued := issued + {uuid};
      var profile := Spec.Profile(Some(Spec.ServerCredentials(url, uuid)), None, version, None, [], []);
      UpdatePartnerProfile(partner.value.id, profile, persists);
      if !persists {
        return Err("Persisting failed");
      }
      result := Spec.Answer(Spec.TenantPartnerToCredentialsDto(partner.value.(profile := Some(profile))));
    }
  }
}
