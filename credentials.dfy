/** The OAuth client registration: at most one record, shared by both twins. */
module Credentials {
  import opened Wrappers

  datatype Credential = Credential(clientId: string, clientSecret: string, redirectUri: string)

  const DefaultRedirectUri: string := "http://localhost:8501"

  /** What `load_credentials` returns when nothing is configured. */
  const NoCredential: Credential := Credential("", "", DefaultRedirectUri)

  /** `dict.get(key, default)` on the string map of the `oura` secrets section. */
  function GetOr(m: map<string, string>, key: string, default: string): (r: string)
    ensures key in m ==> r == m[key]
    ensures key !in m ==> r == default
  {
    if key in m then m[key] else default
  }

  /** The credential file, held in memory. */
  class CredentialFile {
    var saved: Option<Credential>

    constructor ()
      ensures saved == None
    {
      saved := None;
    }

    /** `save_credentials`: write the full triple, replacing any earlier one. */
    method Save(c: Credential)
      modifies this
      ensures saved == Some(c)
    {
      saved := Some(c);
    }

    /** `clear_credentials`: remove the file; clearing twice is the same as clearing once. */
    method Clear()
      modifies this
      ensures saved == None
    {
      saved := None;
    }

    /** `load_credentials`: the deployment's `oura` secrets section wins when present (each
        missing field defaulted), then the saved file, then the empty record with the local
        redirect URI. It never fails. */
    method Load(secrets: Option<map<string, string>>) returns (c: Credential)
      ensures secrets.Some? ==> c == Credential(GetOr(secrets.value, "client_id", ""),
                                                GetOr(secrets.value, "client_secret", ""),
                                                GetOr(secrets.value, "redirect_uri", DefaultRedirectUri))
      ensures secrets.None? && saved.Some? ==> c == saved.value
      ensures secrets.None? && saved.None? ==> c == NoCredential
    {
      if secrets.Some? {
        var oura := secrets.value;
        return Credential(GetOr(oura, "client_id", ""), GetOr(oura, "client_secret", ""),
                          GetOr(oura, "redirect_uri", DefaultRedirectUri));
      }
      if saved.Some? {
        return saved.value;
      }
      return NoCredential;
    }
  }
}
