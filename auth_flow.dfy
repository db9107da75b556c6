/** Token exchange, refresh and validity for the two twins' session slots. */
module AuthFlow {
  import opened Wrappers
  import opened Text
  import opened Twins
  import opened TokenStore
  import opened Credentials
  import opened OAuthState

  /** A session expiry: absent or falsy, an instant (a datetime, or an ISO-8601 string that
      parses to it), or a string `datetime.fromisoformat` rejects. */
  datatype Expiry = NoExpiry | ExpiresAt(t: int) | Unparseable

  /** The session fields `{twin}_token`, `{twin}_refresh_token`, `{twin}_token_expiry`. */
  datatype TokenSlot = TokenSlot(token: Option<string>, refreshToken: Option<string>, expiry: Expiry)

  /** The JSON body of a successful token reply; a missing field is None. */
  datatype TokenPayload = TokenPayload(accessToken: Option<string>, refreshToken: Option<string>, expiresIn: Option<int>)

  /** A reply of the token endpoint: its status and parsed body, or a transport failure. */
  datatype TokenReply = Reply(status: int, payload: TokenPayload) | RequestFailed

  /** `expires_in` defaults to one day when the reply omits it. */
  const DefaultExpiresIn: int := 86400

  function ExpiresIn(p: TokenPayload): (s: int)
    ensures p.expiresIn.Some? ==> s == p.expiresIn.value
    ensures p.expiresIn.None? ==> s == DefaultExpiresIn
  {
    p.expiresIn.GetOr(DefaultExpiresIn)
  }

  /** The session slot after a payload is accepted at time `now`. */
  function SlotFromPayload(p: TokenPayload, now: int): TokenSlot {
    TokenSlot(p.accessToken, p.refreshToken, ExpiresAt(now + ExpiresIn(p)))
  }

  /** A token field as written to JSON: a missing token becomes null. */
  function StoredToken(o: Option<string>): Stored {
    if o.Some? then SText(o.value) else SNull
  }

  /** The argument of `save_tokens` after a payload is accepted for twin `t` at `now`: the
      three keys of `t`, and no key of the other twin. */
  function TokenUpdate(t: Twin, p: TokenPayload, now: int): (u: map<string, Stored>)
    ensures u.Keys == {TokenKey(t), RefreshKey(t), ExpiryKey(t)}
    ensures u[TokenKey(t)] == StoredToken(p.accessToken)
    ensures u[RefreshKey(t)] == StoredToken(p.refreshToken)
    ensures u[ExpiryKey(t)] == SInstant(now + ExpiresIn(p))
    ensures OwnedBy(u, t)
  {
    TwinKeys(t);
    map[TokenKey(t) := StoredToken(p.accessToken),
        RefreshKey(t) := StoredToken(p.refreshToken),
        ExpiryKey(t) := SInstant(now + ExpiresIn(p))]
  }

  /** A twin's three keys are distinct and lie in its namespace. */
  lemma TwinKeys(t: Twin)
    ensures StartsWith(TokenKey(t), t.Name() + "_")
    ensures StartsWith(RefreshKey(t), t.Name() + "_")
    ensures StartsWith(ExpiryKey(t), t.Name() + "_")
    ensures TokenKey(t) != RefreshKey(t) && TokenKey(t) != ExpiryKey(t) && RefreshKey(t) != ExpiryKey(t)
  {
    var prefix := t.Name() + "_";
    assert TokenKey(t) == prefix + "token";
    assert RefreshKey(t) == prefix + "refresh_token";
    assert ExpiryKey(t) == prefix + "token_expiry";
    assert TokenKey(t)[..|prefix|] == prefix;
    assert RefreshKey(t)[..|prefix|] == prefix;
    assert ExpiryKey(t)[..|prefix|] == prefix;
    assert TokenKey(t)[7] != RefreshKey(t)[7];
    assert |TokenKey(t)| != |ExpiryKey(t)|;
    assert RefreshKey(t)[7] != ExpiryKey(t)[7];
  }

  /** The refresh request is sent only with a truthy refresh token, and succeeds only on 200. */
  predicate RefreshSucceeds(slot: TokenSlot, reply: TokenReply) {
    Truthy(slot.refreshToken) && reply.Reply? && reply.status == 200
  }

  /** The slot's expiry is an instant that `now` is past. */
  predicate Expired(slot: TokenSlot, now: int) {
    slot.expiry.ExpiresAt? && now > slot.expiry.t
  }

  /** What `exchange_code_for_token` reports: the payload on 200; a used or invalid code on
      400; any other status; a transport failure. */
  datatype Exchange = Exchanged(payload: TokenPayload) | CodeRejected | ExchangeFailed(status: int) | ExchangeError

  /** `exchange_code_for_token` given the token endpoint's reply to the code grant. Only a 200
      reply yields tokens; 400 is told apart from other failures. */
  function ExchangeCodeForToken(reply: TokenReply): (e: Exchange)
    ensures e.Exchanged? <==> reply.Reply? && reply.status == 200
    ensures e.Exchanged? ==> e.payload == reply.payload
    ensures e.CodeRejected? <==> reply.Reply? && reply.status == 400
    ensures e.ExchangeFailed? ==> reply.Reply? && e.status == reply.status && e.status != 200 && e.status != 400
    ensures e.ExchangeError? <==> reply.RequestFailed?
  {
    match reply
    case RequestFailed => ExchangeError
    case Reply(status, payload) =>
      if status == 200 then Exchanged(payload)
      else if status == 400 then CodeRejected
      else ExchangeFailed(status)
  }

  /** The query parameters of an OAuth redirect back to the app. */
  datatype CallbackQuery = CallbackQuery(code: Option<string>, state: Option<string>, error: Option<string>)

  /** How `handle_oauth_callback` ended. */
  datatype CallbackOutcome =
    | NoCallback
    | MissingCredentials
    | StateRejected
    | ExchangeUnsuccessful(twin: Twin, reason: Exchange)
    | Connected(twin: Twin)
    | ProviderError(error: string)

  /** The session state of both twins' tokens. */
  class Session {
    var slots: map<Twin, TokenSlot>

    ghost predicate Valid()
      reads this
    {
      TwinA in slots && TwinB in slots
    }

    constructor (a: TokenSlot, b: TokenSlot)
      ensures Valid() && slots == map[TwinA := a, TwinB := b]
    {
      slots := map[TwinA := a, TwinB := b];
    }

    /** Accept a token payload for `twin`: assign the three session fields and save them,
        merged, to the token file. */
    method StorePayload(twin: Twin, p: TokenPayload, now: int, file: TokenFile)
      requires Valid()
      modifies this, file
      ensures Valid()
      ensures slots == old(slots)[twin := SlotFromPayload(p, now)]
      ensures file.entries == old(file.entries) + TokenUpdate(twin, p, now)
      ensures forall k :: k in old(file.entries) && StartsWith(k, twin.Other().Name() + "_") ==>
        k in file.entries && file.entries[k] == old(file.entries)[k]
    {
      slots := slots[twin := SlotFromPayload(p, now)];
      var update := TokenUpdate(twin, p, now);
      SaveKeepsOtherTwin(file.entries, update, twin);
      file.Save(update);
    }

    /** `refresh_access_token`: with a truthy refresh token in the session, post the refresh
        grant; on 200 store the new tokens and an expiry `expires_in` seconds after `now`.
        Any other outcome returns false and changes nothing. */
    method RefreshAccessToken(twin: Twin, reply: TokenReply, now: int, file: TokenFile) returns (ok: bool)
      requires Valid()
      modifies this, file
      ensures Valid()
      ensures ok <==> RefreshSucceeds(old(slots[twin]), reply)
      ensures ok ==> slots == old(slots)[twin := SlotFromPayload(reply.payload, now)]
      ensures ok ==> file.entries == old(file.entries) + TokenUpdate(twin, reply.payload, now)
      ensures !ok ==> slots == old(slots) && file.entries == old(file.entries)
      ensures forall k :: k in old(file.entries) && StartsWith(k, twin.Other().Name() + "_") ==>
        k in file.entries && file.entries[k] == old(file.entries)[k]
    {
      var refreshToken := slots[twin].refreshToken;
      if !Truthy(refreshToken) {
        return false;
      }
      if reply.Reply? && reply.status == 200 {
        StorePayload(twin, reply.payload, now, file);
        return true;
      }
      return false;
    }

    /** `is_token_valid`: false without a truthy token; true when the expiry is absent,
        unparseable or not yet passed; otherwise the result of a refresh. */
    method IsTokenValid(twin: Twin, reply: TokenReply, now: int, file: TokenFile) returns (valid: bool)
      requires Valid()
      modifies this, file
      ensures Valid()
      ensures valid <==> Truthy(old(slots[twin]).token) &&
                         (!Expired(old(slots[twin]), now) || RefreshSucceeds(old(slots[twin]), reply))
      ensures !Truthy(old(slots[twin]).token) ==> !valid
      ensures old(slots[twin]).expiry.NoExpiry? || old(slots[twin]).expiry.Unparseable? ==>
        valid == Truthy(old(slots[twin]).token)
      ensures Truthy(old(slots[twin]).token) && Expired(old(slots[twin]), now) && valid ==>
        slots == old(slots)[twin := SlotFromPayload(reply.payload, now)] &&
        file.entries == old(file.entries) + TokenUpdate(twin, reply.payload, now)
      ensures !valid || !Expired(old(slots[twin]), now) ==>
        slots == old(slots) && file.entries == old(file.entries)
    {
      var token := slots[twin].token;
      var expiry := slots[twin].expiry;
      if !Truthy(token) {
        return false;
      }
      match expiry {
        case NoExpiry =>
          return true;
        case Unparseable =>
          return true;
        case ExpiresAt(t) =>
          if now > t {
            valid := RefreshAccessToken(twin, reply, now, file);
            return;
          }
          return true;
      }
    }

    /** `handle_oauth_callback`: with both `code` and `state` present and a saved client id,
        the state names the twin; a 200 code exchange connects that twin. A redirect carrying
        only `error` reports it. Only a connection changes the session or the file. */
    method HandleOAuthCallback(query: CallbackQuery, cred: Credential, hexdigest: string -> string,
                               reply: TokenReply, now: int, file: TokenFile)
      returns (outcome: CallbackOutcome)
      requires Valid()
      modifies this, file
      ensures Valid()
      ensures outcome.Connected? <==>
        query.code.Some? && query.state.Some? && cred.clientId != "" &&
        ParseOAuthState(hexdigest, cred.clientId, query.state.value).Some? &&
        reply.Reply? && reply.status == 200
      ensures outcome.Connected? ==>
        outcome.twin == ParseOAuthState(hexdigest, cred.clientId, query.state.value).value &&
        slots == old(slots)[outcome.twin := SlotFromPayload(reply.payload, now)] &&
        file.entries == old(file.entries) + TokenUpdate(outcome.twin, reply.payload, now)
      ensures !outcome.Connected? ==> slots == old(slots) && file.entries == old(file.entries)
      ensures outcome.MissingCredentials? <==> query.code.Some? && query.state.Some? && cred.clientId == ""
      ensures outcome.StateRejected? <==>
        query.code.Some? && query.state.Some? && cred.clientId != "" &&
        ParseOAuthState(hexdigest, cred.clientId, query.state.value).None?
      ensures outcome.ExchangeUnsuccessful? <==>
        query.code.Some? && query.state.Some? && cred.clientId != "" &&
        ParseOAuthState(hexdigest, cred.clientId, query.state.value).Some? &&
        !ExchangeCodeForToken(reply).Exchanged?
      ensures outcome.ExchangeUnsuccessful? ==>
        outcome.twin == ParseOAuthState(hexdigest, cred.clientId, query.state.value).value &&
        outcome.reason == ExchangeCodeForToken(reply)
      ensures outcome.ProviderError? <==> !(query.code.Some? && query.state.Some?) && query.error.Some?
      ensures outcome.ProviderError? ==> outcome.error == query.error.value
      ensures outcome.NoCallback? <==> !(query.code.Some? && query.state.Some?) && query.error.None?
    {
      if query.code.Some? && query.state.Some? {
        if cred.clientId == "" {
          return MissingCredentials;
        }
        var twin := ParseOAuthState(hexdigest, cred.clientId, query.state.value);
        if twin.Some? {
          var exchanged := ExchangeCodeForToken(reply);
          if exchanged.Exchanged? {
            StorePayload(twin.value, exchanged.payload, now, file);
            return Connected(twin.value);
          }
          return ExchangeUnsuccessful(twin.value, exchanged);
        }
        return StateRejected;
      } else if query.error.Some? {
        return ProviderError(query.error.value);
      }
      return NoCallback;
    }
  }
}
