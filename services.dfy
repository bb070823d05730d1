/**
 * The REST services behind the proxy's web pages: the table of new-key
 * requests waiting for the user to finish signing on, the callback that
 * turns a finished sign-on into an access key, and the status codes of the
 * key, source and scope endpoints.
 */
module Services {
  import opened Wrappers
  import opened Text
  import opened Accounts
  import opened AuthSources

  const OK: int := 200
  const BAD_REQUEST: int := 400
  const UNAUTHORIZED: int := 401
  const FORBIDDEN: int := 403
  const NOT_FOUND: int := 404
  const INTERNAL_SERVER_ERROR: int := 500

  /** Ten minutes, in milliseconds: how long a new-key request may wait for its sign-on. */
  const DEF_TEMP_STATE_LIFETIME: int := 10 * 60 * 1000
  /** The most access keys one user may hold. */
  const DEF_KEY_LIMIT: int := 100
  /** Whether only administrators may create access keys. */
  const DEF_RESTRICT_LOGIN: bool := false

  /** The message of the error page a non-administrator is sent to when key creation is restricted. */
  const RESTRICTED_MESSAGE: string := "Only administrative accounts are allowed to create access keys, sorry!"

  /** The ESI server kinds a key may be bound to. */
  predicate KnownServer(server: string) {
    server == "latest" || server == "legacy" || server == "dev"
  }

  // ---------------------------------------------------------------------------
  // The table of pending new-key requests
  // ---------------------------------------------------------------------------

  /** `NewAccessKeyState`: when the request was made, by whom, and the key it asks for. */
  datatype NewAccessKeyState = NewAccessKeyState(createTime: int, uid: int, expiry: int, serverType: string, scopes: string)

  /** The sweep's test, `createTime + stateLifetime < now`, in `long` arithmetic. */
  predicate Expired(s: NewAccessKeyState, lifetime: int, now: int) {
    WrapLong(s.createTime + lifetime) < now
  }

  /** The entries a sweep at `now` keeps. */
  function Surviving(states: map<string, NewAccessKeyState>, lifetime: int, now: int): map<string, NewAccessKeyState> {
    map t | t in states && !Expired(states[t], lifetime, now) :: states[t]
  }

  /** The state a callback takes for `stateKey`, and the table it leaves behind. */
  function Taken(states: map<string, NewAccessKeyState>, stateKey: Option<string>): (Option<NewAccessKeyState>, map<string, NewAccessKeyState>) {
    if stateKey.None? || stateKey.value !in states then (None, states)
    else (Some(states[stateKey.value]), states - {stateKey.value})
  }

  /** A sweep removes exactly the expired entries and keeps every other one as it was. */
  lemma SweepKeepsExactlyLive(states: map<string, NewAccessKeyState>, lifetime: int, now: int)
    ensures forall t :: t in Surviving(states, lifetime, now) <==> t in states && !Expired(states[t], lifetime, now)
    ensures forall t :: t in Surviving(states, lifetime, now) ==> Surviving(states, lifetime, now)[t] == states[t]
  {
  }

  /** An entry whose lifetime ends exactly now is still kept. */
  lemma BoundarySurvives(states: map<string, NewAccessKeyState>, t: string, lifetime: int, now: int)
    requires t in states && IsLong(states[t].createTime + lifetime)
    requires states[t].createTime + lifetime == now
    ensures t in Surviving(states, lifetime, now)
  {
  }

  /** A second sweep at the same time removes nothing more. */
  lemma SweepIdempotent(states: map<string, NewAccessKeyState>, lifetime: int, now: int)
    ensures Surviving(Surviving(states, lifetime, now), lifetime, now) == Surviving(states, lifetime, now)
  {
  }

  /** A later sweep keeps no entry an earlier one removed. */
  lemma LaterSweepKeepsLess(states: map<string, NewAccessKeyState>, lifetime: int, earlier: int, later: int)
    requires earlier <= later
    ensures Surviving(states, lifetime, later).Keys <= Surviving(states, lifetime, earlier).Keys
  {
  }

  /** A missing or unknown state takes nothing and leaves the table as it was. */
  lemma TakeUnknown(states: map<string, NewAccessKeyState>, stateKey: Option<string>)
    requires stateKey.None? || stateKey.value !in states
    ensures Taken(states, stateKey) == (None, states)
  {
  }

  /** A state is taken once: a second callback with the same state finds nothing. */
  lemma TakeOnce(states: map<string, NewAccessKeyState>, stateKey: Option<string>)
    ensures Taken(Taken(states, stateKey).1, stateKey).0.None?
    ensures Taken(states, stateKey).0.Some? ==> |Taken(states, stateKey).1| == |states| - 1
  {
  }

  /** What is put under a fresh token is what its callback takes, and the table returns to what it was. */
  lemma PutThenTake(states: map<string, NewAccessKeyState>, token: string, s: NewAccessKeyState)
    requires token !in states
    ensures Taken(states[token := s], Some(token)) == (Some(s), states)
    ensures |states[token := s]| == |states| + 1
  {
    assert states[token := s] - {token} == states;
  }

  /** The exchange of the sign-on code: the access token, its lifetime in seconds, the refresh token and the character name. */
  datatype TokenGrant = TokenGrant(accessToken: string, expiresIn: int, refreshToken: string, charName: string)

  /** The access key a completed sign-on creates. */
  datatype NewKey = NewKey(
    owner: Account, expiry: int, serverType: string, scopes: string, charName: string,
    accessToken: string, accessTokenExpiry: int, refreshToken: string)

  /** Where the callback sends the browser: nowhere (null), to an error page, or to the callback with the new key saved. */
  datatype CallbackResult = NoRedirect | ErrorRedirect(message: string) | Redirect(url: string, created: NewKey)

  /**
   * `handleNewAccessKeyCallback` after the state is taken: an unknown user
   * or a failed exchange gives null, a non-administrator under restricted
   * login gives the error page, and a completed exchange saves a key with
   * the cached request's fields and gives the callback.
   */
  function CallbackDecision(taken: Option<NewAccessKeyState>, accounts: map<int, Account>, restrictLogin: bool,
                            exchange: Option<TokenGrant>, now: int, callback: string): CallbackResult
  {
    if taken.None? then NoRedirect
    else if taken.value.uid !in accounts then NoRedirect
    else
      var user := accounts[taken.value.uid];
      if restrictLogin && !user.admin then ErrorRedirect(RESTRICTED_MESSAGE)
      else match exchange
        case None => NoRedirect
        case Some(g) =>
          var s := taken.value;
          Redirect(callback, NewKey(user, s.expiry, s.serverType, s.scopes, g.charName,
                                    g.accessToken, WrapLong(now + g.expiresIn * 1000), g.refreshToken))
  }

  /** The callback's outcomes, each with the exact condition that leads to it. */
  lemma CallbackCases(taken: Option<NewAccessKeyState>, accounts: map<int, Account>, restrictLogin: bool,
                      exchange: Option<TokenGrant>, now: int, callback: string)
    ensures var r := CallbackDecision(taken, accounts, restrictLogin, exchange, now, callback);
      && (r.ErrorRedirect? <==> taken.Some? && taken.value.uid in accounts && restrictLogin && !accounts[taken.value.uid].admin)
      && (r.Redirect? <==> taken.Some? && taken.value.uid in accounts && (!restrictLogin || accounts[taken.value.uid].admin) && exchange.Some?)
      && (r.Redirect? ==>
            && r.url == callback && r.created.owner == accounts[taken.value.uid]
            && r.created.expiry == taken.value.expiry && r.created.serverType == taken.value.serverType
            && r.created.scopes == taken.value.scopes && r.created.charName == exchange.value.charName
            && r.created.accessToken == exchange.value.accessToken && r.created.refreshToken == exchange.value.refreshToken
            && IsLong(r.created.accessTokenExpiry)
            && (IsLong(now + exchange.value.expiresIn * 1000) ==> r.created.accessTokenExpiry == now + exchange.value.expiresIn * 1000))
  {
  }

  // ---------------------------------------------------------------------------
  // saveAccessKey
  // ---------------------------------------------------------------------------

  /** The posted access key: id (-1 for a new key), expiry, server kind (possibly null) and scopes. */
  datatype PostedKey = PostedKey(kid: int, expiry: int, serverType: Option<string>, scopes: string)

  /** A stored access key, as far as the services look at it. */
  datatype StoredKey = StoredKey(kid: int, owner: Account, expiry: int)

  /**
   * The outcome of `saveAccessKey`: an error status, the crash of a switch
   * on a null server kind, a test key created at once (debug mode), a
   * sign-on started for a new key, or an existing key's expiry updated.
   */
  datatype SaveOutcome =
    | SaveRefused(status: int)
    | ServerTypeMissing
    | FakeKeyCreated(owner: Account, expiry: int, serverType: string, scopes: string, charName: string)
    | SignOnStarted(stateKey: string, state: NewAccessKeyState)
    | ExpiryUpdated(owner: Account, kid: int, expiry: int)

  function Max(a: int, b: int): int {
    if a < b then b else a
  }

  /**
   * `saveAccessKey`, given the caller, the caller's key count, the key
   * limit, the debug flag, the stored key under the posted id, the clock
   * and the fresh state token.
   */
  function SaveDecision(key: Option<PostedKey>, user: Option<Account>, keyCount: nat, keyLimit: int, debugMode: bool,
                        existing: Option<StoredKey>, now: int, stateKey: string): SaveOutcome
  {
    if key.None? then SaveRefused(FORBIDDEN)
    else if user.None? then SaveRefused(UNAUTHORIZED)
    else if key.value.kid == -1 then
      if keyCount >= keyLimit then SaveRefused(UNAUTHORIZED)
      else
        var expiry := Max(-1, key.value.expiry);
        match key.value.serverType
        case None => ServerTypeMissing
        case Some(t) =>
          if !KnownServer(t) then SaveRefused(BAD_REQUEST)
          else if debugMode then FakeKeyCreated(user.value, expiry, t, key.value.scopes, "fakechar " + DecimalString(now))
          else SignOnStarted(stateKey, NewAccessKeyState(now, user.value.uid, expiry, t, key.value.scopes))
    else if existing.None? || !Equals(existing.value.owner, user.value) then SaveRefused(NOT_FOUND)
    else ExpiryUpdated(user.value, existing.value.kid, key.value.expiry)
  }

  /** The refusals, in the order the handler checks them. */
  lemma SaveRefusals(key: Option<PostedKey>, user: Option<Account>, keyCount: nat, keyLimit: int, debugMode: bool,
                     existing: Option<StoredKey>, now: int, stateKey: string)
    ensures var r := SaveDecision(key, user, keyCount, keyLimit, debugMode, existing, now, stateKey);
      && (key.None? ==> r == SaveRefused(FORBIDDEN))
      && (key.Some? && user.None? ==> r == SaveRefused(UNAUTHORIZED))
      && (key.Some? && user.Some? && key.value.kid == -1 ==>
            (r == SaveRefused(UNAUTHORIZED) <==> keyCount >= keyLimit)
            && (r == SaveRefused(BAD_REQUEST) <==>
                  keyCount < keyLimit && key.value.serverType.Some? && !KnownServer(key.value.serverType.value)))
      && (key.Some? && user.Some? && key.value.kid != -1 ==>
            (r == SaveRefused(NOT_FOUND) <==> existing.None? || !Equals(existing.value.owner, user.value)))
  {
  }

  /** A new key's requested expiry is clamped at -1 and the request is recorded as of now, for the caller. */
  lemma NewKeyRequest(key: Option<PostedKey>, user: Option<Account>, keyCount: nat, keyLimit: int, debugMode: bool,
                      existing: Option<StoredKey>, now: int, stateKey: string)
    ensures var r := SaveDecision(key, user, keyCount, keyLimit, debugMode, existing, now, stateKey);
      && (r.SignOnStarted? ==>
            r.stateKey == stateKey && r.state.createTime == now && r.state.uid == user.value.uid
            && r.state.expiry == Max(-1, key.value.expiry) && r.state.expiry >= -1
            && Some(r.state.serverType) == key.value.serverType && KnownServer(r.state.serverType)
            && r.state.scopes == key.value.scopes && !debugMode)
      && (r.FakeKeyCreated? ==> debugMode && r.expiry == Max(-1, key.value.expiry) && KnownServer(r.serverType))
      && (r.ExpiryUpdated? ==> key.value.kid != -1 && r.expiry == key.value.expiry && r.kid == existing.value.kid)
  {
  }

  // ---------------------------------------------------------------------------
  // The table as the services change it
  // ---------------------------------------------------------------------------

  /** `tempStateMap`. */
  class PendingKeys {
    var states: map<string, NewAccessKeyState>

    constructor ()
      ensures states == map[]
    {
      states := map[];
    }

    /** Record a new-key request under its token, as of now. */
    method Put(stateKey: string, now: int, uid: int, expiry: int, serverType: string, scopes: string)
      modifies this
      ensures states == old(states)[stateKey := NewAccessKeyState(now, uid, expiry, serverType, scopes)]
    {
      var tempState := NewAccessKeyState(now, uid, expiry, serverType, scopes);
      states := states[stateKey := tempState];
    }

    /** One round of the clean-up thread: collect the expired tokens, then remove them. */
    method Sweep(lifetime: int, now: int)
      modifies this
      ensures states == Surviving(old(states), lifetime, now)
    {
      var toDelete: seq<string> := [];
      var remaining := states.Keys;
      while remaining != {}
        invariant remaining <= states.Keys
        invariant forall t :: t in toDelete <==> t in states && t !in remaining && Expired(states[t], lifetime, now)
        decreases remaining
      {
        var t :| t in remaining;
        if Expired(states[t], lifetime, now) {
          toDelete := toDelete + [t];
        }
        remaining := remaining - {t};
      }
      ghost var before := states;
      var i := 0;
      while i < |toDelete|
        invariant 0 <= i <= |toDelete|
        invariant forall t :: t in states <==> t in before && t !in toDelete[..i]
        invariant forall t :: t in states ==> states[t] == before[t]
      {
        states := states - {toDelete[i]};
        i := i + 1;
        assert toDelete[..i] == toDelete[..i - 1] + [toDelete[i - 1]];
      }
      assert toDelete[..i] == toDelete;
      assert states.Keys == Surviving(before, lifetime, now).Keys;
    }

    /** Read and remove the state under `stateKey`; a missing or unknown key takes nothing. */
    method Take(stateKey: Option<string>) returns (cached: Option<NewAccessKeyState>)
      modifies this
      ensures (cached, states) == Taken(old(states), stateKey)
    {
      if stateKey.None? || stateKey.value !in states {
        return None;
      }
      cached := Some(states[stateKey.value]);
      states := states - {stateKey.value};
    }

    /**
     * `handleNewAccessKeyCallback`: take the state named by the request,
     * then resolve its user, check the login restriction and complete the
     * code exchange (an oracle that fails like any exception in the source).
     */
    method HandleNewAccessKeyCallback(stateKey: Option<string>, accounts: AccountStore, restrictLogin: bool,
                                      exchange: Option<TokenGrant>, now: int, callback: string)
      returns (r: CallbackResult)
      modifies this
      ensures states == Taken(old(states), stateKey).1
      ensures r == CallbackDecision(Taken(old(states), stateKey).0, accounts.accounts, restrictLogin, exchange, now, callback)
    {
      var cachedState := Take(stateKey);
      if cachedState.None? {
        return NoRedirect;
      }
      var user := accounts.GetAccount(cachedState.value.uid);
      if user.None? {
        return NoRedirect;
      }
      if restrictLogin && !user.value.admin {
        return ErrorRedirect(RESTRICTED_MESSAGE);
      }
      if exchange.None? {
        return NoRedirect;
      }
      var grant := exchange.value;
      var s := cachedState.value;
      var newKey := NewKey(user.value, s.expiry, s.serverType, s.scopes, grant.charName,
                           grant.accessToken, WrapLong(now + grant.expiresIn * 1000), grant.refreshToken);
      r := Redirect(callback, newKey);
    }

    /** `saveAccessKey`: decide, and record the request when a sign-on starts. */
    method SaveAccessKey(key: Option<PostedKey>, user: Option<Account>, keyCount: nat, keyLimit: int, debugMode: bool,
                         existing: Option<StoredKey>, now: int, stateKey: string)
      returns (outcome: SaveOutcome)
      modifies this
      ensures outcome == SaveDecision(key, user, keyCount, keyLimit, debugMode, existing, now, stateKey)
      ensures outcome.SignOnStarted? ==> states == old(states)[outcome.stateKey := outcome.state]
      ensures !outcome.SignOnStarted? ==> states == old(states)
    {
      outcome := SaveDecision(key, user, keyCount, keyLimit, debugMode, existing, now, stateKey);
      if outcome.SignOnStarted? {
        var s := outcome.state;
        Put(stateKey, s.createTime, s.uid, s.expiry, s.serverType, s.scopes);
      }
    }
  }

  /**
   * A sign-on started by `saveAccessKey` under a fresh token and completed
   * by its callback creates the key the user asked for: the clamped expiry,
   * the server kind and the scopes, owned by the user who asked.
   */
  lemma SaveThenCallback(states: map<string, NewAccessKeyState>, key: Option<PostedKey>, user: Option<Account>,
                         keyCount: nat, keyLimit: int, existing: Option<StoredKey>, now: int, stateKey: string,
                         accounts: map<int, Account>, grant: TokenGrant, later: int, callback: string)
    requires stateKey !in states
    requires SaveDecision(key, user, keyCount, keyLimit, false, existing, now, stateKey).SignOnStarted?
    requires user.value.uid in accounts && accounts[user.value.uid] == user.value
    ensures var st := SaveDecision(key, user, keyCount, keyLimit, false, existing, now, stateKey).state;
      var taken := Taken(states[stateKey := st], Some(stateKey));
      var r := CallbackDecision(taken.0, accounts, false, Some(grant), later, callback);
      && taken.1 == states
      && r.Redirect? && r.url == callback && r.created.owner == user.value
      && r.created.expiry == Max(-1, key.value.expiry) && Some(r.created.serverType) == key.value.serverType
      && r.created.scopes == key.value.scopes
  {
    var st := SaveDecision(key, user, keyCount, keyLimit, false, existing, now, stateKey).state;
    NewKeyRequest(key, user, keyCount, keyLimit, false, existing, now, stateKey);
    PutThenTake(states, stateKey, st);
  }

  // ---------------------------------------------------------------------------
  // getUserLastSource, getScopes, deleteAccessKey
  // ---------------------------------------------------------------------------

  datatype LastSourceOutcome = LastSourceRefused(status: int) | LastSource(src: AuthSource)

  /**
   * `getUserLastSource`: only the caller, or an administrator, may ask;
   * uid -1 names the caller; an unknown account is 404 and an account with
   * no source is 500.
   */
  function LastSourceDecision(user: Option<Account>, uid: int, accounts: map<int, Account>, rows: seq<AuthSource>): LastSourceOutcome {
    if user.None? || (user.value.uid != uid && uid != -1 && !user.value.admin) then LastSourceRefused(UNAUTHORIZED)
    else
      var target := if uid != -1 then (if uid in accounts then Some(accounts[uid]) else None) else user;
      if target.None? then LastSourceRefused(NOT_FOUND)
      else match LastUsed(rows, target.value.uid)
        case None => LastSourceRefused(INTERNAL_SERVER_ERROR)
        case Some(src) => LastSource(src)
  }

  lemma LastSourceCases(user: Option<Account>, uid: int, accounts: map<int, Account>, rows: seq<AuthSource>)
    requires forall u :: u in accounts ==> accounts[u].uid == u
    ensures var r := LastSourceDecision(user, uid, accounts, rows);
      var who := if uid == -1 && user.Some? then user.value.uid else uid;
      && (r == LastSourceRefused(UNAUTHORIZED) <==> user.None? || (user.value.uid != uid && uid != -1 && !user.value.admin))
      && (r == LastSourceRefused(NOT_FOUND) <==> r != LastSourceRefused(UNAUTHORIZED) && uid != -1 && uid !in accounts)
      && (r.LastSource? ==>
            && OwnedBy(r.src, who) && r.src in rows
            && forall i :: 0 <= i < |rows| && OwnedBy(rows[i], who) ==> rows[i].last <= r.src.last)
      && (r == LastSourceRefused(INTERNAL_SERVER_ERROR) ==> forall i :: 0 <= i < |rows| ==> !OwnedBy(rows[i], who))
  {
  }

  datatype ScopesOutcome = ScopesRefused(status: int) | Scopes(scopes: map<string, string>)

  /** `getScopes`: an unknown server kind is 404, a failed fetch of its document 500. */
  function ScopesDecision(server: string, fetched: Option<map<string, string>>): ScopesOutcome {
    if !KnownServer(server) then ScopesRefused(NOT_FOUND)
    else match fetched
      case None => ScopesRefused(INTERNAL_SERVER_ERROR)
      case Some(m) => Scopes(m)
  }

  lemma ScopesCases(server: string, fetched: Option<map<string, string>>)
    ensures var r := ScopesDecision(server, fetched);
      && (r == ScopesRefused(NOT_FOUND) <==> !KnownServer(server))
      && (r.Scopes? <==> KnownServer(server) && fetched.Some?)
      && (r.Scopes? ==> r.scopes == fetched.value)
  {
  }

  /**
   * `deleteAccessKey`: 401 without a caller, 404 when the key is missing or
   * belongs to someone else, 500 when the store fails to delete it.
   */
  function DeleteStatus(user: Option<Account>, key: Option<StoredKey>, deleted: bool): int {
    if user.None? then UNAUTHORIZED
    else if key.None? || !Equals(key.value.owner, user.value) then NOT_FOUND
    else if !deleted then INTERNAL_SERVER_ERROR
    else OK
  }

  lemma DeleteCases(user: Option<Account>, key: Option<StoredKey>, deleted: bool)
    ensures var r := DeleteStatus(user, key, deleted);
      && (r == OK <==> user.Some? && key.Some? && key.value.owner == user.value && deleted)
      && (r == NOT_FOUND <==> user.Some? && (key.None? || key.value.owner != user.value))
      && (r in {OK, UNAUTHORIZED, NOT_FOUND, INTERNAL_SERVER_ERROR})
  {
    if user.Some? && key.Some? {
      SameAccount(key.value.owner, user.value);
    }
  }

  /** Account `equals` is record equality. */
  lemma SameAccount(a: Account, b: Account)
    ensures Equals(a, b) <==> a == b
  {
  }
}
