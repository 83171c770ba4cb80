/** The wallet sign-in service of the frontend: the canister whitelist taken
    from the environment, the dispatch on the provider name, the check of the
    principal a wallet returns, and the two `localStorage` keys that record
    a session. An environment variable that is unset and one that is empty
    are both the empty string. A wallet login is a parameter that maps the
    request to its outcome. */
module Auth {
  import opened Wrappers
  import opened Strings

  /** The environment variables the whitelist is read from. */
  datatype Env = Env(frontendId: string, backendId: string, additionalWhitelist: string)

  /** The four supported wallets. */
  datatype Provider = Plug | Stoic | NFID | Identity

  /** A call into the wallet library; only Plug is given the whitelist. */
  datatype WalletRequest = PlugLogin(whitelist: seq<string>) | StoicLogin | NFIDLogin | IdentityLogin

  /** The user object a wallet returns; an empty principal stands for a
      missing one. */
  datatype WalletUser = WalletUser(principal: string, provider: string)

  /** What `getCurrentUser` reads back: `None` is a missing key. */
  datatype StoredUser = StoredUser(principal: Option<string>, provider: Option<string>)

  const AUTH_PROVIDER_KEY := "authProvider"
  const USER_PRINCIPAL_KEY := "userPrincipal"
  const NOT_CONNECTED := "Not Connected."
  const UNSUPPORTED_PROVIDER := "Unsupported provider"
  const AUTHENTICATION_FAILED := "Authentication failed"

  lemma KeysAreDistinct()
    ensures AUTH_PROVIDER_KEY != USER_PRINCIPAL_KEY
  {
    assert AUTH_PROVIDER_KEY[0] != USER_PRINCIPAL_KEY[0];
  }

  /** The canister ids in the whitelist before the additional ones. */
  function EnvIds(env: Env): seq<string> {
    (if env.frontendId != [] then [env.frontendId] else [])
    + (if env.backendId != [] then [env.backendId] else [])
  }

  /** The whitelist `getWhitelistedCanisters` builds: the frontend id if set,
      then the backend id if set, then the comma-separated additional ids. */
  function Whitelist(env: Env): seq<string> {
    EnvIds(env) + (if env.additionalWhitelist != [] then Split(env.additionalWhitelist, {','}) else [])
  }

  /** `getWhitelistedCanisters`, pushing onto an initially empty list. */
  method GetWhitelistedCanisters(env: Env) returns (canisterIds: seq<string>)
    ensures canisterIds == Whitelist(env)
  {
    canisterIds := [];
    if env.frontendId != [] {
      canisterIds := canisterIds + [env.frontendId];
    }
    if env.backendId != [] {
      canisterIds := canisterIds + [env.backendId];
    }
    if env.additionalWhitelist != [] {
      var additionalIds := Split(env.additionalWhitelist, {','});
      canisterIds := canisterIds + additionalIds;
    }
  }

  /** The whitelist's layout: the set ids come first, in order, and the rest,
      joined back with commas, is exactly the additional variable. */
  lemma WhitelistLayout(env: Env)
    ensures var ids := Whitelist(env); var n := |EnvIds(env)|;
      && n <= |ids|
      && (env.frontendId != [] ==> ids[0] == env.frontendId)
      && (env.backendId != [] ==> ids[n - 1] == env.backendId)
      && (env.additionalWhitelist == [] ==> |ids| == n)
      && (env.additionalWhitelist != [] ==> JoinWith(ids[n..], [',']) == env.additionalWhitelist)
  {
    var ids := Whitelist(env);
    var n := |EnvIds(env)|;
    if env.additionalWhitelist != [] {
      assert ids[n..] == Split(env.additionalWhitelist, {','});
      JoinSplit(env.additionalWhitelist, ',');
    }
  }

  function ProviderName(p: Provider): string {
    match p
    case Plug => "Plug"
    case Stoic => "Stoic"
    case NFID => "NFID"
    case Identity => "Identity"
  }

  /** The `switch` of `authenticateUser`: a provider name is recognised only
      when it is spelled exactly as one of the four. */
  function ParseProvider(name: string): (p: Option<Provider>)
    ensures p.Some? <==> name in {"Plug", "Stoic", "NFID", "Identity"}
    ensures p.Some? ==> ProviderName(p.value) == name
  {
    if name == "Plug" then Some(Plug)
    else if name == "Stoic" then Some(Stoic)
    else if name == "NFID" then Some(NFID)
    else if name == "Identity" then Some(Identity)
    else None
  }

  /** Every provider's name is parsed back to it. */
  lemma ParseProviderName(p: Provider)
    ensures ParseProvider(ProviderName(p)) == Some(p)
  {
  }

  /** The wallet call made for a provider. */
  function WalletCall(p: Provider, whitelist: seq<string>): (request: WalletRequest)
    ensures request.PlugLogin? <==> p == Plug
    ensures request.PlugLogin? ==> request.whitelist == whitelist
  {
    match p
    case Plug => PlugLogin(whitelist)
    case Stoic => StoicLogin
    case NFID => NFIDLogin
    case Identity => IdentityLogin
  }

  /** A principal that counts as signed in: present, and not the wallet's
      placeholder text. */
  predicate IsValidPrincipal(principal: string) {
    principal != [] && principal != NOT_CONNECTED
  }

  /** `isAuthenticated`: the stored principal is a valid one. */
  predicate IsAuthenticated(items: map<string, string>) {
    USER_PRINCIPAL_KEY in items && IsValidPrincipal(items[USER_PRINCIPAL_KEY])
  }

  /** `getCurrentUser`: the two stored values, each missing when its key is. */
  function GetCurrentUser(items: map<string, string>): (user: StoredUser)
    ensures user.principal.Some? <==> USER_PRINCIPAL_KEY in items
    ensures user.provider.Some? <==> AUTH_PROVIDER_KEY in items
    ensures user.principal.Some? ==> user.principal.value == items[USER_PRINCIPAL_KEY]
    ensures user.provider.Some? ==> user.provider.value == items[AUTH_PROVIDER_KEY]
  {
    StoredUser(
      if USER_PRINCIPAL_KEY in items then Some(items[USER_PRINCIPAL_KEY]) else None,
      if AUTH_PROVIDER_KEY in items then Some(items[AUTH_PROVIDER_KEY]) else None)
  }

  /** The storage after a successful sign-in. */
  function SignedIn(items: map<string, string>, provider: string, principal: string): map<string, string> {
    items[AUTH_PROVIDER_KEY := provider][USER_PRINCIPAL_KEY := principal]
  }

  /** The storage after a sign-out. */
  function SignedOut(items: map<string, string>): map<string, string> {
    items - {AUTH_PROVIDER_KEY, USER_PRINCIPAL_KEY}
  }

  /** What a sign-in stores is what `getCurrentUser` reads back, and the
      session then counts as authenticated. */
  lemma SignInIsRemembered(items: map<string, string>, provider: string, principal: string)
    requires IsValidPrincipal(principal)
    ensures GetCurrentUser(SignedIn(items, provider, principal)) == StoredUser(Some(principal), Some(provider))
    ensures IsAuthenticated(SignedIn(items, provider, principal))
  {
    KeysAreDistinct();
  }

  /** A sign-out forgets both values, touches no other key, and the session
      no longer counts as authenticated. */
  lemma SignOutForgets(items: map<string, string>)
    ensures GetCurrentUser(SignedOut(items)) == StoredUser(None, None)
    ensures !IsAuthenticated(SignedOut(items))
    ensures forall k :: k in items && k != AUTH_PROVIDER_KEY && k != USER_PRINCIPAL_KEY ==>
              k in SignedOut(items) && SignedOut(items)[k] == items[k]
  {
  }

  /** The browser's `localStorage`. */
  class LocalStorage {
    var items: map<string, string>

    constructor (initial: map<string, string>)
      ensures items == initial
    {
      items := initial;
    }

    method SetItem(key: string, value: string)
      modifies this
      ensures items == old(items)[key := value]
    {
      items := items[key := value];
    }

    method RemoveItem(key: string)
      modifies this
      ensures items == old(items) - {key}
    {
      items := items - {key};
    }
  }

  /** `authenticateUser`: an unknown provider fails with "Unsupported
      provider" without calling a wallet; a wallet error is passed on; a
      missing principal or the placeholder fails with "Authentication
      failed". Storage is written only on success, with both keys. */
  method AuthenticateUser(store: LocalStorage, provider: string, env: Env,
                          wallet: WalletRequest -> Result<WalletUser, string>)
    returns (r: Result<WalletUser, string>)
    modifies store
    ensures ParseProvider(provider).None? ==> r == Failure(UNSUPPORTED_PROVIDER)
    ensures ParseProvider(provider).Some? ==>
              var outcome := wallet(WalletCall(ParseProvider(provider).value, Whitelist(env)));
              && (outcome.Failure? ==> r == outcome)
              && (outcome.Success? && !IsValidPrincipal(outcome.value.principal) ==>
                    r == Failure(AUTHENTICATION_FAILED))
              && (outcome.Success? && IsValidPrincipal(outcome.value.principal) ==> r == outcome)
    ensures r.Success? ==>
              IsValidPrincipal(r.value.principal)
              && store.items == SignedIn(old(store.items), provider, r.value.principal)
    ensures r.Failure? ==> store.items == old(store.items)
  {
    var whitelist := GetWhitelistedCanisters(env);
    var p := ParseProvider(provider);
    if p.None? {
      return Failure(UNSUPPORTED_PROVIDER);
    }
    var outcome := wallet(WalletCall(p.value, whitelist));
    if outcome.Failure? {
      return outcome;
    }
    var userObject := outcome.value;
    if !IsValidPrincipal(userObject.principal) {
      return Failure(AUTHENTICATION_FAILED);
    }
    store.SetItem(AUTH_PROVIDER_KEY, provider);
    store.SetItem(USER_PRINCIPAL_KEY, userObject.principal);
    r := Success(userObject);
  }

  /** `logoutUser`: removes exactly the two session keys. */
  method LogoutUser(store: LocalStorage)
    modifies store
    ensures store.items == SignedOut(old(store.items))
  {
    store.RemoveItem(AUTH_PROVIDER_KEY);
    store.RemoveItem(USER_PRINCIPAL_KEY);
  }
}
