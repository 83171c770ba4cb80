/** `AuthProvider`: the React context that holds the signed-in user, a loading
    flag and the last sign-in error, on top of the sign-in service. A sign-in
    is split into its start and the completion of the wallet call. */
module AuthContext {
  import opened Wrappers
  import opened Auth

  class AuthProvider {
    const store: LocalStorage
    var user: Option<StoredUser>
    var isLoading: bool
    var authError: Option<string>
    /** The provider of the sign-in in flight. */
    var pendingProvider: Option<string>
    /** The mount effect has run. */
    var mounted: bool

    /** A held user is the one storage records as signed in, and once mounted
        a user is held whenever storage records an authenticated session. The
        error of the previous sign-in is cleared while one is in flight. */
    ghost predicate Valid()
      reads this, store
    {
      && (user.Some? ==> Auth.IsAuthenticated(store.items) && user.value == GetCurrentUser(store.items))
      && (mounted && user.None? ==> !Auth.IsAuthenticated(store.items))
      && (pendingProvider.Some? ==> authError == None)
    }

    /** The first render: no user, and loading. */
    constructor (s: LocalStorage)
      ensures Valid()
      ensures store == s && user == None && isLoading && authError == None
      ensures pendingProvider == None && !mounted
    {
      store := s;
      user := None;
      isLoading := true;
      authError := None;
      pendingProvider := None;
      mounted := false;
    }

    /** The mount effect: the user is read from storage when it records an
        authenticated session, and loading ends. */
    method Mount()
      requires Valid() && !mounted
      modifies this
      ensures Valid()
      ensures user == (if Auth.IsAuthenticated(store.items) then Some(GetCurrentUser(store.items)) else None)
      ensures !isLoading && mounted
      ensures authError == old(authError) && pendingProvider == old(pendingProvider)
    {
      if Auth.IsAuthenticated(store.items) {
        user := Some(GetCurrentUser(store.items));
      }
      isLoading := false;
      mounted := true;
    }

    /** `login` up to the wallet call: loading starts and the previous error is
        cleared. */
    method BeginLogin(provider: string)
      requires Valid() && pendingProvider.None?
      modifies this
      ensures Valid()
      ensures isLoading && authError == None && pendingProvider == Some(provider)
      ensures user == old(user) && mounted == old(mounted)
    {
      isLoading := true;
      authError := None;
      pendingProvider := Some(provider);
    }

    /** `login` after the wallet call. On success the user holds the returned
        principal and the provider the caller asked for; on failure the error
        message is kept and the user is unchanged. Loading ends either way and
        the outcome is passed on to the caller. */
    method CompleteLogin(env: Env, wallet: WalletRequest -> Result<WalletUser, string>)
      returns (r: Result<WalletUser, string>)
      requires Valid() && pendingProvider.Some?
      modifies this, store
      ensures Valid()
      ensures r.Success? ==>
                && user == Some(StoredUser(Some(r.value.principal), Some(old(pendingProvider).value)))
                && authError == None
                && store.items == SignedIn(old(store.items), old(pendingProvider).value, r.value.principal)
      ensures r.Failure? ==>
                user == old(user) && authError == Some(r.error) && store.items == old(store.items)
      ensures !isLoading && pendingProvider == None && mounted == old(mounted)
    {
      var provider := pendingProvider.value;
      r := AuthenticateUser(store, provider, env, wallet);
      if r.Success? {
        SignInIsRemembered(old(store.items), provider, r.value.principal);
        user := Some(StoredUser(Some(r.value.principal), Some(provider)));
      } else {
        authError := Some(r.error);
      }
      isLoading := false;
      pendingProvider := None;
    }

    /** `logout`: storage forgets the session and the user is cleared. */
    method Logout()
      requires Valid()
      modifies this, store
      ensures Valid()
      ensures user == None && store.items == SignedOut(old(store.items))
      ensures isLoading == old(isLoading) && authError == old(authError)
      ensures pendingProvider == old(pendingProvider) && mounted == old(mounted)
    {
      LogoutUser(store);
      SignOutForgets(old(store.items));
      user := None;
    }

    /** The `isAuthenticated` the context exposes: a user is held. */
    predicate IsAuthenticated()
      reads this
    {
      user.Some?
    }
  }

  /** Once mounted, the context's `isAuthenticated` is the service's
      `isAuthenticated` on storage. */
  lemma ContextAgreesWithStorage(p: AuthProvider)
    requires p.Valid() && p.mounted
    ensures p.IsAuthenticated() <==> Auth.IsAuthenticated(p.store.items)
  {
  }
}
