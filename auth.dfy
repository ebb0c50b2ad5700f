/**
 * useAuth and its helpers: the signed-in user and their token are kept in
 * `localStorage` under two fixed keys; the hook loads the user once when it
 * mounts.
 */
module Auth {
  import opened Wrappers
  import opened BrowserStorage

  const AuthStorageKey := "auth_user"
  const TokenStorageKey := "auth_token"

  /** The storage after `setAuthUser`, given the user's JSON text. */
  function WithAuthUser(items: map<string, string>, userJson: string, token: string): map<string, string> {
    items[AuthStorageKey := userJson][TokenStorageKey := token]
  }

  /** The storage after `clearAuthUser`. */
  function WithoutAuthUser(items: map<string, string>): map<string, string> {
    items - {AuthStorageKey, TokenStorageKey}
  }

  /**
   * The user the hook loads: only when both the user and the token are
   * stored and non-empty, and the user's text parses (`parse` gives `None`
   * where `JSON.parse` throws).
   */
  function LoadedUser<U>(items: map<string, string>, parse: string -> Option<U>): (r: Option<U>)
    ensures r.Some? ==> AuthStorageKey in items && items[AuthStorageKey] != "" && parse(items[AuthStorageKey]) == r
    ensures r.Some? ==> TokenStorageKey in items && items[TokenStorageKey] != ""
    ensures AuthStorageKey in items && items[AuthStorageKey] != "" && TokenStorageKey in items && items[TokenStorageKey] != "" ==>
      r == parse(items[AuthStorageKey])
  {
    var storedUser := Lookup(items, AuthStorageKey);
    var storedToken := Lookup(items, TokenStorageKey);
    if storedUser.Some? && storedUser.value != "" && storedToken.Some? && storedToken.value != "" then
      parse(storedUser.value)
    else None
  }

  /** `setAuthUser`: writes the user's JSON text and the token. */
  method SetAuthUser<U>(storage: Storage, user: U, token: string, stringify: U -> string)
    modifies storage`items
    ensures storage.items == WithAuthUser(old(storage.items), stringify(user), token)
  {
    storage.SetItem(AuthStorageKey, stringify(user));
    storage.SetItem(TokenStorageKey, token);
  }

  /** `clearAuthUser`: removes both keys. */
  method ClearAuthUser(storage: Storage)
    modifies storage`items
    ensures storage.items == WithoutAuthUser(old(storage.items))
  {
    storage.RemoveItem(AuthStorageKey);
    storage.RemoveItem(TokenStorageKey);
  }

  /** `getAuthToken`: the stored token, or `None`. */
  method GetAuthToken(storage: Storage) returns (token: Option<string>)
    ensures token == Lookup(storage.items, TokenStorageKey)
  {
    token := storage.GetItem(TokenStorageKey);
  }

  /** After `setAuthUser` the token reads back, and no other key has changed. */
  lemma SetThenToken(items: map<string, string>, userJson: string, token: string)
    ensures Lookup(WithAuthUser(items, userJson, token), TokenStorageKey) == Some(token)
    ensures Lookup(WithAuthUser(items, userJson, token), AuthStorageKey) == Some(userJson)
    ensures forall k :: k != AuthStorageKey && k != TokenStorageKey ==>
      Lookup(WithAuthUser(items, userJson, token), k) == Lookup(items, k)
  {
  }

  /**
   * A user stored with a non-empty token is the user a later mount loads,
   * when their JSON text parses back to them; with an empty token no user is
   * loaded at all.
   */
  lemma SetThenLoad<U>(items: map<string, string>, user: U, token: string, stringify: U -> string, parse: string -> Option<U>)
    requires stringify(user) != "" && parse(stringify(user)) == Some(user)
    ensures token != "" ==> LoadedUser(WithAuthUser(items, stringify(user), token), parse) == Some(user)
    ensures token == "" ==> LoadedUser(WithAuthUser(items, stringify(user), token), parse) == None
  {
    var after := WithAuthUser(items, stringify(user), token);
    assert Lookup(after, AuthStorageKey) == Some(stringify(user));
    assert Lookup(after, TokenStorageKey) == Some(token);
  }

  /** After `clearAuthUser` there is no token and no user to load, and no other key has changed. */
  lemma ClearThenNothing<U>(items: map<string, string>, parse: string -> Option<U>)
    ensures Lookup(WithoutAuthUser(items), TokenStorageKey) == None
    ensures LoadedUser(WithoutAuthUser(items), parse) == None
    ensures forall k :: k != AuthStorageKey && k != TokenStorageKey ==>
      Lookup(WithoutAuthUser(items), k) == Lookup(items, k)
  {
  }

  /** The hook's state. */
  class AuthState<U> {
    var user: Option<U>
    var isLoading: bool

    constructor ()
      ensures user == None && isLoading
    {
      user := None;
      isLoading := true;
    }

    /** `user !== null`. */
    predicate IsAuthenticated()
      reads this
    {
      user.Some?
    }

    /**
     * The mount effect: the stored user becomes the state when both keys
     * hold non-empty text and the user's text parses; a parse failure is
     * swallowed; loading ends either way.
     */
    method Load(storage: Storage, parse: string -> Option<U>)
      modifies this`user, this`isLoading
      ensures user == (if LoadedUser(storage.items, parse).Some? then LoadedUser(storage.items, parse) else old(user))
      ensures !isLoading
      ensures old(user).None? ==> (IsAuthenticated() <==> LoadedUser(storage.items, parse).Some?)
    {
      var storedUser := storage.GetItem(AuthStorageKey);
      var storedToken := storage.GetItem(TokenStorageKey);
      if storedUser.Some? && storedUser.value != "" && storedToken.Some? && storedToken.value != "" {
        var parsed := parse(storedUser.value);
        if parsed.Some? {
          user := parsed;
        }
      }
      isLoading := false;
    }
  }

  /** Mounting after `setAuthUser` with a non-empty token signs the user in. */
  method MountAfterSignIn<U>(storage: Storage, user: U, token: string, stringify: U -> string, parse: string -> Option<U>)
      returns (state: AuthState<U>)
    requires token != "" && stringify(user) != "" && parse(stringify(user)) == Some(user)
    modifies storage`items
    ensures state.user == Some(user) && state.IsAuthenticated() && !state.isLoading
  {
    SetAuthUser(storage, user, token, stringify);
    state := new AuthState();
    SetThenLoad(old(storage.items), user, token, stringify, parse);
    state.Load(storage, parse);
  }
}
