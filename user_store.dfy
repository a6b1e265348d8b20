/**
 * The user store: the in-memory `token` and the persisted `'token'` entry of
 * the shared storage. `setToken` with a falsy argument clears memory only,
 * so the stored token comes back on the next initialisation.
 */
module Stores {
  import opened Wrappers
  import opened JsValues
  import WebStorage

  const TokenKey := "token"

  /** The in-memory token together with the storage it is kept in. */
  datatype UserState = UserState(token: Option<string>, items: map<string, string>)

  /** The token a store initialised over `items` holds: the stored entry, or null. */
  function InitialToken(items: map<string, string>): (t: Option<string>)
    ensures t.Some? <==> TokenKey in items
    ensures t.Some? ==> t.value == items[TokenKey]
  {
    WebStorage.Lookup(items, TokenKey)
  }

  /** A token as a JavaScript value: `null` or a string. */
  function TokenValue(t: Option<string>): JsValue {
    if t.Some? then Str(t.value) else Null
  }

  /** `if (newToken)` on a `string | null`. */
  predicate IsTruthyToken(t: Option<string>)
    ensures IsTruthyToken(t) <==> Truthy(TokenValue(t))
  {
    t.Some? && t.value != ""
  }

  /**
   * The state after `setToken(newToken)`, and whether it threw: a failing
   * `setItem` raises out of `setToken` before the token is assigned.
   */
  function AfterSetToken(st: UserState, newToken: Option<string>, quotaExceeded: bool): (r: (UserState, bool))
    ensures r.1 <==> IsTruthyToken(newToken) && quotaExceeded
    ensures r.1 ==> r.0 == st
    ensures IsTruthyToken(newToken) && !quotaExceeded ==>
              r.0.token == newToken && InitialToken(r.0.items) == newToken
    ensures !IsTruthyToken(newToken) ==> r.0.token == None && r.0.items == st.items
    ensures forall k :: k != TokenKey ==> (k in r.0.items <==> k in st.items)
    ensures forall k :: k != TokenKey && k in st.items ==> r.0.items[k] == st.items[k]
  {
    if IsTruthyToken(newToken) then
      if quotaExceeded then (st, true)
      else (UserState(newToken, st.items[TokenKey := newToken.value]), false)
    else (UserState(None, st.items), false)
  }

  /** The state after `clearToken()`. */
  function AfterClearToken(st: UserState): (r: UserState)
    ensures r.token == None && InitialToken(r.items) == None
    ensures forall k :: k != TokenKey ==> (k in r.items <==> k in st.items)
    ensures forall k :: k in r.items ==> r.items[k] == st.items[k]
  {
    UserState(None, st.items - {TokenKey})
  }

  /** Clearing only the in-memory token leaves the stored one to be restored on reload. */
  lemma SetNullThenReload(st: UserState, newToken: Option<string>, quotaExceeded: bool)
    requires !IsTruthyToken(newToken)
    ensures InitialToken(AfterSetToken(st, newToken, quotaExceeded).0.items) == InitialToken(st.items)
  {
  }

  class UserStore {
    var token: Option<string>
    const storage: WebStorage.Storage

    /** `ref(localStorage.getItem('token'))`. */
    constructor (storage: WebStorage.Storage)
      ensures this.storage == storage
      ensures token == InitialToken(storage.items)
    {
      this.storage := storage;
      new;
      token := storage.GetItem(TokenKey);
    }

    method SetToken(newToken: Option<string>, quotaExceeded: bool) returns (raised: bool)
      modifies this, storage
      ensures (UserState(token, storage.items), raised)
              == AfterSetToken(UserState(old(token), old(storage.items)), newToken, quotaExceeded)
    {
      raised := false;
      if newToken.Some? && newToken.value != "" {
        var ok := storage.SetItem(TokenKey, newToken.value, quotaExceeded);
        if !ok {
          raised := true;
          return;
        }
        token := newToken;
      } else {
        token := None;
      }
    }

    method ClearToken()
      modifies this, storage
      ensures UserState(token, storage.items) == AfterClearToken(UserState(old(token), old(storage.items)))
    {
      storage.RemoveItem(TokenKey);
      token := None;
    }
  }
}
