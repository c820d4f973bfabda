/**
 * lib/http/tokenStore.ts: the process-wide cell holding the current access
 * token, initially null.
 */
module Tokens {
  import opened Js

  /** `token || null`: the value `setAccessToken` stores. */
  function Stored(token: Option<string>): (r: Option<string>)
    ensures r != Some("")
    ensures token.Some? && token.value != "" ==> r == token
    ensures token == None || token == Some("") ==> r == None
  {
    if token.Some? && token.value != "" then token else None
  }

  /** Storing is idempotent: storing a stored value again changes nothing. */
  lemma StoredIdempotent(token: Option<string>)
    ensures Stored(Stored(token)) == Stored(token)
  {
  }

  class TokenStore {
    var accessToken: Option<string>

    /** The cell never holds the empty string. */
    ghost predicate Valid()
      reads this
    {
      accessToken != Some("")
    }

    /** `let accessToken = null` */
    constructor ()
      ensures Valid() && accessToken == None
    {
      accessToken := None;
    }

    /** `setAccessToken(token)`: an empty string or null clears the cell. */
    method SetAccessToken(token: Option<string>)
      modifies this
      ensures Valid()
      ensures accessToken == Stored(token)
    {
      if token.Some? && token.value != "" {
        accessToken := token;
      } else {
        accessToken := None;
      }
    }

    /** `getAccessToken()` reads the cell and changes nothing. */
    method GetAccessToken() returns (t: Option<string>)
      ensures t == accessToken
    {
      t := accessToken;
    }
  }

  /** Setting a non-empty token and then getting returns that token. */
  method SetThenGet(store: TokenStore, token: string) returns (got: Option<string>)
    requires token != ""
    modifies store
    ensures got == Some(token) && store.accessToken == Some(token)
  {
    store.SetAccessToken(Some(token));
    got := store.GetAccessToken();
  }
}
