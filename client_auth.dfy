/** The browser-side session helpers (lib/client-auth.ts): the token and the
    user record kept in `localStorage` under two fixed keys, the login test
    and logout. `localStorage` is a map from keys to items; `JSON.stringify`
    and `JSON.parse` are taken to be inverse, so a stored user is kept as the
    record itself. On the server there is no window: the two readers answer
    `null`, and every writer throws (`localStorage` is not defined there). */
module ClientAuth {
  import opened Common

  /** The `User` interface. */
  datatype User = User(id: string, name: string, email: string, created_at: string)

  /** A stored item: a plain string, or the JSON text of a user. */
  datatype Item = Text(text: string) | Json(user: User)

  const TokenKey: string := "auth_token"
  const UserKey: string := "user"

  lemma KeysDistinct()
    ensures TokenKey != UserKey
  {
    assert TokenKey[0] != UserKey[0];
  }

  /** `!!item`: an item is truthy unless it is the empty string; the JSON text
      of a user is never empty. */
  predicate Truthy(item: Option<Item>)
  {
    item.Some? && (item.value.Text? ==> item.value.text != "")
  }

  /** `getAuthToken()` on a given storage. */
  function TokenIn(hasWindow: bool, storage: map<string, Item>): (r: Option<Item>)
    ensures r.Some? <==> hasWindow && TokenKey in storage
    ensures r.Some? ==> r.value == storage[TokenKey]
  {
    if hasWindow && TokenKey in storage then Some(storage[TokenKey]) else None
  }

  /** `getUser()` on a given storage: the parsed user, or `null` when there is
      no window or no truthy item. */
  function UserIn(hasWindow: bool, storage: map<string, Item>): (r: Option<User>)
    ensures r.Some? <==> hasWindow && UserKey in storage && storage[UserKey].Json?
    ensures r.Some? ==> storage[UserKey] == Json(r.value)
  {
    if hasWindow && UserKey in storage && storage[UserKey].Json? then Some(storage[UserKey].user) else None
  }

  /** `isAuthenticated()`: the stored token is present and not empty. */
  predicate Authenticated(hasWindow: bool, storage: map<string, Item>)
    ensures Authenticated(hasWindow, storage) <==>
      hasWindow && TokenKey in storage && storage[TokenKey] != Text("")
  {
    Truthy(TokenIn(hasWindow, storage))
  }

  /** Storing a token and reading it back gives that token; the login test
      then holds exactly when the token is not the empty string. */
  lemma SetThenGetToken(storage: map<string, Item>, t: string)
    ensures TokenIn(true, storage[TokenKey := Text(t)]) == Some(Text(t))
    ensures Authenticated(true, storage[TokenKey := Text(t)]) <==> t != ""
  {
  }

  /** Writing one key leaves what the other key reads unchanged. */
  lemma KeysIndependent(hasWindow: bool, storage: map<string, Item>, t: string, u: User)
    ensures UserIn(hasWindow, storage[TokenKey := Text(t)]) == UserIn(hasWindow, storage)
    ensures UserIn(hasWindow, storage - {TokenKey}) == UserIn(hasWindow, storage)
    ensures TokenIn(hasWindow, storage[UserKey := Json(u)]) == TokenIn(hasWindow, storage)
    ensures TokenIn(hasWindow, storage - {UserKey}) == TokenIn(hasWindow, storage)
  {
    KeysDistinct();
  }

  /** The user last stored is the user read back. */
  lemma SetThenGetUser(storage: map<string, Item>, u: User)
    ensures UserIn(true, storage[UserKey := Json(u)]) == Some(u)
  {
  }

  /** The browser's storage and location, and the helpers that use them. */
  class ClientSession {
    const hasWindow: bool
    var storage: map<string, Item>
    var location: string

    constructor (hasWindow: bool, initial: map<string, Item>, location: string)
      ensures this.hasWindow == hasWindow && storage == initial && this.location == location
    {
      this.hasWindow := hasWindow;
      storage := initial;
      this.location := location;
    }

    /** `setAuthToken(token)`. */
    method SetAuthToken(token: string) returns (threw: bool)
      modifies this`storage
      ensures threw <==> !hasWindow
      ensures storage == if hasWindow then old(storage)[TokenKey := Text(token)] else old(storage)
    {
      if !hasWindow {
        return true;
      }
      storage := storage[TokenKey := Text(token)];
      threw := false;
    }

    /** `getAuthToken()`. */
    function GetAuthToken(): (r: Option<Item>)
      reads this
      ensures !hasWindow ==> r.None?
      ensures r == TokenIn(hasWindow, storage)
    {
      TokenIn(hasWindow, storage)
    }

    /** `removeAuthToken()`. */
    method RemoveAuthToken() returns (threw: bool)
      modifies this`storage
      ensures threw <==> !hasWindow
      ensures storage == if hasWindow then old(storage) - {TokenKey} else old(storage)
      ensures !IsAuthenticated()
    {
      if !hasWindow {
        return true;
      }
      storage := storage - {TokenKey};
      threw := false;
    }

    /** `setUser(user)`. */
    method SetUser(user: User) returns (threw: bool)
      modifies this`storage
      ensures threw <==> !hasWindow
      ensures storage == if hasWindow then old(storage)[UserKey := Json(user)] else old(storage)
    {
      if !hasWindow {
        return true;
      }
      storage := storage[UserKey := Json(user)];
      threw := false;
    }

    /** `getUser()`. */
    function GetUser(): (r: Option<User>)
      reads this
      ensures !hasWindow ==> r.None?
      ensures r == UserIn(hasWindow, storage)
    {
      UserIn(hasWindow, storage)
    }

    /** `removeUser()`. */
    method RemoveUser() returns (threw: bool)
      modifies this`storage
      ensures threw <==> !hasWindow
      ensures storage == if hasWindow then old(storage) - {UserKey} else old(storage)
      ensures GetUser().None?
    {
      if !hasWindow {
        return true;
      }
      storage := storage - {UserKey};
      threw := false;
    }

    /** `logout()`: both keys go, then the browser is sent to /login. */
    method Logout() returns (threw: bool)
      modifies this`storage, this`location
      ensures threw <==> !hasWindow
      ensures hasWindow ==> storage == old(storage) - {TokenKey, UserKey} && location == "/login"
      ensures !hasWindow ==> storage == old(storage) && location == old(location)
      ensures !IsAuthenticated() && GetUser().None?
    {
      threw := RemoveAuthToken();
      if threw {
        return;
      }
      threw := RemoveUser();
      location := "/login";
    }

    /** `isAuthenticated()`. */
    predicate IsAuthenticated()
      reads this
      ensures IsAuthenticated() <==> Truthy(GetAuthToken())
    {
      Authenticated(hasWindow, storage)
    }
  }
}
