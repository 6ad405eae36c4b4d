/**
 * The authentication provider: a tri-state flag (unknown until the stored
 * session has been read, then signed in or not), backed by one entry of the
 * browser's session storage, and a single fixed credential pair.
 */
module Auth {
  import opened Wrappers

  const AuthKey := "kanban_auth"
  const ValidUsername := "user"
  const ValidPassword := "password"
  const NoProviderMessage := "useAuth must be used within AuthProvider"

  /** `sessionStorage.getItem(key)`: None when the key is not set. */
  function GetItem(storage: map<string, string>, key: string): (r: Option<string>)
    ensures r.Some? <==> key in storage
    ensures r.Some? ==> r.value == storage[key]
  {
    if key in storage then Some(storage[key]) else None
  }

  /** What the mount step reads: signed in exactly when the stored value is "true". */
  function StoredSignIn(storage: map<string, string>): (r: bool)
    ensures r <==> AuthKey in storage && storage[AuthKey] == "true"
  {
    GetItem(storage, AuthKey) == Some("true")
  }

  class AuthProvider {
    /** None while storage has not been read yet; then Some(signed in). */
    var isAuthenticated: Option<bool>
    /** The session storage the provider reads and writes. */
    var storage: map<string, string>

    /** Before the mount step the state is unknown. */
    constructor (storage: map<string, string>)
      ensures isAuthenticated == None && this.storage == storage
    {
      isAuthenticated := None;
      this.storage := storage;
    }

    /** The mount effect: restore the state from storage, which is left as it is. */
    method Mount()
      modifies this
      ensures isAuthenticated == Some(StoredSignIn(storage))
      ensures storage == old(storage)
    {
      isAuthenticated := Some(GetItem(storage, AuthKey) == Some("true"));
    }

    /**
     * login: with the valid pair, store "true" under the key and sign in;
     * with any other pair change nothing.
     */
    method Login(username: string, password: string) returns (ok: bool)
      modifies this
      ensures ok <==> username == ValidUsername && password == ValidPassword
      ensures ok ==> isAuthenticated == Some(true) && storage == old(storage)[AuthKey := "true"]
      ensures !ok ==> isAuthenticated == old(isAuthenticated) && storage == old(storage)
    {
      if username == ValidUsername && password == ValidPassword {
        storage := storage[AuthKey := "true"];
        isAuthenticated := Some(true);
        return true;
      }
      return false;
    }

    /** logout: from any state, remove the key and sign out. */
    method Logout()
      modifies this
      ensures isAuthenticated == Some(false)
      ensures storage == old(storage) - {AuthKey}
      ensures AuthKey !in storage
    {
      storage := storage - {AuthKey};
      isAuthenticated := Some(false);
    }
  }

  /** useAuth: the provider in scope, or the error it throws without one. */
  function UseAuth(context: AuthProvider?): (r: Result<AuthProvider, string>)
    ensures r.Failure? <==> context == null
    ensures r.Failure? ==> r.error == NoProviderMessage
    ensures r.Success? ==> r.value == context
  {
    if context == null then Failure(NoProviderMessage) else Success(context)
  }

  /** After a successful login, reading the key gives "true". */
  lemma GetItemAfterLogin(storage: map<string, string>)
    ensures GetItem(storage[AuthKey := "true"], AuthKey) == Some("true")
  {
  }

  /** After a logout, the key reads as not set. */
  lemma GetItemAfterLogout(storage: map<string, string>)
    ensures GetItem(storage - {AuthKey}, AuthKey) == None
  {
  }

  /** A session stored by a successful login is restored by the next mount. */
  lemma LoginIsRestoredOnMount(storage: map<string, string>)
    ensures StoredSignIn(storage[AuthKey := "true"])
  {
  }

  /** After a logout the next mount finds the user signed out. */
  lemma LogoutIsRestoredOnMount(storage: map<string, string>)
    ensures !StoredSignIn(storage - {AuthKey})
  {
  }

  /** The sequences of events the provider's tests exercise, on empty storage. */
  method Scenarios()
  {
    var p := new AuthProvider(map[]);
    assert p.isAuthenticated == None;
    p.Mount();
    assert p.isAuthenticated == Some(false);

    var ok := p.Login("admin", "wrongpassword");
    assert !ok && p.isAuthenticated == Some(false);
    ok := p.Login("user", "wrong");
    assert !ok && p.isAuthenticated == Some(false);

    ok := p.Login("user", "password");
    assert ok && p.isAuthenticated == Some(true) && p.storage[AuthKey] == "true";
    p.Logout();
    assert p.isAuthenticated == Some(false) && AuthKey !in p.storage;

    var restored := new AuthProvider(map[AuthKey := "true"]);
    restored.Mount();
    assert restored.isAuthenticated == Some(true);

    var missing := UseAuth(null);
    assert missing == Failure(NoProviderMessage);
  }
}
