/** The authentication context (src/hooks/useAuth.tsx): an `isAuthenticated`
    state mirrored by one key of local storage. */
module Auth {
  import opened Wrappers
  import opened WebStorage

  const AuthKey := "isAuthenticated"

  /** What the mount effect computes: `getItem('isAuthenticated') === 'true'`. */
  predicate StoredFlag(storage: Storage): (b: bool)
    ensures b <==> AuthKey in storage && storage[AuthKey] == "true"
  {
    GetItem(storage, AuthKey) == Some("true")
  }

  /** After the login continuation has written the flag, a fresh mount reads
      true; after logout has removed it, false. Other keys play no part. */
  lemma MountAfterLoginAndLogout(storage: Storage)
    ensures StoredFlag(SetItem(storage, AuthKey, "true"))
    ensures !StoredFlag(RemoveItem(storage, AuthKey))
  {
  }

  /** The mount read is true exactly when the key is present with the text
      "true": an absent key, "false" or "TRUE" all read as false. */
  lemma StoredFlagExactly(storage: Storage)
    ensures StoredFlag(storage) <==> AuthKey in storage && storage[AuthKey] == "true"
    ensures AuthKey !in storage ==> !StoredFlag(storage)
    ensures StoredFlag(storage[AuthKey := "false"]) == false
    ensures StoredFlag(storage[AuthKey := "TRUE"]) == false
  {
  }

  /** The context value `useAuth` hands out. */
  datatype AuthContext = AuthContext(isAuthenticated: bool)

  const OutsideProviderError := "useAuth must be used within an AuthProvider"

  /** `useAuth()`: the nearest provider's context, or the error it throws when
      there is none. */
  function UseAuth(context: Option<AuthContext>): (r: Result<AuthContext, string>)
    ensures r.Success? <==> context.Some?
    ensures r.Success? ==> r.value == context.value
    ensures r.Failure? ==> r.error == OutsideProviderError
  {
    match context
    case None => Failure(OutsideProviderError)
    case Some(c) => Success(c)
  }

  /** `AuthProvider`: its `isAuthenticated` state, the login timers it has
      started and not yet seen fire, and the browser it reads and writes. */
  class AuthProvider {
    var isAuthenticated: bool
    var pendingLogins: nat
    const browser: Browser

    /** First render: `useState(false)`, before the mount effect has run. */
    constructor(browser: Browser)
      ensures this.browser == browser
      ensures !isAuthenticated && pendingLogins == 0
    {
      this.browser := browser;
      isAuthenticated := false;
      pendingLogins := 0;
    }

    /** The mount effect: the state takes the stored flag. */
    method Mount()
      modifies this
      ensures isAuthenticated == StoredFlag(browser.storage)
      ensures pendingLogins == old(pendingLogins)
    {
      var authStatus := GetItem(browser.storage, AuthKey);
      isAuthenticated := authStatus == Some("true");
    }

    /** `login(email, password)`: the credentials are not looked at; a timer
        is started and nothing else changes until it fires. There is no
        failure outcome: the returned promise never rejects. */
    method Login(email: string, password: string)
      modifies this
      ensures pendingLogins == old(pendingLogins) + 1
      ensures isAuthenticated == old(isAuthenticated)
    {
      pendingLogins := pendingLogins + 1;
    }

    /** A login timer fires (after 1500 ms in the source): the flag is
        stored, the state becomes true and the promise resolves. */
    method CompleteLogin()
      requires pendingLogins > 0
      modifies this, browser
      ensures browser.storage == SetItem(old(browser.storage), AuthKey, "true")
      ensures browser.path == old(browser.path)
      ensures isAuthenticated
      ensures pendingLogins == old(pendingLogins) - 1
    {
      browser.storage := SetItem(browser.storage, AuthKey, "true");
      isAuthenticated := true;
      pendingLogins := pendingLogins - 1;
    }

    /** `logout()`: the key is removed, the state becomes false and the app
        navigates to the login page. */
    method Logout()
      modifies this, browser
      ensures browser.storage == RemoveItem(old(browser.storage), AuthKey)
      ensures !isAuthenticated && browser.path == "/"
      ensures pendingLogins == old(pendingLogins)
    {
      browser.storage := RemoveItem(browser.storage, AuthKey);
      isAuthenticated := false;
      browser.Navigate("/");
    }
  }

  /** Login then a remount reads true; logout then a remount reads false. */
  method LoginLogoutRoundTrip(browser: Browser)
    modifies browser
    ensures !StoredFlag(browser.storage) && browser.path == "/"
    ensures forall k :: k != AuthKey ==> GetItem(browser.storage, k) == GetItem(old(browser.storage), k)
  {
    var provider := new AuthProvider(browser);
    provider.Login("ana@empresa.com", "secreto");
    provider.CompleteLogin();
    var remounted := new AuthProvider(browser);
    remounted.Mount();
    assert remounted.isAuthenticated;
    provider.Logout();
    var again := new AuthProvider(browser);
    again.Mount();
    assert !again.isAuthenticated;
  }
}
