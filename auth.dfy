/** The shared-password gate's helpers: the password check and the
    authentication flag kept in the browser's key-value storage, modelled as
    a map from keys to strings. */
module Auth {

  /** `CORRECT_PASSWORD`. */
  const CorrectPassword: string := "cbe425"

  /** The storage key of the flag. */
  const AuthKey: string := "isAuthenticated"

  /** `validatePassword`: exact, case-sensitive equality with the secret. */
  function ValidatePassword(password: string): (ok: bool)
    ensures ok <==> password == CorrectPassword
  {
    password == CorrectPassword
  }

  /** Nothing but the exact secret passes: not a different case, not with
      surrounding blanks, not a prefix. */
  lemma OnlyTheSecretPasses()
    ensures ValidatePassword("cbe425")
    ensures !ValidatePassword("CBE425") && !ValidatePassword(" cbe425") && !ValidatePassword("cbe42")
    ensures !ValidatePassword("")
  {
    assert "CBE425"[0] != CorrectPassword[0];
    assert " cbe425"[0] != CorrectPassword[0];
    assert |"cbe42"| != |CorrectPassword|;
  }

  /** `b.toString()`. */
  function BoolString(b: bool): (s: string)
    ensures b ==> s == "true"
    ensures !b ==> s == "false"
  {
    if b then "true" else "false"
  }

  /** `getAuthState`'s reading of a storage: the flag is set exactly when
      the key holds the string "true". */
  predicate AuthStateOf(storage: map<string, string>) {
    AuthKey in storage && storage[AuthKey] == "true"
  }

  /** Writing `b` and reading back gives `b`: "false" is not "true". */
  lemma SetThenGet(storage: map<string, string>, b: bool)
    ensures AuthStateOf(storage[AuthKey := BoolString(b)]) == b
  {
    assert "false" != "true" by {
      assert "false"[0] != "true"[0];
    }
  }

  /** After the key is removed, or when it was never written, the flag reads
      as false. */
  lemma ClearedOrNeverSet(storage: map<string, string>)
    ensures !AuthStateOf(storage - {AuthKey})
    ensures AuthKey !in storage ==> !AuthStateOf(storage)
  {
  }

  /** The browser storage the helpers use. */
  class AuthStore {
    var storage: map<string, string>

    constructor (initial: map<string, string>)
      ensures storage == initial
    {
      storage := initial;
    }

    /** `setAuthState`: only the flag's key is written. */
    method SetAuthState(isAuthenticated: bool)
      modifies this
      ensures storage == old(storage)[AuthKey := BoolString(isAuthenticated)]
      ensures forall k :: k != AuthKey ==> (k in storage <==> k in old(storage))
      ensures forall k :: k != AuthKey && k in storage ==> storage[k] == old(storage)[k]
      ensures GetsBack(isAuthenticated)
    {
      storage := storage[AuthKey := BoolString(isAuthenticated)];
      SetThenGet(old(storage), isAuthenticated);
    }

    /** The flag as `getAuthState` would read it now. */
    predicate GetsBack(b: bool)
      reads this
    {
      AuthStateOf(storage) == b
    }

    /** `getAuthState`: reads the flag and changes nothing. */
    method GetAuthState() returns (isAuthenticated: bool)
      ensures isAuthenticated == AuthStateOf(storage)
    {
      isAuthenticated := AuthKey in storage && storage[AuthKey] == "true";
    }

    /** `clearAuthState`: only the flag's key is removed, and the flag then
        reads as false. */
    method ClearAuthState()
      modifies this
      ensures storage == old(storage) - {AuthKey}
      ensures forall k :: k != AuthKey ==> (k in storage <==> k in old(storage))
      ensures forall k :: k != AuthKey && k in storage ==> storage[k] == old(storage)[k]
      ensures GetsBack(false)
    {
      storage := storage - {AuthKey};
    }
  }
}
