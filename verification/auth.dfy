/** Password checking, authentication and user registration
    (`hash_password`, `check_password`, `authenticate_user`, `add_user`). */
module Auth {
  import opened Store

  /** The salted password hash, kept abstract: `hash(password, salt)` builds a
      stored hash with the salt embedded, and `verify(password, stored)`
      checks a password against a stored hash. */
  datatype Crypto = Crypto(hash: (string, string) -> string, verify: (string, string) -> bool)

  /** The one property the application relies on: a password verifies against
      any hash made from it. */
  ghost predicate Sound(c: Crypto)
  {
    forall password, salt :: c.verify(password, c.hash(password, salt))
  }

  /** What `add_user` reports. The source returns `True` only for `Created`. */
  datatype AddUserOutcome = Created | DuplicateName | UserNotConnected

  /** Looks the user up by name and returns the stored group when the password
      verifies against the stored hash; `None` otherwise. */
  function Authenticate(st: State, connected: bool, crypto: Crypto, name: string, password: string): (r: Option<string>)
    ensures r.Some? <==> connected && name in st.users && crypto.verify(password, st.users[name].passwordHash)
    ensures r.Some? ==> r.value == st.users[name].group
  {
    if connected && name in st.users && crypto.verify(password, st.users[name].passwordHash) then
      Some(st.users[name].group)
    else
      None
  }

  /** Inserts a user with a freshly salted hash; the unique name constraint
      rejects a name that is already taken, and nothing is written then. */
  function AddUser(st: State, connected: bool, crypto: Crypto, salt: string,
                   name: string, password: string, group: string): (r: Applied<AddUserOutcome>)
    ensures r.outcome == Created <==> connected && name !in st.users
    ensures r.outcome == DuplicateName <==> connected && name in st.users
    ensures r.outcome != Created ==> r.state == st
    ensures r.outcome == Created ==>
      && r.state.catalog == st.catalog && r.state.entries == st.entries && r.state.exits == st.exits
      && r.state.nextId == st.nextId
      && r.state.users.Keys == st.users.Keys + {name}
      && r.state.users[name] == UserRecord(crypto.hash(password, salt), group)
      && (forall other :: other in st.users ==> r.state.users[other] == st.users[other])
  {
    if !connected then Applied(st, UserNotConnected)
    else if name in st.users then Applied(st, DuplicateName)
    else Applied(st.(users := st.users[name := UserRecord(crypto.hash(password, salt), group)]), Created)
  }

  /** A user registered with a sound hash can log in with the password given
      at registration and gets back the group given at registration. */
  lemma RegisterThenAuthenticate(st: State, crypto: Crypto, salt: string, name: string, password: string, group: string)
    requires Sound(crypto)
    requires name !in st.users
    ensures Authenticate(AddUser(st, true, crypto, salt, name, password, group).state, true, crypto, name, password)
         == Some(group)
  {
    assert crypto.verify(password, crypto.hash(password, salt));
  }

  /** A password that does not verify against the hash stored at registration
      is refused. */
  lemma RegisterThenWrongPassword(st: State, crypto: Crypto, salt: string, name: string, password: string,
                                  group: string, wrong: string)
    requires name !in st.users
    requires !crypto.verify(wrong, crypto.hash(password, salt))
    ensures Authenticate(AddUser(st, true, crypto, salt, name, password, group).state, true, crypto, name, wrong)
         == None
  {
  }

  /** Registering the same name twice: the first call creates the user, the
      second is refused and stores no second row. */
  lemma RegisterTwice(st: State, crypto: Crypto, salt1: string, salt2: string, name: string,
                      password1: string, password2: string, group1: string, group2: string)
    requires name !in st.users
    ensures var first := AddUser(st, true, crypto, salt1, name, password1, group1);
            var second := AddUser(first.state, true, crypto, salt2, name, password2, group2);
            && first.outcome == Created
            && second.outcome == DuplicateName
            && second.state == first.state
            && |second.state.users| == |st.users| + 1
  {
  }

  /** Registering one user changes nobody else's authentication result. */
  lemma AddUserKeepsOtherLogins(st: State, connected: bool, crypto: Crypto, salt: string, name: string,
                                password: string, group: string, other: string, otherPassword: string)
    requires other != name
    ensures Authenticate(AddUser(st, connected, crypto, salt, name, password, group).state, connected, crypto, other, otherPassword)
         == Authenticate(st, connected, crypto, other, otherPassword)
  {
  }
}
