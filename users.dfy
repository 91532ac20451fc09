/** The meaning of the user list: which login bodies it accepts. */
module Users {
  import opened Records

  /** Some stored user has both the login's email and its password. */
  predicate Registered(users: seq<User>, data: LoginData)
  {
    exists j | 0 <= j < |users| :: users[j].email == data.email && users[j].password == data.password
  }

  /** After signing up, the same email and password log in. */
  lemma SignupRegisters(users: seq<User>, user: User)
    ensures Registered(users + [user], LoginData(user.email, user.password))
  {
    var r := users + [user];
    assert r[|users|] == user;
  }

  /** Signing up never takes anyone's login away: users are only appended. */
  lemma SignupKeepsRegistered(users: seq<User>, user: User, data: LoginData)
    requires Registered(users, data)
    ensures Registered(users + [user], data)
  {
    var j :| 0 <= j < |users| && users[j].email == data.email && users[j].password == data.password;
    assert (users + [user])[j] == users[j];
  }
}
