/**
 * The credential handlers of backend/src/controllers/auth.controllers.js over
 * an in-memory user table in which the email is a unique key: register, login,
 * profile read and update, and password change. bcrypt and the token signer
 * are parameters.
 */
module Users {
  import opened Common

  /** bcrypt's `hash` and `compare`. */
  datatype Crypto = Crypto(hash: string -> string, verify: (string, string) -> bool)

  /** The one property of bcrypt the handlers rely on: a password verifies against its own hash. */
  ghost predicate Sound(crypto: Crypto) {
    forall p :: crypto.verify(p, crypto.hash(p))
  }

  /** A row of the user table; `password` holds the hash. */
  datatype User = User(id: Id, name: string, username: Option<string>, email: string, password: string, role: string)

  /** The columns profile reads and updates select: no name and no password hash. */
  datatype Profile = Profile(id: Id, username: Option<string>, email: string, role: string)

  /** What a login returns: the signed token and the user record. */
  datatype Session = Session(token: string, user: User)

  function ProfileOf(u: User): (r: Profile)
    ensures r.id == u.id && r.username == u.username && r.email == u.email && r.role == u.role
  {
    Profile(u.id, u.username, u.email, u.role)
  }

  /** Some user holds `email`. */
  predicate EmailTaken(table: map<Id, User>, email: string) {
    exists id :: id in table && table[id].email == email
  }

  /**
   * The record `register` creates: the role given, or "buyer" when it is falsy
   * (any role, "admin" included, is accepted as given), and the hash of the
   * password in place of the password.
   */
  function NewUser(id: Id, name: string, email: string, password: string, role: Option<string>, crypto: Crypto): (u: User)
    ensures u.id == id && u.name == name && u.email == email && u.username.None?
    ensures u.role == if Truthy(role) then role.value else "buyer"
    ensures u.password == crypto.hash(password)
    ensures Sound(crypto) ==> crypto.verify(password, u.password)
  {
    User(id, name, None, email, crypto.hash(password), if Truthy(role) then role.value else "buyer")
  }

  /** A user created without a role is a buyer; one created with "admin" is an admin. */
  lemma RoleDefaults(id: Id, name: string, email: string, password: string, crypto: Crypto)
    ensures NewUser(id, name, email, password, None, crypto).role == "buyer"
    ensures NewUser(id, name, email, password, Some([]), crypto).role == "buyer"
    ensures NewUser(id, name, email, password, Some("admin"), crypto).role == "admin"
  {
    assert Truthy(Some("admin"));
  }

  class UserStore {
    var table: map<Id, User>
    var nextId: Id

    ghost predicate Valid()
      reads this
    {
      && (forall id :: id in table ==> table[id].id == id && id < nextId)
      && (forall a, b :: a in table && b in table && table[a].email == table[b].email ==> a == b)
    }

    constructor ()
      ensures Valid() && table == map[] && nextId == 0
    {
      table := map[];
      nextId := 0;
    }

    /** `findUnique({ where: { email } })`. */
    method FindByEmail(email: string) returns (found: Option<Id>)
      requires Valid()
      ensures found.Some? <==> EmailTaken(table, email)
      ensures found.Some? ==> found.value in table && table[found.value].email == email
    {
      var todo := table.Keys;
      while todo != {}
        invariant todo <= table.Keys
        invariant forall id :: id in table && id !in todo ==> table[id].email != email
        decreases |todo|
      {
        var id :| id in todo;
        if table[id].email == email {
          return Some(id);
        }
        todo := todo - {id};
      }
      return None;
    }

    /**
     * `register`: 400 when a required field is falsy or the email is taken, the
     * table unchanged in both cases; otherwise exactly one user is added and the
     * whole record, hash included, is returned with 201.
     */
    method Register(name: Option<string>, email: Option<string>, password: Option<string>, role: Option<string>, crypto: Crypto)
      returns (reply: Reply<User>)
      requires Valid()
      modifies this
      ensures Valid()
      ensures !Truthy(name) || !Truthy(email) || !Truthy(password) ==>
        reply == Fail(400, "Name, email, and password are required") && table == old(table) && nextId == old(nextId)
      ensures Truthy(name) && Truthy(email) && Truthy(password) && EmailTaken(old(table), email.value) ==>
        reply == Fail(400, "User already exists") && table == old(table) && nextId == old(nextId)
      ensures Truthy(name) && Truthy(email) && Truthy(password) && !EmailTaken(old(table), email.value) ==>
        reply == Ok(201, NewUser(old(nextId), name.value, email.value, password.value, role, crypto)) &&
        table == old(table)[old(nextId) := reply.value] && old(nextId) !in old(table)
    {
      if !Truthy(name) || !Truthy(email) || !Truthy(password) {
        return Fail(400, "Name, email, and password are required");
      }
      var existing := FindByEmail(email.value);
      if existing.Some? {
        return Fail(400, "User already exists");
      }
      var user := NewUser(nextId, name.value, email.value, password.value, role, crypto);
      table := table[nextId := user];
      nextId := nextId + 1;
      reply := Ok(201, user);
    }

    /**
     * `login`: an unknown email and a wrong password are told apart by their
     * messages; success returns a token for the user's id and changes nothing.
     * A missing email or password makes the lookup or `compare` throw: 500.
     */
    method Login(email: Option<string>, password: Option<string>, crypto: Crypto, sign: Id -> string)
      returns (reply: Reply<Session>)
      requires Valid()
      ensures email.None? ==> reply == Fail(500, "Internal server error")
      ensures email.Some? && !EmailTaken(table, email.value) ==> reply == Fail(400, "Invalid email")
      ensures email.Some? && EmailTaken(table, email.value) && password.None? ==> reply == Fail(500, "Internal server error")
      ensures email.Some? && password.Some? ==> forall id :: id in table && table[id].email == email.value ==>
        reply == if crypto.verify(password.value, table[id].password)
                 then Ok(200, Session(sign(id), table[id]))
                 else Fail(400, "Wrong password")
    {
      if email.None? {
        return Fail(500, "Internal server error");
      }
      var found := FindByEmail(email.value);
      if found.None? {
        return Fail(400, "Invalid email");
      }
      var user := table[found.value];
      if password.None? {
        return Fail(500, "Internal server error");
      }
      if !crypto.verify(password.value, user.password) {
        return Fail(400, "Wrong password");
      }
      reply := Ok(200, Session(sign(user.id), user));
    }

    /** `getProfile`: the caller's profile columns, or 404. */
    method GetProfile(caller: Id) returns (reply: Reply<Profile>)
      requires Valid()
      ensures caller !in table ==> reply == Fail(404, "User not found")
      ensures caller in table ==> reply == Ok(200, ProfileOf(table[caller]))
    {
      if caller !in table {
        return Fail(404, "User not found");
      }
      reply := Ok(200, ProfileOf(table[caller]));
    }

    /**
     * `updateProfile`: rejected with 400 only when the email belongs to another
     * user, so one's own email may be sent again. Only the username (when given)
     * and the email change. A missing email makes the lookup throw and a missing
     * user makes the update throw: 500, nothing written.
     */
    method UpdateProfile(caller: Id, username: Option<string>, email: Option<string>)
      returns (reply: Reply<Profile>)
      requires Valid()
      modifies this
      ensures Valid() && nextId == old(nextId)
      ensures email.None? ==> reply == Fail(500, "Internal server error") && table == old(table)
      ensures email.Some? && (exists id :: id in old(table) && id != caller && old(table)[id].email == email.value) ==>
        reply == Fail(400, "Email already used") && table == old(table)
      ensures email.Some? && (forall id :: id in old(table) && id != caller ==> old(table)[id].email != email.value) ==>
        if caller !in old(table) then
          reply == Fail(500, "Internal server error") && table == old(table)
        else
          var u := old(table)[caller];
          var updated := u.(username := if username.Some? then username else u.username, email := email.value);
          table == old(table)[caller := updated] && reply == Ok(200, ProfileOf(updated))
    {
      if email.None? {
        return Fail(500, "Internal server error");
      }
      var existing := FindByEmail(email.value);
      if existing.Some? && existing.value != caller {
        return Fail(400, "Email already used");
      }
      if caller !in table {
        return Fail(500, "Internal server error");
      }
      var u := table[caller];
      var updated := u.(username := if username.Some? then username else u.username, email := email.value);
      table := table[caller := updated];
      reply := Ok(200, ProfileOf(updated));
    }

    /**
     * `changePassword`: 404 for a missing user, 400 when the current password
     * does not verify, the table unchanged in both; otherwise only that user's
     * hash changes, and the new password then verifies.
     */
    method ChangePassword(caller: Id, currentPassword: Option<string>, newPassword: Option<string>, crypto: Crypto)
      returns (reply: Reply<string>)
      requires Valid()
      modifies this
      ensures Valid() && nextId == old(nextId)
      ensures caller !in old(table) ==> reply == Fail(404, "User not found") && table == old(table)
      ensures caller in old(table) && currentPassword.None? ==> reply == Fail(500, "Internal server error") && table == old(table)
      ensures caller in old(table) && currentPassword.Some? && !crypto.verify(currentPassword.value, old(table)[caller].password) ==>
        reply == Fail(400, "Wrong current password") && table == old(table)
      ensures caller in old(table) && currentPassword.Some? && crypto.verify(currentPassword.value, old(table)[caller].password) ==>
        if newPassword.None? then
          reply == Fail(500, "Internal server error") && table == old(table)
        else
          reply == Ok(200, "Password updated") &&
          table == old(table)[caller := old(table)[caller].(password := crypto.hash(newPassword.value))] &&
          (Sound(crypto) ==> crypto.verify(newPassword.value, table[caller].password))
    {
      if caller !in table {
        return Fail(404, "User not found");
      }
      var user := table[caller];
      if currentPassword.None? {
        return Fail(500, "Internal server error");
      }
      if !crypto.verify(currentPassword.value, user.password) {
        return Fail(400, "Wrong current password");
      }
      if newPassword.None? {
        return Fail(500, "Internal server error");
      }
      table := table[caller := user.(password := crypto.hash(newPassword.value))];
      reply := Ok(200, "Password updated");
    }
  }
}
