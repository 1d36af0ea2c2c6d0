/** Customer accounts: registration, sign-in and the profile lookup
    (backend/src/controllers/authController.js). Password hashing and token
    signing are foreign libraries; the table is given them as functions it
    cannot look into. */
module Users {
  import opened Wrappers
  import Seqs

  datatype User = User(id: nat, username: string, email: string, passwordHash: string)

  const MinPasswordLength: nat := 6

  datatype AuthError = MissingFields | PasswordTooShort | UserExists | InvalidCredentials

  /** What a successful `register` or `login` answers: a token for the
      user's id and the public fields of the user. */
  datatype Session = Session(token: string, id: nat, username: string, email: string)

  datatype AuthReply = Issued(session: Session) | Refused(error: AuthError)

  /** The public part of a row, as `getProfile` answers it. */
  datatype Profile = Profile(id: nat, username: string, email: string)

  /** The checks `register` makes before reading the table; a missing
      field arrives as the empty string. */
  function RegistrationError(username: string, email: string, password: string): (r: Option<AuthError>)
    ensures r == Some(MissingFields) <==> username == "" || email == "" || password == ""
    ensures r == Some(PasswordTooShort) <==>
      username != "" && email != "" && password != "" && |password| < MinPasswordLength
    ensures r.None? <==>
      username != "" && email != "" && |password| >= MinPasswordLength
  {
    if username == "" || email == "" || password == "" then Some(MissingFields)
    else if |password| < MinPasswordLength then Some(PasswordTooShort)
    else None
  }

  /** `SELECT * FROM users WHERE username = $1 OR email = $2` finds a row. */
  predicate Conflicts(users: seq<User>, username: string, email: string) {
    exists i :: 0 <= i < |users| && (users[i].username == username || users[i].email == email)
  }

  /** The first row with this user name. */
  function FindByUsername(users: seq<User>, username: string): (r: Option<nat>)
    ensures r.Some? ==> r.value < |users| && users[r.value].username == username
    ensures r.Some? ==> forall j :: 0 <= j < r.value ==> users[j].username != username
    ensures r.None? <==> forall j :: 0 <= j < |users| ==> users[j].username != username
  {
    Seqs.IndexWhere(users, (u: User) => u.username == username)
  }

  /** The first row with this id. */
  function FindById(users: seq<User>, id: int): (r: Option<nat>)
    ensures r.Some? ==> r.value < |users| && users[r.value].id == id
    ensures r.Some? ==> forall j :: 0 <= j < r.value ==> users[j].id != id
    ensures r.None? <==> forall j :: 0 <= j < |users| ==> users[j].id != id
  {
    Seqs.IndexWhere(users, (u: User) => u.id == id)
  }

  /** No two accounts share a user name or an e-mail address. */
  predicate Distinct(users: seq<User>) {
    forall i, j :: 0 <= i < j < |users| ==>
      users[i].username != users[j].username && users[i].email != users[j].email
  }

  predicate IdsAscending(users: seq<User>) {
    forall i, j :: 0 <= i < j < |users| ==> users[i].id < users[j].id
  }

  class UserTable {
    /** `bcrypt.hash(password, 10)`, the salt made explicit. */
    const hash: (string, string) -> string
    /** `bcrypt.compare(password, hash)`. */
    const verify: (string, string) -> bool
    /** `jwt.sign({ userId }, JWT_SECRET)`. */
    const sign: nat -> string
    var users: seq<User>
    var nextId: nat

    ghost predicate Valid()
      reads this
    {
      && IdsAscending(users)
      && (forall i :: 0 <= i < |users| ==> users[i].id < nextId)
      && Distinct(users)
    }

    /** A hash always verifies against the password it was made from. */
    constructor (hash: (string, string) -> string, verify: (string, string) -> bool, sign: nat -> string)
      requires forall p, s :: verify(p, hash(p, s))
      ensures Valid() && users == []
      ensures this.hash == hash && this.verify == verify && this.sign == sign
      ensures forall p, s :: this.verify(p, this.hash(p, s))
    {
      this.hash, this.verify, this.sign := hash, verify, sign;
      users, nextId := [], 1;
    }

    /** `register`: the field checks, then the uniqueness rule, then one
        insert storing the hash of the password and a token for the new id. */
    method Register(username: string, email: string, password: string, salt: string) returns (r: AuthReply)
      requires Valid()
      modifies this
      ensures Valid()
      ensures RegistrationError(username, email, password).Some? ==>
        r == Refused(RegistrationError(username, email, password).value)
        && users == old(users) && nextId == old(nextId)
      ensures RegistrationError(username, email, password).None? && Conflicts(old(users), username, email) ==>
        r == Refused(UserExists) && users == old(users) && nextId == old(nextId)
      ensures RegistrationError(username, email, password).None? && !Conflicts(old(users), username, email) ==>
        && users == old(users) + [User(old(nextId), username, email, hash(password, salt))]
        && nextId == old(nextId) + 1
        && r == Issued(Session(sign(old(nextId)), old(nextId), username, email))
    {
      var err := RegistrationError(username, email, password);
      if err.Some? {
        return Refused(err.value);
      }
      if exists i :: 0 <= i < |users| && (users[i].username == username || users[i].email == email) {
        return Refused(UserExists);
      }
      var id := nextId;
      users, nextId := users + [User(id, username, email, hash(password, salt))], nextId + 1;
      r := Issued(Session(sign(id), id, username, email));
    }

    /** `login`: an unknown user name and a wrong password get the same
        refusal. */
    method Login(username: string, password: string) returns (r: AuthReply)
      ensures username == "" || password == "" ==> r == Refused(MissingFields)
      ensures username != "" && password != "" ==>
        match FindByUsername(users, username)
        case None => r == Refused(InvalidCredentials)
        case Some(k) =>
          if verify(password, users[k].passwordHash) then
            r == Issued(Session(sign(users[k].id), users[k].id, users[k].username, users[k].email))
          else
            r == Refused(InvalidCredentials)
    {
      if username == "" || password == "" {
        return Refused(MissingFields);
      }
      var k := FindByUsername(users, username);
      if k.None? {
        return Refused(InvalidCredentials);
      }
      var u := users[k.value];
      if !verify(password, u.passwordHash) {
        return Refused(InvalidCredentials);
      }
      r := Issued(Session(sign(u.id), u.id, u.username, u.email));
    }

    /** `getProfile`: `None` is the 404 answer for an id with no row. */
    function GetProfile(userId: int): (r: Option<Profile>)
      reads this
      ensures r.None? <==> forall j :: 0 <= j < |users| ==> users[j].id != userId
      ensures r.Some? ==> (exists j :: 0 <= j < |users| && users[j].id == userId
                             && r.value == Profile(users[j].id, users[j].username, users[j].email))
    {
      match FindById(users, userId)
      case None => None
      case Some(k) => Some(Profile(users[k].id, users[k].username, users[k].email))
    }
  }

  /** The row a registration appends is the one a later sign-in with the
      same user name finds. */
  lemma {:induction false} FindAfterInsert(users: seq<User>, u: User)
    requires forall j :: 0 <= j < |users| ==> users[j].username != u.username
    ensures FindByUsername(users + [u], u.username) == Some(|users|)
  {
    if users != [] {
      assert (users + [u])[1..] == users[1..] + [u];
      FindAfterInsert(users[1..], u);
    }
  }

  /** Registering and then signing in with the same password succeeds, for
      the id the registration issued. */
  lemma LoginAfterRegister(users: seq<User>, nextId: nat, hash: (string, string) -> string,
                           verify: (string, string) -> bool, username: string, email: string,
                           password: string, salt: string)
    requires forall p, s :: verify(p, hash(p, s))
    requires !Conflicts(users, username, email)
    ensures var after := users + [User(nextId, username, email, hash(password, salt))];
      && FindByUsername(after, username) == Some(|users|)
      && verify(password, after[|users|].passwordHash)
      && after[|users|].id == nextId
  {
    FindAfterInsert(users, User(nextId, username, email, hash(password, salt)));
  }
}
