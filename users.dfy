/**
 * Accounts (controllers/user.controller.js). A user profile and its login are created together
 * and point at each other; deleting a user deletes its login. Password hashing and comparison
 * (bcrypt) and token signing (jwt.sign) are parameters or left abstract.
 */
module Users {
  import opened Common
  import opened Store
  import opened Collections
  import Auth

  /** Every user points at a login that points back at it. */
  predicate Linked(users: map<Id, User>, logins: map<Id, Login>) {
    forall id :: id in users ==> users[id].loginRef in logins && logins[users[id].loginRef].userRef == Some(id)
  }

  /** The login schema's enum for `userType` (models/login.model.js:6). */
  predicate ValidRole(userType: string) {
    userType == AdminRole || userType == CustomerRole
  }

  /** The role of a new account: `customer` when the request names none (user.controller.js:9). */
  function RoleOf(userType: Option<string>): (role: string)
    ensures userType.None? ==> role == CustomerRole
    ensures userType.Some? ==> role == userType.value
  {
    if userType.None? then CustomerRole else userType.value
  }

  /** The response of createUser (user.controller.js:55-61). */
  datatype CreatedUser = CreatedUser(id: Id, name: string, email: string, phone: string, userType: string)

  /** Adding a fresh user and a fresh login that point at each other keeps every link intact. */
  lemma CreateKeepsLinked(users: map<Id, User>, logins: map<Id, Login>, user: User, userId: Id, login: Login, loginId: Id)
    requires Linked(users, logins)
    requires userId !in users && loginId !in logins
    requires user.loginRef == loginId && login.userRef == Some(userId)
    ensures Linked(users[userId := user], logins[loginId := login])
  {
  }

  /** Deleting a user together with the login it points at keeps every other link intact. */
  lemma DeleteKeepsLinked(users: map<Id, User>, logins: map<Id, Login>, id: Id)
    requires Linked(users, logins) && id in users
    ensures Linked(users - {id}, logins - {users[id].loginRef})
  {
  }

  /**
   * createUser (user.controller.js:7-66): saves the login, saves the user pointing at it, then
   * points the login back at the user. Saving the login fails, and nothing is stored, when the
   * email is empty or the role is outside the enum. Saving the user fails when the name is empty;
   * the login saved before it stays, without a user. `hash` stands for bcrypt; `loginId` and
   * `userId` are the ids the store assigns.
   */
  method CreateUser(db: Database, name: string, email: string, phone: string, password: string,
                    userType: Option<string>, hash: string -> string, loginId: Id, userId: Id)
    returns (r: Result<CreatedUser>)
    requires loginId !in db.logins && userId !in db.users
    modifies db`logins, db`users
    ensures email == "" || !ValidRole(RoleOf(userType)) ==>
      r == Err(ValidationFailed) && db.logins == old(db.logins) && db.users == old(db.users)
    ensures email != "" && ValidRole(RoleOf(userType)) ==>
      var login := Login(email, hash(password), RoleOf(userType), None);
      if name == "" then
        r == Err(ValidationFailed)
        && db.logins == old(db.logins)[loginId := login]
        && db.users == old(db.users)
      else
        r == Ok(CreatedUser(userId, name, email, phone, RoleOf(userType)))
        && db.logins == old(db.logins)[loginId := login.(userRef := Some(userId))]
        && db.users == old(db.users)[userId := User(name, email, phone, loginId)]
    ensures Linked(old(db.users), old(db.logins)) ==> Linked(db.users, db.logins)
  {
    var role := RoleOf(userType);
    if email == "" || !ValidRole(role) {
      return Err(ValidationFailed);
    }
    var login := Login(email, hash(password), role, None);
    db.logins := db.logins[loginId := login];
    if name == "" {
      return Err(ValidationFailed);
    }
    var user := User(name, email, phone, loginId);
    db.users := db.users[userId := user];
    db.logins := db.logins[loginId := login.(userRef := Some(userId))];
    if Linked(old(db.users), old(db.logins)) {
      CreateKeepsLinked(old(db.users), old(db.logins), user, userId, login.(userRef := Some(userId)), loginId);
    }
    r := Ok(CreatedUser(userId, name, email, phone, role));
  }

  /** The first id in `ids` whose login has `email`, as `Login.findOne({ email })` finds it. */
  function FirstWithEmail(logins: map<Id, Login>, ids: seq<Id>, email: string): (r: Option<Id>)
    ensures r.None? <==> forall i :: 0 <= i < |ids| ==> ids[i] !in logins || logins[ids[i]].email != email
    ensures r.Some? ==> r.value in ids && r.value in logins && logins[r.value].email == email
  {
    if ids == [] then None
    else if ids[0] in logins && logins[ids[0]].email == email then Some(ids[0])
    else
      var r := FirstWithEmail(logins, ids[1..], email);
      assert forall i :: 1 <= i < |ids| ==> ids[i] == ids[1..][i - 1];
      r
  }

  /** A successful login: the payload signed into the token and the role returned beside it. */
  datatype Session = Session(payload: TokenPayload, userType: string)

  /**
   * login (user.controller.js:69-93): NotFound without a login for the email; InvalidCredentials
   * when the password does not match the stored hash (`matches` stands for bcrypt.compare);
   * otherwise a token over `{ loginId, userType }`.
   */
  function SignIn(logins: map<Id, Login>, email: string, password: string, matches: (string, string) -> bool)
    : (r: Result<Session>)
    ensures r == Err(NotFound) <==> forall id :: id in logins ==> logins[id].email != email
    ensures r.Err? ==> r.error == NotFound || r.error == InvalidCredentials
    ensures (exists id :: id in logins && logins[id].email == email)
      && (forall id :: id in logins && logins[id].email == email ==> matches(password, logins[id].passwordHash))
      ==> r.Ok?
    ensures (exists id :: id in logins && logins[id].email == email)
      && (forall id :: id in logins && logins[id].email == email ==> !matches(password, logins[id].passwordHash))
      ==> r == Err(InvalidCredentials)
    ensures r.Ok? ==> exists id :: (id in logins && logins[id].email == email
      && matches(password, logins[id].passwordHash)
      && r.value == Session(TokenPayload(None, Some(id), Some(logins[id].userType)), logins[id].userType))
  {
    var found := FirstWithEmail(logins, StoreOrder(logins.Keys), email);
    if found.None? then Err(NotFound)
    else
      var login := logins[found.value];
      if !matches(password, login.passwordHash) then Err(InvalidCredentials)
      else Ok(Session(TokenPayload(None, Some(found.value), Some(login.userType)), login.userType))
  }

  /**
   * A token issued by login carries `loginId`, while the authentication middleware reads `id`, so
   * the `req.user` built from it has no id and only the role.
   */
  lemma SessionUserHasNoId(logins: map<Id, Login>, email: string, password: string, matches: (string, string) -> bool)
    requires SignIn(logins, email, password, matches).Ok?
    ensures var s := SignIn(logins, email, password, matches).value;
      Auth.RequestUser(s.payload) == AuthUser(None, Some(s.userType))
  {
  }

  /** A user whose populated login has the customer role (user.controller.js:121). */
  predicate IsCustomer(users: map<Id, User>, logins: map<Id, Login>, id: Id) {
    id in users && users[id].loginRef in logins && logins[users[id].loginRef].userType == CustomerRole
  }

  /** The projection of user.controller.js:122-128. */
  datatype CustomerView = CustomerView(id: Id, name: string, email: string, phone: string, userType: string)

  /** viewCustomers (user.controller.js:116-134): the customers, in store order, projected. */
  function ViewCustomers(users: map<Id, User>, logins: map<Id, Login>): seq<CustomerView> {
    var ids := Filter(StoreOrder(users.Keys), (id: Id) => IsCustomer(users, logins, id));
    seq(|ids|, i requires 0 <= i < |ids| =>
      assert ids[i] in ids;
      var user := users[ids[i]];
      CustomerView(ids[i], user.name, user.email, user.phone, logins[user.loginRef].userType))
  }

  /**
   * The customer list names exactly the users whose login has the customer role, each once and in
   * ascending id order, with that user's name, email and phone and the role `customer`.
   */
  lemma ViewCustomersExact(users: map<Id, User>, logins: map<Id, Login>)
    ensures var r := ViewCustomers(users, logins);
      forall id :: (exists i :: 0 <= i < |r| && r[i].id == id) <==> IsCustomer(users, logins, id)
    ensures var r := ViewCustomers(users, logins);
      forall i, j :: 0 <= i < j < |r| ==> r[i].id < r[j].id
    ensures var r := ViewCustomers(users, logins);
      forall i :: 0 <= i < |r| ==> (r[i].id in users
        && r[i] == CustomerView(r[i].id, users[r[i].id].name, users[r[i].id].email, users[r[i].id].phone, CustomerRole))
  {
    var keep := (id: Id) => IsCustomer(users, logins, id);
    var ids := Filter(StoreOrder(users.Keys), keep);
    FilterIncreasing(StoreOrder(users.Keys), keep);
    var r := ViewCustomers(users, logins);
    assert |r| == |ids| && forall i :: 0 <= i < |r| ==> r[i].id == ids[i];
    forall id | IsCustomer(users, logins, id) ensures exists i :: 0 <= i < |r| && r[i].id == id {
      var i :| 0 <= i < |ids| && ids[i] == id;
      assert r[i].id == id;
    }
    forall i | 0 <= i < |r| ensures IsCustomer(users, logins, r[i].id) {
      assert ids[i] in ids;
    }
  }

  /**
   * deleteUser (user.controller.js:150-162): NotFound for a missing user, and nothing is deleted;
   * otherwise the user's login and then the user are removed.
   */
  method DeleteUser(db: Database, id: Id) returns (r: Result<User>)
    modifies db`logins, db`users
    ensures id !in old(db.users) ==> r == Err(NotFound) && db.users == old(db.users) && db.logins == old(db.logins)
    ensures id in old(db.users) ==>
      r == Ok(old(db.users)[id])
      && db.users == old(db.users) - {id}
      && db.logins == old(db.logins) - {old(db.users)[id].loginRef}
    ensures Linked(old(db.users), old(db.logins)) ==> Linked(db.users, db.logins)
  {
    if id !in db.users {
      return Err(NotFound);
    }
    var user := db.users[id];
    db.logins := db.logins - {user.loginRef};
    db.users := db.users - {id};
    if Linked(old(db.users), old(db.logins)) {
      DeleteKeepsLinked(old(db.users), old(db.logins), id);
    }
    r := Ok(user);
  }
}
