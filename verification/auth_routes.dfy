/** The login endpoints (server/app/routes/auth_routes.py): the credential check of
    POST /login, the server-side session it writes, POST /logout and GET /me. The
    session is a map from key to value that the routes update in place. */
module AuthRoutes {
  import opened Common
  import opened Models

  /** The JSON body of POST /login; `None` is a missing key. */
  datatype LoginBody = LoginBody(user_id: Option<string>, password: Option<string>)

  /** How the credential check of POST /login ends. An unknown id and a wrong
      password end the same way, so the answer does not tell them apart. */
  datatype LoginOutcome =
    | MissingCredentials
    | BadCredentials
    | NotApproved
    | LoggedIn(user: User)

  function StatusOf(o: LoginOutcome): (status: int)
    ensures status == OK <==> o.LoggedIn?
    ensures status == BAD_REQUEST <==> o.MissingCredentials?
    ensures status == UNAUTHORIZED <==> o.BadCredentials?
    ensures status == FORBIDDEN <==> o.NotApproved?
  {
    match o
    case MissingCredentials => BAD_REQUEST
    case BadCredentials => UNAUTHORIZED
    case NotApproved => FORBIDDEN
    case LoggedIn(_) => OK
  }

  /** Python truthiness of an optional string: present and non-empty. */
  predicate Given(s: Option<string>) {
    s.Some? && s.value != ""
  }

  /** The guard chain of POST /login, in its order: both fields given, the id known,
      the password equal (plain text), the account approved. */
  function Authenticate(body: LoginBody, users: map<string, User>): (o: LoginOutcome)
    ensures o.MissingCredentials? <==> !Given(body.user_id) || !Given(body.password)
    ensures o.BadCredentials? <==>
      Given(body.user_id) && Given(body.password) &&
      (body.user_id.value !in users || users[body.user_id.value].user_password != body.password.value)
    ensures o.NotApproved? <==>
      Given(body.user_id) && Given(body.password) && body.user_id.value in users &&
      users[body.user_id.value].user_password == body.password.value &&
      !users[body.user_id.value].is_confirmed
    ensures o.LoggedIn? ==>
      body.user_id.value in users && o.user == users[body.user_id.value] &&
      o.user.user_password == body.password.value && o.user.is_confirmed
  {
    if !Given(body.user_id) || !Given(body.password) then MissingCredentials
    else if body.user_id.value !in users then BadCredentials
    else
      var u := users[body.user_id.value];
      if u.user_password != body.password.value then BadCredentials
      else if !u.is_confirmed then NotApproved
      else LoggedIn(u)
  }

  /** A missing id or password is refused before the user table is consulted: the
      answer is the same whatever users exist. */
  lemma MissingRefusedBeforeLookup(body: LoginBody, users1: map<string, User>, users2: map<string, User>)
    requires !Given(body.user_id) || !Given(body.password)
    ensures Authenticate(body, users1) == Authenticate(body, users2) == MissingCredentials
  {
  }

  /** Whether an account is approved cannot be learnt without its password: for a
      wrong password the answer is the same as for an id that does not exist. */
  lemma ApprovalHiddenWithoutPassword(id: string, password: string, users: map<string, User>)
    requires id != "" && password != ""
    requires id in users && users[id].user_password != password
    ensures Authenticate(LoginBody(Some(id), Some(password)), users)
         == Authenticate(LoginBody(Some(id), Some(password)), users - {id})
         == BadCredentials
  {
  }

  /** A value stored in the session. */
  datatype SessionValue = Text(text: string) | Flag(flag: bool)

  /** The body of a successful login and of GET /me. */
  datatype Identity = Identity(user_id: string, user_name: string, is_admin: bool, is_confirmed: bool)

  function IdentityOf(u: User): (r: Identity)
    ensures r.user_id == u.user_id && r.is_admin == u.is_admin && r.is_confirmed == u.is_confirmed
  {
    Identity(u.user_id, u.user_name, u.is_admin, u.is_confirmed)
  }

  /** The server-side session of one browser. */
  class Session {
    var entries: map<string, SessionValue>

    /** Only the login route writes "user_id", and always as text. */
    ghost predicate Valid()
      reads this
    {
      "user_id" in entries ==> entries["user_id"].Text?
    }

    constructor ()
      ensures Valid() && entries == map[]
    {
      entries := map[];
    }

    /** POST /login: the guard chain decides the status; only a successful login
        writes the session, and it writes the three identity keys, keeping any other
        key. The answer reports the account as confirmed. */
    method Login(body: LoginBody, users: map<string, User>) returns (status: int, identity: Option<Identity>)
      requires Valid()
      modifies this
      ensures Valid()
      ensures status == StatusOf(Authenticate(body, users))
      ensures !Authenticate(body, users).LoggedIn? ==> identity == None && entries == old(entries)
      ensures Authenticate(body, users).LoggedIn? ==>
        var u := users[body.user_id.value];
        && identity == Some(IdentityOf(u))
        && identity.value.is_confirmed
        && entries == old(entries)["user_id" := Text(u.user_id)]["user_name" := Text(u.user_name)]["is_admin" := Flag(u.is_admin)]
    {
      var outcome := Authenticate(body, users);
      status := StatusOf(outcome);
      if !outcome.LoggedIn? {
        return status, None;
      }
      var u := outcome.user;
      entries := entries["user_id" := Text(u.user_id)];
      entries := entries["user_name" := Text(u.user_name)];
      entries := entries["is_admin" := Flag(u.is_admin)];
      identity := Some(IdentityOf(u));
    }

    /** POST /logout: the session is emptied. */
    method Logout() returns (status: int)
      modifies this
      ensures Valid() && entries == map[] && status == OK
    {
      entries := map[];
      status := OK;
    }

    /** GET /me: 401 when no one is logged in, 404 when the logged-in user has since
        been removed, otherwise the user as stored now. */
    method Me(users: map<string, User>) returns (status: int, identity: Option<Identity>)
      requires Valid()
      ensures "user_id" !in entries ==> status == UNAUTHORIZED && identity == None
      ensures "user_id" in entries && entries["user_id"].text !in users ==>
        status == NOT_FOUND && identity == None
      ensures "user_id" in entries && entries["user_id"].text in users ==>
        status == OK && identity == Some(IdentityOf(users[entries["user_id"].text]))
    {
      if "user_id" !in entries {
        return UNAUTHORIZED, None;
      }
      var id := entries["user_id"].text;
      if id !in users {
        return NOT_FOUND, None;
      }
      status, identity := OK, Some(IdentityOf(users[id]));
    }
  }

  /** After a successful login, GET /me answers with the same account, for as long
      as the user table keeps it under its key. */
  lemma LoginThenMe(body: LoginBody, users: map<string, User>)
    requires UsersKeyed(users)
    requires Authenticate(body, users).LoggedIn?
    ensures var u := Authenticate(body, users).user;
      u.user_id == body.user_id.value && u.user_id in users && users[u.user_id] == u
  {
  }

  /** POST /login followed by GET /me on the same session and user table: a
      successful login makes /me answer 200 with the identity login reported. */
  method LoginMe(s: Session, body: LoginBody, users: map<string, User>)
      returns (loginStatus: int, meStatus: int, loginIdentity: Option<Identity>, meIdentity: Option<Identity>)
    requires s.Valid() && UsersKeyed(users)
    requires Authenticate(body, users).LoggedIn?
    modifies s
    ensures loginStatus == OK && meStatus == OK
    ensures loginIdentity.Some? && meIdentity == loginIdentity
    ensures meIdentity == Some(IdentityOf(Authenticate(body, users).user))
  {
    loginStatus, loginIdentity := s.Login(body, users);
    LoginThenMe(body, users);
    meStatus, meIdentity := s.Me(users);
  }
}
