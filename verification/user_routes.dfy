/** The account endpoints (server/app/routes/user_routes.py) on an in-memory user
    table keyed by the member-chosen `user_id`. The table keeps the primary-key and
    the phone-number UNIQUE constraints: a request whose commit would break either,
    or leave a NOT NULL column empty, answers 500 and stores nothing. */
module UserRoutes {
  import opened Common
  import opened Models

  /** The JSON body of POST /users/ and PUT /users/<id>; `None` is a missing key. */
  datatype UserBody = UserBody(
    user_id: Option<string>,
    user_password: Option<string>,
    user_name: Option<string>,
    admission_year: Option<int>,
    grade: Option<int>,
    class_num: Option<int>,
    student_num: Option<int>,
    phone_number: Option<string>,
    is_admin: Option<bool>,
    is_confirmed: Option<bool>)

  /** The JSON body of PUT /users/<id>/approve. */
  datatype ApproveBody = ApproveBody(is_admin: Option<bool>)

  /** A user as GET /users/ and GET /users/<id> show it: every column but the password. */
  datatype UserView = UserView(
    user_id: string,
    user_name: string,
    phone_number: string,
    admission_year: int,
    grade: int,
    class_num: int,
    student_num: int,
    is_admin: bool,
    is_confirmed: bool)

  /** An entry of the pending-approval list. */
  datatype PendingView = PendingView(
    user_id: string,
    user_name: string,
    is_admin: bool,
    is_confirmed: bool)

  function ViewOf(u: User): (v: UserView)
    ensures v.user_id == u.user_id && v.phone_number == u.phone_number
    ensures v.is_admin == u.is_admin && v.is_confirmed == u.is_confirmed
  {
    UserView(u.user_id, u.user_name, u.phone_number, u.admission_year, u.grade,
             u.class_num, u.student_num, u.is_admin, u.is_confirmed)
  }

  function PendingOf(u: User): (v: PendingView)
    ensures v.user_id == u.user_id && v.is_confirmed == u.is_confirmed
  {
    PendingView(u.user_id, u.user_name, u.is_admin, u.is_confirmed)
  }

  /** The body carries every NOT NULL column of a new user. */
  predicate Complete(body: UserBody) {
    && body.user_id.Some? && body.user_password.Some? && body.user_name.Some?
    && body.admission_year.Some? && body.grade.Some? && body.class_num.Some?
    && body.student_num.Some? && body.phone_number.Some?
  }

  /** The user `create_user` builds: confirmation is always off, the admin flag is the
      body's and defaults to off. */
  function NewUser(body: UserBody): (u: User)
    requires Complete(body)
    ensures u.user_id == body.user_id.value && u.phone_number == body.phone_number.value
    ensures !u.is_confirmed
    ensures u.is_admin <==> body.is_admin == Some(true)
  {
    User(body.user_id.value, body.user_password.value, body.user_name.value,
         body.admission_year.value, body.grade.value, body.class_num.value,
         body.student_num.value, body.phone_number.value,
         body.is_admin.GetOr(DefaultIsAdmin), DefaultIsConfirmed)
  }

  /** `update_user`'s field-wise replacement: a field changes only when its key is
      present; `user_id` is not among the fields. */
  function Patched(u: User, body: UserBody): (r: User)
    ensures r.user_id == u.user_id
    ensures body.user_password.None? ==> r.user_password == u.user_password
    ensures body.user_name.None? ==> r.user_name == u.user_name
    ensures body.admission_year.None? ==> r.admission_year == u.admission_year
    ensures body.grade.None? ==> r.grade == u.grade
    ensures body.class_num.None? ==> r.class_num == u.class_num
    ensures body.student_num.None? ==> r.student_num == u.student_num
    ensures body.phone_number.None? ==> r.phone_number == u.phone_number
    ensures body.is_admin.None? ==> r.is_admin == u.is_admin
    ensures body.is_confirmed.None? ==> r.is_confirmed == u.is_confirmed
    ensures body.user_password.Some? ==> r.user_password == body.user_password.value
    ensures body.user_name.Some? ==> r.user_name == body.user_name.value
    ensures body.admission_year.Some? ==> r.admission_year == body.admission_year.value
    ensures body.grade.Some? ==> r.grade == body.grade.value
    ensures body.class_num.Some? ==> r.class_num == body.class_num.value
    ensures body.student_num.Some? ==> r.student_num == body.student_num.value
    ensures body.phone_number.Some? ==> r.phone_number == body.phone_number.value
    ensures body.is_admin.Some? ==> r.is_admin == body.is_admin.value
    ensures body.is_confirmed.Some? ==> r.is_confirmed == body.is_confirmed.value
  {
    u.(user_password := body.user_password.GetOr(u.user_password),
       user_name := body.user_name.GetOr(u.user_name),
       admission_year := body.admission_year.GetOr(u.admission_year),
       grade := body.grade.GetOr(u.grade),
       class_num := body.class_num.GetOr(u.class_num),
       student_num := body.student_num.GetOr(u.student_num),
       phone_number := body.phone_number.GetOr(u.phone_number),
       is_admin := body.is_admin.GetOr(u.is_admin),
       is_confirmed := body.is_confirmed.GetOr(u.is_confirmed))
  }

  /** A body with no keys changes nothing. */
  lemma EmptyPatchKeepsUser(u: User)
    ensures Patched(u, UserBody(None, None, None, None, None, None, None, None, None, None)) == u
  {
  }

  /** Sending the same update twice is the same as sending it once. */
  lemma PatchIdempotent(u: User, body: UserBody)
    ensures Patched(Patched(u, body), body) == Patched(u, body)
  {
  }

  /** Another user than `id` already has `phone`. */
  predicate PhoneTaken(users: map<string, User>, id: string, phone: string) {
    exists k :: k in users && k != id && users[k].phone_number == phone
  }

  /** Adding or replacing the user under `id` keeps the phone numbers unique exactly
      when no other user has its phone number. */
  lemma PutKeepsPhonesUnique(users: map<string, User>, id: string, u: User)
    requires PhonesUnique(users) && !PhoneTaken(users, id, u.phone_number)
    ensures PhonesUnique(users[id := u])
  {
  }

  class UserTable {
    var users: map<string, User>

    ghost predicate Valid()
      reads this
    {
      UsersKeyed(users) && PhonesUnique(users)
    }

    constructor ()
      ensures Valid() && users == map[]
    {
      users := map[];
    }

    /** GET /users/<id>: 404 for an unknown id; the password is never shown. */
    method GetUser(id: string) returns (status: int, view: Option<UserView>)
      requires Valid()
      ensures id !in users ==> status == NOT_FOUND && view == None
      ensures id in users ==> status == OK && view == Some(ViewOf(users[id]))
      ensures view.Some? ==> view.value.user_id == id
    {
      if id !in users {
        return NOT_FOUND, None;
      }
      status, view := OK, Some(ViewOf(users[id]));
    }

    /** GET /users/: every user once, in no fixed order. */
    method GetUsers() returns (views: seq<UserView>)
      requires Valid()
      ensures forall k :: k in users ==> ViewOf(users[k]) in views
      ensures forall v :: v in views ==> v.user_id in users && v == ViewOf(users[v.user_id])
      ensures forall i, j :: 0 <= i < j < |views| ==> views[i].user_id != views[j].user_id
    {
      views := [];
      var left := users.Keys;
      while left != {}
        invariant left <= users.Keys
        invariant forall k :: k in users && k !in left ==> ViewOf(users[k]) in views
        invariant forall v :: v in views ==> v.user_id in users && v.user_id !in left && v == ViewOf(users[v.user_id])
        invariant forall i, j :: 0 <= i < j < |views| ==> views[i].user_id != views[j].user_id
        decreases |left|
      {
        var k :| k in left;
        views := views + [ViewOf(users[k])];
        left := left - {k};
      }
    }

    /** GET /users/pending: exactly the users still awaiting approval, each once. */
    method GetPendingUsers() returns (pending: seq<PendingView>)
      requires Valid()
      ensures forall k :: k in users && !users[k].is_confirmed ==> PendingOf(users[k]) in pending
      ensures forall v :: v in pending ==>
        v.user_id in users && !users[v.user_id].is_confirmed && v == PendingOf(users[v.user_id])
      ensures forall i, j :: 0 <= i < j < |pending| ==> pending[i].user_id != pending[j].user_id
    {
      pending := [];
      var left := users.Keys;
      while left != {}
        invariant left <= users.Keys
        invariant forall k :: k in users && k !in left && !users[k].is_confirmed ==> PendingOf(users[k]) in pending
        invariant forall v :: v in pending ==>
          v.user_id in users && v.user_id !in left && !users[v.user_id].is_confirmed && v == PendingOf(users[v.user_id])
        invariant forall i, j :: 0 <= i < j < |pending| ==> pending[i].user_id != pending[j].user_id
        decreases |left|
      {
        var k :| k in left;
        if !users[k].is_confirmed {
          pending := pending + [PendingOf(users[k])];
        }
        left := left - {k};
      }
    }

    /** POST /users/: 400 without a (non-empty) `user_id`; 500 and nothing stored when
        a NOT NULL column is missing, the id is taken or the phone number is taken;
        otherwise 201 and the new user, unconfirmed, is stored under its id. */
    method CreateUser(body: UserBody) returns (status: int, createdId: Option<string>)
      requires Valid()
      modifies this
      ensures Valid()
      ensures (body.user_id.None? || body.user_id == Some("")) ==>
        status == BAD_REQUEST && createdId == None && users == old(users)
      ensures body.user_id.Some? && body.user_id != Some("") &&
              (!Complete(body) || body.user_id.value in old(users) ||
               PhoneTaken(old(users), body.user_id.value, body.phone_number.value)) ==>
        status == SERVER_ERROR && createdId == None && users == old(users)
      ensures status == CREATED <==>
        && body.user_id.Some? && body.user_id != Some("") && Complete(body)
        && body.user_id.value !in old(users)
        && !PhoneTaken(old(users), body.user_id.value, body.phone_number.value)
      ensures status == CREATED ==>
        createdId == body.user_id && users == old(users)[body.user_id.value := NewUser(body)]
    {
      if body.user_id.None? || body.user_id == Some("") {
        return BAD_REQUEST, None;
      }
      if !Complete(body) || body.user_id.value in users ||
         PhoneTaken(users, body.user_id.value, body.phone_number.value) {
        return SERVER_ERROR, None;
      }
      var u := NewUser(body);
      PutKeepsPhonesUnique(users, u.user_id, u);
      users := users[u.user_id := u];
      status, createdId := CREATED, Some(u.user_id);
    }

    /** PUT /users/<id>: 404 for an unknown id; a new phone number that another user
        already has makes the commit fail (500, nothing changes); otherwise the user
        is replaced by its field-wise update and no other user changes. */
    method UpdateUser(id: string, body: UserBody) returns (status: int)
      requires Valid()
      modifies this
      ensures Valid()
      ensures id !in old(users) ==> status == NOT_FOUND && users == old(users)
      ensures id in old(users) && PhoneTaken(old(users), id, Patched(old(users)[id], body).phone_number) ==>
        status == SERVER_ERROR && users == old(users)
      ensures id in old(users) && !PhoneTaken(old(users), id, Patched(old(users)[id], body).phone_number) ==>
        status == OK && users == old(users)[id := Patched(old(users)[id], body)]
      ensures users.Keys == old(users).Keys
    {
      if id !in users {
        return NOT_FOUND;
      }
      var u := Patched(users[id], body);
      if PhoneTaken(users, id, u.phone_number) {
        return SERVER_ERROR;
      }
      PutKeepsPhonesUnique(users, id, u);
      users := users[id := u];
      status := OK;
    }

    /** PUT /users/<id>/approve: 404 for an unknown id; otherwise the user becomes
        confirmed and its admin flag is overwritten by the body's (off when absent). */
    method ApproveUser(id: string, body: ApproveBody) returns (status: int, isAdmin: Option<bool>)
      requires Valid()
      modifies this
      ensures Valid()
      ensures id !in old(users) ==> status == NOT_FOUND && isAdmin == None && users == old(users)
      ensures id in old(users) ==>
        && status == OK
        && isAdmin == Some(body.is_admin == Some(true))
        && users == old(users)[id := old(users)[id].(is_confirmed := true, is_admin := body.is_admin.GetOr(false))]
    {
      if id !in users {
        return NOT_FOUND, None;
      }
      var u := users[id].(is_confirmed := true, is_admin := body.is_admin.GetOr(false));
      PutKeepsPhonesUnique(users, id, u);
      users := users[id := u];
      status, isAdmin := OK, Some(u.is_admin);
    }

    /** DELETE /users/<id>: 404 for an unknown id; otherwise exactly that user goes. */
    method DeleteUser(id: string) returns (status: int)
      requires Valid()
      modifies this
      ensures Valid()
      ensures id !in old(users) ==> status == NOT_FOUND && users == old(users)
      ensures id in old(users) ==> status == OK && users == old(users) - {id}
    {
      if id !in users {
        return NOT_FOUND;
      }
      users := users - {id};
      status := OK;
    }
  }
}
