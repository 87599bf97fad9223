/** The sign-up page (client/src/pages/RegisterPage.js): the form, the duplicate-id
    check against GET /users/<id>, the password-mismatch warning and the submission
    to POST /users/. Network answers are parameters. */
module RegisterPage {
  import opened Common
  import opened Models

  /** The form's text fields, as typed. */
  datatype SignUpForm = SignUpForm(
    user_id: string,
    user_password: string,
    user_password_confirm: string,
    user_name: string,
    phone_number: string,
    admission_year: string,
    grade: string,
    class_num: string,
    student_num: string)

  const EmptyForm: SignUpForm := SignUpForm("", "", "", "", "", "", "", "", "")

  /** The `name` of the input a change event comes from. */
  datatype SignUpField =
    | UserId | Password | PasswordConfirm | UserName | Phone
    | AdmissionYear | Grade | ClassNum | StudentNum

  /** `{ ...prev, [name]: value }`: the named field takes the value and every other
      field keeps its own. */
  function WithField(f: SignUpForm, field: SignUpField, value: string): (r: SignUpForm)
    ensures r.user_id == (if field == UserId then value else f.user_id)
    ensures r.user_password == (if field == Password then value else f.user_password)
    ensures r.user_password_confirm == (if field == PasswordConfirm then value else f.user_password_confirm)
    ensures r.user_name == (if field == UserName then value else f.user_name)
    ensures r.phone_number == (if field == Phone then value else f.phone_number)
    ensures r.admission_year == (if field == AdmissionYear then value else f.admission_year)
    ensures r.grade == (if field == Grade then value else f.grade)
    ensures r.class_num == (if field == ClassNum then value else f.class_num)
    ensures r.student_num == (if field == StudentNum then value else f.student_num)
  {
    match field
    case UserId => f.(user_id := value)
    case Password => f.(user_password := value)
    case PasswordConfirm => f.(user_password_confirm := value)
    case UserName => f.(user_name := value)
    case Phone => f.(phone_number := value)
    case AdmissionYear => f.(admission_year := value)
    case Grade => f.(grade := value)
    case ClassNum => f.(class_num := value)
    case StudentNum => f.(student_num := value)
  }

  /** The body POST /users/ receives: the eight account fields, without the
      confirmation and without any admin or approval flag. */
  datatype SignUpPayload = SignUpPayload(
    user_id: string,
    user_password: string,
    user_name: string,
    phone_number: string,
    admission_year: string,
    grade: string,
    class_num: string,
    student_num: string)

  function PayloadOf(f: SignUpForm): (p: SignUpPayload)
    ensures p.user_id == f.user_id && p.user_password == f.user_password
  {
    SignUpPayload(f.user_id, f.user_password, f.user_name, f.phone_number,
                  f.admission_year, f.grade, f.class_num, f.student_num)
  }

  /** What reading a form back from its payload recovers: every field but the
      confirmation, which the payload does not carry. */
  function FormOf(p: SignUpPayload, confirm: string): SignUpForm {
    SignUpForm(p.user_id, p.user_password, confirm, p.user_name, p.phone_number,
               p.admission_year, p.grade, p.class_num, p.student_num)
  }

  /** The payload loses nothing but the confirmation field. */
  lemma PayloadKeepsAccountFields(f: SignUpForm)
    ensures FormOf(PayloadOf(f), f.user_password_confirm) == f
    ensures forall c :: PayloadOf(FormOf(PayloadOf(f), c)) == PayloadOf(f)
  {
  }

  /** How GET /users/<id> ended for the duplicate check: `None` is a failure without
      an HTTP answer. */
  function IdAvailability(status: Option<int>, old_: Option<bool>): (r: Option<bool>)
    ensures status.Some? && 200 <= status.value < 300 ==> r == Some(false)
    ensures status == Some(NOT_FOUND) ==> r == Some(true)
    ensures (status.None? || !(200 <= status.value < 300 || status.value == NOT_FOUND)) ==> r == old_
  {
    if status.Some? && 200 <= status.value < 300 then Some(false)
    else if status == Some(NOT_FOUND) then Some(true)
    else old_
  }

  /** Against the user routes, the check reports an id as available exactly when no
      user has it (GET /users/<id> answers 200 for a stored id and 404 otherwise). */
  lemma AvailableIffUnused(id: string, users: map<string, User>, old_: Option<bool>)
    ensures IdAvailability(Some(if id in users then OK else NOT_FOUND), old_) == Some(id !in users)
  {
  }

  /** The mismatch warning after a change to `field`: shown only for a change to one
      of the two password fields, when both are non-empty and differ. */
  function Mismatch(field: SignUpField, f: SignUpForm): (b: bool)
    ensures b <==> ((field == Password || field == PasswordConfirm) &&
                    f.user_password != "" && f.user_password_confirm != "" &&
                    f.user_password != f.user_password_confirm)
    ensures field != Password && field != PasswordConfirm ==> !b
  {
    (field == Password || field == PasswordConfirm) &&
      f.user_password != "" && f.user_password_confirm != "" &&
      f.user_password != f.user_password_confirm
  }

  /** A change to a field other than the passwords hides the warning, even while the
      passwords still differ. */
  lemma OtherFieldClearsWarning(f: SignUpForm, field: SignUpField, value: string)
    requires field != Password && field != PasswordConfirm
    ensures !Mismatch(field, WithField(f, field, value))
  {
  }

  class SignUp {
    var form: SignUpForm
    /** `null` before a check, `true` for a free id, `false` for a taken one. */
    var idAvailable: Option<bool>
    var checking: bool
    var passwordMismatch: bool
    var redirectedToLogin: bool
    /** The id the pending GET /users/<id> asks about: the value the handler read
        before its `await`. */
    var lookup: Option<string>
    /** The id that the last check found free. */
    ghost var checkedFree: Option<string>

    /** An id is reported free only if it is the one the last check found free, and
        a check in progress has an id it asked about. */
    ghost predicate Valid()
      reads this
    {
      && (idAvailable == Some(true) ==> checkedFree == Some(form.user_id))
      && (checking ==> lookup.Some?)
    }

    constructor ()
      ensures Valid()
      ensures form == EmptyForm && idAvailable == None && !checking && !passwordMismatch && !redirectedToLogin
      ensures lookup == None
    {
      form := EmptyForm;
      idAvailable := None;
      checking := false;
      passwordMismatch := false;
      redirectedToLogin := false;
      lookup := None;
      checkedFree := None;
    }

    /** `handleChange`: the field takes the value; a change to the id forgets the
        last check; the warning is recomputed from the new form. A pending lookup
        goes on. */
    method Change(field: SignUpField, value: string)
      requires Valid()
      modifies this
      ensures Valid()
      ensures form == WithField(old(form), field, value)
      ensures field == UserId ==> idAvailable == None
      ensures field != UserId ==> idAvailable == old(idAvailable)
      ensures passwordMismatch == Mismatch(field, form)
      ensures checking == old(checking) && redirectedToLogin == old(redirectedToLogin)
      ensures lookup == old(lookup) && checkedFree == old(checkedFree)
    {
      if field == UserId {
        idAvailable := None;
      }
      form := WithField(form, field, value);
      passwordMismatch := Mismatch(field, form);
    }

    /** The first half of `checkDuplicateId`, up to its `await`: nothing happens for
        an empty id; otherwise GET /users/<id> goes out for the id in the form and the
        button is disabled until the answer comes. */
    method StartCheck() returns (request: Option<string>)
      requires Valid() && !checking
      modifies this
      ensures Valid()
      ensures old(form.user_id) == "" ==>
        request == None && !checking && lookup == old(lookup)
      ensures old(form.user_id) != "" ==>
        request == Some(form.user_id) && checking && lookup == request
      ensures form == old(form) && idAvailable == old(idAvailable)
      ensures passwordMismatch == old(passwordMismatch) && redirectedToLogin == old(redirectedToLogin)
      ensures checkedFree == old(checkedFree)
    {
      if form.user_id == "" {
        return None;
      }
      checking := true;
      lookup := Some(form.user_id);
      request := lookup;
    }

    /** The second half of `checkDuplicateId` as the page has it: the answer about
        the id that was asked for decides the verdict on whatever id the form holds
        now, and the check ends. */
    method FinishCheckAsWritten(status: Option<int>)
      requires checking && lookup.Some?
      modifies this
      ensures idAvailable == IdAvailability(status, old(idAvailable))
      ensures checkedFree == (if status == Some(NOT_FOUND) then old(lookup) else old(checkedFree))
      ensures !checking && lookup == None
      ensures form == old(form) && passwordMismatch == old(passwordMismatch)
      ensures redirectedToLogin == old(redirectedToLogin)
    {
      idAvailable := IdAvailability(status, idAvailable);
      if status == Some(NOT_FOUND) {
        checkedFree := lookup;
      }
      checking := false;
      lookup := None;
    }

    /** The second half of `checkDuplicateId` as intended: the answer decides the
        verdict only while the form still holds the id that was asked about; an
        answer about an id edited since is dropped, and the check ends either way. */
    method FinishCheck(status: Option<int>)
      requires Valid() && checking
      modifies this
      ensures Valid()
      ensures old(lookup) == Some(form.user_id) ==> idAvailable == IdAvailability(status, old(idAvailable))
      ensures old(lookup) != Some(form.user_id) ==> idAvailable == old(idAvailable)
      ensures !checking && lookup == None
      ensures form == old(form) && passwordMismatch == old(passwordMismatch)
      ensures redirectedToLogin == old(redirectedToLogin)
    {
      if lookup == Some(form.user_id) {
        idAvailable := IdAvailability(status, idAvailable);
        if status == Some(NOT_FOUND) {
          checkedFree := lookup;
        }
      }
      checking := false;
      lookup := None;
    }

    /** `handleSubmit`: nothing is sent unless the id was found free and the two
        passwords are equal; then the payload goes out, and on success the page moves
        to the login page. */
    method Submit(succeeded: bool) returns (request: Option<SignUpPayload>)
      requires Valid()
      modifies this
      ensures Valid()
      ensures request.Some? <==> idAvailable == Some(true) && form.user_password == form.user_password_confirm
      ensures request.Some? ==> request.value == PayloadOf(form) && checkedFree == Some(request.value.user_id)
      ensures redirectedToLogin == (old(redirectedToLogin) || (request.Some? && succeeded))
      ensures form == old(form) && idAvailable == old(idAvailable) && checkedFree == old(checkedFree)
      ensures checking == old(checking) && lookup == old(lookup)
    {
      if idAvailable != Some(true) {
        return None;
      }
      if form.user_password != form.user_password_confirm {
        return None;
      }
      request := Some(PayloadOf(form));
      if succeeded {
        redirectedToLogin := true;
      }
    }
  }

  /** The page as written: check "a", change the id to "b" while the lookup is
      pending, then receive 404 for "a". The page now reports "b" free although no
      check asked about "b", and the submit guard lets the form through. */
  method StaleAnswerAccepted() returns (s: SignUp)
    ensures s.idAvailable == Some(true) && s.form.user_id == "b"
    ensures s.checkedFree == Some("a") && s.form.user_password == s.form.user_password_confirm
    ensures !s.Valid()
  {
    s := new SignUp();
    s.Change(UserId, "a");
    var request := s.StartCheck();
    s.Change(UserId, "b");
    s.FinishCheckAsWritten(Some(NOT_FOUND));
  }

  /** The same events with the intended second half: the stale answer is dropped and
      "b" still needs a check of its own. */
  method StaleAnswerDropped() returns (s: SignUp)
    ensures s.idAvailable == None && s.form.user_id == "b" && !s.checking
    ensures s.Valid()
  {
    s := new SignUp();
    s.Change(UserId, "a");
    var request := s.StartCheck();
    s.Change(UserId, "b");
    s.FinishCheck(Some(NOT_FOUND));
  }
}
