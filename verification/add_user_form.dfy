/** The add-user form: submit hands a password-free user record to the caller's callback,
    raises one notification for the outcome, and resets the form only on success; Cancel
    resets without submitting. Whether the callback fails is a parameter. */
module AddUserForm {
  import opened Wrappers
  import opened Schema
  import Notifications

  datatype UserForm = UserForm(
    name: string, email: string, mobile: string, password: string, role: Role, active: bool)

  const Initial: UserForm := UserForm("", "", "", "", Requester, true)

  /** The record passed to `onAddUser`. */
  datatype NewUser = NewUser(name: string, email: string, mobile: string, role: Role, active: bool)

  datatype AddOutcome = Added | Failed

  datatype Submitted = Submitted(form: UserForm, payload: NewUser, notice: Notifications.Input)

  const SuccessMessage: string := "User added successfully"
  const FailureMessage: string := "Failed to add user"

  /** A notification raised through `useNotification`: message and kind only. */
  function Notice(message: string, kind: Notifications.Kind): Notifications.Input {
    Notifications.Input(message, kind, None, None)
  }

  /** The fields of the form that the callback receives. */
  function Payload(f: UserForm): NewUser {
    NewUser(f.name, f.email, f.mobile, f.role, f.active)
  }

  /** `handleSubmit`. */
  function Submit(f: UserForm, outcome: AddOutcome): (r: Submitted)
    ensures r.payload == Payload(f)
    ensures outcome == Added ==> r.form == Initial && r.notice == Notice(SuccessMessage, Notifications.Success)
    ensures outcome == Failed ==> r.form == f && r.notice == Notice(FailureMessage, Notifications.Error)
  {
    match outcome
    case Added => Submitted(Initial, Payload(f), Notice(SuccessMessage, Notifications.Success))
    case Failed => Submitted(f, Payload(f), Notice(FailureMessage, Notifications.Error))
  }

  /** The Cancel button. */
  function Cancel(f: UserForm): (r: UserForm)
    ensures r.name == "" && r.email == "" && r.mobile == "" && r.password == ""
    ensures r.role == Requester && r.active
  {
    Initial
  }

  /** The password never reaches the callback: forms that differ only in the password send
      the same record. */
  lemma PasswordNotSent(f: UserForm, otherPassword: string, outcome: AddOutcome)
    ensures Submit(f, outcome).payload == Submit(f.(password := otherPassword), outcome).payload
  {
  }

  /** Each submit raises exactly one notice, a success or an error, and it is dismissed after
      the default five seconds. */
  lemma OneNoticePerSubmit(f: UserForm, outcome: AddOutcome)
    ensures var n := Submit(f, outcome).notice;
            (n.kind == Notifications.Success) != (n.kind == Notifications.Error)
    ensures Notifications.DismissDelay(Submit(f, outcome).notice) == Notifications.DefaultDelay
  {
  }

  /** A successful submit leaves the form as Cancel would, and a failed one can be retried
      with the same record. */
  lemma SuccessEqualsCancel(f: UserForm, g: UserForm)
    ensures Submit(f, Added).form == Cancel(g)
    ensures Submit(Submit(f, Failed).form, Added).payload == Payload(f)
  {
  }
}
