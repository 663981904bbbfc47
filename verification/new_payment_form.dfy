/** The new-payment form: four text fields, a submit guard that only checks they are
    non-empty, and a reset after an accepted submit. `parseFloat` of the amount text is a
    parameter. */
module NewPaymentForm {
  import opened Wrappers
  import opened Schema
  import Vouchers

  datatype Form = Form(payee: string, accountHead: string, amount: string, description: string)

  const Empty: Form := Form("", "", "", "")

  /** Every field holds some text. */
  predicate Complete(f: Form) {
    f.payee != "" && f.accountHead != "" && f.amount != "" && f.description != ""
  }

  /** The form after submit and the payload handed to `onSubmit`, if it was called. */
  datatype Submitted = Submitted(form: Form, sent: Option<Vouchers.Payment>)

  /** `handleSubmit`. */
  function Submit(f: Form, parseAmount: string -> Amount): (r: Submitted)
    ensures !Complete(f) ==> r.form == f && r.sent.None?
    ensures Complete(f) ==> r.form == Empty && r.sent.Some?
    ensures r.sent.Some? ==> && r.sent.value.payee == f.payee
                             && r.sent.value.accountHead == f.accountHead
                             && r.sent.value.description == f.description
                             && r.sent.value.amount == parseAmount(f.amount)
  {
    if !Complete(f) then Submitted(f, None)
    else Submitted(Empty, Some(Vouchers.Payment(f.payee, f.accountHead, f.description, parseAmount(f.amount))))
  }

  /** The form starts empty, so submitting it straight away does nothing. */
  lemma InitialSubmitIsNoOp(parseAmount: string -> Amount)
    ensures Submit(Empty, parseAmount) == Submitted(Empty, None)
  {
  }

  /** After an accepted submit the form is empty, so an immediate second submit sends
      nothing: one click, at most one voucher. */
  lemma NoDoubleSubmit(f: Form, parseAmount: string -> Amount)
    ensures Submit(Submit(f, parseAmount).form, parseAmount).sent.None?
  {
  }

  /** The guard never looks at what the amount means: whether a submit is accepted does
      not depend on how the amount text parses (a negative or unparsable amount passes). */
  lemma GuardIgnoresAmountValue(f: Form, p1: string -> Amount, p2: string -> Amount)
    ensures Submit(f, p1).sent.Some? <==> Submit(f, p2).sent.Some?
    ensures Submit(f, p1).form == Submit(f, p2).form
  {
  }

  /** A submitted form, passed on by a signed-in user, becomes exactly one new voucher row
      carrying the form's text fields. */
  lemma SubmitThenInsert(t: Vouchers.Table, f: Form, parseAmount: string -> Amount,
                         user: UserId, d: Vouchers.Defaults)
    requires Complete(f) && d.id !in t
    ensures var r := Vouchers.NewPayment(t, Submit(f, parseAmount).sent.value, Some(user), d);
            && r.Keys == t.Keys + {d.id}
            && r[d.id].payee == f.payee && r[d.id].accountHeadId == f.accountHead
            && r[d.id].description == f.description && r[d.id].requestedBy == user
  {
  }
}
