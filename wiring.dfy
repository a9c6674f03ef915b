/**
  The form as the top-level component mounts it for a new record: its
  `onAdd` is the add handler, so whether the form clears itself and shows
  the success overlay depends on how the handler's promise settles.
 */
module Wiring {
  import opened Types
  import opened App
  import opened Form

  /**
    As written, the handler swallows the store's error, so a failed add
    still clears the form and shows the success overlay.
   */
  lemma SuccessShownAfterFailedAdd(message: string)
    ensures ResetsAfter(AddSettles(Err(message)), None)
  {
  }

  /**
    When the handler passes the error on, the form clears itself and shows
    the overlay exactly when the record was saved.
   */
  lemma SuccessShownOnlyAfterSavedAdd(stored: Result<Transaction>)
    ensures ResetsAfter(AddSettlesRethrowing(stored), None) <==> stored.Ok?
    ensures stored.Err? ==> !ResetsAfter(AddSettlesRethrowing(stored), None)
  {
  }

  /**
    A new record submitted through the form with the add handler as
    written. The handler runs first and settles; the form then sees that
    outcome from `onAdd`. When the store call fails, the list keeps its
    records, yet the form clears itself and shows the success overlay.
   */
  method SubmitNewRecord(app: AppState, form: ExpenseForm, addExpense: Draft -> Result<Transaction>, today: string)
    returns (s: Submission)
    requires form.initialData.None?
    modifies app, form
    ensures old(Payload(form.amount, form.description, form.category, form.kind, form.date)).None? ==>
      s == Blocked && app.expenses == old(app.expenses) && form.showSuccess == old(form.showSuccess)
    ensures old(Payload(form.amount, form.description, form.category, form.kind, form.date)).Some? ==>
      var p := old(Payload(form.amount, form.description, form.category, form.kind, form.date)).value;
      s == Submitted(p, Pass) && form.showSuccess && form.amount == [] && form.description == [] &&
      app.expenses == match addExpense(p)
        case Ok(t) => old(app.expenses) + [t]
        case Err(_) => old(app.expenses)
  {
    var payload := Payload(form.amount, form.description, form.category, form.kind, form.date);
    if payload.None? {
      s := form.HandleSubmit(d => Pass, today);
      return;
    }
    var settled := app.HandleAddExpense(payload.value, addExpense);
    s := form.HandleSubmit(d => settled, today);
  }

  /**
    The same submission with the handler passing the failure on: the form
    clears itself and shows the overlay exactly when the record was saved,
    and after a failure it keeps the fields as submitted.
   */
  method SubmitNewRecordRethrowing(app: AppState, form: ExpenseForm, addExpense: Draft -> Result<Transaction>, today: string)
    returns (s: Submission)
    requires form.initialData.None?
    modifies app, form
    ensures old(Payload(form.amount, form.description, form.category, form.kind, form.date)).None? ==>
      s == Blocked && app.expenses == old(app.expenses) && form.showSuccess == old(form.showSuccess)
    ensures old(Payload(form.amount, form.description, form.category, form.kind, form.date)).Some? ==>
      var p := old(Payload(form.amount, form.description, form.category, form.kind, form.date)).value;
      match addExpense(p)
      case Ok(t) =>
        app.expenses == old(app.expenses) + [t] && form.showSuccess && form.amount == [] && form.description == []
      case Err(m) =>
        s == Submitted(p, Fail(m)) && app.expenses == old(app.expenses) &&
        form.showSuccess == old(form.showSuccess) && form.amount == old(form.amount) &&
        form.description == old(form.description)
  {
    var payload := Payload(form.amount, form.description, form.category, form.kind, form.date);
    if payload.None? {
      s := form.HandleSubmit(d => Pass, today);
      return;
    }
    var settled := app.HandleAddExpenseRethrowing(payload.value, addExpense);
    s := form.HandleSubmit(d => settled, today);
  }
}
