/**
  The add/edit form. Its fields are component state changed one setter at
  a time: loading a record (or clearing it), the expense/income toggle, and
  submission, which refuses empty fields, sends a record without an id and
  clears the fields only after a successful add.
 */
module Form {
  import opened Types
  import opened Amounts

  /** The order the category options are listed in. */
  const Categories: seq<Category> :=
    [Groceries, Utilities, Shopping, Food, Travel, Entertainment, Healthcare, Education, IncomeCategory, Other]

  lemma CategoriesComplete()
    ensures |Categories| == 10
    ensures forall c :: c in Categories
    ensures forall i, j :: 0 <= i < j < |Categories| ==> Categories[i] != Categories[j]
  {
    forall c ensures c in Categories {
      match c
      case Groceries => assert Categories[0] == c;
      case Utilities => assert Categories[1] == c;
      case Shopping => assert Categories[2] == c;
      case Food => assert Categories[3] == c;
      case Travel => assert Categories[4] == c;
      case Entertainment => assert Categories[5] == c;
      case Healthcare => assert Categories[6] == c;
      case Education => assert Categories[7] == c;
      case IncomeCategory => assert Categories[8] == c;
      case Other => assert Categories[9] == c;
    }
  }

  /** The category options: every category but `Income` for an expense, only `Income` for income. */
  function OfferedCategories(kind: Kind): seq<Category>
  {
    if kind == Expense then Filter(Categories, (c: Category) => c != IncomeCategory) else [IncomeCategory]
  }

  lemma OfferedCategoriesByKind(c: Category)
    ensures c in OfferedCategories(Expense) <==> c != IncomeCategory
    ensures c in OfferedCategories(Income) <==> c == IncomeCategory
  {
    CategoriesComplete();
  }

  /** The category kept when switching to expense: `Income` becomes `Food`. */
  function ExpenseCategory(c: Category): (r: Category)
    ensures r in OfferedCategories(Expense)
    ensures c != IncomeCategory ==> r == c
  {
    OfferedCategoriesByKind(Food);
    OfferedCategoriesByKind(c);
    if c == IncomeCategory then Food else c
  }

  /**
    The record a submission sends, or `None` when the guard stops it: an
    empty amount, description or date. An amount text that is not a whole
    number of cents is also `None` (see `ParseCents`).
   */
  function Payload(amount: string, description: string, category: Category, kind: Kind, date: string): (r: Option<Draft>)
    ensures r.None? <==> amount == [] || description == [] || date == [] || ParseCents(amount).None?
    ensures r.Some? ==>
      Some(r.value.amount) == ParseCents(amount) &&
      r.value.description == description && r.value.category == category &&
      r.value.kind == kind && r.value.date == date
  {
    if amount == [] || description == [] || date == [] then None
    else
      match ParseCents(amount)
      case None => None
      case Some(cents) => Some(Draft(cents, category, description, date, kind))
  }

  /** A filled-in form with a typed amount of `12.50` is sent as 1250 cents. */
  lemma TypedAmountSent()
    ensures Payload("12.50", "lunch", Food, Expense, "2024-01-07") == Some(Draft(1250, Food, "lunch", "2024-01-07", Expense))
  {
    ParseCentsExamples();
  }

  /** Submitting a record loaded unchanged sends back exactly its data. */
  lemma EditRoundTrip(t: Transaction)
    requires t.description != [] && t.date != []
    ensures Payload(ShowCents(t.amount), t.description, t.category, t.kind, t.date) == Some(t.Data())
  {
    ShowParseRoundTrip(t.amount);
  }

  /** After `onAdd` settles with `outcome`, the fields are cleared and the success overlay shown. */
  predicate ResetsAfter(outcome: Outcome, initial: Option<Transaction>)
  {
    outcome.Pass? && initial.None?
  }

  datatype Submission = Blocked | Submitted(payload: Draft, outcome: Outcome)

  class ExpenseForm {
    var amount: string
    var description: string
    var category: Category
    var kind: Kind
    var date: string
    var isSubmitting: bool
    var showSuccess: bool
    var initialData: Option<Transaction>

    /** The fields a record fills in, or the blank form dated `today`. */
    predicate Shows(initial: Option<Transaction>, today: string)
      reads this
    {
      match initial
      case Some(t) =>
        amount == ShowCents(t.amount) && description == t.description &&
        category == t.category && kind == t.kind && date == t.date
      case None =>
        amount == [] && description == [] && category == Groceries && kind == Expense && date == today
    }

    /** Mounting the form: the initial state, then the load effect. */
    constructor (initial: Option<Transaction>, today: string)
      ensures Shows(initial, today) && initialData == initial
      ensures !isSubmitting && !showSuccess
    {
      initialData := initial;
      isSubmitting := false;
      showSuccess := false;
      match initial
      case Some(t) =>
        amount := ShowCents(t.amount);
        description := t.description;
        category := t.category;
        kind := t.kind;
        date := t.date;
      case None =>
        amount := [];
        description := [];
        category := Groceries;
        kind := Expense;
        date := today;
    }

    /**
      The load effect, run whenever the record being edited changes: copy its
      fields, or reset to the blank form with `Groceries`.
     */
    method LoadInitialData(initial: Option<Transaction>, today: string)
      modifies this
      ensures Shows(initial, today) && initialData == initial
      ensures isSubmitting == old(isSubmitting) && showSuccess == old(showSuccess)
    {
      initialData := initial;
      match initial
      case Some(t) =>
        amount := ShowCents(t.amount);
        description := t.description;
        category := t.category;
        kind := t.kind;
        date := t.date;
      case None =>
        amount := [];
        description := [];
        category := Groceries;
        kind := Expense;
        date := today;
    }

    /** The expense button: an `Income` category becomes `Food`, any other stays. */
    method ChooseExpense()
      modifies this
      ensures kind == Expense && category == ExpenseCategory(old(category))
      ensures amount == old(amount) && description == old(description) && date == old(date)
      ensures isSubmitting == old(isSubmitting) && showSuccess == old(showSuccess) && initialData == old(initialData)
    {
      kind := Expense;
      if category == IncomeCategory {
        category := Food;
      }
    }

    /** The income button: the category is always `Income`. */
    method ChooseIncome()
      modifies this
      ensures kind == Income && category == IncomeCategory
      ensures amount == old(amount) && description == old(description) && date == old(date)
      ensures isSubmitting == old(isSubmitting) && showSuccess == old(showSuccess) && initialData == old(initialData)
    {
      kind := Income;
      category := IncomeCategory;
    }

    /**
      `handleSubmit`. A blocked submission changes nothing and calls no one.
      Otherwise `onAdd` gets the payload; after a successful add (no record
      being edited) the fields reset to the blank form with `Food` dated
      `today`; in edit mode, or when `onAdd` fails, they stay as submitted.
      Either way the form is no longer submitting.
     */
    method HandleSubmit(onAdd: Draft -> Outcome, today: string) returns (s: Submission)
      modifies this
      ensures old(Payload(amount, description, category, kind, date)).None? ==>
        s == Blocked && isSubmitting == old(isSubmitting) && Unchanged()
      ensures old(Payload(amount, description, category, kind, date)).Some? ==>
        var p := old(Payload(amount, description, category, kind, date)).value;
        s == Submitted(p, onAdd(p)) && !isSubmitting && initialData == old(initialData) &&
        if ResetsAfter(onAdd(p), old(initialData)) then
          amount == [] && description == [] && category == Food && kind == Expense && date == today && showSuccess
        else
          amount == old(amount) && description == old(description) && category == old(category) &&
          kind == old(kind) && date == old(date) && showSuccess == old(showSuccess)
    {
      var payload := Payload(amount, description, category, kind, date);
      if payload.None? {
        return Blocked;
      }
      isSubmitting := true;
      var outcome := onAdd(payload.value);
      if outcome.Pass? && initialData.None? {
        amount := [];
        description := [];
        category := Food;
        kind := Expense;
        date := today;
        showSuccess := true;
      }
      isSubmitting := false;
      s := Submitted(payload.value, outcome);
    }

    /** The editable fields and flags are all as they were. */
    twostate predicate Unchanged()
      reads this
    {
      amount == old(amount) && description == old(description) && category == old(category) &&
      kind == old(kind) && date == old(date) && showSuccess == old(showSuccess) &&
      initialData == old(initialData)
    }
  }
}
