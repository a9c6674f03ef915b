/**
  The client's top-level state: the list of transactions, the record being
  edited, the selected tab and the profile, changed by the handlers after a
  store call. Each store call is a function-typed parameter giving the
  outcome of the call for the arguments the handler passes, so that a
  thrown error (`Err` / `Fail`) and a success are both modelled.
  The headline figures are pure folds over the list.
 */
module App {
  import opened Types
  import Order
  import Listing

  datatype Tab = DashboardTab | ExpensesTab | InsightsTab | AddTab

  // ---------------------------------------------------------------------------
  // How the add handler's promise settles for a store result

  /** As written: the error is caught and alerted, so the promise resolves. */
  function AddSettles(r: Result<Transaction>): Outcome
  {
    Pass
  }

  /** With the error passed on: the promise rejects exactly when the store call failed. */
  function AddSettlesRethrowing(r: Result<Transaction>): (o: Outcome)
    ensures o.Pass? <==> r.Ok?
    ensures r.Err? ==> o == Fail(r.message)
  {
    match r
    case Ok(_) => Pass
    case Err(m) => Fail(m)
  }

  // ---------------------------------------------------------------------------
  // List updates

  /** `prev.map(e => e.id === u.id ? u : e)` */
  function Replaced(xs: seq<Transaction>, u: Transaction): (r: seq<Transaction>)
    ensures |r| == |xs|
    ensures forall i :: 0 <= i < |xs| ==> r[i] == if xs[i].id == u.id then u else xs[i]
  {
    if xs == [] then []
    else
      var last := xs[|xs| - 1];
      Replaced(xs[..|xs| - 1], u) + [if last.id == u.id then u else last]
  }

  /** Replacing by the same record a second time changes nothing. */
  lemma ReplacedIdempotent(xs: seq<Transaction>, u: Transaction)
    ensures Replaced(Replaced(xs, u), u) == Replaced(xs, u)
  {
  }

  /** A record whose id is not in the list leaves it as it was. */
  lemma ReplacedAbsent(xs: seq<Transaction>, u: Transaction)
    requires forall i :: 0 <= i < |xs| ==> xs[i].id != u.id
    ensures Replaced(xs, u) == xs
  {
  }

  /** `prev.filter(e => e.id !== id)` */
  function Removed(xs: seq<Transaction>, id: string): (r: seq<Transaction>)
    ensures forall e :: e in r <==> e in xs && e.id != id
  {
    Filter(xs, (e: Transaction) => e.id != id)
  }

  /** Deleting the same id twice is deleting it once. */
  lemma RemovedIdempotent(xs: seq<Transaction>, id: string)
    ensures Removed(Removed(xs, id), id) == Removed(xs, id)
  {
    FilterIdempotent(xs, (e: Transaction) => e.id != id);
  }

  /** Deletion works piecewise, so the kept records stay in their order. */
  lemma RemovedAppend(xs: seq<Transaction>, ys: seq<Transaction>, id: string)
    ensures Removed(xs + ys, id) == Removed(xs, id) + Removed(ys, id)
  {
    FilterAppend(xs, ys, (e: Transaction) => e.id != id);
  }

  /** Deleting an id that is not in the list leaves it as it was. */
  lemma RemovedAbsent(xs: seq<Transaction>, id: string)
    requires forall e :: e in xs ==> e.id != id
    ensures Removed(xs, id) == xs
  {
    FilterKeepsAll(xs, (e: Transaction) => e.id != id);
  }

  /** `expenses.slice(-5)`: the last `min(5, n)` records, in order. */
  function Recent(xs: seq<Transaction>): (r: seq<Transaction>)
    ensures |r| == if |xs| < 5 then |xs| else 5
    ensures forall i :: 0 <= i < |r| ==> r[i] == xs[|xs| - |r| + i]
  {
    if |xs| <= 5 then xs else xs[|xs| - 5..]
  }

  /**
    On a newest-first list (as the stores return it) the last five are the
    earliest-dated records: none is newer than a record left out.
   */
  lemma RecentOfNewestFirst(xs: seq<Transaction>)
    requires forall i, j :: 0 <= i < j < |xs| ==> Order.LexLe(xs[j].date, xs[i].date)
    ensures var r := Recent(xs);
      forall i, j :: 0 <= i < |r| && 0 <= j < |xs| - |r| ==> Order.LexLe(r[i].date, xs[j].date)
  {
  }

  /**
    Once the list has been sorted oldest-first the last five are the
    latest-dated records: none is older than a record left out.
   */
  lemma RecentOfDateSorted(xs: seq<Transaction>)
    ensures var s := Order.Sort(xs, Listing.DateLe);
      var r := Recent(s);
      forall i, j :: 0 <= i < |r| && 0 <= j < |s| - |r| ==> Order.LexLe(s[j].date, r[i].date)
  {
    var s := Order.Sort(xs, Listing.DateLe);
    Listing.DateLeTotalPreorder();
    Order.SortSorted(xs, Listing.DateLe);
    var r := Recent(s);
    forall i, j | 0 <= i < |r| && 0 <= j < |s| - |r|
      ensures Order.LexLe(s[j].date, r[i].date)
    {
      assert r[i] == s[|s| - |r| + i];
      assert Listing.DateLe(s[j], s[|s| - |r| + i]);
    }
  }

  // ---------------------------------------------------------------------------
  // Headline figures

  /** The headline figure: income adds, anything else subtracts, left to right. */
  function NetBalance(xs: seq<Transaction>): int
  {
    if xs == [] then 0
    else
      var last := xs[|xs| - 1];
      var acc := NetBalance(xs[..|xs| - 1]);
      if last.kind == Income then acc + last.amount else acc - last.amount
  }

  /** The headline figure is total income minus total expense. */
  lemma {:induction false} NetBalanceIsIncomeMinusExpense(xs: seq<Transaction>)
    ensures NetBalance(xs) == TotalOf(xs, Income) - TotalOf(xs, Expense)
  {
    if xs != [] {
      NetBalanceIsIncomeMinusExpense(xs[..|xs| - 1]);
      KindTotalStep(xs, Income);
      KindTotalStep(xs, Expense);
    }
  }

  /** The last record adds its amount to the total of its own kind only. */
  lemma KindTotalStep(xs: seq<Transaction>, k: Kind)
    requires xs != []
    ensures var x := xs[|xs| - 1];
      TotalOf(xs, k) == TotalOf(xs[..|xs| - 1], k) + (if x.kind == k then x.amount else 0)
  {
    var x := xs[|xs| - 1];
    var a := Filter(xs[..|xs| - 1], (e: Transaction) => e.kind == k);
    if x.kind == k {
      assert (a + [x])[..|a|] == a;
    } else {
      assert a + [] == a;
    }
  }

  /**
    The width of the budget bar, `Math.min(100, spent / budget * 100)`, as
    the number it evaluates to: a finite percentage, or NaN (0 / 0), or
    negative infinity (a negative amount over a zero budget).
   */
  datatype BarWidth = Percent(p: real) | NotANumber | MinusInfinity

  function BudgetPercent(spent: int, budget: int): (w: BarWidth)
    ensures w.Percent? ==> w.p <= 100.0
    ensures w.Percent? && w.p == 100.0 <==>
      (budget > 0 && spent >= budget) || (budget < 0 && spent <= budget) || (budget == 0 && spent > 0)
    ensures budget > 0 && spent >= 0 ==> w.Percent? && 0.0 <= w.p
    ensures budget > 0 && spent < budget ==> w == Percent(spent as real * 100.0 / budget as real)
    ensures w == NotANumber <==> budget == 0 && spent == 0
  {
    if budget == 0 then
      if spent > 0 then Percent(100.0) else if spent == 0 then NotANumber else MinusInfinity
    else
      var ratio := spent as real / budget as real * 100.0;
      if ratio < 100.0 then Percent(ratio) else Percent(100.0)
  }

  /** The bar as the app computes it: the expense total over the monthly budget. */
  function BudgetBar(xs: seq<Transaction>, profile: UserProfile): BarWidth
  {
    BudgetPercent(TotalOf(xs, Expense), profile.monthlyBudget)
  }

  /** Spending 1200 against a budget of 1000 fills the bar, and no more. */
  lemma BudgetBarClamps()
    ensures BudgetPercent(120000, 100000) == Percent(100.0)
    ensures BudgetPercent(50000, 100000) == Percent(50.0)
  {
  }

  // ---------------------------------------------------------------------------
  // The component's state

  class AppState {
    var signedIn: bool
    var expenses: seq<Transaction>
    var profile: UserProfile
    var activeTab: Tab
    var editing: Option<Transaction>

    /** The state on mount: no user yet, no records, the default profile, the dashboard. */
    constructor ()
      ensures !signedIn && expenses == [] && profile == DefaultProfile
      ensures activeTab == DashboardTab && editing == None
    {
      signedIn := false;
      expenses := [];
      profile := DefaultProfile;
      activeTab := DashboardTab;
      editing := None;
    }

    /** `handleLogin` and the auth listener: a user is now signed in. */
    method SignIn()
      modifies this
      ensures signedIn
      ensures expenses == old(expenses) && profile == old(profile)
      ensures activeTab == old(activeTab) && editing == old(editing)
    {
      signedIn := true;
    }

    /**
      `fetchData`: with a user, the loaded records and profile replace the
      current ones; without one nothing happens.
     */
    method FetchData(fetched: seq<Transaction>, fetchedProfile: UserProfile)
      modifies this
      ensures signedIn == old(signedIn)
      ensures expenses == (if signedIn then fetched else old(expenses))
      ensures profile == (if signedIn then fetchedProfile else old(profile))
      ensures activeTab == old(activeTab) && editing == old(editing)
    {
      if signedIn {
        expenses := fetched;
        profile := fetchedProfile;
      }
    }

    /**
      Rendering the history tab. The listing is handed this component's own
      array and sorts it in place, oldest date first, in its state
      initialiser, which runs on every render; so the list held here is
      reordered too, and with it the Recent panel and the first-seen
      category order of the dashboard. (The Recent panel's listing gets a
      copy made by `slice`, so rendering it reorders nothing here.)
     */
    method RenderHistory()
      modifies this
      ensures expenses == Order.Sort(old(expenses), Listing.DateLe)
      ensures multiset(expenses) == multiset(old(expenses))
      ensures signedIn == old(signedIn) && profile == old(profile)
      ensures activeTab == old(activeTab) && editing == old(editing)
    {
      var shared := new Transaction[|expenses|](i requires 0 <= i < |expenses| reads this => expenses[i]);
      assert shared[..] == expenses;
      var listing := new Listing.ExpenseList(shared);
      expenses := shared[..];
      Order.SortPermutes(old(expenses), Listing.DateLe);
    }

    /** `handleLogout`: the user is gone and the list is emptied. */
    method HandleLogout()
      modifies this
      ensures !signedIn && expenses == []
      ensures profile == old(profile) && activeTab == old(activeTab) && editing == old(editing)
    {
      signedIn := false;
      expenses := [];
    }

    /**
      `handleAddExpense`: on success the returned record is appended; if the
      store call throws, the list is unchanged. `settled` is how the promise
      the handler returns settles: the handler catches the store's error, so
      it always resolves.
     */
    method HandleAddExpense(data: Draft, addExpense: Draft -> Result<Transaction>) returns (settled: Outcome)
      modifies this
      ensures expenses == match addExpense(data)
        case Ok(t) => old(expenses) + [t]
        case Err(_) => old(expenses)
      ensures settled == AddSettles(addExpense(data))
      ensures signedIn == old(signedIn) && profile == old(profile)
      ensures activeTab == old(activeTab) && editing == old(editing)
    {
      var outcome := addExpense(data);
      if outcome.Ok? {
        expenses := expenses + [outcome.value];
      }
      settled := Pass;
    }

    /**
      The add handler the form evidently relies on: the same list update,
      but a failed store call rejects the promise, so the caller can tell.
     */
    method HandleAddExpenseRethrowing(data: Draft, addExpense: Draft -> Result<Transaction>) returns (settled: Outcome)
      modifies this
      ensures expenses == match addExpense(data)
        case Ok(t) => old(expenses) + [t]
        case Err(_) => old(expenses)
      ensures settled == AddSettlesRethrowing(addExpense(data))
      ensures settled.Pass? <==> addExpense(data).Ok?
      ensures signedIn == old(signedIn) && profile == old(profile)
      ensures activeTab == old(activeTab) && editing == old(editing)
    {
      var outcome := addExpense(data);
      if outcome.Ok? {
        expenses := expenses + [outcome.value];
        settled := Pass;
      } else {
        settled := Fail(outcome.message);
      }
    }

    /**
      `handleUpdateExpense`: without a record being edited nothing happens.
      Otherwise the store is asked to update the edited record's id; on
      success the entries with the returned id are replaced, editing ends
      and the history tab is shown; if the call throws nothing changes.
     */
    method HandleUpdateExpense(data: Draft, updateExpense: (string, Draft) -> Result<Transaction>)
      modifies this
      ensures old(editing).None? ==> expenses == old(expenses) && editing == old(editing) && activeTab == old(activeTab)
      ensures old(editing).Some? ==>
        match updateExpense(old(editing).value.id, data)
        case Ok(u) => expenses == Replaced(old(expenses), u) && editing == None && activeTab == ExpensesTab
        case Err(_) => expenses == old(expenses) && editing == old(editing) && activeTab == old(activeTab)
      ensures signedIn == old(signedIn) && profile == old(profile)
    {
      if editing.None? {
        return;
      }
      var outcome := updateExpense(editing.value.id, data);
      if outcome.Ok? {
        expenses := Replaced(expenses, outcome.value);
        editing := None;
        activeTab := ExpensesTab;
      }
    }

    /**
      `handleDeleteExpense`: on success every entry with the id is dropped;
      if the store call throws the list is unchanged.
     */
    method HandleDeleteExpense(id: string, deleteExpense: string -> Outcome)
      modifies this
      ensures expenses == if deleteExpense(id).Pass? then Removed(old(expenses), id) else old(expenses)
      ensures signedIn == old(signedIn) && profile == old(profile)
      ensures activeTab == old(activeTab) && editing == old(editing)
    {
      var outcome := deleteExpense(id);
      if outcome.Pass? {
        expenses := Removed(expenses, id);
      }
    }

    /** `handleEditClick`: the record becomes the one being edited, on the form tab. */
    method HandleEditClick(e: Transaction)
      modifies this
      ensures editing == Some(e) && activeTab == AddTab
      ensures signedIn == old(signedIn) && expenses == old(expenses) && profile == old(profile)
    {
      editing := Some(e);
      activeTab := AddTab;
    }

    /**
      A tab chosen in the navigation bar, or the "new record" buttons (with
      `AddTab`): editing ends and the tab is shown.
     */
    method SelectTab(tab: Tab)
      modifies this
      ensures editing == None && activeTab == tab
      ensures signedIn == old(signedIn) && expenses == old(expenses) && profile == old(profile)
    {
      editing := None;
      activeTab := tab;
    }

    /** The headline net balance of the current list. */
    function Balance(): (b: int)
      reads this
      ensures b == TotalOf(expenses, Income) - TotalOf(expenses, Expense)
    {
      NetBalanceIsIncomeMinusExpense(expenses);
      NetBalance(expenses)
    }
  }
}
