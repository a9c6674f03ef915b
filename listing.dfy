/**
  The transaction history table: the list it holds (sorted by date when it
  is created, sorting the caller's array in place), the category filter, a
  re-sort by date or amount that keeps only the filtered rows, and the
  newest-first display.
 */
module Listing {
  import opened Types
  import opened Order

  /** Comparison of the `date` fields; on `YYYY-MM-DD` dates this is time order. */
  predicate DateLe(a: Transaction, b: Transaction)
  {
    LexLe(a.date, b.date)
  }

  /** Comparison of the `amount` fields (`a.amount - b.amount`). */
  predicate AmountLe(a: Transaction, b: Transaction)
  {
    a.amount <= b.amount
  }

  lemma DateLeTotalPreorder()
    ensures TotalPreorder(DateLe)
  {
    forall a: Transaction, b: Transaction ensures DateLe(a, b) || DateLe(b, a) {
      LexLeTotal(a.date, b.date);
    }
    forall a: Transaction, b: Transaction, c: Transaction | DateLe(a, b) && DateLe(b, c)
      ensures DateLe(a, c)
    {
      LexLeTransitive(a.date, b.date, c.date);
    }
  }

  lemma AmountLeTotalPreorder()
    ensures TotalPreorder(AmountLe)
  {
  }

  /**
    A stable sort by `le` returns a permutation of its input, in `le` order,
    with tied records (same date, or same amount) in their original order.
   */
  lemma SortedStablePermutation(s: seq<Transaction>, le: (Transaction, Transaction) -> bool)
    requires TotalPreorder(le)
    ensures multiset(Sort(s, le)) == multiset(s)
    ensures Sorted(Sort(s, le), le)
    ensures forall v :: Ties(Sort(s, le), v, le) == Ties(s, v, le)
  {
    SortPermutes(s, le);
    SortSorted(s, le);
    forall v ensures Ties(Sort(s, le), v, le) == Ties(s, v, le) {
      SortStable(s, v, le);
    }
  }

  /** Sorting again by the same order changes nothing. */
  lemma SortIdempotent(s: seq<Transaction>, le: (Transaction, Transaction) -> bool)
    requires TotalPreorder(le)
    ensures Sort(Sort(s, le), le) == Sort(s, le)
  {
    SortedStablePermutation(s, le);
    SortedStablePermutation(Sort(s, le), le);
    StableSortUnique(Sort(Sort(s, le), le), Sort(s, le), le);
  }

  /** The records of category `c` (the listing compares the category's name). */
  function InCategory(c: string): Transaction -> bool
  {
    (e: Transaction) => CategoryName(e.category) == c
  }

  /**
    `filteredExpenses`: the whole list when no category is selected (`null`
    and `""` are both falsy), else the records of that category in order.
   */
  function Visible(state: seq<Transaction>, selected: string): (r: seq<Transaction>)
    ensures selected == [] ==> r == state
    ensures selected != [] ==> r == Filter(state, InCategory(selected))
    ensures forall e :: e in r <==> e in state && (selected == [] || CategoryName(e.category) == selected)
  {
    if selected == [] then state
    else
      Filter(state, InCategory(selected))
  }

  /** `slice().reverse()`: the rows newest-first. */
  function Reverse(s: seq<Transaction>): (r: seq<Transaction>)
    ensures |r| == |s|
    ensures forall i :: 0 <= i < |s| ==> r[i] == s[|s| - 1 - i]
  {
    if s == [] then [] else [s[|s| - 1]] + Reverse(s[..|s| - 1])
  }

  /** Reversing the display twice gives the view back. */
  lemma ReverseInvolutive(s: seq<Transaction>)
    ensures Reverse(Reverse(s)) == s
  {
  }

  /**
    Re-sorting the filtered view gives the same rows as sorting the whole
    list and then filtering it: the records of other categories are gone and
    the rest are in `le` order.
   */
  lemma ResortedView(state: seq<Transaction>, selected: string, le: (Transaction, Transaction) -> bool)
    requires TotalPreorder(le) && selected != []
    ensures Sort(Visible(state, selected), le) == Filter(Sort(state, le), InCategory(selected))
    ensures forall e :: e in Sort(Visible(state, selected), le) ==>
      CategoryName(e.category) == selected && e in state
  {
    SortFilterCommute(state, InCategory(selected), le);
    SortPermutes(Visible(state, selected), le);
    forall e | e in Sort(Visible(state, selected), le)
      ensures CategoryName(e.category) == selected && e in state
    {
      assert e in multiset(Visible(state, selected));
    }
  }

  /**
    As written, re-sorting while a category is selected keeps only that
    category: selecting "All" afterwards no longer shows the other records.
   */
  lemma SortWhileFilteredLosesRecords()
    ensures var f := Transaction("1", 500, Food, "lunch", "2024-01-06", Expense);
      var t := Transaction("2", 9000, Travel, "train", "2024-01-07", Expense);
      var after := Sort(Visible([f, t], "Food"), DateLe);
      Visible(after, []) == [f] && t !in Visible(after, [])
  {
    var f := Transaction("1", 500, Food, "lunch", "2024-01-06", Expense);
    var t := Transaction("2", 9000, Travel, "train", "2024-01-07", Expense);
    assert [f, t][..1] == [f];
    assert Filter([f], InCategory("Food")) == [f] by {
      assert [f][..0] == [];
    }
    assert Visible([f, t], "Food") == [f];
  }

  /**
    Sorting the whole list instead keeps every record, and the rows shown
    for the selected category are exactly the ones the source shows.
   */
  lemma SortWholeListShowsSameRows(state: seq<Transaction>, selected: string, le: (Transaction, Transaction) -> bool)
    requires TotalPreorder(le)
    ensures multiset(Sort(state, le)) == multiset(state)
    ensures Visible(Sort(state, le), selected) == Sort(Visible(state, selected), le)
  {
    SortPermutes(state, le);
    if selected != [] {
      SortFilterCommute(state, InCategory(selected), le);
    }
  }

  /** A non-empty list whose filter result is empty still shows the table. */
  lemma PlaceholderFollowsTheList()
    ensures var t := Transaction("1", 500, Food, "lunch", "2024-01-07", Expense);
      Visible([t], "Travel") == [] && [t] != []
  {
    var t := Transaction("1", 500, Food, "lunch", "2024-01-07", Expense);
    assert CategoryName(t.category) != "Travel";
  }

  /**
    The placeholder follows the held list, not the rows shown: it appears
    only when no row could be shown; with no category selected it appears
    exactly when the table would be empty; and when a selection matches
    nothing in a non-empty list the table is shown with no rows instead.
   */
  lemma PlaceholderOnlyWhenEmpty(l: ExpenseList)
    ensures l.ShowsPlaceholder() ==> l.Displayed() == []
    ensures l.selected == [] ==> (l.ShowsPlaceholder() <==> l.Displayed() == [])
    ensures l.state != [] && l.Filtered() == [] ==> !l.ShowsPlaceholder() && l.Displayed() == []
  {
  }

  class ExpenseList {
    var state: seq<Transaction>
    var selected: string

    /**
      The initial state is the caller's array sorted by date, in place: the
      array itself is reordered and the state holds its new contents.
     */
    constructor (expenses: array<Transaction>)
      modifies expenses
      ensures expenses[..] == Sort(old(expenses[..]), DateLe)
      ensures state == expenses[..] && selected == []
    {
      SortInPlace(expenses, DateLe);
      state := expenses[..];
      selected := [];
    }

    function Filtered(): seq<Transaction>
      reads this
    {
      Visible(state, selected)
    }

    /** The table rows, newest-first. */
    function Displayed(): (r: seq<Transaction>)
      reads this
      ensures |r| == |Filtered()|
      ensures forall i :: 0 <= i < |r| ==> r[i] == Filtered()[|r| - 1 - i]
    {
      Reverse(Filtered())
    }

    /** The empty-state placeholder is shown exactly when the held list is empty. */
    predicate ShowsPlaceholder()
      reads this
    {
      state == []
    }

    /**
      `handleSortChange`: `date` or `amount` replaces the state by a sorted
      copy of the filtered view; any other value changes nothing.
     */
    method HandleSortChange(value: string)
      modifies this
      ensures value == "date" ==> state == Sort(old(Filtered()), DateLe)
      ensures value == "amount" ==> state == Sort(old(Filtered()), AmountLe)
      ensures value != "date" && value != "amount" ==> state == old(state)
      ensures selected == old(selected)
    {
      var view := Filtered();
      if value == "date" || value == "amount" {
        var copy := new Transaction[|view|](i requires 0 <= i < |view| => view[i]);
        assert copy[..] == view;
        if value == "date" {
          SortInPlace(copy, DateLe);
        } else {
          SortInPlace(copy, AmountLe);
        }
        state := copy[..];
      }
    }

    /**
      The re-sort the listing evidently intends: the whole list is sorted,
      so no record is lost, and the filter stays a view over it.
     */
    method HandleSortChangeKeepingAll(value: string)
      modifies this
      ensures value == "date" ==> state == Sort(old(state), DateLe)
      ensures value == "amount" ==> state == Sort(old(state), AmountLe)
      ensures value != "date" && value != "amount" ==> state == old(state)
      ensures selected == old(selected)
    {
      if value == "date" || value == "amount" {
        var copy := new Transaction[|state|](i requires 0 <= i < |state| reads this => state[i]);
        assert copy[..] == state;
        if value == "date" {
          SortInPlace(copy, DateLe);
        } else {
          SortInPlace(copy, AmountLe);
        }
        state := copy[..];
      }
    }

    /** `handleCategoryFilterChange`: only the selection changes. */
    method HandleCategoryFilterChange(category: string)
      modifies this
      ensures selected == category && state == old(state)
    {
      selected := category;
    }
  }
}
