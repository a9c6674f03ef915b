/**
  Record shapes shared by the client, the listing, the form and the stores:
  a transaction (`Expense` in the client's types), its data without an id,
  the closed set of ten categories and the two transaction kinds.
  Amounts are whole cents, so sums are exact.
 */
module Types {

  datatype Option<T> = None | Some(value: T)

  /** The outcome of a store call that returns a value or throws. */
  datatype Result<T> = Ok(value: T) | Err(message: string)

  /** The outcome of a store call that returns nothing or throws. */
  datatype Outcome = Pass | Fail(message: string)

  /** The `type` field of a transaction. */
  datatype Kind = Expense | Income

  datatype Category =
    | Food | Travel | Entertainment | Utilities | Shopping
    | Healthcare | Education | IncomeCategory | Groceries | Other

  /** The string a category is stored and compared as. */
  function CategoryName(c: Category): (s: string)
    ensures s != []
  {
    match c
    case Food => "Food"
    case Travel => "Travel"
    case Entertainment => "Entertainment"
    case Utilities => "Utilities"
    case Shopping => "Shopping"
    case Healthcare => "Healthcare"
    case Education => "Education"
    case IncomeCategory => "Income"
    case Groceries => "Groceries"
    case Other => "Other"
  }

  lemma CategoryNameInjective(a: Category, b: Category)
    ensures CategoryName(a) == CategoryName(b) <==> a == b
  {
  }

  function KindName(k: Kind): string
  {
    match k
    case Expense => "expense"
    case Income => "income"
  }

  /** One money movement; `amount` is in cents. */
  datatype Transaction = Transaction(
    id: string,
    amount: int,
    category: Category,
    description: string,
    date: string,
    kind: Kind)
  {
    /** The record without its id (`Omit<Expense, 'id'>`). */
    function Data(): Draft
    {
      Draft(amount, category, description, date, kind)
    }
  }

  /** A transaction before the store has given it an id. */
  datatype Draft = Draft(
    amount: int,
    category: Category,
    description: string,
    date: string,
    kind: Kind)
  {
    function WithId(id: string): (t: Transaction)
      ensures t.id == id && t.Data() == this
    {
      Transaction(id, amount, category, description, date, kind)
    }
  }

  /** The user's display name, currency symbol and monthly budget in cents. */
  datatype UserProfile = UserProfile(name: string, currency: string, monthlyBudget: int)

  /** The profile shown before any is loaded, and when the store has none: `User`, `$`, 3000. */
  const DefaultProfile := UserProfile("User", "$", 300000)

  /** The left-to-right sum of amounts (`reduce((sum, e) => sum + e.amount, 0)`). */
  function Sum(xs: seq<Transaction>): int
  {
    if xs == [] then 0 else Sum(xs[..|xs| - 1]) + xs[|xs| - 1].amount
  }

  /** The elements satisfying `p`, in their order (`Array.prototype.filter`). */
  function Filter<T(!new)>(xs: seq<T>, p: T -> bool): (r: seq<T>)
    ensures |r| <= |xs|
    ensures forall e :: e in r <==> e in xs && p(e)
  {
    if xs == [] then []
    else Filter(xs[..|xs| - 1], p) + (if p(xs[|xs| - 1]) then [xs[|xs| - 1]] else [])
  }

  /** The sum of the amounts of one kind. */
  function TotalOf(xs: seq<Transaction>, k: Kind): int
  {
    Sum(Filter(xs, (e: Transaction) => e.kind == k))
  }

  lemma {:induction false} SumAppend(xs: seq<Transaction>, ys: seq<Transaction>)
    ensures Sum(xs + ys) == Sum(xs) + Sum(ys)
  {
    if ys != [] {
      var zs := ys[..|ys| - 1];
      assert (xs + ys)[..|xs + ys| - 1] == xs + zs;
      SumAppend(xs, zs);
    } else {
      assert xs + ys == xs;
    }
  }

  lemma {:induction false} FilterAppend<T(!new)>(xs: seq<T>, ys: seq<T>, p: T -> bool)
    ensures Filter(xs + ys, p) == Filter(xs, p) + Filter(ys, p)
  {
    if ys != [] {
      var zs := ys[..|ys| - 1];
      assert (xs + ys)[..|xs + ys| - 1] == xs + zs;
      FilterAppend(xs, zs, p);
    } else {
      assert xs + ys == xs;
    }
  }

  /** Filtering twice by the same predicate is filtering once. */
  lemma {:induction false} FilterIdempotent<T(!new)>(xs: seq<T>, p: T -> bool)
    ensures Filter(Filter(xs, p), p) == Filter(xs, p)
  {
    if xs != [] {
      var init, x := xs[..|xs| - 1], xs[|xs| - 1];
      FilterIdempotent(init, p);
      FilterAppend(Filter(init, p), if p(x) then [x] else [], p);
    }
  }

  /** Filtering by `p` and then by `q` selects the records satisfying both, in order. */
  lemma {:induction false} FilterFilter<T(!new)>(xs: seq<T>, p: T -> bool, q: T -> bool, both: T -> bool)
    requires forall e :: both(e) == (p(e) && q(e))
    ensures Filter(Filter(xs, p), q) == Filter(xs, both)
  {
    if xs != [] {
      var init, x := xs[..|xs| - 1], xs[|xs| - 1];
      FilterFilter(init, p, q, both);
      FilterAppend(Filter(init, p), if p(x) then [x] else [], q);
    }
  }

  /** No record of `xs` satisfies `p`: the selection is empty. */
  lemma {:induction false} FilterEmpty<T(!new)>(xs: seq<T>, p: T -> bool)
    requires forall e :: e in xs ==> !p(e)
    ensures Filter(xs, p) == []
  {
    if xs != [] {
      FilterEmpty(xs[..|xs| - 1], p);
    }
  }

  /** Every record of `xs` satisfies `p`: the selection is all of `xs`. */
  lemma {:induction false} FilterKeepsAll<T(!new)>(xs: seq<T>, p: T -> bool)
    requires forall e :: e in xs ==> p(e)
    ensures Filter(xs, p) == xs
  {
    if xs != [] {
      var init, x := xs[..|xs| - 1], xs[|xs| - 1];
      assert xs == init + [x];
      assert forall e :: e in init ==> e in xs;
      FilterKeepsAll(init, p);
      assert p(x);
    }
  }

  /** Two predicates that agree on every record of `xs` select the same records. */
  lemma {:induction false} FilterCongruent<T(!new)>(xs: seq<T>, p: T -> bool, q: T -> bool)
    requires forall e :: e in xs ==> p(e) == q(e)
    ensures Filter(xs, p) == Filter(xs, q)
  {
    if xs != [] {
      FilterCongruent(xs[..|xs| - 1], p, q);
    }
  }

  /**
    Splitting a selection into two disjoint parts splits its sum: the basis of
    every "each record counts in exactly one bucket" fact.
   */
  lemma {:induction false} SumFilterDisjoint(
    xs: seq<Transaction>, p: Transaction -> bool, q: Transaction -> bool, pq: Transaction -> bool)
    requires forall e :: e in xs ==> !(p(e) && q(e)) && pq(e) == (p(e) || q(e))
    ensures Sum(Filter(xs, pq)) == Sum(Filter(xs, p)) + Sum(Filter(xs, q))
  {
    if xs != [] {
      var ys, x := xs[..|xs| - 1], xs[|xs| - 1];
      SumFilterDisjoint(ys, p, q, pq);
      SumAppend(Filter(ys, pq), if pq(x) then [x] else []);
      SumAppend(Filter(ys, p), if p(x) then [x] else []);
      SumAppend(Filter(ys, q), if q(x) then [x] else []);
    }
  }
}
