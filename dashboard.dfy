/**
  The dashboard's derived views: a seven-bucket daily series of spent and
  earned amounts, the per-category totals of expense records in
  first-occurrence order, and the grand total spent.
 */
module Dashboard {
  import opened Types
  import Calendar

  // ---------------------------------------------------------------------------
  // Bucket labels: `date.split('-').slice(1).join('/')`

  /** `String.prototype.split` on one separator character. */
  function Split(s: string, sep: char): (parts: seq<string>)
    ensures |parts| >= 1
    ensures forall k :: 0 <= k < |parts| ==> sep !in parts[k]
  {
    if s == [] then [[]]
    else
      var rest := Split(s[1..], sep);
      if s[0] == sep then [[]] + rest
      else [[s[0]] + rest[0]] + rest[1..]
  }

  /** `Array.prototype.join` with one separator character. */
  function Join(parts: seq<string>, sep: char): string
  {
    if parts == [] then []
    else if |parts| == 1 then parts[0]
    else parts[0] + [sep] + Join(parts[1..], sep)
  }

  /** Joining the pieces of a split with the same separator gives the string back. */
  lemma {:induction false} JoinSplit(s: string, sep: char)
    ensures Join(Split(s, sep), sep) == s
  {
    if s != [] {
      var rest := Split(s[1..], sep);
      JoinSplit(s[1..], sep);
      if s[0] == sep {
        assert ([[]] + rest)[1..] == rest;
      } else {
        var parts := [[s[0]] + rest[0]] + rest[1..];
        if |rest| > 1 {
          assert parts[1..] == rest[1..];
          assert Join(rest, sep) == rest[0] + [sep] + Join(rest[1..], sep);
        }
        assert s == [s[0]] + s[1..];
      }
    }
  }

  lemma {:induction false} SplitAt(a: string, b: string, sep: char)
    requires sep !in a
    ensures Split(a + [sep] + b, sep) == [a] + Split(b, sep)
  {
    if a == [] {
      assert ([sep] + b)[1..] == b;
    } else {
      SplitAt(a[1..], b, sep);
      assert (a + [sep] + b)[1..] == a[1..] + [sep] + b;
      assert [a[0]] + a[1..] == a;
    }
  }

  lemma {:induction false} SplitNone(s: string, sep: char)
    requires sep !in s
    ensures Split(s, sep) == [s]
  {
    if s != [] {
      SplitNone(s[1..], sep);
      assert [s[0]] + s[1..] == s;
    }
  }

  /** The chart label of a bucket date. */
  function Label(date: string): string
  {
    Join(Split(date, '-')[1..], '/')
  }

  /** On a `YYYY-MM-DD` date the label drops the year and puts `/` between month and day. */
  lemma LabelOfIsoDate(date: string)
    requires Calendar.IsoShaped(date)
    ensures Label(date) == date[5..7] + "/" + date[8..10]
  {
    var y, m, d := date[..4], date[5..7], date[8..10];
    assert date == y + ['-'] + m + ['-'] + d;
    assert '-' !in y && '-' !in m && '-' !in d by {
      assert forall k :: 0 <= k < 4 ==> y[k] == date[k];
      assert forall k :: 0 <= k < 2 ==> m[k] == date[5 + k] && d[k] == date[8 + k];
    }
    LabelOfParts(y, m, d);
  }

  /** A date made of three dash-free parts is labelled with the last two. */
  lemma LabelOfParts(y: string, m: string, d: string)
    requires '-' !in y && '-' !in m && '-' !in d
    ensures Label(y + ['-'] + m + ['-'] + d) == m + ['/'] + d
  {
    assert y + ['-'] + m + ['-'] + d == y + ['-'] + (m + ['-'] + d);
    SplitAt(y, m + ['-'] + d, '-');
    SplitAt(m, d, '-');
    SplitNone(d, '-');
    var parts := [y, m, d];
    assert Split(y + ['-'] + m + ['-'] + d, '-') == parts;
    assert parts[1..] == [m, d] && [m, d][1..] == [d];
    assert Join([m, d], '/') == m + ['/'] + Join([d], '/');
  }

  /** `2024-01-07` is labelled `01/07`. */
  lemma LabelExample()
    ensures Label("2024-01-07") == "01/07"
  {
    assert "2024-01-07" == "2024" + ['-'] + "01" + ['-'] + "07";
    LabelOfParts("2024", "01", "07");
  }

  // ---------------------------------------------------------------------------
  // The seven-day series

  datatype Bucket = Bucket(name: string, spent: int, earned: int)

  /** The sum of the amounts of kind `k` dated exactly `date`. */
  function DaySum(xs: seq<Transaction>, date: string, k: Kind): int
  {
    Sum(Filter(xs, (e: Transaction) => e.date == date && e.kind == k))
  }

  function BucketFor(xs: seq<Transaction>, date: string): Bucket
  {
    Bucket(Label(date), DaySum(xs, date, Expense), DaySum(xs, date, Income))
  }

  /** One bucket per window date, in window order (`last7Days.map(...)`). */
  function ChartData(xs: seq<Transaction>, window: seq<string>): (r: seq<Bucket>)
    ensures |r| == |window|
  {
    seq(|window|, i requires 0 <= i < |window| => BucketFor(xs, window[i]))
  }

  /** The series for the seven days ending at `today`. */
  function WeekChart(xs: seq<Transaction>, today: Calendar.CivilDate): seq<Bucket>
    requires Calendar.Valid(today) && 1 <= today.year <= 9999
  {
    ChartData(xs, Calendar.LastSevenDays(today))
  }

  /**
    Seven buckets, oldest first and ending at today; each bucket's label is
    the month and day of its date and its amounts are that day's sums.
   */
  lemma WeekChartShape(xs: seq<Transaction>, today: Calendar.CivilDate)
    requires Calendar.Valid(today) && 1 <= today.year <= 9999
    ensures var w, r := Calendar.LastSevenDays(today), WeekChart(xs, today);
      |r| == 7 &&
      r[6].name == Label(Calendar.Iso(today)) &&
      forall i :: 0 <= i < 7 ==>
        r[i].name == w[i][5..7] + "/" + w[i][8..10] &&
        r[i].spent == DaySum(xs, w[i], Expense) && r[i].earned == DaySum(xs, w[i], Income)
  {
    var w := Calendar.LastSevenDays(today);
    Calendar.LastSevenDaysShape(today);
    forall i | 0 <= i < 7 ensures Label(w[i]) == w[i][5..7] + "/" + w[i][8..10] {
      LabelOfIsoDate(w[i]);
    }
  }

  /** A record dated outside the window changes no bucket. */
  lemma ChartIgnoresOutside(xs: seq<Transaction>, x: Transaction, window: seq<string>)
    requires x.date !in window
    ensures ChartData(xs + [x], window) == ChartData(xs, window)
  {
    forall i, k | 0 <= i < |window|
      ensures DaySum(xs + [x], window[i], k) == DaySum(xs, window[i], k)
    {
      var p := (e: Transaction) => e.date == window[i] && e.kind == k;
      FilterAppend(xs, [x], p);
      assert Filter([x], p) == [];
      assert Filter(xs, p) + [] == Filter(xs, p);
    }
  }

  /** The total of one kind over a list of buckets. */
  function BucketTotal(bs: seq<Bucket>, k: Kind): int
  {
    if bs == [] then 0
    else BucketTotal(bs[..|bs| - 1], k) + (if k == Expense then bs[|bs| - 1].spent else bs[|bs| - 1].earned)
  }

  /** The amounts of kind `k` dated on one of the window dates. */
  function WindowTotal(xs: seq<Transaction>, window: seq<string>, k: Kind): int
  {
    Sum(Filter(xs, (e: Transaction) => e.kind == k && e.date in window))
  }

  /**
    With distinct window dates every in-window record counts in exactly one
    bucket: the buckets add up to the in-window total.
   */
  lemma {:induction false} ChartPartition(xs: seq<Transaction>, window: seq<string>, k: Kind)
    requires forall i, j :: 0 <= i < j < |window| ==> window[i] != window[j]
    ensures BucketTotal(ChartData(xs, window), k) == WindowTotal(xs, window, k)
  {
    if window == [] {
      FilterCongruent(xs, (e: Transaction) => e.kind == k && e.date in window, (e: Transaction) => false);
      FilterNone(xs);
    } else {
      var n := |window|;
      var w', d := window[..n - 1], window[n - 1];
      ChartPartition(xs, w', k);
      assert ChartData(xs, window)[..n - 1] == ChartData(xs, w');
      assert d !in w';
      SumFilterDisjoint(xs,
        (e: Transaction) => e.kind == k && e.date in w',
        (e: Transaction) => e.date == d && e.kind == k,
        (e: Transaction) => e.kind == k && e.date in window);
    }
  }

  lemma {:induction false} FilterNone(xs: seq<Transaction>)
    ensures Sum(Filter(xs, (e: Transaction) => false)) == 0
  {
    if xs != [] {
      var init := xs[..|xs| - 1];
      FilterNone(init);
      var f := Filter(init, (e: Transaction) => false);
      assert Filter(xs, (e: Transaction) => false) == f + [] == f;
    }
  }

  /** The same for the seven-day window: its dates are distinct. */
  lemma WeekChartPartition(xs: seq<Transaction>, today: Calendar.CivilDate, k: Kind)
    requires Calendar.Valid(today) && 1 <= today.year <= 9999
    ensures BucketTotal(WeekChart(xs, today), k) == WindowTotal(xs, Calendar.LastSevenDays(today), k)
  {
    Calendar.LastSevenDaysShape(today);
    ChartPartition(xs, Calendar.LastSevenDays(today), k);
  }

  // ---------------------------------------------------------------------------
  // Category totals

  datatype Entry = Entry(name: Category, value: int)

  /** The categories of `ys` in order of first occurrence (the object's key order). */
  function FirstSeen(ys: seq<Transaction>): (cs: seq<Category>)
    ensures forall i, j :: 0 <= i < j < |cs| ==> cs[i] != cs[j]
  {
    if ys == [] then []
    else
      var cs := FirstSeen(ys[..|ys| - 1]);
      if ys[|ys| - 1].category in cs then cs else cs + [ys[|ys| - 1].category]
  }

  /** A category is listed exactly when some record has it. */
  lemma {:induction false} FirstSeenMembers(ys: seq<Transaction>, c: Category)
    ensures c in FirstSeen(ys) <==> exists e :: e in ys && e.category == c
  {
    if ys != [] {
      var init, x := ys[..|ys| - 1], ys[|ys| - 1];
      FirstSeenMembers(init, c);
      assert ys == init + [x];
      assert forall e :: e in ys <==> e in init || e == x;
    }
  }

  /** The amounts of the records of `ys` in category `c`. */
  function CategorySum(ys: seq<Transaction>, c: Category): int
  {
    Sum(Filter(ys, (e: Transaction) => e.category == c))
  }

  /** The total of the expense records of category `c` in the whole list. */
  function ExpenseTotalOf(xs: seq<Transaction>, c: Category): int
  {
    Sum(Filter(xs, (e: Transaction) => e.kind == Expense && e.category == c))
  }

  function IsExpense(e: Transaction): bool
  {
    e.kind == Expense
  }

  /** `categoryData`: one entry per category of the expense records, in first-occurrence order. */
  function CategoryData(xs: seq<Transaction>): seq<Entry>
  {
    var ys := Filter(xs, IsExpense);
    var cs := FirstSeen(ys);
    seq(|cs|, k requires 0 <= k < |cs| => Entry(cs[k], CategorySum(ys, cs[k])))
  }

  /**
    Computes `categoryData` the way the dashboard does: a dictionary updated
    record by record in a `forEach`, then its entries in key-insertion order.
   */
  method CategoryTotals(xs: seq<Transaction>) returns (entries: seq<Entry>)
    ensures entries == CategoryData(xs)
  {
    var categories, keys := Tabulate(Filter(xs, IsExpense));
    entries := seq(|keys|, k requires 0 <= k < |keys| => Entry(keys[k], categories[keys[k]]));
    assert forall k :: 0 <= k < |keys| ==> entries[k] == CategoryData(xs)[k];
  }

  /**
    The `forEach` over the expense records: each adds its amount to its
    category's entry, creating the entry (after the existing keys) if absent.
   */
  method Tabulate(ys: seq<Transaction>) returns (categories: map<Category, int>, keys: seq<Category>)
    ensures Tally(ys, categories, keys)
  {
    categories, keys := map[], [];
    var i := 0;
    ghost var seen: seq<Transaction> := [];
    while i < |ys|
      invariant 0 <= i <= |ys|
      invariant seen == ys[..i]
      invariant Tally(seen, categories, keys)
    {
      var e := ys[i];
      TallyAppend(seen, e, categories, keys);
      categories, keys := Bump(categories, e.category, e.amount), AddKey(keys, e.category);
      PrefixStep(ys, i);
      seen := seen + [e];
      i := i + 1;
    }
    assert seen == ys;
  }

  /** One more element of a prefix. */
  lemma PrefixStep(ys: seq<Transaction>, i: nat)
    requires i < |ys|
    ensures ys[..i + 1] == ys[..i] + [ys[i]]
  {
  }

  /** `categories[c] = (categories[c] || 0) + amount` */
  function Bump(categories: map<Category, int>, c: Category, amount: int): map<Category, int>
  {
    categories[c := (if c in categories then categories[c] else 0) + amount]
  }

  /** The object's key order: a key is appended when it is first assigned. */
  function AddKey(keys: seq<Category>, c: Category): seq<Category>
  {
    if c in keys then keys else keys + [c]
  }

  /** The dictionary and its key order after the records `ys`. */
  ghost predicate Tally(ys: seq<Transaction>, categories: map<Category, int>, keys: seq<Category>)
  {
    keys == FirstSeen(ys) &&
    (forall c :: c in categories <==> c in keys) &&
    (forall c :: c in categories ==> categories[c] == CategorySum(ys, c))
  }

  /** One `forEach` step keeps the dictionary and its key order in step with the records seen. */
  lemma TallyAppend(pre: seq<Transaction>, x: Transaction, categories: map<Category, int>, keys: seq<Category>)
    requires Tally(pre, categories, keys)
    ensures Tally(pre + [x], Bump(categories, x.category, x.amount), AddKey(keys, x.category))
  {
    var m, k := Bump(categories, x.category, x.amount), AddKey(keys, x.category);
    FirstSeenAppend(pre, x);
    assert k == FirstSeen(pre + [x]);
    assert forall c :: c in m <==> c in k;
    TallyValuesAppend(pre, x, categories);
  }

  /** The key order after one more record: its category is added if it is new. */
  lemma FirstSeenAppend(pre: seq<Transaction>, x: Transaction)
    ensures FirstSeen(pre + [x]) ==
      if x.category in FirstSeen(pre) then FirstSeen(pre) else FirstSeen(pre) + [x.category]
  {
    assert (pre + [x])[..|pre|] == pre;
  }

  /** The dictionary values after one more record are its category sums. */
  lemma TallyValuesAppend(pre: seq<Transaction>, x: Transaction, categories: map<Category, int>)
    requires forall c :: c in categories <==> c in FirstSeen(pre)
    requires forall c :: c in categories ==> categories[c] == CategorySum(pre, c)
    ensures var m := Bump(categories, x.category, x.amount);
      forall d :: d in m ==> m[d] == CategorySum(pre + [x], d)
  {
    var c := x.category;
    var m := Bump(categories, c, x.amount);
    if c !in categories {
      CategorySumUnseen(pre, c);
    }
    forall d | d in m ensures m[d] == CategorySum(pre + [x], d) {
      CategorySumStep(pre, x, d);
    }
  }

  /** A category that does not occur in `ys` totals zero. */
  lemma CategorySumUnseen(ys: seq<Transaction>, c: Category)
    requires c !in FirstSeen(ys)
    ensures CategorySum(ys, c) == 0
  {
    FirstSeenMembers(ys, c);
    FilterEmpty(ys, (e: Transaction) => e.category == c);
  }

  /** One more record adds its amount to its own category only. */
  lemma CategorySumStep(pre: seq<Transaction>, x: Transaction, c: Category)
    ensures CategorySum(pre + [x], c) == CategorySum(pre, c) + (if x.category == c then x.amount else 0)
  {
    var p := (e: Transaction) => e.category == c;
    FilterAppend(pre, [x], p);
    SumAppend(Filter(pre, p), Filter([x], p));
  }

  /** `totalSpent`: the sum of the entry values. */
  function TotalSpent(entries: seq<Entry>): int
  {
    if entries == [] then 0 else TotalSpent(entries[..|entries| - 1]) + entries[|entries| - 1].value
  }

  /** An entry appears exactly for the categories that have an expense record. */
  lemma CategoryDataNames(xs: seq<Transaction>, c: Category)
    ensures (exists k :: 0 <= k < |CategoryData(xs)| && CategoryData(xs)[k].name == c) <==>
            (exists e :: e in xs && e.kind == Expense && e.category == c)
    ensures forall i, j :: 0 <= i < j < |CategoryData(xs)| ==> CategoryData(xs)[i].name != CategoryData(xs)[j].name
  {
    var ys := Filter(xs, IsExpense);
    var cs := FirstSeen(ys);
    FirstSeenMembers(ys, c);
    if exists e :: e in xs && e.kind == Expense && e.category == c {
      var e :| e in xs && e.kind == Expense && e.category == c;
      assert e in ys;
      assert c in cs;
      var k :| 0 <= k < |cs| && cs[k] == c;
      assert CategoryData(xs)[k].name == c;
    }
    if exists k :: 0 <= k < |CategoryData(xs)| && CategoryData(xs)[k].name == c {
      var k :| 0 <= k < |CategoryData(xs)| && CategoryData(xs)[k].name == c;
      assert cs[k] == c;
      var e :| e in ys && e.category == c;
      assert e in xs && e.kind == Expense;
    }
  }

  /** Each entry's value is the total of the expense records of its category. */
  lemma CategoryDataValues(xs: seq<Transaction>)
    ensures forall k :: 0 <= k < |CategoryData(xs)| ==>
      CategoryData(xs)[k].value == ExpenseTotalOf(xs, CategoryData(xs)[k].name)
  {
    var ys := Filter(xs, IsExpense);
    forall k | 0 <= k < |CategoryData(xs)|
      ensures CategoryData(xs)[k].value == ExpenseTotalOf(xs, CategoryData(xs)[k].name)
    {
      CategorySumOfExpenses(xs, FirstSeen(ys)[k]);
    }
  }

  /** Summing one category over the expense records is that category's expense total. */
  lemma CategorySumOfExpenses(xs: seq<Transaction>, d: Category)
    ensures CategorySum(Filter(xs, IsExpense), d) == ExpenseTotalOf(xs, d)
  {
    var inCat := (e: Transaction) => e.category == d;
    var both := (e: Transaction) => e.kind == Expense && e.category == d;
    assert CategorySum(Filter(xs, IsExpense), d) == Sum(Filter(Filter(xs, IsExpense), inCat));
    assert ExpenseTotalOf(xs, d) == Sum(Filter(xs, both));
    FilterFilter(xs, IsExpense, inCat, both);
  }

  /** Income records never reach the category totals, whatever their category. */
  lemma CategoryDataIgnoresIncome(xs: seq<Transaction>, x: Transaction)
    requires x.kind == Income
    ensures CategoryData(xs + [x]) == CategoryData(xs)
  {
    FilterAppend(xs, [x], IsExpense);
    assert Filter([x], IsExpense) == [];
    assert Filter(xs + [x], IsExpense) == Filter(xs, IsExpense);
  }

  /** The sum over a list of categories of their totals in `ys`. */
  function SumOverCategories(ys: seq<Transaction>, cs: seq<Category>): int
  {
    if cs == [] then 0 else SumOverCategories(ys, cs[..|cs| - 1]) + CategorySum(ys, cs[|cs| - 1])
  }

  lemma {:induction false} SumOverDistinctCategories(ys: seq<Transaction>, cs: seq<Category>)
    requires forall i, j :: 0 <= i < j < |cs| ==> cs[i] != cs[j]
    ensures SumOverCategories(ys, cs) == Sum(Filter(ys, (e: Transaction) => e.category in cs))
  {
    if cs == [] {
      FilterCongruent(ys, (e: Transaction) => e.category in cs, (e: Transaction) => false);
      FilterNone(ys);
    } else {
      var n := |cs|;
      var cs', c := cs[..n - 1], cs[n - 1];
      SumOverDistinctCategories(ys, cs');
      assert c !in cs';
      SumFilterDisjoint(ys,
        (e: Transaction) => e.category in cs',
        (e: Transaction) => e.category == c,
        (e: Transaction) => e.category in cs);
    }
  }

  lemma {:induction false} FilterAll(xs: seq<Transaction>)
    ensures Filter(xs, (e: Transaction) => true) == xs
  {
    if xs != [] {
      FilterAll(xs[..|xs| - 1]);
    }
  }

  lemma {:induction false} TotalSpentOfEntries(ys: seq<Transaction>, cs: seq<Category>, entries: seq<Entry>)
    requires |entries| == |cs|
    requires forall k :: 0 <= k < |cs| ==> entries[k] == Entry(cs[k], CategorySum(ys, cs[k]))
    ensures TotalSpent(entries) == SumOverCategories(ys, cs)
  {
    if cs != [] {
      TotalSpentOfEntries(ys, cs[..|cs| - 1], entries[..|entries| - 1]);
    }
  }

  /** `totalSpent` equals the total of all expense records. */
  lemma TotalSpentIsExpenseTotal(xs: seq<Transaction>)
    ensures TotalSpent(CategoryData(xs)) == TotalOf(xs, Expense)
  {
    var ys := Filter(xs, IsExpense);
    var cs := FirstSeen(ys);
    TotalSpentOfEntries(ys, cs, CategoryData(xs));
    SumOverDistinctCategories(ys, cs);
    forall e | e in ys ensures e.category in cs {
      FirstSeenMembers(ys, e.category);
    }
    FilterCongruent(ys, (e: Transaction) => e.category in cs, (e: Transaction) => true);
    FilterAll(ys);
    FilterCongruent(xs, IsExpense, (e: Transaction) => e.kind == Expense);
  }
}
