/**
  The client's data service over the hosted store, with the store taken as
  abstract tables: expense rows keyed by id, each tagged with its owner,
  and the rows of the `profiles` table. Whether a store call fails is a
  parameter of each operation, as are the ids the store generates and the
  column defaults it fills in. A thrown error is `Err` / `Fail`.
 */
module Api {
  import opened Types
  import opened Order

  /** An expense row: the record plus the `user_id` column. */
  datatype StoredExpense = StoredExpense(record: Transaction, userId: string)

  /** A `profiles` row; `id` is the primary key, zero standing for a falsy key. */
  datatype ProfileRecord = ProfileRecord(id: int, name: string, currency: string, monthlyBudget: int)

  /** `Partial<UserProfile>`: the fields the caller wants changed. */
  datatype ProfileUpdates = ProfileUpdates(name: Option<string>, currency: Option<string>, monthlyBudget: Option<int>)

  /** The object sent to the store; an absent field is left out of the request. */
  datatype DbUpdates = DbUpdates(name: Option<string>, currency: Option<string>, monthly_budget: Option<int>)

  /** `dbUpdates`: `name` and `currency` as given, `monthlyBudget` renamed to `monthly_budget`. */
  function ToDbUpdates(u: ProfileUpdates): (d: DbUpdates)
    ensures d.name == u.name && d.currency == u.currency && d.monthly_budget == u.monthlyBudget
  {
    DbUpdates(u.name, u.currency, u.monthlyBudget)
  }

  /** A row read back as a profile: `monthly_budget` becomes `monthlyBudget`. */
  function ToUserProfile(row: ProfileRecord): (p: UserProfile)
    ensures p.name == row.name && p.currency == row.currency && p.monthlyBudget == row.monthlyBudget
  {
    UserProfile(row.name, row.currency, row.monthlyBudget)
  }

  /**
    `getProfile` on the rows of the table: `maybeSingle` yields the row when
    there is exactly one, and nothing when there is none, when there are
    several (an error) or when the query fails; nothing gives the default.
   */
  function ProfileFromQuery(rows: seq<ProfileRecord>, fails: bool): (p: UserProfile)
    ensures !fails && |rows| == 1 ==> p == ToUserProfile(rows[0])
    ensures fails || |rows| != 1 ==> p == DefaultProfile
  {
    if !fails && |rows| == 1 then ToUserProfile(rows[0]) else DefaultProfile
  }

  /** An update writes the fields present in the request and keeps the others. */
  function Apply(row: ProfileRecord, d: DbUpdates): (r: ProfileRecord)
    ensures r.id == row.id
    ensures r.name == (if d.name.Some? then d.name.value else row.name)
    ensures r.currency == (if d.currency.Some? then d.currency.value else row.currency)
    ensures r.monthlyBudget == (if d.monthly_budget.Some? then d.monthly_budget.value else row.monthlyBudget)
  {
    ProfileRecord(
      row.id,
      if d.name.Some? then d.name.value else row.name,
      if d.currency.Some? then d.currency.value else row.currency,
      if d.monthly_budget.Some? then d.monthly_budget.value else row.monthlyBudget)
  }

  /** An insert takes the fields present in the request and the column defaults for the rest. */
  function NewRow(id: int, d: DbUpdates, defaults: ProfileRecord): ProfileRecord
  {
    Apply(ProfileRecord(id, defaults.name, defaults.currency, defaults.monthlyBudget), d)
  }

  /** Once a single row is saved with every field, loading the profile gives exactly those fields. */
  lemma SavedProfileLoads(row: ProfileRecord, u: ProfileUpdates)
    requires u.name.Some? && u.currency.Some? && u.monthlyBudget.Some?
    ensures ProfileFromQuery([Apply(row, ToDbUpdates(u))], false) ==
      UserProfile(u.name.value, u.currency.value, u.monthlyBudget.value)
  {
  }

  /** A second profile row hides both: loading falls back to the default. */
  lemma TwoRowsLoadDefault(a: ProfileRecord, b: ProfileRecord)
    ensures ProfileFromQuery([a, b], false) == DefaultProfile
  {
  }

  function StoredId(e: StoredExpense): string
  {
    e.record.id
  }

  /** `order('date', { ascending: false })` */
  predicate NewerFirst(a: StoredExpense, b: StoredExpense)
  {
    LexLe(b.record.date, a.record.date)
  }

  lemma NewerFirstTotalPreorder()
    ensures TotalPreorder(NewerFirst)
  {
    forall a: StoredExpense, b: StoredExpense ensures NewerFirst(a, b) || NewerFirst(b, a) {
      LexLeTotal(a.record.date, b.record.date);
    }
    forall a: StoredExpense, b: StoredExpense, c: StoredExpense | NewerFirst(a, b) && NewerFirst(b, c)
      ensures NewerFirst(a, c)
    {
      LexLeTransitive(c.record.date, b.record.date, a.record.date);
    }
  }

  class Store {
    var expenses: map<string, StoredExpense>
    var profiles: seq<ProfileRecord>
    var authUser: Option<string>

    ghost predicate Valid()
      reads this
    {
      forall k :: k in expenses ==> expenses[k].record.id == k
    }

    constructor (user: Option<string>)
      ensures Valid() && expenses == map[] && profiles == [] && authUser == user
    {
      expenses := map[];
      profiles := [];
      authUser := user;
    }

    /**
      `getExpenses`: every record once, newest date first; a failed query
      gives the empty list instead of an error.
     */
    method GetExpenses(fails: bool) returns (rows: seq<Transaction>)
      requires Valid()
      ensures fails ==> rows == []
      ensures !fails ==> |rows| == |expenses|
      ensures !fails ==> forall i :: 0 <= i < |rows| ==> rows[i].id in expenses && expenses[rows[i].id].record == rows[i]
      ensures forall i, j :: 0 <= i < j < |rows| ==> rows[i].id != rows[j].id
      ensures forall i, j :: 0 <= i < j < |rows| ==> LexLe(rows[j].date, rows[i].date)
    {
      if fails {
        return [];
      }
      NewerFirstTotalPreorder();
      var stored := OrderedValues(expenses, StoredId, NewerFirst);
      rows := seq(|stored|, i requires 0 <= i < |stored| => stored[i].record);
    }

    /**
      `addExpense`: without a signed-in user it throws `Not authenticated`
      and writes nothing. Otherwise the record is inserted under the id the
      store generates, tagged with the user's id, and returned; a failed
      insert throws and writes nothing.
     */
    method AddExpense(data: Draft, freshId: string, fails: bool) returns (r: Result<Transaction>)
      requires Valid()
      modifies this
      ensures Valid() && profiles == old(profiles) && authUser == old(authUser)
      ensures old(authUser).None? ==> r == Err("Not authenticated") && expenses == old(expenses)
      ensures old(authUser).Some? && (fails || freshId in old(expenses)) ==> r.Err? && expenses == old(expenses)
      ensures old(authUser).Some? && !fails && freshId !in old(expenses) ==>
        r == Ok(data.WithId(freshId)) &&
        expenses == old(expenses)[freshId := StoredExpense(data.WithId(freshId), old(authUser).value)]
    {
      if authUser.None? {
        return Err("Not authenticated");
      }
      if fails || freshId in expenses {
        return Err("insert rejected");
      }
      var record := data.WithId(freshId);
      expenses := expenses[freshId := StoredExpense(record, authUser.value)];
      return Ok(record);
    }

    /**
      `updateExpense`: the record's fields are overwritten and the row is
      returned; a failed call, or an id matching no row (`single` then finds
      nothing), throws and writes nothing.
     */
    method UpdateExpense(id: string, data: Draft, fails: bool) returns (r: Result<Transaction>)
      requires Valid()
      modifies this
      ensures Valid() && profiles == old(profiles) && authUser == old(authUser)
      ensures fails || id !in old(expenses) ==> r.Err? && expenses == old(expenses)
      ensures !fails && id in old(expenses) ==>
        r == Ok(data.WithId(id)) &&
        expenses == old(expenses)[id := StoredExpense(data.WithId(id), old(expenses)[id].userId)]
    {
      if fails || id !in expenses {
        return Err("update rejected");
      }
      var record := data.WithId(id);
      expenses := expenses[id := StoredExpense(record, expenses[id].userId)];
      return Ok(record);
    }

    /** `deleteExpense`: the row goes if it was there; a failed call throws and writes nothing. */
    method DeleteExpense(id: string, fails: bool) returns (r: Outcome)
      requires Valid()
      modifies this
      ensures Valid() && profiles == old(profiles) && authUser == old(authUser)
      ensures fails ==> r.Fail? && expenses == old(expenses)
      ensures !fails ==> r == Pass && expenses == old(expenses) - {id}
    {
      if fails {
        return Fail("delete rejected");
      }
      expenses := expenses - {id};
      return Pass;
    }

    /** `getProfile`: it never throws. */
    method GetProfile(fails: bool) returns (p: UserProfile)
      ensures p == ProfileFromQuery(profiles, fails)
      ensures !fails && |profiles| == 1 ==> p.monthlyBudget == profiles[0].monthlyBudget
    {
      p := ProfileFromQuery(profiles, fails);
    }

    /**
      `updateProfile`. A failed existence check (or several rows, which
      `maybeSingle` reports as an error) throws before any write. A row with
      a truthy id is updated in place and nothing is inserted; otherwise
      exactly one row is inserted. A failed write throws and writes nothing.
     */
    method UpdateProfile(
      u: ProfileUpdates, selectFails: bool, writeFails: bool, newId: int, defaults: ProfileRecord)
      returns (r: Outcome)
      modifies this
      ensures expenses == old(expenses) && authUser == old(authUser)
      ensures selectFails || |old(profiles)| > 1 ==> r.Fail? && profiles == old(profiles)
      ensures !selectFails && |old(profiles)| <= 1 && writeFails ==> r.Fail? && profiles == old(profiles)
      ensures !selectFails && |old(profiles)| == 1 && old(profiles)[0].id != 0 && !writeFails ==>
        r == Pass && profiles == [Apply(old(profiles)[0], ToDbUpdates(u))]
      ensures !selectFails && (old(profiles) == [] || (|old(profiles)| == 1 && old(profiles)[0].id == 0)) && !writeFails ==>
        r == Pass && profiles == old(profiles) + [NewRow(newId, ToDbUpdates(u), defaults)]
    {
      var d := ToDbUpdates(u);
      if selectFails || |profiles| > 1 {
        return Fail("profile lookup failed");
      }
      if writeFails {
        return Fail("profile write failed");
      }
      if |profiles| == 1 && profiles[0].id != 0 {
        profiles := [Apply(profiles[0], d)];
      } else {
        profiles := profiles + [NewRow(newId, d, defaults)];
      }
      return Pass;
    }
  }

  /**
    Saving a complete profile into an empty table and loading it back gives
    the saved fields: the insert branch and the read mapping agree.
   */
  lemma FirstSaveLoads(u: ProfileUpdates, newId: int, defaults: ProfileRecord)
    requires u.name.Some? && u.currency.Some? && u.monthlyBudget.Some?
    ensures ProfileFromQuery([NewRow(newId, ToDbUpdates(u), defaults)], false) ==
      UserProfile(u.name.value, u.currency.value, u.monthlyBudget.value)
  {
  }
}
