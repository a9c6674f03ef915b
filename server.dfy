/**
  The local REST back end over an SQLite file: an `expenses` table keyed by
  a text id and a `profile` table that may only hold the row with id 1.
  Each route handler is a method; a statement SQLite rejects (a NOT NULL or
  PRIMARY KEY violation) makes the handler throw, which the web framework
  answers with status 500, and the table is left as it was.
 */
module Server {
  import opened Types
  import opened Order

  /** A stored expense row; the text columns hold whatever the client sent. */
  datatype Row = Row(id: string, amount: int, category: string, description: string, date: string, kind: string)

  datatype ProfileRow = ProfileRow(id: int, name: string, currency: string, monthlyBudget: int)

  /** The row the start-up script seeds: `User`, `$`, 3000 (in cents). */
  const DefaultProfileRow := ProfileRow(1, "User", "$", 300000)

  /** A request body; a field the client left out binds as NULL. */
  datatype Body = Body(
    amount: Option<int>, category: Option<string>, description: Option<string>,
    date: Option<string>, kind: Option<string>)
  {
    predicate Complete()
    {
      amount.Some? && category.Some? && description.Some? && date.Some? && kind.Some?
    }

    /** The row these five values make under `id`. */
    function RowFor(id: string): (r: Row)
      requires Complete()
      ensures r.id == id && Some(r.amount) == amount && Some(r.category) == category
      ensures Some(r.description) == description && Some(r.date) == date && Some(r.kind) == kind
    {
      Row(id, amount.value, category.value, description.value, date.value, kind.value)
    }
  }

  function RowId(r: Row): string
  {
    r.id
  }

  /** `ORDER BY date DESC`: `a` may come before `b` when its date is not smaller. */
  predicate DateDescending(a: Row, b: Row)
  {
    LexLe(b.date, a.date)
  }

  lemma DateDescendingTotalPreorder()
    ensures TotalPreorder(DateDescending)
  {
    forall a: Row, b: Row ensures DateDescending(a, b) || DateDescending(b, a) {
      LexLeTotal(a.date, b.date);
    }
    forall a: Row, b: Row, c: Row | DateDescending(a, b) && DateDescending(b, c)
      ensures DateDescending(a, c)
    {
      LexLeTransitive(c.date, b.date, a.date);
    }
  }

  /** Every stored row sits under its own id. */
  predicate KeyedById(t: map<string, Row>)
  {
    forall k :: k in t ==> t[k].id == k
  }

  /**
    The profile table holds at most the row with id 1 (`CHECK (id = 1)`);
    with that row present it holds exactly one row.
   */
  predicate ProfileTable(p: map<int, ProfileRow>)
  {
    (forall k :: k in p ==> k == 1) && (1 in p ==> p[1].id == 1)
  }

  class ExpenseServer {
    var expenses: map<string, Row>
    var profile: map<int, ProfileRow>

    ghost predicate Valid()
      reads this
    {
      KeyedById(expenses) && ProfileTable(profile) && 1 in profile
    }

    /**
      Opening the database file with the tables it already has, then running
      the start-up script: the profile row is seeded only if it is absent.
     */
    constructor (storedExpenses: map<string, Row>, storedProfile: map<int, ProfileRow>)
      requires KeyedById(storedExpenses) && ProfileTable(storedProfile)
      ensures Valid()
      ensures expenses == storedExpenses
      ensures profile == if 1 in storedProfile then storedProfile else storedProfile[1 := DefaultProfileRow]
    {
      expenses := storedExpenses;
      profile := storedProfile;
      new;
      SeedProfile();
    }

    /** `INSERT OR IGNORE` of the default profile row. */
    method SeedProfile()
      requires ProfileTable(profile)
      modifies this
      ensures ProfileTable(profile) && 1 in profile
      ensures profile == if 1 in old(profile) then old(profile) else old(profile)[1 := DefaultProfileRow]
      ensures expenses == old(expenses)
    {
      if 1 !in profile {
        profile := profile[1 := DefaultProfileRow];
      }
    }

    /** `GET /api/expenses`: every row once, newest date first. */
    method ListExpenses() returns (rows: seq<Row>)
      requires Valid()
      ensures |rows| == |expenses|
      ensures forall i :: 0 <= i < |rows| ==> rows[i].id in expenses && expenses[rows[i].id] == rows[i]
      ensures forall i, j :: 0 <= i < j < |rows| ==> rows[i].id != rows[j].id
      ensures forall i, j :: 0 <= i < j < |rows| ==> LexLe(rows[j].date, rows[i].date)
    {
      DateDescendingTotalPreorder();
      rows := OrderedValues(expenses, RowId, DateDescending);
    }

    /**
      `POST /api/expenses` with the id the server drew at random. A missing
      field or an id already taken is rejected (500); otherwise the row is
      inserted and returned with status 201.
     */
    method Create(body: Body, freshId: string) returns (status: int, created: Option<Row>)
      requires Valid()
      modifies this
      ensures Valid() && profile == old(profile)
      ensures !body.Complete() || freshId in old(expenses) ==>
        status == 500 && created == None && expenses == old(expenses)
      ensures body.Complete() && freshId !in old(expenses) ==>
        status == 201 && created == Some(body.RowFor(freshId)) &&
        expenses == old(expenses)[freshId := body.RowFor(freshId)]
    {
      if !body.Complete() || freshId in expenses {
        return 500, None;
      }
      var row := body.RowFor(freshId);
      expenses := expenses[freshId := row];
      return 201, Some(row);
    }

    /**
      `PUT /api/expenses/:id`. An unknown id matches no row, so nothing is
      written and the answer is 404, whatever the body. On a stored row a
      missing field violates NOT NULL (500); otherwise the five columns are
      overwritten and the row is returned with status 200.
     */
    method Update(id: string, body: Body) returns (status: int, updated: Option<Row>)
      requires Valid()
      modifies this
      ensures Valid() && profile == old(profile)
      ensures id !in old(expenses) ==> status == 404 && updated == None && expenses == old(expenses)
      ensures id in old(expenses) && !body.Complete() ==>
        status == 500 && updated == None && expenses == old(expenses)
      ensures id in old(expenses) && body.Complete() ==>
        status == 200 && updated == Some(body.RowFor(id)) &&
        expenses == old(expenses)[id := body.RowFor(id)]
    {
      if id !in expenses {
        return 404, None;
      }
      if !body.Complete() {
        return 500, None;
      }
      var row := body.RowFor(id);
      expenses := expenses[id := row];
      return 200, Some(row);
    }

    /** `DELETE /api/expenses/:id`: the row goes if it was there; the answer is 204 either way. */
    method Delete(id: string) returns (status: int)
      requires Valid()
      modifies this
      ensures Valid() && profile == old(profile)
      ensures status == 204 && expenses == old(expenses) - {id}
    {
      expenses := expenses - {id};
      return 204;
    }

    /** `GET /api/profile`: the row with id 1. */
    method GetProfile() returns (p: ProfileRow)
      requires Valid()
      ensures p == profile[1] && p.id == 1
    {
      p := profile[1];
    }
  }

  /** Deleting twice leaves the same table as deleting once. */
  lemma DeleteTwice(t: map<string, Row>, id: string)
    ensures (t - {id}) - {id} == t - {id}
    ensures id !in t ==> t - {id} == t
  {
  }
}
