/** The persisted records (users, transactions, budgets) and the row
    selections and sums that the services ask the relational store for. */
module Entities {
  import opened Common

  /** `ETransactionType`: a transaction is either income or an expense. */
  datatype TransactionType = Income | Expense

  /** An instant, in milliseconds of local time. A value of a `date` column
      stands for the midnight instant of that day. */
  type Timestamp = int

  /** A user row. `pwdHash` holds the raw password: registration stores it
      as given and login compares it for equality. */
  datatype User = User(id: string, username: string, pwdHash: string)

  /** A transaction row. `userId` is the owner's id, or `None` when the row
      was saved with a null user. */
  datatype Transaction = Transaction(
    id: string,
    userId: Option<string>,
    amount: real,
    category: string,
    kind: TransactionType,
    date: Timestamp,
    note: Option<string>)

  /** A budget row: a spending limit for one category over the inclusive
      window [startDate, endDate]. */
  datatype Budget = Budget(
    id: string,
    userId: string,
    category: string,
    limitAmount: real,
    startDate: Timestamp,
    endDate: Timestamp)

  /** `tx.userId = :userId AND tx.date BETWEEN :start AND :end`; a row with a
      null user never equals a user id. */
  predicate InWindow(t: Transaction, userId: string, start: Timestamp, end: Timestamp) {
    t.userId == Some(userId) && start <= t.date <= end
  }

  /** The rows of `txs` that a query filtered by owner and date window
      returns, in store order. */
  function Within(txs: seq<Transaction>, userId: string, start: Timestamp, end: Timestamp): (r: seq<Transaction>)
    ensures |r| <= |txs|
    ensures forall t :: t in r <==> t in txs && InWindow(t, userId, start, end)
  {
    if txs == [] then []
    else
      var rest := Within(txs[..|txs| - 1], userId, start, end);
      var last := txs[|txs| - 1];
      assert txs == txs[..|txs| - 1] + [last];
      if InWindow(last, userId, start, end) then rest + [last] else rest
  }

  /** The sum of the amounts of `rows`, added left to right. */
  function Sum(rows: seq<Transaction>): real {
    if rows == [] then 0.0 else Sum(rows[..|rows| - 1]) + rows[|rows| - 1].amount
  }

  /** SQL `SUM(amount)`: NULL (here `None`) over no rows. */
  function SqlSum(rows: seq<Transaction>): (r: Option<real>)
    ensures r.None? <==> rows == []
    ensures r.Some? ==> r.value == Sum(rows)
  {
    if rows == [] then None else Some(Sum(rows))
  }

  lemma {:induction false} SumAppend(a: seq<Transaction>, b: seq<Transaction>)
    ensures Sum(a + b) == Sum(a) + Sum(b)
    decreases |b|
  {
    if b == [] {
      assert a + b == a;
    } else {
      var b' := b[..|b| - 1];
      assert (a + b)[..|a + b| - 1] == a + b';
      SumAppend(a, b');
    }
  }

  /** An empty window selects nothing, whatever the store holds. */
  lemma EmptyWindowSelectsNothing(txs: seq<Transaction>, userId: string, start: Timestamp, end: Timestamp)
    requires end < start
    ensures Within(txs, userId, start, end) == []
  {
  }
}
