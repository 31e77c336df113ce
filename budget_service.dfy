/** The budget service: creating and listing a user's budgets, and the
    remaining-amount report that sums, budget by budget, the user's spending
    in the budget's category over the budget's inclusive date window. */
module BudgetService {
  import opened Common
  import opened Entities

  /** The validated body of a create-budget request. */
  datatype CreateBudgetRequest = CreateBudgetRequest(
    category: string, limitAmount: real, startDate: Timestamp, endDate: Timestamp)

  /** One entry of the remaining-amount report. */
  datatype BudgetSummary = BudgetSummary(
    category: string, limitAmount: real, spentAmount: real, remainingAmount: real)

  /** The budgets owned by `userId`, in store order. */
  function OwnedBudgets(budgets: seq<Budget>, userId: string): (r: seq<Budget>)
    ensures |r| <= |budgets|
    ensures forall b :: b in r <==> b in budgets && b.userId == userId
  {
    if budgets == [] then []
    else
      var init := budgets[..|budgets| - 1];
      var last := budgets[|budgets| - 1];
      assert budgets == init + [last];
      var rest := OwnedBudgets(init, userId);
      if last.userId == userId then rest + [last] else rest
  }

  /** The filter of the per-budget sum query: the user's transaction, in the
      budget's category, dated within [startDate, endDate] inclusive. */
  predicate CountsToward(t: Transaction, userId: string, b: Budget) {
    InWindow(t, userId, b.startDate, b.endDate) && t.category == b.category
  }

  /** The rows the per-budget `SUM(tx.amount)` ranges over. */
  function BudgetRows(txs: seq<Transaction>, userId: string, b: Budget): (r: seq<Transaction>)
    ensures |r| <= |txs|
    ensures forall t :: t in r <==> t in txs && CountsToward(t, userId, b)
  {
    if txs == [] then []
    else
      var init := txs[..|txs| - 1];
      var last := txs[|txs| - 1];
      assert txs == init + [last];
      var rest := BudgetRows(init, userId, b);
      if CountsToward(last, userId, b) then rest + [last] else rest
  }

  /** `Number(spent.total) || 0`: a NULL sum counts as zero. */
  function SpentAmount(total: Option<real>): (spent: real)
    ensures total.None? ==> spent == 0.0
    ensures total.Some? ==> spent == total.value
  {
    match total
    case None => 0.0
    case Some(v) => v
  }

  /** The report entry of one budget: its category and limit, the sum of
      the amounts of the user's transactions in its category and window as
      spent (a NULL sum and the sum of no rows agree), and the limit less
      that sum as remaining. */
  function SummaryOf(b: Budget, txs: seq<Transaction>, userId: string): (s: BudgetSummary)
    ensures s.category == b.category && s.limitAmount == b.limitAmount
    ensures s.spentAmount == Sum(BudgetRows(txs, userId, b))
    ensures s.remainingAmount == b.limitAmount - Sum(BudgetRows(txs, userId, b))
  {
    var spent := SpentAmount(SqlSum(BudgetRows(txs, userId, b)));
    BudgetSummary(b.category, b.limitAmount, spent, b.limitAmount - spent)
  }

  /** The budget and transaction tables the service reads and writes. */
  class BudgetStore {
    var budgets: seq<Budget>
    var transactions: seq<Transaction>

    constructor (budgets: seq<Budget>, transactions: seq<Transaction>)
      ensures this.budgets == budgets && this.transactions == transactions
    {
      this.budgets := budgets;
      this.transactions := transactions;
    }

    /** createBudget: saves a budget owned by `userId` with the request's
        fields; `id` is the key the store generates. */
    method CreateBudget(userId: string, dto: CreateBudgetRequest, id: string) returns (saved: Budget)
      modifies this`budgets
      ensures saved == Budget(id, userId, dto.category, dto.limitAmount, dto.startDate, dto.endDate)
      ensures budgets == old(budgets) + [saved]
    {
      saved := Budget(id, userId, dto.category, dto.limitAmount, dto.startDate, dto.endDate);
      budgets := budgets + [saved];
    }

    /** getBudgets: the budgets owned by `userId`, and only those. */
    method GetBudgets(userId: string) returns (r: seq<Budget>)
      ensures forall b :: b in r <==> b in budgets && b.userId == userId
      ensures |r| <= |budgets|
    {
      r := OwnedBudgets(budgets, userId);
    }

    /** getBudgetRemaining: one entry per budget of the user, in the order
        the budgets were fetched, each from its own sum query. `sumQueries`
        counts the sum queries issued. */
    method GetBudgetRemaining(userId: string) returns (summaries: seq<BudgetSummary>, sumQueries: nat)
      ensures var owned := OwnedBudgets(budgets, userId);
              && |summaries| == |owned| == sumQueries
              && forall k :: 0 <= k < |owned| ==> summaries[k] == SummaryOf(owned[k], transactions, userId)
      ensures forall k :: 0 <= k < |summaries| ==>
                summaries[k].remainingAmount == summaries[k].limitAmount - summaries[k].spentAmount
    {
      var owned := OwnedBudgets(budgets, userId);
      summaries := [];
      sumQueries := 0;
      for i := 0 to |owned|
        invariant |summaries| == i == sumQueries
        invariant forall k :: 0 <= k < i ==> summaries[k] == SummaryOf(owned[k], transactions, userId)
      {
        var budget := owned[i];
        var spent := SqlSum(BudgetRows(transactions, userId, budget));
        sumQueries := sumQueries + 1;
        var spentAmount := SpentAmount(spent);
        summaries := summaries + [BudgetSummary(budget.category, budget.limitAmount, spentAmount,
                                                budget.limitAmount - spentAmount)];
      }
    }
  }

  // ---- what an entry means ----

  /** With no matching transaction the budget is untouched: nothing spent,
      the whole limit remaining. */
  lemma NothingMatchingLeavesLimit(b: Budget, txs: seq<Transaction>, userId: string)
    requires forall t :: t in txs ==> !CountsToward(t, userId, b)
    ensures SummaryOf(b, txs, userId).spentAmount == 0.0
    ensures SummaryOf(b, txs, userId).remainingAmount == b.limitAmount
  {
    var rows := BudgetRows(txs, userId, b);
    assert forall k :: 0 <= k < |rows| ==> rows[k] in rows;
  }

  lemma {:induction false} BudgetRowsAppend(a: seq<Transaction>, c: seq<Transaction>, userId: string, b: Budget)
    ensures BudgetRows(a + c, userId, b) == BudgetRows(a, userId, b) + BudgetRows(c, userId, b)
    decreases |c|
  {
    if c == [] {
      assert a + c == a;
    } else {
      var c' := c[..|c| - 1];
      assert (a + c)[..|a + c| - 1] == a + c';
      BudgetRowsAppend(a, c', userId, b);
    }
  }

  /** A transaction of another user, of another category or outside the
      window never changes a budget's entry, wherever it sits in the table. */
  lemma OthersNeverCount(a: seq<Transaction>, t: Transaction, c: seq<Transaction>, userId: string, b: Budget)
    requires !CountsToward(t, userId, b)
    ensures SummaryOf(b, a + [t] + c, userId) == SummaryOf(b, a + c, userId)
  {
    BudgetRowsAppend(a + [t], c, userId, b);
    BudgetRowsAppend(a, [t], userId, b);
    BudgetRowsAppend(a, c, userId, b);
    assert BudgetRows([t], userId, b) == [] by {
      assert [t][..0] == [];
    }
  }

  /** A matching transaction adds exactly its amount to the spent amount and
      takes it off the remaining amount. */
  lemma MatchingAddsItsAmount(txs: seq<Transaction>, t: Transaction, userId: string, b: Budget)
    requires CountsToward(t, userId, b)
    ensures SummaryOf(b, txs + [t], userId).spentAmount == SummaryOf(b, txs, userId).spentAmount + t.amount
    ensures SummaryOf(b, txs + [t], userId).remainingAmount == SummaryOf(b, txs, userId).remainingAmount - t.amount
  {
    assert (txs + [t])[..|txs|] == txs;
    SumAppend(BudgetRows(txs, userId, b), [t]);
    assert Sum([t]) == t.amount by {
      assert [t][..0] == [];
    }
  }

  /** The report of the two-budget example: Food 1000 with 250.75 spent in
      its window, Travel 300 with nothing spent in its window. */
  lemma RemainingExample(food: Budget, travel: Budget, tx: Transaction, userId: string)
    requires food.userId == userId && food.category == "Food" && food.limitAmount == 1000.0
    requires travel.userId == userId && travel.category == "Travel" && travel.limitAmount == 300.0
    requires tx.userId == Some(userId) && tx.category == "Food" && tx.amount == 250.75
    requires food.startDate <= tx.date <= food.endDate
    ensures SummaryOf(food, [tx], userId) == BudgetSummary("Food", 1000.0, 250.75, 749.25)
    ensures SummaryOf(travel, [tx], userId) == BudgetSummary("Travel", 300.0, 0.0, 300.0)
  {
    assert [tx][..0] == [];
    assert CountsToward(tx, userId, food) && !CountsToward(tx, userId, travel);
    assert BudgetRows([tx], userId, food) == [tx];
    assert Sum([tx]) == 250.75;
    assert BudgetRows([tx], userId, travel) == [];
  }
}
