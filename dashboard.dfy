/** The three dashboard cards of DashboardCards.tsx: total income, total
    expense and their difference, the profit. */
module DashboardCards {
  import opened Types
  import opened Seqs

  function AmountOf(t: Transaction): int { t.amount }

  predicate IsIncome(t: Transaction) { t.kind == Income }

  predicate IsExpense(t: Transaction) { t.kind == Expense }

  /** What a record adds to the income side: its amount if it is INCOME,
      0 otherwise. */
  function IncomeAmount(t: Transaction): int { if t.kind == Income then t.amount else 0 }

  /** What a record adds to the outflow side: every record that is not
      INCOME lands here. */
  function OutflowAmount(t: Transaction): int { if t.kind == Income then 0 else t.amount }

  /** `totalIncome`: the INCOME records, their amounts added up. This is
      the sum over every record of its income side. */
  function TotalIncome(ts: seq<Transaction>): (r: int)
    ensures r == Total(ts, IncomeAmount)
  {
    IncomeWeightsMatch(ts);
    Total(Filter(ts, IsIncome), AmountOf)
  }

  /** `totalExpense`: the EXPENSE records, their amounts added up. As every
      record that is not INCOME is EXPENSE, this is the sum over every
      record of its outflow side. */
  function TotalExpense(ts: seq<Transaction>): (r: int)
    ensures r == Total(ts, OutflowAmount)
  {
    OutflowWeightsMatch(ts);
    Total(Filter(ts, IsExpense), AmountOf)
  }

  /** Filtering the INCOME records and adding their amounts is adding the
      income side of every record. */
  lemma {:induction false} IncomeWeightsMatch(ts: seq<Transaction>)
    ensures Total(Filter(ts, IsIncome), AmountOf) == Total(ts, IncomeAmount)
    decreases |ts|
  {
    if ts != [] {
      var init, last := ts[..|ts| - 1], ts[|ts| - 1];
      assert ts == init + [last];
      var kept := Filter(init, IsIncome);
      calc {
        Total(ts, IncomeAmount);
        { TotalSnoc(init, last, IncomeAmount); }
        Total(init, IncomeAmount) + IncomeAmount(last);
        { IncomeWeightsMatch(init); }
        Total(kept, AmountOf) + IncomeAmount(last);
        { FilterSnoc(init, last, IsIncome); TotalSnoc(kept, last, AmountOf); }
        Total(Filter(init + [last], IsIncome), AmountOf);
      }
    }
  }

  /** Filtering the EXPENSE records and adding their amounts is adding the
      outflow side of every record. */
  lemma {:induction false} OutflowWeightsMatch(ts: seq<Transaction>)
    ensures Total(Filter(ts, IsExpense), AmountOf) == Total(ts, OutflowAmount)
    decreases |ts|
  {
    if ts != [] {
      var init, last := ts[..|ts| - 1], ts[|ts| - 1];
      assert ts == init + [last];
      var kept := Filter(init, IsExpense);
      calc {
        Total(ts, OutflowAmount);
        { TotalSnoc(init, last, OutflowAmount); }
        Total(init, OutflowAmount) + OutflowAmount(last);
        { OutflowWeightsMatch(init); }
        Total(kept, AmountOf) + OutflowAmount(last);
        { FilterSnoc(init, last, IsExpense); TotalSnoc(kept, last, AmountOf); }
        Total(Filter(init + [last], IsExpense), AmountOf);
      }
    }
  }

  datatype Totals = Totals(income: int, expense: int, profit: int)

  /** The values the three cards show: income and expense together account
      for every amount, and profit is income minus expense. */
  function Cards(ts: seq<Transaction>): (r: Totals)
    ensures r.income + r.expense == Total(ts, AmountOf)
    ensures r.profit == r.income - r.expense
  {
    IncomeAndExpenseCoverAll(ts);
    var income, expense := TotalIncome(ts), TotalExpense(ts);
    Totals(income, expense, income - expense)
  }

  /** With no transactions every card shows zero. */
  lemma CardsOfNothing()
    ensures Cards([]) == Totals(0, 0, 0)
  {
  }

  /** Every record is either income or expense, so the two totals together
      account for every amount exactly once. */
  lemma {:induction false} IncomeAndExpenseCoverAll(ts: seq<Transaction>)
    ensures TotalIncome(ts) + TotalExpense(ts) == Total(ts, AmountOf)
    decreases |ts|
  {
    if ts != [] {
      var init, last := ts[..|ts| - 1], ts[|ts| - 1];
      assert ts == init + [last];
      IncomeAndExpenseCoverAll(init);
      FilterSnoc(init, last, IsIncome);
      FilterSnoc(init, last, IsExpense);
      TotalSnoc(Filter(init, IsIncome), last, AmountOf);
      TotalSnoc(Filter(init, IsExpense), last, AmountOf);
      TotalSnoc(init, last, AmountOf);
    }
  }

  /** A record put in front of the list (as adding a transaction does)
      raises the total of its own kind by its amount and leaves the other
      total alone; profit moves by the amount, up for income and down for
      expense. */
  lemma PrependedRecordTotals(t: Transaction, ts: seq<Transaction>)
    ensures IsIncome(t) ==> TotalIncome([t] + ts) == TotalIncome(ts) + t.amount
    ensures IsIncome(t) ==> TotalExpense([t] + ts) == TotalExpense(ts)
    ensures IsExpense(t) ==> TotalExpense([t] + ts) == TotalExpense(ts) + t.amount
    ensures IsExpense(t) ==> TotalIncome([t] + ts) == TotalIncome(ts)
    ensures Cards([t] + ts).profit == Cards(ts).profit + (if IsIncome(t) then t.amount else -t.amount)
  {
    var income, expense := Filter(ts, IsIncome), Filter(ts, IsExpense);
    FilterConcat([t], ts, IsIncome);
    FilterConcat([t], ts, IsExpense);
    FilterSingle(t, IsIncome);
    FilterSingle(t, IsExpense);
    TotalSingle(t, AmountOf);
    if IsIncome(t) {
      assert Filter([t] + ts, IsIncome) == [t] + income;
      assert Filter([t] + ts, IsExpense) == expense;
      TotalConcat([t], income, AmountOf);
    } else {
      assert Filter([t] + ts, IsIncome) == income;
      assert Filter([t] + ts, IsExpense) == [t] + expense;
      TotalConcat([t], expense, AmountOf);
    }
  }

  /** The cards do not depend on the order of the list. */
  lemma CardsIgnoreOrder(a: seq<Transaction>, b: seq<Transaction>)
    requires multiset(a) == multiset(b)
    ensures Cards(a) == Cards(b)
  {
    FilterPermutation(a, b, IsIncome);
    FilterPermutation(a, b, IsExpense);
    TotalPermutation(Filter(a, IsIncome), Filter(b, IsIncome), AmountOf);
    TotalPermutation(Filter(a, IsExpense), Filter(b, IsExpense), AmountOf);
  }
}
