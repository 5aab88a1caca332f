/** The fixed data of constants.tsx: the staff names the form offers and
    the three seed records shown before anything is saved. */
module Constants {
  import opened Types
  import opened DashboardCards

  /** `USERS`, in the order the form lists them. */
  const Users: seq<string> := ["João Silva", "Maria Souza", "Admin"]

  /** `INITIAL_DATA`, dated `today`; amounts in cents. */
  function InitialData(today: string): seq<Transaction> {
    [ Transaction("1", today, "Banho e Tosa - Totó", 8500, Income, Bath, "João Silva", Some("Totó")),
      Transaction("2", today, "Ração Premier 15kg", 18000, Income, Products, "Maria Souza", Some("Rex")),
      Transaction("3", today, "Compra de Shampoos", 25000, Expense, Supplies, "João Silva", None) ]
  }

  /** The seed data shows R$ 265,00 in, R$ 250,00 out and R$ 15,00 profit. */
  lemma SeedCards(today: string)
    ensures Cards(InitialData(today)) == Totals(26500, 25000, 1500)
  {
    var ts := InitialData(today);
    var s2: seq<Transaction> := [ts[2]];
    var s1 := [ts[1]] + s2;
    assert ts == [ts[0]] + s1;
    assert TotalIncome(s2) == 0 && TotalExpense(s2) == 25000 by {
      CardsOfNothing();
      assert s2 == [ts[2]] + [];
      PrependedRecordTotals(ts[2], []);
    }
    assert TotalIncome(s1) == 18000 && TotalExpense(s1) == 25000 by {
      PrependedRecordTotals(ts[1], s2);
    }
    assert TotalIncome(ts) == 26500 && TotalExpense(ts) == 25000 by {
      PrependedRecordTotals(ts[0], s1);
    }
  }
}
