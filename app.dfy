/** The transaction log of App.tsx: adding a record under a fresh id,
    deleting by id, the search box over the list, and what the dashboard
    tab is drawn from. The browser's `crypto.randomUUID()` is the caller's
    `freshId`, and saving to local storage is not modelled. */
module App {
  import opened Types
  import opened Seqs
  import opened Text
  import opened DashboardCards
  import opened FinancialChart
  import Form = TransactionForm

  /** The callback of `prev.filter(t => t.id !== id)`. */
  function Other(id: string): Transaction -> bool {
    (t: Transaction) => t.id != id
  }

  /** The list `deleteTransaction(id)` leaves: every record whose id is not
      `id`, in the original order. */
  function RemoveTransaction(ts: seq<Transaction>, id: string): (r: seq<Transaction>)
    ensures IsSubsequence(r, ts)
    ensures forall t | t in r :: t.id != id
    ensures forall t :: multiset(r)[t] == if t.id != id then multiset(ts)[t] else 0
  {
    FilterSatisfies(ts, Other(id));
    Filter(ts, Other(id))
  }

  /** Deleting twice is deleting once. */
  lemma DeleteIdempotent(ts: seq<Transaction>, id: string)
    ensures RemoveTransaction(RemoveTransaction(ts, id), id) == RemoveTransaction(ts, id)
  {
    FilterIdempotent(ts, Other(id));
  }

  /** Deleting the record just added under a fresh id gives back the list
      as it was. */
  lemma DeleteUndoesAdd(ts: seq<Transaction>, newT: NewTransaction, freshId: string)
    requires forall t | t in ts :: t.id != freshId
    ensures RemoveTransaction([WithId(newT, freshId)] + ts, freshId) == ts
  {
    FilterConcat([WithId(newT, freshId)], ts, Other(freshId));
    FilterSingle(WithId(newT, freshId), Other(freshId));
    FilterKeepsAll(ts, Other(freshId));
  }

  /** The test of `filteredTransactions`: the lower-cased term occurs in the
      lower-cased description, or the record has a pet name that is not
      the empty string (which is falsy) and the term occurs in it. */
  predicate MatchesSearch(t: Transaction, term: string)
    ensures MatchesSearch(t, term) <==>
      || (exists i :: OccursAt(Lower(t.description), Lower(term), i))
      || (t.petName.Some? && t.petName.value != "" && exists i :: OccursAt(Lower(t.petName.value), Lower(term), i))
  {
    || Contains(Lower(t.description), Lower(term))
    || (t.petName.Some? && t.petName.value != "" && Contains(Lower(t.petName.value), Lower(term)))
  }

  /** The search ignores case: a term matches the same records as its
      lower-cased form. */
  lemma SearchIgnoresCase(t: Transaction, term: string)
    ensures MatchesSearch(t, term) <==> MatchesSearch(t, Lower(term))
  {
    LowerIdempotent(term);
  }

  /** The test without the falsy check on the pet name picks out the same
      records: an empty pet name contains only the empty term, which the
      description contains too. */
  lemma MatchesSearchPlain(t: Transaction, term: string)
    ensures MatchesSearch(t, term) <==>
      || Contains(Lower(t.description), Lower(term))
      || (t.petName.Some? && Contains(Lower(t.petName.value), Lower(term)))
  {
    if t.petName.Some? && t.petName.value == "" && Contains(Lower(t.petName.value), Lower(term)) {
      ContainsEmpty(Lower(t.description));
    }
  }

  function Matching(term: string): Transaction -> bool {
    (t: Transaction) => MatchesSearch(t, term)
  }

  /** `filteredTransactions`: the records that match the term, in order. */
  function SearchTransactions(ts: seq<Transaction>, term: string): (r: seq<Transaction>)
    ensures IsSubsequence(r, ts)
    ensures forall t :: t in r <==> t in ts && MatchesSearch(t, term)
    ensures forall t :: multiset(r)[t] == if MatchesSearch(t, term) then multiset(ts)[t] else 0
  {
    var r := Filter(ts, Matching(term));
    assert forall t :: t in r <==> t in multiset(r);
    assert forall t :: t in ts <==> t in multiset(ts);
    r
  }

  /** An empty search lists every record. */
  lemma EmptySearchKeepsAll(ts: seq<Transaction>)
    ensures SearchTransactions(ts, "") == ts
  {
    forall t | t in ts
      ensures Matching("")(t)
    {
      ContainsEmpty(Lower(t.description));
    }
    FilterKeepsAll(ts, Matching(""));
  }

  /** What the dashboard tab draws: the cards and both charts. */
  datatype Dashboard = Dashboard(cards: Totals, chart: seq<DayPoint>, categories: seq<CategorySlice>)

  /** The dashboard tab is handed the full list. Its three views agree: the
      chart's daily income and outflow add up to the income and expense
      cards, and the category slices to both together. */
  function DashboardOf(ts: seq<Transaction>): (d: Dashboard)
    ensures Total(d.chart, Entrada) == d.cards.income
    ensures Total(d.chart, Saida) == d.cards.expense
    ensures Total(d.categories, SliceValue) == d.cards.income + d.cards.expense
    ensures d.cards.profit == d.cards.income - d.cards.expense
  {
    ChartTotalsMatchCards(ts);
    CategoryValuesAddUp(ts);
    IncomeAndExpenseCoverAll(ts);
    Dashboard(Cards(ts), ChartOf(ts), CategoryChartOf(ts))
  }

  /** The state App.tsx keeps: the records, the stock list and the search
      box's text. */
  class AppState {
    var transactions: seq<Transaction>
    var inventory: seq<InventoryItem>
    var searchTerm: string

    /** Every record has its own id, as fresh UUIDs guarantee. */
    predicate Valid()
      reads this
    {
      UniqueKeys(transactions, TransactionId)
    }

    /** The lists start as the saved ones (or the seed records and no
        stock), with an empty search. */
    constructor (initial: seq<Transaction>, initialInventory: seq<InventoryItem>)
      requires UniqueKeys(initial, TransactionId)
      ensures transactions == initial && inventory == initialInventory && searchTerm == ""
      ensures Valid()
    {
      transactions := initial;
      inventory := initialInventory;
      searchTerm := "";
    }

    /** `addTransaction`: the new record, with every given field and the
        fresh id, goes in front of the old list. */
    method AddTransaction(newT: NewTransaction, freshId: string)
      requires Valid()
      requires forall t | t in transactions :: t.id != freshId
      modifies this
      ensures transactions == [WithId(newT, freshId)] + old(transactions)
      ensures inventory == old(inventory) && searchTerm == old(searchTerm)
      ensures Valid()
    {
      transactions := [WithId(newT, freshId)] + transactions;
      forall i, j | 0 <= i < j < |transactions|
        ensures TransactionId(transactions[i]) != TransactionId(transactions[j])
      {
        if i == 0 {
          assert transactions[j] in old(transactions);
        } else {
          assert transactions[i] == old(transactions)[i - 1];
          assert transactions[j] == old(transactions)[j - 1];
        }
      }
    }

    /** `deleteTransaction`: drops the records with that id. */
    method DeleteTransaction(id: string)
      modifies this
      ensures transactions == RemoveTransaction(old(transactions), id)
      ensures inventory == old(inventory) && searchTerm == old(searchTerm)
      ensures old(Valid()) ==> Valid()
    {
      ghost var before := transactions;
      transactions := RemoveTransaction(transactions, id);
      if UniqueKeys(before, TransactionId) {
        SubsequenceKeepsUniqueKeys(transactions, before, TransactionId);
      }
    }

    /** The search box's `onChange`. The dashboard does not change with it. */
    method SetSearchTerm(term: string)
      modifies this
      ensures searchTerm == term
      ensures transactions == old(transactions) && inventory == old(inventory)
      ensures DashboardView() == old(DashboardView())
    {
      searchTerm := term;
    }

    /** `setInventory`, which the stock screen calls with each new list. */
    method SetInventory(items: seq<InventoryItem>)
      modifies this
      ensures inventory == items
      ensures transactions == old(transactions) && searchTerm == old(searchTerm)
    {
      inventory := items;
    }

    /** The dashboard tab, drawn from the whole list. */
    function DashboardView(): (d: Dashboard)
      reads this
      ensures d.cards == Cards(transactions)
      ensures d.cards.income + d.cards.expense == Total(transactions, AmountOf)
    {
      IncomeAndExpenseCoverAll(transactions);
      DashboardOf(transactions)
    }

    /** The list on the transactions tab, narrowed by the search: the
        records that match, in order. An empty search shows them all. */
    function ListView(): (r: seq<Transaction>)
      reads this
      ensures IsSubsequence(r, transactions)
      ensures forall t :: t in r <==> t in transactions && MatchesSearch(t, searchTerm)
      ensures searchTerm == "" ==> r == transactions
    {
      EmptySearchKeepsAll(transactions);
      SearchTransactions(transactions, searchTerm)
    }
  }

  /** The form on the transactions tab hands its record to
      `addTransaction`: a complete form adds one record, under the fresh
      id, in front of the list; an incomplete one adds nothing. */
  method SubmitTransaction(form: Form.TransactionForm, app: AppState, today: string,
                           freshId: string, parseFloat: string -> Option<int>)
    requires app.Valid()
    requires forall t | t in app.transactions :: t.id != freshId
    requires form.amount != "" ==> parseFloat(form.amount).Some?
    modifies form, app
    ensures old(form.description) == "" || old(form.amount) == "" ==> app.transactions == old(app.transactions)
    ensures old(form.description) != "" && old(form.amount) != "" ==>
      && |app.transactions| == |old(app.transactions)| + 1
      && app.transactions[1..] == old(app.transactions)
      && app.transactions[0] == Transaction(freshId, today, old(form.description), parseFloat(old(form.amount)).value,
                                            old(form.kind), old(form.category), old(form.userName),
                                            Form.PetNameOrAbsent(old(form.petName)))
    ensures app.inventory == old(app.inventory) && app.searchTerm == old(app.searchTerm)
    ensures app.Valid()
    ensures old(form.description) != "" && old(form.amount) != "" ==>
      form.description == "" && form.amount == "" && form.petName == ""
    ensures old(form.description) == "" || old(form.amount) == "" ==> unchanged(form)
    ensures form.kind == old(form.kind) && form.category == old(form.category) && form.userName == old(form.userName)
  {
    var submitted := form.HandleSubmit(today, parseFloat);
    if submitted.Some? {
      app.AddTransaction(submitted.value, freshId);
    }
  }
}
