# PetFinance Pro bookkeeping core, in Dafny

A model of the bookkeeping logic of PetFinance Pro, a React single-page app
for a pet shop. It covers:

- the transaction log: adding a record under a fresh id, deleting by id, and
  the search box over the list;
- the three dashboard cards: total income, total expense and profit;
- the two charts: daily income and outflow sorted by date, and totals per
  service category;
- the stock screen: adding, deleting and counting items up or down, and the
  low-stock badge;
- the client book: adding, deleting and searching clients;
- the "new transaction" form: its defaults, its submit guard, the record it
  builds and the fields it clears.

Amounts and prices are whole cents (`int`). The fields a user types stay
text, and `parseInt`/`parseFloat` are functions supplied by the caller.
`crypto.randomUUID()` and the clock become parameters (`freshId`, `today`,
`now`).

Files, one module each:

- `types.dfy`: the records (`Transaction`, `InventoryItem`, `Client`) and the
  enumerations.
- `seqs.dfy`: `Array.prototype.filter`, sums, and the key order of a
  dictionary object (`Object.keys`/`Object.values`), with their laws.
- `text.dfy`: `toLowerCase`, `includes` and `trim`.
- `dashboard.dfy`: DashboardCards.tsx.
- `chart.dfy`: FinancialChart.tsx. Each `reduce` is a loop that calls the
  callback, and the callback returns the updated dictionary.
- `app.dfy`: App.tsx. The component state is the class `AppState`.
- `inventory.dfy`: InventoryManager.tsx.
- `clients.dfy`: ClientManager.tsx.
- `form.dfy`: TransactionForm.tsx. The form state is the class
  `TransactionForm`.
- `constants.dfy`: the staff names and the seed records.

## Model

| member | source | states |
|---|---|---|
| Seqs.Total | components/DashboardCards.tsx:12 | `reduce((acc, curr) => acc + curr.weight, 0)`: the weights added up from the left; its laws are the lemmas below |
| Seqs.Filter | App.tsx:43 | `filter` keeps the elements the callback accepts, each as often as in the input, in their order (a subsequence) |
| Seqs.FilterIdempotent | App.tsx:43 | filtering twice with the same test is filtering once |
| Seqs.FilterPermutation | components/DashboardCards.tsx:10-16 | filtering lists with the same elements gives lists with the same elements |
| Seqs.TotalPermutation | components/FinancialChart.tsx:18-20 | a sum does not depend on the order of the elements |
| Seqs.SubsequenceKeepsUniqueKeys | App.tsx:43 | removing elements from a list with distinct ids leaves the ids distinct |
| Seqs.KeysOf | components/FinancialChart.tsx:28 | the keys of a dictionary built one element at a time are exactly the keys that occur, each once |
| Seqs.KeysInFirstOccurrenceOrder | components/FinancialChart.tsx:28 | those keys are listed in the order of their first occurrence |
| Seqs.ValuesAt | components/FinancialChart.tsx:18 | `Object.values` lists the entry of each key, in key order |
| Seqs.AcrossCovers | components/FinancialChart.tsx:10-16 | adding up the per-key sums over every key that occurs gives the sum over all elements |
| Seqs.TotalOfValues | components/FinancialChart.tsx:18 | the values of a dictionary of per-key sums add up to the per-key sums over its keys |
| Text.Lower | App.tsx:48 | `toLowerCase` keeps the length, leaves no capital letter, turns each capital into its small letter and leaves every other character alone |
| Text.LowerIdempotent | App.tsx:48 | lower-casing a lower-cased text changes nothing |
| Text.Contains | App.tsx:48 | `includes` holds exactly when the query occurs in the text at some position |
| Text.ContainsEmpty | App.tsx:47-48 | every text includes the empty text |
| Text.Trim | components/ClientManager.tsx:19 | `trim` leaves a run of the input whose ends are not whitespace and removes only whitespace around it; the result is empty exactly for a blank input |
| Text.TrimIdempotent | components/ClientManager.tsx:23 | trimming a trimmed text changes nothing |
| DashboardCards.TotalIncome | components/DashboardCards.tsx:10-12 | the income card is the sum, over every record, of its amount if it is INCOME and 0 otherwise |
| DashboardCards.TotalExpense | components/DashboardCards.tsx:14-16 | the expense card is the sum, over every record, of its amount if it is not INCOME (so EXPENSE) and 0 otherwise |
| DashboardCards.IncomeWeightsMatch | components/DashboardCards.tsx:10-12 | filtering the INCOME records and summing their amounts equals summing every record's income share |
| DashboardCards.OutflowWeightsMatch | components/DashboardCards.tsx:14-16 | filtering the EXPENSE records and summing their amounts equals summing every record's non-income share |
| DashboardCards.Cards | components/DashboardCards.tsx:10-18 | income and expense together account for every amount, and profit is income minus expense |
| DashboardCards.IncomeAndExpenseCoverAll | components/DashboardCards.tsx:10-16 | total income plus total expense is the sum of all amounts |
| DashboardCards.CardsOfNothing | components/DashboardCards.tsx:10-18 | with no records every card shows 0 |
| DashboardCards.PrependedRecordTotals | components/DashboardCards.tsx:10-18 | a new income record raises income and profit by its amount and leaves expense alone; a new expense raises expense, lowers profit, and leaves income alone |
| DashboardCards.CardsIgnoreOrder | components/DashboardCards.tsx:10-18 | the cards depend on which records there are, not on their order |
| FinancialChart.Put | components/FinancialChart.tsx:12 | assigning a property stores the value; a new key goes after the existing keys |
| FinancialChart.Credit | components/FinancialChart.tsx:13-14 | a record adds its amount to `entrada` if it is INCOME and to `saida` otherwise, so the two sides together grow by the amount and the date stays |
| FinancialChart.DailyStep | components/FinancialChart.tsx:10-16 | the callback creates a zero point for a new date, placed after the existing dates, then credits the record to its date; no other date changes |
| FinancialChart.DailyPointSnoc | components/FinancialChart.tsx:11-14 | after one more record, that record's date gets a point created at zero if it had none and then credited with the amount, on `entrada` for income and on `saida` otherwise; every other date's point stays |
| FinancialChart.DailyMapSnoc | components/FinancialChart.tsx:10-16 | the per-date points after one more record are the callback's entries applied to those before it |
| FinancialChart.DailySnoc | components/FinancialChart.tsx:10-16 | the dictionary after one more record is the callback applied to the dictionary before it |
| FinancialChart.DailyData | components/FinancialChart.tsx:10-16 | the loop builds one point per date, in first-occurrence order, each holding the date's income and outflow sums |
| FinancialChart.DateLe | components/FinancialChart.tsx:19 | dates compared character by character, as the order of ISO dates in time; a date is no later than itself or any text it is a prefix of |
| FinancialChart.DateLeTotal | components/FinancialChart.tsx:19 | any two dates are comparable |
| FinancialChart.DateLeTransitive | components/FinancialChart.tsx:19 | the date order is transitive |
| FinancialChart.DateLeAntisymmetric | components/FinancialChart.tsx:19 | two dates each no later than the other are equal, so distinct dates have one sorted order |
| FinancialChart.InsertByDate | components/FinancialChart.tsx:18-20 | inserting into a date-sorted list keeps it sorted and adds exactly that point |
| FinancialChart.SortByDate | components/FinancialChart.tsx:18-20 | the sort result is ordered by date and a permutation of its input |
| FinancialChart.ChartData | components/FinancialChart.tsx:18-20 | `chartData` is sorted by date and a permutation of the values of `dailyData` |
| FinancialChart.ChartPoints | components/FinancialChart.tsx:18-20 | the chart holds exactly the points of `dailyData` |
| FinancialChart.PermutedPoints | components/FinancialChart.tsx:18-20 | reordering points laid out one per date keeps a point for exactly those dates, and keeps the dates distinct when they were |
| FinancialChart.ChartCoversDates | components/FinancialChart.tsx:10-12 | the chart has a point for a date exactly when some record has that date |
| FinancialChart.ChartDatesDistinct | components/FinancialChart.tsx:10-12 | no date has two points |
| FinancialChart.ChartPointSums | components/FinancialChart.tsx:13-14 | a point's `entrada` is the sum of the INCOME amounts of its date; its `saida` is the sum of all the other amounts of that date |
| FinancialChart.ChartTotalsMatchCards | components/FinancialChart.tsx:10-16 | over all points, `entrada` adds up to the income card and `saida` to the non-income total, which is the expense card |
| FinancialChart.CategoryStep | components/FinancialChart.tsx:22-26 | the callback leaves the category's entry at its old value (0 if absent) plus the amount, since resetting a 0 entry to 0 changes nothing; a new category goes after the existing ones and no other entry changes |
| FinancialChart.CategoryMapSnoc | components/FinancialChart.tsx:22-26 | the per-category sums after one more record are the callback's entries applied to those before it |
| FinancialChart.CategorySnoc | components/FinancialChart.tsx:22-26 | the category dictionary after one more record is the callback applied to the dictionary before it, including the reset of a falsy (0) entry |
| FinancialChart.CategoryTotals | components/FinancialChart.tsx:22-26 | the loop builds one entry per category, in first-occurrence order, holding the sum of that category's amounts |
| FinancialChart.CategoryData | components/FinancialChart.tsx:28-31 | one slice per key, in key order, carrying the key and its entry |
| FinancialChart.CategoryChartLayout | components/FinancialChart.tsx:22-31 | slice `i` carries the `i`-th category to occur and that category's sum |
| FinancialChart.CategoryChartCovers | components/FinancialChart.tsx:22-31 | there is a slice for a category exactly when some record has that category |
| FinancialChart.CategoryChartOrder | components/FinancialChart.tsx:28-31 | no category has two slices, and the slices come in the order of each category's first occurrence |
| FinancialChart.CategoryChartValues | components/FinancialChart.tsx:22-26 | a slice's value is the sum of its category's amounts, income and expense alike |
| FinancialChart.CategoryValuesAddUp | components/FinancialChart.tsx:22-26 | the slices add up to the sum of all amounts |
| FinancialChart.Charts | components/FinancialChart.tsx:10-31 | the component computes both charts for its list |
| App.RemoveTransaction | App.tsx:42-44 | after `deleteTransaction(id)` no record has that id; every other record stays, in order |
| App.DeleteIdempotent | App.tsx:43 | deleting the same id twice is deleting it once |
| App.DeleteUndoesAdd | App.tsx:34-44 | deleting the record just added under a fresh id gives back the list |
| App.MatchesSearch | App.tsx:47-50 | a record matches exactly when the lower-cased term occurs at some position of the lower-cased description, or of the lower-cased pet name when that is present and not empty |
| App.SearchIgnoresCase | App.tsx:48-49 | the search ignores case: a term matches the same records as its lower-cased form |
| App.SearchTransactions | App.tsx:46-51 | the search result is an order-preserving subsequence holding exactly the records that match, each as often as in the list |
| App.MatchesSearchPlain | App.tsx:47-50 | a record matches iff the lower-cased term occurs in its lower-cased description or in its lower-cased pet name, if it has one |
| App.EmptySearchKeepsAll | App.tsx:47-48 | an empty term lists every record |
| App.DashboardOf | App.tsx:156-157 | the dashboard's cards and charts, all from the same full list, agree with each other |
| App.AppState.constructor | App.tsx:14-25 | the state starts from the given lists, with an empty search |
| App.AppState.AddTransaction | App.tsx:34-40 | the new record, with every given field and the fresh id, goes in front of the unchanged old list; ids stay distinct |
| App.AppState.DeleteTransaction | App.tsx:42-44 | the list becomes the one without that id; distinct ids stay distinct |
| App.AppState.SetSearchTerm | App.tsx:169-170 | typing a search changes neither the list nor the dashboard |
| App.AppState.SetInventory | App.tsx:182 | the stock list becomes the one the stock screen hands over |
| App.AppState.DashboardView | App.tsx:156-157 | the dashboard's cards are those of the whole list, whatever the search, and account for every amount |
| App.AppState.ListView | App.tsx:176 | the transactions tab lists, in order, exactly the records that match the search, and every record when the search is empty |
| App.SubmitTransaction | App.tsx:175 | a complete form adds its record in front under the fresh id and clears the form's description, amount and pet name; an incomplete one adds nothing and leaves the form as it was; the type, category and user stay selected either way |
| InventoryManager.ApplyEdit | components/InventoryManager.tsx:49-63 | each input sets its own field and leaves the others; no input edits the price |
| InventoryManager.EditsKeepPrice | components/InventoryManager.tsx:11 | however the form is edited, the price text stays as it started |
| InventoryManager.OrDefault | components/InventoryManager.tsx:21-22 | the falsy default on a parsed number gives the default for NaN or 0 and the number otherwise |
| InventoryManager.AddItem | components/InventoryManager.tsx:13-27 | without a name or a quantity nothing changes; otherwise the new item goes last, the others stay, the minimum defaults to 5, the price to 0, and the form is cleared |
| InventoryManager.FormItemsCostNothing | components/InventoryManager.tsx:11-22 | an item added through the form always has price 0 |
| InventoryManager.DeleteItem | components/InventoryManager.tsx:29-31 | exactly the items with that id go; the rest stay, in order |
| InventoryManager.DeleteUndoesAddItem | components/InventoryManager.tsx:25-30 | deleting the item just added under a fresh id gives back the list |
| InventoryManager.UpdateQuantity | components/InventoryManager.tsx:33-35 | the items with that id get quantity `max(0, quantity + delta)`; all other fields, all other items, the length and the order stay |
| InventoryManager.UpdateKeepsStockNonNegative | components/InventoryManager.tsx:34 | if no quantity was negative, none is after an update |
| InventoryManager.DecrementAtZero | components/InventoryManager.tsx:34 | the minus button on a 0 quantity leaves 0 |
| InventoryManager.IncrementThenDecrement | components/InventoryManager.tsx:95-97 | plus then minus gives back a list with no negative quantities |
| InventoryManager.IsLowStock | components/InventoryManager.tsx:87 | the "Estoque Baixo" badge: the quantity is at most the minimum |
| InventoryManager.DefaultMinimumLowStock | components/InventoryManager.tsx:21 | an item added with no minimum typed is low exactly when its quantity is at most 5 |
| InventoryManager.LowStockStaysLow | components/InventoryManager.tsx:87-95 | a low-stock item (quantity at most the minimum) whose quantity is not negative stays low after the minus button |
| ClientManager.OptionalTrimmed | components/ClientManager.tsx:24-26 | the trimmed text, or absent exactly when the text is blank |
| ClientManager.AddClient | components/ClientManager.tsx:17-34 | a blank name changes nothing; otherwise the new client with the trimmed name and trimmed optional fields goes in front, the others stay, and the form is cleared |
| ClientManager.OptionalTrimmedIsTidy | components/ClientManager.tsx:24-26 | a trimmed optional field, when present, is non-empty with no surrounding whitespace |
| ClientManager.AddedClientIsTidy | components/ClientManager.tsx:23-26 | a client added through the form has no leading or trailing whitespace in any text field, and no field holds an empty text |
| ClientManager.DeleteClient | components/ClientManager.tsx:36-38 | exactly the clients with that id go; the rest stay, in order |
| ClientManager.DeleteUndoesAddClient | components/ClientManager.tsx:29-37 | deleting the client just added under a fresh id gives back the list |
| ClientManager.MatchesClient | components/ClientManager.tsx:40-47 | a client matches exactly when the lower-cased query is empty or occurs at some position of the lower-cased name, or of the lower-cased phone or e-mail when present and not empty |
| ClientManager.ClientSearchIgnoresCase | components/ClientManager.tsx:41-46 | the search ignores case: a query matches the same clients as its lower-cased form |
| ClientManager.FilterClients | components/ClientManager.tsx:40-48 | the result is an order-preserving subsequence holding exactly the clients that match, each as often as in the list |
| ClientManager.MatchesClientPlain | components/ClientManager.tsx:43-47 | for a non-empty query, a client matches iff the lower-cased query occurs in its lower-cased name, phone or e-mail |
| ClientManager.NotesNotSearched | components/ClientManager.tsx:43-47 | the notes play no part in matching |
| ClientManager.EmptySearchKeepsAllClients | components/ClientManager.tsx:41-42 | an empty search lists every client |
| TransactionForm.PetNameOrAbsent | components/TransactionForm.tsx:29 | an empty pet name becomes absent; any other passes through |
| TransactionForm.TransactionForm.constructor | components/TransactionForm.tsx:11-16 | the form starts with empty texts, INCOME, BATH and the first user |
| TransactionForm.TransactionForm.SetDescription | components/TransactionForm.tsx:49 | the input sets the description and nothing else |
| TransactionForm.TransactionForm.SetAmount | components/TransactionForm.tsx:62 | the input sets the amount and nothing else |
| TransactionForm.TransactionForm.SetKind | components/TransactionForm.tsx:73 | the select sets the type and nothing else, whatever the category |
| TransactionForm.TransactionForm.SetCategory | components/TransactionForm.tsx:85-90 | the select sets the category and nothing else, whatever the type |
| TransactionForm.TransactionForm.SetUserName | components/TransactionForm.tsx:98 | the select sets the user and nothing else |
| TransactionForm.TransactionForm.SetPetName | components/TransactionForm.tsx:112 | the input sets the pet name and nothing else |
| TransactionForm.TransactionForm.HandleSubmit | components/TransactionForm.tsx:18-35 | nothing is submitted exactly when the description or the amount is empty, and then nothing changes; otherwise the record carries the selected type, category and user, the absent-if-empty pet name, and description, amount and pet name are cleared |
| Constants.InitialData | constants.tsx:5-35 | `INITIAL_DATA`: the three seed records (a R$ 85,00 bath and a R$ 180,00 feed sale as income, R$ 250,00 of shampoo as expense), dated with the given day |
| Constants.SeedCards | constants.tsx:5-37 | the seed records `InitialData` show R$ 265,00 income, R$ 250,00 expense and R$ 15,00 profit; `Users` is `USERS`, the three staff names in the form's order |

## Proof steps

Lemmas that only carry proofs of the members above, with no source lines of their own:

- `Seqs.RemoveAt`: taking one element out of a list takes it out of the multiset.
- `Seqs.TotalRemoveAt`: taking one element out of a list takes its weight out of the sum.
- `Text.TrimBothEnds`: the trimmed run, as `Text.Trim` states it, is what trimming the start and then the end leaves.
- `FinancialChart.SortedCons`: a point no later than every point of a sorted list may go in front of it.
- `FinancialChart.InsertInFront`: `FinancialChart.InsertByDate` when the new point goes first.
- `FinancialChart.InsertBehind`: `FinancialChart.InsertByDate` when the new point goes into the rest.
- `FinancialChart.SlicesAddUp`: the induction behind `FinancialChart.CategoryValuesAddUp`.
- `Text.ContainsStep`: the induction step behind the contract of `Text.Contains`.
- `Text.LeadingStep` and `Text.TrailingStep`: the induction steps behind `trimStart` and `trimEnd`, which strip exactly the leading and the trailing whitespace.

## Left out

- Saving to and loading from the browser's local storage (App.tsx:14-32). The initial lists are constructor arguments.
- The AI analysis (`handleAiAnalysis`, services/geminiService.ts), the voice assistant (components/VoiceAssistant.tsx, `handleVoiceCommand`), and the tab and analysis state. These are network, audio and display.
- components/TransactionList.tsx only renders and formats for the locale. The model stops at the list it is given.
- Floating-point amounts: amounts, prices and parsed numbers are whole cents, so float rounding is not modelled.
- InventoryManager.AddItem: requires a typed quantity to parse. `parseInt` fails on number-input text such as ".5", and the item with a `NaN` quantity that the source would then store is not modelled.
- TransactionForm.TransactionForm.HandleSubmit: requires a typed amount to parse. A number input's value is either empty or a valid number, and `parseFloat` reads every valid number.
- FinancialChart.DateLe: compares dates character by character. This matches `new Date(...).getTime()` for the 'YYYY-MM-DD' dates the app stores; other date formats are not modelled.
- FinancialChart.SortByDate: an insertion sort, not the engine's `sort`. Both give a date-sorted permutation, and with distinct dates there is only one (`FinancialChart.DateLeAntisymmetric`).
- FinancialChart.DailyData and FinancialChart.CategoryTotals: the reduce callbacks mutate the accumulator in place. Here the callback returns the updated dictionary and the loop reassigns it; the accumulator is private to the reduce, so no aliasing is lost.
- Text.Lower: lowers only A-Z and the Latin-1 capitals. The rest of Unicode case mapping is not modelled.
- Fresh ids: `crypto.randomUUID()` is a `freshId` argument. `AddTransaction` requires it to be unused.
- The current user of ClientManager.tsx (`currentUserId`) is an argument; App.tsx does not render the client book.
- The `Client` record is not declared in types.ts. Its fields are taken from ClientManager.tsx:20-28.
- Quantity sign: a stock quantity can be negative, because `addItem` stores whatever `parseInt` returns, "-3" included. The model follows the code. `UpdateKeepsStockNonNegative` and `IncrementThenDecrement` assume non-negative quantities, and on a negative one the minus button raises the quantity to 0.
- InventoryManager.LowStockStaysLow: requires the quantity not to be negative. With a negative quantity the minus button raises it to 0, which need not be at most the minimum (quantity -3 with minimum -1 becomes 0).
