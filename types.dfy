/** The records of the pet-shop bookkeeping app (types.ts, and the client
    record that ClientManager.tsx builds). Amounts and prices are whole
    cents. The TypeScript field `type` is called `kind` here, since `type`
    is a Dafny keyword. */
module Types {

  /** An optional field: `undefined` is `None`. */
  datatype Option<T> = None | Some(value: T)

  /** `TransactionType`: income ('INCOME') or expense ('EXPENSE'). */
  datatype TransactionType = Income | Expense

  /** `ServiceCategory`; each value stands for the Portuguese label that is
      the enum member's string value (`Bath` is 'Banho', and so on). */
  datatype ServiceCategory =
    | Bath        // 'Banho'
    | Grooming    // 'Tosa'
    | Vet         // 'Veterinário'
    | Products    // 'Produtos/Venda'
    | Medication  // 'Medicação'
    | Rent        // 'Aluguel'
    | Salary      // 'Salário'
    | Supplies    // 'Insumos'
    | Marketing   // 'Marketing'
    | Other       // 'Outros'

  /** A transaction before it has an id: `Omit<Transaction, 'id'>`.
      `date` is an ISO calendar date 'YYYY-MM-DD'. */
  datatype NewTransaction = NewTransaction(
    date: string,
    description: string,
    amount: int,
    kind: TransactionType,
    category: ServiceCategory,
    userName: string,
    petName: Option<string>)

  datatype Transaction = Transaction(
    id: string,
    date: string,
    description: string,
    amount: int,
    kind: TransactionType,
    category: ServiceCategory,
    userName: string,
    petName: Option<string>)

  /** `{ ...newT, id }`: every given field, plus the id. */
  function WithId(t: NewTransaction, id: string): Transaction {
    Transaction(id, t.date, t.description, t.amount, t.kind, t.category, t.userName, t.petName)
  }

  function TransactionId(t: Transaction): string { t.id }

  datatype InventoryItem = InventoryItem(
    id: string,
    name: string,
    quantity: int,
    minQuantity: int,
    price: int)

  /** A client, with the fields ClientManager.tsx gives it; `createdAt` is
      an ISO timestamp. */
  datatype Client = Client(
    id: string,
    userId: Option<string>,
    name: string,
    phone: Option<string>,
    email: Option<string>,
    notes: Option<string>,
    createdAt: string)
}
