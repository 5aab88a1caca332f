/** The "new transaction" form of TransactionForm.tsx: six fields of
    component state, their `onChange` handlers, and `handleSubmit`, which
    hands a record without an id to `onAdd` and clears three of the
    fields. `parseFloat` is the caller's function, giving whole cents, and
    `today` is the calendar-date part of the current time. */
module TransactionForm {
  import opened Types
  import Constants

  /** `petName || undefined`: the empty name is falsy and becomes absent. */
  function PetNameOrAbsent(petName: string): (r: Option<string>)
    ensures r.None? <==> petName == ""
    ensures r.Some? ==> r.value == petName
  {
    if petName == "" then None else Some(petName)
  }

  class TransactionForm {
    var description: string
    var amount: string
    var kind: TransactionType
    var category: ServiceCategory
    var userName: string
    var petName: string

    /** The initial state: empty texts, income, bath, the first user. */
    constructor ()
      ensures description == "" && amount == "" && petName == ""
      ensures kind == Income && category == Bath && userName == Constants.Users[0]
    {
      description := "";
      amount := "";
      kind := Income;
      category := Bath;
      userName := Constants.Users[0];
      petName := "";
    }

    method SetDescription(v: string)
      modifies this
      ensures description == v
      ensures amount == old(amount) && kind == old(kind) && category == old(category)
      ensures userName == old(userName) && petName == old(petName)
    {
      description := v;
    }

    method SetAmount(v: string)
      modifies this
      ensures amount == v
      ensures description == old(description) && kind == old(kind) && category == old(category)
      ensures userName == old(userName) && petName == old(petName)
    {
      amount := v;
    }

    /** The type select; any type may go with any category. */
    method SetKind(v: TransactionType)
      modifies this
      ensures kind == v
      ensures description == old(description) && amount == old(amount) && category == old(category)
      ensures userName == old(userName) && petName == old(petName)
    {
      kind := v;
    }

    /** The category select, offering every category whatever the type. */
    method SetCategory(v: ServiceCategory)
      modifies this
      ensures category == v
      ensures description == old(description) && amount == old(amount) && kind == old(kind)
      ensures userName == old(userName) && petName == old(petName)
    {
      category := v;
    }

    method SetUserName(v: string)
      modifies this
      ensures userName == v
      ensures description == old(description) && amount == old(amount) && kind == old(kind)
      ensures category == old(category) && petName == old(petName)
    {
      userName := v;
    }

    method SetPetName(v: string)
      modifies this
      ensures petName == v
      ensures description == old(description) && amount == old(amount) && kind == old(kind)
      ensures category == old(category) && userName == old(userName)
    {
      petName := v;
    }

    /** `handleSubmit`: with a description and an amount typed, the record
        built from the fields goes out and description, amount and pet name
        are cleared; otherwise nothing goes out and nothing changes. The
        number input's value is either empty or a valid number, so a typed
        amount always parses. */
    method HandleSubmit(today: string, parseFloat: string -> Option<int>) returns (submitted: Option<NewTransaction>)
      requires amount != "" ==> parseFloat(amount).Some?
      modifies this
      ensures submitted.None? <==> old(description) == "" || old(amount) == ""
      ensures submitted.None? ==> unchanged(this)
      ensures submitted.Some? ==>
        submitted.value == NewTransaction(today, old(description), parseFloat(old(amount)).value, old(kind),
                                          old(category), old(userName), PetNameOrAbsent(old(petName)))
      ensures submitted.Some? ==> description == "" && amount == "" && petName == ""
      ensures kind == old(kind) && category == old(category) && userName == old(userName)
    {
      if description == "" || amount == "" {
        return None;
      }
      submitted := Some(NewTransaction(today, description, parseFloat(amount).value, kind,
                                       category, userName, PetNameOrAbsent(petName)));
      description := "";
      amount := "";
      petName := "";
    }
  }
}
