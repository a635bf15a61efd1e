/** The records of the finance tracker (src/types/index.ts) and two small wrappers. */
module Types {

  datatype Option<+T> = None | Some(value: T) {
    function GetOr(default: T): T {
      match this
      case Some(v) => v
      case None => default
    }
  }

  /** The result of a call that may throw an uncaught exception. */
  datatype Fallible<+T> = Returned(value: T) | Threw

  datatype TransactionType = Income | Expense

  datatype ExpenseCategory = Food | Transport | Housing | Shopping | Entertainment | Health | Other

  /** The seven expense categories, in the order the entry form lists them. */
  const ExpenseCategories: seq<ExpenseCategory> :=
    [Food, Transport, Housing, Shopping, Entertainment, Health, Other]

  /** The label under which a category is stored. */
  function CategoryName(c: ExpenseCategory): string {
    match c
    case Food => "Food"
    case Transport => "Transport"
    case Housing => "Housing"
    case Shopping => "Shopping"
    case Entertainment => "Entertainment"
    case Health => "Health"
    case Other => "Other"
  }

  /** The label under which a transaction type is stored. */
  function TypeName(t: TransactionType): string {
    match t
    case Income => "income"
    case Expense => "expense"
  }

  /**
   * A ledger entry. The source's field `type` is called `kind` here (`type` is a
   * Dafny keyword). `date` is the ISO-8601 timestamp assigned at creation.
   */
  datatype Transaction = Transaction(
    id: string,
    userId: string,
    kind: TransactionType,
    amount: int,
    description: string,
    category: Option<ExpenseCategory>,
    date: string)

  /** What a caller hands to `addTransaction`: a transaction without id, date and owner. */
  datatype TransactionInput = TransactionInput(
    kind: TransactionType,
    amount: int,
    description: string,
    category: Option<ExpenseCategory>)

  /** A registered user; the password is optional in the record type. */
  datatype User = User(id: string, name: string, email: string, password: Option<string>, isAdmin: bool)

  /** A monthly budget; `month` has the form "YYYY-MM". */
  datatype Budget = Budget(userId: string, amount: int, month: string)

  predicate IsIncome(t: Transaction) {
    t.kind == Income
  }
}
