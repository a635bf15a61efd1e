/**
 * The "add transaction" form (src/components/add-transaction-sheet.tsx): the schema that
 * decides which entries reach the ledger, and the input `onSubmit` builds from them.
 */
module EntryForm {
  import opened Types
  import opened Ledger

  /**
   * The form's values after coercion: the selected type (if any), the description, the
   * amount as a number (`None` when the text is not a number) and the selected category.
   */
  datatype FormValues = FormValues(
    kind: Option<TransactionType>,
    description: string,
    amount: Option<int>,
    category: Option<ExpenseCategory>)

  /** The fields a schema message can be attached to. */
  datatype Field = TypeField | DescriptionField | AmountField | CategoryField

  /** The field checks of the object schema. */
  function FieldErrors(v: FormValues): (e: set<Field>)
    ensures TypeField in e <==> v.kind.None?
    ensures DescriptionField in e <==> !(2 <= |v.description| <= 100)
    ensures AmountField in e <==> !(v.amount.Some? && v.amount.value > 0)
    ensures CategoryField !in e
  {
    (if v.kind.None? then {TypeField} else {})
    + (if 2 <= |v.description| <= 100 then {} else {DescriptionField})
    + (if v.amount.Some? && v.amount.value > 0 then {} else {AmountField})
  }

  /** The `refine` step: an expense needs a category. */
  predicate CategoryRule(v: FormValues) {
    v.kind == Some(Income) || (v.kind == Some(Expense) && v.category.Some?)
  }

  /**
   * All messages the resolver reports. The refinement is skipped only when the object
   * parse was aborted, by a missing type or an amount that is not a number; failed
   * length and sign checks leave it running, and its message goes on the category field.
   */
  function Errors(v: FormValues): (e: set<Field>)
    ensures TypeField in e <==> v.kind.None?
    ensures DescriptionField in e <==> !(2 <= |v.description| <= 100)
    ensures AmountField in e <==> !(v.amount.Some? && v.amount.value > 0)
    ensures CategoryField in e <==> v.kind == Some(Expense) && v.amount.Some? && v.category.None?
  {
    var refined := if v.kind.Some? && v.amount.Some? && !CategoryRule(v) then {CategoryField} else {};
    assert CategoryField in {CategoryField};
    assert v.kind.Some? && !CategoryRule(v) <==> v.kind == Some(Expense) && v.category.None? by {
      assert v.kind.Some? ==> v.kind == Some(v.kind.value) && (v.kind.value.Income? || v.kind.value.Expense?);
    }
    FieldErrors(v) + refined
  }

  /** A set of fields is empty exactly when none of the four fields is in it. */
  lemma NoMessages(e: set<Field>)
    ensures e == {} <==> TypeField !in e && DescriptionField !in e && AmountField !in e && CategoryField !in e
  {
    if e != {} {
      var f :| f in e;
      assert f.TypeField? || f.DescriptionField? || f.AmountField? || f.CategoryField?;
    }
  }

  /** An entry is accepted exactly when all four conditions of the schema hold. */
  predicate Valid(v: FormValues)
    ensures Valid(v) <==>
      && v.kind.Some?
      && 2 <= |v.description| <= 100
      && v.amount.Some? && v.amount.value > 0
      && (v.kind == Some(Income) || v.category.Some?)
  {
    NoMessages(Errors(v));
    Errors(v) == {}
  }

  /** An income needs no category. */
  lemma IncomeNeedsNoCategory(description: string, amount: int)
    requires 2 <= |description| <= 100 && amount > 0
    ensures Valid(FormValues(Some(Income), description, Some(amount), None))
  {
  }

  /** An otherwise correct expense without a category is refused, on the category field only. */
  lemma ExpenseNeedsCategory(description: string, amount: int)
    requires 2 <= |description| <= 100 && amount > 0
    ensures Errors(FormValues(Some(Expense), description, Some(amount), None)) == {CategoryField}
  {
  }

  /** The form's default values: an expense with an empty description and amount 0. */
  const DefaultValues: FormValues := FormValues(Some(Expense), "", Some(0), None)

  /**
   * Submitting the untouched form fails on the description and the amount, and, since it
   * is an expense without a category, on the category too.
   */
  lemma DefaultFormRefused()
    ensures Errors(DefaultValues) == {DescriptionField, AmountField, CategoryField}
    ensures !Valid(DefaultValues)
  {
  }

  /** The select offers exactly the seven categories, each once. */
  lemma CategoryListComplete()
    ensures |ExpenseCategories| == 7
    ensures forall c: ExpenseCategory :: c in ExpenseCategories
    ensures forall i, j :: 0 <= i < j < |ExpenseCategories| ==> ExpenseCategories[i] != ExpenseCategories[j]
  {
    forall c: ExpenseCategory
      ensures c in ExpenseCategories
    {
      match c
      case Food => assert ExpenseCategories[0] == c;
      case Transport => assert ExpenseCategories[1] == c;
      case Housing => assert ExpenseCategories[2] == c;
      case Shopping => assert ExpenseCategories[3] == c;
      case Entertainment => assert ExpenseCategories[4] == c;
      case Health => assert ExpenseCategories[5] == c;
      case Other => assert ExpenseCategories[6] == c;
    }
  }

  /** `onSubmit`'s argument to `addTransaction`: the category is kept for an expense only. */
  function ToInput(v: FormValues): (t: TransactionInput)
    requires Valid(v)
    ensures t.kind == v.kind.value && t.amount == v.amount.value && t.description == v.description
    ensures t.kind == Income ==> t.category.None?
    ensures t.kind == Expense ==> t.category == v.category && t.category.Some?
  {
    TransactionInput(v.kind.value, v.amount.value, v.description,
                     if v.kind.value == Expense then v.category else None)
  }

  /** The "Success!" toast `onSubmit` raises. */
  datatype FormToast = TransactionAdded

  /**
   * What a submit leaves behind: the ledger, the messages shown, the toast raised, the
   * form's values and whether the sheet is still open.
   */
  datatype SubmitResult = SubmitResult(
    ledger: seq<Transaction>,
    errors: set<Field>,
    toast: Option<FormToast>,
    form: FormValues,
    open: bool)

  /**
   * `form.handleSubmit(onSubmit)` on the open sheet: an invalid form reports its errors
   * and adds nothing; a valid one goes to `addTransaction`, raises the toast whether or
   * not anything was stored, resets the form to its defaults and closes the sheet.
   */
  function Submit(v: FormValues, user: Option<User>, prev: seq<Transaction>, id: string, date: string)
    : (r: SubmitResult)
    ensures !Valid(v) ==> r == SubmitResult(prev, Errors(v), None, v, true)
    ensures Valid(v) ==> r.errors == {} && r.toast == Some(TransactionAdded)
    ensures Valid(v) ==> r.form == DefaultValues && !r.open
    ensures Valid(v) && user.Some? ==>
      && |r.ledger| == |prev| + 1 && r.ledger[1..] == prev
      && r.ledger[0] == Stamp(ToInput(v), id, date, user.value.id)
    ensures Valid(v) && user.None? ==> r.ledger == prev
  {
    if Valid(v) then
      SubmitResult(AddTransaction(user, prev, ToInput(v), id, date), {}, Some(TransactionAdded), DefaultValues, false)
    else
      SubmitResult(prev, Errors(v), None, v, true)
  }

  /**
   * A transaction the form adds carries the form's type, amount and description, is
   * positive and described, and has a category iff it is an expense.
   */
  lemma SubmittedRecord(v: FormValues, u: User, prev: seq<Transaction>, id: string, date: string)
    requires Valid(v)
    ensures var t := Submit(v, Some(u), prev, id, date).ledger[0];
      && t.kind == v.kind.value && t.amount == v.amount.value && t.description == v.description
      && t.amount > 0
      && 2 <= |t.description| <= 100
      && (t.category.Some? <==> t.kind == Expense)
      && t.userId == u.id && t.id == id && t.date == date
  {
  }
}
