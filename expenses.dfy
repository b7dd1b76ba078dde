/**
 * The expense record and the checks `add_expense` runs before appending
 * one: strip the three texts, then the amount must read as a number
 * greater than zero, then the date must be a real `%Y-%m-%d` date, then
 * the category must be non-empty. The first failing check is the one
 * reported.
 */
module Expenses {
  import opened Text
  import opened Amounts
  import opened Dates

  /** One ledger entry, the dictionary `{"Category", "Amount", "Date"}`. */
  datatype Expense = Expense(category: string, amount: Amount, date: string)

  /** Why an entry was refused: the `ValueError` raised inside `add_expense`. */
  datatype Rejection =
    | InvalidAmount      // float() could not read the amount
    | NonPositiveAmount  // "Amount must be greater than zero."
    | InvalidDate        // strptime raised ValueError
    | EmptyCategory      // "Category cannot be empty."

  datatype Validation = Accepted(expense: Expense) | Rejected(reason: Rejection)

  /** The amount text, once stripped, reads as a number. */
  predicate AmountReads(amountText: string) {
    ParseAmount(Strip(amountText)).Some?
  }

  /** The amount text reads as a number greater than zero. */
  predicate AmountPositive(amountText: string) {
    AmountReads(amountText) && Value(ParseAmount(Strip(amountText)).value) > 0.0
  }

  /** The date text, once stripped, is a real calendar date. */
  predicate DateValid(dateText: string) {
    ParseDate(Strip(dateText)).Some?
  }

  /** The category text is not blank. */
  predicate CategoryPresent(categoryText: string) {
    Strip(categoryText) != []
  }

  /** What every entry in the ledger satisfies. */
  predicate ValidExpense(e: Expense) {
    && e.category != [] && Strip(e.category) == e.category
    && Value(e.amount) > 0.0 && e.amount.units > 0 && Normalized(e.amount)
    && Strip(e.date) == e.date && ParseDate(e.date).Some?
  }

  /**
   * The checks of `add_expense` on the raw texts of the three entry fields.
   * Accepted entries hold the stripped category, the amount read and the
   * stripped date text; a rejection names the first check, in the order
   * amount, date, category, that fails.
   */
  function Validate(categoryText: string, amountText: string, dateText: string): (r: Validation)
    ensures r.Accepted? <==>
      AmountPositive(amountText) && DateValid(dateText) && CategoryPresent(categoryText)
    ensures r.Accepted? ==> ValidExpense(r.expense)
    ensures r.Accepted? ==>
      r.expense == Expense(Strip(categoryText), ParseAmount(Strip(amountText)).value, Strip(dateText))
    ensures r == Rejected(InvalidAmount) <==> !AmountReads(amountText)
    ensures r == Rejected(NonPositiveAmount) <==> AmountReads(amountText) && !AmountPositive(amountText)
    ensures r == Rejected(InvalidDate) <==> AmountPositive(amountText) && !DateValid(dateText)
    ensures r == Rejected(EmptyCategory) <==>
      AmountPositive(amountText) && DateValid(dateText) && !CategoryPresent(categoryText)
  {
    var category := Strip(categoryText);
    var amount := Strip(amountText);
    var date := Strip(dateText);
    match ParseAmount(amount)
    case None => Rejected(InvalidAmount)
    case Some(a) =>
      if Value(a) <= 0.0 then Rejected(NonPositiveAmount)
      else if ParseDate(date).None? then Rejected(InvalidDate)
      else if category == [] then Rejected(EmptyCategory)
      else
        PositiveValue(a);
        StripIdempotent(categoryText);
        StripIdempotent(dateText);
        Accepted(Expense(category, a, date))
  }
}
