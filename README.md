# Money spending tracker: the ledger, verified

This project models the ledger behind the `MoneySpendingTrackerApp` window of
the Money Spending Tracker (`main.py`) and proves properties of that model.
The ledger is the list `self.expenses`. It starts empty. `add_expense` is the
only thing that changes it.

- **Entry checks** (`add_expense`). The category, amount and date texts are
  stripped of whitespace. Then the amount must read as a number greater than
  zero. Then the date must be a real `%Y-%m-%d` date. Then the category must
  not be empty. The first failing check is the one reported. An accepted
  entry is appended at the tail of the ledger.
- **Category totals** (the loop of `show_pie_chart`). This builds a
  dictionary from each category to the sum of its amounts. The keys keep the
  order in which each category was first met.
- **Saving** (`save_to_csv`). An empty ledger writes nothing. Otherwise the
  text is a header `Category,Amount,Date` followed by one row per expense,
  in ledger order. It uses Python's `csv` module defaults: `\r\n` line ends,
  and a field is wrapped in quotes only when it holds a comma, a quote or a
  line break, with inner quotes doubled (section 2 of RFC 4180).

Modules, leaf first:

- `Options`: the `Option` type.
- `Text`: Python's `str.strip()` and its whitespace set, plus decimal digit
  strings.
- `Amounts`: `float()` on the amount text and `str()` on the stored amount.
  An amount is an exact decimal `units / 10^scale`, kept normalized.
- `Dates`: `datetime.strptime(text, "%Y-%m-%d")`, following CPython's field
  patterns: four-digit year; one- or two-digit month; a day of one or two
  digits or space-digit. The value must also be a valid `datetime.date`:
  year 0 is rejected, and Gregorian month lengths and leap years apply.
- `Csv`: the excel-dialect writer, with minimal quoting. A reader for the
  same format is its partner.
- `Expenses`: the expense record and `Validate`.
- `Totals`: the reference definitions of the per-category totals, and
  lemmas about them.
- `Export`: the file text and the reader that recovers the ledger from it.
- `Tracker`: the class `MoneySpendingTracker`. Its field `expenses` is kept
  valid by `AddExpense`, and it provides `SaveToCsv`, `CategoryTotals` and
  `ShowPieChart`.

Outside inputs become parameters and results:

- Widget reads are the three raw texts passed to `AddExpense`.
- Message boxes are the returned `Validation`, `SaveOutcome` and `PieChart`
  values.
- The file `expenses.csv` is the returned text.
- The chart is the list of labels and amounts it would be drawn from.

Two details of `add_expense` that the model keeps:

- The stored date is the stripped text as typed (main.py:60, main.py:76).
  `2024-1-5` passes `strptime` and is stored as `2024-1-5`.
- The amount text is stripped too (main.py:59).

## Model

| member | source | states |
|---|---|---|
| `Text.Strip` | main.py:58-60 | the stripped text neither starts nor ends with a character of Python's whitespace set |
| `Text.StripUnique` | main.py:58-60 | if the text is whitespace, then a core that starts and ends with non-whitespace, then whitespace, strip returns exactly that core; an all-whitespace text strips to empty |
| `Text.StripIdempotent` | main.py:58-60 | stripping an already stripped text changes nothing |
| `Amounts.Normalize` | main.py:64 | an amount is brought to normal form, no trailing zero after the point, without changing its value or its sign |
| `Amounts.NormalizedUnique` | main.py:64 | two normal-form amounts with the same value are the same amount, so every value has one normal spelling |
| `Amounts.ParseAmount` | main.py:64 | `float()` of the amount text, as an exact decimal; what it reads is normalized |
| `Amounts.PositiveValue` | main.py:65-66 | an amount is greater than zero exactly when its digits are |
| `Amounts.FormatAmount` | main.py:103 | `str()` of a stored amount as the CSV cell: a digit first, at least three characters; `Amounts.FormatRoundTrip` proves that reading the text back gives the same amount |
| `Amounts.FormatRoundTrip` | main.py:103 | reading back the text `str()` writes for a non-negative amount gives the same amount |
| `Dates.DaysInMonth` | main.py:69 | month lengths are 28 to 31 days; February has 29 exactly in Gregorian leap years |
| `Dates.IsCalendarDate` | main.py:69 | the `datetime.date` check: year 1-9999, month 1-12, day within the month's length; `Dates.ParseFormatted` proves a padded date is accepted exactly when it holds |
| `Dates.DateFields` | main.py:69 | the `%Y-%m-%d` match over the whole text; what it reads is a year of at most four digits, a month 1-12 and a day 1-31 |
| `Dates.ParseDate` | main.py:69 | `strptime` succeeds only on a real calendar date, and returns exactly the fields the pattern read |
| `Dates.FieldsRoundTrip` | main.py:69 | the pattern reads every zero-padded `YYYY-MM-DD` spelling back to its fields |
| `Dates.ParseFormatted` | main.py:69 | a `YYYY-MM-DD` date is accepted exactly when month length and leap year allow it, and then reads back as itself |
| `Dates.LeapDay` | main.py:69 | February 29th is accepted exactly in leap years |
| `Expenses.Validate` | main.py:58-77 | accepted exactly when the amount is a number > 0, the date is valid and the category is non-empty, with the stripped category, the amount read and the stripped date; otherwise exactly one reason, the first failing check in the order amount, date, category |
| `Csv.EncodeField` | main.py:103 | one cell as the excel dialect writes it; `Csv.QuotedExactlyWhenNeeded` proves it is quoted exactly when it holds a special character, `Csv.ReadTableOf` that it reads back |
| `Csv.EncodeRow` | main.py:102-103 | one row as `writerow` writes it, the cells joined by commas and ended by `\r\n`, a row of one empty cell written as `""\r\n`; `Csv.ReadTableOf` proves the cells read back in order |
| `Csv.EncodeTable` | main.py:102-103 | the rows written one after another; `Csv.EncodeTableSnoc` proves each row is appended, `Csv.ReadTableOf` that all rows read back |
| `Csv.EncodeTableSnoc` | main.py:103 | writing rows one at a time appends each row's text to what is already written |
| `Csv.QuotedExactlyWhenNeeded` | main.py:101-103 | a field is written as it is exactly when it has no comma, quote, carriage return or line feed |
| `Csv.ReadTableOf` | main.py:101-103 | reading the written text gives back every row of at least one cell and every field, in order, including fields made of quotes, commas and line breaks |
| `Export.ExpenseRow` | main.py:101-103 | the three cells of one expense in the `fieldnames` order; `Export.DocumentRoundTrip` proves they read back as the expense |
| `Export.Document` | main.py:101-103 | the whole file text, header then expense rows; `Export.DocumentStartsWithHeader` and `Export.DocumentRoundTrip` prove it starts with the header and reads back as the ledger |
| `Export.DocumentOfNone` | main.py:101-102 | step lemma for the loop of `SaveToCsv`: before any expense row, the text is the header line alone |
| `Export.DocumentSnoc` | main.py:103 | each further expense adds exactly its own row at the end of the text |
| `Export.DocumentStartsWithHeader` | main.py:101-102 | the saved text begins with the line `Category,Amount,Date` |
| `Export.DocumentRoundTrip` | main.py:94-103 | reading the saved text gives back the whole ledger: the same expenses, in the same order, with the same fields |
| `Totals.CategoryTotal` | main.py:161-162 | the reference value of `category_totals[c]`, the sum of the amounts filed under `c`; `Totals.AbsentCategory` and `Totals.TotalsAddUp` prove absent categories total zero and the totals add up to all spending |
| `Totals.Categories` | main.py:160-165 | the dictionary keys: no category twice, and exactly the categories that occur in the ledger |
| `Totals.CategoryTotalStep` | main.py:161-162 | step lemma for the loop of `CategoryTotals`: each entry adds its amount to its own category's total and leaves every other category's total as it was |
| `Totals.AbsentCategory` | main.py:162 | a category without entries totals zero |
| `Totals.SumOverSnoc` | main.py:161-162 | one more entry adds its amount to exactly one key's total, the key of its category |
| `Totals.TotalsAddUp` | main.py:160-166 | the per-category totals add up to the total of all amounts |
| `Totals.CategoriesOfPrefix` | main.py:161-162 | the keys after part of the ledger are a prefix of the keys after all of it; later entries never reorder keys |
| `Totals.FirstSeenOrder` | main.py:160-165 | keys are in first-seen order: a category met before another's first entry comes earlier among the keys |
| `Tracker.MoneySpendingTracker.constructor` | main.py:18 | the ledger starts empty |
| `Tracker.MoneySpendingTracker.AddExpense` | main.py:56-86 | on acceptance the ledger becomes the old ledger plus the new entry at its tail; on rejection it is unchanged; every stored entry stays valid |
| `Tracker.MoneySpendingTracker.SaveToCsv` | main.py:94-103 | an empty ledger yields nothing to save; otherwise exactly the header and expense rows, built row by row; the ledger is not changed |
| `Tracker.MoneySpendingTracker.CategoryTotals` | main.py:160-163 | the loop yields the first-seen key list, a key set equal to the ledger's categories, and each category's sum |
| `Tracker.MoneySpendingTracker.ShowPieChart` | main.py:154-166 | no chart for an empty ledger; otherwise labels in first-seen order, each with its category's sum, the amounts adding up to all the spending |
| `Tracker.SumOfCategoryTotals` | main.py:165-166 | the list of values sums to the sum of the totals of the listed keys |

## Left out

- Widgets, layout and dialogs (main.py:23-54, main.py:78-83, main.py:86,
  main.py:104-106). These are presentation only. Their outcomes are the
  returned values, and clearing the entry fields after a success is not
  modelled.
- Opening and closing `expenses.csv`, and I/O errors (main.py:100,
  main.py:105-106). This is file I/O. The model returns the text that would
  be written. A failed write, which leaves the ledger unchanged in the
  source, is not represented.
- Drawing the pie chart (main.py:169-174). This is presentation. The model
  returns the labels and amounts handed to `ax.pie`.
- The budget table (main.py:114-152). It is constant display data, not
  derived from the ledger.
- `show_total` (main.py:90-92) and `delete_last_expense` (main.py:110-112).
  Both are empty in the source, so there is no behaviour to model.
- Application start-up and the event loop (main.py:178-180). These are
  outside the ledger.
- The date-picker widget (main.py:34). It is a foreign UI component. Its
  text is passed in as a raw string.
- Amounts.ParseAmount: accepts a narrower syntax than Python's `float()`. It reads
  only a sign, ASCII digits, an optional decimal point and an optional
  exponent. Underscores between digits, non-ASCII digits, and `inf`,
  `infinity` and `nan` in any case are rejected as `InvalidAmount`, but
  Python accepts them; `nan` and `inf` even pass the `<= 0` check. Binary
  floating point is not modelled. Amounts are exact, so `0.1` is stored as
  exactly one tenth. A positive value of at most half the smallest positive
  double (about 2.47e-324), which Python rounds to `0.0` and rejects, is
  accepted.
- Totals.CategoryTotal: sums exactly. The float additions of
  `category_totals` (main.py:162) round each partial sum to a double; the
  model, `Totals.Total` and `Tracker.Sum` add exact values with no rounding.
- Amounts.FormatAmount: prints the exact decimal in fixed notation (`10.0`,
  `42.5`). Python's `str()` of a float prints the shortest repr of the
  rounded binary value, and switches to exponent notation at or above 1e16
  and below 1e-4.
- Dates.DateFields: reads ASCII digits only. CPython's `\d` also matches
  other Unicode decimal digits.
- The CSV reader (`Csv.ReadTable`, `Export.ReadDocument`) is not in the
  source. It is the writer's partner and is used to state what the written
  text contains.
