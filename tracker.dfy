/**
 * The ledger held by `MoneySpendingTrackerApp`: the list `self.expenses`,
 * empty at start-up and grown only by `add_expense`, read by
 * `save_to_csv` and `show_pie_chart`. Widget reads become the raw texts
 * passed in; message boxes, the file and the chart become returned values.
 */
module Tracker {
  import opened Amounts
  import opened Expenses
  import opened Totals
  import opened Csv
  import opened Export

  /** What `save_to_csv` does: warn that there is no data, or write this text to `expenses.csv`. */
  datatype SaveOutcome = NothingToSave | Saved(text: string)

  /** What `show_pie_chart` draws: nothing for an empty ledger, or one slice per category. */
  datatype PieChart = NoExpenses | Pie(labels: seq<string>, amounts: seq<real>)

  /** The sum of a list of numbers. */
  function Sum(xs: seq<real>): real {
    if xs == [] then 0.0 else Sum(xs[..|xs| - 1]) + xs[|xs| - 1]
  }

  /** The per-category totals listed key by key sum like `SumOver`. */
  lemma {:induction false} SumOfCategoryTotals(amounts: seq<real>, keys: seq<string>, es: seq<Expense>)
    requires |amounts| == |keys|
    requires forall k :: 0 <= k < |keys| ==> amounts[k] == CategoryTotal(es, keys[k])
    ensures Sum(amounts) == SumOver(keys, es)
  {
    if keys != [] {
      SumOfCategoryTotals(amounts[..|amounts| - 1], keys[..|keys| - 1], es);
    }
  }

  /** Appending a valid entry to a valid ledger keeps it valid. */
  lemma AllValidSnoc(es: seq<Expense>, e: Expense)
    requires forall k :: 0 <= k < |es| ==> ValidExpense(es[k])
    requires ValidExpense(e)
    ensures forall k :: 0 <= k < |es + [e]| ==> ValidExpense((es + [e])[k])
  {
    forall k | 0 <= k < |es + [e]| ensures ValidExpense((es + [e])[k]) {
      if k < |es| {
        assert (es + [e])[k] == es[k];
      }
    }
  }

  class MoneySpendingTracker {
    /** `self.expenses`, in insertion order. */
    var expenses: seq<Expense>

    /** The ledger never holds an entry that failed a check. */
    ghost predicate Valid()
      reads this
    {
      forall k :: 0 <= k < |expenses| ==> ValidExpense(expenses[k])
    }

    constructor ()
      ensures Valid() && expenses == []
    {
      expenses := [];
    }

    /**
     * `add_expense`: on success the ledger grows by exactly the new entry
     * at its end; on a rejection it is left as it was.
     */
    method AddExpense(categoryText: string, amountText: string, dateText: string)
      returns (outcome: Validation)
      requires Valid()
      modifies this
      ensures Valid()
      ensures outcome == Validate(categoryText, amountText, dateText)
      ensures expenses == if outcome.Accepted? then old(expenses) + [outcome.expense] else old(expenses)
    {
      outcome := Validate(categoryText, amountText, dateText);
      if outcome.Accepted? {
        AllValidSnoc(expenses, outcome.expense);
        expenses := expenses + [outcome.expense];
      }
    }

    /**
     * `save_to_csv`: nothing for an empty ledger; otherwise the header
     * row and then the rows of the expenses, one at a time, in order.
     */
    method SaveToCsv() returns (r: SaveOutcome)
      requires Valid()
      ensures r.NothingToSave? <==> expenses == []
      ensures r.Saved? ==> Printable(expenses) && r.text == Document(expenses)
    {
      if expenses == [] {
        return NothingToSave;
      }
      assert expenses[..0] == [];
      var text := EncodeRow(Header);
      DocumentOfNone();
      var i := 0;
      while i < |expenses|
        invariant 0 <= i <= |expenses|
        invariant Printable(expenses[..i]) && text == Document(expenses[..i])
      {
        DocumentStep(expenses, i);
        text := text + EncodeRow(ExpenseRow(expenses[i]));
        i := i + 1;
      }
      assert expenses[..i] == expenses;
      r := Saved(text);
    }

    /**
     * The loop of `show_pie_chart` that fills `category_totals`: the keys
     * in the order first inserted, and for each the sum of its amounts.
     */
    method CategoryTotals() returns (categories: seq<string>, totals: map<string, real>)
      ensures categories == Categories(expenses)
      ensures totals.Keys == CategorySet(expenses)
      ensures forall c :: c in totals ==> totals[c] == CategoryTotal(expenses, c)
    {
      categories, totals := [], map[];
      for i := 0 to |expenses|
        invariant categories == Categories(expenses[..i])
        invariant totals.Keys == CategorySet(expenses[..i])
        invariant forall c :: c in totals ==> totals[c] == CategoryTotal(expenses[..i], c)
      {
        var e := expenses[i];
        ghost var seen := expenses[..i + 1];
        assert seen[..i] == expenses[..i] && seen[i] == e;
        PrefixCategorySet(seen);
        forall c ensures CategoryTotal(expenses[..i + 1], c)
          == CategoryTotal(expenses[..i], c) + (if e.category == c then Value(e.amount) else 0.0)
        {
          CategoryTotalStep(expenses, i, c);
        }
        var prior := if e.category in totals then totals[e.category] else 0.0;
        if e.category !in totals {
          AbsentCategory(expenses[..i], e.category);
          categories := categories + [e.category];
        }
        totals := totals[e.category := prior + Value(e.amount)];
      }
      assert expenses[..|expenses|] == expenses;
    }

    /**
     * `show_pie_chart`: no chart for an empty ledger; otherwise one slice
     * per category in first-seen order, sized by its total, the slices
     * together making up all the spending.
     */
    method ShowPieChart() returns (chart: PieChart)
      ensures chart.NoExpenses? <==> expenses == []
      ensures chart.Pie? ==> chart.labels == Categories(expenses) && |chart.amounts| == |chart.labels|
      ensures chart.Pie? ==>
        forall k :: 0 <= k < |chart.labels| ==> chart.amounts[k] == CategoryTotal(expenses, chart.labels[k])
      ensures chart.Pie? ==> Sum(chart.amounts) == Total(expenses)
    {
      if expenses == [] {
        return NoExpenses;
      }
      var categories, totals := CategoryTotals();
      var amounts := seq(|categories|, k requires 0 <= k < |categories| && categories[k] in totals
        => totals[categories[k]]);
      SumOfCategoryTotals(amounts, categories, expenses);
      TotalsAddUp(expenses);
      chart := Pie(categories, amounts);
    }
  }
}
