/**
 * The contents of `expenses.csv` as `save_to_csv` writes them: a header
 * row `Category,Amount,Date` and one row per expense in ledger order, and
 * the reader that recovers the ledger from that text.
 */
module Export {
  import opened Options
  import opened Amounts
  import opened Expenses
  import opened Csv

  /** The `fieldnames` given to `csv.DictWriter`, in column order. */
  const Header: seq<string> := ["Category", "Amount", "Date"]

  /** The cells of one expense under the header's columns. */
  function ExpenseRow(e: Expense): seq<string>
    requires e.amount.units >= 0
  {
    [e.category, FormatAmount(e.amount), e.date]
  }

  /** Every amount can be printed. */
  predicate Printable(es: seq<Expense>) {
    forall k :: 0 <= k < |es| ==> es[k].amount.units >= 0
  }

  /** The rows `writer.writerows` receives, one per expense, in ledger order. */
  function ExpenseRows(es: seq<Expense>): (rows: seq<seq<string>>)
    requires Printable(es)
    ensures |rows| == |es|
    ensures forall k :: 0 <= k < |es| ==> rows[k] == ExpenseRow(es[k])
  {
    seq(|es|, k requires 0 <= k < |es| => ExpenseRow(es[k]))
  }

  /** The text written to the file: the header, then the expense rows. */
  function Document(es: seq<Expense>): string
    requires Printable(es)
  {
    EncodeTable([Header] + ExpenseRows(es))
  }

  /** With no expenses the file holds only the header row. */
  lemma DocumentOfNone()
    ensures Document([]) == EncodeRow(Header)
  {
    assert [Header] + ExpenseRows([]) == [Header];
    assert [Header][1..] == [];
    assert EncodeTable([Header]) == EncodeRow(Header) + EncodeTable([]);
  }

  /** The text for one more expense is the old text followed by its row. */
  lemma DocumentSnoc(es: seq<Expense>, e: Expense)
    requires Printable(es) && e.amount.units >= 0
    ensures Printable(es + [e])
    ensures Document(es + [e]) == Document(es) + EncodeRow(ExpenseRow(e))
  {
    var es' := es + [e];
    assert Printable(es') by {
      forall k | 0 <= k < |es'| ensures es'[k].amount.units >= 0 {
        if k < |es| { assert es'[k] == es[k]; }
      }
    }
    assert ExpenseRows(es') == ExpenseRows(es) + [ExpenseRow(e)];
    assert [Header] + ExpenseRows(es') == ([Header] + ExpenseRows(es)) + [ExpenseRow(e)];
    EncodeTableSnoc([Header] + ExpenseRows(es), ExpenseRow(e));
  }

  /** `DocumentSnoc` for the next entry of a ledger being written out front to back. */
  lemma DocumentStep(es: seq<Expense>, i: nat)
    requires i < |es| && Printable(es[..i]) && es[i].amount.units >= 0
    ensures Printable(es[..i + 1])
    ensures Document(es[..i + 1]) == Document(es[..i]) + EncodeRow(ExpenseRow(es[i]))
  {
    assert es[..i + 1] == es[..i] + [es[i]];
    DocumentSnoc(es[..i], es[i]);
  }

  /** Turns data rows back into expenses; None if a row is not three cells or an amount does not read. */
  function RowsToExpenses(rows: seq<seq<string>>): Option<seq<Expense>> {
    if rows == [] then Some([])
    else if |rows[0]| != 3 then None
    else
      match (ParseAmount(rows[0][1]), RowsToExpenses(rows[1..]))
      case (Some(a), Some(rest)) => Some([Expense(rows[0][0], a, rows[0][2])] + rest)
      case _ => None
  }

  /** Reads a saved file: a header row followed by expense rows. */
  function ReadDocument(text: string): Option<seq<Expense>> {
    match ReadTable(text)
    case Some(rows) => if rows != [] && rows[0] == Header then RowsToExpenses(rows[1..]) else None
    case None => None
  }

  lemma {:induction false} RowsRoundTrip(es: seq<Expense>)
    requires forall k :: 0 <= k < |es| ==> es[k].amount.units >= 0 && Normalized(es[k].amount)
    ensures RowsToExpenses(ExpenseRows(es)) == Some(es)
  {
    if es != [] {
      var rows := ExpenseRows(es);
      assert rows[0] == ExpenseRow(es[0]);
      FormatRoundTrip(es[0].amount);
      assert rows[1..] == ExpenseRows(es[1..]);
      RowsRoundTrip(es[1..]);
      assert [es[0]] + es[1..] == es;
    }
  }

  /**
   * Reading the saved text gives the ledger back: the same expenses, in
   * the same order, with the same fields.
   */
  lemma DocumentRoundTrip(es: seq<Expense>)
    requires forall k :: 0 <= k < |es| ==> ValidExpense(es[k])
    ensures Printable(es) && ReadDocument(Document(es)) == Some(es)
  {
    var rows := [Header] + ExpenseRows(es);
    ReadTableOf(rows);
    assert rows[1..] == ExpenseRows(es);
    RowsRoundTrip(es);
  }

  /** The saved text starts with the header line. */
  lemma DocumentStartsWithHeader(es: seq<Expense>)
    requires Printable(es)
    ensures Document(es)[..22] == "Category,Amount,Date\r\n"
  {
    var rows := [Header] + ExpenseRows(es);
    assert rows[0] == Header;
    assert EncodeRow(Header) == "Category,Amount,Date\r\n" by {
      assert IsPlain("Category") && IsPlain("Amount") && IsPlain("Date");
    }
  }
}
