/**
 * Spending per category, as `show_pie_chart` accumulates it in the
 * dictionary `category_totals`: every category once, in the order it is
 * first met in the ledger, with the sum of the amounts filed under it.
 */
module Totals {
  import opened Amounts
  import opened Expenses

  /** The sum of all amounts. */
  function Total(es: seq<Expense>): real {
    if es == [] then 0.0 else Total(es[..|es| - 1]) + Value(es[|es| - 1].amount)
  }

  /** The sum of the amounts filed under exactly `category`. */
  function CategoryTotal(es: seq<Expense>, category: string): real {
    if es == [] then 0.0
    else
      var e := es[|es| - 1];
      CategoryTotal(es[..|es| - 1], category) + (if e.category == category then Value(e.amount) else 0.0)
  }

  /** Entry `i` adds to the total of its own category only. */
  lemma CategoryTotalStep(es: seq<Expense>, i: nat, category: string)
    requires i < |es|
    ensures CategoryTotal(es[..i + 1], category)
      == CategoryTotal(es[..i], category) + (if es[i].category == category then Value(es[i].amount) else 0.0)
  {
    assert es[..i + 1][..i] == es[..i];
  }

  /** The categories that occur in the ledger, as a set. */
  function CategorySet(es: seq<Expense>): set<string> {
    set k | 0 <= k < |es| :: es[k].category
  }

  predicate NoDuplicates(s: seq<string>) {
    forall i, j :: 0 <= i < j < |s| ==> s[i] != s[j]
  }

  /**
   * The keys of `category_totals`: the distinct categories, in first-seen
   * order (a Python dict keeps the position a key was first inserted at).
   */
  function Categories(es: seq<Expense>): (r: seq<string>)
    ensures NoDuplicates(r)
    ensures forall c :: c in r <==> c in CategorySet(es)
  {
    if es == [] then []
    else
      var prior := Categories(es[..|es| - 1]);
      var c := es[|es| - 1].category;
      assert CategorySet(es) == CategorySet(es[..|es| - 1]) + {c} by {
        PrefixCategorySet(es);
      }
      if c in prior then prior else prior + [c]
  }

  lemma PrefixCategorySet(es: seq<Expense>)
    requires es != []
    ensures CategorySet(es) == CategorySet(es[..|es| - 1]) + {es[|es| - 1].category}
  {
    var p := es[..|es| - 1];
    forall c | c in CategorySet(es)
      ensures c in CategorySet(p) + {es[|es| - 1].category}
    {
      var k :| 0 <= k < |es| && es[k].category == c;
      if k < |es| - 1 {
        assert p[k] == es[k];
      }
    }
    forall c | c in CategorySet(p)
      ensures c in CategorySet(es)
    {
      var k :| 0 <= k < |p| && p[k].category == c;
      assert es[k] == p[k];
    }
  }

  /** A category that never occurs sums to zero. */
  lemma {:induction false} AbsentCategory(es: seq<Expense>, category: string)
    requires category !in CategorySet(es)
    ensures CategoryTotal(es, category) == 0.0
  {
    if es != [] {
      PrefixCategorySet(es);
      AbsentCategory(es[..|es| - 1], category);
    }
  }

  /** The sum of the per-category totals of `keys`. */
  function SumOver(keys: seq<string>, es: seq<Expense>): real {
    if keys == [] then 0.0
    else SumOver(keys[..|keys| - 1], es) + CategoryTotal(es, keys[|keys| - 1])
  }

  /** One more entry adds its amount to exactly one of a set of distinct keys, if any. */
  lemma {:induction false} SumOverSnoc(keys: seq<string>, es: seq<Expense>, e: Expense)
    requires NoDuplicates(keys)
    ensures SumOver(keys, es + [e])
      == SumOver(keys, es) + (if e.category in keys then Value(e.amount) else 0.0)
  {
    var es' := es + [e];
    assert es'[..|es'| - 1] == es;
    if keys != [] {
      var prefix := keys[..|keys| - 1];
      var last := keys[|keys| - 1];
      assert NoDuplicates(prefix);
      SumOverSnoc(prefix, es, e);
      assert e.category in keys <==> e.category in prefix || e.category == last;
      assert e.category == last ==> e.category !in prefix;
    }
  }

  /** The values of `category_totals` add up to the total of all amounts. */
  lemma {:induction false} TotalsAddUp(es: seq<Expense>)
    ensures SumOver(Categories(es), es) == Total(es)
  {
    if es != [] {
      var p := es[..|es| - 1];
      var e := es[|es| - 1];
      var keys := Categories(p);
      assert es == p + [e];
      TotalsAddUp(p);
      SumOverSnoc(keys, p, e);
      if e.category !in keys {
        var keys' := keys + [e.category];
        assert keys'[..|keys'| - 1] == keys;
        AbsentCategory(p, e.category);
      }
    }
  }

  /** The position of `x` in a sequence that holds it. */
  function IndexOf(s: seq<string>, x: string): (i: nat)
    requires x in s
    ensures i < |s| && s[i] == x
    ensures forall j :: 0 <= j < i ==> s[j] != x
  {
    if s[0] == x then 0 else 1 + IndexOf(s[1..], x)
  }

  /** The keys for a prefix of the ledger are a prefix of the keys for all of it. */
  lemma {:induction false} CategoriesOfPrefix(es: seq<Expense>, n: nat)
    requires n <= |es|
    ensures Categories(es[..n]) <= Categories(es)
    decreases |es| - n
  {
    if n < |es| {
      CategoriesOfPrefix(es, n + 1);
      assert es[..n + 1][..n] == es[..n];
    } else {
      assert es[..n] == es;
    }
  }

  /**
   * First-seen order: when entry `q` brings a new category, every
   * category met before it (at some `p < q`) comes earlier among the keys.
   */
  lemma FirstSeenOrder(es: seq<Expense>, p: nat, q: nat)
    requires p < q < |es|
    requires es[q].category !in CategorySet(es[..q])
    ensures es[p].category in Categories(es) && es[q].category in Categories(es)
    ensures IndexOf(Categories(es), es[p].category) < IndexOf(Categories(es), es[q].category)
  {
    NewCategoryAppends(es, q);
    CategoriesOfPrefix(es, q + 1);
    assert es[p].category in CategorySet(es[..q]) by {
      assert es[..q][p] == es[p];
    }
    IndexOrder(Categories(es), Categories(es[..q]), es[p].category, es[q].category);
  }

  /** In a list without duplicates that starts with `before + [y]`, every `x` of `before` precedes `y`. */
  lemma IndexOrder(all: seq<string>, before: seq<string>, x: string, y: string)
    requires NoDuplicates(all) && before + [y] <= all && x in before
    ensures x in all && y in all && IndexOf(all, x) < IndexOf(all, y)
  {
    var upto := before + [y];
    var i := IndexOf(before, x);
    assert all[i] == upto[i] == x;
    assert all[|before|] == upto[|before|] == y;
    IndexBelow(all, x, i);
    IndexBelow(all, y, |before|);
  }

  /** An entry whose category is new appends that category to the keys. */
  lemma NewCategoryAppends(es: seq<Expense>, q: nat)
    requires q < |es|
    requires es[q].category !in CategorySet(es[..q])
    ensures Categories(es[..q + 1]) == Categories(es[..q]) + [es[q].category]
  {
    var upto := es[..q + 1];
    assert upto[..|upto| - 1] == es[..q] && upto[|upto| - 1] == es[q];
  }

  lemma IndexBelow(s: seq<string>, x: string, i: nat)
    requires i < |s| && s[i] == x && NoDuplicates(s)
    ensures IndexOf(s, x) == i
  {
  }
}
