/** The credit page (`CreditPage.tsx`): the expenses paid by credit card and
    their total. */
module CreditPage {

  import opened Collections
  import opened Domain
  import opened FinanceUtils

  /** `creditTransactions`: the credit-card expenses, in order. */
  function CreditTransactions(ts: seq<Transaction>): (r: seq<Transaction>)
    ensures SubseqOf(r, ts)
    ensures forall i :: 0 <= i < |r| ==> r[i].txType == Expense && r[i].paymentMethod == Credit
    ensures forall i :: 0 <= i < |ts| && ts[i].txType == Expense && ts[i].paymentMethod == Credit ==> ts[i] in r
    ensures |r| == Count(ts, IsCreditExpense)
  {
    FilterComplete(ts, IsCreditExpense);
    Filter(ts, IsCreditExpense)
  }

  /** `totalCredit`: the sum of the credit-card expenses; it is the credit
      debt of the summary, and with non-negative amounts it is covered by
      the total expense. */
  function TotalCredit(ts: seq<Transaction>): (r: real)
    ensures r == CalculateSummary(ts).creditDebt
    ensures NonnegAmounts(ts) ==> 0.0 <= r <= CalculateSummary(ts).totalExpense
  {
    var r := SumOf(CreditTransactions(ts), AmountOf);
    assert NonnegAmounts(ts) ==> 0.0 <= r <= CalculateSummary(ts).totalExpense by {
      if NonnegAmounts(ts) {
        FilterElements(ts, IsCreditExpense);
        SumNonneg(CreditTransactions(ts), AmountOf);
        SumFilterMono(ts, IsCreditExpense, IsExpense, AmountOf);
      }
    }
    r
  }

  /** A new transaction raises the total by its amount when it is a credit
      expense and leaves it alone otherwise; in particular an income never
      counts, even when it arrives by credit. */
  lemma TotalCreditStep(ts: seq<Transaction>, t: Transaction)
    ensures TotalCredit(ts + [t]) == TotalCredit(ts) + (if t.txType == Expense && t.paymentMethod == Credit then t.amount else 0.0)
    ensures t.txType == Income ==> TotalCredit(ts + [t]) == TotalCredit(ts)
  {
    FilteredSumStep(ts, t, IsCreditExpense);
  }

  /** The total is the credit figure of the running summary fold. */
  lemma TotalCreditIsFold(ts: seq<Transaction>, t: Transaction)
    ensures TotalCredit(ts + [t]) == Accumulate(CalculateSummary(ts), t).creditDebt
  {
    SummaryStep(ts, t);
  }
}
