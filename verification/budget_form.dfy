/** The add-budget dialog of `BudgetForm.tsx`: the categories it offers
    (catalog expense categories without a budget yet), the form's validation
    rules and the budget payload it hands to `addBudget`. */
module BudgetForm {

  import opened Collections
  import opened Domain
  import BudgetTableRow

  predicate IsExpenseCategory(c: Category) { c.catType == Expense }

  /** Some budget is for category `id`. */
  predicate Budgeted(bs: seq<Budget>, id: string)
  {
    exists i :: 0 <= i < |bs| && bs[i].category == id
  }

  function NotBudgeted(bs: seq<Budget>): Category -> bool
  {
    (c: Category) => !Budgeted(bs, c.id)
  }

  /** An expense category no budget is for yet. */
  function IsAvailable(bs: seq<Budget>): Category -> bool
  {
    (c: Category) => c.catType == Expense && !Budgeted(bs, c.id)
  }

  function NotCategory(id: string): Category -> bool
  {
    (c: Category) => c.id != id
  }

  /** `availableCategories`, for a catalog `cats` (the form uses the mock
      catalog): the expense categories no budget is for, in catalog order. */
  function AvailableCategories(cats: seq<Category>, bs: seq<Budget>): (r: seq<Category>)
    ensures SubseqOf(r, cats)
    ensures forall i :: 0 <= i < |r| ==> r[i].catType == Expense && !Budgeted(bs, r[i].id)
    ensures forall i :: 0 <= i < |cats| && cats[i].catType == Expense && !Budgeted(bs, cats[i].id) ==> cats[i] in r
    ensures |r| == Count(cats, IsAvailable(bs))
  {
    var e := Filter(cats, IsExpenseCategory);
    var r := Filter(e, NotBudgeted(bs));
    SubseqTrans(r, e, cats);
    FilterElements(e, NotBudgeted(bs));
    FilterFilter(cats, IsExpenseCategory, NotBudgeted(bs), IsAvailable(bs));
    forall i | 0 <= i < |cats| && cats[i].catType == Expense && !Budgeted(bs, cats[i].id)
      ensures cats[i] in r
    {
      FilterMember(cats, IsExpenseCategory, cats[i]);
      FilterMember(e, NotBudgeted(bs), cats[i]);
    }
    r
  }

  lemma BudgetedStep(bs: seq<Budget>, b: Budget, id: string)
    ensures Budgeted(bs + [b], id) <==> Budgeted(bs, id) || b.category == id
  {
    var all := bs + [b];
    if Budgeted(all, id) {
      var i :| 0 <= i < |all| && all[i].category == id;
      if i < |bs| { assert bs[i] == all[i]; }
    }
    if Budgeted(bs, id) {
      var i :| 0 <= i < |bs| && bs[i].category == id;
      assert all[i] == bs[i];
    }
    if b.category == id {
      assert all[|bs|] == b;
    }
  }

  /** Adding a budget takes exactly its category off the offered list and
      leaves the rest in place. */
  lemma AddBudgetRemovesOnlyItsCategory(cats: seq<Category>, bs: seq<Budget>, b: Budget)
    ensures AvailableCategories(cats, bs + [b]) == Filter(AvailableCategories(cats, bs), NotCategory(b.category))
    ensures forall c :: c in AvailableCategories(cats, bs) && c.id != b.category ==> c in AvailableCategories(cats, bs + [b])
    ensures forall c :: c in AvailableCategories(cats, bs + [b]) ==> c.id != b.category
  {
    var e := Filter(cats, IsExpenseCategory);
    forall i | 0 <= i < |e|
      ensures NotBudgeted(bs + [b])(e[i]) == (NotBudgeted(bs)(e[i]) && NotCategory(b.category)(e[i]))
    {
      BudgetedStep(bs, b, e[i].id);
    }
    FilterFilter(e, NotBudgeted(bs), NotCategory(b.category), NotBudgeted(bs + [b]));
    var before, after := AvailableCategories(cats, bs), AvailableCategories(cats, bs + [b]);
    forall c | c in before && c.id != b.category ensures c in after {
      FilterMember(before, NotCategory(b.category), c);
    }
    forall c | c in after ensures c.id != b.category {
      FilterSubset(before, NotCategory(b.category), c);
    }
  }

  /** What the dialog submits. */
  datatype FormValues = FormValues(category: string, amount: real, period: string)

  /** The schema: a category is chosen, the amount is positive and the
      period is one of the four known ones. */
  predicate FormValid(v: FormValues)
  {
    v.category != [] && v.amount > 0.0 && IsKnownPeriod(v.period)
  }

  /** The payload of `handleAddBudget`: a budget without an id (the store
      assigns one) and with nothing spent. */
  datatype BudgetDraft = BudgetDraft(category: string, amount: real, spent: real, period: string)

  function HandleAddBudget(v: FormValues): (d: BudgetDraft)
    requires FormValid(v)
    ensures d.spent == 0.0
    ensures d.category == v.category && d.amount == v.amount && d.period == v.period
  {
    BudgetDraft(v.category, v.amount, 0.0, v.period)
  }

  /** A budget stored from a valid form shows 0% used, its whole amount
      remaining and a Hebrew period label. */
  lemma NewBudgetRow(v: FormValues, id: string)
    requires FormValid(v)
    ensures var d := HandleAddBudget(v);
            var b := Budget(id, d.category, d.amount, d.spent, d.period);
            BudgetTableRow.Percentage(b) == 0
            && BudgetTableRow.Remaining(b) == v.amount
            && BudgetTableRow.PeriodName(b.period) != b.period
  {
  }

  /** No two budgets for the same category. */
  predicate UniqueCategories(bs: seq<Budget>)
  {
    forall i, j :: 0 <= i < j < |bs| ==> bs[i].category != bs[j].category
  }

  /** Choosing the category from the offered list keeps budgets one per
      category. */
  lemma ChosenCategoryKeepsUnique(cats: seq<Category>, bs: seq<Budget>, c: Category, amount: real, period: string, id: string)
    requires UniqueCategories(bs)
    requires c in AvailableCategories(cats, bs)
    requires FormValid(FormValues(c.id, amount, period))
    ensures var d := HandleAddBudget(FormValues(c.id, amount, period));
            UniqueCategories(bs + [Budget(id, d.category, d.amount, d.spent, d.period)])
  {
    var avail := AvailableCategories(cats, bs);
    var k :| 0 <= k < |avail| && avail[k] == c;
    assert !Budgeted(bs, c.id);
    var all := bs + [Budget(id, c.id, amount, 0.0, period)];
    forall i, j | 0 <= i < j < |all| ensures all[i].category != all[j].category {
      if j < |bs| {
        assert all[i] == bs[i] && all[j] == bs[j];
      } else {
        assert all[i] == bs[i];
      }
    }
  }
}
