/** The budget tracker (src/components/BudgetTracker.tsx): spending per
    category against a fixed plan, a status per category from fixed
    thresholds, the overall totals, and the "Add Budget" form. */
module Budget {
  import opened Common
  import opened Text
  import opened Rows
  import opened Aggregate

  /** How far a category has used its budget. */
  datatype Status = Safe | Warning | Exceeded

  /** The status for a percentage: above 100 is exceeded, above 80 a
      warning, anything else safe. */
  function StatusOf(percentage: real): (s: Status)
    ensures s == Exceeded <==> percentage > 100.0
    ensures s == Warning <==> 80.0 < percentage <= 100.0
    ensures s == Safe <==> percentage <= 80.0
  {
    if percentage > 100.0 then Exceeded
    else if percentage > 80.0 then Warning
    else Safe
  }

  function Severity(s: Status): nat
  {
    match s
    case Safe => 0
    case Warning => 1
    case Exceeded => 2
  }

  /** Spending more never improves the status. */
  lemma StatusMonotone(p: real, q: real)
    requires p <= q
    ensures Severity(StatusOf(p)) <= Severity(StatusOf(q))
  {
  }

  /** The thresholds themselves: exactly 80% is still safe and exactly 100%
      is only a warning. */
  lemma StatusBoundaries()
    ensures StatusOf(80.0) == Safe && StatusOf(100.0) == Warning
    ensures forall p :: 80.0 < p <= 100.0 ==> StatusOf(p) == Warning
  {
  }

  /** A planned budget for one category. */
  datatype Plan = Plan(category: string, budget: real)

  /** The fixed plan every mess starts from. */
  const BudgetData: seq<Plan> := [
    Plan("groceries", 15000.0),
    Plan("utilities", 5000.0),
    Plan("maintenance", 3000.0),
    Plan("other", 2000.0)
  ]

  /** One category card: the plan, what was spent, and how much of it. */
  datatype CategoryBudget = CategoryBudget(
    category: string,
    budget: real,
    spent: real,
    percentage: real,
    status: Status)

  function BudgetOf(b: CategoryBudget): real
  {
    b.budget
  }

  function PlanBudget(p: Plan): real
  {
    p.budget
  }

  /** Spending per category this month; an expense without a category
      counts as "other". */
  function Spending(expenses: seq<Expense>): seq<Bucket<string>>
  {
    GroupSums(expenses, CategoryKey, ExpenseAmount)
  }

  /** The card for one planned category, given the spending per category. */
  function RowFor(plan: Plan, spending: seq<Bucket<string>>): (r: CategoryBudget)
    requires plan.budget != 0.0
    ensures r.category == plan.category && r.budget == plan.budget
    ensures r.spent == Lookup(spending, plan.category)
    ensures r.percentage * plan.budget == r.spent * 100.0
    ensures r.status == StatusOf(r.percentage)
  {
    var spent := Lookup(spending, plan.category);
    var percentage := spent / plan.budget * 100.0;
    CategoryBudget(plan.category, plan.budget, spent, percentage, StatusOf(percentage))
  }

  /** The cards for the fixed plan, in the plan's order. */
  function BudgetRows(spending: seq<Bucket<string>>): (r: seq<CategoryBudget>)
    ensures |r| == |BudgetData|
    ensures forall i :: 0 <= i < |r| ==> r[i] == RowFor(BudgetData[i], spending)
  {
    seq(|BudgetData|, i requires 0 <= i < |BudgetData| => RowFor(BudgetData[i], spending))
  }

  /** What a card shows as spent is the sum of the expenses counted under its
      category, and nothing when no expense is. */
  lemma RowSpentIsCategorySum(expenses: seq<Expense>, i: nat)
    requires i < |BudgetData|
    ensures var cat := BudgetData[i].category;
      BudgetRows(Spending(expenses))[i].spent
        == SumOf(Filter(expenses, KeyIs(CategoryKey, cat)), ExpenseAmount)
  {
    GroupSumsLookup(expenses, CategoryKey, ExpenseAmount, BudgetData[i].category);
  }

  /** The total spent adds up every expense, so the per-category sums add up
      to the sum of all amounts. */
  lemma TotalSpentIsSumOfExpenses(expenses: seq<Expense>)
    ensures Total(Spending(expenses)) == SumOf(expenses, ExpenseAmount)
  {
    GroupSumsTotal(expenses, CategoryKey, ExpenseAmount);
  }

  /** Expenses in a category without a card still count in the total spent:
      one "cleaning" expense of 500 shows on no card but in the total. */
  lemma UnplannedSpendingCounts()
    ensures var e := Expense("e1", "m1", "u1", "soap", None, 500.0, "cleaning",
                             Date(2024, 5, 2), Date(2024, 5, 2));
      var rows := BudgetRows(Spending([e]));
      (forall i :: 0 <= i < |rows| ==> rows[i].spent == 0.0)
      && Total(Spending([e])) == 500.0
  {
    var e := Expense("e1", "m1", "u1", "soap", None, 500.0, "cleaning",
                     Date(2024, 5, 2), Date(2024, 5, 2));
    assert [e][..0] == [];
    assert CategoryKey(e) == "cleaning";
    assert Spending([e]) == Accumulate([], "cleaning", 500.0) == [Bucket("cleaning", 500.0)];
  }

  /** The overall percentage: zero for an empty plan rather than a division
      by zero. */
  function TotalPercentage(totalBudget: real, totalSpent: real): (r: real)
    ensures totalBudget <= 0.0 ==> r == 0.0
    ensures totalBudget > 0.0 ==> r * totalBudget == totalSpent * 100.0
  {
    if totalBudget > 0.0 then totalSpent / totalBudget * 100.0 else 0.0
  }

  /** No two cards name the same category, ignoring case. */
  ghost predicate CategoriesDistinct(bs: seq<CategoryBudget>)
  {
    forall i, j :: 0 <= i < j < |bs| ==> Lower(bs[i].category) != Lower(bs[j].category)
  }

  /** The predicate `find` uses to look for an existing card. */
  function SameCategory(category: string): CategoryBudget -> bool
  {
    (b: CategoryBudget) => Lower(b.category) == Lower(category)
  }

  lemma PlanCategoriesDistinct(spending: seq<Bucket<string>>)
    ensures CategoriesDistinct(BudgetRows(spending))
  {
    var rows := BudgetRows(spending);
    var firsts := ['g', 'u', 'm', 'o'];
    forall i | 0 <= i < |rows| ensures Lower(rows[i].category)[0] == firsts[i] {
      assert rows[i].category == BudgetData[i].category;
    }
  }

  lemma SumOfPlan()
    ensures SumOf(BudgetData, PlanBudget) == 25000.0
  {
    var d := BudgetData;
    assert d[..1][..0] == [];
    assert SumOf(d[..1], PlanBudget) == 15000.0;
    assert d[..2][..1] == d[..1];
    assert SumOf(d[..2], PlanBudget) == 20000.0;
    assert d[..3][..2] == d[..2];
    assert SumOf(d[..3], PlanBudget) == 23000.0;
    assert d[..3] == d[..|d| - 1];
  }

  lemma SumOfRowBudgets(spending: seq<Bucket<string>>)
    ensures SumOf(BudgetRows(spending), BudgetOf) == 25000.0
  {
    var r := BudgetRows(spending);
    assert r[..1][..0] == [];
    assert SumOf(r[..1], BudgetOf) == 15000.0;
    assert r[..2][..1] == r[..1];
    assert SumOf(r[..2], BudgetOf) == 20000.0;
    assert r[..3][..2] == r[..2];
    assert SumOf(r[..3], BudgetOf) == 23000.0;
    assert r[..3] == r[..|r| - 1];
  }

  /** Appending a card whose category differs, up to case, from every other
      keeps the categories distinct and adds its budget to the sum. */
  lemma AppendCard(bs: seq<CategoryBudget>, card: CategoryBudget)
    requires CategoriesDistinct(bs)
    requires forall i :: 0 <= i < |bs| ==> Lower(bs[i].category) != Lower(card.category)
    ensures CategoriesDistinct(bs + [card])
    ensures SumOf(bs + [card], BudgetOf) == SumOf(bs, BudgetOf) + card.budget
  {
    assert (bs + [card])[..|bs|] == bs;
  }

  /** What the "Add Budget" button did. */
  datatype AddOutcome = MissingFields | AlreadyExists | Added

  /** The tracker's state: the category cards, the overall totals, and the
      add form. An empty amount field is `None`. */
  class BudgetTracker {
    var budgets: seq<CategoryBudget>
    var totalBudget: real
    var totalSpent: real
    var showAddBudget: bool
    var newCategory: string
    var newAmount: Option<real>

    /** The total budget is the sum of the cards' budgets, and no two cards
        share a category up to case. */
    ghost predicate Valid()
      reads this
    {
      totalBudget == SumOf(budgets, BudgetOf) && CategoriesDistinct(budgets)
    }

    constructor()
      ensures Valid()
      ensures budgets == [] && totalBudget == 0.0 && totalSpent == 0.0
      ensures !showAddBudget && newCategory == "" && newAmount == None
    {
      budgets := [];
      totalBudget := 0.0;
      totalSpent := 0.0;
      showAddBudget := false;
      newCategory := "";
      newAmount := None;
    }

    /** Loading the month's expenses: without a mess nothing changes;
        otherwise the cards are rebuilt from the fixed plan and the totals
        recomputed. */
    method Load(messId: Option<string>, expenses: seq<Expense>)
      requires Valid()
      modifies this
      ensures Valid()
      ensures messId.None? ==> unchanged(this)
      ensures messId.Some? ==> budgets == BudgetRows(Spending(expenses))
      ensures messId.Some? ==> totalBudget == 25000.0
      ensures messId.Some? ==> totalSpent == SumOf(expenses, ExpenseAmount)
      ensures showAddBudget == old(showAddBudget)
      ensures newCategory == old(newCategory) && newAmount == old(newAmount)
    {
      if messId.None? {
        return;
      }
      var spending := GroupSumsLoop(expenses, CategoryKey, ExpenseAmount);
      budgets := BudgetRows(spending);
      totalBudget := SumOf(BudgetData, PlanBudget);
      totalSpent := Total(spending);
      SumOfPlan();
      SumOfRowBudgets(spending);
      PlanCategoriesDistinct(spending);
      TotalSpentIsSumOfExpenses(expenses);
    }

    /** The "Add Budget" button: refuses an empty field or a category that
        already has a card (ignoring case) and then changes nothing;
        otherwise appends one safe, unspent card, raises the total budget by
        its amount and clears the form. */
    method AddBudget() returns (outcome: AddOutcome)
      requires Valid()
      modifies this
      ensures Valid()
      ensures outcome == MissingFields <==> old(newCategory) == "" || old(newAmount).None?
      ensures outcome == AlreadyExists <==>
        outcome != MissingFields
        && exists i :: 0 <= i < |old(budgets)| && Lower(old(budgets)[i].category) == Lower(old(newCategory))
      ensures outcome != Added ==> unchanged(this)
      ensures outcome == Added ==>
        budgets == old(budgets) + [CategoryBudget(old(newCategory), old(newAmount).value, 0.0, 0.0, Safe)]
        && totalBudget == old(totalBudget) + old(newAmount).value
        && totalSpent == old(totalSpent)
        && newCategory == "" && newAmount.None? && !showAddBudget
    {
      if newCategory == "" || newAmount.None? {
        return MissingFields;
      }
      var existing := Find(budgets, SameCategory(newCategory));
      if existing.Some? {
        return AlreadyExists;
      }
      var amount := newAmount.value;
      var card := CategoryBudget(newCategory, amount, 0.0, 0.0, Safe);
      AppendCard(budgets, card);
      budgets := budgets + [card];
      totalBudget := totalBudget + amount;
      newCategory := "";
      newAmount := None;
      showAddBudget := false;
      outcome := Added;
    }
  }
}
