/** The reports page (src/pages/Reports.tsx): the summary figures, spending
    per category and per month, the average-per-month card, and the CSV
    export of the category breakdown. */
module Reports {
  import opened Common
  import opened Text
  import opened Rows
  import opened Aggregate
  import Inventory

  /** The month an expense was recorded in, as the page's month label
      identifies it: its year and month. */
  datatype Month = Month(year: int, month: int)

  function MonthOf(e: Expense): Month
  {
    Month(e.createdAt.year, e.createdAt.month)
  }

  /** Spending per category, in the order categories first occur. */
  function ByCategory(expenses: seq<Expense>): seq<Bucket<string>>
  {
    GroupSums(expenses, CategoryKey, ExpenseAmount)
  }

  /** Spending per month, in the order months first occur. */
  function ByMonth(expenses: seq<Expense>): seq<Bucket<Month>>
  {
    GroupSums(expenses, MonthOf, ExpenseAmount)
  }

  /** The number of items at or below their minimum stock: the same items
      the inventory page lists under its "low-stock" filter. */
  function LowStockCount(inventory: seq<InventoryItem>): (r: nat)
    ensures r == |Inventory.FilteredItems(inventory, "low-stock")|
    ensures r <= |inventory|
  {
    FilterAgree(inventory, IsLowStock, Inventory.Keeper("low-stock"));
    |Filter(inventory, IsLowStock)|
  }

  /** The figures the page shows once its rows are loaded. */
  datatype ReportData = ReportData(
    totalExpenses: real,
    totalMembers: nat,
    lowStockItems: nat,
    monthlyExpenses: seq<Bucket<Month>>,
    expensesByCategory: seq<Bucket<string>>)

  /** Building the report from the mess's rows; without a mess there is no
      report. Only the last six months are kept. */
  method BuildReport(messId: Option<string>, expenses: seq<Expense>, memberIds: seq<string>,
                     inventory: seq<InventoryItem>) returns (r: Option<ReportData>)
    ensures r.None? <==> messId.None?
    ensures r.Some? ==> r.value.totalExpenses == SumOf(expenses, ExpenseAmount)
    ensures r.Some? ==> r.value.totalMembers == |memberIds|
    ensures r.Some? ==> r.value.lowStockItems == LowStockCount(inventory)
    ensures r.Some? ==> r.value.expensesByCategory == ByCategory(expenses)
    ensures r.Some? ==> r.value.monthlyExpenses == TakeLast(ByMonth(expenses), 6)
  {
    if messId.None? {
      return None;
    }
    var byCategory := GroupSumsLoop(expenses, CategoryKey, ExpenseAmount);
    var byMonth := GroupSumsLoop(expenses, MonthOf, ExpenseAmount);
    var total := SumOf(expenses, ExpenseAmount);
    r := Some(ReportData(total, |memberIds|, LowStockCount(inventory), TakeLast(byMonth, 6), byCategory));
  }

  /** The category breakdown has one entry per distinct category (an
      expense without one counts as "other"), and its amounts add up to the
      total of all expenses. */
  lemma ByCategorySpec(expenses: seq<Expense>)
    ensures Distinct(Keys(ByCategory(expenses)))
    ensures forall c :: c in Keys(ByCategory(expenses)) <==>
      exists i :: 0 <= i < |expenses| && CategoryKey(expenses[i]) == c
    ensures "" !in Keys(ByCategory(expenses))
    ensures Total(ByCategory(expenses)) == SumOf(expenses, ExpenseAmount)
  {
    GroupSumsKeys(expenses, CategoryKey, ExpenseAmount);
    GroupSumsTotal(expenses, CategoryKey, ExpenseAmount);
  }

  /** The month buckets add up to the total of all expenses. */
  lemma ByMonthTotal(expenses: seq<Expense>)
    ensures Total(ByMonth(expenses)) == SumOf(expenses, ExpenseAmount)
  {
    GroupSumsTotal(expenses, MonthOf, ExpenseAmount);
  }

  /** The chart shows six months, or every month when there are fewer. */
  lemma MonthlyLength(expenses: seq<Expense>)
    ensures |TakeLast(ByMonth(expenses), 6)|
         == Min(6, |set i | 0 <= i < |expenses| :: MonthOf(expenses[i])|)
  {
    var months := set i | 0 <= i < |expenses| :: MonthOf(expenses[i]);
    forall m ensures m in months <==> exists i :: 0 <= i < |expenses| && MonthOf(expenses[i]) == m {
      if m in months {
        var i :| 0 <= i < |expenses| && MonthOf(expenses[i]) == m;
      }
    }
    GroupSumsCount(expenses, MonthOf, ExpenseAmount, months);
  }

  /** The months shown are the last ones in order of first appearance among
      the rows, whatever the calendar order. */
  lemma MonthlyOrder(expenses: seq<Expense>)
    ensures var shown := TakeLast(ByMonth(expenses), 6);
      forall i, j :: 0 <= i < j < |shown| ==>
        FirstIndex(expenses, MonthOf, shown[i].key) < FirstIndex(expenses, MonthOf, shown[j].key)
  {
    var all := ByMonth(expenses);
    var shown := TakeLast(all, 6);
    var off := |all| - |shown|;
    GroupSumsOrder(expenses, MonthOf, ExpenseAmount);
    forall i, j | 0 <= i < j < |shown|
      ensures FirstIndex(expenses, MonthOf, shown[i].key) < FirstIndex(expenses, MonthOf, shown[j].key)
    {
      assert shown[i] == all[off + i] && shown[j] == all[off + j];
      assert Keys(all)[off + i] == shown[i].key && Keys(all)[off + j] == shown[j].key;
    }
  }

  /** The months are not sorted by date: rows from May 2024 followed by rows
      from January 2024 chart May before January. */
  lemma MonthsNotChronological()
    ensures var may := Expense("e1", "m1", "u1", "rice", None, 100.0, "groceries",
                               Date(2024, 5, 3), Date(2024, 5, 3));
      var jan := Expense("e2", "m1", "u1", "oil", None, 50.0, "groceries",
                         Date(2024, 1, 9), Date(2024, 1, 9));
      Keys(ByMonth([may, jan])) == [Month(2024, 5), Month(2024, 1)]
  {
    var may := Expense("e1", "m1", "u1", "rice", None, 100.0, "groceries",
                       Date(2024, 5, 3), Date(2024, 5, 3));
    var jan := Expense("e2", "m1", "u1", "oil", None, 50.0, "groceries",
                       Date(2024, 1, 9), Date(2024, 1, 9));
    assert [may, jan][..1] == [may];
    assert [may][..0] == [];
    assert GroupSums([may], MonthOf, ExpenseAmount)
        == Accumulate(GroupSums([], MonthOf, ExpenseAmount), MonthOf(may), ExpenseAmount(may));
    assert ByMonth([may]) == [Bucket(Month(2024, 5), 100.0)];
    assert ByMonth([may, jan]) == Accumulate(ByMonth([may]), Month(2024, 1), 50.0);
  }

  /** A total spread over `n` periods, dividing by at least one. */
  function AverageOver(total: real, n: nat): (r: real)
    ensures r * Max(n, 1) as real == total
    ensures n == 0 ==> r == total
  {
    total / Max(n, 1) as real
  }

  /** The "Avg Monthly" card as the page computes it: the total of all
      expenses divided by the number of months shown. */
  function AvgMonthlyAsWritten(report: ReportData): int
  {
    Round(AverageOver(report.totalExpenses, |report.monthlyExpenses|))
  }

  /** The average of the months shown: their total over their number. */
  function AvgMonthly(report: ReportData): int
  {
    Round(AverageOver(Total(report.monthlyExpenses), |report.monthlyExpenses|))
  }

  lemma {:induction false} TotalBounds<K>(b: seq<Bucket<K>>, lo: real, hi: real)
    requires forall i :: 0 <= i < |b| ==> lo <= b[i].amount <= hi
    ensures |b| as real * lo <= Total(b)
    ensures Total(b) <= |b| as real * hi
  {
    if b != [] {
      TotalBounds(b[1..], lo, hi);
    }
  }

  /** The corrected average lies between the smallest and the largest
      monthly amount shown, before rounding. */
  lemma AverageWithinMonths(shown: seq<Bucket<Month>>, lo: real, hi: real)
    requires shown != []
    requires forall i :: 0 <= i < |shown| ==> lo <= shown[i].amount <= hi
    ensures lo <= AverageOver(Total(shown), |shown|) <= hi
  {
    TotalBounds(shown, lo, hi);
    AverageBetween(Total(shown), |shown|, lo, hi);
  }

  lemma AverageBetween(t: real, k: nat, lo: real, hi: real)
    requires k >= 1
    requires k as real * lo <= t <= k as real * hi
    ensures lo <= AverageOver(t, k) <= hi
  {
    var n := k as real;
    var a := AverageOver(t, k);
    assert n * a == t;
    ScaleBack(lo, a, n);
    ScaleBack(a, hi, n);
  }

  lemma ScaleBack(x: real, y: real, n: real)
    requires n > 0.0 && n * x <= n * y
    ensures x <= y
  {
  }

  /** With at most six months on record the two averages agree. */
  lemma AveragesAgreeOnShortHistory(expenses: seq<Expense>, report: ReportData)
    requires report.totalExpenses == SumOf(expenses, ExpenseAmount)
    requires report.monthlyExpenses == TakeLast(ByMonth(expenses), 6)
    requires |ByMonth(expenses)| <= 6
    ensures AvgMonthlyAsWritten(report) == AvgMonthly(report)
  {
    ByMonthTotal(expenses);
  }

  /** Seven expenses of 100, one in each month from January to July 2024. */
  const SevenMonthsOfRice: seq<Expense> :=
    seq(7, i requires 0 <= i < 7 => Expense("e", "m1", "u1", "rice", None, 100.0, "groceries",
                                              Date(2024, i + 1, 1), Date(2024, i + 1, 1)))

  /** From seven months of 100 each the report built by BuildReport shows
      117 as the monthly average, more than any month's spending; the
      corrected average is 100. */
  lemma AvgMonthlyOverstates(report: ReportData)
    requires report.totalExpenses == SumOf(SevenMonthsOfRice, ExpenseAmount)
    requires report.monthlyExpenses == TakeLast(ByMonth(SevenMonthsOfRice), 6)
    ensures AvgMonthlyAsWritten(report) == 117 && AvgMonthly(report) == 100
  {
    var rows := SevenMonthsOfRice;
    GroupSumsDistinctKeys(rows, MonthOf, ExpenseAmount);
    var months := ByMonth(rows);
    assert |months| == 7;
    assert forall i :: 0 <= i < |months| ==> months[i].amount == 100.0;
    ByMonthTotal(rows);
    TotalBounds(months, 100.0, 100.0);
    var shown := TakeLast(months, 6);
    assert |shown| == 6;
    TotalBounds(shown, 100.0, 100.0);
    assert Total(shown) == 600.0;
  }

  /** The CSV export's rows: a header, then one row per category in the
      breakdown's order. `show` renders an amount as text. */
  function CsvRows(byCategory: seq<Bucket<string>>, show: real -> string): (r: seq<seq<string>>)
    ensures |r| == |byCategory| + 1
    ensures r[0] == ["Category", "Amount"]
    ensures forall i :: 0 <= i < |byCategory| ==>
      r[i + 1] == [byCategory[i].key, show(byCategory[i].amount)]
  {
    [["Category", "Amount"]]
      + seq(|byCategory|, i requires 0 <= i < |byCategory| => [byCategory[i].key, show(byCategory[i].amount)])
  }

  /** Each row joined with commas. */
  function CsvLines(rows: seq<seq<string>>): (r: seq<string>)
    ensures |r| == |rows|
    ensures forall i :: 0 <= i < |rows| ==> r[i] == Join(rows[i], ",")
  {
    seq(|rows|, i requires 0 <= i < |rows| => Join(rows[i], ","))
  }

  /** The file's text: the lines joined with newlines. */
  function CsvContent(byCategory: seq<Bucket<string>>, show: real -> string): string
  {
    Join(CsvLines(CsvRows(byCategory, show)), "\n")
  }

  lemma JoinPair(a: string, b: string, sep: string)
    ensures Join([a, b], sep) == a + sep + b
  {
    assert [a, b][..1] == [a];
  }

  /** When no category and no rendered amount holds a newline, the file
      splits into exactly the header line and one `category,amount` line
      per category. */
  lemma CsvContentLines(byCategory: seq<Bucket<string>>, show: real -> string)
    requires forall i :: 0 <= i < |byCategory| ==>
      '\n' !in byCategory[i].key && '\n' !in show(byCategory[i].amount)
    ensures var lines := Split(CsvContent(byCategory, show), '\n');
      |lines| == |byCategory| + 1
      && lines[0] == "Category,Amount"
      && forall i :: 0 <= i < |byCategory| ==>
           lines[i + 1] == byCategory[i].key + "," + show(byCategory[i].amount)
  {
    var rows := CsvRows(byCategory, show);
    var lines := CsvLines(rows);
    JoinPair("Category", "Amount", ",");
    assert lines[0] == "Category,Amount";
    forall i | 0 <= i < |byCategory|
      ensures lines[i + 1] == byCategory[i].key + "," + show(byCategory[i].amount)
    {
      JoinPair(byCategory[i].key, show(byCategory[i].amount), ",");
    }
    forall i | 0 <= i < |lines| ensures '\n' !in lines[i] {
      if i > 0 {
        assert lines[i] == byCategory[i - 1].key + "," + show(byCategory[i - 1].amount);
      }
    }
    SplitJoin(lines, '\n');
  }

  /** When the category and the rendered amount also hold no comma, each
      line splits back into exactly its two fields. */
  lemma CsvLineFields(category: string, amountText: string)
    requires ',' !in category && ',' !in amountText
    ensures Split(category + "," + amountText, ',') == [category, amountText]
  {
    JoinPair(category, amountText, ",");
    SplitJoin([category, amountText], ',');
  }
}
