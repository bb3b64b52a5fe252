/** The member dashboard (src/pages/MemberDashboard.tsx): the member's cost
    summary for the month, the date payment is due, the category colours
    and the weekly menu in day order. */
module MemberDashboard {
  import opened Common
  import opened Rows
  import opened Aggregate
  import opened Week

  /** An even share of the month's expenses; no members means no share
      rather than a division by zero. */
  function MonthlyShare(totalExpenses: real, memberCount: Option<nat>): (r: real)
    ensures memberCount.None? || memberCount == Some(0) ==> r == 0.0
    ensures memberCount.Some? && memberCount.value > 0 ==> r * memberCount.value as real == totalExpenses
  {
    if memberCount.Some? && memberCount.value > 0 then totalExpenses / memberCount.value as real else 0.0
  }

  /** A calendar date with a month from 1 to 12. */
  predicate ValidMonth(d: Date)
  {
    1 <= d.month <= 12
  }

  /** The Gregorian rule: every fourth year, except centuries not divisible by 400. */
  predicate IsLeapYear(y: int)
  {
    (y % 4 == 0 && y % 100 != 0) || y % 400 == 0
  }

  function DaysInMonth(year: int, month: int): (r: int)
    requires 1 <= month <= 12
    ensures 28 <= r <= 31
    ensures month == 2 ==> (r == 29 <==> IsLeapYear(year))
    ensures month != 2 ==> (r == 31 <==> month in {1, 3, 5, 7, 8, 10, 12})
  {
    if month == 2 then (if IsLeapYear(year) then 29 else 28)
    else if month in {4, 6, 9, 11} then 30
    else 31
  }

  /** The months of a year add up to 365 days, or 366 in a leap year. */
  lemma YearLength(year: int)
    ensures DaysInMonth(year, 1) + DaysInMonth(year, 2) + DaysInMonth(year, 3) + DaysInMonth(year, 4)
          + DaysInMonth(year, 5) + DaysInMonth(year, 6) + DaysInMonth(year, 7) + DaysInMonth(year, 8)
          + DaysInMonth(year, 9) + DaysInMonth(year, 10) + DaysInMonth(year, 11) + DaysInMonth(year, 12)
         == if IsLeapYear(year) then 366 else 365
  {
  }

  /** The day after a date, in the same calendar. */
  function NextDay(d: Date): Date
    requires ValidMonth(d)
  {
    if d.day < DaysInMonth(d.year, d.month) then Date(d.year, d.month, d.day + 1)
    else if d.month < 12 then Date(d.year, d.month + 1, 1)
    else Date(d.year + 1, 1, 1)
  }

  /** Payment is due on the last day of the current month: "day 0" of the
      next month. */
  function DueDate(today: Date): (r: Date)
    requires ValidMonth(today)
    ensures r.year == today.year && r.month == today.month
    ensures 1 <= r.day <= DaysInMonth(r.year, r.month)
    ensures 1 <= today.day <= DaysInMonth(today.year, today.month) ==> today.day <= r.day
    ensures NextDay(r) == if today.month == 12 then Date(today.year + 1, 1, 1)
                          else Date(today.year, today.month + 1, 1)
  {
    Date(today.year, today.month, DaysInMonth(today.year, today.month))
  }

  /** The due date is the only valid day of the current month whose next
      day starts a new month: the month's last day. */
  lemma DueDateIsLastDay(today: Date, d: Date)
    requires ValidMonth(today)
    requires d.year == today.year && d.month == today.month && 1 <= d.day <= DaysInMonth(d.year, d.month)
    requires NextDay(d).day == 1
    ensures d == DueDate(today)
  {
  }

  /** Whether date `d` is on or after `first`, as the queries compare their
      `YYYY-MM-DD` strings. */
  predicate OnOrAfter(d: Date, first: Date)
  {
    d.year > first.year
    || (d.year == first.year && (d.month > first.month || (d.month == first.month && d.day >= first.day)))
  }

  /** The first day of the current month, the lower bound of both queries. */
  function MonthStart(today: Date): Date
  {
    Date(today.year, today.month, 1)
  }

  function ExpenseSince(first: Date): Expense -> bool
  {
    (e: Expense) => OnOrAfter(e.expenseDate, first)
  }

  function PaymentSince(first: Date): Payment -> bool
  {
    (p: Payment) => OnOrAfter(p.paymentDate, first)
  }

  /** The queries have a lower bound only: with real days (from 1), a row
      counts exactly when its month is the current one or a later one. */
  lemma SinceMonthStart(today: Date, e: Expense, p: Payment)
    requires e.expenseDate.day >= 1 && p.paymentDate.day >= 1
    ensures ExpenseSince(MonthStart(today))(e) <==>
      (e.expenseDate.year, e.expenseDate.month) == (today.year, today.month)
      || e.expenseDate.year > today.year
      || (e.expenseDate.year == today.year && e.expenseDate.month > today.month)
    ensures PaymentSince(MonthStart(today))(p) <==>
      (p.paymentDate.year, p.paymentDate.month) == (today.year, today.month)
      || p.paymentDate.year > today.year
      || (p.paymentDate.year == today.year && p.paymentDate.month > today.month)
  {
  }

  /** The cost card's figures, each rounded to whole rupees. */
  datatype CostSummary = CostSummary(monthlyShare: int, totalPaid: int, balance: int, dueDate: Date)

  /** The mess's expenses since the first of the month. */
  function MonthExpenses(expenses: seq<Expense>, today: Date): real
  {
    SumOf(Filter(expenses, ExpenseSince(MonthStart(today))), ExpenseAmount)
  }

  /** The member's payments since the first of the month. */
  function MonthPaid(payments: seq<Payment>, today: Date): real
  {
    SumOf(Filter(payments, PaymentSince(MonthStart(today))), PaymentAmount)
  }

  /** The member's share of this month's expenses of the mess, what they
      paid this month, and the difference, from the mess's expense rows, the
      member count and the member's own payment rows. */
  function CalculateCostSummary(expenses: seq<Expense>, memberCount: Option<nat>, payments: seq<Payment>,
                                today: Date): (r: CostSummary)
    requires ValidMonth(today)
    ensures var paid := MonthPaid(payments, today);
      r.totalPaid as real - 0.5 <= paid < r.totalPaid as real + 0.5
    ensures var share := MonthlyShare(MonthExpenses(expenses, today), memberCount);
      r.monthlyShare as real - 0.5 <= share < r.monthlyShare as real + 0.5
      && r.balance as real - 0.5 <= MonthPaid(payments, today) - share < r.balance as real + 0.5
    ensures r.dueDate == DueDate(today)
    ensures -1 <= r.balance - (r.totalPaid - r.monthlyShare) <= 1
  {
    var share := MonthlyShare(MonthExpenses(expenses, today), memberCount);
    var paid := MonthPaid(payments, today);
    CostSummary(Round(share), Round(paid), Round(paid - share), DueDate(today))
  }

  /** `n` members each paying `share` cover `total` up to half a payment
      each: the rounding of a per-member share, scaled back up. */
  predicate Covers(share: int, n: nat, total: real)
  {
    (share as real - 0.5) * n as real <= total < (share as real + 0.5) * n as real
  }

  /** With members, the rounded share times the number of members is within
      half a share per member of the month's expenses. */
  lemma ShareCoversExpenses(expenses: seq<Expense>, n: nat, payments: seq<Payment>, today: Date)
    requires ValidMonth(today) && n > 0
    ensures Covers(CalculateCostSummary(expenses, Some(n), payments, today).monthlyShare, n,
                   MonthExpenses(expenses, today))
  {
    RoundedShareCovers(MonthExpenses(expenses, today), n,
                       CalculateCostSummary(expenses, Some(n), payments, today).monthlyShare);
  }

  /** The rounded per-member share `s` of any total, scaled back up. */
  lemma RoundedShareCovers(total: real, n: nat, s: int)
    requires n > 0 && s == Round(MonthlyShare(total, Some(n)))
    ensures Covers(s, n, total)
  {
    RoundScaled(MonthlyShare(total, Some(n)), n as real, s, total);
  }

  lemma RoundScaled(x: real, n: real, m: int, total: real)
    requires n > 0.0 && m as real - 0.5 <= x < m as real + 0.5 && x * n == total
    ensures (m as real - 0.5) * n <= total < (m as real + 0.5) * n
  {
    var lo, hi := m as real - 0.5, m as real + 0.5;
    Scale(lo, x, n);
    ScaleStrict(x, hi, n);
    assert lo * n <= total < hi * n;
  }

  lemma Scale(x: real, y: real, n: real)
    requires x <= y && n > 0.0
    ensures x * n <= y * n
  {
  }

  lemma ScaleStrict(x: real, y: real, n: real)
    requires x < y && n > 0.0
    ensures x * n < y * n
  {
  }

  /** The note under the balance: credit when the rounded balance is not
      negative, otherwise the date payment is due. */
  datatype BalanceNote = Credit | DueBy(date: Date)

  function BalanceNoteOf(s: CostSummary): (r: BalanceNote)
    ensures r == Credit <==> s.balance >= 0
    ensures r.DueBy? ==> r.date == s.dueDate
  {
    if s.balance >= 0 then Credit else DueBy(s.dueDate)
  }

  /** Because the balance is rounded first, a member who owes less than half
      a rupee is still shown in credit. */
  lemma CreditThreshold(expenses: seq<Expense>, memberCount: Option<nat>, payments: seq<Payment>, today: Date)
    requires ValidMonth(today)
    ensures var owed := MonthPaid(payments, today) - MonthlyShare(MonthExpenses(expenses, today), memberCount);
      BalanceNoteOf(CalculateCostSummary(expenses, memberCount, payments, today)) == Credit <==> owed >= -0.5
  {
  }

  const Gray := "bg-gray-100 text-gray-800"

  /** The badge colour of a menu category; unknown categories, like "main",
      are gray. */
  function CategoryColor(category: string): (r: string)
    ensures r == Gray <==> category !in {"breakfast", "lunch", "dinner", "snacks"}
    ensures category == "breakfast" ==> r == "bg-orange-100 text-orange-800"
    ensures category == "lunch" ==> r == "bg-green-100 text-green-800"
    ensures category == "dinner" ==> r == "bg-blue-100 text-blue-800"
    ensures category == "snacks" ==> r == "bg-purple-100 text-purple-800"
  {
    var colors := map[
      "breakfast" := "bg-orange-100 text-orange-800",
      "lunch" := "bg-green-100 text-green-800",
      "dinner" := "bg-blue-100 text-blue-800",
      "snacks" := "bg-purple-100 text-purple-800",
      "main" := Gray];
    if category in colors then colors[category] else Gray
  }

  /** The smallest number of a non-empty set. */
  function Least(s: set<int>): (m: int)
    requires s != {}
    ensures m in s && forall x :: x in s ==> m <= x
  {
    LeastExists(s);
    var m :| m in s && forall x :: x in s ==> m <= x;
    m
  }

  lemma LeastExists(s: set<int>)
    requires s != {}
    ensures exists m :: m in s && forall x :: x in s ==> m <= x
    decreases |s|
  {
    if forall z :: z !in s {
      assert false;
    }
    var y :| y in s;
    if s == {y} {
      assert forall x :: x in s ==> y <= x;
    } else {
      LeastExists(s - {y});
      var m :| m in s - {y} && forall x :: x in s - {y} ==> m <= x;
      var least := if y < m then y else m;
      forall x | x in s
        ensures least <= x
      {
        if x != y {
          assert x in s - {y};
        }
      }
      assert least in s;
    }
  }

  /** The numbers of a set in ascending order. */
  function Ascending(s: set<int>): (r: seq<int>)
    ensures forall i, j :: 0 <= i < j < |r| ==> r[i] < r[j]
    ensures forall x :: x in r <==> x in s
    ensures |r| == |s|
    decreases |s|
  {
    if s == {} then []
    else
      var m := Least(s);
      var rest := Ascending(s - {m});
      [m] + rest
  }

  /** One day of the weekly menu: its heading and its items. */
  datatype Section = Section(day: int, heading: string, items: seq<MenuItem>)

  function SectionsOf(days: seq<int>, byDay: DayBuckets): (r: seq<Section>)
    requires forall i :: 0 <= i < |days| ==> days[i] in byDay
    ensures |r| == |days|
    ensures forall i :: 0 <= i < |r| ==> r[i] == Section(days[i], DayName(days[i]), byDay[days[i]])
  {
    seq(|days|, i requires 0 <= i < |days| => Section(days[i], DayName(days[i]), byDay[days[i]]))
  }

  /** The sections for the days in ascending order: one per day of the
      buckets, ascending, each with that day's items and name. */
  lemma AscendingSections(byDay: DayBuckets, days: seq<int>)
    requires days == Ascending(byDay.Keys)
    ensures forall i :: 0 <= i < |days| ==> days[i] in byDay
    ensures |days| == |byDay|
    ensures forall d :: d in byDay <==> exists i :: 0 <= i < |days| && days[i] == d
  {
    assert |byDay.Keys| == |byDay|;
    forall d
      ensures d in byDay <==> exists i :: 0 <= i < |days| && days[i] == d
    {
      if d in byDay {
        assert d in days;
      }
    }
  }

  /** The weekly menu's sections: the days that have items, in ascending
      day order, each headed by its name. */
  function MenuSections(byDay: DayBuckets): (r: seq<Section>)
    ensures |r| == |byDay|
  {
    var days := Ascending(byDay.Keys);
    AscendingSections(byDay, days);
    SectionsOf(days, byDay)
  }

  /** The sections are in strictly ascending day order. */
  lemma MenuSectionsAscend(byDay: DayBuckets)
    ensures var r := MenuSections(byDay);
      forall i, j :: 0 <= i < j < |r| ==> r[i].day < r[j].day
  {
    var days := Ascending(byDay.Keys);
    AscendingSections(byDay, days);
    assert MenuSections(byDay) == SectionsOf(days, byDay);
  }

  /** There is a section for every day with items and for no other day. */
  lemma MenuSectionsCover(byDay: DayBuckets)
    ensures var r := MenuSections(byDay);
      forall d :: d in byDay <==> exists i :: 0 <= i < |r| && r[i].day == d
  {
    var days := Ascending(byDay.Keys);
    AscendingSections(byDay, days);
    var r := MenuSections(byDay);
    assert r == SectionsOf(days, byDay);
    forall d
      ensures d in byDay <==> exists i :: 0 <= i < |r| && r[i].day == d
    {
      if d in byDay {
        var i :| 0 <= i < |days| && days[i] == d;
        assert r[i].day == d;
      } else {
        forall i | 0 <= i < |r| ensures r[i].day != d {
          assert r[i].day == days[i];
        }
      }
    }
  }

  /** Each section holds exactly its day's items under its day's name. */
  lemma MenuSectionsContents(byDay: DayBuckets)
    ensures var r := MenuSections(byDay);
      forall i :: 0 <= i < |r| ==>
        r[i].day in byDay && r[i].items == byDay[r[i].day] && r[i].heading == DayName(r[i].day)
  {
    var days := Ascending(byDay.Keys);
    AscendingSections(byDay, days);
    var r := MenuSections(byDay);
    assert r == SectionsOf(days, byDay);
    forall i | 0 <= i < |r|
      ensures r[i].day in byDay && r[i].items == byDay[r[i].day] && r[i].heading == DayName(r[i].day)
    {
      assert r[i] == Section(days[i], DayName(days[i]), byDay[days[i]]);
    }
  }

  /** The menu card shows "No menu planned yet" exactly when there are no
      items; otherwise each section holds exactly its day's items, in order. */
  lemma SectionsOfMenu(items: seq<MenuItem>)
    ensures MenuSections(ByDay(items)) == [] <==> items == []
    ensures forall s :: s in MenuSections(ByDay(items)) ==> s.items == Filter(items, DayIs(s.day))
  {
    if items != [] {
      var d := items[|items| - 1].dayOfWeek;
      ByDayBucket(items, d);
      assert d in ByDay(items);
    }
    MenuSectionsContents(ByDay(items));
    forall s | s in MenuSections(ByDay(items)) ensures s.items == Filter(items, DayIs(s.day)) {
      ByDayBucket(items, s.day);
    }
  }
}
