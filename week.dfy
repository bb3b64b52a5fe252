/** The weekly menu as both menu pages see it: the day names, and the
    reduce that files menu items under their day of the week
    (`acc[day] ||= []; acc[day].push(item)`), as in
    src/pages/MenuManagement.tsx and src/pages/MemberDashboard.tsx. */
module Week {
  import opened Rows
  import opened Aggregate

  /** Day 0 is Sunday. */
  const Days: seq<string> := ["Sunday", "Monday", "Tuesday", "Wednesday", "Thursday", "Friday", "Saturday"]

  /** The items of one day, keyed by day number. */
  type DayBuckets = map<int, seq<MenuItem>>

  /** One step of the reduce: append the item to its day's list, creating
      the list when the day has none yet. */
  function Push(acc: DayBuckets, item: MenuItem): DayBuckets
  {
    var d := item.dayOfWeek;
    acc[d := (if d in acc then acc[d] else []) + [item]]
  }

  /** The whole reduce, one item at a time from the left. */
  function ByDay(items: seq<MenuItem>): DayBuckets
  {
    if items == [] then map[] else Push(ByDay(items[..|items| - 1]), items[|items| - 1])
  }

  /** The reduce as the pages run it: a loop that mutates the accumulator. */
  method GroupByDay(items: seq<MenuItem>) returns (acc: DayBuckets)
    ensures acc == ByDay(items)
  {
    acc := map[];
    var i := 0;
    while i < |items|
      invariant 0 <= i <= |items|
      invariant acc == ByDay(items[..i])
    {
      assert items[..i + 1][..i] == items[..i];
      var d := items[i].dayOfWeek;
      if d !in acc {
        acc := acc[d := []];
      }
      acc := acc[d := acc[d] + [items[i]]];
      i := i + 1;
    }
    assert items[..|items|] == items;
  }

  function DayIs(d: int): MenuItem -> bool
  {
    (item: MenuItem) => item.dayOfWeek == d
  }

  /** A day has a list exactly when some item is on that day, and the list
      holds exactly that day's items in their original order. */
  lemma {:induction false} ByDayBucket(items: seq<MenuItem>, d: int)
    ensures d in ByDay(items) <==> exists i :: 0 <= i < |items| && items[i].dayOfWeek == d
    ensures d in ByDay(items) ==> ByDay(items)[d] == Filter(items, DayIs(d))
    ensures d !in ByDay(items) ==> Filter(items, DayIs(d)) == []
  {
    if items != [] {
      var pre := items[..|items| - 1];
      var last := items[|items| - 1];
      ByDayBucket(pre, d);
      assert forall i :: 0 <= i < |pre| ==> pre[i] == items[i];
      if last.dayOfWeek != d && d in ByDay(items) {
        var i :| 0 <= i < |items| && items[i].dayOfWeek == d;
        assert i < |pre|;
      }
    }
  }

  /** Each item is in the list of its own day and in no other. */
  lemma ItemInOwnDay(items: seq<MenuItem>, item: MenuItem, d: int)
    requires item in items
    ensures item.dayOfWeek in ByDay(items) && item in ByDay(items)[item.dayOfWeek]
    ensures d in ByDay(items) && item in ByDay(items)[d] ==> d == item.dayOfWeek
  {
    var i :| 0 <= i < |items| && items[i] == item;
    ByDayBucket(items, item.dayOfWeek);
    ByDayBucket(items, d);
    FilterMembership(items, DayIs(item.dayOfWeek));
    FilterMembership(items, DayIs(d));
  }

  /** The lists of days `0 .. n-1` hold this many items together. */
  function Placed(acc: DayBuckets, n: nat): nat
  {
    if n == 0 then 0
    else Placed(acc, n - 1) + (if n - 1 in acc then |acc[n - 1]| else 0)
  }

  lemma {:induction false} PlacedPush(acc: DayBuckets, item: MenuItem, n: nat)
    ensures Placed(Push(acc, item), n)
         == Placed(acc, n) + (if 0 <= item.dayOfWeek < n then 1 else 0)
  {
    if n > 0 {
      PlacedPush(acc, item, n - 1);
    }
  }

  lemma {:induction false} PlacedNothing(n: nat)
    ensures Placed(map[], n) == 0
  {
    if n > 0 {
      PlacedNothing(n - 1);
    }
  }

  /** When every item is on a day 0..6, the seven lists together hold every
      item: no item is lost or shown twice. */
  lemma {:induction false} ByDayPlacesEveryItem(items: seq<MenuItem>)
    requires forall i :: 0 <= i < |items| ==> 0 <= items[i].dayOfWeek < 7
    ensures Placed(ByDay(items), 7) == |items|
  {
    if items == [] {
      PlacedNothing(7);
    } else {
      var pre := items[..|items| - 1];
      assert forall i :: 0 <= i < |pre| ==> pre[i] == items[i];
      ByDayPlacesEveryItem(pre);
      PlacedPush(ByDay(pre), items[|items| - 1], 7);
    }
  }

  /** The name of a day number: Sunday for 0 up to Saturday for 6, and
      "Unknown" for any other number. */
  function DayName(n: int): (r: string)
    ensures 0 <= n < 7 ==> r == Days[n]
    ensures !(0 <= n < 7) ==> r == "Unknown"
  {
    if 0 <= n < |Days| then Days[n] else "Unknown"
  }

  /** Different days have different names, and none of them is "Unknown". */
  lemma DayNamesDistinct(a: int, b: int)
    requires 0 <= a < 7 && 0 <= b < 7 && a != b
    ensures DayName(a) != DayName(b) && DayName(a) != "Unknown"
  {
    var firsts := "SMTWTFS";
    var seconds := "uouehra";
    assert DayName(a)[0] == firsts[a] && DayName(a)[1] == seconds[a];
    assert DayName(b)[0] == firsts[b] && DayName(b)[1] == seconds[b];
  }
}
