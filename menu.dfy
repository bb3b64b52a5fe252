/** The menu management page (src/pages/MenuManagement.tsx): the seven day
    columns, the day and category selects, and the add/edit dialog. */
module Menu {
  import opened Common
  import opened Text
  import opened Rows
  import opened Aggregate
  import opened Week

  /** What a day column shows: its items, or `None` for the
      "No items planned" placeholder. */
  function Column(grouped: DayBuckets, dayIndex: int): Option<seq<MenuItem>>
  {
    if dayIndex in grouped then Some(grouped[dayIndex]) else None
  }

  /** A column shows the placeholder exactly when no item is on that day;
      otherwise it shows that day's items in their original order. */
  lemma ColumnContents(items: seq<MenuItem>, dayIndex: int)
    ensures Column(ByDay(items), dayIndex).None? <==>
      forall i :: 0 <= i < |items| ==> items[i].dayOfWeek != dayIndex
    ensures Column(ByDay(items), dayIndex).Some? ==>
      Column(ByDay(items), dayIndex).value == Filter(items, DayIs(dayIndex))
      && Column(ByDay(items), dayIndex).value != []
      && IsSubsequence(Column(ByDay(items), dayIndex).value, items)
  {
    ByDayBucket(items, dayIndex);
    FilterIsSubsequence(items, DayIs(dayIndex));
    if dayIndex in ByDay(items) {
      var i :| 0 <= i < |items| && items[i].dayOfWeek == dayIndex;
      FilterMembership(items, DayIs(dayIndex));
      assert items[i] in Filter(items, DayIs(dayIndex));
    }
  }

  /** The seven columns, Sunday first, each with its day name. */
  function Columns(items: seq<MenuItem>): (r: seq<(string, Option<seq<MenuItem>>)>)
    ensures |r| == 7
    ensures forall d :: 0 <= d < 7 ==> r[d].0 == DayName(d)
    ensures forall d :: 0 <= d < 7 ==> r[d].1 == Column(ByDay(items), d)
  {
    var grouped := ByDay(items);
    seq(7, d requires 0 <= d < 7 => (Days[d], Column(grouped, d)))
  }

  /** One entry of the day select: its value and its label. */
  function DayOptions(): (r: seq<(string, string)>)
    ensures |r| == 7
  {
    seq(7, d requires 0 <= d < 7 => (NatToString(d), Days[d]))
  }

  /** Choosing the entry for day `d` sets the form's day to `d`, and that
      entry is labelled with the day's name; the form's day selects that
      same entry again. */
  lemma DaySelectRoundTrip(d: nat)
    requires d < 7
    ensures ParseNat(DayOptions()[d].0) == d
    ensures DayOptions()[d].1 == DayName(d)
    ensures forall e :: 0 <= e < 7 && DayOptions()[e].0 == NatToString(d) ==> e == d
  {
    ParseNatToString(d);
    forall e | 0 <= e < 7 && DayOptions()[e].0 == NatToString(d) ensures e == d {
      ParseNatToString(e);
    }
  }

  /** The label of a category in its select: the first letter upper-cased. */
  function CategoryLabel(category: string): (r: string)
    ensures |r| == |category|
    ensures category != "" ==> r[0] == Upper(category[0]) && r[1..] == category[1..]
  {
    Capitalize(category)
  }

  /** The add/edit dialog's fields. */
  datatype MenuForm = MenuForm(name: string, description: string, category: string, dayOfWeek: int)

  /** The menu columns the dialog writes. */
  datatype MenuFields = MenuFields(name: string, description: Option<string>, category: string, dayOfWeek: int)

  /** The blank dialog, and what it resets to after a save: lunch on Sunday. */
  const BlankForm := MenuForm("", "", "lunch", 0)

  /** Opening an item for editing copies its columns into the dialog. */
  function StartEdit(item: MenuItem): MenuForm
  {
    MenuForm(item.name, EmptyIfNull(item.description), item.category, item.dayOfWeek)
  }

  /** The values written on save; an empty description is stored as null. */
  function Payload(form: MenuForm): MenuFields
  {
    MenuFields(form.name, NullIfEmpty(form.description), form.category, form.dayOfWeek)
  }

  /** Saving an item right after opening it writes back its name, category
      and day; a null description stays null and only an empty one turns
      into null. */
  lemma EditRoundTrip(item: MenuItem)
    ensures var f := Payload(StartEdit(item));
      f.name == item.name && f.category == item.category && f.dayOfWeek == item.dayOfWeek
      && f.description == (if item.description == Some("") then None else item.description)
  {
    NullRoundTrip(item.description);
  }

  /** Saving the dialog: the write, and the dialog afterwards (blank after a
      save, unchanged after a failure). */
  function SubmitMenuItem(messId: Option<string>, editing: Option<MenuItem>, form: MenuForm)
    : (r: (Result<Write<MenuFields>>, MenuForm))
    ensures r.0.Failure? <==> messId.None?
    ensures r.0.Failure? ==> r.0.error == "No mess found"
    ensures r.0.Success? ==> r.0.value.payload == Payload(form)
    ensures r.0.Success? && editing.Some? ==> r.0.value == Update(editing.value.id, Payload(form))
    ensures r.0.Success? && editing.None? ==> r.0.value == Insert(messId.value, Payload(form))
    ensures r.1 == if r.0.Success? then BlankForm else form
  {
    var write := Submit(messId, if editing.Some? then Some(editing.value.id) else None, Payload(form));
    (write, if write.Success? then BlankForm else form)
  }

  /** After a successful save the dialog is back to an empty lunch item on
      Sunday, whatever was in it. */
  lemma SubmitResetsForm(messId: string, editing: Option<MenuItem>, form: MenuForm)
    ensures SubmitMenuItem(Some(messId), editing, form).1 == MenuForm("", "", "lunch", 0)
    ensures DayName(SubmitMenuItem(Some(messId), editing, form).1.dayOfWeek) == "Sunday"
  {
  }
}
