/**
 * The marking page: a cursor over the roll-ordered roster that the
 * mark, undo and navigation buttons move. Each handler and the reset
 * effect are separate sequential operations; the 1.5 s timer after a
 * mark is folded into the mark (nothing else happens in between).
 */
module Home {
  import opened Wrappers
  import opened Types
  import opened Rolls
  import opened Ledger
  import opened Store

  datatype Direction = Prev | Next

  /** `findIndex` from position `from` for a student with no record in `today`. */
  function FirstUnmarkedFrom(sorted: seq<Student>, today: map<string, Status>, from: nat): (r: Option<nat>)
    ensures r.Some? ==>
      from <= r.value < |sorted| && sorted[r.value].id !in today &&
      forall j :: from <= j < r.value ==> sorted[j].id in today
    ensures r.None? ==> forall j :: from <= j < |sorted| ==> sorted[j].id in today
    decreases |sorted| - from
  {
    if from >= |sorted| then None
    else if sorted[from].id !in today then Some(from)
    else FirstUnmarkedFrom(sorted, today, from + 1)
  }

  /** The effect's index: the first unmarked student, or 0 when everyone is marked. */
  function ResetIndex(sorted: seq<Student>, today: map<string, Status>): (r: nat)
    ensures (forall j :: 0 <= j < |sorted| ==> sorted[j].id in today) ==> r == 0
    ensures (exists j :: 0 <= j < |sorted| && sorted[j].id !in today) ==>
      r < |sorted| && sorted[r].id !in today && forall j :: 0 <= j < r ==> sorted[j].id in today
  {
    match FirstUnmarkedFrom(sorted, today, 0)
    case Some(k) => k
    case None => 0
  }

  /**
   * The index the timer sets after a mark of student `current`, computed from
   * the records as they were before the mark: the first unmarked student after
   * `current`, else `current + 1` when it exists, else `current` itself.
   */
  function TimerIndex(sorted: seq<Student>, today: map<string, Status>, current: nat): (r: nat)
    ensures (exists j :: current < j < |sorted| && sorted[j].id !in today) ==>
      current < r < |sorted| && sorted[r].id !in today && forall j :: current < j < r ==> sorted[j].id in today
    ensures (forall j :: current < j < |sorted| ==> sorted[j].id in today) ==>
      r == if current + 1 < |sorted| then current + 1 else current
  {
    match FirstUnmarkedFrom(sorted, today, current + 1)
    case Some(k) => k
    case None => if current + 1 < |sorted| then current + 1 else current
  }

  /** The timer never moves a cursor out of the roster, nor backwards. */
  lemma TimerIndexInRange(sorted: seq<Student>, today: map<string, Status>, current: nat)
    requires current < |sorted|
    ensures current <= TimerIndex(sorted, today, current) < |sorted|
  {
  }

  /** `navigateStudent` on a roster of `n` students. */
  function NavigateStep(n: nat, index: nat, dir: Direction): nat {
    match dir
    case Prev => if index > 0 then index - 1 else index
    case Next => if index + 1 < n then index + 1 else index
  }

  /** Navigation keeps a cursor in range, moves it by at most one, and `Next` then `Prev` comes back. */
  lemma NavigateSpec(n: nat, index: nat, dir: Direction)
    ensures index < n ==> NavigateStep(n, index, dir) < n
    ensures var r := NavigateStep(n, index, dir); r == index || r == index + 1 || r + 1 == index
    ensures dir == Next && index + 1 < n ==> NavigateStep(n, NavigateStep(n, index, Next), Prev) == index
    ensures dir == Prev && 0 < index < n ==> NavigateStep(n, NavigateStep(n, index, Prev), Next) == index
  {
  }

  /** The status the undo button writes: the opposite of the current one, `Present` when unmarked. */
  function UndoStatus(today: map<string, Status>, id: string): (s: Status)
    ensures id in today ==> s != today[id]
    ensures id !in today ==> s == Present
  {
    if id in today && today[id] == Present then Absent else Present
  }

  /** Removing the record before re-marking it is invisible in the result. */
  lemma {:induction false} DeleteThenMark(att: AttendanceData, id: string, s: Status, date: string)
    requires date in att
    ensures Mark(att[date := att[date] - {id}], id, s, date) == Mark(att, id, s, date)
  {
    var deleted := att[date := att[date] - {id}];
    assert DayRecords(deleted, date)[id := s] == DayRecords(att, date)[id := s];
  }

  class HomePage {
    const store: StudentStore
    var index: nat

    /** The component mounts with index 0 and its effect resets it. */
    constructor (store: StudentStore)
      ensures this.store == store
      ensures index == ResetIndex(SortByRoll(store.students), DayRecords(store.attendance, store.selectedDate))
    {
      this.store := store;
      index := ResetIndex(SortByRoll(store.students), DayRecords(store.attendance, store.selectedDate));
    }

    /** `sortedStudents`. */
    function Roster(): (r: seq<Student>)
      reads this, store
      ensures multiset(r) == multiset(store.students) && Ordered(ReportOrder, r)
    {
      SortByOrdered(ReportOrder, store.students);
      SortByRoll(store.students)
    }

    /** `todayAttendance`. */
    function Today(): map<string, Status>
      reads this, store
    {
      DayRecords(store.attendance, store.selectedDate)
    }

    /** The reset effect. */
    method ResetCursor()
      modifies this
      ensures index == ResetIndex(Roster(), Today())
    {
      index := ResetIndex(Roster(), Today());
    }

    /** The date input: select the date, then the effect resets the cursor. */
    method ChangeDate(date: string)
      modifies this, store
      ensures store.selectedDate == date
      ensures store.students == old(store.students) && store.attendance == old(store.attendance)
      ensures store.dataVersion == old(store.dataVersion)
      ensures index == ResetIndex(Roster(), Today())
    {
      store.SetSelectedDate(date);
      ResetCursor();
    }

    /** `handleMarkAttendance`: mark the current student, then move on as the timer does. */
    method HandleMark(status: Status)
      modifies this, store
      ensures old(index) >= |old(Roster())| ==>
        index == old(index) && store.attendance == old(store.attendance)
      ensures old(index) < |old(Roster())| ==>
        store.attendance == Mark(old(store.attendance), old(Roster())[old(index)].id, status, old(store.selectedDate)) &&
        index == TimerIndex(old(Roster()), old(Today()), old(index)) &&
        old(index) <= index < |Roster()|
      ensures store.students == old(store.students) && store.selectedDate == old(store.selectedDate)
      ensures store.dataVersion == old(store.dataVersion)
    {
      var sorted, today, current := Roster(), Today(), index;
      if current >= |sorted| {
        return;
      }
      store.MarkAttendance(sorted[current].id, status, store.selectedDate);
      TimerIndexInRange(sorted, today, current);
      index := TimerIndex(sorted, today, current);
    }

    /**
     * `handleUndo`: delete the current student's record from the live day
     * map, then mark the opposite status; the cursor stays.
     */
    method HandleUndo()
      modifies store
      ensures old(index) >= |old(Roster())| ==> store.attendance == old(store.attendance)
      ensures old(index) < |old(Roster())| ==>
        var id := old(Roster())[old(index)].id;
        store.attendance == Mark(old(store.attendance), id, UndoStatus(old(Today()), id), old(store.selectedDate))
      ensures store.students == old(store.students) && store.selectedDate == old(store.selectedDate)
      ensures store.dataVersion == old(store.dataVersion)
    {
      var sorted, today := Roster(), Today();
      if index >= |sorted| {
        return;
      }
      var id, date := sorted[index].id, store.selectedDate;
      var before := store.attendance;
      if date in store.attendance {
        store.attendance := store.attendance[date := store.attendance[date] - {id}];
        DeleteThenMark(before, id, UndoStatus(today, id), date);
      }
      store.MarkAttendance(id, UndoStatus(today, id), date);
    }

    /** `navigateStudent`. */
    method Navigate(dir: Direction)
      modifies this
      ensures index == NavigateStep(|Roster()|, old(index), dir)
    {
      index := NavigateStep(|Roster()|, index, dir);
    }
  }
}
