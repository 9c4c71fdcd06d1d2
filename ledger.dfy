/**
 * The attendance ledger, date -> (student id -> status), and the pure
 * transformations the store applies to it: the upsert of `markAttendance`,
 * the cascade of `removeStudent`, the migration's prune, and the per-date
 * statistics.
 */
module Ledger {
  import opened Wrappers
  import opened Types

  /** `attendance[date] || {}`: a missing date reads as an empty day. */
  function DayRecords(att: AttendanceData, date: string): map<string, Status> {
    if date in att then att[date] else map[]
  }

  /** The recorded status of one (date, id) pair, `None` when not marked. */
  function StatusOf(att: AttendanceData, date: string, id: string): Option<Status> {
    var day := DayRecords(att, date);
    if id in day then Some(day[id]) else None
  }

  /** `markAttendance(id, status, date)`: `{...prev, [date]: {...prev[date], [id]: status}}`. */
  function Mark(att: AttendanceData, id: string, status: Status, date: string): AttendanceData {
    att[date := DayRecords(att, date)[id := status]]
  }

  /** After a mark the pair holds the new status and every other pair is unchanged. */
  lemma MarkSpec(att: AttendanceData, id: string, status: Status, date: string)
    ensures Mark(att, id, status, date).Keys == att.Keys + {date}
    ensures StatusOf(Mark(att, id, status, date), date, id) == Some(status)
    ensures forall d, k :: (d != date || k != id) ==>
      StatusOf(Mark(att, id, status, date), d, k) == StatusOf(att, d, k)
  {
  }

  /** Marking the same pair twice keeps only the last write. */
  lemma MarkLastWriteWins(att: AttendanceData, id: string, first: Status, second: Status, date: string)
    ensures Mark(Mark(att, id, first, date), id, second, date) == Mark(att, id, second, date)
  {
    var once := Mark(att, id, second, date);
    var twice := Mark(Mark(att, id, first, date), id, second, date);
    assert twice[date] == once[date];
  }

  /** `removeStudent`'s cascade: `delete attendance[date][id]` for every date. */
  function Cascade(att: AttendanceData, id: string): AttendanceData {
    map d | d in att :: att[d] - {id}
  }

  /** The cascade keeps every date, leaves no record of `id`, and keeps every other record. */
  lemma CascadeSpec(att: AttendanceData, id: string)
    ensures Cascade(att, id).Keys == att.Keys
    ensures forall d :: StatusOf(Cascade(att, id), d, id) == None
    ensures forall d, k :: k != id ==> StatusOf(Cascade(att, id), d, k) == StatusOf(att, d, k)
  {
  }

  /** Removing an id that has no records leaves the ledger as it was. */
  lemma CascadeWithoutRecords(att: AttendanceData, id: string)
    requires forall d :: d in att ==> id !in att[d]
    ensures Cascade(att, id) == att
  {
    var c := Cascade(att, id);
    forall d | d in att ensures c[d] == att[d] {
      assert att[d] - {id} == att[d];
    }
  }

  /** The migration's purge: every date kept, each day restricted to the ids in `valid`. */
  function Prune(att: AttendanceData, valid: set<string>): AttendanceData {
    map d | d in att :: map k | k in att[d] && k in valid :: att[d][k]
  }

  /** After pruning, every date is still there, no day holds an invalid id, and surviving records keep their status. */
  lemma PruneSpec(att: AttendanceData, valid: set<string>)
    ensures Prune(att, valid).Keys == att.Keys
    ensures forall d :: d in att ==> Prune(att, valid)[d].Keys <= valid
    ensures forall d, k :: StatusOf(Prune(att, valid), d, k) == if k in valid then StatusOf(att, d, k) else None
  {
  }

  /** The four counters shown for a date. */
  datatype Stats = Stats(total: int, present: int, absent: int, pending: int)

  /** How many records of the day carry `status` (`Object.values(day).filter(v => v === status).length`). */
  function CountStatus(day: map<string, Status>, status: Status): nat {
    |set k | k in day && day[k] == status|
  }

  /** Present and absent records together are all the day's records. */
  lemma CountsPartition(day: map<string, Status>)
    ensures CountStatus(day, Present) + CountStatus(day, Absent) == |day.Keys|
  {
    var p := set k | k in day && day[k] == Present;
    var a := set k | k in day && day[k] == Absent;
    assert p !! a;
    assert p + a == day.Keys;
  }

  /**
   * `getTodayStats` and the summary page's `stats`: the total is the roster
   * size, pending is the total minus the number of recorded ids, and so the
   * three counters always add up to the total.
   */
  function DayStats(students: seq<Student>, att: AttendanceData, date: string): (r: Stats)
    ensures r.total == |students|
    ensures r.present == CountStatus(DayRecords(att, date), Present)
    ensures r.absent == CountStatus(DayRecords(att, date), Absent)
    ensures r.pending == |students| - |DayRecords(att, date).Keys|
    ensures r.present + r.absent + r.pending == r.total
  {
    var day := DayRecords(att, date);
    CountsPartition(day);
    Stats(|students|, CountStatus(day, Present), CountStatus(day, Absent), |students| - |day.Keys|)
  }

  /** Pending cannot go negative while every recorded id of the date belongs to the roster. */
  lemma PendingNonNegative(students: seq<Student>, att: AttendanceData, date: string)
    requires DayRecords(att, date).Keys <= IdsOf(students)
    ensures DayStats(students, att, date).pending >= 0
  {
    IdsOfSize(students);
    assert |DayRecords(att, date).Keys| <= |IdsOf(students)| by {
      SubsetSize(DayRecords(att, date).Keys, IdsOf(students));
    }
  }

  lemma {:induction false} SubsetSize<T>(a: set<T>, b: set<T>)
    requires a <= b
    ensures |a| <= |b|
  {
    assert b == a + (b - a);
  }

  /** A date with no sub-map has the same statistics as one with an empty sub-map. */
  lemma MissingDateIsEmpty(students: seq<Student>, att: AttendanceData, date: string)
    requires date !in att
    ensures DayStats(students, att, date) == DayStats(students, att[date := map[]], date)
    ensures DayStats(students, att, date) == Stats(|students|, 0, 0, |students|)
  {
  }
}
