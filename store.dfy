/**
 * The student store (the provider's state): roster, ledger, selected date
 * and the persisted migration marker, with the operations the provider
 * exposes. Persistence, toasts and the clock are outside the model: the
 * fields stand for the persisted keys, and clock readings are parameters.
 */
module Store {
  import opened Wrappers
  import opened Text
  import opened Types
  import opened Rolls
  import opened Ledger
  import opened Roster
  import opened Backup
  import opened Migration

  class StudentStore {
    var students: seq<Student>
    var attendance: AttendanceData
    var selectedDate: string
    /** The `dataVersion` key; `None` when it was never written. */
    var dataVersion: Option<string>

    /** The provider starting from what persistence holds (or the defaults). */
    constructor (students: seq<Student>, attendance: AttendanceData, selectedDate: string, dataVersion: Option<string>)
      ensures this.students == students && this.attendance == attendance
      ensures this.selectedDate == selectedDate && this.dataVersion == dataVersion
    {
      this.students := students;
      this.attendance := attendance;
      this.selectedDate := selectedDate;
      this.dataVersion := dataVersion;
    }

    /** The seeding effect: an empty roster and a non-empty seed list give one student per seed entry. */
    method SeedIfEmpty(seed: seq<SeedEntry>, now: nat)
      modifies this
      ensures students == if |old(students)| == 0 && |seed| > 0 then SeededRoster(seed, now) else old(students)
      ensures attendance == old(attendance) && selectedDate == old(selectedDate) && dataVersion == old(dataVersion)
    {
      if |students| == 0 && |seed| > 0 {
        students := SeededRoster(seed, now);
      }
    }

    /**
     * The migration effect. At the current marker it changes nothing;
     * otherwise it stores the merged, sorted roster, prunes the ledger when
     * the roster size changed, and writes the marker.
     */
    method Migrate(seed: seq<SeedEntry>, now: nat)
      modifies this
      ensures old(dataVersion) == Some(CurrentVersion) ==>
        students == old(students) && attendance == old(attendance) && dataVersion == old(dataVersion)
      ensures old(dataVersion) != Some(CurrentVersion) ==>
        && students == MigratedRoster(old(students), seed, now)
        && attendance == MigratedLedger(old(students), old(attendance), seed, now)
        && dataVersion == Some(CurrentVersion)
      ensures selectedDate == old(selectedDate)
    {
      if dataVersion == Some(CurrentVersion) {
        return;
      }

      var nameToRoll := BuildNameToRoll(seed);
      var normalized := Retained(students, nameToRoll);
      var existing := NameKeys(normalized);
      var additions := CollectAdditions(seed, existing, now);
      var merged := normalized + additions;
      assert normalized == RetainedOf(students, seed);
      assert merged == Merged(students, seed, now);

      var newAttendance := attendance;
      if |merged| != |students| {
        var validIds := IdsOf(normalized);
        newAttendance := PruneLedger(attendance, validIds);
      }
      assert newAttendance == MigratedLedger(students, attendance, seed, now);
      var sorted := SortBy(MigrationOrder, merged);
      assert sorted == MigratedRoster(students, seed, now);
      students, attendance := sorted, newAttendance;
      dataVersion := Some(CurrentVersion);
    }

    /** `addStudent`: appends one student whose id is the clock reading. */
    method AddStudent(name: string, rollNumber: string, photo: Option<string>, now: nat)
      modifies this
      ensures students == old(students) + [Student(NatToString(now), name, rollNumber, photo)]
      ensures attendance == old(attendance) && selectedDate == old(selectedDate) && dataVersion == old(dataVersion)
    {
      students := students + [Student(NatToString(now), name, rollNumber, photo)];
    }

    /** `removeStudent`: drops the students with that id and deletes the id from every date, date by date. */
    method RemoveStudent(id: string)
      modifies this
      ensures students == RemoveById(old(students), id)
      ensures attendance == Cascade(old(attendance), id)
      ensures selectedDate == old(selectedDate) && dataVersion == old(dataVersion)
    {
      students := RemoveById(students, id);
      ghost var before := attendance;
      var dates := attendance.Keys;
      while dates != {}
        invariant dates <= before.Keys && attendance.Keys == before.Keys
        invariant forall d :: d in before && d !in dates ==> attendance[d] == before[d] - {id}
        invariant forall d :: d in dates ==> attendance[d] == before[d]
        invariant students == RemoveById(old(students), id)
        invariant selectedDate == old(selectedDate) && dataVersion == old(dataVersion)
        decreases dates
      {
        var date :| date in dates;
        attendance := attendance[date := attendance[date] - {id}];
        dates := dates - {date};
      }
      assert attendance == Cascade(before, id);
    }

    /** `markAttendance`: upserts the status of one (date, id) pair. */
    method MarkAttendance(studentId: string, status: Status, date: string)
      modifies this
      ensures attendance == Mark(old(attendance), studentId, status, date)
      ensures students == old(students) && selectedDate == old(selectedDate) && dataVersion == old(dataVersion)
    {
      attendance := Mark(attendance, studentId, status, date);
    }

    method SetSelectedDate(date: string)
      modifies this
      ensures selectedDate == date
      ensures students == old(students) && attendance == old(attendance) && dataVersion == old(dataVersion)
    {
      selectedDate := date;
    }

    /** `getTodayStats`: the counters for the selected date, against the live roster. */
    function TodayStats(): (r: Stats)
      reads this
      ensures r.total == |students|
      ensures r.pending == |students| - |DayRecords(attendance, selectedDate).Keys|
      ensures r.present + r.absent + r.pending == r.total
      ensures DayRecords(attendance, selectedDate).Keys <= IdsOf(students) ==> r.pending >= 0
    {
      var r := DayStats(students, attendance, selectedDate);
      assert DayRecords(attendance, selectedDate).Keys <= IdsOf(students) ==> r.pending >= 0 by {
        if DayRecords(attendance, selectedDate).Keys <= IdsOf(students) {
          PendingNonNegative(students, attendance, selectedDate);
        }
      }
      r
    }

    /** `exportBackup`: the payload of the current state; reading it back gives the state again. */
    function ExportBackup(exportedAt: string): (payload: Json)
      reads this
      ensures ReadBackup(Parsed(payload)) == Ok(Snapshot(students, attendance, Some(selectedDate)))
    {
      BackupRoundTrip(students, attendance, selectedDate, exportedAt);
      EncodeBackup(students, attendance, selectedDate, exportedAt)
    }

    /**
     * `importBackup`: all or nothing. A refused payload changes no field and
     * reports its message; an accepted one replaces roster and ledger, and the
     * selected date when the payload carries one as a string.
     */
    method ImportBackup(input: ParseOutcome) returns (success: bool, error: Option<string>)
      modifies this
      ensures success <==> ReadBackup(input).Ok?
      ensures ReadBackup(input).Err? ==>
        && error == Some(ErrorMessage(ReadBackup(input).error))
        && students == old(students) && attendance == old(attendance)
        && selectedDate == old(selectedDate) && dataVersion == old(dataVersion)
      ensures ReadBackup(input).Ok? ==>
        var snap := ReadBackup(input).value;
        && error == None
        && students == snap.students && attendance == snap.attendance
        && selectedDate == (if snap.selectedDate.Some? then snap.selectedDate.value else old(selectedDate))
        && dataVersion == old(dataVersion)
    {
      match ReadBackup(input)
      case Err(e) =>
        success, error := false, Some(ErrorMessage(e));
      case Ok(snap) =>
        students := snap.students;
        attendance := snap.attendance;
        if snap.selectedDate.Some? {
          selectedDate := snap.selectedDate.value;
        }
        success, error := true, None;
    }
  }

  /** The migration's first loop: `nameToRoll.set(key, roll)` for each seed entry in order. */
  method BuildNameToRoll(seed: seq<SeedEntry>) returns (nameToRoll: map<string, string>)
    ensures nameToRoll == SeedRolls(seed)
  {
    nameToRoll := map[];
    for i := 0 to |seed|
      invariant nameToRoll == SeedRolls(seed[..i])
    {
      assert seed[..i + 1][..i] == seed[..i];
      nameToRoll := nameToRoll[NameKey(seed[i].name) := seed[i].rollNumber];
    }
    assert seed[..|seed|] == seed;
  }

  /** The migration's `forEach`: push a fresh student for each seed entry whose key is not yet present. */
  method CollectAdditions(seed: seq<SeedEntry>, existing: set<string>, now: nat) returns (additions: seq<Student>)
    ensures additions == Additions(seed, existing, now, |seed|)
  {
    additions := [];
    for i := 0 to |seed|
      invariant additions == Additions(seed, existing, now, i)
    {
      if NameKey(seed[i].name) !in existing {
        additions := additions + [Student(SeedStudentId(now, i), seed[i].name, seed[i].rollNumber, None)];
      }
    }
  }

  /** The migration's purge loops: `filteredDaily` for each date of `Object.entries(attendance)`. */
  method PruneLedger(att: AttendanceData, validIds: set<string>) returns (pruned: AttendanceData)
    ensures pruned == Prune(att, validIds)
  {
    pruned := map[];
    var dates := att.Keys;
    while dates != {}
      invariant dates <= att.Keys
      invariant pruned.Keys == att.Keys - dates
      invariant forall d :: d in pruned ==> pruned[d] == Prune(att, validIds)[d]
      decreases dates
    {
      var date :| date in dates;
      var daily := att[date];
      var filteredDaily: map<string, Status> := map[];
      var ids := daily.Keys;
      while ids != {}
        invariant ids <= daily.Keys
        invariant filteredDaily.Keys == (daily.Keys - ids) * validIds
        invariant forall k :: k in filteredDaily ==> filteredDaily[k] == daily[k]
        decreases ids
      {
        var sid :| sid in ids;
        if sid in validIds {
          filteredDaily := filteredDaily[sid := daily[sid]];
        }
        ids := ids - {sid};
      }
      assert filteredDaily == Prune(att, validIds)[date];
      pruned := pruned[date := filteredDaily];
      dates := dates - {date};
    }
  }

  /** Importing what another store exports gives this store that store's roster, ledger and date. */
  method RestoreFromExport(target: StudentStore, source: StudentStore, exportedAt: string)
    modifies target
    ensures target.students == old(source.students) && target.attendance == old(source.attendance)
    ensures target.selectedDate == old(source.selectedDate)
  {
    var payload := source.ExportBackup(exportedAt);
    var ok, err := target.ImportBackup(Parsed(payload));
    assert ok;
  }
}
