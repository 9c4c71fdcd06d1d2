/**
 * The backup format: the payload `exportBackup` builds and the structural
 * validation `importBackup` runs, over parsed JSON values (the text
 * `JSON.stringify` writes and `JSON.parse` reads is not modelled).
 */
module Backup {
  import opened Wrappers
  import opened Types

  /** A parsed JSON value; objects map each key to its (last) value. */
  datatype Json =
    | JNull
    | JBool(b: bool)
    | JNum(n: real)
    | JStr(s: string)
    | JArr(items: seq<Json>)
    | JObj(fields: map<string, Json>)

  /** What `JSON.parse` did with the file's text. */
  datatype ParseOutcome = Parsed(value: Json) | ParseFailure(message: string)

  /** Why an import was refused. */
  datatype ImportError =
    | ParseError(message: string)  // `JSON.parse` threw
    | InvalidFile                  // 'Invalid file'
    | MissingStudents              // 'Missing students'
    | MissingAttendance            // 'Missing attendance'
    | Unrepresentable              // passes the source's checks, but holds an entry the typed store cannot hold

  datatype Result<T> = Ok(value: T) | Err(error: ImportError)

  /** What an import restores: roster, ledger and, when the payload carries one as a string, the selected date. */
  datatype Snapshot = Snapshot(students: seq<Student>, attendance: AttendanceData, selectedDate: Option<string>)

  /** The message `importBackup` reports: `e?.message || 'Failed to import backup'`. */
  function ErrorMessage(e: ImportError): (m: string)
    ensures m != ""
  {
    match e
    case ParseError(message) => if message == "" then "Failed to import backup" else message
    case InvalidFile => "Invalid file"
    case MissingStudents => "Missing students"
    case MissingAttendance => "Missing attendance"
    case Unrepresentable => "Unsupported backup entry"
  }

  /** JavaScript truthiness of a parsed value. */
  predicate Truthy(v: Json) {
    match v
    case JNull => false
    case JBool(b) => b
    case JNum(n) => n != 0.0
    case JStr(s) => s != ""
    case _ => true
  }

  /** `typeof v === 'object'`: true of null, arrays and objects. */
  predicate TypeofObject(v: Json) {
    v.JNull? || v.JArr? || v.JObj?
  }

  /** Property access `v.key`; `None` is `undefined`. */
  function Field(v: Json, key: string): Option<Json> {
    if v.JObj? && key in v.fields then Some(v.fields[key]) else None
  }

  function EncodeStatus(s: Status): Json {
    match s
    case Present => JStr("present")
    case Absent => JStr("absent")
  }

  function DecodeStatus(v: Json): Option<Status> {
    if v == JStr("present") then Some(Present)
    else if v == JStr("absent") then Some(Absent)
    else None
  }

  /** A student as `JSON.stringify` writes it: `photo` omitted when undefined. */
  function EncodeStudent(s: Student): Json {
    var base := map["id" := JStr(s.id), "name" := JStr(s.name), "rollNumber" := JStr(s.rollNumber)];
    JObj(if s.photo.Some? then base["photo" := JStr(s.photo.value)] else base)
  }

  function StringField(v: Json, key: string): Option<string> {
    match Field(v, key)
    case Some(JStr(s)) => Some(s)
    case _ => None
  }

  function DecodeStudent(v: Json): Option<Student> {
    var id, name, roll := StringField(v, "id"), StringField(v, "name"), StringField(v, "rollNumber");
    if !v.JObj? || id.None? || name.None? || roll.None? then None
    else if "photo" !in v.fields then Some(Student(id.value, name.value, roll.value, None))
    else match v.fields["photo"]
      case JStr(p) => Some(Student(id.value, name.value, roll.value, Some(p)))
      case _ => None
  }

  function EncodeStudents(students: seq<Student>): seq<Json> {
    if students == [] then [] else [EncodeStudent(students[0])] + EncodeStudents(students[1..])
  }

  function DecodeStudents(items: seq<Json>): Option<seq<Student>> {
    if items == [] then Some([])
    else match (DecodeStudent(items[0]), DecodeStudents(items[1..]))
      case (Some(s), Some(rest)) => Some([s] + rest)
      case _ => None
  }

  function EncodeDay(day: map<string, Status>): Json {
    JObj(map k | k in day :: EncodeStatus(day[k]))
  }

  function DecodeDay(v: Json): Option<map<string, Status>> {
    if v.JObj? && forall k :: k in v.fields ==> DecodeStatus(v.fields[k]).Some? then
      Some(map k | k in v.fields :: DecodeStatus(v.fields[k]).value)
    else None
  }

  function EncodeLedger(att: AttendanceData): Json {
    JObj(map d | d in att :: EncodeDay(att[d]))
  }

  function DecodeLedger(v: Json): Option<AttendanceData> {
    if v.JObj? && forall d :: d in v.fields ==> DecodeDay(v.fields[d]).Some? then
      Some(map d | d in v.fields :: DecodeDay(v.fields[d]).value)
    else None
  }

  /** The payload `exportBackup` builds; `exportedAt` is the export clock's ISO timestamp. */
  function EncodeBackup(students: seq<Student>, att: AttendanceData, selectedDate: string, exportedAt: string): Json {
    JObj(map[
      "version" := JNum(1.0),
      "exportedAt" := JStr(exportedAt),
      "students" := JArr(EncodeStudents(students)),
      "attendance" := EncodeLedger(att),
      "selectedDate" := JStr(selectedDate)])
  }

  /**
   * `importBackup`'s validation: the checks of the source in their order,
   * first failure wins, then the typed reading of the entries.
   */
  function ReadBackup(input: ParseOutcome): Result<Snapshot> {
    match input
    case ParseFailure(message) => Err(ParseError(message))
    case Parsed(v) =>
      if !Truthy(v) || !TypeofObject(v) then Err(InvalidFile)
      else if !(Field(v, "students").Some? && Field(v, "students").value.JArr?) then Err(MissingStudents)
      else if !(Field(v, "attendance").Some? && Truthy(Field(v, "attendance").value)
                && TypeofObject(Field(v, "attendance").value)) then Err(MissingAttendance)
      else
        var students := DecodeStudents(Field(v, "students").value.items);
        var att := DecodeLedger(Field(v, "attendance").value);
        if students.None? || att.None? then Err(Unrepresentable)
        else
          var date := match Field(v, "selectedDate") case Some(JStr(d)) => Some(d) case _ => None;
          Ok(Snapshot(students.value, att.value, date))
  }

  /**
   * The order of the checks: each error is reported exactly when every
   * earlier check passed and its own failed.
   */
  lemma ReadBackupErrors(input: ParseOutcome)
    ensures forall m :: ReadBackup(input) == Err(ParseError(m)) <==> input == ParseFailure(m)
    ensures ReadBackup(input) == Err(InvalidFile) <==>
      input.Parsed? && (input.value.JNull? || input.value.JBool? || input.value.JNum? || input.value.JStr?)
    ensures ReadBackup(input) == Err(MissingStudents) <==>
      input.Parsed? && (input.value.JArr? || input.value.JObj?) &&
      !(Field(input.value, "students").Some? && Field(input.value, "students").value.JArr?)
    ensures ReadBackup(input) == Err(MissingAttendance) <==>
      input.Parsed? && input.value.JObj? && "students" in input.value.fields && input.value.fields["students"].JArr? &&
      !("attendance" in input.value.fields &&
        (input.value.fields["attendance"].JArr? || input.value.fields["attendance"].JObj?))
  {
  }

  lemma {:induction false} StudentsRoundTrip(students: seq<Student>)
    ensures DecodeStudents(EncodeStudents(students)) == Some(students)
  {
    if students != [] {
      StudentsRoundTrip(students[1..]);
      var s := students[0];
      assert DecodeStudent(EncodeStudent(s)) == Some(s);
      assert EncodeStudents(students)[1..] == EncodeStudents(students[1..]);
      assert students == [s] + students[1..];
    }
  }

  lemma DayRoundTrip(day: map<string, Status>)
    ensures DecodeDay(EncodeDay(day)) == Some(day)
  {
    var e := EncodeDay(day);
    forall k | k in e.fields ensures DecodeStatus(e.fields[k]) == Some(day[k]) {
      assert e.fields[k] == EncodeStatus(day[k]);
    }
    assert DecodeDay(e).value == day;
  }

  lemma LedgerRoundTrip(att: AttendanceData)
    ensures DecodeLedger(EncodeLedger(att)) == Some(att)
  {
    var e := EncodeLedger(att);
    forall d | d in e.fields ensures DecodeDay(e.fields[d]) == Some(att[d]) {
      assert e.fields[d] == EncodeDay(att[d]);
      DayRoundTrip(att[d]);
    }
    assert DecodeLedger(e).value == att;
  }

  /** Reading back an exported payload restores the roster, the ledger and the selected date. */
  lemma BackupRoundTrip(students: seq<Student>, att: AttendanceData, selectedDate: string, exportedAt: string)
    ensures ReadBackup(Parsed(EncodeBackup(students, att, selectedDate, exportedAt)))
      == Ok(Snapshot(students, att, Some(selectedDate)))
  {
    StudentsRoundTrip(students);
    LedgerRoundTrip(att);
  }

  /** `{"students": []}` has its roster but no ledger, so it is refused with 'Missing attendance'. */
  lemma StudentsOnlyIsRefused()
    ensures ReadBackup(Parsed(JObj(map["students" := JArr([])]))) == Err(MissingAttendance)
  {
  }

  /** `{"roster": []}` names the roster under another key, so it is refused with 'Missing students'. */
  lemma WrongRosterKeyIsRefused()
    ensures ReadBackup(Parsed(JObj(map["roster" := JArr([]), "attendance" := JObj(map[])]))) == Err(MissingStudents)
  {
  }
}
