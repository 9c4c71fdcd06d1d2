/** The records the application stores (src/types/index.ts) and the seed entries it reconciles against. */
module Types {
  import opened Wrappers
  import opened Text

  /** An attendance status: the string union `'present' | 'absent'`. */
  datatype Status = Present | Absent

  /** A roster member; `photo` is an optional data URL. */
  datatype Student = Student(id: string, name: string, rollNumber: string, photo: Option<string>)

  /** An entry of the authoritative seed list. */
  datatype SeedEntry = SeedEntry(name: string, rollNumber: string)

  /** date -> (student id -> status); a missing key means "not marked". */
  type AttendanceData = map<string, map<string, Status>>

  /** The join key between stored students and seed entries: `name.trim().toLowerCase()`. */
  function NameKey(name: string): string {
    ToLower(Trim(name))
  }

  /** The set of ids appearing in a roster. */
  function IdsOf(students: seq<Student>): set<string> {
    set s | s in students :: s.id
  }

  /** A roster holds at least as many students as distinct ids. */
  lemma {:induction false} IdsOfSize(students: seq<Student>)
    ensures |IdsOf(students)| <= |students|
  {
    if students != [] {
      var rest := students[1..];
      IdsOfSize(rest);
      assert students == [students[0]] + rest;
      assert IdsOf(students) == IdsOf(rest) + {students[0].id};
    }
  }
}
