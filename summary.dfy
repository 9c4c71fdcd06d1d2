/**
 * The attendance summary page's computations: the roll-ordered roster,
 * the search filter, and the CSV text of the download (without the
 * Blob/anchor download itself). Its counters are `Ledger.DayStats`.
 */
module Summary {
  import opened Wrappers
  import opened Text
  import opened Types
  import opened Rolls
  import opened Ledger

  // ---------------------------------------------------------------- sorting

  lemma ParseRollTen()
    ensures ParseRoll("10") == 10
  {
    assert FirstDigitIndex("10") == 0;
    assert DigitRunLength("0") == 1;
    assert DigitRunLength("10") == 2;
    assert FirstDigitRun("10") == "10";
    assert DigitsValue("1") == 1;
  }

  lemma ParseRollNineA()
    ensures ParseRoll("9a") == 9
  {
    assert FirstDigitIndex("9a") == 0;
    assert DigitRunLength("a") == 0;
    assert DigitRunLength("9a") == 1;
    assert FirstDigitRun("9a") == "9";
  }

  lemma ParseRollOne()
    ensures ParseRoll("1") == 1
  {
    assert FirstDigitIndex("1") == 0;
    assert DigitRunLength("1") == 1;
    assert FirstDigitRun("1") == "1";
  }

  lemma ParseRollTwo()
    ensures ParseRoll("2") == 2
  {
    assert FirstDigitIndex("2") == 0;
    assert DigitRunLength("2") == 1;
    assert FirstDigitRun("2") == "2";
  }

  function Labelled(roll: string): Student {
    Student(roll, "n", roll, None)
  }

  lemma SortTwoExample()
    ensures SortBy(ReportOrder, [Labelled("10"), Labelled("2")]) == [Labelled("2"), Labelled("10")]
  {
    ParseRollTen();
    ParseRollTwo();
    assert [Labelled("10"), Labelled("2")][..1] == [Labelled("10")];
    assert SortBy(ReportOrder, [Labelled("10")]) == [Labelled("10")];
  }

  lemma SortThreeExample()
    ensures SortBy(ReportOrder, [Labelled("10"), Labelled("2"), Labelled("9a")])
      == [Labelled("2"), Labelled("9a"), Labelled("10")]
  {
    ParseRollTen();
    ParseRollTwo();
    ParseRollNineA();
    SortTwoExample();
    assert [Labelled("10"), Labelled("2"), Labelled("9a")][..2] == [Labelled("10"), Labelled("2")];
    assert Insert(ReportOrder, Labelled("9a"), [Labelled("10")]) == [Labelled("9a"), Labelled("10")];
  }

  lemma InsertFirstExample()
    ensures Insert(ReportOrder, Labelled("1"), [Labelled("2"), Labelled("9a"), Labelled("10")])
      == [Labelled("1"), Labelled("2"), Labelled("9a"), Labelled("10")]
  {
    ParseRollOne();
    ParseRollTwo();
  }

  /** Labels `["10", "2", "9a", "1"]` are listed as `1, 2, 9a, 10`: `9a` ranks by its digit run 9. */
  lemma SortByRollExample()
    ensures SortByRoll([Labelled("10"), Labelled("2"), Labelled("9a"), Labelled("1")])
      == [Labelled("1"), Labelled("2"), Labelled("9a"), Labelled("10")]
  {
    SortThreeExample();
    InsertFirstExample();
    var s := [Labelled("10"), Labelled("2"), Labelled("9a"), Labelled("1")];
    assert s[..3] == [Labelled("10"), Labelled("2"), Labelled("9a")];
  }

  // ---------------------------------------------------------------- search

  /** The lower-cased name or roll contains the lower-cased search term. */
  predicate MatchesSearch(s: Student, term: string) {
    Includes(ToLower(s.name), ToLower(term)) || Includes(ToLower(s.rollNumber), ToLower(term))
  }

  /** `filteredStudents`. */
  function FilterStudents(sorted: seq<Student>, term: string): seq<Student> {
    if sorted == [] then []
    else (if MatchesSearch(sorted[0], term) then [sorted[0]] else []) + FilterStudents(sorted[1..], term)
  }

  /** A student is listed exactly when it is on the roster and matches the term. */
  lemma {:induction false} FilterStudentsMembers(sorted: seq<Student>, term: string)
    ensures forall x :: x in FilterStudents(sorted, term) <==> x in sorted && MatchesSearch(x, term)
  {
    if sorted != [] {
      FilterStudentsMembers(sorted[1..], term);
      assert sorted == [sorted[0]] + sorted[1..];
    }
  }

  lemma OrderedTail(s: seq<Student>)
    requires s != [] && Ordered(ReportOrder, s)
    ensures Ordered(ReportOrder, s[1..])
  {
    var rest := s[1..];
    forall i, j | 0 <= i < j < |rest| ensures !Precedes(ReportOrder, rest[j], rest[i]) {
      assert rest[i] == s[i + 1] && rest[j] == s[j + 1];
    }
  }

  lemma OrderedCons(x: Student, t: seq<Student>)
    requires Ordered(ReportOrder, t)
    requires forall y :: y in t ==> !Precedes(ReportOrder, y, x)
    ensures Ordered(ReportOrder, [x] + t)
  {
    var r := [x] + t;
    forall i, j | 0 <= i < j < |r| ensures !Precedes(ReportOrder, r[j], r[i]) {
      assert r[j] == t[j - 1];
      if i > 0 {
        assert r[i] == t[i - 1];
      }
    }
  }

  /** The filter keeps the roll order of what it lists. */
  lemma {:induction false} FilterStudentsOrdered(sorted: seq<Student>, term: string)
    requires Ordered(ReportOrder, sorted)
    ensures Ordered(ReportOrder, FilterStudents(sorted, term))
  {
    if sorted != [] {
      var rest := sorted[1..];
      OrderedTail(sorted);
      FilterStudentsOrdered(rest, term);
      if MatchesSearch(sorted[0], term) {
        var tail := FilterStudents(rest, term);
        FilterStudentsMembers(rest, term);
        forall y | y in tail ensures !Precedes(ReportOrder, y, sorted[0]) {
          var k :| 0 <= k < |rest| && rest[k] == y;
          assert sorted[k + 1] == y;
        }
        OrderedCons(sorted[0], tail);
      }
    }
  }

  /** An empty search term lists everyone. */
  lemma {:induction false} EmptySearchKeepsAll(sorted: seq<Student>)
    ensures FilterStudents(sorted, "") == sorted
  {
    if sorted != [] {
      assert ToLower("") == "";
      IncludesEmpty(ToLower(sorted[0].name));
      EmptySearchKeepsAll(sorted[1..]);
      assert sorted == [sorted[0]] + sorted[1..];
    }
  }

  // ---------------------------------------------------------------- CSV

  const Headers: seq<string> := ["Roll No.", "Name", "Status"]

  /** The status cell: `Present`, `Absent`, or `Not Marked` when the id has no record. */
  function StatusLabel(today: map<string, Status>, id: string): (text: string)
    ensures id !in today ==> text == "Not Marked"
    ensures id in today && today[id] == Present ==> text == "Present"
    ensures id in today && today[id] == Absent ==> text == "Absent"
  {
    if id in today && today[id] == Present then "Present"
    else if id in today && today[id] == Absent then "Absent"
    else "Not Marked"
  }

  /** The cell contains one of the characters the page quotes for (`"`, `,`, line feed). */
  predicate NeedsQuoting(s: string) {
    exists i :: 0 <= i < |s| && (s[i] == '"' || s[i] == ',' || s[i] == '\n')
  }

  function DoubleQuotes(s: string): string {
    if s == [] then [] else (if s[0] == '"' then "\"\"" else [s[0]]) + DoubleQuotes(s[1..])
  }

  /** `escapeCell`: `String(val ?? '')`, quoted with inner quotes doubled when it needs quoting. */
  function EscapeCell(val: Option<string>): string {
    var str := if val.Some? then val.value else "";
    if NeedsQuoting(str) then "\"" + DoubleQuotes(str) + "\"" else str
  }

  /** `parts.join(sep)`. */
  function Join(parts: seq<string>, sep: string): string {
    if parts == [] then ""
    else if |parts| == 1 then parts[0]
    else parts[0] + sep + Join(parts[1..], sep)
  }

  function EscapeAll(cells: seq<string>): seq<string> {
    if cells == [] then [] else [EscapeCell(Some(cells[0]))] + EscapeAll(cells[1..])
  }

  /** One line of the file: the escaped cells joined by commas. */
  function CsvLine(cells: seq<string>): string {
    Join(EscapeAll(cells), ",")
  }

  /** The three cells of a student's line. */
  function StudentCells(s: Student, today: map<string, Status>): seq<string> {
    [s.rollNumber, s.name, StatusLabel(today, s.id)]
  }

  function StudentLines(sorted: seq<Student>, today: map<string, Status>): seq<string> {
    if sorted == [] then [] else [CsvLine(StudentCells(sorted[0], today))] + StudentLines(sorted[1..], today)
  }

  /** `csvContent`: the unescaped header line, then one line per sorted student, joined by line feeds. */
  function CsvContent(students: seq<Student>, att: AttendanceData, date: string): string {
    var today := DayRecords(att, date);
    Join([Join(Headers, ",")] + StudentLines(SortByRoll(students), today), "\n")
  }

  /** The table the file is meant to hold: the header row, then each sorted student's cells. */
  function CsvTable(students: seq<Student>, att: AttendanceData, date: string): seq<seq<string>> {
    [Headers] + StudentRows(SortByRoll(students), DayRecords(att, date))
  }

  function StudentRows(sorted: seq<Student>, today: map<string, Status>): seq<seq<string>> {
    if sorted == [] then [] else [StudentCells(sorted[0], today)] + StudentRows(sorted[1..], today)
  }

  // A reader for the dialect the page writes: RFC 4180 fields, ',' between
  // fields, a line feed between records; a carriage return is ordinary text.

  /** Reads the rest of a quoted field after its opening quote: (content, text after the closing quote). */
  function ReadQuoted(t: string): (r: (string, string))
    ensures |r.1| <= |t|
  {
    if t == [] then ([], [])
    else if t[0] == '"' then
      if |t| >= 2 && t[1] == '"' then
        var (f, rest) := ReadQuoted(t[2..]);
        (['"'] + f, rest)
      else ([], t[1..])
    else
      var (f, rest) := ReadQuoted(t[1..]);
      ([t[0]] + f, rest)
  }

  /** Reads an unquoted field up to the next ',' or line feed. */
  function ReadPlain(t: string): (r: (string, string))
    ensures |r.1| <= |t|
  {
    if t == [] || t[0] == ',' || t[0] == '\n' then ([], t)
    else
      var (f, rest) := ReadPlain(t[1..]);
      ([t[0]] + f, rest)
  }

  function ReadField(t: string): (r: (string, string))
    ensures |r.1| <= |t|
  {
    if t != [] && t[0] == '"' then ReadQuoted(t[1..]) else ReadPlain(t)
  }

  /** Reads the fields of one record: (fields, text from the record's end). */
  function ReadRecord(t: string): (r: (seq<string>, string))
    ensures |r.1| <= |t|
    decreases |t|
  {
    var (f, rest) := ReadField(t);
    if rest != [] && rest[0] == ',' then
      var (fs, rest') := ReadRecord(rest[1..]);
      ([f] + fs, rest')
    else ([f], rest)
  }

  /** Reads all records of a text. */
  function ReadRecords(t: string): seq<seq<string>>
    decreases |t|
  {
    var (record, rest) := ReadRecord(t);
    if rest != [] && rest[0] == '\n' then [record] + ReadRecords(rest[1..]) else [record]
  }

  /** What may follow a field: the end, a field separator or a record separator. */
  predicate FieldEnd(rest: string) {
    rest == [] || rest[0] == ',' || rest[0] == '\n'
  }

  lemma {:induction false} ReadPlainSpec(s: string, rest: string)
    requires forall i :: 0 <= i < |s| ==> s[i] != ',' && s[i] != '\n'
    requires FieldEnd(rest)
    ensures ReadPlain(s + rest) == (s, rest)
  {
    if s != [] {
      assert (s + rest)[1..] == s[1..] + rest;
      ReadPlainSpec(s[1..], rest);
      assert s == [s[0]] + s[1..];
    } else {
      assert s + rest == rest;
    }
  }

  /** Un-doubling: the quoted reader recovers `s` from its doubled form and stops at the closing quote. */
  lemma {:induction false} ReadQuotedSpec(s: string, rest: string)
    requires rest == [] || rest[0] != '"'
    ensures ReadQuoted(DoubleQuotes(s) + "\"" + rest) == (s, rest)
  {
    var t := DoubleQuotes(s) + "\"" + rest;
    if s == [] {
      assert t == "\"" + rest;
      assert t[1..] == rest;
    } else {
      var head := if s[0] == '"' then "\"\"" else [s[0]];
      assert t == head + (DoubleQuotes(s[1..]) + "\"" + rest);
      ReadQuotedSpec(s[1..], rest);
      if s[0] == '"' {
        assert t[2..] == DoubleQuotes(s[1..]) + "\"" + rest;
      } else {
        assert t[1..] == DoubleQuotes(s[1..]) + "\"" + rest;
      }
      assert s == [s[0]] + s[1..];
    }
  }

  /** Reading an escaped cell gives back the original string and leaves what follows it. */
  lemma EscapeCellRoundTrip(s: string, rest: string)
    requires FieldEnd(rest)
    ensures ReadField(EscapeCell(Some(s)) + rest) == (s, rest)
  {
    if NeedsQuoting(s) {
      var t := EscapeCell(Some(s)) + rest;
      assert t == "\"" + (DoubleQuotes(s) + "\"" + rest);
      assert t[1..] == DoubleQuotes(s) + "\"" + rest;
      ReadQuotedSpec(s, rest);
    } else {
      ReadPlainSpec(s, rest);
      if s != [] {
        assert s[0] != '"';
        assert (s + rest)[0] == s[0];
      } else {
        assert s + rest == rest;
      }
    }
  }

  /** A cell with none of `"`, `,`, line feed is written as is; nullish input is the empty cell. */
  lemma EscapeCellPlain(s: string)
    ensures !NeedsQuoting(s) ==> EscapeCell(Some(s)) == s
    ensures EscapeCell(None) == ""
  {
  }

  /** A carriage return alone does not cause quoting, unlike section 2 rule 6 of RFC 4180. */
  lemma CarriageReturnNotQuoted()
    ensures EscapeCell(Some("a\rb")) == "a\rb"
  {
    assert !NeedsQuoting("a\rb") by {
      var s := "a\rb";
      assert s[0] == 'a' && s[1] == '\r' && s[2] == 'b';
    }
  }

  lemma {:induction false} CsvLineRoundTrip(cells: seq<string>, rest: string)
    requires cells != []
    requires rest == [] || rest[0] == '\n'
    ensures ReadRecord(CsvLine(cells) + rest) == (cells, rest)
  {
    var parts := EscapeAll(cells);
    assert parts[0] == EscapeCell(Some(cells[0]));
    if |cells| == 1 {
      assert EscapeAll(cells[1..]) == [];
      assert parts == [parts[0]];
      assert CsvLine(cells) == parts[0];
      EscapeCellRoundTrip(cells[0], rest);
      assert cells == [cells[0]];
    } else {
      assert parts[1..] == EscapeAll(cells[1..]);
      var after := Join(parts[1..], ",") + rest;
      assert CsvLine(cells) + rest == parts[0] + ("," + after);
      EscapeCellRoundTrip(cells[0], "," + after);
      CsvLineRoundTrip(cells[1..], rest);
      assert ("," + after)[1..] == after;
      assert cells == [cells[0]] + cells[1..];
    }
  }

  /** The header line is the header cells escaped: none of them needs quoting. */
  lemma HeaderLine()
    ensures Join(Headers, ",") == CsvLine(Headers)
  {
    var h := Headers;
    assert !NeedsQuoting(h[0]) by {
      assert h[0] == ['R', 'o', 'l', 'l', ' ', 'N', 'o', '.'];
    }
    assert !NeedsQuoting(h[1]) by {
      assert h[1] == ['N', 'a', 'm', 'e'];
    }
    assert !NeedsQuoting(h[2]) by {
      assert h[2] == ['S', 't', 'a', 't', 'u', 's'];
    }
    assert h[1..][1..] == [h[2]];
    assert EscapeAll(h) == h;
  }

  lemma {:induction false} LinesRoundTrip(table: seq<seq<string>>, lines: seq<string>)
    requires table != [] && |lines| == |table|
    requires forall i :: 0 <= i < |table| ==> table[i] != [] && lines[i] == CsvLine(table[i])
    ensures ReadRecords(Join(lines, "\n")) == table
  {
    if |lines| == 1 {
      CsvLineRoundTrip(table[0], []);
      assert Join(lines, "\n") == CsvLine(table[0]) + [];
    } else {
      var after := Join(lines[1..], "\n");
      assert Join(lines, "\n") == CsvLine(table[0]) + ("\n" + after);
      CsvLineRoundTrip(table[0], "\n" + after);
      assert ("\n" + after)[1..] == after;
      LinesRoundTrip(table[1..], lines[1..]);
      assert table == [table[0]] + table[1..];
    }
  }

  lemma {:induction false} StudentLinesMatchRows(sorted: seq<Student>, today: map<string, Status>)
    ensures |StudentLines(sorted, today)| == |StudentRows(sorted, today)| == |sorted|
    ensures forall i :: 0 <= i < |sorted| ==>
      StudentRows(sorted, today)[i] == StudentCells(sorted[i], today) &&
      StudentLines(sorted, today)[i] == CsvLine(StudentCells(sorted[i], today))
  {
    if sorted != [] {
      StudentLinesMatchRows(sorted[1..], today);
    }
  }

  /**
   * The downloaded text reads back as the header row followed by one row
   * per student in roll order, each holding that student's roll, name and
   * status label; in particular there is no trailing empty record.
   */
  lemma CsvContentRoundTrip(students: seq<Student>, att: AttendanceData, date: string)
    ensures ReadRecords(CsvContent(students, att, date)) == CsvTable(students, att, date)
    ensures |CsvTable(students, att, date)| == |students| + 1
  {
    var sorted := SortByRoll(students);
    var today := DayRecords(att, date);
    var lines := [Join(Headers, ",")] + StudentLines(sorted, today);
    var table := CsvTable(students, att, date);
    HeaderLine();
    StudentLinesMatchRows(sorted, today);
    assert |sorted| == |students| by {
      assert |multiset(sorted)| == |multiset(students)|;
    }
    forall i | 0 <= i < |table| ensures table[i] != [] && lines[i] == CsvLine(table[i]) {
      if i > 0 {
        assert table[i] == StudentRows(sorted, today)[i - 1];
        assert lines[i] == StudentLines(sorted, today)[i - 1];
      }
    }
    LinesRoundTrip(table, lines);
  }
}
