# Class attendance tracker: store, reports, marking cursor, add-student guard

This project models the core of a single-page class attendance app. A
teacher keeps a roster of students and marks each one present or absent
per calendar date.

- **Store** (`Store.StudentStore`): the four pieces of persisted state:
  - the roster
  - the ledger (date → student id → status)
  - the selected date
  - the data-version marker

  Its operations are:
  - the one-shot seeding of an empty roster
  - the versioned migration that reconciles the roster with the seed list
  - adding and removing students (removal cascades into the ledger)
  - marking attendance
  - the day's counters
  - the JSON backup export and its all-or-nothing import
- **Report helpers** (`Summary`, `Rolls`, `Ledger.DayStats`):
  - the per-date counters
  - the roll-number ordering
  - the case-insensitive search filter
  - the CSV text of the download
- **Marking cursor** (`Home.HomePage`): an index into the roll-ordered
  roster, moved by:
  - the first-unmarked reset
  - the mark and undo buttons
  - previous/next navigation
- **Add-student guard** (`Manage`): the trim-and-reject-blank validation in
  front of `addStudent`, and removal behind a confirmation dialog.

The other modules hold shared pieces:
- `Text`: JavaScript string behaviour. This covers `trim` with the
  ECMAScript white-space set written out, ASCII `toLowerCase`, `includes`,
  decimal rendering of a number, and ordinal comparison standing in for
  `localeCompare`.
- `Types`: the entities.
- `Ledger`: the ledger as a value.
- `Roster`: the seed/roster transformations of the migration.
- `Migration`: what one migration run computes.
- `Backup`: the JSON value datatype, the payload encoders, and the typed reader.

Each stateful operation is a method that changes what its `modifies` names.
Its `ensures` ties the new state to a function of the old one, and lemmas
prove what the source promises about those functions.

The environment enters as parameters:
- The clock (`Date.now()`, `new Date().toISOString()`) is the `now` and `exportedAt` parameters.
- The confirmation dialog's answer is a `confirmed` flag.
- The result of `JSON.parse` is a `ParseOutcome`: a JSON value, or a failure with its message.
- The seed list is a parameter, because `src/data/students` is not part of this model.

Ids are built as the source renders them:
- `now` for an added student
- `now_idx` when seeding
- `seed_now_idx` for a migration addition

Where the code and the written description of the system disagree, the model follows the code:
- A payload `{"students": []}` is refused with 'Missing attendance'. It has a roster and lacks a ledger.
- A top-level JSON array passes the `typeof === 'object'` check and is then refused with 'Missing students'.
- The migration's comparator compares numbers alone when both labels have a digit, with no label tiebreak.

## Model

| member | source | states |
|---|---|---|
| Text.TrimStartSpec | src/contexts/StudentContext.tsx:35 | trimming the front drops exactly a prefix of white space and leaves an empty string or one that starts with a non-space character |
| Text.TrimEndSpec | src/contexts/StudentContext.tsx:35 | trimming the back drops exactly a suffix of white space and leaves an empty string or one that ends with a non-space character |
| Text.TrimEmptyIff | src/pages/ManageStudents.tsx:17 | a trimmed string is empty exactly when every character of the input is white space |
| Text.TrimIdempotent | src/pages/ManageStudents.tsx:19-21 | trimming a trimmed string changes nothing |
| Text.ToLowerIdempotent | src/pages/AttendanceSummary.tsx:32-33 | lower-casing is idempotent |
| Text.IncludesEmpty | src/pages/AttendanceSummary.tsx:32-33 | every string includes the empty string |
| Text.NatToString | src/contexts/StudentContext.tsx:90 | a rendered clock value is a non-empty string of decimal digits |
| Text.DigitsValueOfNatToString | src/contexts/StudentContext.tsx:90 | reading back a rendered number gives the number |
| Text.NatToStringInjective | src/contexts/StudentContext.tsx:90 | distinct clock values render as distinct ids |
| Text.StrLessIrreflexive | src/pages/AttendanceSummary.tsx:28 | no label sorts strictly before itself in the tiebreak |
| Text.StrLessTransitive | src/pages/AttendanceSummary.tsx:28 | the tiebreak comparison is transitive |
| Text.StrLessTotal | src/pages/AttendanceSummary.tsx:28 | any two distinct labels are ordered one way or the other by the tiebreak |
| Types.IdsOfSize | src/contexts/StudentContext.tsx:121-125 | a roster has at most as many distinct ids as students |
| Rolls.FirstDigitIndex | src/pages/AttendanceSummary.tsx:21 | the index found is the first digit of the label, or its length when it has none |
| Rolls.DigitRunLength | src/pages/AttendanceSummary.tsx:21 | the run measured is all digits and is followed by a non-digit or the end |
| Rolls.FirstDigitRun | src/pages/AttendanceSummary.tsx:21 | the extracted run consists of digits only |
| Rolls.FirstDigitRunUnique | src/pages/AttendanceSummary.tsx:21 | a label has only one first maximal digit run |
| Rolls.FirstDigitRunSpec | src/pages/AttendanceSummary.tsx:21 | the regex match is empty exactly when the label has no digit, and is otherwise the first maximal run |
| Rolls.ParseRollSpec | src/pages/AttendanceSummary.tsx:20-23 | `parseRoll` is the value of the first maximal digit run, or `MAX_SAFE_INTEGER` for a label without digits; the migration's number is the same value, or `NaN` |
| Rolls.PrecedesIrreflexive | src/pages/AttendanceSummary.tsx:24-28 | no student precedes itself under either comparator |
| Rolls.PrecedesTransitive | src/pages/AttendanceSummary.tsx:24-28 | the comparators are transitive where they are strict orders |
| Rolls.Insert | src/pages/AttendanceSummary.tsx:19 | inserting into the sorted prefix adds exactly the one student |
| Rolls.SortBy | src/pages/AttendanceSummary.tsx:19 | sorting a copy yields a permutation of the roster |
| Rolls.InsertOrdered | src/pages/AttendanceSummary.tsx:19-29 | inserting one student keeps an ordered roster ordered |
| Rolls.SortByOrdered | src/pages/AttendanceSummary.tsx:19-29 | the sort's result has no student strictly preceding an earlier one |
| Rolls.SortByRollSpec | src/pages/AttendanceSummary.tsx:19-29 | `sortedStudents` is a permutation of the roster, nondecreasing in `parseRoll`, with equal values ordered by label, and no digit-less label before a label whose value is below the sentinel |
| Rolls.MigrationSortSpec | src/contexts/StudentContext.tsx:74-79 | when every label has a digit, the migration's sort yields a permutation in nondecreasing numeric order |
| Ledger.MarkSpec | src/contexts/StudentContext.tsx:107-117 | after a mark the date exists, the pair holds the new status, and every other (date, id) pair is unchanged |
| Ledger.MarkLastWriteWins | src/contexts/StudentContext.tsx:107-117 | marking twice equals marking once with the second status |
| Ledger.CascadeSpec | src/contexts/StudentContext.tsx:99-103 | the cascade keeps every date, removes the id from each, and keeps every other record |
| Ledger.CascadeWithoutRecords | src/contexts/StudentContext.tsx:99-103 | removing an id with no records leaves the ledger unchanged |
| Ledger.PruneSpec | src/contexts/StudentContext.tsx:60-68 | pruning keeps every date, keeps a record exactly when its id is valid, and leaves no invalid id |
| Ledger.CountsPartition | src/contexts/StudentContext.tsx:122-124 | the present and absent counts add up to the number of recorded ids |
| Ledger.DayStats | src/pages/AttendanceSummary.tsx:10-16 | total is the roster length, present/absent count the day's values, pending is the roster length minus the recorded ids, and the three counts sum to the total |
| Ledger.PendingNonNegative | src/contexts/StudentContext.tsx:119-128 | pending is non-negative when every recorded id for the date is a roster id |
| Ledger.MissingDateIsEmpty | src/pages/AttendanceSummary.tsx:10 | a missing date counts like an empty day: nothing present or absent, everyone pending |
| Roster.SeedRollsKeys | src/contexts/StudentContext.tsx:33-36 | the name-to-roll map has exactly the normalized seed names as keys |
| Roster.SeedRollsLastWins | src/contexts/StudentContext.tsx:33-36 | a name's roll is the roll of its last occurrence in the seed |
| Roster.Relabel | src/contexts/StudentContext.tsx:41-44 | a retained student keeps id, name and photo; its roll becomes the seed roll, or stays when the seed roll is empty |
| Roster.RetainedMembers | src/contexts/StudentContext.tsx:39-44 | the retained students are exactly the relabelled stored students whose normalized name is a seed key |
| Roster.RetainedConcat | src/contexts/StudentContext.tsx:39-44 | retention works student by student, so it keeps the stored order |
| Roster.RetainedKeepsAll | src/contexts/StudentContext.tsx:39-44 | when every stored name is in the seed, retention relabels each student in place |
| Roster.SeedStudentIdInjective | src/contexts/StudentContext.tsx:52 | additions from different seed positions get different ids |
| Roster.AdditionsMembers | src/contexts/StudentContext.tsx:47-54 | an addition exists exactly for each seed entry whose normalized name is not retained, with that entry's own name and roll and no photo |
| Roster.AdditionsDistinctIds | src/contexts/StudentContext.tsx:47-54 | the additions of one run have pairwise distinct ids |
| Roster.EverySeedNameRepresented | src/contexts/StudentContext.tsx:46-56 | after the merge every seed name is represented |
| Roster.SeededRosterSpec | src/contexts/StudentContext.tsx:15-24 | seeding yields one student per seed entry, in order, with that entry's name and roll and pairwise distinct ids |
| Roster.RemoveByIdSpec | src/contexts/StudentContext.tsx:97 | removal drops exactly the students with that id and nothing else; an unknown id changes nothing |
| Roster.RemoveByIdConcat | src/contexts/StudentContext.tsx:97 | removal works student by student, so the others keep their order |
| Backup.ErrorMessage | src/contexts/StudentContext.tsx:155 | every rejection reports a non-empty message; an empty parser message becomes 'Failed to import backup' |
| Backup.ReadBackupErrors | src/contexts/StudentContext.tsx:141-158 | the checks run in order: parse failure, then null or non-object, then non-array `students`, then falsy or non-object `attendance`; each error occurs exactly when its check is the first to fail |
| Backup.StudentsRoundTrip | src/contexts/StudentContext.tsx:134 | the encoded roster decodes back to the roster |
| Backup.DayRoundTrip | src/contexts/StudentContext.tsx:135 | an encoded day decodes back to the same day |
| Backup.LedgerRoundTrip | src/contexts/StudentContext.tsx:135 | the encoded ledger decodes back to the ledger |
| Backup.BackupRoundTrip | src/contexts/StudentContext.tsx:130-158 | reading back an exported payload yields its roster, ledger and selected date |
| Backup.StudentsOnlyIsRefused | src/contexts/StudentContext.tsx:146 | a payload with a roster but no ledger is refused with 'Missing attendance' |
| Backup.WrongRosterKeyIsRefused | src/contexts/StudentContext.tsx:145 | a payload without a `students` array is refused with 'Missing students' |
| Migration.MigratedRosterPermutation | src/contexts/StudentContext.tsx:74-80 | the stored roster is a permutation of the retained students followed by the additions |
| Migration.MigratedRosterCoversSeed | src/contexts/StudentContext.tsx:46-80 | after a run every seed name is represented in the stored roster |
| Migration.MigratedRosterNumericOrder | src/contexts/StudentContext.tsx:74-81 | when every merged label has a digit, the stored roster is in nondecreasing numeric order |
| Migration.MigratedLedgerSpec | src/contexts/StudentContext.tsx:58-70 | the ledger is left alone when the merged length equals the stored length; otherwise it keeps every date, every surviving record keeps its status, and no day holds an id outside the retained set |
| Store.StudentStore.constructor | src/contexts/StudentContext.tsx:10-12 | the store starts from the persisted roster, ledger, date and marker |
| Store.StudentStore.SeedIfEmpty | src/contexts/StudentContext.tsx:15-24 | an empty roster becomes the seeded roster when the seed is non-empty; otherwise nothing changes |
| Store.StudentStore.Migrate | src/contexts/StudentContext.tsx:27-85 | a no-op at marker '4'; otherwise the roster becomes the sorted merge, the ledger is pruned when the length changed, and the marker becomes '4' |
| Store.StudentStore.AddStudent | src/contexts/StudentContext.tsx:87-94 | appends exactly one student with id `now` at the end; nothing else changes |
| Store.StudentStore.RemoveStudent | src/contexts/StudentContext.tsx:96-105 | the roster loses exactly that id, and the loop over the dates leaves the ledger equal to the cascade |
| Store.StudentStore.MarkAttendance | src/contexts/StudentContext.tsx:107-117 | the ledger becomes the upsert of that record |
| Store.StudentStore.SetSelectedDate | src/contexts/StudentContext.tsx:12 | only the selected date changes |
| Store.StudentStore.TodayStats | src/contexts/StudentContext.tsx:119-128 | total is the roster length, pending the roster length minus the day's recorded ids, the three counts sum to the total, and pending is non-negative when the day's ids are roster ids |
| Store.StudentStore.ExportBackup | src/contexts/StudentContext.tsx:130-139 | the exported payload passes the import checks and reads back as the current roster, ledger and date |
| Store.StudentStore.ImportBackup | src/contexts/StudentContext.tsx:141-159 | success exactly when the payload passes; a rejection changes nothing and reports the error's message; a success replaces roster and ledger and adopts the date only when it is a string |
| Store.BuildNameToRoll | src/contexts/StudentContext.tsx:33-36 | the loop builds the name-to-roll map, last entry winning |
| Store.CollectAdditions | src/contexts/StudentContext.tsx:47-54 | the loop collects one addition per seed entry whose name is not yet present |
| Store.PruneLedger | src/contexts/StudentContext.tsx:60-69 | the nested loops build the pruned ledger |
| Store.RestoreFromExport | src/contexts/StudentContext.tsx:130-159 | importing one store's export into another gives it the same roster, ledger and date |
| Summary.ParseRollTen | src/pages/AttendanceSummary.tsx:20-23 | `parseRoll("10")` is 10 |
| Summary.ParseRollNineA | src/pages/AttendanceSummary.tsx:20-23 | `parseRoll("9a")` is 9 |
| Summary.ParseRollOne | src/pages/AttendanceSummary.tsx:20-23 | `parseRoll("1")` is 1 |
| Summary.ParseRollTwo | src/pages/AttendanceSummary.tsx:20-23 | `parseRoll("2")` is 2 |
| Summary.SortByRollExample | src/pages/AttendanceSummary.tsx:19-29 | labels `10, 2, 9a, 1` are listed as `1, 2, 9a, 10` |
| Summary.FilterStudentsMembers | src/pages/AttendanceSummary.tsx:31-34 | a student is listed exactly when it is on the roster and its lower-cased name or roll includes the lower-cased term |
| Summary.FilterStudentsOrdered | src/pages/AttendanceSummary.tsx:31-34 | filtering the sorted roster keeps it in roll order |
| Summary.EmptySearchKeepsAll | src/pages/AttendanceSummary.tsx:31-34 | an empty search term lists everyone, in order |
| Summary.StatusLabel | src/pages/AttendanceSummary.tsx:44 | `Present` for present, `Absent` for absent, `Not Marked` for an id without a record |
| Summary.ReadQuotedSpec | src/pages/AttendanceSummary.tsx:49 | un-doubling the quoted body recovers the original string and stops at the closing quote |
| Summary.EscapeCellRoundTrip | src/pages/AttendanceSummary.tsx:46-52 | reading an escaped cell by the quoting rules of RFC 4180 section 2 gives back the original string |
| Summary.EscapeCellPlain | src/pages/AttendanceSummary.tsx:47-51 | a string with none of `"`, `,`, line feed is written unchanged; a nullish value is the empty cell |
| Summary.CarriageReturnNotQuoted | src/pages/AttendanceSummary.tsx:48 | a carriage return alone does not cause quoting |
| Summary.CsvLineRoundTrip | src/pages/AttendanceSummary.tsx:53 | a line of escaped cells joined by commas reads back as those cells |
| Summary.HeaderLine | src/pages/AttendanceSummary.tsx:42-55 | the unescaped header line equals the escaped one, `Roll No.,Name,Status` |
| Summary.CsvContentRoundTrip | src/pages/AttendanceSummary.tsx:40-55 | the CSV text reads back as the header row and then, in roll order, each student's roll, name and status label, with no trailing empty record |
| Home.FirstUnmarkedFrom | src/pages/Home.tsx:49-51 | the search finds the first student at or after a position with no record, or reports that none exists |
| Home.ResetIndex | src/pages/Home.tsx:33-36 | the reset index is the first student in roll order with no record for the date, or 0 when all are marked |
| Home.TimerIndex | src/pages/Home.tsx:48-61 | after a mark the cursor goes to the first unmarked index above the current one; if there is none, to current+1 when below the length; otherwise it stays |
| Home.TimerIndexInRange | src/pages/Home.tsx:48-61 | the move after a mark never goes backwards or leaves the roster |
| Home.NavigateSpec | src/pages/Home.tsx:78-84 | navigation keeps the index in range and moves it by at most one; prev decrements only above 0, next increments only below len-1, and one undoes the other |
| Home.UndoStatus | src/pages/Home.tsx:75 | undo writes the opposite of a recorded status and `present` for an unmarked student |
| Home.DeleteThenMark | src/pages/Home.tsx:68-75 | deleting the record before re-marking it does not change the result |
| Home.HomePage.constructor | src/pages/Home.tsx:16-36 | the page opens on the first unmarked student |
| Home.HomePage.Roster | src/pages/Home.tsx:21-30 | the marking page's order is a permutation of the roster in the same roll order as the summary |
| Home.HomePage.ResetCursor | src/pages/Home.tsx:33-36 | the effect puts the cursor on the reset index |
| Home.HomePage.ChangeDate | src/pages/Home.tsx:33-36 | choosing a date selects it and resets the cursor for that date |
| Home.HomePage.HandleMark | src/pages/Home.tsx:42-63 | without a current student nothing happens; otherwise the current student is marked and the cursor moves by the timer rule |
| Home.HomePage.HandleUndo | src/pages/Home.tsx:65-76 | without a current student nothing happens; otherwise the net ledger is the mark with the undo status |
| Home.HomePage.Navigate | src/pages/Home.tsx:78-84 | the cursor moves by the navigation rule over the roster length |
| Manage.Accept | src/pages/ManageStudents.tsx:17-22 | a student is accepted exactly when trimmed name and roll are non-empty; both are stored trimmed; the photo is absent exactly when its trimmed value is empty |
| Manage.AcceptIsIdempotent | src/pages/ManageStudents.tsx:17-22 | an accepted entry has non-blank, fully trimmed fields, and submitting it again gives the same entry |
| Manage.BlankFieldRefused | src/pages/ManageStudents.tsx:17 | a name made only of white space is refused |
| Manage.ManageStudentsPage.constructor | src/pages/ManageStudents.tsx:8-13 | the page starts with a blank form and the dialog closed |
| Manage.ManageStudentsPage.OpenModal | src/pages/ManageStudents.tsx:60 | the Add Student button opens the dialog and keeps the form |
| Manage.ManageStudentsPage.EditForm | src/pages/ManageStudents.tsx:143-157 | typing replaces the form's contents |
| Manage.ManageStudentsPage.HandleSubmit | src/pages/ManageStudents.tsx:15-26 | an accepted form adds the student, clears the form and closes the dialog; a refused one changes nothing |
| Manage.ManageStudentsPage.HandleRemoveStudent | src/pages/ManageStudents.tsx:39-43 | the student and their records are removed only when the dialog is confirmed |

## Left out

- Store.StudentStore.ImportBackup: the source stores whatever JSON it was given. The model keeps typed state, so a payload that passes the four checks but holds entries the store cannot represent is refused with an extra error. Examples are a non-string name, a status other than present/absent, or an `attendance` array. Extra fields inside entries are dropped.
- Persistence: `localStorage`, the `useLocalStorage` hook and the toasts are I/O. The store's fields are the persisted values, and the marker is the `dataVersion` field.
- Clock: `Date.now()` and `new Date().toISOString()` are parameters. One migration run reads the clock once. Ids from `addStudent` are unique only if `now` differs between calls; nothing in the source ensures that.
- JSON text: `JSON.stringify` and `JSON.parse` are not modelled. Objects are maps, so duplicate keys and key order are outside the model.
- Locale and Unicode: `localeCompare` is modelled as ordinal comparison and `toLowerCase` as ASCII lower-casing.
- Rolls.ParseRoll: `parseInt` on a long digit run loses precision in floating point. The model reads the run as an unbounded `nat`, so a value at or above `MAX_SAFE_INTEGER` ties with, or sorts after, the labels without digits.
- Migration.MigratedRoster: when labels with and without digits are mixed, the migration's comparator is not a consistent order and the engine's sort decides the result. The model fixes one stable insertion sort, and its output is specified only when every label has a digit.
- Rolls.SortByRollSpec: stability is not stated. The engine's `Array.prototype.sort` is stable, and the model's insertion sort is stable by construction.
- React scheduling: effect ordering, stale closures and the seeding/migration interplay are not modelled. Each effect and handler is one sequential operation. The 1500 ms timer after a mark is folded into the mark.
- Home.HomePage.HandleMark: the page also re-runs the reset effect when the day's records change. The model leaves that to a separate `ResetCursor` call.
- Aliasing: `removeStudent` and `handleUndo` delete from the live inner day maps in place. The model assigns a new ledger value with the same contents.
- The CSV download: the byte-order mark, the Blob, the object URL and the anchor click are DOM I/O. Records are joined by a line feed rather than CRLF (RFC 4180 section 2 rule 2).
- PDF export (`src/utils/pdfGenerator.ts`) and the FileReader photo upload: foreign calls and file I/O.
- Login, routing, theme and the JSX views are presentation only.
- The seed list `src/data/students` is not part of this model. It is a parameter.
