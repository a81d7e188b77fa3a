/** Record querying in src/components/Attendance/AttendanceList.tsx: the mock
    fallback, the four-criterion filter, the student-only view, the export
    rows and the status styling. All of it is pure functions of the store's
    lists and the four filter inputs. */
module AttendanceList {
  import opened Lists
  import opened Text
  import opened Domain

  /** The four filter inputs. The date is `None` while its input is empty;
      class, status and search are the raw input strings, where "" means unset. */
  datatype Filters = Filters(date: Option<Date>, classId: string, status: string, search: string)

  const NoFilters: Filters := Filters(None, "", "", "")

  /** The demonstration records; `today` is the current day. */
  function MockRecords(today: Date): seq<AttendanceRecord>
  {
    [ AttendanceRecord("1", "3", "CS101", "session_1", today, "10:30 AM", Present, Qr),
      AttendanceRecord("2", "4", "CS101", "session_1", today, "10:32 AM", Late, Face),
      AttendanceRecord("3", "3", "CS201", "session_2", today - 1, "2:00 PM", Present, Qr),
      AttendanceRecord("4", "5", "CS101", "session_1", today, "-", Absent, Manual) ]
  }

  /** `attendanceRecords.length > 0 ? attendanceRecords : mockAttendanceRecords`. */
  function AllRecords(shared: seq<AttendanceRecord>, today: Date): (r: seq<AttendanceRecord>)
    ensures shared != [] ==> r == shared
    ensures shared == [] ==> r == MockRecords(today) && |r| == 4
  {
    if |shared| > 0 then shared else MockRecords(today)
  }

  function FindStudent(students: seq<Student>, id: string): Option<Student>
  {
    Find(students, (s: Student) => s.id == id)
  }

  function FindClass(classes: seq<Class>, id: string): Option<Class>
  {
    Find(classes, (c: Class) => c.id == id)
  }

  /** `x?.name.toLowerCase().includes(term.toLowerCase())`: false when `x` is undefined. */
  predicate NameMatches(name: Option<string>, term: string)
  {
    name.Some? && Includes(Lower(name.value), Lower(term))
  }

  function StudentName(students: seq<Student>, id: string): Option<string>
  {
    var s := FindStudent(students, id);
    if s.Some? then Some(s.value.name) else None
  }

  function ClassName(classes: seq<Class>, id: string): Option<string>
  {
    var c := FindClass(classes, id);
    if c.Some? then Some(c.value.name) else None
  }

  /** The body of the `filteredRecords` callback. */
  predicate Matches(students: seq<Student>, classes: seq<Class>, f: Filters, r: AttendanceRecord)
  {
    (f.date.None? || r.date == f.date.value)
    && (f.classId == "" || r.classId == f.classId)
    && (f.status == "" || StatusName(r.status) == f.status)
    && (f.search == "" || NameMatches(StudentName(students, r.studentId), f.search)
                       || NameMatches(ClassName(classes, r.classId), f.search))
  }

  function FilteredRecords(records: seq<AttendanceRecord>, students: seq<Student>, classes: seq<Class>,
                           f: Filters): seq<AttendanceRecord>
  {
    Filter(records, (r: AttendanceRecord) => Matches(students, classes, f, r))
  }

  /** With every filter empty, the whole list is shown in its order. */
  lemma NoFiltersKeepAll(records: seq<AttendanceRecord>, students: seq<Student>, classes: seq<Class>)
    ensures FilteredRecords(records, students, classes, NoFilters) == records
  {
    FilterKeepsAll(records, (r: AttendanceRecord) => Matches(students, classes, NoFilters, r));
  }

  /** The result keeps the records' order and invents none. */
  lemma FilteredIsSubsequence(records: seq<AttendanceRecord>, students: seq<Student>, classes: seq<Class>,
                              f: Filters)
    ensures IsSubsequence(FilteredRecords(records, students, classes, f), records)
  {
    FilterIsSubsequence(records, (r: AttendanceRecord) => Matches(students, classes, f, r));
  }

  /** A record is kept exactly when every filter that is set matches it. */
  lemma FilteredMembers(records: seq<AttendanceRecord>, students: seq<Student>, classes: seq<Class>,
                        f: Filters, r: AttendanceRecord)
    ensures r in FilteredRecords(records, students, classes, f) <==>
      r in records
      && (f.date.None? || r.date == f.date.value)
      && (f.classId == "" || r.classId == f.classId)
      && (f.status == "" || StatusName(r.status) == f.status)
      && (f.search == ""
          || (FindStudent(students, r.studentId).Some?
              && Includes(Lower(FindStudent(students, r.studentId).value.name), Lower(f.search)))
          || (FindClass(classes, r.classId).Some?
              && Includes(Lower(FindClass(classes, r.classId).value.name), Lower(f.search))))
  {
    FilterMembers(records, (x: AttendanceRecord) => Matches(students, classes, f, x), r);
  }

  /** With a search term, a record whose student and class are both unknown is
      never shown. */
  lemma UnknownExcludedBySearch(records: seq<AttendanceRecord>, students: seq<Student>, classes: seq<Class>,
                                f: Filters, r: AttendanceRecord)
    requires f.search != ""
    requires forall i :: 0 <= i < |students| ==> students[i].id != r.studentId
    requires forall i :: 0 <= i < |classes| ==> classes[i].id != r.classId
    ensures r !in FilteredRecords(records, students, classes, f)
  {
    FindNone(students, (s: Student) => s.id == r.studentId);
    FindNone(classes, (c: Class) => c.id == r.classId);
    FilteredMembers(records, students, classes, f, r);
  }

  /** The student view: the filtered records that belong to the signed-in student. */
  function StudentView(filtered: seq<AttendanceRecord>, userId: string): seq<AttendanceRecord>
  {
    Filter(filtered, (r: AttendanceRecord) => r.studentId == userId)
  }

  lemma StudentViewMembers(filtered: seq<AttendanceRecord>, userId: string, r: AttendanceRecord)
    ensures r in StudentView(filtered, userId) <==> r in filtered && r.studentId == userId
    ensures IsSubsequence(StudentView(filtered, userId), filtered)
  {
    FilterMembers(filtered, (x: AttendanceRecord) => x.studentId == userId, r);
    FilterIsSubsequence(filtered, (x: AttendanceRecord) => x.studentId == userId);
  }

  /** One spreadsheet row of the export. */
  datatype ExportRow = ExportRow(studentName: string, studentId: string, className: string,
                                 date: Date, time: string, status: string, checkInMethod: string)

  function ExportRowOf(students: seq<Student>, classes: seq<Class>, r: AttendanceRecord): ExportRow
  {
    var s := FindStudent(students, r.studentId);
    ExportRow(OrElse(StudentName(students, r.studentId), "Unknown"),
              OrElse(if s.Some? then Some(s.value.studentId) else None, "N/A"),
              OrElse(ClassName(classes, r.classId), "Unknown"),
              r.date, r.time, StatusName(r.status), MethodName(r.checkInMethod))
  }

  function ExportRows(filtered: seq<AttendanceRecord>, students: seq<Student>, classes: seq<Class>): seq<ExportRow>
  {
    Map(filtered, (r: AttendanceRecord) => ExportRowOf(students, classes, r))
  }

  /** One row per filtered record, in order, carrying its date, time, status
      and method. A found student gives its name and number, and a found class
      its name; a missing (or empty) one gives 'Unknown' or 'N/A'. */
  lemma ExportShape(filtered: seq<AttendanceRecord>, students: seq<Student>, classes: seq<Class>, i: nat)
    requires i < |filtered|
    ensures |ExportRows(filtered, students, classes)| == |filtered|
    ensures var row := ExportRows(filtered, students, classes)[i];
      var r := filtered[i];
      row.date == r.date && row.time == r.time && row.status == StatusName(r.status)
      && row.checkInMethod == MethodName(r.checkInMethod)
      && (FindStudent(students, r.studentId).None? ==> row.studentName == "Unknown" && row.studentId == "N/A")
      && (FindClass(classes, r.classId).None? ==> row.className == "Unknown")
      && (FindStudent(students, r.studentId).Some? && FindStudent(students, r.studentId).value.name != "" ==>
            row.studentName == FindStudent(students, r.studentId).value.name)
      && (FindStudent(students, r.studentId).Some? && FindStudent(students, r.studentId).value.name == "" ==>
            row.studentName == "Unknown")
      && (FindStudent(students, r.studentId).Some? && FindStudent(students, r.studentId).value.studentId != "" ==>
            row.studentId == FindStudent(students, r.studentId).value.studentId)
      && (FindStudent(students, r.studentId).Some? && FindStudent(students, r.studentId).value.studentId == "" ==>
            row.studentId == "N/A")
      && (FindClass(classes, r.classId).Some? && FindClass(classes, r.classId).value.name != "" ==>
            row.className == FindClass(classes, r.classId).value.name)
      && (FindClass(classes, r.classId).Some? && FindClass(classes, r.classId).value.name == "" ==>
            row.className == "Unknown")
  {
  }

  /** The student view's export button calls the same export as the staff
      view: it writes every filtered record, so a record of another student
      reaches a student's spreadsheet although the view does not show it. */
  lemma StudentExportLeaks(filtered: seq<AttendanceRecord>, students: seq<Student>, classes: seq<Class>,
                           userId: string, i: nat)
    requires i < |filtered| && filtered[i].studentId != userId
    ensures filtered[i] !in StudentView(filtered, userId)
    ensures |ExportRows(filtered, students, classes)| == |filtered|
    ensures ExportRows(filtered, students, classes)[i] == ExportRowOf(students, classes, filtered[i])
    ensures |StudentView(filtered, userId)| < |ExportRows(filtered, students, classes)|
  {
    var own := (r: AttendanceRecord) => r.studentId == userId;
    FilterMembers(filtered, own, filtered[i]);
    FilterDropsFailing(filtered, own, i);
  }

  /** The export the student view evidently means: the rows of the student's
      own records. */
  function StudentExportRows(filtered: seq<AttendanceRecord>, students: seq<Student>, classes: seq<Class>,
                             userId: string): seq<ExportRow>
  {
    ExportRows(StudentView(filtered, userId), students, classes)
  }

  /** The corrected export has one row per record the student sees, in order,
      and every one of those records is the student's own. */
  lemma StudentExportOwnOnly(filtered: seq<AttendanceRecord>, students: seq<Student>, classes: seq<Class>,
                             userId: string)
    ensures var view := StudentView(filtered, userId);
      var rows := StudentExportRows(filtered, students, classes, userId);
      |rows| == |view|
      && forall i :: 0 <= i < |view| ==>
           view[i].studentId == userId && view[i] in filtered && rows[i] == ExportRowOf(students, classes, view[i])
  {
    var view := StudentView(filtered, userId);
    forall i | 0 <= i < |view| ensures view[i].studentId == userId && view[i] in filtered {
      StudentViewMembers(filtered, userId, view[i]);
    }
  }

  /** Status badge classes. */
  function StatusColor(status: string): string
  {
    if status == "present" then "bg-green-100 text-green-800 dark:bg-green-900/30 dark:text-green-300"
    else if status == "absent" then "bg-red-100 text-red-800 dark:bg-red-900/30 dark:text-red-300"
    else if status == "late" then "bg-yellow-100 text-yellow-800 dark:bg-yellow-900/30 dark:text-yellow-300"
    else "bg-gray-100 text-gray-800 dark:bg-gray-700 dark:text-gray-300"
  }

  datatype IconShape = CheckCircle | XCircle | AlertCircle

  /** The status icon: its shape and colour class. */
  datatype Icon = Icon(shape: IconShape, colour: string)

  function StatusIcon(status: string): Icon
  {
    if status == "present" then Icon(CheckCircle, "text-green-500")
    else if status == "absent" then Icon(XCircle, "text-red-500")
    else if status == "late" then Icon(AlertCircle, "text-yellow-500")
    else Icon(XCircle, "text-gray-500")
  }

  /** The length of each status's badge string: four different lengths. */
  function BadgeLength(st: Status): nat
  {
    match st
    case Present => 68
    case Absent => 60
    case Late => 72
  }

  lemma BadgeLengths(st: Status)
    ensures |StatusColor(StatusName(st))| == BadgeLength(st) && |StatusColor("")| == 61
  {
    match st
    case Present => assert StatusName(st) == "present";
    case Absent => assert StatusName(st) == "absent";
    case Late => assert StatusName(st) == "late";
  }

  /** The three statuses get three distinct badges, none of them the gray default. */
  lemma StatusColorsDistinct(st: Status, other: Status)
    requires st != other
    ensures StatusColor(StatusName(st)) != StatusColor(StatusName(other))
    ensures StatusColor(StatusName(st)) != StatusColor("")
  {
    BadgeLengths(st);
    BadgeLengths(other);
  }

  /** The three statuses get three distinct icons, none of them the gray default. */
  lemma StatusIconsDistinct(st: Status, other: Status)
    requires st != other
    ensures StatusIcon(StatusName(st)) != StatusIcon(StatusName(other))
    ensures StatusIcon(StatusName(st)) != StatusIcon("")
  {
  }

  /** Every string other than the three status names gets the gray default. */
  lemma StatusStylesDefault(s: string)
    requires s != "present" && s != "absent" && s != "late"
    ensures StatusColor(s) == StatusColor("") && StatusIcon(s) == StatusIcon("")
  {
  }
}
