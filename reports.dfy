/** Report generation in src/components/Reports/ReportsSection.tsx: three
    report kinds computed from the record list (with its own three-record
    fallback), then stored in the panel's state. Rates are kept as the counts
    they divide (see `Domain.Rate`). */
module Reports {
  import opened Lists
  import opened Text
  import opened Domain
  import opened AppContext
  import AttendanceList

  /** The demonstration records of this panel: the first three of the
      attendance list's four. */
  function ReportMocks(today: Date): seq<AttendanceRecord>
  {
    [ AttendanceRecord("1", "3", "CS101", "session_1", today, "10:30 AM", Present, Qr),
      AttendanceRecord("2", "4", "CS101", "session_1", today, "10:32 AM", Late, Face),
      AttendanceRecord("3", "3", "CS201", "session_2", today - 1, "2:00 PM", Present, Qr) ]
  }

  lemma ReportMocksArePrefix(today: Date)
    ensures ReportMocks(today) == AttendanceList.MockRecords(today)[..3]
  {
  }

  function AllRecords(shared: seq<AttendanceRecord>, today: Date): (r: seq<AttendanceRecord>)
    ensures shared != [] ==> r == shared
    ensures shared == [] ==> r == ReportMocks(today) && |r| == 3
  {
    if |shared| > 0 then shared else ReportMocks(today)
  }

  // ----- counting -----

  /** `new Set(records.map(r => r.sessionId))`. */
  function SessionIds(rs: seq<AttendanceRecord>): set<string>
  {
    if rs == [] then {} else {rs[0].sessionId} + SessionIds(rs[1..])
  }

  lemma {:induction false} SessionIdsMembers(rs: seq<AttendanceRecord>, id: string)
    ensures id in SessionIds(rs) <==> exists i :: 0 <= i < |rs| && rs[i].sessionId == id
  {
    if rs != [] {
      SessionIdsMembers(rs[1..], id);
      if exists i :: 0 <= i < |rs[1..]| && rs[1..][i].sessionId == id {
        var i :| 0 <= i < |rs[1..]| && rs[1..][i].sessionId == id;
        assert rs[i + 1].sessionId == id;
      }
      if exists i :: 0 <= i < |rs| && rs[i].sessionId == id {
        var i :| 0 <= i < |rs| && rs[i].sessionId == id;
        if i > 0 {
          assert rs[1..][i - 1].sessionId == id;
        }
      }
    }
  }

  /** There are never more distinct sessions than records, and none exactly
      when there are no records. */
  lemma {:induction false} SessionIdsBounds(rs: seq<AttendanceRecord>)
    ensures |SessionIds(rs)| <= |rs|
    ensures |SessionIds(rs)| == 0 <==> rs == []
  {
    if rs != [] {
      SessionIdsBounds(rs[1..]);
      assert rs[0].sessionId in SessionIds(rs);
    }
  }

  // ----- rows -----

  datatype ReportRow =
    | AttendanceRow(row: AttendanceList.ExportRow)
    | ClassRow(className: string, subject: string, totalStudents: nat, totalSessions: nat,
               presentCount: nat, absentCount: nat, lateCount: nat, attendanceRate: Rate)
    | StudentRow(studentName: string, studentId: string, totalSessions: nat,
                 presentCount: nat, absentCount: nat, lateCount: nat, attendanceRate: Rate)

  /** The attendance report's record test: the class matches when one is
      selected, and the date lies within each bound that is set (inclusive). */
  predicate InReport(selectedClass: string, start: Option<Date>, end: Option<Date>, r: AttendanceRecord)
  {
    (selectedClass == "" || r.classId == selectedClass)
    && (start.None? || r.date >= start.value)
    && (end.None? || r.date <= end.value)
  }

  function AttendanceRows(all: seq<AttendanceRecord>, students: seq<Student>, classes: seq<Class>,
                          selectedClass: string, start: Option<Date>, end: Option<Date>): seq<ReportRow>
  {
    var kept := Filter(all, (r: AttendanceRecord) => InReport(selectedClass, start, end, r));
    Map(kept, (r: AttendanceRecord) => AttendanceRow(AttendanceList.ExportRowOf(students, classes, r)))
  }

  /** The class rate as the source computes it: guarded by `totalSessions > 0`,
      but divided by `totalSessions * cls.studentIds.length`. */
  function ClassRateAsWritten(present: nat, sessions: nat, enrolled: nat): Rate
  {
    if sessions > 0 then Ratio(present, sessions * enrolled) else Zero
  }

  /** The class rate with the guard on the denominator it divides by. */
  function ClassRate(present: nat, sessions: nat, enrolled: nat): (r: Rate)
    ensures r.Ratio? <==> sessions > 0 && enrolled > 0
    ensures r.Ratio? ==> r.den > 0 && r.num == present && r.den == sessions * enrolled
  {
    if sessions * enrolled > 0 then Ratio(present, sessions * enrolled) else Zero
  }

  /** Where the two agree: whenever the class has a roster, and whenever it has
      no sessions. */
  lemma ClassRateAgrees(present: nat, sessions: nat, enrolled: nat)
    requires enrolled > 0 || sessions == 0
    ensures ClassRateAsWritten(present, sessions, enrolled) == ClassRate(present, sessions, enrolled)
  {
  }

  /** A class with an empty roster and one record: the source divides by zero. */
  lemma ClassRateDividesByZero()
    ensures var cls := Class("C1", "Empty", "none", "2", [], "", "", "");
      var recs := Filter([AttendanceRecord("1", "3", "C1", "s1", 0, "", Present, Qr)],
                         (r: AttendanceRecord) => r.classId == cls.id);
      var rate := ClassRateAsWritten(CountStatus(recs, Present), |SessionIds(recs)|, |cls.studentIds|);
      rate.Ratio? && rate.den == 0 && rate.num == 1
  {
    var recs := Filter([AttendanceRecord("1", "3", "C1", "s1", 0, "", Present, Qr)],
                       (r: AttendanceRecord) => r.classId == "C1");
    assert recs == [AttendanceRecord("1", "3", "C1", "s1", 0, "", Present, Qr)];
    assert SessionIds(recs) == {"s1"};
  }

  function ClassRecords(all: seq<AttendanceRecord>, cls: Class): seq<AttendanceRecord>
  {
    Filter(all, (r: AttendanceRecord) => r.classId == cls.id)
  }

  function ClassRowFor(all: seq<AttendanceRecord>, cls: Class): ReportRow
  {
    var rs := ClassRecords(all, cls);
    var sessions := |SessionIds(rs)|;
    var present := CountStatus(rs, Present);
    ClassRow(cls.name, cls.subject, |cls.studentIds|, sessions, present,
             CountStatus(rs, Absent), CountStatus(rs, Late), ClassRate(present, sessions, |cls.studentIds|))
  }

  function StudentRecords(all: seq<AttendanceRecord>, s: Student): seq<AttendanceRecord>
  {
    Filter(all, (r: AttendanceRecord) => r.studentId == s.id)
  }

  function StudentRowFor(all: seq<AttendanceRecord>, s: Student): ReportRow
  {
    var rs := StudentRecords(all, s);
    var present := CountStatus(rs, Present);
    StudentRow(s.name, s.studentId, |rs|, present, CountStatus(rs, Absent), CountStatus(rs, Late),
               if |rs| > 0 then Ratio(present, |rs|) else Zero)
  }

  /** The `switch (reportType)`: an unknown kind leaves the data empty. */
  function Generate(reportType: string, all: seq<AttendanceRecord>, students: seq<Student>,
                    classes: seq<Class>, selectedClass: string, start: Option<Date>,
                    end: Option<Date>): (r: seq<ReportRow>)
    ensures reportType == "class_summary" ==> |r| == |classes|
    ensures reportType == "student_summary" ==> |r| == |students|
  {
    if reportType == "attendance" then AttendanceRows(all, students, classes, selectedClass, start, end)
    else if reportType == "class_summary" then Map(classes, (c: Class) => ClassRowFor(all, c))
    else if reportType == "student_summary" then Map(students, (s: Student) => StudentRowFor(all, s))
    else []
  }

  // ----- what the reports promise -----

  /** The attendance report has one row per kept record, in record order, and
      a record is kept exactly when it passes the class and date tests. */
  lemma AttendanceReport(all: seq<AttendanceRecord>, students: seq<Student>, classes: seq<Class>,
                         selectedClass: string, start: Option<Date>, end: Option<Date>, r: AttendanceRecord)
    ensures var kept := Filter(all, (x: AttendanceRecord) => InReport(selectedClass, start, end, x));
      var rows := Generate("attendance", all, students, classes, selectedClass, start, end);
      |rows| == |kept| && IsSubsequence(kept, all)
      && (forall i :: 0 <= i < |rows| ==> rows[i] == AttendanceRow(AttendanceList.ExportRowOf(students, classes, kept[i])))
      && (r in kept <==> r in all && (selectedClass == "" || r.classId == selectedClass)
                         && (start.None? || r.date >= start.value) && (end.None? || r.date <= end.value))
  {
    FilterMembers(all, (x: AttendanceRecord) => InReport(selectedClass, start, end, x), r);
    FilterIsSubsequence(all, (x: AttendanceRecord) => InReport(selectedClass, start, end, x));
  }

  /** With no class and no bounds, the attendance report covers every record. */
  lemma AttendanceReportUnfiltered(all: seq<AttendanceRecord>, students: seq<Student>, classes: seq<Class>)
    ensures |Generate("attendance", all, students, classes, "", None, None)| == |all|
  {
    FilterKeepsAll(all, (x: AttendanceRecord) => InReport("", None, None, x));
  }

  /** The class summary: one row per class in class order, whatever the class
      and date filters say. Each row's three counts are the numbers of that
      class's present, absent and late records, and its session count is the
      number of distinct session ids among them. Its rate is present over
      sessions times enrolled, and is zero unless both are positive; it agrees
      with the rate as written whenever the class has a roster or no sessions. */
  lemma ClassSummary(all: seq<AttendanceRecord>, students: seq<Student>, classes: seq<Class>,
                     selectedClass: string, start: Option<Date>, end: Option<Date>, i: nat)
    requires i < |classes|
    ensures var rows := Generate("class_summary", all, students, classes, selectedClass, start, end);
      rows == Generate("class_summary", all, students, classes, "", None, None)
      && |rows| == |classes|
      && var row := rows[i];
         var rs := ClassRecords(all, classes[i]);
         row.ClassRow? && row.className == classes[i].name && row.subject == classes[i].subject
         && row.totalStudents == |classes[i].studentIds|
         && row.totalSessions == |SessionIds(rs)| && row.totalSessions <= |rs|
         && (row.totalSessions == 0 <==> rs == [])
         && row.presentCount == CountStatus(rs, Present)
         && row.absentCount == CountStatus(rs, Absent)
         && row.lateCount == CountStatus(rs, Late)
         && row.presentCount + row.absentCount + row.lateCount == |rs|
         && (row.attendanceRate.Ratio? <==> row.totalSessions > 0 && row.totalStudents > 0)
         && (row.attendanceRate.Ratio? ==>
               row.attendanceRate.num == row.presentCount
               && row.attendanceRate.den == row.totalSessions * row.totalStudents
               && row.attendanceRate.den > 0)
         && (row.totalStudents > 0 || row.totalSessions == 0 ==>
               row.attendanceRate == ClassRateAsWritten(row.presentCount, row.totalSessions, row.totalStudents))
  {
    var rs := ClassRecords(all, classes[i]);
    StatusCountsSum(rs);
    SessionIdsBounds(rs);
    var row := ClassRowFor(all, classes[i]);
    if row.totalStudents > 0 || row.totalSessions == 0 {
      ClassRateAgrees(row.presentCount, row.totalSessions, row.totalStudents);
    }
  }

  /** The student summary: one row per student in order. The session count is
      that student's record count, the three counts are the numbers of that
      student's present, absent and late records, and the rate is present over
      records, zero exactly when there are none, and never above one. */
  lemma StudentSummary(all: seq<AttendanceRecord>, students: seq<Student>, classes: seq<Class>,
                       selectedClass: string, start: Option<Date>, end: Option<Date>, i: nat)
    requires i < |students|
    ensures var rows := Generate("student_summary", all, students, classes, selectedClass, start, end);
      |rows| == |students|
      && var row := rows[i];
         var rs := StudentRecords(all, students[i]);
         row.StudentRow? && row.studentName == students[i].name && row.studentId == students[i].studentId
         && row.totalSessions == |rs|
         && row.presentCount == CountStatus(rs, Present)
         && row.absentCount == CountStatus(rs, Absent)
         && row.lateCount == CountStatus(rs, Late)
         && row.presentCount + row.absentCount + row.lateCount == row.totalSessions
         && (row.totalSessions == 0 <==> row.attendanceRate == Zero)
         && (row.attendanceRate.Ratio? ==>
               row.attendanceRate.num == row.presentCount && row.attendanceRate.den == |rs|
               && row.attendanceRate.num <= row.attendanceRate.den)
         && (forall r :: r in rs <==> r in all && r.studentId == students[i].id)
  {
    var rs := StudentRecords(all, students[i]);
    StatusCountsSum(rs);
    forall r ensures r in rs <==> r in all && r.studentId == students[i].id {
      FilterMembers(all, (x: AttendanceRecord) => x.studentId == students[i].id, r);
    }
  }

  lemma UnknownReportType(t: string, all: seq<AttendanceRecord>, students: seq<Student>, classes: seq<Class>,
                          selectedClass: string, start: Option<Date>, end: Option<Date>)
    requires t != "attendance" && t != "class_summary" && t != "student_summary"
    ensures Generate(t, all, students, classes, selectedClass, start, end) == []
  {
  }

  /** The reports panel's state. */
  class ReportsPanel {
    const app: AppState
    var reportType: string
    var selectedClass: string
    var rangeStart: Option<Date>
    var rangeEnd: Option<Date>
    var reportData: seq<ReportRow>
    var showReport: bool

    constructor (app: AppState)
      ensures this.app == app && reportType == "attendance" && selectedClass == ""
      ensures rangeStart == None && rangeEnd == None && reportData == [] && !showReport
    {
      this.app := app;
      reportType := "attendance";
      selectedClass := "";
      rangeStart := None;
      rangeEnd := None;
      reportData := [];
      showReport := false;
    }

    method SetReportType(t: string)
      modifies this`reportType
      ensures reportType == t
    {
      reportType := t;
    }

    method SetSelectedClass(c: string)
      modifies this`selectedClass
      ensures selectedClass == c
    {
      selectedClass := c;
    }

    method SetDateRange(start: Option<Date>, end: Option<Date>)
      modifies this`rangeStart, this`rangeEnd
      ensures rangeStart == start && rangeEnd == end
    {
      rangeStart := start;
      rangeEnd := end;
    }

    /** `generateReport()`: computes the chosen report from the store (or the
        fallback records) and shows it. */
    method GenerateReport(today: Date)
      modifies this`reportData, this`showReport
      ensures reportData == Generate(reportType, AllRecords(app.attendanceRecords, today), app.students,
                                     app.classes, selectedClass, rangeStart, rangeEnd)
      ensures showReport
    {
      var all := AllRecords(app.attendanceRecords, today);
      reportData := Generate(reportType, all, app.students, app.classes, selectedClass, rangeStart, rangeEnd);
      showReport := true;
    }
  }
}
