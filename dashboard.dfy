/** The statistics of src/components/Dashboard/Dashboard.tsx, computed from the
    store's lists directly (no demonstration fallback), and where each stat
    card's click leads. */
module Dashboard {
  import opened Lists
  import opened Domain
  import opened Navigation
  import Sidebar

  /** `getTodayAttendance()`: the records dated today. */
  function TodayAttendance(records: seq<AttendanceRecord>, today: Date): seq<AttendanceRecord>
  {
    Filter(records, (r: AttendanceRecord) => r.date == today)
  }

  datatype Stats = Stats(totalStudents: nat, presentToday: nat, attendanceRate: Rate)

  /** `getAttendanceStats()`: the rate is present-today over all students, and 0
      when there are no students. */
  function AttendanceStats(students: seq<Student>, records: seq<AttendanceRecord>, today: Date): Stats
  {
    var present := CountStatus(TodayAttendance(records, today), Present);
    Stats(|students|, present, if |students| > 0 then Ratio(present, |students|) else Zero)
  }

  /** Today's list is exactly the records of today; present-today counts only
      its present records (late and absent ones are the rest), so it never
      exceeds today's records, nor these all records; the rate is zero exactly
      without students. */
  lemma StatsFacts(students: seq<Student>, records: seq<AttendanceRecord>, today: Date, r: AttendanceRecord)
    ensures r in TodayAttendance(records, today) <==> r in records && r.date == today
    ensures var t := TodayAttendance(records, today);
      var st := AttendanceStats(students, records, today);
      st.totalStudents == |students|
      && st.presentToday + CountStatus(t, Late) + CountStatus(t, Absent) == |t|
      && st.presentToday <= |t| <= |records|
      && (st.attendanceRate == Zero <==> |students| == 0)
      && (st.attendanceRate.Ratio? ==> st.attendanceRate.num == st.presentToday && st.attendanceRate.den == |students|)
  {
    FilterMembers(records, (x: AttendanceRecord) => x.date == today, r);
    StatusCountsSum(TodayAttendance(records, today));
  }

  /** With an empty store nothing is present today: there is no fallback data. */
  lemma NoFallback(students: seq<Student>, today: Date)
    ensures AttendanceStats(students, [], today).presentToday == 0
  {
  }

  /** The active-sessions card: 1 while a session is in the slot, else 0. */
  function ActiveSessionCount(active: Option<Session>): (n: nat)
    ensures n <= 1 && (n == 1 <==> active.Some?)
  {
    if active.Some? then 1 else 0
  }

  datatype Card = StudentsCard | PresentCard | ClassesCard | ActiveSessionsCard

  /** What a card click does: select a section, or fail. */
  datatype ClickOutcome = Navigate(section: string) | ReferenceError

  /** The clicks as written: the active-sessions card calls `setActiveSession`,
      a name not in scope in this component, so the click throws. */
  function CardClickAsWritten(card: Card): ClickOutcome
  {
    match card
    case StudentsCard => Navigate("students")
    case PresentCard => Navigate("attendance")
    case ClassesCard => Navigate("classes")
    case ActiveSessionsCard => ReferenceError
  }

  /** The clicks with `setActiveSection('attendance')` on the last card. */
  function CardClick(card: Card): string
  {
    match card
    case StudentsCard => "students"
    case PresentCard => "attendance"
    case ClassesCard => "classes"
    case ActiveSessionsCard => "attendance"
  }

  /** The active-sessions card's click fails as written; the other three agree
      with the corrected clicks. */
  lemma CardClickFails(card: Card)
    ensures CardClickAsWritten(ActiveSessionsCard) == ReferenceError
    ensures card != ActiveSessionsCard ==> CardClickAsWritten(card) == Navigate(CardClick(card))
  {
  }

  /** Every corrected card click selects a section of the sidebar's table. */
  lemma CardTargetsAreSections(card: Card)
    ensures CardClick(card) in Ids(Sidebar.SidebarItems())
  {
    var ids := Ids(Sidebar.SidebarItems());
    assert ids[1] == "attendance" && ids[2] == "classes" && ids[3] == "students";
  }
}
