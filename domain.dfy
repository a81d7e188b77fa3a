/** The entities of the attendance dashboard (src/types/index.ts). Calendar
    dates are day numbers, so that "yesterday" is `today - 1` and date order
    is integer order; clock times stay the text the browser printed. */
module Domain {
  import opened Lists

  /** A calendar day (the `YYYY-MM-DD` part of an ISO timestamp). */
  type Date = int

  /** `'student' | 'faculty' | 'admin'`. */
  datatype Role = StudentRole | FacultyRole | AdminRole

  datatype User = User(id: string, email: string, name: string, role: Role, profileImage: Option<string>)

  /** A student; the source's type fixes `role` to 'student' (see `IsStudentRecord`). */
  datatype Student = Student(
    id: string, email: string, name: string, role: Role, profileImage: Option<string>,
    studentId: string, classIds: seq<string>, totalAttendance: int, attendancePercentage: real)

  /** A faculty member; the source's type fixes `role` to 'faculty'. */
  datatype Faculty = Faculty(
    id: string, email: string, name: string, role: Role, profileImage: Option<string>,
    facultyId: string, assignedClasses: seq<string>, department: string)

  datatype Class = Class(
    id: string, name: string, subject: string, facultyId: string, studentIds: seq<string>,
    schedule: string, room: string, semester: string)

  datatype Session = Session(
    id: string, classId: string, facultyId: string, date: Date, startTime: string,
    endTime: Option<string>, qrCode: string, isActive: bool, attendees: seq<string>)

  /** `'present' | 'absent' | 'late'`. */
  datatype Status = Present | Absent | Late

  /** `'qr' | 'manual' | 'face'`. */
  datatype CheckInMethod = Qr | Manual | Face

  datatype AttendanceRecord = AttendanceRecord(
    id: string, studentId: string, classId: string, sessionId: string, date: Date,
    time: string, status: Status, checkInMethod: CheckInMethod)

  datatype DateRange = DateRange(start: Date, end: Date)

  datatype Report = Report(
    id: string, title: string, classId: Option<string>, dateRange: DateRange,
    generatedBy: string, generatedAt: string, data: seq<AttendanceRecord>)

  /** A rate shown as a percentage: `Zero` is the literal 0 shown when the
      denominator guard fails, `Ratio(n, d)` is n / d * 100 (before rounding). */
  datatype Rate = Zero | Ratio(num: nat, den: nat)

  /** `user?.role === r`: false when nobody is signed in. */
  predicate HasRole(user: Option<User>, r: Role)
  {
    user.Some? && user.value.role == r
  }

  predicate IsStudentRecord(s: Student)
  {
    s.role == StudentRole
  }

  predicate IsFacultyRecord(f: Faculty)
  {
    f.role == FacultyRole
  }

  function RoleName(r: Role): string
  {
    match r
    case StudentRole => "student"
    case FacultyRole => "faculty"
    case AdminRole => "admin"
  }

  /** Reads a role name; anything outside the three literals is rejected. */
  function ParseRole(s: string): Option<Role>
  {
    if s == "student" then Some(StudentRole)
    else if s == "faculty" then Some(FacultyRole)
    else if s == "admin" then Some(AdminRole)
    else None
  }

  function StatusName(s: Status): string
  {
    match s
    case Present => "present"
    case Absent => "absent"
    case Late => "late"
  }

  function ParseStatus(s: string): Option<Status>
  {
    if s == "present" then Some(Present)
    else if s == "absent" then Some(Absent)
    else if s == "late" then Some(Late)
    else None
  }

  function MethodName(m: CheckInMethod): string
  {
    match m
    case Qr => "qr"
    case Manual => "manual"
    case Face => "face"
  }

  function ParseMethod(s: string): Option<CheckInMethod>
  {
    if s == "qr" then Some(Qr)
    else if s == "manual" then Some(Manual)
    else if s == "face" then Some(Face)
    else None
  }

  /** A role is exactly one of the three literals: the names round-trip and
      every accepted name is one of them. */
  lemma RoleNames(r: Role, s: string)
    ensures ParseRole(RoleName(r)) == Some(r)
    ensures ParseRole(s).Some? <==> s == "student" || s == "faculty" || s == "admin"
  {
  }

  /** A status is exactly one of present/absent/late. */
  lemma StatusNames(st: Status, s: string)
    ensures ParseStatus(StatusName(st)) == Some(st)
    ensures ParseStatus(s).Some? <==> s == "present" || s == "absent" || s == "late"
  {
  }

  /** A method is exactly one of qr/manual/face. */
  lemma MethodNames(m: CheckInMethod, s: string)
    ensures ParseMethod(MethodName(m)) == Some(m)
    ensures ParseMethod(s).Some? <==> s == "qr" || s == "manual" || s == "face"
  {
  }

  /** The number of records with the given status. */
  function CountStatus(rs: seq<AttendanceRecord>, st: Status): nat
  {
    Count(rs, (r: AttendanceRecord) => r.status == st)
  }

  /** Every record is present, absent or late, so the three counts add up. */
  lemma {:induction false} StatusCountsSum(rs: seq<AttendanceRecord>)
    ensures CountStatus(rs, Present) + CountStatus(rs, Absent) + CountStatus(rs, Late) == |rs|
  {
    if rs != [] {
      StatusCountsSum(rs[1..]);
    }
  }
}
