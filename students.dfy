/** The students section (src/components/Students/StudentsSection.tsx): add,
    edit and delete for admins, CSV import, the export rows and the search
    filter. Each handler is specified by a pure function of the list it
    replaces; the panel class holds the section's form and dialog state. */
module Students {
  import opened Lists
  import opened Text
  import opened Domain
  import opened CsvRows
  import opened Directory
  import opened AppContext

  datatype StudentForm = StudentForm(name: string, email: string, studentId: string, classIds: seq<string>)

  const EmptyForm: StudentForm := StudentForm("", "", "", [])

  /** `{ id: STU<clock>, ...formData, role: 'student', totalAttendance: 0, attendancePercentage: 0 }`. */
  function NewStudent(form: StudentForm, clock: nat): Student
  {
    Student("STU" + NatToString(clock), form.email, form.name, StudentRole, None,
            form.studentId, form.classIds, 0, 0.0)
  }

  function AddStudent(students: seq<Student>, form: StudentForm, user: Option<User>, clock: nat): seq<Student>
  {
    if HasRole(user, AdminRole) then students + [NewStudent(form, clock)] else students
  }

  /** `{ ...student, ...formData }`. */
  function ApplyForm(s: Student, form: StudentForm): Student
  {
    s.(name := form.name, email := form.email, studentId := form.studentId, classIds := form.classIds)
  }

  function EditStudent(students: seq<Student>, selected: Option<string>, form: StudentForm,
                       user: Option<User>): seq<Student>
  {
    if selected.Some? && HasRole(user, AdminRole) then
      ReplaceWhere(students, (s: Student) => s.id == selected.value, (s: Student) => ApplyForm(s, form))
    else students
  }

  function DeleteStudent(students: seq<Student>, id: string, user: Option<User>): seq<Student>
  {
    if HasRole(user, AdminRole) then RemoveWhere(students, (s: Student) => s.id == id) else students
  }

  // ----- CSV import -----

  /** The record one data row becomes, read from that row's dictionary. */
  function StudentFromRow(d: RowData, index: nat, clockAt: nat -> nat, parseFloat: string -> Option<real>): Student
  {
    Student(CsvId(clockAt, index), OrElse(Get(d, "email"), ""), OrElse(Get(d, "name"), ""), StudentRole, None,
            OrElse(Get(d, "studentid"), OrElse(Get(d, "id"), "")),
            SplitList(Get(d, "classids")),
            IntOrZero(Get(d, "totalattendance")),
            RealOrZero(parseFloat, Get(d, "attendancepercentage")))
  }

  /** Every data row's record, before nameless ones are dropped. */
  function BuiltStudents(grid: seq<seq<string>>, clockAt: nat -> nat, parseFloat: string -> Option<real>): seq<Student>
  {
    var rows := DataRows(grid);
    seq(|rows|, i requires 0 <= i < |rows| => StudentFromRow(RowDataOf(Headers(grid), rows[i]), i, clockAt, parseFloat))
  }

  /** `.filter(student => student.name)`. */
  predicate HasName(s: Student)
  {
    s.name != ""
  }

  function ImportedStudents(grid: seq<seq<string>>, clockAt: nat -> nat, parseFloat: string -> Option<real>): seq<Student>
  {
    Filter(BuiltStudents(grid, clockAt, parseFloat), HasName)
  }

  /** The imported records are the named ones among the built rows, in row
      order; each is a student, and there are never more than data rows. */
  lemma ImportRule(grid: seq<seq<string>>, clockAt: nat -> nat, parseFloat: string -> Option<real>, s: Student)
    ensures var built := BuiltStudents(grid, clockAt, parseFloat);
      var imported := ImportedStudents(grid, clockAt, parseFloat);
      |imported| <= |DataRows(grid)| && IsSubsequence(imported, built)
      && (s in imported <==> s in built && s.name != "")
      && (s in imported ==> IsStudentRecord(s))
  {
    var built := BuiltStudents(grid, clockAt, parseFloat);
    FilterMembers(built, HasName, s);
    FilterIsSubsequence(built, HasName);
  }

  /** How one row's cells become fields: the id column as a fallback for the
      student number, the comma split for the class list, 0 for a count that
      does not parse. */
  lemma RowFields(d: RowData, index: nat, clockAt: nat -> nat, parseFloat: string -> Option<real>)
    ensures var s := StudentFromRow(d, index, clockAt, parseFloat);
      var sid, id, cls, tot, pct := Get(d, "studentid"), Get(d, "id"), Get(d, "classids"),
                                    Get(d, "totalattendance"), Get(d, "attendancepercentage");
      s.id == CsvId(clockAt, index) && s.role == StudentRole && s.profileImage.None?
      && (Filled(Get(d, "name")) ==> s.name == Get(d, "name").value)
      && (!Filled(Get(d, "name")) <==> !HasName(s))
      && (Filled(Get(d, "email")) ==> s.email == Get(d, "email").value)
      && (!Filled(Get(d, "email")) ==> s.email == "")
      && (Filled(sid) ==> s.studentId == sid.value)
      && (!Filled(sid) && Filled(id) ==> s.studentId == id.value)
      && (!Filled(sid) && !Filled(id) ==> s.studentId == "")
      && (!Filled(cls) ==> s.classIds == [])
      && (Filled(cls) ==> Join(s.classIds, ",") == cls.value
                          && forall k :: 0 <= k < |s.classIds| ==> ',' !in s.classIds[k])
      && (tot.None? ==> s.totalAttendance == 0)
      && (tot.Some? && ParseInt(tot.value).None? ==> s.totalAttendance == 0)
      && (forall n :: tot.Some? && ParseInt(tot.value) == Some(n) ==> s.totalAttendance == n)
      && (pct.None? ==> s.attendancePercentage == 0.0)
      && (pct.Some? && parseFloat(pct.value).None? ==> s.attendancePercentage == 0.0)
      && (forall v :: pct.Some? && parseFloat(pct.value) == Some(v) ==> s.attendancePercentage == v)
  {
  }

  // ----- search and export -----

  function SearchFields(s: Student): seq<string>
  {
    [s.name, s.email, s.studentId]
  }

  function FilteredStudents(students: seq<Student>, term: string): seq<Student>
  {
    Filter(students, (s: Student) => AnyFieldMatches(SearchFields(s), term))
  }

  /** A student is shown exactly when the lowered term occurs in its lowered
      name, email or student number. */
  lemma SearchRule(students: seq<Student>, term: string, s: Student)
    ensures s in FilteredStudents(students, term) <==>
      s in students
      && (Includes(Lower(s.name), Lower(term)) || Includes(Lower(s.email), Lower(term))
          || Includes(Lower(s.studentId), Lower(term)))
  {
    FilterMembers(students, (x: Student) => AnyFieldMatches(SearchFields(x), term), s);
    ThreeFieldsMatch(s.name, s.email, s.studentId, term);
  }

  /** The search keeps the list's order, and the empty term shows everyone. */
  lemma SearchKeepsOrder(students: seq<Student>, term: string)
    ensures IsSubsequence(FilteredStudents(students, term), students)
    ensures FilteredStudents(students, "") == students
  {
    FilterIsSubsequence(students, (x: Student) => AnyFieldMatches(SearchFields(x), term));
    var empty := (x: Student) => AnyFieldMatches(SearchFields(x), "");
    forall i | 0 <= i < |students| ensures empty(students[i]) {
      EmptyTermMatches(SearchFields(students[i]));
    }
    FilterKeepsAll(students, empty);
  }

  datatype StudentExport = StudentExport(studentId: string, name: string, email: string, classes: string,
                                         totalAttendance: int, attendancePercentage: real)

  function ExportRows(students: seq<Student>, classes: seq<Class>): (r: seq<StudentExport>)
    ensures |r| == |students|
  {
    Map(students, (s: Student) =>
      StudentExport(s.studentId, s.name, s.email, Join(ClassLabels(classes, s.classIds), ", "),
                    s.totalAttendance, s.attendancePercentage))
  }

  /** One row per student, in order, with the number, name, email and
      counters carried over; the 'Classes' column lists the enrolled classes in
      the student's order, joined by ", ", each by its name when a class has
      that id and by the id otherwise. */
  lemma ExportRule(students: seq<Student>, classes: seq<Class>, i: nat)
    requires i < |students|
    ensures |ExportRows(students, classes)| == |students|
    ensures var row := ExportRows(students, classes)[i];
      row.studentId == students[i].studentId && row.name == students[i].name && row.email == students[i].email
      && row.totalAttendance == students[i].totalAttendance
      && row.attendancePercentage == students[i].attendancePercentage
      && row.classes == Join(ClassLabels(classes, students[i].classIds), ", ")
    ensures var ids := students[i].classIds;
      |ClassLabels(classes, ids)| == |ids|
      && forall j :: 0 <= j < |ids| && (forall k :: 0 <= k < |classes| ==> classes[k].id != ids[j]) ==>
           ClassLabels(classes, ids)[j] == ids[j]
  {
    var ids := students[i].classIds;
    forall j | 0 <= j < |ids| {
      ClassLabelsRule(classes, ids, j);
    }
  }

  // ----- what the handlers promise -----

  /** Only an admin changes the list; adding appends exactly one new student at
      the end, with the form's fields, the student role and zero counters. */
  lemma AddRule(students: seq<Student>, form: StudentForm, user: Option<User>, clock: nat)
    ensures var r := AddStudent(students, form, user, clock);
      (!HasRole(user, AdminRole) ==> r == students)
      && (HasRole(user, AdminRole) ==>
            |r| == |students| + 1 && r[..|students|] == students
            && var n := r[|students|];
               n.name == form.name && n.email == form.email && n.studentId == form.studentId
               && n.classIds == form.classIds && IsStudentRecord(n)
               && n.totalAttendance == 0 && n.attendancePercentage == 0.0)
  {
  }

  /** Editing keeps the list's length; only students with the selected id
      change, and they keep their id, role and counters. */
  lemma EditRule(students: seq<Student>, selected: Option<string>, form: StudentForm, user: Option<User>, i: nat)
    requires i < |students|
    ensures var r := EditStudent(students, selected, form, user);
      |r| == |students|
      && (selected.Some? && HasRole(user, AdminRole) && students[i].id == selected.value ==>
            r[i] == ApplyForm(students[i], form) && r[i].id == students[i].id && r[i].role == students[i].role
            && r[i].totalAttendance == students[i].totalAttendance
            && r[i].attendancePercentage == students[i].attendancePercentage)
      && (!(selected.Some? && HasRole(user, AdminRole) && students[i].id == selected.value) ==> r[i] == students[i])
  {
  }

  /** Deleting (by an admin) removes exactly the students with that id and keeps
      the others in order. */
  lemma DeleteRule(students: seq<Student>, id: string, user: Option<User>, s: Student)
    ensures !HasRole(user, AdminRole) ==> DeleteStudent(students, id, user) == students
    ensures HasRole(user, AdminRole) ==>
      (s in DeleteStudent(students, id, user) <==> s in students && s.id != id)
      && IsSubsequence(DeleteStudent(students, id, user), students)
      && |DeleteStudent(students, id, user)| == |students| - Count(students, (x: Student) => x.id == id)
  {
    RemoveWhereRule(students, (x: Student) => x.id == id, s);
  }

  predicate AllStudentRecords(students: seq<Student>)
  {
    forall i :: 0 <= i < |students| ==> IsStudentRecord(students[i])
  }

  /** Every handler keeps every record of the list a student. */
  lemma RolePreserved(students: seq<Student>, form: StudentForm, selected: Option<string>, user: Option<User>,
                      clock: nat, id: string, grid: seq<seq<string>>, clockAt: nat -> nat,
                      parseFloat: string -> Option<real>)
    requires AllStudentRecords(students)
    ensures AllStudentRecords(AddStudent(students, form, user, clock))
    ensures AllStudentRecords(EditStudent(students, selected, form, user))
    ensures AllStudentRecords(DeleteStudent(students, id, user))
    ensures AllStudentRecords(students + ImportedStudents(grid, clockAt, parseFloat))
  {
    var kept := DeleteStudent(students, id, user);
    forall i | 0 <= i < |kept| ensures IsStudentRecord(kept[i]) {
      if HasRole(user, AdminRole) {
        RemoveWhereRule(students, (x: Student) => x.id == id, kept[i]);
      }
    }
    var imported := ImportedStudents(grid, clockAt, parseFloat);
    forall i | 0 <= i < |imported| ensures IsStudentRecord(imported[i]) {
      ImportRule(grid, clockAt, parseFloat, imported[i]);
    }
  }

  /** The `csvData.slice(1).map(...).filter(...)` pass: each data row's
      dictionary is filled by the header loop and turned into a record, and
      the named records are kept in row order. */
  method BuildImport(grid: seq<seq<string>>, clockAt: nat -> nat, parseFloat: string -> Option<real>)
    returns (imported: seq<Student>)
    ensures imported == ImportedStudents(grid, clockAt, parseFloat)
  {
    var headers := Headers(grid);
    var rows := DataRows(grid);
    ghost var built := BuiltStudents(grid, clockAt, parseFloat);
    imported := [];
    for i := 0 to |rows|
      invariant imported == Filter(built[..i], HasName)
    {
      var d := BuildRowData(headers, rows[i]);
      var s := StudentFromRow(d, i, clockAt, parseFloat);
      assert s == built[i];
      FilterSnoc(built, i, HasName);
      if HasName(s) {
        imported := imported + [s];
      }
    }
    assert built[..|rows|] == built;
  }

  /** The section's own state. */
  class StudentsPanel {
    const app: AppState
    var showAddModal: bool
    var showEditModal: bool
    var showProfileModal: bool
    var showImportModal: bool
    var selected: Option<Student>
    var searchTerm: string
    var form: StudentForm

    constructor (app: AppState)
      ensures this.app == app && !showAddModal && !showEditModal && !showProfileModal && !showImportModal
      ensures selected == None && searchTerm == "" && form == EmptyForm
    {
      this.app := app;
      showAddModal := false;
      showEditModal := false;
      showProfileModal := false;
      showImportModal := false;
      selected := None;
      searchTerm := "";
      form := EmptyForm;
    }

    method SetForm(f: StudentForm)
      modifies this`form
      ensures form == f
    {
      form := f;
    }

    method SetSearchTerm(t: string)
      modifies this`searchTerm
      ensures searchTerm == t
    {
      searchTerm := t;
    }

    /** `handleAddStudent()`. */
    method HandleAdd(user: Option<User>, clock: nat)
      modifies app`students, this`showAddModal, this`form
      ensures app.students == AddStudent(old(app.students), old(form), user, clock)
      ensures HasRole(user, AdminRole) ==> !showAddModal && form == EmptyForm
      ensures !HasRole(user, AdminRole) ==> showAddModal == old(showAddModal) && form == old(form)
    {
      if HasRole(user, AdminRole) {
        app.SetStudents(AddStudent(app.students, form, user, clock));
        showAddModal := false;
        form := EmptyForm;
      }
    }

    /** `openEditModal(student)`: the form starts from the student's fields. */
    method OpenEditModal(s: Student)
      modifies this`selected, this`form, this`showEditModal
      ensures selected == Some(s) && form == StudentForm(s.name, s.email, s.studentId, s.classIds)
      ensures showEditModal && ApplyForm(s, form) == s
    {
      selected := Some(s);
      form := StudentForm(s.name, s.email, s.studentId, s.classIds);
      showEditModal := true;
    }

    method OpenProfileModal(s: Student)
      modifies this`selected, this`showProfileModal
      ensures selected == Some(s) && showProfileModal
    {
      selected := Some(s);
      showProfileModal := true;
    }

    /** `handleEditStudent()`. */
    method HandleEdit(user: Option<User>)
      modifies app`students, this`showEditModal, this`selected, this`form
      ensures var sel := if old(selected).Some? then Some(old(selected).value.id) else None;
        app.students == EditStudent(old(app.students), sel, old(form), user)
      ensures old(selected).Some? && HasRole(user, AdminRole) ==> !showEditModal && selected == None && form == EmptyForm
      ensures !(old(selected).Some? && HasRole(user, AdminRole)) ==>
        showEditModal == old(showEditModal) && selected == old(selected) && form == old(form)
    {
      if selected.Some? && HasRole(user, AdminRole) {
        app.SetStudents(EditStudent(app.students, Some(selected.value.id), form, user));
        showEditModal := false;
        selected := None;
        form := EmptyForm;
      }
    }

    /** `handleDeleteStudent(id)`. */
    method HandleDelete(id: string, user: Option<User>)
      modifies app`students
      ensures app.students == DeleteStudent(old(app.students), id, user)
    {
      if HasRole(user, AdminRole) {
        app.SetStudents(DeleteStudent(app.students, id, user));
      }
    }

    /** `handleImportCSV`'s completion callback on the parsed grid: the named
        rows' records are appended after the existing students. */
    method ImportCSV(grid: seq<seq<string>>, clockAt: nat -> nat, parseFloat: string -> Option<real>)
      modifies app`students, this`showImportModal
      ensures app.students == old(app.students) + ImportedStudents(grid, clockAt, parseFloat)
      ensures !showImportModal
    {
      var imported := BuildImport(grid, clockAt, parseFloat);
      app.SetStudents(app.students + imported);
      showImportModal := false;
    }
  }
}
