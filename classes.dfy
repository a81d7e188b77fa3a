/** The classes section (src/components/Classes/ClassesSection.tsx): add and
    edit for admins and faculty, delete for admins, CSV import, the export
    rows, the faculty-only class list and the rule for showing the edit and
    delete controls. */
module ClassesSection {
  import opened Lists
  import opened Text
  import opened Domain
  import opened CsvRows
  import opened Directory
  import opened AppContext

  datatype ClassForm = ClassForm(name: string, subject: string, facultyId: string, schedule: string,
                                 room: string, semester: string)

  const EmptyForm: ClassForm := ClassForm("", "", "", "", "", "")

  /** `user?.role === 'admin' || user?.role === 'faculty'`. */
  predicate IsStaff(user: Option<User>)
  {
    HasRole(user, AdminRole) || HasRole(user, FacultyRole)
  }

  /** The new class: a faculty caller becomes its teacher whatever the form
      says; it starts with nobody enrolled. */
  function NewClass(form: ClassForm, user: User, clock: nat): Class
  {
    Class("CLS" + NatToString(clock), form.name, form.subject,
          if user.role == FacultyRole then user.id else form.facultyId,
          [], form.schedule, form.room, form.semester)
  }

  function AddClass(classes: seq<Class>, form: ClassForm, user: Option<User>, clock: nat): seq<Class>
  {
    if IsStaff(user) then classes + [NewClass(form, user.value, clock)] else classes
  }

  /** `{ ...cls, ...formData }`. */
  function ApplyForm(c: Class, form: ClassForm): Class
  {
    c.(name := form.name, subject := form.subject, facultyId := form.facultyId, schedule := form.schedule,
       room := form.room, semester := form.semester)
  }

  function EditClass(classes: seq<Class>, selected: Option<string>, form: ClassForm, user: Option<User>): seq<Class>
  {
    if selected.Some? && IsStaff(user) then
      ReplaceWhere(classes, (c: Class) => c.id == selected.value, (c: Class) => ApplyForm(c, form))
    else classes
  }

  function DeleteClass(classes: seq<Class>, id: string, user: Option<User>): seq<Class>
  {
    if HasRole(user, AdminRole) then RemoveWhere(classes, (c: Class) => c.id == id) else classes
  }

  // ----- CSV import -----

  function ClassFromRow(d: RowData, index: nat, clockAt: nat -> nat): Class
  {
    Class(CsvId(clockAt, index), OrElse(Get(d, "name"), ""), OrElse(Get(d, "subject"), ""),
          OrElse(Get(d, "facultyid"), OrElse(Get(d, "faculty"), "")),
          [], OrElse(Get(d, "schedule"), ""), OrElse(Get(d, "room"), ""), OrElse(Get(d, "semester"), ""))
  }

  function BuiltClasses(grid: seq<seq<string>>, clockAt: nat -> nat): seq<Class>
  {
    var rows := DataRows(grid);
    seq(|rows|, i requires 0 <= i < |rows| => ClassFromRow(RowDataOf(Headers(grid), rows[i]), i, clockAt))
  }

  /** `.filter(cls => cls.name)`. */
  predicate HasName(c: Class)
  {
    c.name != ""
  }

  function ImportedClasses(grid: seq<seq<string>>, clockAt: nat -> nat): seq<Class>
  {
    Filter(BuiltClasses(grid, clockAt), HasName)
  }

  /** The imported classes are the named ones among the built rows, in row
      order, and every one of them starts with nobody enrolled. */
  lemma ImportRule(grid: seq<seq<string>>, clockAt: nat -> nat, c: Class)
    ensures var built := BuiltClasses(grid, clockAt);
      var imported := ImportedClasses(grid, clockAt);
      |imported| <= |DataRows(grid)| && IsSubsequence(imported, built)
      && (c in imported <==> c in built && c.name != "")
      && (c in imported ==> c.studentIds == [])
  {
    var built := BuiltClasses(grid, clockAt);
    FilterMembers(built, HasName, c);
    FilterIsSubsequence(built, HasName);
  }

  /** How one row's cells become the teacher: the 'facultyid' column, else the
      'faculty' column, else nobody. */
  lemma RowFields(d: RowData, index: nat, clockAt: nat -> nat)
    ensures var c := ClassFromRow(d, index, clockAt);
      var fid, fac := Get(d, "facultyid"), Get(d, "faculty");
      c.id == CsvId(clockAt, index) && c.studentIds == []
      && (Filled(Get(d, "name")) ==> c.name == Get(d, "name").value)
      && (!Filled(Get(d, "name")) <==> !HasName(c))
      && (Filled(Get(d, "subject")) ==> c.subject == Get(d, "subject").value)
      && (!Filled(Get(d, "subject")) ==> c.subject == "")
      && (Filled(fid) ==> c.facultyId == fid.value)
      && (!Filled(fid) && Filled(fac) ==> c.facultyId == fac.value)
      && (!Filled(fid) && !Filled(fac) ==> c.facultyId == "")
      && (Filled(Get(d, "schedule")) ==> c.schedule == Get(d, "schedule").value)
      && (!Filled(Get(d, "schedule")) ==> c.schedule == "")
      && (Filled(Get(d, "room")) ==> c.room == Get(d, "room").value)
      && (!Filled(Get(d, "room")) ==> c.room == "")
      && (Filled(Get(d, "semester")) ==> c.semester == Get(d, "semester").value)
      && (!Filled(Get(d, "semester")) ==> c.semester == "")
  {
  }

  /** The `forEach` header loop over each data row and the name filter. */
  method BuildImport(grid: seq<seq<string>>, clockAt: nat -> nat) returns (imported: seq<Class>)
    ensures imported == ImportedClasses(grid, clockAt)
  {
    var headers := Headers(grid);
    var rows := DataRows(grid);
    ghost var built := BuiltClasses(grid, clockAt);
    imported := [];
    for i := 0 to |rows|
      invariant imported == Filter(built[..i], HasName)
    {
      var d := BuildRowData(headers, rows[i]);
      var c := ClassFromRow(d, i, clockAt);
      assert c == built[i];
      FilterSnoc(built, i, HasName);
      if HasName(c) {
        imported := imported + [c];
      }
    }
    assert built[..|rows|] == built;
  }

  // ----- export and the class list -----

  datatype ClassExport = ClassExport(classId: string, className: string, subject: string, faculty: string,
                                     schedule: string, room: string, semester: string, studentCount: nat)

  function TeacherName(faculty: seq<Faculty>, c: Class): string
  {
    var f := Find(faculty, (m: Faculty) => m.id == c.facultyId);
    OrElse(if f.Some? then Some(f.value.name) else None, "Unassigned")
  }

  function ExportRows(classes: seq<Class>, faculty: seq<Faculty>): (r: seq<ClassExport>)
    ensures |r| == |classes|
  {
    Map(classes, (c: Class) => ClassExport(c.id, c.name, c.subject, TeacherName(faculty, c), c.schedule, c.room,
                                           c.semester, |c.studentIds|))
  }

  /** One row per class, in order, with the class's own columns carried over
      and the count as the roster size. The 'Faculty' column is the name of the
      first faculty member whose id is the class's teacher; a teacher not on
      the list, or one with an empty name, shows as 'Unassigned'. */
  lemma ExportRule(classes: seq<Class>, faculty: seq<Faculty>, i: nat)
    requires i < |classes|
    ensures |ExportRows(classes, faculty)| == |classes|
    ensures var row := ExportRows(classes, faculty)[i];
      var c := classes[i];
      row.classId == c.id && row.className == c.name && row.subject == c.subject
      && row.schedule == c.schedule && row.room == c.room && row.semester == c.semester
      && row.studentCount == |c.studentIds|
      && ((forall k :: 0 <= k < |faculty| ==> faculty[k].id != c.facultyId) ==> row.faculty == "Unassigned")
      && (forall k :: 0 <= k < |faculty| && faculty[k].id == c.facultyId
                      && (forall j :: 0 <= j < k ==> faculty[j].id != c.facultyId)
                      ==> row.faculty == (if faculty[k].name != "" then faculty[k].name else "Unassigned"))
  {
    var p := (m: Faculty) => m.id == classes[i].facultyId;
    FindNone(faculty, p);
    forall k | 0 <= k < |faculty| && faculty[k].id == classes[i].facultyId
               && (forall j :: 0 <= j < k ==> faculty[j].id != classes[i].facultyId)
      ensures TeacherName(faculty, classes[i]) == OrElse(Some(faculty[k].name), "Unassigned")
    {
      FindFirst(faculty, p, k);
    }
  }

  /** `filteredClasses`. */
  function VisibleClasses(classes: seq<Class>, user: Option<User>): seq<Class>
  {
    if HasRole(user, FacultyRole) then Filter(classes, (c: Class) => c.facultyId == user.value.id) else classes
  }

  /** A faculty user sees exactly the classes they teach, in order; everyone
      else (including nobody signed in) sees the whole list. */
  lemma VisibleRule(classes: seq<Class>, user: Option<User>, c: Class)
    ensures HasRole(user, FacultyRole) ==>
      (c in VisibleClasses(classes, user) <==> c in classes && c.facultyId == user.value.id)
      && IsSubsequence(VisibleClasses(classes, user), classes)
    ensures !HasRole(user, FacultyRole) ==> VisibleClasses(classes, user) == classes
  {
    if HasRole(user, FacultyRole) {
      var p := (x: Class) => x.facultyId == user.value.id;
      FilterMembers(classes, p, c);
      FilterIsSubsequence(classes, p);
    }
  }

  predicate EditShown(user: Option<User>, c: Class)
  {
    HasRole(user, AdminRole) || (HasRole(user, FacultyRole) && c.facultyId == user.value.id)
  }

  predicate DeleteShown(user: Option<User>)
  {
    HasRole(user, AdminRole)
  }

  /** Every shown control leads to a handler whose role check passes: a
      shown edit control means the editor is staff, a shown delete control
      means an admin; a faculty user is shown edit only on classes they
      teach, which are also the only ones on their list. */
  lemma ControlsRule(classes: seq<Class>, user: Option<User>, c: Class)
    ensures EditShown(user, c) ==> IsStaff(user)
    ensures DeleteShown(user) ==> EditShown(user, c)
    ensures HasRole(user, FacultyRole) && c in classes ==> (EditShown(user, c) <==> c in VisibleClasses(classes, user))
    ensures HasRole(user, StudentRole) || user.None? ==> !EditShown(user, c) && !DeleteShown(user)
  {
    VisibleRule(classes, user, c);
  }

  /** The edit handler itself checks only the role: a faculty member whose
      selection names a class taught by someone else does rewrite it. */
  lemma EditNotOwnerChecked(classes: seq<Class>, form: ClassForm, user: Option<User>, i: nat)
    requires HasRole(user, FacultyRole) && i < |classes| && classes[i].facultyId != user.value.id
    ensures EditClass(classes, Some(classes[i].id), form, user)[i] == ApplyForm(classes[i], form)
    ensures !EditShown(user, classes[i])
  {
  }

  // ----- what the handlers promise -----

  /** Only staff change the list; the new class is appended at the end with
      the form's fields, nobody enrolled, and the caller as teacher when the
      caller is faculty. */
  lemma AddRule(classes: seq<Class>, form: ClassForm, user: Option<User>, clock: nat)
    ensures var r := AddClass(classes, form, user, clock);
      (!IsStaff(user) ==> r == classes)
      && (IsStaff(user) ==>
            |r| == |classes| + 1 && r[..|classes|] == classes
            && var n := r[|classes|];
               n.name == form.name && n.subject == form.subject && n.schedule == form.schedule
               && n.room == form.room && n.semester == form.semester && n.studentIds == []
               && (HasRole(user, FacultyRole) ==> n.facultyId == user.value.id)
               && (HasRole(user, AdminRole) ==> n.facultyId == form.facultyId))
  {
  }

  /** Editing keeps the length; only classes with the selected id change, and
      they keep their id and roster. */
  lemma EditRule(classes: seq<Class>, selected: Option<string>, form: ClassForm, user: Option<User>, i: nat)
    requires i < |classes|
    ensures var r := EditClass(classes, selected, form, user);
      |r| == |classes|
      && (selected.Some? && IsStaff(user) && classes[i].id == selected.value ==>
            r[i] == ApplyForm(classes[i], form) && r[i].id == classes[i].id
            && r[i].studentIds == classes[i].studentIds)
      && (!(selected.Some? && IsStaff(user) && classes[i].id == selected.value) ==> r[i] == classes[i])
  {
  }

  /** Deleting (by an admin) removes exactly the classes with that id and keeps
      the others in order. */
  lemma DeleteRule(classes: seq<Class>, id: string, user: Option<User>, c: Class)
    ensures !HasRole(user, AdminRole) ==> DeleteClass(classes, id, user) == classes
    ensures HasRole(user, AdminRole) ==>
      (c in DeleteClass(classes, id, user) <==> c in classes && c.id != id)
      && IsSubsequence(DeleteClass(classes, id, user), classes)
      && |DeleteClass(classes, id, user)| == |classes| - Count(classes, (x: Class) => x.id == id)
  {
    RemoveWhereRule(classes, (x: Class) => x.id == id, c);
  }

  class ClassesPanel {
    const app: AppState
    var showAddModal: bool
    var showEditModal: bool
    var showImportModal: bool
    var selected: Option<Class>
    var form: ClassForm

    constructor (app: AppState)
      ensures this.app == app && !showAddModal && !showEditModal && !showImportModal
      ensures selected == None && form == EmptyForm
    {
      this.app := app;
      showAddModal := false;
      showEditModal := false;
      showImportModal := false;
      selected := None;
      form := EmptyForm;
    }

    method SetForm(f: ClassForm)
      modifies this`form
      ensures form == f
    {
      form := f;
    }

    /** `handleAddClass()`. */
    method HandleAdd(user: Option<User>, clock: nat)
      modifies app`classes, this`showAddModal, this`form
      ensures app.classes == AddClass(old(app.classes), old(form), user, clock)
      ensures IsStaff(user) ==> !showAddModal && form == EmptyForm
      ensures !IsStaff(user) ==> showAddModal == old(showAddModal) && form == old(form)
    {
      if IsStaff(user) {
        app.SetClasses(AddClass(app.classes, form, user, clock));
        showAddModal := false;
        form := EmptyForm;
      }
    }

    /** `openEditModal(cls)`: the form starts from the class's fields. */
    method OpenEditModal(c: Class)
      modifies this`selected, this`form, this`showEditModal
      ensures selected == Some(c) && form == ClassForm(c.name, c.subject, c.facultyId, c.schedule, c.room, c.semester)
      ensures showEditModal && ApplyForm(c, form) == c
    {
      selected := Some(c);
      form := ClassForm(c.name, c.subject, c.facultyId, c.schedule, c.room, c.semester);
      showEditModal := true;
    }

    /** `handleEditClass()`. */
    method HandleEdit(user: Option<User>)
      modifies app`classes, this`showEditModal, this`selected, this`form
      ensures var sel := if old(selected).Some? then Some(old(selected).value.id) else None;
        app.classes == EditClass(old(app.classes), sel, old(form), user)
      ensures old(selected).Some? && IsStaff(user) ==> !showEditModal && selected == None && form == EmptyForm
      ensures !(old(selected).Some? && IsStaff(user)) ==>
        showEditModal == old(showEditModal) && selected == old(selected) && form == old(form)
    {
      if selected.Some? && IsStaff(user) {
        app.SetClasses(EditClass(app.classes, Some(selected.value.id), form, user));
        showEditModal := false;
        selected := None;
        form := EmptyForm;
      }
    }

    /** `handleDeleteClass(classId)`. */
    method HandleDelete(id: string, user: Option<User>)
      modifies app`classes
      ensures app.classes == DeleteClass(old(app.classes), id, user)
    {
      if HasRole(user, AdminRole) {
        app.SetClasses(DeleteClass(app.classes, id, user));
      }
    }

    /** `handleImportCSV`'s completion callback on the parsed grid; no role is
        checked. */
    method ImportCSV(grid: seq<seq<string>>, clockAt: nat -> nat)
      modifies app`classes, this`showImportModal
      ensures app.classes == old(app.classes) + ImportedClasses(grid, clockAt)
      ensures !showImportModal
    {
      var imported := BuildImport(grid, clockAt);
      app.SetClasses(app.classes + imported);
      showImportModal := false;
    }
  }
}
