/** The faculty section (src/components/Faculty/FacultySection.tsx): add, edit
    and delete for admins, CSV import, the export rows (with the assigned
    classes shown by name) and the search filter. */
module FacultySection {
  import opened Lists
  import opened Text
  import opened Domain
  import opened CsvRows
  import opened Directory
  import opened AppContext

  datatype FacultyForm = FacultyForm(name: string, email: string, facultyId: string, department: string,
                                     assignedClasses: seq<string>)

  const EmptyForm: FacultyForm := FacultyForm("", "", "", "", [])

  /** `{ id: FAC<clock>, ...formData, role: 'faculty' }`. */
  function NewFaculty(form: FacultyForm, clock: nat): Faculty
  {
    Faculty("FAC" + NatToString(clock), form.email, form.name, FacultyRole, None,
            form.facultyId, form.assignedClasses, form.department)
  }

  function AddFaculty(faculty: seq<Faculty>, form: FacultyForm, user: Option<User>, clock: nat): seq<Faculty>
  {
    if HasRole(user, AdminRole) then faculty + [NewFaculty(form, clock)] else faculty
  }

  /** `{ ...f, ...formData }`. */
  function ApplyForm(f: Faculty, form: FacultyForm): Faculty
  {
    f.(name := form.name, email := form.email, facultyId := form.facultyId, department := form.department,
       assignedClasses := form.assignedClasses)
  }

  function EditFaculty(faculty: seq<Faculty>, selected: Option<string>, form: FacultyForm,
                       user: Option<User>): seq<Faculty>
  {
    if selected.Some? && HasRole(user, AdminRole) then
      ReplaceWhere(faculty, (f: Faculty) => f.id == selected.value, (f: Faculty) => ApplyForm(f, form))
    else faculty
  }

  function DeleteFaculty(faculty: seq<Faculty>, id: string, user: Option<User>): seq<Faculty>
  {
    if HasRole(user, AdminRole) then RemoveWhere(faculty, (f: Faculty) => f.id == id) else faculty
  }

  // ----- CSV import -----

  function FacultyFromRow(d: RowData, index: nat, clockAt: nat -> nat): Faculty
  {
    Faculty(CsvId(clockAt, index), OrElse(Get(d, "email"), ""), OrElse(Get(d, "name"), ""), FacultyRole, None,
            OrElse(Get(d, "facultyid"), OrElse(Get(d, "id"), "")),
            SplitList(Get(d, "assignedclasses")),
            OrElse(Get(d, "department"), ""))
  }

  function BuiltFaculty(grid: seq<seq<string>>, clockAt: nat -> nat): seq<Faculty>
  {
    var rows := DataRows(grid);
    seq(|rows|, i requires 0 <= i < |rows| => FacultyFromRow(RowDataOf(Headers(grid), rows[i]), i, clockAt))
  }

  /** `.filter(f => f.name)`. */
  predicate HasName(f: Faculty)
  {
    f.name != ""
  }

  function ImportedFaculty(grid: seq<seq<string>>, clockAt: nat -> nat): seq<Faculty>
  {
    Filter(BuiltFaculty(grid, clockAt), HasName)
  }

  /** The imported members are the named ones among the built rows, in row
      order, each with the faculty role. */
  lemma ImportRule(grid: seq<seq<string>>, clockAt: nat -> nat, f: Faculty)
    ensures var built := BuiltFaculty(grid, clockAt);
      var imported := ImportedFaculty(grid, clockAt);
      |imported| <= |DataRows(grid)| && IsSubsequence(imported, built)
      && (f in imported <==> f in built && f.name != "")
      && (f in imported ==> IsFacultyRecord(f))
  {
    var built := BuiltFaculty(grid, clockAt);
    FilterMembers(built, HasName, f);
    FilterIsSubsequence(built, HasName);
  }

  /** How one row's cells become fields: the id column as a fallback for the
      staff number, the comma split (else nothing) for the classes. */
  lemma RowFields(d: RowData, index: nat, clockAt: nat -> nat)
    ensures var f := FacultyFromRow(d, index, clockAt);
      var fid, id, cls, dept := Get(d, "facultyid"), Get(d, "id"), Get(d, "assignedclasses"), Get(d, "department");
      f.id == CsvId(clockAt, index) && f.role == FacultyRole && f.profileImage.None?
      && (Filled(Get(d, "name")) ==> f.name == Get(d, "name").value)
      && (!Filled(Get(d, "name")) <==> !HasName(f))
      && (Filled(Get(d, "email")) ==> f.email == Get(d, "email").value)
      && (!Filled(Get(d, "email")) ==> f.email == "")
      && (Filled(fid) ==> f.facultyId == fid.value)
      && (!Filled(fid) && Filled(id) ==> f.facultyId == id.value)
      && (!Filled(fid) && !Filled(id) ==> f.facultyId == "")
      && (Filled(dept) ==> f.department == dept.value)
      && (!Filled(dept) ==> f.department == "")
      && (!Filled(cls) ==> f.assignedClasses == [])
      && (Filled(cls) ==> Join(f.assignedClasses, ",") == cls.value
                          && forall k :: 0 <= k < |f.assignedClasses| ==> ',' !in f.assignedClasses[k])
  {
  }

  /** The `forEach` header loop over each data row and the name filter. */
  method BuildImport(grid: seq<seq<string>>, clockAt: nat -> nat) returns (imported: seq<Faculty>)
    ensures imported == ImportedFaculty(grid, clockAt)
  {
    var headers := Headers(grid);
    var rows := DataRows(grid);
    ghost var built := BuiltFaculty(grid, clockAt);
    imported := [];
    for i := 0 to |rows|
      invariant imported == Filter(built[..i], HasName)
    {
      var d := BuildRowData(headers, rows[i]);
      var f := FacultyFromRow(d, i, clockAt);
      assert f == built[i];
      FilterSnoc(built, i, HasName);
      if HasName(f) {
        imported := imported + [f];
      }
    }
    assert built[..|rows|] == built;
  }

  // ----- search and export -----

  function SearchFields(f: Faculty): seq<string>
  {
    [f.name, f.email, f.facultyId, f.department]
  }

  function FilteredFaculty(faculty: seq<Faculty>, term: string): seq<Faculty>
  {
    Filter(faculty, (f: Faculty) => AnyFieldMatches(SearchFields(f), term))
  }

  /** A member is shown exactly when the lowered term occurs in its lowered
      name, email, staff number or department. */
  lemma SearchRule(faculty: seq<Faculty>, term: string, f: Faculty)
    ensures f in FilteredFaculty(faculty, term) <==>
      f in faculty
      && (Includes(Lower(f.name), Lower(term)) || Includes(Lower(f.email), Lower(term))
          || Includes(Lower(f.facultyId), Lower(term)) || Includes(Lower(f.department), Lower(term)))
  {
    FilterMembers(faculty, (x: Faculty) => AnyFieldMatches(SearchFields(x), term), f);
    FourFieldsMatch(f.name, f.email, f.facultyId, f.department, term);
  }

  /** The search keeps the list's order, and the empty term shows everyone. */
  lemma SearchKeepsOrder(faculty: seq<Faculty>, term: string)
    ensures IsSubsequence(FilteredFaculty(faculty, term), faculty)
    ensures FilteredFaculty(faculty, "") == faculty
  {
    FilterIsSubsequence(faculty, (x: Faculty) => AnyFieldMatches(SearchFields(x), term));
    var empty := (x: Faculty) => AnyFieldMatches(SearchFields(x), "");
    forall i | 0 <= i < |faculty| ensures empty(faculty[i]) {
      EmptyTermMatches(SearchFields(faculty[i]));
    }
    FilterKeepsAll(faculty, empty);
  }

  datatype FacultyExport = FacultyExport(facultyId: string, name: string, email: string, department: string,
                                         assignedClasses: string)

  function ExportRow(classes: seq<Class>, f: Faculty): FacultyExport
  {
    FacultyExport(f.facultyId, f.name, f.email, f.department, Join(ClassLabels(classes, f.assignedClasses), ", "))
  }

  function ExportRows(faculty: seq<Faculty>, classes: seq<Class>): (r: seq<FacultyExport>)
    ensures |r| == |faculty|
  {
    Map(faculty, (f: Faculty) => ExportRow(classes, f))
  }

  /** One row per member, in order, with the staff number, name, email and
      department carried over; 'Assigned Classes' lists the classes in
      the member's order, each by its name when a class has that id and by the
      id otherwise, joined by ", ". */
  lemma ExportRule(faculty: seq<Faculty>, classes: seq<Class>, i: nat)
    requires i < |faculty|
    ensures |ExportRows(faculty, classes)| == |faculty|
    ensures var row := ExportRows(faculty, classes)[i];
      row.facultyId == faculty[i].facultyId && row.name == faculty[i].name && row.email == faculty[i].email
      && row.department == faculty[i].department
      && row.assignedClasses == Join(ClassLabels(classes, faculty[i].assignedClasses), ", ")
    ensures var ids := faculty[i].assignedClasses;
      |ClassLabels(classes, ids)| == |ids|
      && forall j :: 0 <= j < |ids| && (forall k :: 0 <= k < |classes| ==> classes[k].id != ids[j]) ==>
           ClassLabels(classes, ids)[j] == ids[j]
  {
    var ids := faculty[i].assignedClasses;
    forall j | 0 <= j < |ids| {
      ClassLabelsRule(classes, ids, j);
    }
  }

  // ----- what the handlers promise -----

  /** Only an admin changes the list; adding appends one member at the end
      with the form's fields and the faculty role. */
  lemma AddRule(faculty: seq<Faculty>, form: FacultyForm, user: Option<User>, clock: nat)
    ensures var r := AddFaculty(faculty, form, user, clock);
      (!HasRole(user, AdminRole) ==> r == faculty)
      && (HasRole(user, AdminRole) ==>
            |r| == |faculty| + 1 && r[..|faculty|] == faculty
            && var n := r[|faculty|];
               n.name == form.name && n.email == form.email && n.facultyId == form.facultyId
               && n.department == form.department && n.assignedClasses == form.assignedClasses
               && IsFacultyRecord(n))
  {
  }

  /** Editing keeps the length; only members with the selected id change, and
      they keep their id and role. */
  lemma EditRule(faculty: seq<Faculty>, selected: Option<string>, form: FacultyForm, user: Option<User>, i: nat)
    requires i < |faculty|
    ensures var r := EditFaculty(faculty, selected, form, user);
      |r| == |faculty|
      && (selected.Some? && HasRole(user, AdminRole) && faculty[i].id == selected.value ==>
            r[i] == ApplyForm(faculty[i], form) && r[i].id == faculty[i].id && r[i].role == faculty[i].role)
      && (!(selected.Some? && HasRole(user, AdminRole) && faculty[i].id == selected.value) ==> r[i] == faculty[i])
  {
  }

  /** Deleting (by an admin) removes exactly the members with that id and keeps
      the others in order. */
  lemma DeleteRule(faculty: seq<Faculty>, id: string, user: Option<User>, f: Faculty)
    ensures !HasRole(user, AdminRole) ==> DeleteFaculty(faculty, id, user) == faculty
    ensures HasRole(user, AdminRole) ==>
      (f in DeleteFaculty(faculty, id, user) <==> f in faculty && f.id != id)
      && IsSubsequence(DeleteFaculty(faculty, id, user), faculty)
      && |DeleteFaculty(faculty, id, user)| == |faculty| - Count(faculty, (x: Faculty) => x.id == id)
  {
    RemoveWhereRule(faculty, (x: Faculty) => x.id == id, f);
  }

  predicate AllFacultyRecords(faculty: seq<Faculty>)
  {
    forall i :: 0 <= i < |faculty| ==> IsFacultyRecord(faculty[i])
  }

  /** Every handler keeps every member of the list a faculty record. */
  lemma RolePreserved(faculty: seq<Faculty>, form: FacultyForm, selected: Option<string>, user: Option<User>,
                      clock: nat, id: string, grid: seq<seq<string>>, clockAt: nat -> nat)
    requires AllFacultyRecords(faculty)
    ensures AllFacultyRecords(AddFaculty(faculty, form, user, clock))
    ensures AllFacultyRecords(EditFaculty(faculty, selected, form, user))
    ensures AllFacultyRecords(DeleteFaculty(faculty, id, user))
    ensures AllFacultyRecords(faculty + ImportedFaculty(grid, clockAt))
  {
    var kept := DeleteFaculty(faculty, id, user);
    forall i | 0 <= i < |kept| ensures IsFacultyRecord(kept[i]) {
      if HasRole(user, AdminRole) {
        RemoveWhereRule(faculty, (x: Faculty) => x.id == id, kept[i]);
      }
    }
    var imported := ImportedFaculty(grid, clockAt);
    forall i | 0 <= i < |imported| ensures IsFacultyRecord(imported[i]) {
      ImportRule(grid, clockAt, imported[i]);
    }
  }

  class FacultyPanel {
    const app: AppState
    var showAddModal: bool
    var showEditModal: bool
    var showProfileModal: bool
    var showImportModal: bool
    var selected: Option<Faculty>
    var searchTerm: string
    var form: FacultyForm

    constructor (app: AppState)
      ensures this.app == app && !showAddModal && !showEditModal && !showProfileModal && !showImportModal
      ensures selected == None && searchTerm == "" && form == EmptyForm
    {
      this.app := app;
      showAddModal := false;
      showEditModal := false;
      showProfileModal := false;
      showImportModal := false;
      selected := None;
      searchTerm := "";
      form := EmptyForm;
    }

    method SetForm(f: FacultyForm)
      modifies this`form
      ensures form == f
    {
      form := f;
    }

    method SetSearchTerm(t: string)
      modifies this`searchTerm
      ensures searchTerm == t
    {
      searchTerm := t;
    }

    /** `handleAddFaculty()`. */
    method HandleAdd(user: Option<User>, clock: nat)
      modifies app`faculty, this`showAddModal, this`form
      ensures app.faculty == AddFaculty(old(app.faculty), old(form), user, clock)
      ensures HasRole(user, AdminRole) ==> !showAddModal && form == EmptyForm
      ensures !HasRole(user, AdminRole) ==> showAddModal == old(showAddModal) && form == old(form)
    {
      if HasRole(user, AdminRole) {
        app.SetFaculty(AddFaculty(app.faculty, form, user, clock));
        showAddModal := false;
        form := EmptyForm;
      }
    }

    /** `openEditModal(member)`: the form starts from the member's fields. */
    method OpenEditModal(f: Faculty)
      modifies this`selected, this`form, this`showEditModal
      ensures selected == Some(f) && form == FacultyForm(f.name, f.email, f.facultyId, f.department, f.assignedClasses)
      ensures showEditModal && ApplyForm(f, form) == f
    {
      selected := Some(f);
      form := FacultyForm(f.name, f.email, f.facultyId, f.department, f.assignedClasses);
      showEditModal := true;
    }

    method OpenProfileModal(f: Faculty)
      modifies this`selected, this`showProfileModal
      ensures selected == Some(f) && showProfileModal
    {
      selected := Some(f);
      showProfileModal := true;
    }

    /** `handleEditFaculty()`. */
    method HandleEdit(user: Option<User>)
      modifies app`faculty, this`showEditModal, this`selected, this`form
      ensures var sel := if old(selected).Some? then Some(old(selected).value.id) else None;
        app.faculty == EditFaculty(old(app.faculty), sel, old(form), user)
      ensures old(selected).Some? && HasRole(user, AdminRole) ==> !showEditModal && selected == None && form == EmptyForm
      ensures !(old(selected).Some? && HasRole(user, AdminRole)) ==>
        showEditModal == old(showEditModal) && selected == old(selected) && form == old(form)
    {
      if selected.Some? && HasRole(user, AdminRole) {
        app.SetFaculty(EditFaculty(app.faculty, Some(selected.value.id), form, user));
        showEditModal := false;
        selected := None;
        form := EmptyForm;
      }
    }

    /** `handleDeleteFaculty(id)`. */
    method HandleDelete(id: string, user: Option<User>)
      modifies app`faculty
      ensures app.faculty == DeleteFaculty(old(app.faculty), id, user)
    {
      if HasRole(user, AdminRole) {
        app.SetFaculty(DeleteFaculty(app.faculty, id, user));
      }
    }

    /** `handleImportCSV`'s completion callback on the parsed grid. */
    method ImportCSV(grid: seq<seq<string>>, clockAt: nat -> nat)
      modifies app`faculty, this`showImportModal
      ensures app.faculty == old(app.faculty) + ImportedFaculty(grid, clockAt)
      ensures !showImportModal
    {
      var imported := BuildImport(grid, clockAt);
      app.SetFaculty(app.faculty + imported);
      showImportModal := false;
    }
  }
}
