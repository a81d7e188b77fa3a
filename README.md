# Attendify domain layer in Dafny

This project models the data layer beneath Attendify, a browser attendance dashboard written in React and TypeScript. It covers:

- **Records and store.** The record shapes, and the app store that holds the classes, students, faculty, sessions, records, the one active-session slot and the two stored display preferences.
- **Class sessions.** Starting and ending a session, and the `{sessionId, classId, timestamp}` payload shown as a QR code.
- **Querying and reports.** The four-criterion attendance filter and its export rows, the three report kinds, and the dashboard's "today" statistics.
- **Administration.** Add, edit, delete, CSV import, search and export for students, faculty and classes.
- **Navigation.** The role-gated navigation tables of the sidebar and the top bar.

Each source file keeps its own form:

- **Stateful code becomes classes.** React state and the store are classes whose methods change only the fields they name:
  - `AppContext.AppState`, the store;
  - `AttendanceSection.AttendancePanel`;
  - `Reports.ReportsPanel`;
  - `Students.StudentsPanel`;
  - `FacultySection.FacultyPanel`;
  - `ClassesSection.ClassesPanel`;
  - `Sidebar.SidebarState`.
- **Expressions become functions.** Filters, maps and `find` expressions become functions over sequences, with lemmas about them.
- **Loops become methods.** The CSV header loop and the row pass are `while`/`for` methods, each proved equal to the function that specifies it.

The data model uses these representations:

- **Dates** are whole day numbers (`Domain.Date`). Yesterday in the fixtures is `today - 1`.
- **Rates** are kept as the counts they divide (`Domain.Rate`), not as formatted strings.
- **`localStorage`** is a `map<string, string>`.
- **Undefined** is `Lists.Option`. JavaScript's `x || fallback` on strings is `Text.OrElse`.
- **External inputs are parameters.** The signed-in user, clock readings, today's date, printed times and `parseFloat` are all passed in. The user comes from the authentication context, which is not part of this model.

The modules, in dependency order:

| file | module | models |
|---|---|---|
| lists.dfy | `Lists` | `filter`, `map` and `find`, with their order, membership and idempotence facts |
| text.dfy | `Text` | JavaScript string built-ins: `toLowerCase`, `includes`, `split`/`join`, `replace(' ', '')`, `parseInt` and decimal rendering |
| domain.dfy | `Domain` | src/types/index.ts |
| csv_rows.dfy | `CsvRows` | the header-normalising dictionary of one CSV row |
| directory.dfy | `Directory` | what the three administration sections share |
| session_payload.dfy | `SessionPayload` | the `JSON.stringify` text of the check-in payload, and a reader for it |
| app_context.dfy | `AppContext` | src/context/AppContext.tsx |
| attendance_section.dfy | `AttendanceSection` | src/components/Attendance/AttendanceSection.tsx |
| attendance_list.dfy | `AttendanceList` | src/components/Attendance/AttendanceList.tsx |
| reports.dfy | `Reports` | src/components/Reports/ReportsSection.tsx |
| navigation.dfy, sidebar.dfy, navbar.dfy | `Navigation`, `Sidebar`, `Navbar` | src/components/Layout/ModernSidebar.tsx and src/components/Layout/Navbar.tsx |
| dashboard.dfy | `Dashboard` | src/components/Dashboard/Dashboard.tsx |
| students.dfy, faculty.dfy, classes.dfy | `Students`, `FacultySection`, `ClassesSection` | the three administration sections |

Three behaviours of the code are worth stating up front:

- **Check-in.** No check-in, late or absence rule exists. The scan and face callbacks only close their dialog. Nothing stops a class from starting while another session is in the slot; the slot is simply overwritten.
- **Header normalisation.** A CSV header is lower-cased, and `replace(' ', '')` then removes only its first space.
- **Payload round trip.** The QR payload reads back with all three of its fields: session id, class id and timestamp.

## Model

| member | source | states |
|---|---|---|
| Domain.RoleNames | src/types/index.ts:5 | A role is exactly one of 'student', 'faculty' or 'admin': each name reads back as its role, and only those three strings are accepted. |
| Domain.StatusNames | src/types/index.ts:58 | A status is exactly one of 'present', 'absent' or 'late', and each name reads back as its status. |
| Domain.MethodNames | src/types/index.ts:59 | A check-in method is exactly one of 'qr', 'manual' or 'face', and each name reads back as its method. |
| Domain.StatusCountsSum | src/types/index.ts:58 | In any record list, the numbers of present, absent and late records add up to its length. |
| AppContext.AppState.constructor | src/context/AppContext.tsx:85-132 | Initial state: the fixture classes, students and faculty, no sessions or records, and an empty active slot. The stored dark flag sets `darkMode` (false when absent) and the root class. The stored theme name, else 'blue', is the theme. The mount effect stores the theme and applies its palette. |
| AppContext.AppState.SetClasses | src/context/AppContext.tsx:85 | Replaces the class list and no other field. |
| AppContext.AppState.SetStudents | src/context/AppContext.tsx:86 | Replaces the student list and no other field. |
| AppContext.AppState.SetFaculty | src/context/AppContext.tsx:87 | Replaces the faculty list and no other field. |
| AppContext.AppState.SetAttendanceSessions | src/context/AppContext.tsx:88 | Replaces the session list and no other field. |
| AppContext.AppState.SetAttendanceRecords | src/context/AppContext.tsx:89 | Replaces the record list and no other field. |
| AppContext.AppState.SetActiveSession | src/context/AppContext.tsx:90 | Replaces the single active-session slot and no other field. |
| AppContext.AppState.ToggleDarkMode | src/context/AppContext.tsx:100-105 | Negates the flag, stores its JSON text under 'attendify_dark_mode' and sets the root class to match. The stored text reads back as the new flag. |
| AppContext.AppState.SetColorTheme | src/context/AppContext.tsx:107-124 | Sets and stores the theme name. The palette becomes the table entry exactly when the name is in the table. |
| AppContext.ThemeTable | src/context/AppContext.tsx:112-118 | Exactly the five theme names have a palette, and no two of them share a primary colour. |
| AppContext.ThemeRoundTrip | src/context/AppContext.tsx:95-98 | A non-empty stored theme name is read back unchanged on the next mount. With no stored name, or an empty one, the theme is 'blue'. |
| AppContext.MockShape | src/context/AppContext.tsx:26-82 | The fixtures hold two classes, two students and one faculty member, each carrying the role its type fixes. |
| Text.OrElse | src/components/Students/StudentsSection.tsx:91-93 | `x \|\| fallback` is the fallback when x is undefined or empty, and x itself when x is set and non-empty. |
| Text.RemoveFirstSpaceAt | src/components/Students/StudentsSection.tsx:87 | `replace(' ', '')` removes exactly the first space. |
| Text.IncludesIff | src/components/Students/StudentsSection.tsx:126 | `includes` holds exactly when the needle occurs at some position. |
| Text.LowerIdempotent | src/components/Students/StudentsSection.tsx:126 | Lower-casing twice is the same as lower-casing once. |
| Text.JoinSplit | src/components/Students/StudentsSection.tsx:95 | Joining the pieces of `split(',')` with ',' gives back the cell. |
| Text.ParseIntOfNatToString | src/components/Students/StudentsSection.tsx:96 | `parseInt` reads back the decimal text of any count. |
| CsvRows.BuildRowData | src/components/Students/StudentsSection.tsx:85-88 | The header loop builds the row dictionary that `RowDataOf` specifies. |
| CsvRows.RowDataKeys | src/components/Students/StudentsSection.tsx:86-87 | A key is in the row dictionary exactly when some header normalises to it (lower-cased, first space removed). |
| CsvRows.RowDataLast | src/components/Students/StudentsSection.tsx:86-87 | A key holds the cell under the last header that normalises to it. The cell is undefined when the row is shorter than that header's position. |
| Directory.ReplaceWhere | src/components/Students/StudentsSection.tsx:41-45 | The map-by-id keeps the length. Each element is updated exactly when it is hit and is unchanged otherwise. |
| Directory.RemoveWhereRule | src/components/Students/StudentsSection.tsx:55 | The filter-by-id keeps exactly the elements that are not hit, in order, and its length drops by exactly the number of hit elements. It changes nothing when nothing is hit. |
| Directory.DataRows | src/components/Students/StudentsSection.tsx:83-84 | The data rows are the grid after its header row. An empty grid has none. |
| Directory.SplitList | src/components/Students/StudentsSection.tsx:95 | A non-empty cell is cut at every comma: no piece contains ',', and the pieces joined by ',' give the cell back. An undefined or empty cell gives no pieces. |
| Directory.EmptyTermMatches | src/components/Students/StudentsSection.tsx:125-129 | The empty search term matches every record. |
| Directory.ThreeFieldsMatch | src/components/Students/StudentsSection.tsx:125-129 | The three-field search matches exactly when the lowered term occurs in one of the three lowered fields. |
| Directory.FourFieldsMatch | src/components/Faculty/FacultySection.tsx:123-128 | The four-field search matches exactly when the lowered term occurs in one of the four lowered fields. |
| Directory.SearchIgnoresTermCase | src/components/Students/StudentsSection.tsx:125-129 | Lower-casing the term first changes no search result. |
| Directory.ClassLabelsRule | src/components/Students/StudentsSection.tsx:114 | Each class id is shown by the name of the first class with that id. An unknown id, or one whose class has an empty name, is shown as itself, in order. |
| SessionPayload.UnescapeEscape | src/components/Attendance/AttendanceSection.tsx:29-33 | The JSON string escaping of any text, followed by its closing quote, reads back as that text, and the rest of the input is untouched. |
| SessionPayload.RoundTrip | src/components/Attendance/AttendanceSection.tsx:29-33 | Decoding the `JSON.stringify` text of `{sessionId, classId, timestamp}` gives back all three fields. |
| SessionPayload.EncodeInjective | src/components/Attendance/AttendanceSection.tsx:29-33 | Two different payloads never produce the same QR text. |
| AttendanceSection.NewSession | src/components/Attendance/AttendanceSection.tsx:28-44 | A new session has id 'session_' plus the clock, the given class and user, today's date, no end time, active status, no attendees, and a QR text that decodes to its own id, the class and the timestamp. |
| AttendanceSection.Ended | src/components/Attendance/AttendanceSection.tsx:55-59 | The ended copy has the end time, is inactive, and keeps the id, class, attendees and payload. |
| AttendanceSection.ControlRule | src/components/Attendance/AttendanceSection.tsx:211-233 | End is offered exactly on the card of the active session's class. With no active session every card offers Start. |
| AttendanceSection.AtMostOneEnd | src/components/Attendance/AttendanceSection.tsx:211 | When class ids are distinct, at most one card offers End. |
| AttendanceSection.AttendancePanel.constructor | src/components/Attendance/AttendanceSection.tsx:21-23 | Both dialogs start closed and the QR text starts empty. |
| AttendanceSection.AttendancePanel.StartClass | src/components/Attendance/AttendanceSection.tsx:25-51 | With a user, the slot holds the new session, which belongs to that user, and the panel shows its QR text. Any earlier session in the slot is overwritten. With no user, `user!.id` throws inside the `try` and nothing changes. |
| AttendanceSection.AttendancePanel.EndClass | src/components/Attendance/AttendanceSection.tsx:53-63 | With an active session, the slot and the QR text end up empty. Without one, nothing changes. |
| AttendanceSection.AttendancePanel.OpenQRScanner | src/components/Attendance/AttendanceSection.tsx:85 | Opens the scan dialog. |
| AttendanceSection.AttendancePanel.OpenFaceRecognition | src/components/Attendance/AttendanceSection.tsx:263 | Opens the face dialog. |
| AttendanceSection.AttendancePanel.FaceButton | src/components/Attendance/AttendanceSection.tsx:94-100 | A student opens the face dialog. Anyone else gets the alert and the dialog stays as it was. |
| AttendanceSection.AttendancePanel.OnScanSuccess | src/components/Attendance/AttendanceSection.tsx:147-152 | A successful scan only closes the dialog. The active session and the records are unchanged. |
| AttendanceSection.AttendancePanel.OnRecognitionSuccess | src/components/Attendance/AttendanceSection.tsx:157-161 | A recognition only closes the dialog. The active session and the records are unchanged. |
| AttendanceSection.AttendancePanel.CloseQRScanner | src/components/Attendance/AttendanceSection.tsx:153 | Closes the scan dialog. |
| AttendanceSection.AttendancePanel.CloseFaceRecognition | src/components/Attendance/AttendanceSection.tsx:163 | Closes the face dialog. |
| AttendanceList.AllRecords | src/components/Attendance/AttendanceList.tsx:16-59 | A non-empty store list is used as it is. An empty one is replaced by the four demonstration records. |
| AttendanceList.NoFiltersKeepAll | src/components/Attendance/AttendanceList.tsx:61-73 | With all four filters empty, the whole list is shown in its order. |
| AttendanceList.FilteredIsSubsequence | src/components/Attendance/AttendanceList.tsx:61 | The filtered list is an order-preserving subsequence of the records. |
| AttendanceList.FilteredMembers | src/components/Attendance/AttendanceList.tsx:61-72 | A record is kept exactly when each filter that is set matches it: date, class id, status name, and the lowered term inside the lowered name of the record's student or class. |
| AttendanceList.UnknownExcludedBySearch | src/components/Attendance/AttendanceList.tsx:68-70 | With a search term, a record whose student and class are both unknown is never shown. |
| AttendanceList.StudentViewMembers | src/components/Attendance/AttendanceList.tsx:124 | The student view keeps exactly the filtered records of the signed-in student, in order. |
| AttendanceList.ExportShape | src/components/Attendance/AttendanceList.tsx:75-89 | Export gives one row per filtered record, in order, with its date, time, status and method. A found student gives its name and student number, and a found class its name. A missing student, or an empty field, gives 'Unknown' or 'N/A'; a missing or unnamed class gives 'Unknown'. The student view does not narrow the export (see `AttendanceList.StudentExportLeaks`). |
| AttendanceList.StudentExportLeaks | src/components/Attendance/AttendanceList.tsx:75-76 | In the student view, the export still writes every filtered record. A record of another student is absent from the view but present in the export, so the export has more rows than the view. |
| AttendanceList.StudentExportOwnOnly | src/components/Attendance/AttendanceList.tsx:124 | The corrected student export has one row per record the student sees, in order, and each of those records is the student's own. |
| AttendanceList.StatusColorsDistinct | src/components/Attendance/AttendanceList.tsx:110-121 | Different statuses get different badges, and none of them gets the gray default. |
| AttendanceList.StatusIconsDistinct | src/components/Attendance/AttendanceList.tsx:97-108 | Different statuses get different icons, and none of them gets the gray default. |
| AttendanceList.StatusStylesDefault | src/components/Attendance/AttendanceList.tsx:97-121 | Every string other than the three status names gets the gray badge and the gray icon. |
| Reports.ReportMocksArePrefix | src/components/Reports/ReportsSection.tsx:20-51 | This panel's demonstration records are the first three of the attendance list's four. |
| Reports.AllRecords | src/components/Reports/ReportsSection.tsx:53 | A non-empty store list is used as it is. An empty one is replaced by the three demonstration records. |
| Reports.SessionIdsMembers | src/components/Reports/ReportsSection.tsx:89 | The session-id set holds exactly the session ids of the records. |
| Reports.SessionIdsBounds | src/components/Reports/ReportsSection.tsx:89 | There are never more distinct sessions than records, and none exactly when there are no records. |
| Reports.ClassRate | src/components/Reports/ReportsSection.tsx:102 | The corrected class rate is a ratio exactly when there are sessions and enrolled students. It is present over sessions times enrolled, with a positive denominator. |
| Reports.ClassRateAgrees | src/components/Reports/ReportsSection.tsx:102 | The rate as written and the corrected rate agree whenever the class has a roster or has no sessions. |
| Reports.ClassRateDividesByZero | src/components/Reports/ReportsSection.tsx:102 | A class with an empty roster and one present record passes the source's guard and divides 1 by 0. |
| Reports.AttendanceReport | src/components/Reports/ReportsSection.tsx:60-83 | The attendance report has one row per kept record, in record order. A record is kept exactly when its class matches the selected class (if set) and its date lies within each bound that is set, inclusive. |
| Reports.AttendanceReportUnfiltered | src/components/Reports/ReportsSection.tsx:60-69 | With no class and no bounds, the attendance report covers every record. |
| Reports.ClassSummary | src/components/Reports/ReportsSection.tsx:87-105 | Details below the table. |
| Reports.StudentSummary | src/components/Reports/ReportsSection.tsx:109-126 | Details below the table. |
| Reports.Generate | src/components/Reports/ReportsSection.tsx:58-128 | For every input, including no classes or no students, the class summary has exactly one row per class and the student summary exactly one row per student. |
| Reports.UnknownReportType | src/components/Reports/ReportsSection.tsx:58-128 | Any other report type gives no rows. |
| Reports.ReportsPanel.constructor | src/components/Reports/ReportsSection.tsx:10-17 | The panel starts on 'attendance', with no class, no bounds, no data and the report hidden. |
| Reports.ReportsPanel.SetReportType | src/components/Reports/ReportsSection.tsx:10 | Sets only the report type. |
| Reports.ReportsPanel.SetSelectedClass | src/components/Reports/ReportsSection.tsx:11 | Sets only the selected class. |
| Reports.ReportsPanel.SetDateRange | src/components/Reports/ReportsSection.tsx:12-15 | Sets only the two bounds. |
| Reports.ReportsPanel.GenerateReport | src/components/Reports/ReportsSection.tsx:55-132 | The report data becomes the chosen report over the store's records (or the fallback), and the report is shown. The class summary uses the corrected rate. |
| Dashboard.StatsFacts | src/components/Dashboard/Dashboard.tsx:22-37 | Today's list is exactly the records dated today. Present-today counts only its present records, and with the late and absent counts it makes up today's total. Present-today ≤ today's records ≤ all records. The student total is the list length. The rate is zero exactly without students; otherwise it is present-today over the student count. |
| Dashboard.NoFallback | src/components/Dashboard/Dashboard.tsx:20-24 | With an empty store nothing is present today, because the dashboard has no demonstration fallback. |
| Dashboard.ActiveSessionCount | src/components/Dashboard/Dashboard.tsx:109 | The active-sessions card shows 1 exactly when the slot holds a session, and 0 otherwise. |
| Dashboard.CardClickFails | src/components/Dashboard/Dashboard.tsx:113 | As written, the active-sessions card's click is a ReferenceError. The other three cards agree with the corrected clicks. |
| Dashboard.CardTargetsAreSections | src/components/Dashboard/Dashboard.tsx:90-113 | Every corrected card click selects a section that is in the sidebar's table. |
| Navigation.VisibleRule | src/components/Layout/ModernSidebar.tsx:42-44 | With no user nothing is shown. Otherwise exactly the items offered to the user's role are shown, in table order. |
| Navigation.HighlightRule | src/components/Layout/ModernSidebar.tsx:107 | When ids are distinct, at most one item is highlighted: the one the active section names. |
| Sidebar.SidebarForStudent | src/components/Layout/ModernSidebar.tsx:31-44 | A student sees dashboard, attendance and settings. |
| Sidebar.SidebarForFaculty | src/components/Layout/ModernSidebar.tsx:31-44 | A faculty user sees every section except 'faculty'. |
| Sidebar.SidebarForAdmin | src/components/Layout/ModernSidebar.tsx:31-44 | An admin sees all eight sections. |
| Sidebar.SidebarIdsDistinct | src/components/Layout/ModernSidebar.tsx:31-40 | The sidebar's section ids are distinct. |
| Sidebar.SidebarState.constructor | src/components/Layout/ModernSidebar.tsx:24-27 | The parent starts on the given section with the menu closed. |
| Sidebar.SidebarState.HandleNavigation | src/components/Layout/ModernSidebar.tsx:46-49 | Sets the active section to the clicked id and closes the menu. |
| Sidebar.SidebarState.Close | src/components/Layout/ModernSidebar.tsx:57 | Closes the menu and nothing else. |
| Navbar.NavbarForStudent | src/components/Layout/Navbar.tsx:26-38 | A student sees dashboard, attendance and settings. |
| Navbar.NavbarForFaculty | src/components/Layout/Navbar.tsx:26-38 | A faculty user sees six items: all but 'faculty'. |
| Navbar.NavbarForAdmin | src/components/Layout/Navbar.tsx:26-38 | An admin sees all seven items. |
| Navbar.NavbarHasNoAnalytics | src/components/Layout/Navbar.tsx:26-34 | No role is offered an analytics entry: the table has none, so no user sees one. |
| Navbar.NavbarIdsDistinct | src/components/Layout/Navbar.tsx:26-34 | The top-bar table's section ids are distinct. |
| Navbar.ClickHighlightsOnlyItem | src/components/Layout/Navbar.tsx:59-62 | Clicking an entry selects the section under which that entry, and no other entry of the table, is highlighted. |
| Students.AddRule | src/components/Students/StudentsSection.tsx:24-33 | Only an admin changes the list. Adding appends one student at the end with the form's fields, role 'student' and zero counters; the rest are unchanged. |
| Students.EditRule | src/components/Students/StudentsSection.tsx:39-46 | Details below the table. |
| Students.DeleteRule | src/components/Students/StudentsSection.tsx:53-56 | Only an admin deletes. Deleting removes exactly the students with the id, and only those, and keeps the rest in order. |
| Students.ImportRule | src/components/Students/StudentsSection.tsx:84-99 | The imported students are the named ones among the built rows, in row order, at most one per data row, and each has role 'student'. |
| Students.RowFields | src/components/Students/StudentsSection.tsx:89-97 | Details below the table. |
| Students.BuildImport | src/components/Students/StudentsSection.tsx:84-99 | The pass over the data rows, with the header loop for each row and then the name filter, gives the specified import. |
| Students.SearchRule | src/components/Students/StudentsSection.tsx:125-129 | A student is shown exactly when the lowered term occurs in its lowered name, email or student number. |
| Students.SearchKeepsOrder | src/components/Students/StudentsSection.tsx:125-129 | The search keeps list order, and the empty term shows every student. |
| Students.ExportRule | src/components/Students/StudentsSection.tsx:110-117 | Details below the table. |
| Students.ExportRows | src/components/Students/StudentsSection.tsx:110-117 | For every list, including the empty one, the export has exactly one row per student. |
| Students.RolePreserved | src/components/Students/StudentsSection.tsx:24-101 | Add, edit, delete and import all keep every listed student a 'student' record. |
| Students.StudentsPanel.constructor | src/components/Students/StudentsSection.tsx:11-22 | All dialogs start closed, with no selection, an empty search and an empty form. |
| Students.StudentsPanel.SetForm | src/components/Students/StudentsSection.tsx:17 | Sets only the form. |
| Students.StudentsPanel.SetSearchTerm | src/components/Students/StudentsSection.tsx:16 | Sets only the search term. |
| Students.StudentsPanel.HandleAdd | src/components/Students/StudentsSection.tsx:24-37 | The store list becomes the add result. For an admin the dialog closes and the form resets; for anyone else nothing changes. |
| Students.StudentsPanel.OpenEditModal | src/components/Students/StudentsSection.tsx:60-69 | Selects the student, copies its fields into the form and opens the dialog. Applying that form unchanged gives the student back. |
| Students.StudentsPanel.OpenProfileModal | src/components/Students/StudentsSection.tsx:71-74 | Selects the student and opens the profile. |
| Students.StudentsPanel.HandleEdit | src/components/Students/StudentsSection.tsx:39-51 | The store list becomes the edit result for the selected id. For an admin with a selection the dialog closes, the selection clears and the form resets; otherwise nothing changes. |
| Students.StudentsPanel.HandleDelete | src/components/Students/StudentsSection.tsx:53-58 | The store list becomes the delete result. |
| Students.StudentsPanel.ImportCSV | src/components/Students/StudentsSection.tsx:80-106 | The imported students are appended after the existing ones, and the import dialog closes. |
| FacultySection.AddRule | src/components/Faculty/FacultySection.tsx:25-32 | Only an admin changes the list. Adding appends one member at the end with the form's fields and role 'faculty'. |
| FacultySection.EditRule | src/components/Faculty/FacultySection.tsx:38-45 | The length is kept. The form fields overwrite only the members with the selected id (admin only), which keep their id and role; the rest are unchanged. |
| FacultySection.DeleteRule | src/components/Faculty/FacultySection.tsx:52-55 | Only an admin deletes. Deleting removes exactly the members with the id, and only those, and keeps the rest in order. |
| FacultySection.ImportRule | src/components/Faculty/FacultySection.tsx:84-98 | The imported members are the named ones among the built rows, in row order, and each has role 'faculty'. |
| FacultySection.RowFields | src/components/Faculty/FacultySection.tsx:89-97 | Under `\|\|`, a cell that is absent or empty counts as unset. The staff number is the 'facultyid' cell if set, else the 'id' cell if set, else ''. Name, email and department are their cells, else ''; the row drops out exactly when its name is unset. The classes are the comma split of a set cell (no piece contains ',', and the pieces join back to the cell), else none. The id is the per-row CSV id and the role is 'faculty'. |
| FacultySection.BuildImport | src/components/Faculty/FacultySection.tsx:84-98 | The pass over the data rows gives the specified import. |
| FacultySection.SearchRule | src/components/Faculty/FacultySection.tsx:123-128 | A member is shown exactly when the lowered term occurs in its lowered name, email, staff number or department. |
| FacultySection.SearchKeepsOrder | src/components/Faculty/FacultySection.tsx:123-128 | The search keeps list order, and the empty term shows everyone. |
| FacultySection.ExportRule | src/components/Faculty/FacultySection.tsx:109-115 | One row per member, with the staff number, name, email and department carried over. 'Assigned Classes' is the class names joined by ', ', in the member's order, with an unknown id shown as itself. |
| FacultySection.ExportRows | src/components/Faculty/FacultySection.tsx:109-115 | For every list, including the empty one, the export has exactly one row per faculty member. |
| FacultySection.RolePreserved | src/components/Faculty/FacultySection.tsx:25-100 | Add, edit, delete and import all keep every member a 'faculty' record. |
| FacultySection.FacultyPanel.constructor | src/components/Faculty/FacultySection.tsx:11-23 | All dialogs start closed, with no selection, an empty search and an empty form. |
| FacultySection.FacultyPanel.SetForm | src/components/Faculty/FacultySection.tsx:17 | Sets only the form. |
| FacultySection.FacultyPanel.SetSearchTerm | src/components/Faculty/FacultySection.tsx:16 | Sets only the search term. |
| FacultySection.FacultyPanel.HandleAdd | src/components/Faculty/FacultySection.tsx:25-36 | The store list becomes the add result. For an admin the dialog closes and the form resets; for anyone else nothing changes. |
| FacultySection.FacultyPanel.OpenEditModal | src/components/Faculty/FacultySection.tsx:59-69 | Selects the member, copies its fields into the form and opens the dialog. |
| FacultySection.FacultyPanel.OpenProfileModal | src/components/Faculty/FacultySection.tsx:71-74 | Selects the member and opens the profile. |
| FacultySection.FacultyPanel.HandleEdit | src/components/Faculty/FacultySection.tsx:38-50 | The store list becomes the edit result. For an admin with a selection the dialog closes and the selection and form reset; otherwise nothing changes. |
| FacultySection.FacultyPanel.HandleDelete | src/components/Faculty/FacultySection.tsx:52-57 | The store list becomes the delete result. |
| FacultySection.FacultyPanel.ImportCSV | src/components/Faculty/FacultySection.tsx:80-105 | The imported members are appended after the existing ones, and the import dialog closes. |
| ClassesSection.AddRule | src/components/Classes/ClassesSection.tsx:24-32 | Details below the table. |
| ClassesSection.EditRule | src/components/Classes/ClassesSection.tsx:45-52 | The length is kept. The form fields overwrite only the classes with the selected id (admin or faculty), which keep their id and roster; the rest are unchanged. |
| ClassesSection.EditNotOwnerChecked | src/components/Classes/ClassesSection.tsx:45-52 | The edit handler checks no ownership. A faculty user whose selection names someone else's class rewrites it, although no edit control is shown on that class. |
| ClassesSection.DeleteRule | src/components/Classes/ClassesSection.tsx:66-71 | Only an admin deletes. Deleting removes exactly the classes with the id, and only those, and keeps the rest in order. |
| ClassesSection.ImportRule | src/components/Classes/ClassesSection.tsx:94-109 | The imported classes are the named ones among the built rows, in row order, each with an empty roster. |
| ClassesSection.RowFields | src/components/Classes/ClassesSection.tsx:99-108 | Under `\|\|`, a cell that is absent or empty counts as unset. The teacher is the 'facultyid' cell if set, else the 'faculty' cell if set, else ''. Name, subject, schedule, room and semester are their cells, else ''. The roster is empty, and the row drops out exactly when its name is unset. |
| ClassesSection.BuildImport | src/components/Classes/ClassesSection.tsx:94-109 | The pass over the data rows gives the specified import. |
| ClassesSection.ExportRule | src/components/Classes/ClassesSection.tsx:120-132 | One row per class, in order, with the id, name, subject, schedule, room and semester carried over. 'Student Count' is the roster size. 'Faculty' is the name of the first faculty member with the class's teacher id. A teacher not on the list, or one with an empty name, shows as 'Unassigned'. |
| ClassesSection.ExportRows | src/components/Classes/ClassesSection.tsx:120-132 | For every list, including the empty one, the export has exactly one row per class. |
| ClassesSection.VisibleRule | src/components/Classes/ClassesSection.tsx:140-142 | A faculty user sees exactly the classes they teach, in order. Every other user, and nobody signed in, sees the whole list. |
| ClassesSection.ControlsRule | src/components/Classes/ClassesSection.tsx:184-199 | Details below the table. |
| ClassesSection.ClassesPanel.constructor | src/components/Classes/ClassesSection.tsx:11-22 | All dialogs start closed, with no selection and an empty form. |
| ClassesSection.ClassesPanel.SetForm | src/components/Classes/ClassesSection.tsx:15 | Sets only the form. |
| ClassesSection.ClassesPanel.HandleAdd | src/components/Classes/ClassesSection.tsx:24-43 | The store list becomes the add result. For staff the dialog closes and the form resets; otherwise nothing changes. |
| ClassesSection.ClassesPanel.OpenEditModal | src/components/Classes/ClassesSection.tsx:73-84 | Selects the class, copies its fields into the form and opens the dialog. |
| ClassesSection.ClassesPanel.HandleEdit | src/components/Classes/ClassesSection.tsx:45-64 | The store list becomes the edit result. For staff with a selection the dialog closes and the selection and form reset; otherwise nothing changes. |
| ClassesSection.ClassesPanel.HandleDelete | src/components/Classes/ClassesSection.tsx:66-71 | The store list becomes the delete result. |
| ClassesSection.ClassesPanel.ImportCSV | src/components/Classes/ClassesSection.tsx:90-116 | The imported classes are appended after the existing ones, with no role check, and the import dialog closes. |

**Rows marked "Details below the table":**

- **Reports.ClassSummary.**
  - There is one row per class, in class order, whatever the class and date filters say.
  - A row's session count is the number of distinct session ids among that class's records. It never exceeds them, and it is zero exactly when there are none.
  - Its present, absent and late counts are the numbers of that class's records with each status, and they add up to the class's record count.
  - Its rate is the corrected one. It is a ratio exactly when there are sessions and enrolled students: present count over sessions times enrolled, with a positive denominator. Otherwise it is zero.
  - It equals the rate as written (ReportsSection.tsx:102) whenever the class has a roster or has no sessions. The two differ only for an empty roster with records; see "## Findings".
- **Reports.StudentSummary.**
  - There is one row per student, in order.
  - The session count is the student's record count.
  - The present, absent and late counts are the numbers of that student's records with each status, and they add up to the session count.
  - The records counted are exactly those with the student's id.
  - The rate is present count over record count. It is zero exactly without records, and never exceeds one.
- **Students.EditRule.**
  - The length is kept.
  - The form's name, email, student number and classes overwrite only the students with the selected id, and only when an admin edits.
  - Those students keep their id, role and counters; the rest are unchanged.
- **Students.RowFields.**
  - Under `||`, a cell that is absent or empty counts as unset.
  - The student number is the 'studentid' cell if set, else the 'id' cell if set, else ''.
  - Name and email are their cells, else ''. The row drops out exactly when its name is unset.
  - The classes are the comma split of a set cell, else none. No piece contains ',', and the pieces join back to the cell.
  - The attendance total is the number `parseInt` reads from the cell. It is 0 when the cell is absent or does not parse.
  - The percentage is the number `parseFloat` reads, else 0.
  - The id is the per-row CSV id, the role is 'student' and there is no profile image.
- **Students.ExportRule.**
  - There is one row per student, with the student number, name, email and counters carried over.
  - 'Classes' is the class names joined by ', ', in the student's order. There is one label per class id, and an unknown id is shown as itself. A student with no classes is covered too.
- **ClassesSection.AddRule.**
  - Only an admin or a faculty user changes the list.
  - The new class goes at the end with the form's fields and an empty roster.
  - Its teacher is the caller's id for a faculty caller, and the form's teacher for an admin.
- **ClassesSection.ControlsRule.**
  - A shown edit control implies that the user is admin or faculty.
  - A shown delete control implies that the user is an admin, who also sees edit.
  - A faculty user sees edit exactly on the classes on their own list.
  - A student, or nobody signed in, sees neither control.

## Left out

- **Rendering and browser effects.** JSX, CSS classes, custom-property writes and the `dark` class on the document root are not modelled. The root class and the palette are kept as the fields `rootDark` and `palette`.
- **Spreadsheets and PDF.** XLSX and jsPDF writing, and `downloadPDF`, are left out. `downloadPDF` reads `rollNumber` and `className`, which `Student` does not have. Only the rows handed to the spreadsheet library are modelled.
- **CSV parsing.** `Papa.parse` tokenisation and the file-selection step (`if (!file) return`) are left out. Every import starts from the parsed string grid.
- **Clock.** `Date.now()` readings are parameters, and no uniqueness is claimed for the ids built from them.
  - `StartClass` takes two readings, one for the id and one for the timestamp.
  - The import takes one reading per row (`clockAt`).
- **Dates and times as text.**
  - `toISOString().split('T')[0]` and `toLocaleTimeString()` become the parameters `today` and `startTime`/`endTime`.
  - `new Date(...)` parsing of the report range strings is left out. A bound is `None` when its input is empty. An input that does not parse (an Invalid Date, against which every comparison is false) is not modelled.
- **Number formatting.** `toFixed(2)`, `Math.round` and the percentage strings are left out. Rates are kept as the counts they divide.
- **Floating point.** `parseFloat` for `attendancePercentage` is a parameter of the import (`Directory.RealOrZero`).
- **Check-in components.** Camera, QR decoding and face "recognition" components are left out (ModernQRScanner, QRCodeScanner, ModernFaceRecognition and QRCodeGenerator). Their success callbacks are modelled only by what AttendanceSection does with them, which is closing the dialog.
- **Logging.** `console.log` and `console.error` are left out.
- **Authentication and routing.** The authentication context is not part of this model; the signed-in user is a parameter. Logout, App.tsx routing, ModernDashboard, AnalyticsSection, the landing and login pages and src/components/Layout/ModernTopbar.tsx are also not part of this model.
- **Import button visibility.** In StudentsSection.tsx:136 and FacultySection.tsx:135, only admins are shown the import button, while the import handlers themselves check no role. The model follows the handlers. The classes section shows the button to everyone.
- **Dashboard role-specific buttons.** The quick-action buttons that only navigate (Dashboard.tsx:125-178) are not modelled. Only the four stat cards are.
- **Exported attendance percentage.** The `'%'` appended to the students' export percentage is left out; `Students.ExportRows` keeps the number.
- AppContext.AppState.constructor: requires the stored dark-mode entry to be absent, empty, 'true' or 'false'. For any other text, `JSON.parse` either throws during the first render or yields a non-boolean flag. The model does not cover either outcome.
- AppContext.AppState.SetColorTheme: for a theme name not in the table, the source throws a TypeError after storing the name. The model stores the name, leaves the palette as it was and returns `known == false`.
- Reports.ClassRowFor: builds the class-summary row with the corrected rate `Reports.ClassRate`, not the rate ReportsSection.tsx:102 computes. For a class with an empty roster and at least one record, the source shows 'Infinity', or 'NaN' when nothing is present; the model shows zero. This also applies to `Reports.Generate` and `Reports.ReportsPanel.GenerateReport`. `Reports.ClassSummary` states where the two rates agree, and `Reports.ClassRateDividesByZero` shows the divergent case.
- Text.Lower: lower-cases ASCII letters only. Unicode case mapping is not modelled.
- Text.ParseInt: reads the integer exactly, with no 2^53 precision limit. It handles an optional sign, a `0x` prefix and JavaScript white space.
- SessionPayload.Decode: reads only the canonical text that `JSON.stringify` writes for the payload (fixed key order, no white space). It is a partner for the round trip, not a general `JSON.parse`, which lives in the scanner components.

## Findings

| source | as written | input that shows it | evidently intended | confidence | as-written member | corrected member |
|---|---|---|---|---|---|---|
| src/components/Reports/ReportsSection.tsx:102 | The class rate is guarded by `totalSessions > 0` but divides by `totalSessions * cls.studentIds.length`. | A class with an empty roster (`studentIds = []`) and one present record: 1 / 0, so the rate shows 'Infinity'. | Guard on the denominator: the rate is '0' unless the class has both sessions and enrolled students. | not executed | Reports.ClassRateDividesByZero (on Reports.ClassRateAsWritten) | Reports.ClassRate (used by Reports.ClassRowFor; see Reports.ClassSummary) |
| src/components/Dashboard/Dashboard.tsx:113 | The "Active Sessions" card calls `setActiveSession('attendance')`, but the component destructures only `students, classes, attendanceRecords, activeSession` (line 20), so the name is unbound. | Any click on the "Active Sessions" card throws a ReferenceError. | `setActiveSection('attendance')`, like the "Present Today" card. | not executed | Dashboard.CardClickFails (on Dashboard.CardClickAsWritten) | Dashboard.CardClick, with Dashboard.CardTargetsAreSections |
| src/components/Attendance/AttendanceList.tsx:133 | The student view's export button calls `exportToExcel`, which maps `filteredRecords` (line 76), not the view's `studentRecords` (line 124). | A student signed in while the store holds a record of another student: the view hides that record, but the spreadsheet contains its row. | The student view exports `studentRecords`, the records it shows. | not executed | AttendanceList.StudentExportLeaks (on AttendanceList.ExportRows) | AttendanceList.StudentExportRows, with AttendanceList.StudentExportOwnOnly |
