/** The application store (src/context/AppContext.tsx): whole collections that
    setters replace, one nullable active-session slot, and two UI preferences
    persisted in `localStorage`, which is modelled as a key/value map. The
    document root's `dark` class and its three CSS colour properties are kept
    as fields, since the preference operations write them. */
module AppContext {
  import opened Lists
  import opened Domain

  const DarkModeKey: string := "attendify_dark_mode"
  const ThemeKey: string := "attendify_color_theme"
  const DefaultTheme: string := "blue"

  /** The `--color-primary`, `--color-secondary` and `--color-accent` values. */
  datatype Palette = Palette(primary: string, secondary: string, accent: string)

  /** The `themeColors` table: a palette for each of the five theme names. */
  function ThemeColors(theme: string): Option<Palette>
  {
    if theme == "blue" then Some(Palette("#3B82F6", "#1E40AF", "#60A5FA"))
    else if theme == "purple" then Some(Palette("#8B5CF6", "#7C3AED", "#A78BFA"))
    else if theme == "green" then Some(Palette("#10B981", "#059669", "#34D399"))
    else if theme == "orange" then Some(Palette("#F59E0B", "#D97706", "#FBBF24"))
    else if theme == "pink" then Some(Palette("#EC4899", "#DB2777", "#F472B6"))
    else None
  }

  /** `JSON.stringify` of a boolean. */
  function FlagText(b: bool): string
  {
    if b then "true" else "false"
  }

  function Lookup(storage: map<string, string>, key: string): Option<string>
  {
    if key in storage then Some(storage[key]) else None
  }

  /** The stored dark-mode values this model reads: none, the empty string
      (falsy, so never parsed), or what `FlagText` writes. */
  predicate StoredFlagReadable(saved: Option<string>)
  {
    saved.None? || saved.value == "" || saved.value == "true" || saved.value == "false"
  }

  /** `saved ? JSON.parse(saved) : false`. */
  function InitialDarkMode(saved: Option<string>): bool
    requires StoredFlagReadable(saved)
  {
    saved.Some? && saved.value == "true"
  }

  /** `saved || 'blue'`: any non-empty stored name is taken as it is. */
  function InitialColorTheme(saved: Option<string>): string
  {
    if saved.Some? && saved.value != "" then saved.value else DefaultTheme
  }

  function MockClasses(): seq<Class>
  {
    [ Class("CS101", "Introduction to Computer Science", "Computer Science", "2", ["3", "4", "5"],
            "Mon, Wed, Fri - 10:00 AM", "Room 201", "Fall 2024"),
      Class("CS201", "Data Structures", "Computer Science", "2", ["3", "6", "7"],
            "Tue, Thu - 2:00 PM", "Room 301", "Fall 2024") ]
  }

  function MockStudents(): seq<Student>
  {
    [ Student("3", "john.smith@attendify.com", "John Smith", StudentRole, None,
              "STU001", ["CS101", "CS201"], 45, 87.5),
      Student("4", "jane.doe@attendify.com", "Jane Doe", StudentRole, None,
              "STU002", ["CS101"], 38, 92.3) ]
  }

  function MockFaculty(): seq<Faculty>
  {
    [ Faculty("2", "faculty@attendify.com", "Dr. Sarah Johnson", FacultyRole, None,
              "FAC001", ["CS101", "CS201"], "Computer Science") ]
  }

  class AppState {
    var classes: seq<Class>
    var students: seq<Student>
    var faculty: seq<Faculty>
    var attendanceSessions: seq<Session>
    var attendanceRecords: seq<AttendanceRecord>
    /** The single "current session" slot; `None` is `null`. */
    var activeSession: Option<Session>
    var darkMode: bool
    var colorTheme: string
    /** `localStorage`. */
    var storage: map<string, string>
    /** Whether the document root carries the `dark` class. */
    var rootDark: bool
    /** The root's colour properties; `None` until a known theme is applied. */
    var palette: Option<Palette>

    /** Mounting the provider: the fixtures, the stored preferences, then the
        mount effect (add `dark` if the flag is set, apply the theme). */
    constructor (storage0: map<string, string>)
      requires StoredFlagReadable(Lookup(storage0, DarkModeKey))
      ensures classes == MockClasses() && students == MockStudents() && faculty == MockFaculty()
      ensures attendanceSessions == [] && attendanceRecords == [] && activeSession == None
      ensures darkMode == InitialDarkMode(Lookup(storage0, DarkModeKey)) && rootDark == darkMode
      ensures colorTheme == InitialColorTheme(Lookup(storage0, ThemeKey))
      ensures storage == storage0[ThemeKey := colorTheme]
      ensures palette == ThemeColors(colorTheme)
    {
      classes := MockClasses();
      students := MockStudents();
      faculty := MockFaculty();
      attendanceSessions := [];
      attendanceRecords := [];
      activeSession := None;
      darkMode := InitialDarkMode(Lookup(storage0, DarkModeKey));
      colorTheme := InitialColorTheme(Lookup(storage0, ThemeKey));
      storage := storage0;
      rootDark := false;
      palette := None;
      new;
      if darkMode {
        rootDark := true;
      }
      var _ := SetColorTheme(colorTheme);
    }

    method SetClasses(c: seq<Class>)
      modifies this`classes
      ensures classes == c
    {
      classes := c;
    }

    method SetStudents(s: seq<Student>)
      modifies this`students
      ensures students == s
    {
      students := s;
    }

    method SetFaculty(f: seq<Faculty>)
      modifies this`faculty
      ensures faculty == f
    {
      faculty := f;
    }

    method SetAttendanceSessions(s: seq<Session>)
      modifies this`attendanceSessions
      ensures attendanceSessions == s
    {
      attendanceSessions := s;
    }

    method SetAttendanceRecords(r: seq<AttendanceRecord>)
      modifies this`attendanceRecords
      ensures attendanceRecords == r
    {
      attendanceRecords := r;
    }

    method SetActiveSession(s: Option<Session>)
      modifies this`activeSession
      ensures activeSession == s
    {
      activeSession := s;
    }

    /** Flips the flag, stores the new value and sets the root class to match;
        the stored text reads back as the new flag on the next mount. */
    method ToggleDarkMode()
      modifies this`darkMode, this`storage, this`rootDark
      ensures darkMode == !old(darkMode) && rootDark == darkMode
      ensures storage == old(storage)[DarkModeKey := FlagText(darkMode)]
      ensures StoredFlagReadable(Lookup(storage, DarkModeKey))
      ensures InitialDarkMode(Lookup(storage, DarkModeKey)) == darkMode
    {
      var newMode := !darkMode;
      darkMode := newMode;
      storage := storage[DarkModeKey := FlagText(newMode)];
      rootDark := newMode;
    }

    /** Sets and stores the theme name whatever it is; the colour properties
        change only for a name in the table (for any other name the source's
        table lookup yields `undefined` and reading its colours throws after
        the two writes). `known` says which case happened. */
    method SetColorTheme(theme: string) returns (known: bool)
      modifies this`colorTheme, this`storage, this`palette
      ensures colorTheme == theme && storage == old(storage)[ThemeKey := theme]
      ensures known <==> ThemeColors(theme).Some?
      ensures palette == if known then ThemeColors(theme) else old(palette)
    {
      colorTheme := theme;
      storage := storage[ThemeKey := theme];
      var colors := ThemeColors(theme);
      known := colors.Some?;
      if known {
        palette := colors;
      }
    }
  }

  /** Exactly the five theme names have a palette, and no two share a colour. */
  lemma ThemeTable(theme: string)
    ensures ThemeColors(theme).Some? <==>
      theme == "blue" || theme == "purple" || theme == "green" || theme == "orange" || theme == "pink"
    ensures forall a: string, b: string :: ThemeColors(a).Some? && ThemeColors(b).Some? && a != b ==>
      ThemeColors(a).value.primary != ThemeColors(b).value.primary
  {
  }

  /** A stored theme name is read back unchanged on the next mount; with none
      (or an empty one) the theme is blue. */
  lemma ThemeRoundTrip(theme: string)
    ensures theme != "" ==> InitialColorTheme(Some(theme)) == theme
    ensures InitialColorTheme(None) == DefaultTheme && InitialColorTheme(Some("")) == DefaultTheme
  {
  }

  /** The fixtures: two classes, two students and one faculty member, every
      record carrying the role its type fixes. */
  lemma MockShape()
    ensures |MockClasses()| == 2 && |MockStudents()| == 2 && |MockFaculty()| == 1
    ensures forall s :: s in MockStudents() ==> IsStudentRecord(s)
    ensures forall f :: f in MockFaculty() ==> IsFacultyRecord(f)
  {
  }
}
