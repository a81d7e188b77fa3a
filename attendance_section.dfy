/** The class-session lifecycle of src/components/Attendance/AttendanceSection.tsx:
    starting a class fills the store's active-session slot and the panel's QR
    text, ending a class clears both, and the check-in dialogs only open and
    close. The clock readings, today's date, the printed start time and the
    signed-in user are parameters. */
module AttendanceSection {
  import opened Lists
  import opened Text
  import opened Domain
  import opened AppContext
  import opened SessionPayload

  /** `session_${Date.now()}`. */
  function SessionId(clock: nat): string
  {
    "session_" + NatToString(clock)
  }

  /** The session `startClass` builds; the id and the payload's timestamp come
      from two separate readings of the clock. */
  function NewSession(classId: string, facultyId: string, idClock: nat, stampClock: nat,
                      today: Date, startTime: string): (s: Session)
    ensures s.id == SessionId(idClock) && s.classId == classId && s.facultyId == facultyId
    ensures s.date == today && s.startTime == startTime && s.endTime.None?
    ensures s.isActive && s.attendees == []
    ensures Decode(s.qrCode) == Some(Payload(s.id, classId, stampClock))
  {
    var qrData := Encode(Payload(SessionId(idClock), classId, stampClock));
    RoundTrip(Payload(SessionId(idClock), classId, stampClock));
    Session(SessionId(idClock), classId, facultyId, today, startTime, None, qrData, true, [])
  }

  /** The intermediate value `endClass` writes before clearing the slot. */
  function Ended(s: Session, endTime: string): (e: Session)
    ensures e.endTime == Some(endTime) && !e.isActive
    ensures e.id == s.id && e.classId == s.classId && e.attendees == s.attendees && e.qrCode == s.qrCode
  {
    s.(endTime := Some(endTime), isActive := false)
  }

  /** The control a class card offers. */
  datatype Control = StartControl | EndControl

  /** `activeSession?.classId === cls.id` selects End, anything else Start. */
  function ControlFor(active: Option<Session>, cls: Class): Control
  {
    if active.Some? && active.value.classId == cls.id then EndControl else StartControl
  }

  /** End is offered exactly for the class of the active session. */
  lemma ControlRule(active: Option<Session>, cls: Class)
    ensures ControlFor(active, cls) == EndControl <==> active.Some? && active.value.classId == cls.id
    ensures active.None? ==> ControlFor(active, cls) == StartControl
  {
  }

  /** Among classes with distinct ids, at most one card offers End. */
  lemma AtMostOneEnd(active: Option<Session>, classes: seq<Class>, i: nat, j: nat)
    requires i < |classes| && j < |classes|
    requires forall a, b :: 0 <= a < b < |classes| ==> classes[a].id != classes[b].id
    requires ControlFor(active, classes[i]) == EndControl && ControlFor(active, classes[j]) == EndControl
    ensures i == j
  {
  }

  class AttendancePanel {
    const app: AppState
    /** The text handed to the QR generator; empty when no class is running. */
    var currentSessionQR: string
    var showQRScanner: bool
    var showFaceRecognition: bool

    constructor (app: AppState)
      ensures this.app == app && currentSessionQR == ""
      ensures !showQRScanner && !showFaceRecognition
    {
      this.app := app;
      currentSessionQR := "";
      showQRScanner := false;
      showFaceRecognition := false;
    }

    /** `startClass(classId)`. With no signed-in user, `user!.id` throws inside
        the `try` before any state is written, so nothing changes. Otherwise the
        new session replaces whatever was in the slot (no check for a running
        one) and the panel shows the session's own payload. */
    method StartClass(classId: string, user: Option<User>, idClock: nat, stampClock: nat,
                      today: Date, startTime: string) returns (started: bool)
      modifies app`activeSession, this`currentSessionQR
      ensures started <==> user.Some?
      ensures started ==>
        app.activeSession == Some(NewSession(classId, user.value.id, idClock, stampClock, today, startTime))
        && currentSessionQR == app.activeSession.value.qrCode
        && Decode(currentSessionQR) == Some(Payload(SessionId(idClock), classId, stampClock))
      ensures !started ==> app.activeSession == old(app.activeSession) && currentSessionQR == old(currentSessionQR)
    {
      if user.None? {
        return false;
      }
      var session := NewSession(classId, user.value.id, idClock, stampClock, today, startTime);
      app.SetActiveSession(Some(session));
      currentSessionQR := session.qrCode;
      started := true;
    }

    /** `endClass()`: with a session running, the slot is written with the ended
        session and then with `null`, and the QR text is cleared; with none,
        nothing happens. */
    method EndClass(endTime: string)
      modifies app`activeSession, this`currentSessionQR
      ensures old(app.activeSession).Some? ==> app.activeSession == None && currentSessionQR == ""
      ensures old(app.activeSession).None? ==>
        app.activeSession == None && currentSessionQR == old(currentSessionQR)
    {
      if app.activeSession.Some? {
        app.SetActiveSession(Some(Ended(app.activeSession.value, endTime)));
        app.SetActiveSession(None);
        currentSessionQR := "";
      }
    }

    method OpenQRScanner()
      modifies this`showQRScanner
      ensures showQRScanner
    {
      showQRScanner := true;
    }

    /** The staff view's face-recognition button. */
    method OpenFaceRecognition()
      modifies this`showFaceRecognition
      ensures showFaceRecognition
    {
      showFaceRecognition := true;
    }

    /** The student view's face button: opens the dialog for a student and
        only raises an alert (`alerted`) for anyone else. */
    method FaceButton(user: Option<User>) returns (alerted: bool)
      modifies this`showFaceRecognition
      ensures alerted <==> !(user.Some? && user.value.role == StudentRole)
      ensures showFaceRecognition == if alerted then old(showFaceRecognition) else true
    {
      alerted := !(user.Some? && user.value.role == StudentRole);
      if !alerted {
        showFaceRecognition := true;
      }
    }

    /** `onScanSuccess` (both views): the scanned text is only logged; the
        dialog closes and the session and records are untouched. */
    method OnScanSuccess(data: string)
      modifies this`showQRScanner
      ensures !showQRScanner
      ensures app.activeSession == old(app.activeSession) && app.attendanceRecords == old(app.attendanceRecords)
    {
      showQRScanner := false;
    }

    /** `onRecognitionSuccess` (both views): logged only; the dialog closes. */
    method OnRecognitionSuccess(studentId: string)
      modifies this`showFaceRecognition
      ensures !showFaceRecognition
      ensures app.activeSession == old(app.activeSession) && app.attendanceRecords == old(app.attendanceRecords)
    {
      showFaceRecognition := false;
    }

    /** `onClose` of the scanner. */
    method CloseQRScanner()
      modifies this`showQRScanner
      ensures !showQRScanner
    {
      showQRScanner := false;
    }

    /** `onClose` of the face-recognition dialog. */
    method CloseFaceRecognition()
      modifies this`showFaceRecognition
      ensures !showFaceRecognition
    {
      showFaceRecognition := false;
    }
  }
}
