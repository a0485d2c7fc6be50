/** The attendance-marking screen: choose a class, mark each student Present,
    Absent or Leave, submit once per day, and search past records by name. */
module AttendancePage {
  import opened Wrappers
  import opened Seqs
  import opened Text
  import opened Profiles
  import opened StudentSerializer
  import opened ClassSerializer
  import opened AttendanceApi
  import DashboardPage

  /** The class picker's option: `{value: cls.id, label: cls.name}`, with the label as `caption`. */
  datatype ClassOption = ClassOption(value: nat, caption: string)

  /** One row of the roster table. The id is `None` where the page reads past the
      end of the class's id list (JavaScript's `undefined`). */
  datatype RosterEntry = RosterEntry(id: Option<nat>, name: string)

  /** The three radio buttons of a roster row. */
  datatype Status = Present | Absent | Leave

  /** The status text sent to, and stored by, the backend. */
  function StatusText(s: Status): string
  {
    match s
    case Present => "Present"
    case Absent => "Absent"
    case Leave => "Leave"
  }

  /** One create request `{student: studentId, status}`. */
  datatype CreateEntry = CreateEntry(student: Option<nat>, status: Status)

  const NoClassWarning: string := "Please select a class first."
  const AlreadyMarkedWarning: string := "\U{26A0}\U{FE0F} Attendance for this class has already been marked today."
  const SuccessWarning: string := "\U{2705} Attendance marked successfully!"
  const FailureWarning: string := "\U{274C} Error marking attendance. Try again."

  // ---------------------------------------------------------------------------
  // Roster construction

  /** `student_names.map((name, i) => ({id: students[i], name}))`: one row per
      name, paired by position with the id list. */
  function BuildRoster(p: ClassPayload): (r: seq<RosterEntry>)
    ensures |r| == |p.studentNames|
    ensures forall i :: 0 <= i < |r| ==> r[i].name == p.studentNames[i]
    ensures forall i :: 0 <= i < |r| ==> r[i].id == if i < |p.students| then Some(p.students[i]) else None
  {
    seq(|p.studentNames|, i requires 0 <= i < |p.studentNames| =>
      RosterEntry(if i < |p.students| then Some(p.students[i]) else None, p.studentNames[i]))
  }

  /** For a class as the serializer sends it, every roster row has an id, row `i`
      carries student `i`'s id, and row `i` also shows student `i`'s name for
      every `i` exactly when every student of the class has a linked account. */
  lemma RosterOfSerializedClass(c: ClassRoom)
    ensures |BuildRoster(Serialize(c))| <= |c.students|
    ensures forall i :: 0 <= i < |BuildRoster(Serialize(c))| ==> BuildRoster(Serialize(c))[i].id == Some(c.students[i].id)
    ensures (|BuildRoster(Serialize(c))| == |c.students|
             && forall i :: 0 <= i < |c.students| ==>
                  c.students[i].user.Some? && BuildRoster(Serialize(c))[i].name == FullName(c.students[i].user.value))
        <==> forall i :: 0 <= i < |c.students| ==> c.students[i].user.Some?
  {
    var r := BuildRoster(Serialize(c));
    StudentNamesLength(c.students);
    if forall i :: 0 <= i < |c.students| ==> c.students[i].user.Some? {
      forall i | 0 <= i < |c.students|
        ensures r[i].name == FullName(c.students[i].user.value)
      {
        StudentNamesAligned(c.students, i);
      }
    }
  }

  /** The pairing by position goes wrong as soon as a student has no linked account:
      with student 1 unlinked and student 2 named "Amy Lee", the only roster row
      shows "Amy Lee" with student 1's id, so her mark is recorded for student 1. */
  lemma MisalignedRosterExample()
    ensures var amy := UserProfile(7, "Amy", "Lee", "amy@school.test", StudentRole);
            var c := ClassRoom(3, "10-A", None, [Student(1, None, "R1", "10"), Student(2, Some(amy), "R2", "10")]);
            BuildRoster(Serialize(c)) == [RosterEntry(Some(1), "Amy Lee")]
  {
    var amy := UserProfile(7, "Amy", "Lee", "amy@school.test", StudentRole);
    var s1 := Student(1, None, "R1", "10");
    var s2 := Student(2, Some(amy), "R2", "10");
    var c := ClassRoom(3, "10-A", None, [s1, s2]);
    assert [s1, s2][..1] == [s1];
    assert [s1][..0] == [];
    assert StudentNames([s1]) == [];
    assert FullName(amy) == "Amy Lee";
    assert StudentNames(c.students) == ["Amy Lee"];
  }

  // ---------------------------------------------------------------------------
  // Duplicate check

  /** `students.some(s => s.id === student)`. */
  predicate OnRoster(roster: seq<RosterEntry>, student: nat)
  {
    exists s :: s in roster && s.id == Some(student)
  }

  function MarkedToday(today: string, roster: seq<RosterEntry>): AttendanceRecord -> bool
  {
    (a: AttendanceRecord) => a.date == today && OnRoster(roster, a.student)
  }

  /** The records of today that belong to a roster student. */
  function ExistingToday(records: seq<AttendanceRecord>, today: string, roster: seq<RosterEntry>): seq<AttendanceRecord>
  {
    Filter(records, MarkedToday(today, roster))
  }

  /** Submission is refused exactly when some record is dated today and belongs
      to a student on the roster. */
  lemma ExistingTodayIff(records: seq<AttendanceRecord>, today: string, roster: seq<RosterEntry>)
    ensures ExistingToday(records, today, roster) != []
        <==> exists i :: 0 <= i < |records| && records[i].date == today && OnRoster(roster, records[i].student)
  {
    FilterEmptyIff(records, MarkedToday(today, roster));
  }

  // ---------------------------------------------------------------------------
  // Create entries

  /** The order of `Object.entries`: integer keys ascending, then the non-integer
      key `"undefined"`. */
  predicate KeyBefore(a: Option<nat>, b: Option<nat>)
  {
    a.Some? && (b.None? || a.value < b.value)
  }

  predicate KeyAtMost(a: Option<nat>, b: Option<nat>)
  {
    a == b || KeyBefore(a, b)
  }

  lemma {:induction false} MinKeyExists(keys: set<Option<nat>>)
    requires keys != {}
    ensures exists k :: k in keys && forall j :: j in keys ==> KeyAtMost(k, j)
    decreases |keys|
  {
    var x :| x in keys;
    if keys != {x} {
      var rest := keys - {x};
      MinKeyExists(rest);
      var m :| m in rest && forall j :: j in rest ==> KeyAtMost(m, j);
      if KeyAtMost(x, m) {
        forall j | j in keys ensures KeyAtMost(x, j) {
          if j != x {
            assert j in rest;
          }
        }
      } else {
        forall j | j in keys ensures KeyAtMost(m, j) {
          if j != x {
            assert j in rest;
          }
        }
      }
    } else {
      assert forall j :: j in keys ==> KeyAtMost(x, j);
    }
  }

  /** The first key in `Object.entries` order. */
  function MinKey(keys: set<Option<nat>>): (k: Option<nat>)
    requires keys != {}
    ensures k in keys && forall j :: j in keys ==> KeyAtMost(k, j)
  {
    MinKeyExists(keys);
    var k :| k in keys && forall j :: j in keys ==> KeyAtMost(k, j);
    k
  }

  /** `Object.entries(attendance).map(([studentId, status]) => ({student: studentId, status}))`:
      one create entry per picked student, carrying its picked status, in key order. */
  function Entries(picks: map<Option<nat>, Status>): (r: seq<CreateEntry>)
    ensures |r| == |picks|
    ensures forall e :: e in r ==> e.student in picks && picks[e.student] == e.status
    ensures forall i, j :: 0 <= i < j < |r| ==> KeyBefore(r[i].student, r[j].student)
    decreases |picks|
  {
    if |picks| == 0 then [] else
    var k := MinKey(picks.Keys);
    var rest := picks - {k};
    assert rest.Keys == picks.Keys - {k};
    assert |rest| == |picks| - 1;
    var tail := Entries(rest);
    assert forall j :: 0 <= j < |tail| ==> tail[j] in tail && tail[j].student in rest && KeyBefore(k, tail[j].student);
    [CreateEntry(k, picks[k])] + tail
  }

  /** Every picked student gets a create entry carrying its picked status. */
  lemma {:induction false} EntriesCoverPicks(picks: map<Option<nat>, Status>, k: Option<nat>)
    requires k in picks
    ensures CreateEntry(k, picks[k]) in Entries(picks)
    decreases |picks|
  {
    var m := MinKey(picks.Keys);
    var rest := picks - {m};
    assert rest.Keys == picks.Keys - {m};
    assert |rest| == |picks| - 1;
    if k != m {
      EntriesCoverPicks(rest, k);
    }
  }

  /** Picks for students 1 and 2 are posted in ascending id order. */
  lemma EntriesOfTwoPicks()
    ensures Entries(map[][Some(1) := Present][Some(2) := Absent])
         == [CreateEntry(Some(1), Present), CreateEntry(Some(2), Absent)]
  {
    var picks := map[][Some(1) := Present][Some(2) := Absent];
    var r := Entries(picks);
    assert |picks| == 2;
    assert r[0] in r && r[1] in r;
    assert KeyBefore(r[0].student, r[1].student);
  }

  /** No student gets two create entries. */
  lemma EntriesDistinct(picks: map<Option<nat>, Status>, i: nat, j: nat)
    requires i < j < |Entries(picks)|
    ensures Entries(picks)[i].student != Entries(picks)[j].student
  {
  }

  function Persists(rejected: set<Option<nat>>): CreateEntry -> bool
  {
    (e: CreateEntry) => e.student !in rejected
  }

  /** Every status the page creates is one the dashboard counts. */
  lemma CreatedStatusesAreCounted(s: Status)
    ensures DashboardPage.IsKnownStatus(StatusText(s))
  {
  }

  // ---------------------------------------------------------------------------
  // Past records

  function NameMatches(term: string): AttendanceRecord -> bool
  {
    (r: AttendanceRecord) => Includes(Lower(r.studentName + " " + r.studentLastName), Lower(term))
  }

  /** `pastAttendance.filter(...)`: the records whose lower-cased "first last"
      contains the lower-cased search term. */
  function FilterByName(records: seq<AttendanceRecord>, term: string): seq<AttendanceRecord>
  {
    Filter(records, NameMatches(term))
  }

  /** The search keeps exactly the records whose lower-cased full name contains
      the lower-cased term somewhere. */
  lemma FilterByNameExact(records: seq<AttendanceRecord>, term: string, r: AttendanceRecord)
    ensures r in FilterByName(records, term)
        <==> r in records && exists i :: OccursAt(Lower(r.studentName + " " + r.studentLastName), Lower(term), i)
  {
    FilterMembership(records, NameMatches(term), r);
    assert NameMatches(term)(r) == Includes(Lower(r.studentName + " " + r.studentLastName), Lower(term));
    IncludesIff(Lower(r.studentName + " " + r.studentLastName), Lower(term));
  }

  /** An empty search keeps every record. */
  lemma EmptySearchKeepsAll(records: seq<AttendanceRecord>)
    ensures FilterByName(records, "") == records
  {
    forall i | 0 <= i < |records| ensures NameMatches("")(records[i]) {
      IncludesEmpty(Lower(records[i].studentName + " " + records[i].studentLastName));
    }
    FilterAll(records, NameMatches(""));
  }

  /** The search ignores the case of the term. */
  lemma SearchIgnoresCase(records: seq<AttendanceRecord>, term: string)
    ensures FilterByName(records, Lower(term)) == FilterByName(records, term)
  {
    LowerIdempotent(term);
    FilterSamePredicate(records, NameMatches(Lower(term)), NameMatches(term));
  }

  // ---------------------------------------------------------------------------
  // The component

  /** The component's state: the fetched classes, the roster, the picked class, the
      selection map, the submitting flag, the banner text and the past-records modal. */
  class AttendanceSession {
    var classes: seq<ClassPayload>
    var students: seq<RosterEntry>
    var selectedClass: Option<ClassOption>
    var attendance: map<Option<nat>, Status>
    var isSubmitting: bool
    var warning: string
    var pastAttendance: seq<AttendanceRecord>
    var showPastModal: bool
    var searchTerm: string

    /** Between two handlers no submission is in flight, and every picked student
        is on the roster (the radio buttons exist only for roster rows). */
    ghost predicate Valid()
      reads this
    {
      && !isSubmitting
      && forall k :: k in attendance ==> exists s :: s in students && s.id == k
    }

    /** The initial state of the component. */
    constructor ()
      ensures Valid()
      ensures classes == [] && students == [] && selectedClass == None && attendance == map[]
      ensures warning == "" && pastAttendance == [] && !showPastModal && searchTerm == ""
    {
      classes := [];
      students := [];
      selectedClass := None;
      attendance := map[];
      isSubmitting := false;
      warning := "";
      pastAttendance := [];
      showPastModal := false;
      searchTerm := "";
    }

    /** The classes fetched on mount; a failed fetch leaves the list as it was. */
    method ClassesFetched(response: Option<seq<ClassPayload>>)
      requires Valid()
      modifies this`classes
      ensures Valid()
      ensures classes == if response.Some? then response.value else old(classes)
    {
      if response.Some? {
        classes := response.value;
      }
    }

    /** `handleClassSelect`: records the option (or `None` when cleared), clears the
        banner and the selection map, and for a picked class asks for its details;
        `requested` is the class whose details are fetched. `response` is the
        answer: `None` if the request fails, which leaves the roster as it was. */
    method SelectClass(option: Option<ClassOption>, response: Option<ClassPayload>)
      returns (requested: Option<nat>)
      requires Valid()
      modifies this
      ensures Valid()
      ensures selectedClass == option && warning == "" && attendance == map[]
      ensures requested == if option.Some? then Some(option.value.value) else None
      ensures students == if option.Some? && response.Some? then BuildRoster(response.value) else old(students)
      ensures classes == old(classes) && isSubmitting == old(isSubmitting)
      ensures pastAttendance == old(pastAttendance) && showPastModal == old(showPastModal)
      ensures searchTerm == old(searchTerm)
    {
      selectedClass := option;
      warning := "";
      attendance := map[];
      if option.None? {
        return None;
      }
      requested := Some(option.value.value);
      if response.Some? {
        students := BuildRoster(response.value);
      }
    }

    /** `handleStatusChange`: sets the pick of one student, whether or not that
        student had one, and leaves every other pick as it was. */
    method ChangeStatus(studentId: Option<nat>, status: Status)
      requires Valid()
      requires exists s :: s in students && s.id == studentId
      modifies this`attendance
      ensures Valid()
      ensures attendance == old(attendance)[studentId := status]
    {
      attendance := attendance[studentId := status];
    }

    /** `handleSubmit`. Without a picked class it only sets the banner. Otherwise it
        fetches today's attendance (`fetched`); the fetch's answer is `response`
        (`None` if it fails). If some record of `today` belongs to a roster student
        it refuses. Otherwise it posts one create per picked student (`posted`);
        the creates for students in `rejected` fail, the others are stored
        (`persisted`) and are not undone when another fails. The picks are kept
        in every case. */
    method Submit(today: string, response: Option<seq<AttendanceRecord>>, rejected: set<Option<nat>>)
      returns (fetched: bool, posted: seq<CreateEntry>, persisted: seq<CreateEntry>)
      requires Valid()
      modifies this`warning, this`isSubmitting
      ensures Valid()
      ensures old(selectedClass).None? ==> warning == NoClassWarning && !fetched && posted == [] && persisted == []
      ensures old(selectedClass).Some? ==> fetched
      ensures old(selectedClass).Some? && response.None? ==> warning == FailureWarning && posted == [] && persisted == []
      ensures old(selectedClass).Some? && response.Some? && ExistingToday(response.value, today, students) != []
              ==> warning == AlreadyMarkedWarning && posted == [] && persisted == []
      ensures old(selectedClass).Some? && response.Some? && ExistingToday(response.value, today, students) == []
              ==> && posted == Entries(attendance)
                  && persisted == Filter(posted, Persists(rejected))
                  && warning == if |persisted| == |posted| then SuccessWarning else FailureWarning
      ensures forall e :: e in posted ==> exists s :: s in students && s.id == e.student
    {
      fetched, posted, persisted := false, [], [];
      if selectedClass.None? {
        warning := NoClassWarning;
        return;
      }
      isSubmitting := true;
      warning := "";
      fetched := true;
      if response.None? {
        warning := FailureWarning;
        isSubmitting := false;
        return;
      }
      var existing := ExistingToday(response.value, today, students);
      if |existing| > 0 {
        warning := AlreadyMarkedWarning;
        isSubmitting := false;
        return;
      }
      posted := Entries(attendance);
      persisted := Filter(posted, Persists(rejected));
      if |persisted| == |posted| {
        warning := SuccessWarning;
      } else {
        warning := FailureWarning;
      }
      isSubmitting := false;
    }

    /** `fetchPastAttendance`: on an answer, shows the fetched records in the modal. */
    method FetchPastAttendance(response: Option<seq<AttendanceRecord>>)
      requires Valid()
      modifies this`pastAttendance, this`showPastModal
      ensures Valid()
      ensures pastAttendance == if response.Some? then response.value else old(pastAttendance)
      ensures showPastModal == (response.Some? || old(showPastModal))
    {
      if response.Some? {
        pastAttendance := response.value;
        showPastModal := true;
      }
    }

    /** The search box of the past-records modal. */
    method SetSearchTerm(term: string)
      requires Valid()
      modifies this`searchTerm
      ensures Valid() && searchTerm == term
    {
      searchTerm := term;
    }

    /** The close button of the past-records modal. */
    method ClosePastModal()
      requires Valid()
      modifies this`showPastModal
      ensures Valid() && !showPastModal
    {
      showPastModal := false;
    }

    /** `filteredPast`: the past records matching the search term. */
    function FilteredPast(): seq<AttendanceRecord>
      reads this
    {
      FilterByName(pastAttendance, searchTerm)
    }
  }

  // ---------------------------------------------------------------------------
  // Two sessions, run against the contracts above

  /** Class "10-A" lists students 1 and 2 and nothing is recorded today: marking
      1 Present and 2 Absent and submitting posts exactly those two creates, in
      that order, and reports success. */
  method MarkTwoStudentsScenario(today: string) returns (posted: seq<CreateEntry>, banner: string)
    ensures posted == [CreateEntry(Some(1), Present), CreateEntry(Some(2), Absent)]
    ensures banner == SuccessWarning
  {
    var session := new AttendanceSession();
    var detail := ClassPayload(10, "10-A", None, None, [1, 2], ["Amy", "Ben"]);
    var requested := session.SelectClass(Some(ClassOption(10, "10-A")), Some(detail));
    var amy, ben := RosterEntry(Some(1), "Amy"), RosterEntry(Some(2), "Ben");
    assert session.students == [amy, ben];
    assert amy in session.students;
    session.ChangeStatus(Some(1), Present);
    assert ben in session.students;
    session.ChangeStatus(Some(2), Absent);
    var picks := session.attendance;
    assert picks == map[][Some(1) := Present][Some(2) := Absent];
    var roster := session.students;
    assert ExistingToday([], today, roster) == [];
    var fetched, persisted;
    fetched, posted, persisted := session.Submit(today, Some([]), {});
    assert posted == Entries(picks);
    EntriesOfTwoPicks();
    FilterAll(posted, Persists({}));
    assert persisted == posted;
    banner := session.warning;
  }

  /** The same class with student 1 already recorded today: the submit is refused,
      nothing is posted and the picks stay. */
  method AlreadyMarkedScenario(today: string) returns (posted: seq<CreateEntry>, banner: string, picks: map<Option<nat>, Status>)
    ensures posted == [] && banner == AlreadyMarkedWarning
    ensures picks == map[Some(1) := Present]
  {
    var session := new AttendanceSession();
    var detail := ClassPayload(10, "10-A", None, None, [1, 2], ["Amy", "Ben"]);
    var requested := session.SelectClass(Some(ClassOption(10, "10-A")), Some(detail));
    assert session.students[0] in session.students;
    session.ChangeStatus(Some(1), Present);
    var earlier := AttendanceRecord(5, 1, "Amy", "", today, "Present");
    assert MarkedToday(today, session.students)(earlier);
    var fetched, persisted;
    fetched, posted, persisted := session.Submit(today, Some([earlier]), {});
    banner := session.warning;
    picks := session.attendance;
  }
}
