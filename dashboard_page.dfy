/** The dashboard's statistics and notice board: list lengths, today's attendance
    counted per status, and the notices split into today's and earlier ones. */
module DashboardPage {
  import opened Seqs
  import opened Text
  import opened AttendanceApi

  /** A notice as listed by the backend; `createdAt` is an ISO timestamp string. */
  datatype Notice = Notice(id: nat, title: string, message: string, createdAt: string)

  /** The six numbers of the statistics cards. */
  datatype Stats = Stats(
    totalStudents: nat,
    totalTeachers: nat,
    totalClasses: nat,
    studentsPresent: nat,
    studentsAbsent: nat,
    studentsOnLeave: nat)

  const PresentStatus: string := "Present"
  const AbsentStatus: string := "Absent"
  const LeaveStatus: string := "Leave"

  function OnDate(today: string): AttendanceRecord -> bool
  {
    (a: AttendanceRecord) => a.date == today
  }

  function WithStatus(status: string): AttendanceRecord -> bool
  {
    (a: AttendanceRecord) => a.status == status
  }

  function PostedOn(today: string): Notice -> bool
  {
    (n: Notice) => StartsWith(n.createdAt, today)
  }

  function NotPostedOn(today: string): Notice -> bool
  {
    (n: Notice) => !StartsWith(n.createdAt, today)
  }

  /** `attendanceRes.data.filter(a => a.date === today)`. */
  function TodaysAttendance(records: seq<AttendanceRecord>, today: string): seq<AttendanceRecord>
  {
    Filter(records, OnDate(today))
  }

  /** `todaysAttendance.filter(a => a.status === status).length`. */
  function CountStatus(records: seq<AttendanceRecord>, status: string): nat
  {
    |Filter(records, WithStatus(status))|
  }

  /** The statistics `fetchStats` stores once every list has been fetched. */
  function ComputeStats<S, T, C>(students: seq<S>, teachers: seq<T>, classes: seq<C>,
                                  attendance: seq<AttendanceRecord>, today: string): (s: Stats)
    ensures s.totalStudents == |students| && s.totalTeachers == |teachers| && s.totalClasses == |classes|
    ensures var todays := TodaysAttendance(attendance, today);
              s.studentsPresent == CountStatus(todays, PresentStatus)
              && s.studentsAbsent == CountStatus(todays, AbsentStatus)
              && s.studentsOnLeave == CountStatus(todays, LeaveStatus)
    ensures s.studentsPresent + s.studentsAbsent + s.studentsOnLeave <= |TodaysAttendance(attendance, today)|
  {
    var todays := TodaysAttendance(attendance, today);
    StatusCountsBounded(todays);
    Stats(|students|, |teachers|, |classes|,
          CountStatus(todays, PresentStatus), CountStatus(todays, AbsentStatus), CountStatus(todays, LeaveStatus))
  }

  /** Today's attendance holds exactly the records dated today. */
  lemma TodaysAttendanceExact(records: seq<AttendanceRecord>, today: string, a: AttendanceRecord)
    ensures a in TodaysAttendance(records, today) <==> a in records && a.date == today
  {
    FilterMembership(records, OnDate(today), a);
  }

  /** Today's attendance keeps the records' order. */
  lemma TodaysAttendanceKeepsOrder(a: seq<AttendanceRecord>, b: seq<AttendanceRecord>, today: string)
    ensures TodaysAttendance(a + b, today) == TodaysAttendance(a, today) + TodaysAttendance(b, today)
  {
    FilterConcat(a, b, OnDate(today));
  }

  predicate IsKnownStatus(status: string)
  {
    status == PresentStatus || status == AbsentStatus || status == LeaveStatus
  }

  function UnknownStatus(): AttendanceRecord -> bool
  {
    (a: AttendanceRecord) => !IsKnownStatus(a.status)
  }

  /** Every record is counted under at most one of the three statuses; the rest have
      some other status text. */
  lemma {:induction false} StatusCountsSum(records: seq<AttendanceRecord>)
    ensures CountStatus(records, PresentStatus) + CountStatus(records, AbsentStatus)
          + CountStatus(records, LeaveStatus) + |Filter(records, UnknownStatus())| == |records|
  {
    if records != [] {
      StatusCountsSum(records[1..]);
    }
  }

  /** The three counts add up to at most the number of records, and to exactly that
      number when every record's status is `Present`, `Absent` or `Leave`. */
  lemma StatusCountsBounded(records: seq<AttendanceRecord>)
    ensures CountStatus(records, PresentStatus) + CountStatus(records, AbsentStatus)
          + CountStatus(records, LeaveStatus) <= |records|
    ensures CountStatus(records, PresentStatus) + CountStatus(records, AbsentStatus)
          + CountStatus(records, LeaveStatus) == |records|
        <==> forall i :: 0 <= i < |records| ==> IsKnownStatus(records[i].status)
  {
    StatusCountsSum(records);
    FilterEmptyIff(records, UnknownStatus());
  }

  /** Each count is the number of today's records with exactly that status. */
  lemma CountStatusExact(records: seq<AttendanceRecord>, status: string, a: AttendanceRecord)
    ensures a in Filter(records, WithStatus(status)) <==> a in records && a.status == status
  {
    FilterMembership(records, WithStatus(status), a);
  }

  /** `notices.filter(n => n.created_at.startsWith(today))`. */
  function TodaysNotices(notices: seq<Notice>, today: string): seq<Notice>
  {
    Filter(notices, PostedOn(today))
  }

  /** `notices.filter(n => !n.created_at.startsWith(today))`. */
  function PastNotices(notices: seq<Notice>, today: string): seq<Notice>
  {
    Filter(notices, NotPostedOn(today))
  }

  /** Today's and past notices split the notice list: a notice is in the first
      exactly when its timestamp starts with today's date, in the second exactly
      when it does not, every notice is in one of them once, and both keep the
      list's order. */
  lemma NoticesSplit(notices: seq<Notice>, today: string, n: Notice)
    ensures n in TodaysNotices(notices, today) <==> n in notices && StartsWith(n.createdAt, today)
    ensures n in PastNotices(notices, today) <==> n in notices && !StartsWith(n.createdAt, today)
    ensures |TodaysNotices(notices, today)| + |PastNotices(notices, today)| == |notices|
    ensures multiset(TodaysNotices(notices, today)) + multiset(PastNotices(notices, today)) == multiset(notices)
  {
    FilterMembership(notices, PostedOn(today), n);
    FilterMembership(notices, NotPostedOn(today), n);
    FilterComplement(notices, PostedOn(today), NotPostedOn(today));
  }

  /** Both halves of the split keep the notices' relative order. */
  lemma NoticesSplitKeepsOrder(a: seq<Notice>, b: seq<Notice>, today: string)
    ensures TodaysNotices(a + b, today) == TodaysNotices(a, today) + TodaysNotices(b, today)
    ensures PastNotices(a + b, today) == PastNotices(a, today) + PastNotices(b, today)
  {
    FilterConcat(a, b, PostedOn(today));
    FilterConcat(a, b, NotPostedOn(today));
  }
}
