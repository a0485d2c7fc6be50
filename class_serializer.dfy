/** The class record and what its serializer sends to the pages: the teacher's
    display name and the display names of the enrolled students. */
module ClassSerializer {
  import opened Wrappers
  import opened Profiles
  import opened StudentSerializer
  import opened TeacherSerializer

  /** A class: a name, an optional teacher and the enrolled students, in order. */
  datatype ClassRoom = ClassRoom(id: nat, name: string, teacher: Option<Teacher>, students: seq<Student>)

  /** The serialized class: `students` holds every enrolled student's id and
      `student_names` the display names the serializer computes. */
  datatype ClassPayload = ClassPayload(
    id: nat,
    name: string,
    teacher: Option<nat>,
    teacherFullName: Option<string>,
    students: seq<nat>,
    studentNames: seq<string>)

  /** `get_teacher_full_name`: the display name of the class's teacher, or `None`
      when the class has no teacher or the teacher has no linked account. */
  function TeacherFullName(c: ClassRoom): (r: Option<string>)
    ensures r.Some? <==> c.teacher.Some? && c.teacher.value.user.Some?
    ensures r.Some? ==> r.value == FullName(c.teacher.value.user.value)
  {
    if c.teacher.Some? && c.teacher.value.user.Some? then Some(FullName(c.teacher.value.user.value))
    else None
  }

  /** The names `get_student_names` collects: one display name per student that has
      a linked account, in enrolment order; students without one are skipped. */
  function StudentNames(students: seq<Student>): seq<string>
  {
    if students == [] then [] else
    var last := students[|students| - 1];
    StudentNames(students[..|students| - 1])
      + (if last.user.Some? then [FullName(last.user.value)] else [])
  }

  /** `get_student_names`: the loop over `obj.students.all()` that appends a name
      for every student with a linked account. */
  method GetStudentNames(students: seq<Student>) returns (names: seq<string>)
    ensures names == StudentNames(students)
  {
    names := [];
    var i := 0;
    while i < |students|
      invariant 0 <= i <= |students|
      invariant names == StudentNames(students[..i])
    {
      var s := students[i];
      assert students[..i + 1][..i] == students[..i];
      if s.user.Some? {
        names := names + [FullName(s.user.value)];
      }
      i := i + 1;
    }
    assert students[..|students|] == students;
  }

  /** The names list follows enrolment order: the names of a concatenation are the
      names of its parts, one after the other. */
  lemma {:induction false} StudentNamesConcat(a: seq<Student>, b: seq<Student>)
    ensures StudentNames(a + b) == StudentNames(a) + StudentNames(b)
  {
    if b != [] {
      assert (a + b)[..|a + b| - 1] == a + b[..|b| - 1];
      StudentNamesConcat(a, b[..|b| - 1]);
    } else {
      assert a + b == a;
    }
  }

  /** There are never more names than students, and exactly as many precisely when
      every student has a linked account. */
  lemma {:induction false} StudentNamesLength(students: seq<Student>)
    ensures |StudentNames(students)| <= |students|
    ensures |StudentNames(students)| == |students| <==> forall i :: 0 <= i < |students| ==> students[i].user.Some?
  {
    if students != [] {
      var init := students[..|students| - 1];
      StudentNamesLength(init);
      assert forall i :: 0 <= i < |init| ==> init[i] == students[i];
    }
  }

  /** When every student has a linked account, name `i` belongs to student `i`. */
  lemma {:induction false} StudentNamesAligned(students: seq<Student>, i: nat)
    requires forall j :: 0 <= j < |students| ==> students[j].user.Some?
    requires i < |students|
    ensures |StudentNames(students)| == |students|
    ensures StudentNames(students)[i] == FullName(students[i].user.value)
  {
    StudentNamesLength(students);
    var init := students[..|students| - 1];
    assert forall j :: 0 <= j < |init| ==> init[j] == students[j];
    StudentNamesLength(init);
    if i < |init| {
      StudentNamesAligned(init, i);
    }
  }

  /** The ids of the enrolled students, as the serializer sends them. */
  function StudentIds(students: seq<Student>): (ids: seq<nat>)
    ensures |ids| == |students|
    ensures forall i :: 0 <= i < |students| ==> ids[i] == students[i].id
  {
    seq(|students|, i requires 0 <= i < |students| => students[i].id)
  }

  /** The serialized form of a class. */
  function Serialize(c: ClassRoom): (p: ClassPayload)
    ensures p.id == c.id && p.name == c.name
    ensures p.teacher == (if c.teacher.Some? then Some(c.teacher.value.id) else None)
    ensures p.teacherFullName == TeacherFullName(c)
    ensures p.students == StudentIds(c.students)
    ensures p.studentNames == StudentNames(c.students)
    ensures |p.studentNames| <= |p.students|
  {
    StudentNamesLength(c.students);
    ClassPayload(c.id, c.name, if c.teacher.Some? then Some(c.teacher.value.id) else None,
                 TeacherFullName(c), StudentIds(c.students), StudentNames(c.students))
  }
}
