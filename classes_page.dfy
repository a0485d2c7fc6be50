// The class-management page: the student-id list of the class form (union with
// the newly selected ids, removal of the ids picked for removal, the extra id
// appended on save), the remove-options lookup, the edit-modal defaults and the
// page of classes on screen.

module ClassesPage {
  import opened Wrappers
  import opened Seqs
  import opened Pagination
  import opened ClassSerializer

  /** Classes shown per page. */
  const ClassesPerPage: nat := 5

  /** A teacher or student as the teacher and student lists send it: its id and
      its `full_name`. */
  datatype PersonRow = PersonRow(id: nat, fullName: string)

  /** The class form: the name, the picked teacher (`None` for the empty choice
      `""`) and the student ids. */
  datatype ClassForm = ClassForm(name: string, teacher: Option<nat>, students: seq<nat>)

  /** The form after a reset: `{name: "", teacher: "", students: []}`. */
  const EmptyClassForm: ClassForm := ClassForm("", None, [])

  // ---------------------------------------------------------------------------
  // Student-id lists

  /** `[...new Set([...prev, ...newIds])]`: the union in first-occurrence order. */
  function AddStudents(prev: seq<nat>, newIds: seq<nat>): (r: seq<nat>)
    ensures NoDuplicates(r)
    ensures forall x :: x in r ==> x in prev || x in newIds
    ensures forall x :: x in prev ==> x in r
    ensures forall x :: x in newIds ==> x in r
  {
    Dedup(prev + newIds)
  }

  /** The union lists its ids in order of their first occurrence in `prev`
      followed by `newIds`. */
  lemma AddStudentsKeepsFirstOccurrenceOrder(prev: seq<nat>, newIds: seq<nat>, i: nat, j: nat)
    requires i < j < |AddStudents(prev, newIds)|
    ensures FirstIndex(prev + newIds, AddStudents(prev, newIds)[i])
          < FirstIndex(prev + newIds, AddStudents(prev, newIds)[j])
  {
    DedupKeepsFirstOccurrenceOrder(prev + newIds, i, j);
  }

  /** A list without duplicates is kept as it is at the front of the union, and
      the ids after it are new ones that were not in it. */
  lemma AddStudentsExtendsDistinct(prev: seq<nat>, newIds: seq<nat>)
    requires NoDuplicates(prev)
    ensures |prev| <= |AddStudents(prev, newIds)|
    ensures AddStudents(prev, newIds)[..|prev|] == prev
    ensures forall k :: |prev| <= k < |AddStudents(prev, newIds)| ==>
              AddStudents(prev, newIds)[k] in newIds && AddStudents(prev, newIds)[k] !in prev
  {
    var r := AddStudents(prev, newIds);
    DedupOfDistinct(prev);
    DedupConcatPrefix(prev, newIds);
    forall k | |prev| <= k < |r|
      ensures r[k] in newIds && r[k] !in prev
    {
      assert r[k] in prev + newIds;
    }
  }

  function NotIn(removeIds: seq<nat>): nat -> bool
  {
    (id: nat) => id !in removeIds
  }

  function In(ids: seq<nat>): nat -> bool
  {
    (id: nat) => id in ids
  }

  /** `prev.filter((id) => !removeIds.includes(id))`. */
  function RemoveStudents(prev: seq<nat>, removeIds: seq<nat>): seq<nat>
  {
    Filter(prev, NotIn(removeIds))
  }

  /** Removal keeps exactly the ids that are not picked for removal. */
  lemma RemoveStudentsExact(prev: seq<nat>, removeIds: seq<nat>, x: nat)
    ensures x in RemoveStudents(prev, removeIds) <==> x in prev && x !in removeIds
  {
    FilterMembership(prev, NotIn(removeIds), x);
  }

  /** The kept ids and the removed ones together are the previous list, each id
      as often as it was there. */
  lemma RemoveStudentsPartitions(prev: seq<nat>, removeIds: seq<nat>)
    ensures |RemoveStudents(prev, removeIds)| + |Filter(prev, In(removeIds))| == |prev|
    ensures multiset(RemoveStudents(prev, removeIds)) + multiset(Filter(prev, In(removeIds))) == multiset(prev)
  {
    FilterComplement(prev, In(removeIds), NotIn(removeIds));
  }

  /** Removing ids no list element carries changes nothing. */
  lemma RemoveAbsentIsIdentity(prev: seq<nat>, removeIds: seq<nat>)
    requires forall i :: 0 <= i < |prev| ==> prev[i] !in removeIds
    ensures RemoveStudents(prev, removeIds) == prev
  {
    FilterAll(prev, NotIn(removeIds));
  }

  /** Adding ids to a list without duplicates and none of those ids, then removing
      the same ids, gives the list back. */
  lemma RemoveUndoesAdd(prev: seq<nat>, ids: seq<nat>)
    requires NoDuplicates(prev)
    requires forall i :: 0 <= i < |prev| ==> prev[i] !in ids
    ensures RemoveStudents(AddStudents(prev, ids), ids) == prev
  {
    var r := AddStudents(prev, ids);
    AddStudentsExtendsDistinct(prev, ids);
    var tail := r[|prev|..];
    assert r == prev + tail;
    FilterConcat(prev, tail, NotIn(ids));
    FilterAll(prev, NotIn(ids));
    assert forall i :: 0 <= i < |tail| ==> tail[i] == r[|prev| + i];
    FilterEmptyIff(tail, NotIn(ids));
  }

  // ---------------------------------------------------------------------------
  // The extra id appended on save

  /** `updatedStudents` of `handleEditClass`: the form's ids, with the selected
      student appended when there is one and it is not already listed. */
  function AppendIfAbsent(xs: seq<nat>, selected: Option<nat>): seq<nat>
  {
    if selected.Some? && selected.value !in xs then xs + [selected.value] else xs
  }

  /** The list sent holds the form's ids and the selected one, in that order, the
      selected one once; nothing is appended without a selection or when the
      selection is already listed. */
  lemma AppendIfAbsentSpec(xs: seq<nat>, selected: Option<nat>)
    ensures |xs| <= |AppendIfAbsent(xs, selected)| <= |xs| + 1
    ensures AppendIfAbsent(xs, selected)[..|xs|] == xs
    ensures forall x :: x in AppendIfAbsent(xs, selected) <==> x in xs || selected == Some(x)
    ensures (selected.None? || selected.value in xs) <==> AppendIfAbsent(xs, selected) == xs
    ensures NoDuplicates(xs) ==> NoDuplicates(AppendIfAbsent(xs, selected))
  {
    if selected.Some? && selected.value !in xs {
      assert (xs + [selected.value])[..|xs|] == xs;
      assert |AppendIfAbsent(xs, selected)| != |xs|;
    }
  }

  /** Appending is idempotent: a second save with the same selection sends the same list. */
  lemma AppendIfAbsentIdempotent(xs: seq<nat>, selected: Option<nat>)
    ensures AppendIfAbsent(AppendIfAbsent(xs, selected), selected) == AppendIfAbsent(xs, selected)
  {
  }

  // ---------------------------------------------------------------------------
  // Remove options

  /** `students.find((st) => st.id === id)`: the first row carrying `id`. */
  function FindPerson(rows: seq<PersonRow>, id: nat): (r: Option<PersonRow>)
    ensures r.Some? <==> exists i :: 0 <= i < |rows| && rows[i].id == id
    ensures r.Some? ==> r.value in rows && r.value.id == id
  {
    if rows == [] then None
    else if rows[0].id == id then Some(rows[0])
    else
      var rest := FindPerson(rows[1..], id);
      assert forall i :: 0 <= i < |rows[1..]| ==> rows[1..][i] == rows[i + 1];
      rest
  }

  /** The row found is the first one carrying the id. */
  lemma {:induction false} FindPersonIsFirst(rows: seq<PersonRow>, id: nat, i: nat)
    requires i < |rows| && rows[i].id == id
    ensures FindPerson(rows, id) == Some(rows[FirstMatch(rows, id)])
    ensures FirstMatch(rows, id) <= i
  {
    if rows[0].id != id {
      FindPersonIsFirst(rows[1..], id, i - 1);
    }
  }

  /** The position of the first row carrying `id`. */
  function FirstMatch(rows: seq<PersonRow>, id: nat): (k: nat)
    requires exists i :: 0 <= i < |rows| && rows[i].id == id
    ensures k < |rows| && rows[k].id == id
    ensures forall j :: 0 <= j < k ==> rows[j].id != id
  {
    if rows[0].id == id then 0
    else
      assert exists i :: 0 <= i < |rows[1..]| && rows[1..][i].id == id by {
        var i :| 0 <= i < |rows| && rows[i].id == id;
        assert rows[1..][i - 1] == rows[i];
      }
      1 + FirstMatch(rows[1..], id)
  }

  function Known(rows: seq<PersonRow>): nat -> bool
  {
    (id: nat) => FindPerson(rows, id).Some?
  }

  /** `formData.students.map(id => find ...).filter(Boolean)`: for each listed id
      that a known student carries, that student's row, in list order. */
  function RemoveOptions(ids: seq<nat>, rows: seq<PersonRow>): (r: seq<PersonRow>)
    ensures |r| <= |ids|
    ensures forall o :: o in r ==> o in rows && o.id in ids
  {
    if ids == [] then []
    else
      var found := FindPerson(rows, ids[0]);
      var rest := RemoveOptions(ids[1..], rows);
      if found.Some? then [found.value] + rest else rest
  }

  /** The ids of the options, in order. */
  function OptionIds(options: seq<PersonRow>): seq<nat>
  {
    seq(|options|, i requires 0 <= i < |options| => options[i].id)
  }

  /** The options' ids are exactly the listed ids that some known student carries,
      in list order, each option being the first known row with its id. */
  lemma {:induction false} RemoveOptionsAreKnownIds(ids: seq<nat>, rows: seq<PersonRow>)
    ensures OptionIds(RemoveOptions(ids, rows)) == Filter(ids, Known(rows))
    ensures forall o :: o in RemoveOptions(ids, rows) ==> FindPerson(rows, o.id) == Some(o)
  {
    if ids != [] {
      RemoveOptionsAreKnownIds(ids[1..], rows);
      assert ids == [ids[0]] + ids[1..];
      FilterConcat([ids[0]], ids[1..], Known(rows));
      var found := FindPerson(rows, ids[0]);
      var rest := RemoveOptions(ids[1..], rows);
      if found.Some? {
        assert OptionIds([found.value] + rest) == [ids[0]] + OptionIds(rest);
      }
    }
  }

  // ---------------------------------------------------------------------------
  // Edit-modal defaults

  /** `cls.teacher || ""`: a missing teacher, and the falsy id 0, become the empty choice. */
  function FormTeacher(teacher: Option<nat>): (r: Option<nat>)
    ensures r.Some? <==> teacher.Some? && teacher.value != 0
    ensures r.Some? ==> r == teacher
  {
    if teacher.Some? && teacher.value != 0 then teacher else None
  }

  /** The form `openEditModal` fills in from a listed class. The students list is
      copied as is: the class serializer always sends one, so `|| []` never applies. */
  function EditForm(cls: ClassPayload): (f: ClassForm)
    ensures f.name == cls.name && f.students == cls.students
    ensures f.teacher == FormTeacher(cls.teacher)
  {
    ClassForm(cls.name, FormTeacher(cls.teacher), cls.students)
  }

  // ---------------------------------------------------------------------------
  // The component

  /** The page's state: the fetched lists, the four modals, the class form, the
      extra selected student, the class being edited or deleted, the names shown
      in the view modal and the page number. */
  class ClassesScreen {
    var classes: seq<ClassPayload>
    var teachers: seq<PersonRow>
    var students: seq<PersonRow>
    var isAddModalOpen: bool
    var isEditModalOpen: bool
    var isDeleteModalOpen: bool
    var isViewModalOpen: bool
    var formData: ClassForm
    var selectedStudent: Option<nat>
    var currentClassId: Option<nat>
    var viewStudents: seq<string>
    var currentPage: int

    /** The page number never drops below 1: Prev is disabled on page 1. */
    ghost predicate Valid()
      reads this
    {
      currentPage >= 1
    }

    /** The initial state of the component. */
    constructor ()
      ensures Valid()
      ensures classes == [] && teachers == [] && students == []
      ensures !isAddModalOpen && !isEditModalOpen && !isDeleteModalOpen && !isViewModalOpen
      ensures formData == EmptyClassForm && selectedStudent == None && currentClassId == None
      ensures viewStudents == [] && currentPage == 1
    {
      classes, teachers, students := [], [], [];
      isAddModalOpen, isEditModalOpen, isDeleteModalOpen, isViewModalOpen := false, false, false, false;
      formData := EmptyClassForm;
      selectedStudent := None;
      currentClassId := None;
      viewStudents := [];
      currentPage := 1;
    }

    /** `fetchClasses`: a failed fetch leaves the list as it was. */
    method ClassesFetched(response: Option<seq<ClassPayload>>)
      requires Valid()
      modifies this`classes
      ensures Valid()
      ensures classes == if response.Some? then response.value else old(classes)
    {
      if response.Some? {
        classes := response.value;
      }
    }

    /** `fetchTeachers`: a failed fetch leaves the list as it was. */
    method TeachersFetched(response: Option<seq<PersonRow>>)
      requires Valid()
      modifies this`teachers
      ensures Valid()
      ensures teachers == if response.Some? then response.value else old(teachers)
    {
      if response.Some? {
        teachers := response.value;
      }
    }

    /** `fetchStudents`: a failed fetch leaves the list as it was. */
    method StudentsFetched(response: Option<seq<PersonRow>>)
      requires Valid()
      modifies this`students
      ensures Valid()
      ensures students == if response.Some? then response.value else old(students)
    {
      if response.Some? {
        students := response.value;
      }
    }

    /** The "+ Add Class" button. */
    method OpenAddModal()
      requires Valid()
      modifies this`isAddModalOpen
      ensures Valid() && isAddModalOpen
    {
      isAddModalOpen := true;
    }

    /** `handleAddClass`: posts the form (`sent`); when the post succeeds (`ok`)
        it closes the modal and resets the form, otherwise nothing changes. */
    method HandleAddClass(ok: bool) returns (sent: ClassForm)
      requires Valid()
      modifies this`isAddModalOpen, this`formData
      ensures Valid()
      ensures sent == old(formData)
      ensures ok ==> !isAddModalOpen && formData == EmptyClassForm
      ensures !ok ==> isAddModalOpen == old(isAddModalOpen) && formData == old(formData)
    {
      sent := formData;
      if ok {
        isAddModalOpen := false;
        formData := EmptyClassForm;
      }
    }

    /** `openEditModal`: remembers the class, fills the form from it, clears the
        extra selection and opens the modal. */
    method OpenEditModal(cls: ClassPayload)
      requires Valid()
      modifies this`currentClassId, this`formData, this`selectedStudent, this`isEditModalOpen
      ensures Valid()
      ensures currentClassId == Some(cls.id) && formData == EditForm(cls)
      ensures selectedStudent == None && isEditModalOpen
    {
      currentClassId := Some(cls.id);
      formData := EditForm(cls);
      selectedStudent := None;
      isEditModalOpen := true;
    }

    /** The add-students picker: merges the picked ids into the form's list. */
    method AddSelected(newIds: seq<nat>)
      requires Valid()
      modifies this`formData
      ensures Valid()
      ensures formData == old(formData).(students := AddStudents(old(formData).students, newIds))
    {
      formData := formData.(students := AddStudents(formData.students, newIds));
    }

    /** The remove-students picker: drops the picked ids from the form's list. */
    method RemoveSelected(removeIds: seq<nat>)
      requires Valid()
      modifies this`formData
      ensures Valid()
      ensures formData == old(formData).(students := RemoveStudents(old(formData).students, removeIds))
    {
      formData := formData.(students := RemoveStudents(formData.students, removeIds));
    }

    /** The options of the remove-students picker. */
    function CurrentRemoveOptions(): seq<PersonRow>
      reads this
    {
      RemoveOptions(formData.students, students)
    }

    /** `handleEditClass`: copies the form's ids, appends the extra selection when
        it is set and not listed, and puts the form with that list to the class
        being edited (`target`, `sent`). On success it closes the modal and resets
        the form and the selection; on failure nothing changes. */
    method HandleEditClass(ok: bool) returns (target: Option<nat>, sent: ClassForm)
      requires Valid()
      modifies this`isEditModalOpen, this`formData, this`selectedStudent
      ensures Valid()
      ensures target == old(currentClassId)
      ensures sent == old(formData).(students := AppendIfAbsent(old(formData).students, old(selectedStudent)))
      ensures ok ==> !isEditModalOpen && formData == EmptyClassForm && selectedStudent == None
      ensures !ok ==> && isEditModalOpen == old(isEditModalOpen) && formData == old(formData)
                      && selectedStudent == old(selectedStudent)
    {
      var updated := formData.students;
      if selectedStudent.Some? && selectedStudent.value !in updated {
        updated := updated + [selectedStudent.value];
      }
      target := currentClassId;
      sent := formData.(students := updated);
      if ok {
        isEditModalOpen := false;
        formData := EmptyClassForm;
        selectedStudent := None;
      }
    }

    /** `openDeleteModal`. */
    method OpenDeleteModal(id: nat)
      requires Valid()
      modifies this`currentClassId, this`isDeleteModalOpen
      ensures Valid()
      ensures currentClassId == Some(id) && isDeleteModalOpen
    {
      currentClassId := Some(id);
      isDeleteModalOpen := true;
    }

    /** `handleDeleteClass`: deletes the remembered class (`target`); on success
        the modal closes. */
    method HandleDeleteClass(ok: bool) returns (target: Option<nat>)
      requires Valid()
      modifies this`isDeleteModalOpen
      ensures Valid()
      ensures target == currentClassId
      ensures isDeleteModalOpen == (old(isDeleteModalOpen) && !ok)
    {
      target := currentClassId;
      if ok {
        isDeleteModalOpen := false;
      }
    }

    /** `openViewModal`: shows the class's student names. */
    method OpenViewModal(cls: ClassPayload)
      requires Valid()
      modifies this`viewStudents, this`isViewModalOpen
      ensures Valid()
      ensures viewStudents == cls.studentNames && isViewModalOpen
    {
      viewStudents := cls.studentNames;
      isViewModalOpen := true;
    }

    /** The classes on the current page. */
    function CurrentClasses(): seq<ClassPayload>
      reads this
    {
      PageWindow(classes, currentPage, ClassesPerPage)
    }

    function PageCount(): nat
      reads this
    {
      TotalPages(|classes|, ClassesPerPage)
    }

    /** The current page is the clipped window of at most five classes. */
    lemma CurrentClassesWindow()
      requires Valid()
      ensures |CurrentClasses()| <= ClassesPerPage
      ensures CurrentClasses() == classes[Min((currentPage - 1) * ClassesPerPage, |classes|)
                                         ..Min(currentPage * ClassesPerPage, |classes|)]
    {
      PageWindowIsClippedSlice(classes, currentPage, ClassesPerPage);
    }

    /** Prev, disabled on page 1. */
    method Prev()
      requires Valid()
      modifies this`currentPage
      ensures Valid()
      ensures currentPage == GuardedPrev(old(currentPage))
    {
      if currentPage != 1 {
        currentPage := currentPage - 1;
      }
    }

    /** Next, disabled when the page equals the page count; with no classes the
        count is 0, so it is never disabled and the page grows past the list. */
    method Next()
      requires Valid()
      modifies this`currentPage
      ensures Valid()
      ensures currentPage == GuardedNext(old(currentPage), PageCount())
    {
      if currentPage != PageCount() {
        currentPage := currentPage + 1;
      }
    }
  }
}
