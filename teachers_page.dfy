// The teachers page: the teacher list, five to a page, with pagination controls
// shown only when there is more than one page, the dropdown of teacher accounts
// and the add/edit form that resets on success.

module TeachersPage {
  import opened Wrappers
  import opened Seqs
  import opened Pagination
  import opened Profiles

  /** Teachers shown per page. */
  const TeachersPerPage: nat := 5

  /** A teacher as the teacher list sends it: its id, the linked account id, the
      subject and the linked account's full name. */
  datatype TeacherRow = TeacherRow(id: nat, user: nat, subject: string, fullName: string)

  /** The teacher form: the picked account (`None` for the empty choice `""`) and the subject. */
  datatype TeacherForm = TeacherForm(user: Option<nat>, subject: string)

  /** The form after a reset: `{user: "", subject: ""}`. */
  const EmptyTeacherForm: TeacherForm := TeacherForm(None, "")

  function HasTeacherRole(): UserProfile -> bool
  {
    (u: UserProfile) => u.role == TeacherRole
  }

  /** `res.data.filter((u) => u.role === "teacher")`. */
  function TeacherAccounts(accounts: seq<UserProfile>): seq<UserProfile>
  {
    Filter(accounts, HasTeacherRole())
  }

  /** The dropdown lists exactly the accounts whose role is "teacher". */
  lemma TeacherAccountsExact(accounts: seq<UserProfile>, u: UserProfile)
    ensures u in TeacherAccounts(accounts) <==> u in accounts && u.role == TeacherRole
  {
    FilterMembership(accounts, HasTeacherRole(), u);
  }

  /** Keeping the teacher accounts keeps the order of the fetched accounts. */
  lemma TeacherAccountsKeepOrder(a: seq<UserProfile>, b: seq<UserProfile>)
    ensures TeacherAccounts(a + b) == TeacherAccounts(a) + TeacherAccounts(b)
  {
    FilterConcat(a, b, HasTeacherRole());
  }

  /** The form `openEditModal` fills in from a teacher: its account and subject. */
  function EditForm(t: TeacherRow): (f: TeacherForm)
    ensures f.user == Some(t.user) && f.subject == t.subject
  {
    TeacherForm(Some(t.user), t.subject)
  }

  /** The page's state: the teachers, the teacher accounts, the three modals, the
      form, the teacher being edited or deleted and the page number. */
  class TeachersScreen {
    var teachers: seq<TeacherRow>
    var users: seq<UserProfile>
    var isAddModalOpen: bool
    var isEditModalOpen: bool
    var isDeleteModalOpen: bool
    var formData: TeacherForm
    var currentTeacherId: Option<nat>
    var currentPage: int

    /** The page number never drops below 1, and the dropdown holds teacher accounts only. */
    ghost predicate Valid()
      reads this
    {
      && currentPage >= 1
      && forall u :: u in users ==> u.role == TeacherRole
    }

    /** The initial state of the component. */
    constructor ()
      ensures Valid()
      ensures teachers == [] && users == [] && !isAddModalOpen && !isEditModalOpen && !isDeleteModalOpen
      ensures formData == EmptyTeacherForm && currentTeacherId == None && currentPage == 1
    {
      teachers, users := [], [];
      isAddModalOpen, isEditModalOpen, isDeleteModalOpen := false, false, false;
      formData := EmptyTeacherForm;
      currentTeacherId := None;
      currentPage := 1;
    }

    /** `fetchTeachers`: a failed fetch leaves the list as it was. */
    method TeachersFetched(response: Option<seq<TeacherRow>>)
      requires Valid()
      modifies this`teachers
      ensures Valid()
      ensures teachers == if response.Some? then response.value else old(teachers)
    {
      if response.Some? {
        teachers := response.value;
      }
    }

    /** `fetchUsers`: keeps the teacher accounts of the fetched list. */
    method UsersFetched(response: Option<seq<UserProfile>>)
      requires Valid()
      modifies this`users
      ensures Valid()
      ensures users == if response.Some? then TeacherAccounts(response.value) else old(users)
    {
      if response.Some? {
        users := TeacherAccounts(response.value);
      }
    }

    /** The "+ Add Teacher" button. */
    method OpenAddModal()
      requires Valid()
      modifies this`isAddModalOpen
      ensures Valid() && isAddModalOpen
    {
      isAddModalOpen := true;
    }

    /** `handleAddTeacher`: posts the form (`sent`); on success (`ok`) closes the
        modal and resets the form, otherwise nothing changes. */
    method HandleAddTeacher(ok: bool) returns (sent: TeacherForm)
      requires Valid()
      modifies this`isAddModalOpen, this`formData
      ensures Valid()
      ensures sent == old(formData)
      ensures ok ==> !isAddModalOpen && formData == EmptyTeacherForm
      ensures !ok ==> isAddModalOpen == old(isAddModalOpen) && formData == old(formData)
    {
      sent := formData;
      if ok {
        isAddModalOpen := false;
        formData := EmptyTeacherForm;
      }
    }

    /** `openEditModal`: remembers the teacher, copies it into the form and opens the modal. */
    method OpenEditModal(t: TeacherRow)
      requires Valid()
      modifies this`currentTeacherId, this`formData, this`isEditModalOpen
      ensures Valid()
      ensures currentTeacherId == Some(t.id) && formData == EditForm(t) && isEditModalOpen
    {
      currentTeacherId := Some(t.id);
      formData := EditForm(t);
      isEditModalOpen := true;
    }

    /** `handleEditTeacher`: patches the remembered teacher (`target`) with the
        form (`sent`); on success closes the modal and resets the form. */
    method HandleEditTeacher(ok: bool) returns (target: Option<nat>, sent: TeacherForm)
      requires Valid()
      modifies this`isEditModalOpen, this`formData
      ensures Valid()
      ensures target == old(currentTeacherId) && sent == old(formData)
      ensures ok ==> !isEditModalOpen && formData == EmptyTeacherForm
      ensures !ok ==> isEditModalOpen == old(isEditModalOpen) && formData == old(formData)
    {
      target, sent := currentTeacherId, formData;
      if ok {
        isEditModalOpen := false;
        formData := EmptyTeacherForm;
      }
    }

    /** `openDeleteModal`. */
    method OpenDeleteModal(id: nat)
      requires Valid()
      modifies this`currentTeacherId, this`isDeleteModalOpen
      ensures Valid()
      ensures currentTeacherId == Some(id) && isDeleteModalOpen
    {
      currentTeacherId := Some(id);
      isDeleteModalOpen := true;
    }

    /** `handleDeleteTeacher`: deletes the remembered teacher (`target`); on
        success the modal closes. */
    method HandleDeleteTeacher(ok: bool) returns (target: Option<nat>)
      requires Valid()
      modifies this`isDeleteModalOpen
      ensures Valid()
      ensures target == currentTeacherId
      ensures isDeleteModalOpen == (old(isDeleteModalOpen) && !ok)
    {
      target := currentTeacherId;
      if ok {
        isDeleteModalOpen := false;
      }
    }

    /** The teachers on the current page. */
    function CurrentTeachers(): seq<TeacherRow>
      reads this
    {
      PageWindow(teachers, currentPage, TeachersPerPage)
    }

    function PageCount(): nat
      reads this
    {
      TotalPages(|teachers|, TeachersPerPage)
    }

    /** The numbered page buttons. */
    function PageButtons(): seq<nat>
      reads this
    {
      PageNumbers(PageCount())
    }

    /** Whether the pagination controls are rendered. */
    function ControlsShown(): bool
      reads this
    {
      ShowPagination(PageCount())
    }

    /** The current page is the clipped window of at most five teachers. */
    lemma CurrentTeachersWindow()
      requires Valid()
      ensures |CurrentTeachers()| <= TeachersPerPage
      ensures CurrentTeachers() == teachers[Min((currentPage - 1) * TeachersPerPage, |teachers|)
                                            ..Min(currentPage * TeachersPerPage, |teachers|)]
    {
      PageWindowIsClippedSlice(teachers, currentPage, TeachersPerPage);
    }

    /** The controls are rendered exactly when there are more than five teachers. */
    lemma ControlsShownIff()
      ensures ControlsShown() <==> |teachers| > TeachersPerPage
    {
      ShowPaginationIff(|teachers|, TeachersPerPage);
    }

    /** Previous, rendered only with the controls: disabled on page 1, otherwise
        `Math.max(p - 1, 1)`. */
    method Previous()
      requires Valid() && ControlsShown()
      modifies this`currentPage
      ensures Valid()
      ensures currentPage == ClampedPrev(old(currentPage))
    {
      if currentPage != 1 {
        currentPage := Max(currentPage - 1, 1);
      }
    }

    /** Next, rendered only with the controls: disabled on the last page,
        otherwise `Math.min(p + 1, totalPages)`. */
    method Next()
      requires Valid() && ControlsShown()
      modifies this`currentPage
      ensures Valid()
      ensures currentPage == ClampedNext(old(currentPage), PageCount())
      ensures 1 <= currentPage <= PageCount()
    {
      if currentPage != PageCount() {
        currentPage := Min(currentPage + 1, PageCount());
      }
    }

    /** A numbered page button, rendered only with the controls. */
    method GoToPage(page: nat)
      requires Valid() && ControlsShown()
      requires page in PageButtons()
      modifies this`currentPage
      ensures Valid()
      ensures currentPage == page && 1 <= currentPage <= PageCount()
    {
      currentPage := page;
    }
  }
}
