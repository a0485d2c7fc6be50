// The accounts page: the list of user accounts, six to a page, with Previous,
// Next and numbered page buttons, and the add/edit form that resets on success.

module AccountsPage {
  import opened Wrappers
  import opened Pagination
  import opened Profiles

  /** Accounts shown per page. */
  const UsersPerPage: nat := 6

  /** The account form: `first_name`, `last_name`, `email`, `role`. */
  datatype AccountForm = AccountForm(firstName: string, lastName: string, email: string, role: string)

  /** The form after a reset: empty fields and the role "admin". */
  const EmptyAccountForm: AccountForm := AccountForm("", "", "", AdminRole)

  /** The form `openEditModal` fills in from an account: a copy of its four fields. */
  function EditForm(u: UserProfile): (f: AccountForm)
    ensures f.firstName == u.firstName && f.lastName == u.lastName
    ensures f.email == u.email && f.role == u.role
  {
    AccountForm(u.firstName, u.lastName, u.email, u.role)
  }

  /** The page's state: the accounts, the three modals, the form, the account
      being edited or deleted and the page number. */
  class AccountsScreen {
    var users: seq<UserProfile>
    var isAddModalOpen: bool
    var isEditModalOpen: bool
    var isDeleteModalOpen: bool
    var formData: AccountForm
    var currentUserId: Option<nat>
    var currentPage: int

    /** The page number is never negative; it is 0 after Next on an empty list. */
    ghost predicate Valid()
      reads this
    {
      currentPage >= 0
    }

    /** The initial state of the component. */
    constructor ()
      ensures Valid()
      ensures users == [] && !isAddModalOpen && !isEditModalOpen && !isDeleteModalOpen
      ensures formData == EmptyAccountForm && currentUserId == None && currentPage == 1
    {
      users := [];
      isAddModalOpen, isEditModalOpen, isDeleteModalOpen := false, false, false;
      formData := EmptyAccountForm;
      currentUserId := None;
      currentPage := 1;
    }

    /** `fetchUsers`: a failed fetch leaves the list as it was. */
    method UsersFetched(response: Option<seq<UserProfile>>)
      requires Valid()
      modifies this`users
      ensures Valid()
      ensures users == if response.Some? then response.value else old(users)
    {
      if response.Some? {
        users := response.value;
      }
    }

    /** The "+ Add User" button. */
    method OpenAddModal()
      requires Valid()
      modifies this`isAddModalOpen
      ensures Valid() && isAddModalOpen
    {
      isAddModalOpen := true;
    }

    /** `handleAddUser`: posts the form (`sent`); on success (`ok`) closes the
        modal and resets the form, otherwise nothing changes. */
    method HandleAddUser(ok: bool) returns (sent: AccountForm)
      requires Valid()
      modifies this`isAddModalOpen, this`formData
      ensures Valid()
      ensures sent == old(formData)
      ensures ok ==> !isAddModalOpen && formData == EmptyAccountForm
      ensures !ok ==> isAddModalOpen == old(isAddModalOpen) && formData == old(formData)
    {
      sent := formData;
      if ok {
        isAddModalOpen := false;
        formData := EmptyAccountForm;
      }
    }

    /** `openEditModal`: remembers the account, copies it into the form and opens the modal. */
    method OpenEditModal(u: UserProfile)
      requires Valid()
      modifies this`currentUserId, this`formData, this`isEditModalOpen
      ensures Valid()
      ensures currentUserId == Some(u.id) && formData == EditForm(u) && isEditModalOpen
    {
      currentUserId := Some(u.id);
      formData := EditForm(u);
      isEditModalOpen := true;
    }

    /** `handleEditUser`: patches the remembered account (`target`) with the form
        (`sent`); on success closes the modal and resets the form. */
    method HandleEditUser(ok: bool) returns (target: Option<nat>, sent: AccountForm)
      requires Valid()
      modifies this`isEditModalOpen, this`formData
      ensures Valid()
      ensures target == old(currentUserId) && sent == old(formData)
      ensures ok ==> !isEditModalOpen && formData == EmptyAccountForm
      ensures !ok ==> isEditModalOpen == old(isEditModalOpen) && formData == old(formData)
    {
      target, sent := currentUserId, formData;
      if ok {
        isEditModalOpen := false;
        formData := EmptyAccountForm;
      }
    }

    /** `openDeleteModal`. */
    method OpenDeleteModal(id: nat)
      requires Valid()
      modifies this`currentUserId, this`isDeleteModalOpen
      ensures Valid()
      ensures currentUserId == Some(id) && isDeleteModalOpen
    {
      currentUserId := Some(id);
      isDeleteModalOpen := true;
    }

    /** `handleDeleteUser`: deletes the remembered account (`target`); on
        success the modal closes. */
    method HandleDeleteUser(ok: bool) returns (target: Option<nat>)
      requires Valid()
      modifies this`isDeleteModalOpen
      ensures Valid()
      ensures target == currentUserId
      ensures isDeleteModalOpen == (old(isDeleteModalOpen) && !ok)
    {
      target := currentUserId;
      if ok {
        isDeleteModalOpen := false;
      }
    }

    /** The accounts on the current page. */
    function CurrentUsers(): seq<UserProfile>
      reads this
    {
      PageWindow(users, currentPage, UsersPerPage)
    }

    function PageCount(): nat
      reads this
    {
      TotalPages(|users|, UsersPerPage)
    }

    /** The numbered page buttons. */
    function PageButtons(): seq<nat>
      reads this
    {
      PageNumbers(PageCount())
    }

    /** A page of 1 or more is the clipped window of at most six accounts; page 0
        shows none. */
    lemma CurrentUsersWindow()
      requires Valid()
      ensures |CurrentUsers()| <= UsersPerPage
      ensures currentPage >= 1 ==> CurrentUsers() == users[Min((currentPage - 1) * UsersPerPage, |users|)
                                                        ..Min(currentPage * UsersPerPage, |users|)]
      ensures currentPage == 0 ==> CurrentUsers() == []
    {
      if currentPage >= 1 {
        PageWindowIsClippedSlice(users, currentPage, UsersPerPage);
      } else {
        PageZeroIsEmpty(users, UsersPerPage);
      }
    }

    /** Pages 1 to the page count, one after the other, show every account once, in order. */
    lemma PagesShowEveryUser()
      ensures Pages(users, UsersPerPage, PageCount()) == users
    {
      PagesCoverList(users, UsersPerPage);
    }

    /** Previous: disabled on page 1, otherwise `Math.max(p - 1, 1)`; either way
        the page becomes the clamped step. */
    method Previous()
      requires Valid()
      modifies this`currentPage
      ensures Valid()
      ensures currentPage == ClampedPrev(old(currentPage))
      ensures currentPage >= 1
    {
      if currentPage != 1 {
        currentPage := Max(currentPage - 1, 1);
      }
    }

    /** Next: disabled on the last page, otherwise `Math.min(p + 1, totalPages)`;
        either way the page becomes the clamped step, which is 0 when there are
        no accounts. */
    method Next()
      requires Valid()
      modifies this`currentPage
      ensures Valid()
      ensures currentPage == ClampedNext(old(currentPage), PageCount())
      ensures users == [] ==> currentPage == 0
      ensures currentPage <= PageCount()
    {
      if currentPage != PageCount() {
        currentPage := Min(currentPage + 1, PageCount());
      }
    }

    /** A numbered page button. */
    method GoToPage(page: nat)
      requires Valid()
      requires page in PageButtons()
      modifies this`currentPage
      ensures Valid()
      ensures currentPage == page && 1 <= currentPage <= PageCount()
    {
      currentPage := page;
    }
  }
}
