// The notice board: the notices, five to a page, with Previous/Next shown only
// when there is more than one page, and the add/edit form that resets on success.

module NoticesPage {
  import opened Wrappers
  import opened Pagination
  import opened DashboardPage

  /** Notices shown per page. */
  const NoticesPerPage: nat := 5

  /** The notice form: `title` and `message`. */
  datatype NoticeForm = NoticeForm(title: string, message: string)

  /** The form after a reset: an empty title and message. */
  const EmptyNoticeForm: NoticeForm := NoticeForm("", "")

  /** The form `openEditModal` fills in from a notice: its title and message. */
  function EditForm(n: Notice): (f: NoticeForm)
    ensures f.title == n.title && f.message == n.message
  {
    NoticeForm(n.title, n.message)
  }

  /** The page's state: the notices, the three modals, the form, the notice being
      edited or deleted and the page number. */
  class NoticeBoard {
    var notices: seq<Notice>
    var isAddModalOpen: bool
    var isEditModalOpen: bool
    var isDeleteModalOpen: bool
    var formData: NoticeForm
    var currentNoticeId: Option<nat>
    var currentPage: int

    /** The page number never drops below 1. */
    ghost predicate Valid()
      reads this
    {
      currentPage >= 1
    }

    /** The initial state of the component. */
    constructor ()
      ensures Valid()
      ensures notices == [] && !isAddModalOpen && !isEditModalOpen && !isDeleteModalOpen
      ensures formData == EmptyNoticeForm && currentNoticeId == None && currentPage == 1
    {
      notices := [];
      isAddModalOpen, isEditModalOpen, isDeleteModalOpen := false, false, false;
      formData := EmptyNoticeForm;
      currentNoticeId := None;
      currentPage := 1;
    }

    /** `fetchNotices`: a failed fetch leaves the list as it was. */
    method NoticesFetched(response: Option<seq<Notice>>)
      requires Valid()
      modifies this`notices
      ensures Valid()
      ensures notices == if response.Some? then response.value else old(notices)
    {
      if response.Some? {
        notices := response.value;
      }
    }

    /** The "+ Add Notice" button. */
    method OpenAddModal()
      requires Valid()
      modifies this`isAddModalOpen
      ensures Valid() && isAddModalOpen
    {
      isAddModalOpen := true;
    }

    /** `handleAddNotice`: posts the form (`sent`); on success (`ok`) resets the
        form and closes the modal, otherwise nothing changes. */
    method HandleAddNotice(ok: bool) returns (sent: NoticeForm)
      requires Valid()
      modifies this`isAddModalOpen, this`formData
      ensures Valid()
      ensures sent == old(formData)
      ensures ok ==> !isAddModalOpen && formData == EmptyNoticeForm
      ensures !ok ==> isAddModalOpen == old(isAddModalOpen) && formData == old(formData)
    {
      sent := formData;
      if ok {
        formData := EmptyNoticeForm;
        isAddModalOpen := false;
      }
    }

    /** `openEditModal`: remembers the notice, copies it into the form and opens the modal. */
    method OpenEditModal(n: Notice)
      requires Valid()
      modifies this`currentNoticeId, this`formData, this`isEditModalOpen
      ensures Valid()
      ensures currentNoticeId == Some(n.id) && formData == EditForm(n) && isEditModalOpen
    {
      currentNoticeId := Some(n.id);
      formData := EditForm(n);
      isEditModalOpen := true;
    }

    /** `handleEditNotice`: patches the remembered notice (`target`) with the
        form (`sent`); on success closes the modal and resets the form. */
    method HandleEditNotice(ok: bool) returns (target: Option<nat>, sent: NoticeForm)
      requires Valid()
      modifies this`isEditModalOpen, this`formData
      ensures Valid()
      ensures target == old(currentNoticeId) && sent == old(formData)
      ensures ok ==> !isEditModalOpen && formData == EmptyNoticeForm
      ensures !ok ==> isEditModalOpen == old(isEditModalOpen) && formData == old(formData)
    {
      target, sent := currentNoticeId, formData;
      if ok {
        isEditModalOpen := false;
        formData := EmptyNoticeForm;
      }
    }

    /** `openDeleteModal`. */
    method OpenDeleteModal(id: nat)
      requires Valid()
      modifies this`currentNoticeId, this`isDeleteModalOpen
      ensures Valid()
      ensures currentNoticeId == Some(id) && isDeleteModalOpen
    {
      currentNoticeId := Some(id);
      isDeleteModalOpen := true;
    }

    /** `handleDeleteNotice`: deletes the remembered notice (`target`); on
        success the modal closes. */
    method HandleDeleteNotice(ok: bool) returns (target: Option<nat>)
      requires Valid()
      modifies this`isDeleteModalOpen
      ensures Valid()
      ensures target == currentNoticeId
      ensures isDeleteModalOpen == (old(isDeleteModalOpen) && !ok)
    {
      target := currentNoticeId;
      if ok {
        isDeleteModalOpen := false;
      }
    }

    /** The notices on the current page. */
    function CurrentNotices(): seq<Notice>
      reads this
    {
      PageWindow(notices, currentPage, NoticesPerPage)
    }

    function PageCount(): nat
      reads this
    {
      TotalPages(|notices|, NoticesPerPage)
    }

    /** Whether the Previous/Next controls are rendered. */
    function ControlsShown(): bool
      reads this
    {
      ShowPagination(PageCount())
    }

    /** The current page is the clipped window of at most five notices. */
    lemma CurrentNoticesWindow()
      requires Valid()
      ensures |CurrentNotices()| <= NoticesPerPage
      ensures CurrentNotices() == notices[Min((currentPage - 1) * NoticesPerPage, |notices|)
                                          ..Min(currentPage * NoticesPerPage, |notices|)]
    {
      PageWindowIsClippedSlice(notices, currentPage, NoticesPerPage);
    }

    /** The page count is the least number of five-notice pages holding every notice. */
    lemma PageCountIsCeiling()
      ensures PageCount() * NoticesPerPage >= |notices|
      ensures PageCount() > 0 ==> (PageCount() - 1) * NoticesPerPage < |notices|
    {
      TotalPagesIsCeiling(|notices|, NoticesPerPage);
    }

    /** The controls are rendered exactly when there are more than five notices. */
    lemma ControlsShownIff()
      ensures ControlsShown() <==> |notices| > NoticesPerPage
    {
      ShowPaginationIff(|notices|, NoticesPerPage);
    }

    /** `prevPage`, rendered only with the controls (and disabled on page 1). */
    method PrevPage()
      requires Valid() && ControlsShown()
      modifies this`currentPage
      ensures Valid()
      ensures currentPage == ClampedPrev(old(currentPage))
    {
      if currentPage != 1 {
        currentPage := Max(currentPage - 1, 1);
      }
    }

    /** `nextPage`, rendered only with the controls (and disabled on the last page). */
    method NextPage()
      requires Valid() && ControlsShown()
      modifies this`currentPage
      ensures Valid()
      ensures currentPage == ClampedNext(old(currentPage), PageCount())
      ensures 1 <= currentPage <= PageCount()
    {
      if currentPage != PageCount() {
        currentPage := Min(currentPage + 1, PageCount());
      }
    }
  }
}
