/** The notice board page (client/src/pages/NoticeBoardPage.js): relative and full
    dates, row numbers across pages, paging and search, and the administrator-only
    register and delete actions. Network calls are parameters: a response is `None`
    when the request failed. The clock and the local time zone are left out: times
    arrive as elapsed milliseconds or as calendar fields. */
module NoticeBoardPage {
  import opened Common
  import opened Models
  import NoticeRoutes
  import LostItemsPage

  /** The bucket `formatRelativeTime` settles on, with the number shown. */
  datatype NoticeAge =
    | Blank
    | JustNow
    | Minutes(n: int)
    | Hours(n: int)
    | Days(n: int)
    | Months(n: int)
    | Years(n: int)

  /** `formatRelativeTime`: no date gives nothing; under a minute (a date in the
      future included) is "just now"; then minutes, hours, days, months below a
      year and years, each the floor of the previous count. */
  function NoticeRelativeTime(diffMs: Option<int>): (a: NoticeAge)
    ensures a.Blank? <==> diffMs.None?
    ensures a.JustNow? <==> diffMs.Some? && diffMs.value / 60000 < 1
    ensures diffMs.Some? && diffMs.value < 0 ==> a.JustNow?
    ensures a.Minutes? ==> 1 <= a.n < 60 && a.n == diffMs.value / 60000
    ensures a.Hours? ==> 1 <= a.n < 24
    ensures a.Days? ==> 1 <= a.n < 30
    ensures a.Months? ==> 1 <= a.n < 12
    ensures a.Years? ==> 1 <= a.n
  {
    if diffMs.None? then Blank
    else
      var mins := diffMs.value / 60000;
      if mins < 1 then JustNow
      else if mins < 60 then Minutes(mins)
      else
        var hours := mins / 60;
        if hours < 24 then Hours(hours)
        else
          var days := hours / 24;
          if days < 30 then Days(days)
          else
            var months := days / 30;
            if months < 12 then Months(months) else Years(months / 12)
  }

  function NoticeAgeText(a: NoticeAge): string {
    match a
    case Blank => ""
    case JustNow => "방금 전"
    case Minutes(n) => IntToString(n) + "분 전"
    case Hours(n) => IntToString(n) + "시간 전"
    case Days(n) => IntToString(n) + "일 전"
    case Months(n) => IntToString(n) + "개월 전"
    case Years(n) => IntToString(n) + "년 전"
  }

  /** From one minute up to a year, the notice board counts exactly as the lost-item
      feed does; below a minute it says "just now" where the feed shows 0 (or a
      negative) minutes, and from twelve months on it counts years. */
  lemma AgreesWithFeed(diffMs: int)
    ensures diffMs / 60000 >= 1 ==>
      match LostItemsPage.RelativeTime(diffMs)
      case MinutesAgo(n) => NoticeRelativeTime(Some(diffMs)) == Minutes(n)
      case HoursAgo(n) => NoticeRelativeTime(Some(diffMs)) == Hours(n)
      case DaysAgo(n) => NoticeRelativeTime(Some(diffMs)) == Days(n)
      case MonthsAgo(n) =>
        if n < 12 then NoticeRelativeTime(Some(diffMs)) == Months(n)
        else NoticeRelativeTime(Some(diffMs)) == Years(n / 12)
    ensures diffMs / 60000 < 1 ==>
      NoticeRelativeTime(Some(diffMs)) == JustNow && LostItemsPage.RelativeTime(diffMs) == LostItemsPage.MinutesAgo(diffMs / 60000)
  {
  }

  /** `String(n).padStart(2, "0")`. */
  function Pad2(n: nat): (s: string)
    ensures AllDigits(s) && |s| >= 2
    ensures n < 100 ==> |s| == 2
    ensures DigitsValue(s) == n
  {
    var t := NatToString(n);
    NatToStringRoundTrip(n);
    if |t| < 2 then
      LeadingZeroValue(t);
      "0" + t
    else t
  }

  /** The calendar fields `formatFullDate` reads from a `Date` in local time;
      `monthIndex` is `getMonth()`, counted from 0. */
  datatype DateFields = DateFields(year: nat, monthIndex: nat, day: nat, hour: nat, minute: nat)

  predicate ValidFields(d: DateFields) {
    d.monthIndex < 12 && 1 <= d.day <= 31 && d.hour < 24 && d.minute < 60
  }

  /** `formatFullDate`: "Y-MM-DD HH:MM", the month counted from 1. */
  function FullDate(d: DateFields): string {
    NatToString(d.year) + "-" + Pad2(d.monthIndex + 1) + "-" + Pad2(d.day) + " "
      + Pad2(d.hour) + ":" + Pad2(d.minute)
  }

  /** The full date has fixed-width fields after the year: reading them back at
      their offsets gives the month (from 1), day, hour and minute. */
  lemma FullDateFields(d: DateFields)
    requires ValidFields(d)
    ensures var s := FullDate(d); var y := |NatToString(d.year)|;
      && |s| == y + 12
      && s[..y] == NatToString(d.year)
      && s[y] == '-' && s[y + 3] == '-' && s[y + 6] == ' ' && s[y + 9] == ':'
      && AllDigits(s[y + 1..y + 3]) && DigitsValue(s[y + 1..y + 3]) == d.monthIndex + 1
      && AllDigits(s[y + 4..y + 6]) && DigitsValue(s[y + 4..y + 6]) == d.day
      && AllDigits(s[y + 7..y + 9]) && DigitsValue(s[y + 7..y + 9]) == d.hour
      && AllDigits(s[y + 10..y + 12]) && DigitsValue(s[y + 10..y + 12]) == d.minute
  {
    var s := FullDate(d);
    var y := |NatToString(d.year)|;
    assert s[y + 1..y + 3] == Pad2(d.monthIndex + 1);
    assert s[y + 4..y + 6] == Pad2(d.day);
    assert s[y + 7..y + 9] == Pad2(d.hour);
    assert s[y + 10..y + 12] == Pad2(d.minute);
  }

  /** Rows shown per page. */
  const ItemsPerPage: int := 10

  /** The number in the first column of row `index` on page `page`. */
  function RowNumber(page: int, index: nat): int {
    (page - 1) * ItemsPerPage + index + 1
  }

  /** A row's number is its position, counted from 1, in the whole matching list
      the server pages through. */
  lemma RowNumberIsPosition<T>(xs: seq<T>, page: int, index: nat)
    requires page >= 1 && index < |NoticeRoutes.PageSlice(xs, page, ItemsPerPage)|
    ensures 1 <= RowNumber(page, index) <= |xs|
    ensures NoticeRoutes.PageSlice(xs, page, ItemsPerPage)[index] == xs[RowNumber(page, index) - 1]
  {
  }

  /** Row numbers are distinct across pages and grow with the page and the row. */
  lemma RowNumbersIncrease(p1: int, i1: nat, p2: int, i2: nat)
    requires i1 < ItemsPerPage && i2 < ItemsPerPage
    requires p1 < p2 || (p1 == p2 && i1 < i2)
    ensures RowNumber(p1, i1) < RowNumber(p2, i2)
  {
  }

  /** The register and delete buttons: administrators only. */
  predicate ShowsAdminButtons(user: Option<SessionUser>) {
    user.Some? && user.value.is_admin
  }

  /** The register form. */
  datatype NoticeRegisterForm = NoticeRegisterForm(notice_post_name: string, content: string)

  const InitialNoticeForm: NoticeRegisterForm := NoticeRegisterForm("", "")

  /** The multipart request the form posts to /notices/. */
  datatype NoticeRequest = NoticeRequest(author_id: string, form: NoticeRegisterForm, images: seq<string>)

  /** DELETE /notices/<id> and its `author_id` query argument. */
  datatype DeleteRequest = DeleteRequest(postId: int, authorArg: Option<string>)

  /** The delete request as the page builds it: no query argument. */
  function DeleteRequestAsWritten(postId: int): (r: DeleteRequest)
    ensures r.postId == postId
  {
    DeleteRequest(postId, None)
  }

  /** The server refuses the page's delete request for every user table: without
      `author_id` no administrator is named, so an existing notice answers 403. */
  lemma AsWrittenDeleteRefused(postId: int, users: map<string, User>)
    ensures !NoticeRoutes.IsAdmin(DeleteRequestAsWritten(postId).authorArg, users)
  {
  }

  /** The delete request naming the logged-in user as `author_id`. */
  function DeleteRequestFor(postId: int, user: SessionUser): (r: DeleteRequest)
    ensures r.postId == postId && r.authorArg == Some(user.user_id)
  {
    DeleteRequest(postId, Some(user.user_id))
  }

  /** With the argument, an administrator who is still stored as one is accepted. */
  lemma DeleteRequestForAdminAccepted(postId: int, user: SessionUser, users: map<string, User>)
    requires user.user_id in users && users[user.user_id].is_admin
    ensures NoticeRoutes.IsAdmin(DeleteRequestFor(postId, user).authorArg, users)
  {
  }

  /** The page's state. */
  class NoticeBoard {
    var notices: seq<NoticeRoutes.NoticeView>
    var currentPage: int
    var totalPages: int
    var searchTerm: string
    var registerForm: NoticeRegisterForm
    var imageFiles: seq<string>
    var showRegisterModal: bool
    var showDetailModal: bool
    var selected: Option<NoticeRoutes.NoticeView>

    constructor ()
      ensures notices == [] && currentPage == 1 && totalPages == 1 && searchTerm == ""
      ensures registerForm == InitialNoticeForm && imageFiles == []
      ensures !showRegisterModal && !showDetailModal && selected == None
    {
      notices := [];
      currentPage := 1;
      totalPages := 1;
      searchTerm := "";
      registerForm := InitialNoticeForm;
      imageFiles := [];
      showRegisterModal := false;
      showDetailModal := false;
      selected := None;
    }

    /** `fetchNotices`: a response replaces the rows and the page count. */
    method FetchNotices(response: Option<NoticeRoutes.NoticePage>)
      modifies this
      ensures response.None? ==> notices == old(notices) && totalPages == old(totalPages)
      ensures response.Some? ==> notices == response.value.notices && totalPages == response.value.total_pages
      ensures currentPage == old(currentPage) && searchTerm == old(searchTerm) && selected == old(selected)
    {
      if response.Some? {
        notices := response.value.notices;
        totalPages := response.value.total_pages;
      }
    }

    /** `handlePageChange`: only a page between 1 and the page count is taken. */
    method PageChange(newPage: int)
      modifies this
      ensures 1 <= newPage <= totalPages ==> currentPage == newPage
      ensures !(1 <= newPage <= totalPages) ==> currentPage == old(currentPage)
      ensures 1 <= old(currentPage) <= totalPages ==> 1 <= currentPage <= totalPages
      ensures totalPages == old(totalPages) && searchTerm == old(searchTerm) && notices == old(notices)
    {
      if 1 <= newPage <= totalPages {
        currentPage := newPage;
      }
    }

    /** Typing in the search box. */
    method TypeSearch(term: string)
      modifies this
      ensures searchTerm == term && currentPage == old(currentPage) && totalPages == old(totalPages)
    {
      searchTerm := term;
    }

    /** `handleSearch`: back to the first page (the list is then fetched again). */
    method Search()
      modifies this
      ensures currentPage == 1 && searchTerm == old(searchTerm) && totalPages == old(totalPages)
    {
      currentPage := 1;
    }

    /** `handleRegisterChange` for the title (`isTitle`) or the content field. */
    method ChangeField(isTitle: bool, value: string)
      modifies this
      ensures isTitle ==> registerForm == old(registerForm).(notice_post_name := value)
      ensures !isTitle ==> registerForm == old(registerForm).(content := value)
      ensures imageFiles == old(imageFiles)
    {
      if isTitle {
        registerForm := registerForm.(notice_post_name := value);
      } else {
        registerForm := registerForm.(content := value);
      }
    }

    /** `handleImageChange`: the chosen files replace the previous choice. */
    method ChooseImages(files: seq<string>)
      modifies this
      ensures imageFiles == files && registerForm == old(registerForm)
    {
      imageFiles := files;
    }

    /** `handleRegisterSubmit`: refused without a logged-in user (or with an empty
        id), then refused for a non-administrator; a refusal sends nothing and
        changes nothing. An administrator's request carries the form and the images;
        on success the modal closes and the form and images are cleared. */
    method SubmitRegister(user: Option<SessionUser>, succeeded: bool) returns (request: Option<NoticeRequest>)
      modifies this
      ensures request.Some? <==> ShowsAdminButtons(user) && user.value.user_id != ""
      ensures request.None? ==>
        && registerForm == old(registerForm) && imageFiles == old(imageFiles)
        && showRegisterModal == old(showRegisterModal)
      ensures request.Some? ==> request.value == NoticeRequest(user.value.user_id, old(registerForm), old(imageFiles))
      ensures request.Some? && succeeded ==> registerForm == InitialNoticeForm && imageFiles == [] && !showRegisterModal
      ensures !succeeded ==>
        && registerForm == old(registerForm) && imageFiles == old(imageFiles)
        && showRegisterModal == old(showRegisterModal)
      ensures notices == old(notices) && currentPage == old(currentPage) && selected == old(selected)
    {
      if user.None? || user.value.user_id == "" {
        return None;
      }
      if !user.value.is_admin {
        return None;
      }
      request := Some(NoticeRequest(user.value.user_id, registerForm, imageFiles));
      if succeeded {
        showRegisterModal := false;
        registerForm := InitialNoticeForm;
        imageFiles := [];
      }
    }

    /** `handleNoticeClick`: the fetched notice is shown. */
    method NoticeClick(response: Option<NoticeRoutes.NoticeView>)
      modifies this
      ensures response.Some? ==> selected == response && showDetailModal
      ensures response.None? ==> selected == old(selected) && showDetailModal == old(showDetailModal)
      ensures notices == old(notices)
    {
      if response.Some? {
        selected := response;
        showDetailModal := true;
      }
    }

    /** `handleDeleteNotice`, with the request naming the user as `author_id` (see
        `DeleteRequestAsWritten` for the request as the page builds it): nothing is
        sent unless the user confirms; a successful delete closes the detail view. */
    method DeleteNotice(user: SessionUser, postId: int, confirmed: bool, deleted: bool)
      returns (request: Option<DeleteRequest>)
      modifies this
      ensures !confirmed ==> request == None && showDetailModal == old(showDetailModal)
      ensures confirmed ==> request == Some(DeleteRequestFor(postId, user))
      ensures confirmed && deleted ==> !showDetailModal
      ensures !deleted ==> showDetailModal == old(showDetailModal)
      ensures notices == old(notices) && selected == old(selected)
    {
      if !confirmed {
        return None;
      }
      request := Some(DeleteRequestFor(postId, user));
      if deleted {
        showDetailModal := false;
      }
    }
  }
}
