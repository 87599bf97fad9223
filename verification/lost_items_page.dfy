/** The lost-item feed page (client/src/pages/LostItemsPage.js): title shortening,
    relative post times, the per-post comment counts, paging and search, the register
    form and the buttons each user is shown. Network calls are parameters: a response
    is `None` when the request failed. */
module LostItemsPage {
  import opened Common
  import LostItemRoutes
  import CommentRoutes

  /** Titles longer than this are cut on the cards. */
  const TitleLimit: nat := 13

  /** `shortenTitle`: a long title keeps its first 13 characters and gains "...". */
  function ShortenTitle(title: string): (r: string)
    ensures |r| <= TitleLimit + 3
    ensures |title| <= TitleLimit ==> r == title
    ensures |title| > TitleLimit ==> |r| == TitleLimit + 3 && r[..TitleLimit] == title[..TitleLimit] && r[TitleLimit..] == "..."
  {
    if |title| > TitleLimit then title[..TitleLimit] + "..." else title
  }

  /** Shortening a shortened title changes nothing. */
  lemma ShortenTitleIdempotent(title: string)
    ensures ShortenTitle(ShortenTitle(title)) == ShortenTitle(title)
  {
    if |title| > TitleLimit {
      var r := ShortenTitle(title);
      assert r[..TitleLimit] + "..." == r;
    }
  }

  /** The unit `formatRelativeTime` settles on, with the number shown. */
  datatype Elapsed = MinutesAgo(n: int) | HoursAgo(n: int) | DaysAgo(n: int) | MonthsAgo(n: int)

  /** `formatRelativeTime` for `diffMs` milliseconds since the post: whole minutes
      below an hour, whole hours below a day, whole days below 30, then 30-day
      months. Each step floors the previous count, as `Math.floor` does. */
  function RelativeTime(diffMs: int): (e: Elapsed)
    ensures e.MinutesAgo? <==> diffMs / 60000 < 60
    ensures e.MinutesAgo? ==> e.n == diffMs / 60000
    ensures e.HoursAgo? ==> 1 <= e.n < 24
    ensures e.DaysAgo? ==> 1 <= e.n < 30
    ensures e.MonthsAgo? ==> 1 <= e.n
  {
    var mins := diffMs / 60000;
    if mins < 60 then MinutesAgo(mins)
    else
      var hours := mins / 60;
      if hours < 24 then HoursAgo(hours)
      else
        var days := hours / 24;
        if days < 30 then DaysAgo(days) else MonthsAgo(days / 30)
  }

  /** The text shown on a card. */
  function RelativeTimeText(diffMs: int): string {
    match RelativeTime(diffMs)
    case MinutesAgo(n) => IntToString(n) + "분전"
    case HoursAgo(n) => IntToString(n) + "시간전"
    case DaysAgo(n) => IntToString(n) + "일전"
    case MonthsAgo(n) => IntToString(n) + "달전"
  }

  function UnitRank(e: Elapsed): nat {
    match e
    case MinutesAgo(_) => 0
    case HoursAgo(_) => 1
    case DaysAgo(_) => 2
    case MonthsAgo(_) => 3
  }

  /** The shown hours, days and months are the elapsed time floored by the whole
      unit: an hour is 3 600 000 ms, a day 86 400 000 ms, a month 30 days. */
  lemma RelativeTimeUnits(diffMs: int)
    ensures RelativeTime(diffMs).HoursAgo? ==> RelativeTime(diffMs).n == diffMs / 3600000
    ensures RelativeTime(diffMs).DaysAgo? ==> RelativeTime(diffMs).n == diffMs / 86400000
    ensures RelativeTime(diffMs).MonthsAgo? ==> RelativeTime(diffMs).n == diffMs / 2592000000
  {
  }

  /** An older post never shows a smaller unit than a newer one. */
  lemma RelativeTimeMonotone(d1: int, d2: int)
    requires d1 <= d2
    ensures UnitRank(RelativeTime(d1)) <= UnitRank(RelativeTime(d2))
  {
  }

  /** A post dated in the future shows a negative number of minutes. */
  lemma FutureShowsNegativeMinutes(diffMs: int)
    requires diffMs < 0
    ensures RelativeTime(diffMs).MinutesAgo? && RelativeTime(diffMs).n < 0
  {
  }

  /** The number of lost-item comments whose post id is written `key`, the key a
      JavaScript object stores `counts[post_id]` under. */
  function CountFor(comments: seq<CommentRoutes.CommentView>, key: string): nat {
    if comments == [] then 0
    else
      var c := comments[|comments| - 1];
      CountFor(comments[..|comments| - 1], key)
        + (if c.category == "lost_item" && IntToString(c.post_id) == key then 1 else 0)
  }

  /** The number of lost-item comments on post `postId`. */
  function CommentsOn(comments: seq<CommentRoutes.CommentView>, postId: int): nat {
    if comments == [] then 0
    else
      var c := comments[|comments| - 1];
      CommentsOn(comments[..|comments| - 1], postId)
        + (if c.category == "lost_item" && c.post_id == postId then 1 else 0)
  }

  /** Counting under the decimal key counts the comments of exactly that post. */
  lemma {:induction false} CountForPost(comments: seq<CommentRoutes.CommentView>, postId: int)
    ensures CountFor(comments, IntToString(postId)) == CommentsOn(comments, postId)
    decreases |comments|
  {
    if comments != [] {
      var c := comments[|comments| - 1];
      CountForPost(comments[..|comments| - 1], postId);
      if IntToString(c.post_id) == IntToString(postId) {
        IntToStringInjective(c.post_id, postId);
      }
    }
  }

  /** `fetchCommentCounts`' loop over GET /comments/: a key is present exactly for
      the posts that have at least one lost-item comment, and holds their number. */
  method CountComments(comments: seq<CommentRoutes.CommentView>) returns (counts: map<string, nat>)
    ensures forall key :: key in counts <==> CountFor(comments, key) > 0
    ensures forall key :: key in counts ==> counts[key] == CountFor(comments, key)
  {
    counts := map[];
    var i := 0;
    while i < |comments|
      invariant 0 <= i <= |comments|
      invariant forall key :: key in counts <==> CountFor(comments[..i], key) > 0
      invariant forall key :: key in counts ==> counts[key] == CountFor(comments[..i], key)
    {
      var c := comments[i];
      assert comments[..i + 1][..i] == comments[..i];
      if c.category == "lost_item" {
        var key := IntToString(c.post_id);
        var old_count := if key in counts then counts[key] else 0;
        counts := counts[key := old_count + 1];
      }
      i := i + 1;
    }
    assert comments[..i] == comments;
  }

  /** `commentCounts[id] || 0`: the count shown on a card. */
  function ShownCount(counts: map<string, nat>, postId: int): nat {
    var key := IntToString(postId);
    if key in counts then counts[key] else 0
  }

  /** Every card shows the number of lost-item comments on its own post; a post
      without one shows 0. */
  lemma ShownCountIsCommentsOn(comments: seq<CommentRoutes.CommentView>, counts: map<string, nat>, postId: int)
    requires forall key :: key in counts <==> CountFor(comments, key) > 0
    requires forall key :: key in counts ==> counts[key] == CountFor(comments, key)
    ensures ShownCount(counts, postId) == CommentsOn(comments, postId)
  {
    CountForPost(comments, postId);
  }

  /** The fields of the register form, all text. */
  datatype RegisterForm = RegisterForm(
    lost_item_post_name: string,
    lost_item_name: string,
    lost_location: string,
    lost_time: string,
    content: string,
    status: bool)

  const InitialForm: RegisterForm := RegisterForm("", "", "", "", "", false)

  /** The `name` attribute of the input a change event comes from. */
  datatype FormField = PostName | ItemName | Location | Time | Content

  function WithField(form: RegisterForm, field: FormField, value: string): (r: RegisterForm)
    ensures r.status == form.status
    ensures field == PostName ==> r == form.(lost_item_post_name := value)
    ensures field == ItemName ==> r == form.(lost_item_name := value)
    ensures field == Location ==> r == form.(lost_location := value)
    ensures field == Time ==> r == form.(lost_time := value)
    ensures field == Content ==> r == form.(content := value)
  {
    match field
    case PostName => form.(lost_item_post_name := value)
    case ItemName => form.(lost_item_name := value)
    case Location => form.(lost_location := value)
    case Time => form.(lost_time := value)
    case Content => form.(content := value)
  }

  /** The multipart request the register form posts to /lost-items/: the author,
      every form field, then the chosen images in order. */
  datatype RegisterRequest = RegisterRequest(author_id: string, form: RegisterForm, images: seq<string>)

  /** The card's delete button: only for the post's author. */
  predicate ShowsCardDelete(user: Option<SessionUser>, item: LostItemRoutes.LostItemView) {
    user.Some? && user.value.user_id == item.author_id
  }

  /** The detail view's action buttons: for an administrator or the author. */
  predicate ShowsDetailActions(user: Option<SessionUser>, item: LostItemRoutes.LostItemView) {
    user.Some? && (user.value.is_admin || user.value.user_id == item.author_id)
  }

  /** The "찾기 완료" button: an action button, and only while the item is unresolved. */
  predicate ShowsMarkFound(user: Option<SessionUser>, item: LostItemRoutes.LostItemView) {
    ShowsDetailActions(user, item) && !item.status
  }

  /** Whoever may delete from the card may also act in the detail view; an
      administrator who is not the author sees the detail actions but not the card's
      delete button. */
  lemma CardDeleteWithinDetailActions(user: Option<SessionUser>, item: LostItemRoutes.LostItemView)
    ensures ShowsCardDelete(user, item) ==> ShowsDetailActions(user, item)
    ensures user.Some? && user.value.is_admin && user.value.user_id != item.author_id ==>
      ShowsDetailActions(user, item) && !ShowsCardDelete(user, item)
    ensures ShowsMarkFound(user, item) ==> !item.status
  {
  }

  /** The page's state. */
  class FeedPage {
    var items: seq<LostItemRoutes.LostItemView>
    var commentCounts: map<string, nat>
    var currentPage: int
    var totalPages: int
    var searchTerm: string
    var registerForm: RegisterForm
    var imageFiles: seq<string>
    var showRegisterModal: bool
    var showDetailModal: bool
    var selected: Option<LostItemRoutes.LostItemView>

    constructor ()
      ensures items == [] && commentCounts == map[] && currentPage == 1 && totalPages == 1
      ensures searchTerm == "" && registerForm == InitialForm && imageFiles == []
      ensures !showRegisterModal && !showDetailModal && selected == None
    {
      items := [];
      commentCounts := map[];
      currentPage := 1;
      totalPages := 1;
      searchTerm := "";
      registerForm := InitialForm;
      imageFiles := [];
      showRegisterModal := false;
      showDetailModal := false;
      selected := None;
    }

    /** `fetchLostItems`: a response replaces the list and the page count. */
    method FetchLostItems(response: Option<(seq<LostItemRoutes.LostItemView>, int)>)
      modifies this
      ensures response.None? ==> items == old(items) && totalPages == old(totalPages)
      ensures response.Some? ==> items == response.value.0 && totalPages == response.value.1
      ensures currentPage == old(currentPage) && commentCounts == old(commentCounts)
      ensures registerForm == old(registerForm) && selected == old(selected)
    {
      if response.Some? {
        items := response.value.0;
        totalPages := response.value.1;
      }
    }

    /** `fetchCommentCounts`: a response replaces the counts by the ones of the
        fetched comments; a failed request keeps the old ones. */
    method FetchCommentCounts(response: Option<seq<CommentRoutes.CommentView>>)
      modifies this
      ensures response.None? ==> commentCounts == old(commentCounts)
      ensures response.Some? ==>
        && (forall key :: key in commentCounts <==> CountFor(response.value, key) > 0)
        && (forall key :: key in commentCounts ==> commentCounts[key] == CountFor(response.value, key))
      ensures items == old(items) && currentPage == old(currentPage) && totalPages == old(totalPages)
    {
      if response.Some? {
        commentCounts := CountComments(response.value);
      }
    }

    /** `handlePageChange`: only a page between 1 and the page count is taken, so a
        valid current page stays valid. */
    method PageChange(newPage: int)
      modifies this
      ensures 1 <= newPage <= totalPages ==> currentPage == newPage
      ensures !(1 <= newPage <= totalPages) ==> currentPage == old(currentPage)
      ensures 1 <= old(currentPage) <= totalPages ==> 1 <= currentPage <= totalPages
      ensures totalPages == old(totalPages) && searchTerm == old(searchTerm) && items == old(items)
    {
      if 1 <= newPage <= totalPages {
        currentPage := newPage;
      }
    }

    /** Typing in the search box. */
    method TypeSearch(term: string)
      modifies this
      ensures searchTerm == term && currentPage == old(currentPage) && totalPages == old(totalPages)
    {
      searchTerm := term;
    }

    /** `handleSearch`: back to the first page (the list is then fetched again). */
    method Search()
      modifies this
      ensures currentPage == 1 && searchTerm == old(searchTerm) && totalPages == old(totalPages)
    {
      currentPage := 1;
    }

    /** `handleRegisterChange`: one field takes the typed value. */
    method ChangeField(field: FormField, value: string)
      modifies this
      ensures registerForm == WithField(old(registerForm), field, value)
      ensures imageFiles == old(imageFiles) && showRegisterModal == old(showRegisterModal)
    {
      registerForm := WithField(registerForm, field, value);
    }

    /** `handleImageChange`: the chosen files replace the previous choice. */
    method ChooseImages(files: seq<string>)
      modifies this
      ensures imageFiles == files && registerForm == old(registerForm)
    {
      imageFiles := files;
    }

    /** `handleRegisterSubmit`: without a logged-in user (or one with an empty id)
        nothing is sent and nothing changes. Otherwise the request carries the user as
        author, the form and the images; when it succeeds the modal closes, the form
        returns to its initial values and the image list is emptied. */
    method SubmitRegister(user: Option<SessionUser>, succeeded: bool) returns (request: Option<RegisterRequest>)
      modifies this
      ensures (user.None? || user.value.user_id == "") ==>
        && request == None
        && registerForm == old(registerForm) && imageFiles == old(imageFiles)
        && showRegisterModal == old(showRegisterModal)
      ensures user.Some? && user.value.user_id != "" ==>
        request == Some(RegisterRequest(user.value.user_id, old(registerForm), old(imageFiles)))
      ensures user.Some? && user.value.user_id != "" && succeeded ==>
        registerForm == InitialForm && imageFiles == [] && !showRegisterModal
      ensures !succeeded ==>
        && registerForm == old(registerForm) && imageFiles == old(imageFiles)
        && showRegisterModal == old(showRegisterModal)
      ensures items == old(items) && currentPage == old(currentPage) && selected == old(selected)
    {
      if user.None? || user.value.user_id == "" {
        return None;
      }
      request := Some(RegisterRequest(user.value.user_id, registerForm, imageFiles));
      if succeeded {
        showRegisterModal := false;
        registerForm := InitialForm;
        imageFiles := [];
      }
    }

    /** `handleItemClick`: the fetched detail (whose view count the server has just
        raised) is shown. */
    method ItemClick(response: Option<LostItemRoutes.LostItemView>)
      modifies this
      ensures response.Some? ==> selected == response && showDetailModal
      ensures response.None? ==> selected == old(selected) && showDetailModal == old(showDetailModal)
      ensures items == old(items) && registerForm == old(registerForm)
    {
      if response.Some? {
        selected := response;
        showDetailModal := true;
      }
    }

    /** `handleDeletePost`: nothing is sent unless the user confirms; a successful
        delete closes the detail view (the list is then fetched again). */
    method DeletePost(postId: int, confirmed: bool, deleted: bool) returns (request: Option<int>)
      modifies this
      ensures !confirmed ==> request == None && showDetailModal == old(showDetailModal)
      ensures confirmed ==> request == Some(postId)
      ensures confirmed && deleted ==> !showDetailModal
      ensures !deleted ==> showDetailModal == old(showDetailModal)
      ensures items == old(items) && selected == old(selected)
    {
      if !confirmed {
        return None;
      }
      request := Some(postId);
      if deleted {
        showDetailModal := false;
      }
    }

    /** `handleMarkAsFound`: after confirmation a status update is requested; only
        when it succeeds does the shown item become resolved. */
    method MarkAsFound(postId: int, confirmed: bool, updated: bool) returns (request: Option<int>)
      modifies this
      ensures !confirmed ==> request == None && selected == old(selected)
      ensures confirmed ==> request == Some(postId)
      ensures confirmed && updated && old(selected).Some? ==> selected == Some(old(selected).value.(status := true))
      ensures !(confirmed && updated) ==> selected == old(selected)
      ensures selected.Some? <==> old(selected).Some?
      ensures items == old(items) && showDetailModal == old(showDetailModal)
    {
      if !confirmed {
        return None;
      }
      request := Some(postId);
      if updated && selected.Some? {
        selected := Some(selected.value.(status := true));
      }
    }
  }
}
