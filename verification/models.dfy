/** The database records of the server (server/app/models.py), their column
    defaults, and the comment category enumeration. Timestamps are integers
    (milliseconds) supplied by the caller; `updated_at` is not modelled. */
module Models {
  import opened Common

  /** `CommentCategoryEnum`: the only categories a stored comment can carry. */
  datatype CommentCategory = LostItem | FoundItem | ShareItem

  /** The string value of an enum member (`CommentCategoryEnum.X.value`). */
  function CategoryValue(c: CommentCategory): string {
    match c
    case LostItem => "lost_item"
    case FoundItem => "found_item"
    case ShareItem => "share_item"
  }

  /** `CommentCategoryEnum(s)`: look an enum member up by value; `None` stands for the
      `ValueError` raised for every other string (and for a missing value). */
  function ParseCategory(s: Option<string>): (r: Option<CommentCategory>)
    ensures r.Some? <==> s.Some? && s.value in {"lost_item", "found_item", "share_item"}
    ensures r.Some? ==> CategoryValue(r.value) == s.value
    ensures forall c :: s == Some(CategoryValue(c)) ==> r == Some(c)
  {
    match s
    case Some("lost_item") => Some(LostItem)
    case Some("found_item") => Some(FoundItem)
    case Some("share_item") => Some(ShareItem)
    case _ => None
  }

  /** A registered account. `user_id` is the primary key chosen by the member. */
  datatype User = User(
    user_id: string,
    user_password: string,
    user_name: string,
    admission_year: int,
    grade: int,
    class_num: int,
    student_num: int,
    phone_number: string,
    is_admin: bool,
    is_confirmed: bool)

  /** Column defaults of `User`. */
  const DefaultIsAdmin: bool := false
  const DefaultIsConfirmed: bool := false

  /** `LostItemPost`; `image_urls` is the comma-joined URL text or NULL. */
  datatype LostItemPost = LostItemPost(
    lost_item_post_id: int,
    lost_item_post_name: string,
    author_id: string,
    created_at: int,
    lost_item_name: string,
    lost_location: string,
    lost_time: string,
    content: string,
    image_urls: Option<string>,
    status: bool,
    views: int)

  /** Column defaults of `LostItemPost`. */
  const LostDefaultStatus: bool := true
  const LostDefaultViews: int := 0

  /** `FoundItemPost`; `image_urls` is stored as the client sent it. */
  datatype FoundItemPost = FoundItemPost(
    found_item_post_id: int,
    found_item_post_name: string,
    author_id: string,
    created_at: int,
    found_item_name: string,
    found_location: string,
    found_time: string,
    content: string,
    image_urls: Option<string>,
    resolved: bool,
    status: bool,
    views: int)

  /** Column defaults of `FoundItemPost`. */
  const FoundDefaultResolved: bool := false
  const FoundDefaultStatus: bool := true
  const FoundDefaultViews: int := 0

  /** `ShareItemPost`. */
  datatype ShareItemPost = ShareItemPost(
    share_item_post_id: int,
    share_item_post_name: string,
    author_id: string,
    created_at: int,
    content: string,
    image_urls: Option<string>,
    status: bool,
    views: int)

  /** Column defaults of `ShareItemPost` (the create route overrides the status default). */
  const ShareDefaultStatus: bool := false
  const ShareDefaultViews: int := 0

  /** A notice. The notice routes import a `NoticePost` class that models.py does not
      define; its columns here are the ones the routes read and write. Title and
      content are stored as the form gave them, so they may be NULL. */
  datatype NoticePost = NoticePost(
    notice_post_id: int,
    notice_post_name: Option<string>,
    author_id: string,
    created_at: int,
    content: Option<string>,
    image_urls: Option<string>,
    views: int)

  const NoticeDefaultViews: int := 0

  /** A stored comment. `parent_comment_id` is NULL for a top-level comment and
      otherwise names another comment's `comment_id`. */
  datatype Comment = Comment(
    comment_id: int,
    category: CommentCategory,
    author_id: string,
    post_id: int,
    created_at: Option<int>,
    content: string,
    parent_comment_id: Option<int>)

  /** Primary-key integrity of a table keyed by an autoincrement id: every row sits
      under its own id, and every id is below the next one to be handed out. */
  ghost predicate KeyedBelow<T>(rows: map<int, T>, idOf: T -> int, nextId: int) {
    forall k :: k in rows ==> idOf(rows[k]) == k && k < nextId
  }

  /** The phone-number UNIQUE constraint of the user table. */
  ghost predicate PhonesUnique(users: map<string, User>) {
    forall a, b :: a in users && b in users && a != b ==>
      users[a].phone_number != users[b].phone_number
  }

  /** Primary-key integrity of the user table. */
  ghost predicate UsersKeyed(users: map<string, User>) {
    forall k :: k in users ==> users[k].user_id == k
  }

  /** The stored notice comment category "notice" used by the notice page is not an
      enum value, so a comment with it cannot be created. */
  lemma NoticeIsNotACategory()
    ensures ParseCategory(Some("notice")) == None
  {
  }
}
