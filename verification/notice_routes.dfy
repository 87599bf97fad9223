/** The notice endpoints (server/app/routes/notice_routes.py). Only administrators
    may write notices; the list endpoint filters by a keyword, orders newest first
    and returns one page. The `NoticePost` model is imported by the routes but not
    defined in models.py; its columns here are the ones the routes use. */
module NoticeRoutes {
  import opened Common
  import opened Models
  import opened Uploads
  import opened Ordering

  /** The text fields of the notice forms; `None` is a missing field. */
  datatype NoticeForm = NoticeForm(
    notice_post_name: Option<string>,
    author_id: Option<string>,
    content: Option<string>)

  datatype NoticeView = NoticeView(
    notice_post_id: int,
    notice_post_name: Option<string>,
    author_id: string,
    created_at: int,
    content: Option<string>,
    image_urls: seq<string>,
    views: int)

  /** The body of GET /notices/. */
  datatype NoticePage = NoticePage(
    notices: seq<NoticeView>,
    total_pages: nat,
    current_page: int,
    total_items: nat)

  function ViewOf(n: NoticePost): (v: NoticeView)
    ensures v.notice_post_id == n.notice_post_id && v.image_urls == DecodeUrls(n.image_urls)
  {
    NoticeView(n.notice_post_id, n.notice_post_name, n.author_id, n.created_at, n.content,
               DecodeUrls(n.image_urls), n.views)
  }

  function CreatedAt(n: NoticePost): int {
    n.created_at
  }

  /** `User.query.get(author_id)` finds an administrator. */
  predicate IsAdmin(authorId: Option<string>, users: map<string, User>) {
    authorId.Some? && authorId.value in users && users[authorId.value].is_admin
  }

  // ---------------------------------------------------------------------------
  // Keyword search
  // ---------------------------------------------------------------------------

  /** `column.ilike("%keyword%")`: a NULL column matches nothing. The `%` and `_`
      wildcards inside the keyword itself are not interpreted here. */
  predicate ILikeContains(column: Option<string>, keyword: string) {
    column.Some? && Contains(Lower(column.value), Lower(keyword))
  }

  predicate Matches(n: NoticePost, keyword: string) {
    ILikeContains(n.notice_post_name, keyword) || ILikeContains(n.content, keyword)
  }

  /** `if keyword: query = query.filter(or_(...))`. */
  function FilterByKeyword(ns: seq<NoticePost>, keyword: string): (r: seq<NoticePost>)
    ensures keyword == "" ==> r == ns
    ensures keyword != "" ==> forall n :: n in r <==> n in ns && Matches(n, keyword)
    ensures |r| <= |ns|
  {
    if keyword == "" then ns else KeepMatching(ns, keyword)
  }

  function KeepMatching(ns: seq<NoticePost>, keyword: string): (r: seq<NoticePost>)
    ensures forall n :: n in r <==> n in ns && Matches(n, keyword)
    ensures |r| <= |ns|
  {
    if ns == [] then []
    else (if Matches(ns[0], keyword) then [ns[0]] else []) + KeepMatching(ns[1..], keyword)
  }

  /** The search ignores the keyword's case. */
  lemma KeywordCaseBlind(n: NoticePost, keyword: string)
    ensures Matches(n, keyword) == Matches(n, Lower(keyword))
  {
    LowerIdempotent(keyword);
  }

  /** Every notice matches a keyword taken from its own title, whatever the case. */
  lemma TitleFindsItself(n: NoticePost, keyword: string)
    requires n.notice_post_name.Some? && Contains(n.notice_post_name.value, keyword)
    ensures Matches(n, keyword)
  {
    LowerContains(n.notice_post_name.value, keyword);
  }

  lemma {:induction false} LowerContains(s: string, sub: string)
    requires Contains(s, sub)
    ensures Contains(Lower(s), Lower(sub))
    decreases |s|
  {
    if StartsWith(s, sub) {
      assert Lower(s)[..|sub|] == Lower(sub);
    } else {
      LowerContains(s[1..], sub);
      assert Lower(s)[1..] == Lower(s[1..]);
    }
  }

  // ---------------------------------------------------------------------------
  // Pagination (Flask-SQLAlchemy `paginate(..., error_out=False)`)
  // ---------------------------------------------------------------------------

  /** `request.args.get('page', 1, type=int)`, then `paginate`'s correction of a page
      below 1. `None` is a missing or non-integer argument. */
  function PageArg(page: Option<int>): (p: int)
    ensures p >= 1
    ensures page.Some? && page.value >= 1 ==> p == page.value
  {
    var p := page.GetOr(1);
    if p < 1 then 1 else p
  }

  /** `request.args.get('limit', 10, type=int)`, then `paginate`'s correction of a
      page size below 1 to its default of 20. */
  function LimitArg(limit: Option<int>): (n: int)
    ensures n >= 1
    ensures limit.None? ==> n == 10
    ensures limit.Some? && limit.value >= 1 ==> n == limit.value
    ensures limit.Some? && limit.value < 1 ==> n == 20
  {
    var n := limit.GetOr(10);
    if n < 1 then 20 else n
  }

  /** `pagination.pages`: no pages for no items, otherwise the ceiling of
      items / per page. */
  function TotalPages(total: nat, perPage: int): (pages: nat)
    requires perPage >= 1
    ensures total == 0 <==> pages == 0
    ensures total > 0 ==> (pages - 1) * perPage < total <= pages * perPage
  {
    if total == 0 then 0 else (total + perPage - 1) / perPage
  }

  /** `pagination.items`: the `perPage` items that follow the first
      `(page - 1) * perPage`. */
  function PageSlice<T>(xs: seq<T>, page: int, perPage: int): (r: seq<T>)
    requires page >= 1 && perPage >= 1
    ensures |r| <= perPage
    ensures forall i :: 0 <= i < |r| ==> (page - 1) * perPage + i < |xs| && r[i] == xs[(page - 1) * perPage + i]
    ensures |r| == if |xs| <= (page - 1) * perPage then 0
                   else if |xs| - (page - 1) * perPage < perPage then |xs| - (page - 1) * perPage
                   else perPage
  {
    var start := (page - 1) * perPage;
    if start >= |xs| then []
    else xs[start..if start + perPage < |xs| then start + perPage else |xs|]
  }

  /** Each item is on exactly one page: item `k` is entry `k % perPage` of page
      `k / perPage + 1`, a page that exists. */
  lemma ItemOnItsPage<T>(xs: seq<T>, perPage: int, k: nat)
    requires perPage >= 1 && k < |xs|
    ensures 1 <= k / perPage + 1 <= TotalPages(|xs|, perPage)
    ensures k % perPage < |PageSlice(xs, k / perPage + 1, perPage)|
    ensures PageSlice(xs, k / perPage + 1, perPage)[k % perPage] == xs[k]
  {
    var p := k / perPage;
    assert k == p * perPage + k % perPage;
    var pages := TotalPages(|xs|, perPage);
    if p + 1 > pages {
      MulMonotone(pages, p, perPage);
      assert false;
    }
  }

  lemma MulMonotone(a: int, b: int, c: int)
    requires a <= b && c >= 0
    ensures a * c <= b * c
  {
  }

  /** A page past the last one is empty. */
  lemma PageBeyondIsEmpty<T>(xs: seq<T>, page: int, perPage: int)
    requires page >= 1 && perPage >= 1 && page > TotalPages(|xs|, perPage)
    ensures PageSlice(xs, page, perPage) == []
  {
    var pages := TotalPages(|xs|, perPage);
    if |xs| > 0 {
      MulMonotone(pages, page - 1, perPage);
    }
  }

  /** The notices a query answers with, in order, before paging. */
  function Matching(scan: seq<int>, posts: map<int, NoticePost>, keyword: string): seq<NoticePost>
    requires forall i :: 0 <= i < |scan| ==> scan[i] in posts
  {
    SortNewestFirst(FilterByKeyword(RowsOf(scan, posts), keyword), CreatedAt)
  }

  function Views(ns: seq<NoticePost>): (r: seq<NoticeView>)
    ensures |r| == |ns|
    ensures forall j :: 0 <= j < |ns| ==> r[j] == ViewOf(ns[j])
  {
    if ns == [] then [] else [ViewOf(ns[0])] + Views(ns[1..])
  }

  /** The matching notices are newest first, and are exactly the stored notices
      the keyword selects, each as stored. */
  lemma MatchingCorrect(scan: seq<int>, posts: map<int, NoticePost>, keyword: string)
    requires ScanOrder(scan, posts)
    requires forall k :: k in posts ==> posts[k].notice_post_id == k
    ensures NewestFirst(Matching(scan, posts, keyword), CreatedAt)
    ensures forall k :: k in posts && (keyword == "" || Matches(posts[k], keyword)) ==>
      posts[k] in Matching(scan, posts, keyword)
    ensures forall n :: n in Matching(scan, posts, keyword) ==>
      && (keyword == "" || Matches(n, keyword))
      && n.notice_post_id in posts && posts[n.notice_post_id] == n
  {
    var kept := FilterByKeyword(RowsOf(scan, posts), keyword);
    SortNewestFirstCorrect(kept, CreatedAt);
    KeptRows(scan, posts, keyword);
    var sorted := Matching(scan, posts, keyword);
    forall k | k in posts && (keyword == "" || Matches(posts[k], keyword))
      ensures posts[k] in sorted
    {
      assert posts[k] in multiset(kept);
    }
    forall n | n in sorted
      ensures n in kept
    {
      assert n in multiset(kept);
    }
  }

  lemma KeptRows(scan: seq<int>, posts: map<int, NoticePost>, keyword: string)
    requires ScanOrder(scan, posts)
    requires forall k :: k in posts ==> posts[k].notice_post_id == k
    ensures forall k :: k in posts && (keyword == "" || Matches(posts[k], keyword)) ==>
      posts[k] in FilterByKeyword(RowsOf(scan, posts), keyword)
    ensures forall n :: n in FilterByKeyword(RowsOf(scan, posts), keyword) ==>
      && (keyword == "" || Matches(n, keyword))
      && n.notice_post_id in posts && posts[n.notice_post_id] == n
  {
    var rows := RowsOf(scan, posts);
    var kept := FilterByKeyword(rows, keyword);
    RowsMembers(scan, posts);
    forall n | n in kept
      ensures n in rows && (keyword == "" || Matches(n, keyword))
    {
    }
  }

  /** The scanned rows are the stored notices, each under its own id. */
  lemma RowsMembers(scan: seq<int>, posts: map<int, NoticePost>)
    requires ScanOrder(scan, posts)
    requires forall k :: k in posts ==> posts[k].notice_post_id == k
    ensures forall k :: k in posts ==> posts[k] in RowsOf(scan, posts)
    ensures forall n :: n in RowsOf(scan, posts) ==> n.notice_post_id in posts && posts[n.notice_post_id] == n
  {
    var rows := RowsOf(scan, posts);
    forall k | k in posts
      ensures posts[k] in rows
    {
      var j :| 0 <= j < |scan| && scan[j] == k;
      assert rows[j] == posts[k];
    }
    forall n | n in rows
      ensures n.notice_post_id in posts && posts[n.notice_post_id] == n
    {
      var j :| 0 <= j < |rows| && rows[j] == n;
      assert n == posts[scan[j]];
    }
  }

  /** The keys of the stored notices the keyword selects. */
  function MatchingKeys(posts: map<int, NoticePost>, keyword: string): set<int> {
    set k | k in posts && (keyword == "" || Matches(posts[k], keyword))
  }

  function Ids(ns: seq<NoticePost>): (r: seq<int>)
    ensures |r| == |ns|
    ensures forall j :: 0 <= j < |ns| ==> r[j] == ns[j].notice_post_id
  {
    if ns == [] then [] else [ns[0].notice_post_id] + Ids(ns[1..])
  }

  lemma RowsDistinct(scan: seq<int>, posts: map<int, NoticePost>)
    requires ScanOrder(scan, posts)
    requires forall k :: k in posts ==> posts[k].notice_post_id == k
    ensures Distinct(RowsOf(scan, posts))
  {
    var rows := RowsOf(scan, posts);
    forall i, j | 0 <= i < j < |rows|
      ensures rows[i] != rows[j]
    {
      assert rows[i].notice_post_id == scan[i] && rows[j].notice_post_id == scan[j];
    }
  }

  lemma {:induction false} KeepMatchingDistinct(ns: seq<NoticePost>, keyword: string)
    requires Distinct(ns)
    ensures Distinct(KeepMatching(ns, keyword))
    decreases |ns|
  {
    if ns != [] {
      var rest := ns[1..];
      assert Distinct(rest) by {
        forall i, j | 0 <= i < j < |rest|
          ensures rest[i] != rest[j]
        {
          assert rest[i] == ns[i + 1] && rest[j] == ns[j + 1];
        }
      }
      KeepMatchingDistinct(rest, keyword);
      var tail := KeepMatching(rest, keyword);
      forall i | 0 <= i < |rest|
        ensures rest[i] != ns[0]
      {
        assert rest[i] == ns[i + 1];
      }
      assert ns[0] !in tail;
      var r := KeepMatching(ns, keyword);
      if Matches(ns[0], keyword) {
        assert r == [ns[0]] + tail;
        forall i, j | 0 <= i < j < |r|
          ensures r[i] != r[j]
        {
          assert r[j] == tail[j - 1];
          if i > 0 {
            assert r[i] == tail[i - 1];
          }
        }
      } else {
        assert r == tail;
      }
    }
  }

  /** No notice is listed twice, so the list holds exactly as many notices as the
      keyword selects from the table. */
  lemma MatchingCount(scan: seq<int>, posts: map<int, NoticePost>, keyword: string)
    requires ScanOrder(scan, posts)
    requires forall k :: k in posts ==> posts[k].notice_post_id == k
    ensures Distinct(Ids(Matching(scan, posts, keyword)))
    ensures |Matching(scan, posts, keyword)| == |MatchingKeys(posts, keyword)|
  {
    MatchingDistinct(scan, posts, keyword);
    MatchingCorrect(scan, posts, keyword);
    var m := Matching(scan, posts, keyword);
    var keys := MatchingKeys(posts, keyword);
    forall n | n in m
      ensures n.notice_post_id in keys
    {
    }
    StoredRowsCount(m, posts, keys);
  }

  lemma MatchingDistinct(scan: seq<int>, posts: map<int, NoticePost>, keyword: string)
    requires ScanOrder(scan, posts)
    requires forall k :: k in posts ==> posts[k].notice_post_id == k
    ensures Distinct(Matching(scan, posts, keyword))
  {
    var rows := RowsOf(scan, posts);
    RowsDistinct(scan, posts);
    var kept := FilterByKeyword(rows, keyword);
    if keyword != "" {
      KeepMatchingDistinct(rows, keyword);
    }
    SortNewestFirstCorrect(kept, CreatedAt);
    PermutationKeepsDistinct(kept, Matching(scan, posts, keyword));
  }

  /** Stored rows without repeats, one for each key of `keys`, have distinct ids and
      are as many as the keys. */
  lemma StoredRowsCount(m: seq<NoticePost>, posts: map<int, NoticePost>, keys: set<int>)
    requires Distinct(m)
    requires forall n :: n in m ==> n.notice_post_id in posts && posts[n.notice_post_id] == n
    requires forall n :: n in m ==> n.notice_post_id in keys
    requires forall k :: k in keys ==> k in posts && posts[k] in m && posts[k].notice_post_id == k
    ensures Distinct(Ids(m)) && |m| == |keys|
  {
    IdsDistinct(m, posts);
    IdsCoverKeys(m, posts, keys);
    DistinctCard(Ids(m));
  }

  lemma IdsDistinct(m: seq<NoticePost>, posts: map<int, NoticePost>)
    requires Distinct(m)
    requires forall n :: n in m ==> n.notice_post_id in posts && posts[n.notice_post_id] == n
    ensures Distinct(Ids(m))
  {
    var ids := Ids(m);
    forall i, j | 0 <= i < j < |ids|
      ensures ids[i] != ids[j]
    {
      assert m[i] in m && m[j] in m;
    }
  }

  lemma IdsCoverKeys(m: seq<NoticePost>, posts: map<int, NoticePost>, keys: set<int>)
    requires forall n :: n in m ==> n.notice_post_id in keys
    requires forall k :: k in keys ==> k in posts && posts[k] in m && posts[k].notice_post_id == k
    ensures (set x | x in Ids(m)) == keys
  {
    var ids := Ids(m);
    forall k | k in keys
      ensures k in ids
    {
      var j :| 0 <= j < |m| && m[j] == posts[k];
      assert ids[j] == k;
    }
    forall x | x in ids
      ensures x in keys
    {
      var j :| 0 <= j < |ids| && ids[j] == x;
      assert m[j] in m;
    }
  }

  class NoticeTable {
    var posts: map<int, NoticePost>
    var nextId: int

    ghost predicate Valid()
      reads this
    {
      1 <= nextId && forall k :: k in posts ==> posts[k].notice_post_id == k && 1 <= k < nextId
    }

    constructor ()
      ensures Valid() && posts == map[] && nextId == 1
    {
      posts := map[];
      nextId := 1;
    }

    /** POST /notices/: 400 for an unknown author, then 403 for an author who is not
        an administrator; only then are the images collected and the notice stored. */
    method CreateNotice(form: NoticeForm, files: seq<Upload>, users: map<string, User>, now: int)
      returns (status: int, newId: Option<int>)
      requires Valid()
      modifies this
      ensures Valid()
      ensures form.author_id.None? || form.author_id.value !in users ==>
        status == BAD_REQUEST && newId == None && posts == old(posts) && nextId == old(nextId)
      ensures form.author_id.Some? && form.author_id.value in users && !IsAdmin(form.author_id, users) ==>
        status == FORBIDDEN && newId == None && posts == old(posts) && nextId == old(nextId)
      ensures IsAdmin(form.author_id, users) ==>
        && status == CREATED
        && newId == Some(old(nextId))
        && old(nextId) !in old(posts)
        && posts == old(posts)[old(nextId) := NoticePost(old(nextId), form.notice_post_name,
             form.author_id.value, now, form.content, EncodeUrls(AcceptedUrls(files)), NoticeDefaultViews)]
        && nextId == old(nextId) + 1
    {
      if form.author_id.None? || form.author_id.value !in users {
        return BAD_REQUEST, None;
      }
      if !users[form.author_id.value].is_admin {
        return FORBIDDEN, None;
      }
      var urls := CollectImageUrls(files);
      var id := nextId;
      posts := posts[id := NoticePost(id, form.notice_post_name, form.author_id.value, now,
                                      form.content, EncodeUrls(urls), NoticeDefaultViews)];
      nextId := nextId + 1;
      status, newId := CREATED, Some(id);
    }

    /** GET /notices/: the requested page of the matching notices, newest first. */
    method GetNotices(page: Option<int>, limit: Option<int>, keyword: string, scan: seq<int>)
      returns (result: NoticePage)
      requires Valid() && ScanOrder(scan, posts)
      ensures result.current_page == PageArg(page)
      ensures result.total_items == |Matching(scan, posts, keyword)| == |MatchingKeys(posts, keyword)|
      ensures result.total_pages == TotalPages(result.total_items, LimitArg(limit))
      ensures result.notices == Views(PageSlice(Matching(scan, posts, keyword), PageArg(page), LimitArg(limit)))
      ensures |result.notices| <= LimitArg(limit)
    {
      var p := PageArg(page);
      var perPage := LimitArg(limit);
      var matching := Matching(scan, posts, keyword);
      var items := PageSlice(matching, p, perPage);
      assert |matching| == |MatchingKeys(posts, keyword)| by {
        MatchingCount(scan, posts, keyword);
      }
      result := NoticePage(Views(items), TotalPages(|matching|, perPage), p, |matching|);
    }

    /** GET /notices/<id>: 404 for a missing notice; otherwise the view count goes up
        by exactly one and nothing else changes. */
    method GetNotice(id: int) returns (status: int, notice: Option<NoticeView>)
      requires Valid()
      modifies this
      ensures Valid() && nextId == old(nextId)
      ensures id !in old(posts) ==> status == NOT_FOUND && notice == None && posts == old(posts)
      ensures id in old(posts) ==>
        && status == OK
        && posts == old(posts)[id := old(posts)[id].(views := old(posts)[id].views + 1)]
        && notice == Some(ViewOf(posts[id]))
    {
      if id !in posts {
        return NOT_FOUND, None;
      }
      var post := posts[id];
      post := post.(views := post.views + 1);
      posts := posts[id := post];
      status, notice := OK, Some(ViewOf(post));
    }

    /** PUT /notices/<id>: 404 is decided before the administrator check (403); then
        only the title and the content change, each only when the form has it. */
    method UpdateNotice(id: int, form: NoticeForm, users: map<string, User>) returns (status: int)
      requires Valid()
      modifies this
      ensures Valid() && nextId == old(nextId)
      ensures id !in old(posts) ==> status == NOT_FOUND && posts == old(posts)
      ensures id in old(posts) && !IsAdmin(form.author_id, users) ==>
        status == FORBIDDEN && posts == old(posts)
      ensures id in old(posts) && IsAdmin(form.author_id, users) ==>
        var n := old(posts)[id];
        && status == OK
        && posts == old(posts)[id := n.(
             notice_post_name := if form.notice_post_name.Some? then form.notice_post_name else n.notice_post_name,
             content := if form.content.Some? then form.content else n.content)]
    {
      if id !in posts {
        return NOT_FOUND;
      }
      if !IsAdmin(form.author_id, users) {
        return FORBIDDEN;
      }
      var n := posts[id];
      if form.notice_post_name.Some? {
        n := n.(notice_post_name := form.notice_post_name);
      }
      if form.content.Some? {
        n := n.(content := form.content);
      }
      posts := posts[id := n];
      status := OK;
    }

    /** DELETE /notices/<id>?author_id=...: 404 first, then 403 unless the query
        names an administrator; a request without the argument is always refused. */
    method DeleteNotice(id: int, authorArg: Option<string>, users: map<string, User>) returns (status: int)
      requires Valid()
      modifies this
      ensures Valid() && nextId == old(nextId)
      ensures id !in old(posts) ==> status == NOT_FOUND && posts == old(posts)
      ensures id in old(posts) && !IsAdmin(authorArg, users) ==> status == FORBIDDEN && posts == old(posts)
      ensures id in old(posts) && authorArg.None? ==> status == FORBIDDEN
      ensures id in old(posts) && IsAdmin(authorArg, users) ==> status == OK && posts == old(posts) - {id}
    {
      if id !in posts {
        return NOT_FOUND;
      }
      if !IsAdmin(authorArg, users) {
        return FORBIDDEN;
      }
      posts := posts - {id};
      status := OK;
    }
  }
}
