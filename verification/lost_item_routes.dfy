/** The lost-item endpoints (server/app/routes/lost_item_routes.py) as operations
    on an in-memory post table. The author must be a registered user; the posted
    images are filtered by extension and stored as one comma-joined text. */
module LostItemRoutes {
  import opened Common
  import opened Models
  import opened Uploads
  import opened Ordering

  /** The text fields of the multipart form of POST /lost-items/; `None` is a
      missing field. The form's `status` field is not read by the route. */
  datatype LostItemForm = LostItemForm(
    lost_item_post_name: Option<string>,
    author_id: Option<string>,
    lost_item_name: Option<string>,
    lost_location: Option<string>,
    lost_time: Option<string>,
    content: Option<string>)

  /** One post as the list and detail endpoints return it. */
  datatype LostItemView = LostItemView(
    lost_item_post_id: int,
    lost_item_post_name: string,
    author_id: string,
    created_at: int,
    lost_item_name: string,
    lost_location: string,
    lost_time: string,
    content: string,
    image_urls: seq<string>,
    views: int,
    status: bool)

  function ViewOf(p: LostItemPost): (v: LostItemView)
    ensures v.lost_item_post_id == p.lost_item_post_id && v.created_at == p.created_at
    ensures v.image_urls == DecodeUrls(p.image_urls)
  {
    LostItemView(p.lost_item_post_id, p.lost_item_post_name, p.author_id, p.created_at,
                 p.lost_item_name, p.lost_location, p.lost_time, p.content,
                 DecodeUrls(p.image_urls), p.views, p.status)
  }

  function CreatedAt(p: LostItemPost): int {
    p.created_at
  }

  function ViewCreatedAt(v: LostItemView): int {
    v.created_at
  }

  /** The NOT NULL columns the form has to fill. */
  predicate Storable(form: LostItemForm) {
    && form.lost_item_post_name.Some?
    && form.lost_item_name.Some?
    && form.lost_location.Some?
    && form.lost_time.Some?
    && form.content.Some?
  }

  /** The row `create_lost_item` adds for a storable form. */
  function NewPost(id: int, form: LostItemForm, files: seq<Upload>, now: int): (p: LostItemPost)
    requires Storable(form) && form.author_id.Some?
    ensures p.lost_item_post_id == id && p.author_id == form.author_id.value && p.created_at == now
    ensures p.status == LostDefaultStatus && p.views == LostDefaultViews
    ensures p.image_urls.None? <==> AcceptedUrls(files) == []
  {
    LostItemPost(id, form.lost_item_post_name.value, form.author_id.value, now,
                 form.lost_item_name.value, form.lost_location.value, form.lost_time.value,
                 form.content.value, EncodeUrls(AcceptedUrls(files)),
                 LostDefaultStatus, LostDefaultViews)
  }

  class LostItemTable {
    var posts: map<int, LostItemPost>
    var nextId: int

    ghost predicate Valid()
      reads this
    {
      1 <= nextId && forall k :: k in posts ==> posts[k].lost_item_post_id == k && 1 <= k < nextId
    }

    constructor ()
      ensures Valid() && posts == map[] && nextId == 1
    {
      posts := map[];
      nextId := 1;
    }

    /** POST /lost-items/: 400 when the author is not a registered user; 500 when a
        NOT NULL column is missing (the commit fails); otherwise a new post with
        the accepted images, status true and no views. */
    method CreateLostItem(form: LostItemForm, files: seq<Upload>, users: map<string, User>, now: int)
      returns (status: int, newId: Option<int>)
      requires Valid()
      modifies this
      ensures Valid()
      ensures form.author_id.None? || form.author_id.value !in users ==>
        status == BAD_REQUEST && newId == None && posts == old(posts) && nextId == old(nextId)
      ensures form.author_id.Some? && form.author_id.value in users && !Storable(form) ==>
        status == SERVER_ERROR && newId == None && posts == old(posts) && nextId == old(nextId)
      ensures form.author_id.Some? && form.author_id.value in users && Storable(form) ==>
        && status == CREATED
        && newId == Some(old(nextId))
        && old(nextId) !in old(posts)
        && posts == old(posts)[old(nextId) := NewPost(old(nextId), form, files, now)]
        && nextId == old(nextId) + 1
    {
      if form.author_id.None? || form.author_id.value !in users {
        return BAD_REQUEST, None;
      }
      var urls := CollectImageUrls(files);
      if !Storable(form) {
        return SERVER_ERROR, None;
      }
      var id := nextId;
      posts := posts[id := LostItemPost(id, form.lost_item_post_name.value, form.author_id.value, now,
                                        form.lost_item_name.value, form.lost_location.value,
                                        form.lost_time.value, form.content.value, EncodeUrls(urls),
                                        LostDefaultStatus, LostDefaultViews)];
      nextId := nextId + 1;
      status, newId := CREATED, Some(id);
    }

    /** GET /lost-items/: every post, newest first. */
    method GetLostItems(scan: seq<int>) returns (items: seq<LostItemView>)
      requires Valid() && ScanOrder(scan, posts)
      ensures items == Listing(scan, posts)
      ensures |items| == |posts|
      ensures NewestFirst(items, ViewCreatedAt)
      ensures forall k :: k in posts ==> ViewOf(posts[k]) in items
      ensures forall v :: v in items ==> v.lost_item_post_id in posts && v == ViewOf(posts[v.lost_item_post_id])
    {
      var sorted := SortNewestFirst(RowsOf(scan, posts), CreatedAt);
      items := [];
      var i := 0;
      while i < |sorted|
        invariant 0 <= i <= |sorted|
        invariant items == Views(sorted[..i])
      {
        assert sorted[..i + 1] == sorted[..i] + [sorted[i]];
        ViewsAppend(sorted[..i], [sorted[i]]);
        items := items + [ViewOf(sorted[i])];
        i := i + 1;
      }
      assert sorted[..i] == sorted;
      ListingCorrect(scan, posts);
    }

    /** GET /lost-items/<id>: 404 for a missing post; otherwise the view count goes
        up by exactly one, nothing else changes, and the answer carries the new
        count. */
    method GetLostItem(id: int) returns (status: int, item: Option<LostItemView>)
      requires Valid()
      modifies this
      ensures Valid() && nextId == old(nextId)
      ensures id !in old(posts) ==> status == NOT_FOUND && item == None && posts == old(posts)
      ensures id in old(posts) ==>
        && status == OK
        && posts == old(posts)[id := old(posts)[id].(views := old(posts)[id].views + 1)]
        && item == Some(ViewOf(posts[id]))
        && item.value.views == old(posts)[id].views + 1
    {
      if id !in posts {
        return NOT_FOUND, None;
      }
      var post := posts[id];
      post := post.(views := post.views + 1);
      posts := posts[id := post];
      status, item := OK, Some(ViewOf(post));
    }

    /** DELETE /lost-items/<id>: 404 for a missing post, otherwise exactly that post
        is removed. */
    method DeleteLostItem(id: int) returns (status: int)
      requires Valid()
      modifies this
      ensures Valid() && nextId == old(nextId)
      ensures id !in old(posts) ==> status == NOT_FOUND && posts == old(posts)
      ensures id in old(posts) ==> status == OK && posts == old(posts) - {id}
    {
      if id !in posts {
        return NOT_FOUND;
      }
      posts := posts - {id};
      status := OK;
    }
  }

  function Views(ps: seq<LostItemPost>): (r: seq<LostItemView>)
    ensures |r| == |ps|
    ensures forall j :: 0 <= j < |ps| ==> r[j] == ViewOf(ps[j])
  {
    if ps == [] then [] else [ViewOf(ps[0])] + Views(ps[1..])
  }

  lemma {:induction false} ViewsAppend(a: seq<LostItemPost>, b: seq<LostItemPost>)
    ensures Views(a + b) == Views(a) + Views(b)
  {
  }

  /** The answer of GET /lost-items/. */
  function Listing(scan: seq<int>, posts: map<int, LostItemPost>): seq<LostItemView>
    requires forall i :: 0 <= i < |scan| ==> scan[i] in posts
  {
    Views(SortNewestFirst(RowsOf(scan, posts), CreatedAt))
  }

  /** The listing holds every post exactly as stored, one entry per post, newest
      first. */
  lemma ListingCorrect(scan: seq<int>, posts: map<int, LostItemPost>)
    requires ScanOrder(scan, posts)
    requires forall k :: k in posts ==> posts[k].lost_item_post_id == k
    ensures |Listing(scan, posts)| == |posts|
    ensures NewestFirst(Listing(scan, posts), ViewCreatedAt)
    ensures forall k :: k in posts ==> ViewOf(posts[k]) in Listing(scan, posts)
    ensures forall v :: v in Listing(scan, posts) ==>
      v.lost_item_post_id in posts && v == ViewOf(posts[v.lost_item_post_id])
  {
    var sorted := SortNewestFirst(RowsOf(scan, posts), CreatedAt);
    OrderedRows(scan, posts);
    ViewsMembers(sorted);
    ViewsOrder(sorted);
  }

  /** Each post of `ps` is shown, and each entry shows a post of `ps`. */
  lemma ViewsMembers(ps: seq<LostItemPost>)
    ensures forall p :: p in ps ==> ViewOf(p) in Views(ps)
    ensures forall v :: v in Views(ps) ==> exists p :: p in ps && v == ViewOf(p)
  {
    var items := Views(ps);
    forall p | p in ps
      ensures ViewOf(p) in items
    {
      var m :| 0 <= m < |ps| && ps[m] == p;
      assert items[m] == ViewOf(p);
    }
    forall v | v in items
      ensures exists p :: p in ps && v == ViewOf(p)
    {
      var m :| 0 <= m < |items| && items[m] == v;
      assert ps[m] in ps;
    }
  }

  /** Showing posts keeps their order by creation time. */
  lemma ViewsOrder(ps: seq<LostItemPost>)
    requires NewestFirst(ps, CreatedAt)
    ensures NewestFirst(Views(ps), ViewCreatedAt)
  {
    var items := Views(ps);
    forall a, b | 0 <= a < b < |items|
      ensures ViewCreatedAt(items[a]) >= ViewCreatedAt(items[b])
    {
      assert CreatedAt(ps[a]) >= CreatedAt(ps[b]);
    }
  }

  /** `ORDER BY created_at DESC` over the whole table holds every post, each under
      its own id, newest first. */
  lemma OrderedRows(scan: seq<int>, posts: map<int, LostItemPost>)
    requires ScanOrder(scan, posts)
    requires forall k :: k in posts ==> posts[k].lost_item_post_id == k
    ensures var sorted := SortNewestFirst(RowsOf(scan, posts), CreatedAt);
      && |sorted| == |posts|
      && NewestFirst(sorted, CreatedAt)
      && (forall k :: k in posts ==> posts[k] in sorted)
      && (forall p :: p in sorted ==> p.lost_item_post_id in posts && posts[p.lost_item_post_id] == p)
  {
    var rows := RowsOf(scan, posts);
    var sorted := SortNewestFirst(rows, CreatedAt);
    SortNewestFirstCorrect(rows, CreatedAt);
    ScanLength(scan, posts);
    RowsCover(scan, posts);
    RowsKeyed(scan, posts);
    SameMembers(rows, sorted);
  }

  /** Every row read is stored under its own id. */
  lemma RowsKeyed(scan: seq<int>, posts: map<int, LostItemPost>)
    requires forall i :: 0 <= i < |scan| ==> scan[i] in posts
    requires forall k :: k in posts ==> posts[k].lost_item_post_id == k
    ensures forall p :: p in RowsOf(scan, posts) ==> p.lost_item_post_id in posts && posts[p.lost_item_post_id] == p
  {
    var rows := RowsOf(scan, posts);
    forall p | p in rows
      ensures p.lost_item_post_id in posts && posts[p.lost_item_post_id] == p
    {
      var j :| 0 <= j < |rows| && rows[j] == p;
      var k := scan[j];
      assert k in posts && posts[k] == p;
      assert p.lost_item_post_id == k;
    }
  }

  /** A scan reads every post. */
  lemma RowsCover(scan: seq<int>, posts: map<int, LostItemPost>)
    requires ScanOrder(scan, posts)
    ensures forall k :: k in posts ==> posts[k] in RowsOf(scan, posts)
  {
    var rows := RowsOf(scan, posts);
    forall k | k in posts
      ensures posts[k] in rows
    {
      var j :| 0 <= j < |scan| && scan[j] == k;
      assert rows[j] == posts[k];
    }
  }

  /** Two sequences with the same multiset have the same members. */
  lemma SameMembers<T>(a: seq<T>, b: seq<T>)
    requires multiset(a) == multiset(b)
    ensures forall x :: x in a <==> x in b
  {
    forall x
      ensures x in a <==> x in b
    {
      assert x in a <==> x in multiset(a);
      assert x in b <==> x in multiset(b);
    }
  }
}
