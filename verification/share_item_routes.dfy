/** The share-item endpoints (server/app/routes/share_item_routes.py): plain
    create/read/update/delete over the share-item table, with JSON bodies. */
module ShareItemRoutes {
  import opened Common
  import opened Models

  /** A JSON body of POST and PUT /share_items/; `None` is a missing key. */
  datatype ShareItemBody = ShareItemBody(
    share_item_post_name: Option<string>,
    author_id: Option<string>,
    content: Option<string>,
    image_urls: Option<string>,
    status: Option<bool>)

  /** One post as the list and detail endpoints return it (no `created_at`). */
  datatype ShareItemView = ShareItemView(
    share_item_post_id: int,
    share_item_post_name: string,
    author_id: string,
    content: string,
    image_urls: Option<string>,
    status: bool,
    views: int)

  function ViewOf(p: ShareItemPost): ShareItemView {
    ShareItemView(p.share_item_post_id, p.share_item_post_name, p.author_id, p.content,
                  p.image_urls, p.status, p.views)
  }

  /** The NOT NULL columns a new post needs. */
  predicate Storable(body: ShareItemBody) {
    body.share_item_post_name.Some? && body.author_id.Some? && body.content.Some?
  }

  /** The row `create_share_item` stores. A missing status is true. */
  function NewPost(id: int, body: ShareItemBody, now: int): (p: ShareItemPost)
    requires Storable(body)
    ensures p.share_item_post_id == id && p.views == ShareDefaultViews
    ensures p.status == (body.status != Some(false))
  {
    ShareItemPost(id, body.share_item_post_name.value, body.author_id.value, now,
                  body.content.value, body.image_urls, body.status.GetOr(true), ShareDefaultViews)
  }

  /** The route's default status differs from the model's column default: a post
      created without a status is stored as true, not false. */
  lemma CreateOverridesModelDefault(id: int, body: ShareItemBody, now: int)
    requires Storable(body) && body.status.None?
    ensures NewPost(id, body, now).status != ShareDefaultStatus
  {
  }

  /** `update_share_item`'s field assignments. */
  function Patched(p: ShareItemPost, body: ShareItemBody): (q: ShareItemPost)
    ensures q.share_item_post_id == p.share_item_post_id && q.author_id == p.author_id
    ensures q.created_at == p.created_at && q.views == p.views
    ensures body.share_item_post_name.None? ==> q.share_item_post_name == p.share_item_post_name
    ensures body.share_item_post_name.Some? ==> q.share_item_post_name == body.share_item_post_name.value
    ensures body.content.None? ==> q.content == p.content
    ensures body.content.Some? ==> q.content == body.content.value
    ensures body.image_urls.None? ==> q.image_urls == p.image_urls
    ensures body.image_urls.Some? ==> q.image_urls == body.image_urls
    ensures body.status.None? ==> q.status == p.status
    ensures body.status.Some? ==> q.status == body.status.value
  {
    p.(share_item_post_name := body.share_item_post_name.GetOr(p.share_item_post_name),
       content := body.content.GetOr(p.content),
       image_urls := if body.image_urls.Some? then body.image_urls else p.image_urls,
       status := body.status.GetOr(p.status))
  }

  /** Sending the same update twice has the effect of sending it once. */
  lemma PatchIdempotent(p: ShareItemPost, body: ShareItemBody)
    ensures Patched(Patched(p, body), body) == Patched(p, body)
  {
  }

  /** An update without keys leaves the post as it was. */
  lemma EmptyPatchKeepsPost(p: ShareItemPost)
    ensures Patched(p, ShareItemBody(None, None, None, None, None)) == p
  {
  }

  class ShareItemTable {
    var posts: map<int, ShareItemPost>
    var nextId: int

    ghost predicate Valid()
      reads this
    {
      1 <= nextId && forall k :: k in posts ==> posts[k].share_item_post_id == k && 1 <= k < nextId
    }

    constructor ()
      ensures Valid() && posts == map[] && nextId == 1
    {
      posts := map[];
      nextId := 1;
    }

    /** GET /share_items/: every post, in the order the database returns them. */
    method GetShareItems(scan: seq<int>) returns (items: seq<ShareItemView>)
      requires Valid() && ScanOrder(scan, posts)
      ensures |items| == |scan| == |posts|
      ensures forall i :: 0 <= i < |items| ==> items[i] == ViewOf(posts[scan[i]])
    {
      items := [];
      var i := 0;
      while i < |scan|
        invariant 0 <= i <= |scan|
        invariant |items| == i
        invariant forall j :: 0 <= j < i ==> items[j] == ViewOf(posts[scan[j]])
      {
        items := items + [ViewOf(posts[scan[i]])];
        i := i + 1;
      }
      ScanLength(scan, posts);
    }

    /** GET /share_items/<id>: 404 for a missing post; reading does not count views. */
    method GetShareItem(id: int) returns (status: int, item: Option<ShareItemView>)
      requires Valid()
      ensures id !in posts ==> status == NOT_FOUND && item == None
      ensures id in posts ==> status == OK && item == Some(ViewOf(posts[id]))
      ensures item.Some? ==> item.value.views == posts[id].views
    {
      if id !in posts {
        return NOT_FOUND, None;
      }
      status, item := OK, Some(ViewOf(posts[id]));
    }

    /** POST /share_items/: 500 when a NOT NULL column is missing, otherwise a new
        post. */
    method CreateShareItem(body: ShareItemBody, now: int) returns (status: int, newId: Option<int>)
      requires Valid()
      modifies this
      ensures Valid()
      ensures !Storable(body) ==>
        status == SERVER_ERROR && newId == None && posts == old(posts) && nextId == old(nextId)
      ensures Storable(body) ==>
        && status == CREATED
        && newId == Some(old(nextId))
        && old(nextId) !in old(posts)
        && posts == old(posts)[old(nextId) := NewPost(old(nextId), body, now)]
        && nextId == old(nextId) + 1
    {
      if !Storable(body) {
        return SERVER_ERROR, None;
      }
      var id := nextId;
      posts := posts[id := NewPost(id, body, now)];
      nextId := nextId + 1;
      status, newId := CREATED, Some(id);
    }

    /** PUT /share_items/<id>: 404 for a missing post, otherwise the post is patched
        with the body's keys. */
    method UpdateShareItem(id: int, body: ShareItemBody) returns (status: int)
      requires Valid()
      modifies this
      ensures Valid() && nextId == old(nextId)
      ensures id !in old(posts) ==> status == NOT_FOUND && posts == old(posts)
      ensures id in old(posts) ==> status == OK && posts == old(posts)[id := Patched(old(posts)[id], body)]
    {
      if id !in posts {
        return NOT_FOUND;
      }
      posts := posts[id := Patched(posts[id], body)];
      status := OK;
    }

    /** DELETE /share_items/<id>: 404 for a missing post, otherwise exactly that post
        is removed. */
    method DeleteShareItem(id: int) returns (status: int)
      requires Valid()
      modifies this
      ensures Valid() && nextId == old(nextId)
      ensures id !in old(posts) ==> status == NOT_FOUND && posts == old(posts)
      ensures id in old(posts) ==> status == OK && posts == old(posts) - {id}
    {
      if id !in posts {
        return NOT_FOUND;
      }
      posts := posts - {id};
      status := OK;
    }
  }
}
