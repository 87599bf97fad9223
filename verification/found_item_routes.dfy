/** The found-item endpoints (server/app/routes/found_item_routes.py): plain
    create/read/update/delete over the found-item table, with JSON bodies. The
    `image_urls` value is stored and returned as the client sent it. */
module FoundItemRoutes {
  import opened Common
  import opened Models

  /** A JSON body of POST and PUT /found_items/; `None` is a missing key. */
  datatype FoundItemBody = FoundItemBody(
    found_item_post_name: Option<string>,
    author_id: Option<string>,
    found_item_name: Option<string>,
    found_location: Option<string>,
    found_time: Option<string>,
    content: Option<string>,
    image_urls: Option<string>,
    resolved: Option<bool>,
    status: Option<bool>)

  /** One post as the list and detail endpoints return it (no `created_at`). */
  datatype FoundItemView = FoundItemView(
    found_item_post_id: int,
    found_item_post_name: string,
    author_id: string,
    found_item_name: string,
    found_location: string,
    found_time: string,
    content: string,
    image_urls: Option<string>,
    resolved: bool,
    status: bool,
    views: int)

  function ViewOf(p: FoundItemPost): FoundItemView {
    FoundItemView(p.found_item_post_id, p.found_item_post_name, p.author_id, p.found_item_name,
                  p.found_location, p.found_time, p.content, p.image_urls, p.resolved, p.status, p.views)
  }

  /** The NOT NULL columns a new post needs. */
  predicate Storable(body: FoundItemBody) {
    && body.found_item_post_name.Some?
    && body.author_id.Some?
    && body.found_item_name.Some?
    && body.found_location.Some?
    && body.found_time.Some?
    && body.content.Some?
  }

  /** The row `create_found_item` stores: `resolved` defaults to false and `status`
      to true, views start at zero. */
  function NewPost(id: int, body: FoundItemBody, now: int): (p: FoundItemPost)
    requires Storable(body)
    ensures p.found_item_post_id == id && p.views == FoundDefaultViews
    ensures body.resolved.None? ==> p.resolved == FoundDefaultResolved
    ensures body.status.None? ==> p.status == FoundDefaultStatus
    ensures p.image_urls == body.image_urls
  {
    FoundItemPost(id, body.found_item_post_name.value, body.author_id.value, now,
                  body.found_item_name.value, body.found_location.value, body.found_time.value,
                  body.content.value, body.image_urls,
                  body.resolved.GetOr(false), body.status.GetOr(true), FoundDefaultViews)
  }

  /** `update_found_item`'s field assignments: every field the body has replaces the
      stored one. */
  function Patched(p: FoundItemPost, body: FoundItemBody): (q: FoundItemPost)
    ensures q.found_item_post_id == p.found_item_post_id && q.author_id == p.author_id
    ensures q.created_at == p.created_at && q.views == p.views
    ensures body.found_item_post_name.None? ==> q.found_item_post_name == p.found_item_post_name
    ensures body.found_item_post_name.Some? ==> q.found_item_post_name == body.found_item_post_name.value
    ensures body.found_item_name.None? ==> q.found_item_name == p.found_item_name
    ensures body.found_item_name.Some? ==> q.found_item_name == body.found_item_name.value
    ensures body.found_location.None? ==> q.found_location == p.found_location
    ensures body.found_location.Some? ==> q.found_location == body.found_location.value
    ensures body.found_time.None? ==> q.found_time == p.found_time
    ensures body.found_time.Some? ==> q.found_time == body.found_time.value
    ensures body.content.None? ==> q.content == p.content
    ensures body.content.Some? ==> q.content == body.content.value
    ensures body.image_urls.None? ==> q.image_urls == p.image_urls
    ensures body.image_urls.Some? ==> q.image_urls == body.image_urls
    ensures body.resolved.None? ==> q.resolved == p.resolved
    ensures body.resolved.Some? ==> q.resolved == body.resolved.value
    ensures body.status.None? ==> q.status == p.status
    ensures body.status.Some? ==> q.status == body.status.value
  {
    p.(found_item_post_name := body.found_item_post_name.GetOr(p.found_item_post_name),
       found_item_name := body.found_item_name.GetOr(p.found_item_name),
       found_location := body.found_location.GetOr(p.found_location),
       found_time := body.found_time.GetOr(p.found_time),
       content := body.content.GetOr(p.content),
       image_urls := if body.image_urls.Some? then body.image_urls else p.image_urls,
       resolved := body.resolved.GetOr(p.resolved),
       status := body.status.GetOr(p.status))
  }

  /** A body with no keys leaves the post as it was. */
  lemma EmptyPatchKeepsPost(p: FoundItemPost)
    ensures Patched(p, FoundItemBody(None, None, None, None, None, None, None, None, None)) == p
  {
  }

  /** Sending the same update twice has the effect of sending it once. */
  lemma PatchIdempotent(p: FoundItemPost, body: FoundItemBody)
    ensures Patched(Patched(p, body), body) == Patched(p, body)
  {
  }

  /** Two updates in a row act as one update with the later value of each key. */
  lemma PatchCompose(p: FoundItemPost, first: FoundItemBody, second: FoundItemBody)
    ensures Patched(Patched(p, first), second) == Patched(p, Overlay(first, second))
  {
  }

  function Later<T>(a: Option<T>, b: Option<T>): Option<T> {
    if b.Some? then b else a
  }

  /** The keys of `second`, and those of `first` that `second` lacks. */
  function Overlay(first: FoundItemBody, second: FoundItemBody): FoundItemBody {
    FoundItemBody(
      Later(first.found_item_post_name, second.found_item_post_name),
      Later(first.author_id, second.author_id),
      Later(first.found_item_name, second.found_item_name),
      Later(first.found_location, second.found_location),
      Later(first.found_time, second.found_time),
      Later(first.content, second.content),
      Later(first.image_urls, second.image_urls),
      Later(first.resolved, second.resolved),
      Later(first.status, second.status))
  }

  class FoundItemTable {
    var posts: map<int, FoundItemPost>
    var nextId: int

    ghost predicate Valid()
      reads this
    {
      1 <= nextId && forall k :: k in posts ==> posts[k].found_item_post_id == k && 1 <= k < nextId
    }

    constructor ()
      ensures Valid() && posts == map[] && nextId == 1
    {
      posts := map[];
      nextId := 1;
    }

    /** GET /found_items/: every post, in the order the database returns them. */
    method GetFoundItems(scan: seq<int>) returns (items: seq<FoundItemView>)
      requires Valid() && ScanOrder(scan, posts)
      ensures |items| == |scan| == |posts|
      ensures forall i :: 0 <= i < |items| ==> items[i] == ViewOf(posts[scan[i]])
    {
      items := [];
      var i := 0;
      while i < |scan|
        invariant 0 <= i <= |scan|
        invariant |items| == i
        invariant forall j :: 0 <= j < i ==> items[j] == ViewOf(posts[scan[j]])
      {
        items := items + [ViewOf(posts[scan[i]])];
        i := i + 1;
      }
      ScanLength(scan, posts);
    }

    /** GET /found_items/<id>: 404 for a missing post; reading does not count views. */
    method GetFoundItem(id: int) returns (status: int, item: Option<FoundItemView>)
      requires Valid()
      ensures id !in posts ==> status == NOT_FOUND && item == None
      ensures id in posts ==> status == OK && item == Some(ViewOf(posts[id]))
      ensures item.Some? ==> item.value.views == posts[id].views && item.value.image_urls == posts[id].image_urls
    {
      if id !in posts {
        return NOT_FOUND, None;
      }
      status, item := OK, Some(ViewOf(posts[id]));
    }

    /** POST /found_items/: 500 when a NOT NULL column is missing (the commit fails
        and nothing is stored); otherwise a new post with the body's fields. */
    method CreateFoundItem(body: FoundItemBody, now: int) returns (status: int, newId: Option<int>)
      requires Valid()
      modifies this
      ensures Valid()
      ensures !Storable(body) ==>
        status == SERVER_ERROR && newId == None && posts == old(posts) && nextId == old(nextId)
      ensures Storable(body) ==>
        && status == CREATED
        && newId == Some(old(nextId))
        && old(nextId) !in old(posts)
        && posts == old(posts)[old(nextId) := NewPost(old(nextId), body, now)]
        && nextId == old(nextId) + 1
    {
      if !Storable(body) {
        return SERVER_ERROR, None;
      }
      var id := nextId;
      posts := posts[id := NewPost(id, body, now)];
      nextId := nextId + 1;
      status, newId := CREATED, Some(id);
    }

    /** PUT /found_items/<id>: 404 for a missing post, otherwise the post is patched
        with the body's keys and no other post changes. */
    method UpdateFoundItem(id: int, body: FoundItemBody) returns (status: int)
      requires Valid()
      modifies this
      ensures Valid() && nextId == old(nextId)
      ensures id !in old(posts) ==> status == NOT_FOUND && posts == old(posts)
      ensures id in old(posts) ==> status == OK && posts == old(posts)[id := Patched(old(posts)[id], body)]
    {
      if id !in posts {
        return NOT_FOUND;
      }
      posts := posts[id := Patched(posts[id], body)];
      status := OK;
    }

    /** DELETE /found_items/<id>: 404 for a missing post, otherwise exactly that post
        is removed. */
    method DeleteFoundItem(id: int) returns (status: int)
      requires Valid()
      modifies this
      ensures Valid() && nextId == old(nextId)
      ensures id !in old(posts) ==> status == NOT_FOUND && posts == old(posts)
      ensures id in old(posts) ==> status == OK && posts == old(posts) - {id}
    {
      if id !in posts {
        return NOT_FOUND;
      }
      posts := posts - {id};
      status := OK;
    }
  }
}
