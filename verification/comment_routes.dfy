/** The comment endpoints (server/app/routes/comment_routes.py) as operations on
    an in-memory comment table. A request that the database would reject at
    commit (a NOT NULL column left empty) answers 500 and stores nothing. */
module CommentRoutes {
  import opened Common
  import opened Models

  /** The JSON body of POST /comments/ and PUT /comments/<id>; `None` is a missing key. */
  datatype CommentBody = CommentBody(
    category: Option<string>,
    author_id: Option<string>,
    post_id: Option<int>,
    content: Option<string>,
    parent_comment_id: Option<int>)

  /** One entry of the GET /comments/ list. */
  datatype CommentView = CommentView(
    comment_id: int,
    category: string,
    author_id: string,
    post_id: int,
    content: string,
    parent_comment_id: Option<int>,
    created_at: Option<int>)

  /** The body of GET /comments/<id>: the same fields without `created_at`. */
  datatype CommentDetail = CommentDetail(
    comment_id: int,
    category: string,
    author_id: string,
    post_id: int,
    content: string,
    parent_comment_id: Option<int>)

  /** A listed comment: its category as the enum's value, which reads back as the
      stored category. */
  function ViewOf(c: Comment): (v: CommentView)
    ensures v.comment_id == c.comment_id && v.parent_comment_id == c.parent_comment_id
    ensures ParseCategory(Some(v.category)) == Some(c.category)
  {
    CommentView(c.comment_id, CategoryValue(c.category), c.author_id, c.post_id,
                c.content, c.parent_comment_id, c.created_at)
  }

  function DetailOf(c: Comment): (d: CommentDetail)
    ensures d.comment_id == c.comment_id && d.parent_comment_id == c.parent_comment_id
    ensures ParseCategory(Some(d.category)) == Some(c.category)
  {
    CommentDetail(c.comment_id, CategoryValue(c.category), c.author_id, c.post_id,
                  c.content, c.parent_comment_id)
  }

  /** The columns a comment cannot be stored without. */
  predicate CreatableBody(body: CommentBody) {
    body.author_id.Some? && body.post_id.Some? && body.content.Some?
  }

  class CommentTable {
    var rows: map<int, Comment>
    var nextId: int

    ghost predicate Valid()
      reads this
    {
      1 <= nextId && forall k :: k in rows ==> rows[k].comment_id == k && 1 <= k < nextId
    }

    constructor ()
      ensures Valid() && rows == map[] && nextId == 1
    {
      rows := map[];
      nextId := 1;
    }

    /** GET /comments/: every stored comment, whatever its post or category, in the
        order the database returns them. */
    method GetComments(scan: seq<int>) returns (results: seq<CommentView>)
      requires Valid() && ScanOrder(scan, rows)
      ensures results == Listing(scan, rows)
      ensures |results| == |rows|
      ensures forall k :: k in rows ==> ViewOf(rows[k]) in results
      ensures forall v :: v in results ==> v.comment_id in rows && v == ViewOf(rows[v.comment_id])
    {
      results := [];
      var i := 0;
      while i < |scan|
        invariant 0 <= i <= |scan|
        invariant results == Listing(scan[..i], rows)
      {
        ListingAppend(scan[..i], [scan[i]], rows);
        assert scan[..i + 1] == scan[..i] + [scan[i]];
        results := results + [ViewOf(rows[scan[i]])];
        i := i + 1;
      }
      assert scan[..i] == scan;
      ListingCorrect(scan, rows);
    }

    /** GET /comments/<id>. */
    method GetComment(id: int) returns (status: int, detail: Option<CommentDetail>)
      requires Valid()
      ensures id !in rows ==> status == NOT_FOUND && detail == None
      ensures id in rows ==> status == OK && detail == Some(DetailOf(rows[id]))
      ensures detail.Some? ==> detail.value.comment_id == id
    {
      if id !in rows {
        return NOT_FOUND, None;
      }
      status, detail := OK, Some(DetailOf(rows[id]));
    }

    /** POST /comments/: the category must be an enum value (400 otherwise); the new
        comment gets a fresh id and stores the body's fields as given. */
    method CreateComment(body: CommentBody, now: int) returns (status: int, newId: Option<int>)
      requires Valid()
      modifies this
      ensures Valid()
      ensures ParseCategory(body.category).None? ==>
        status == BAD_REQUEST && newId == None && rows == old(rows) && nextId == old(nextId)
      ensures ParseCategory(body.category).Some? && !CreatableBody(body) ==>
        status == SERVER_ERROR && newId == None && rows == old(rows) && nextId == old(nextId)
      ensures ParseCategory(body.category).Some? && CreatableBody(body) ==>
        && status == CREATED
        && newId == Some(old(nextId))
        && old(nextId) !in old(rows)
        && rows == old(rows)[old(nextId) := Comment(old(nextId),
             ParseCategory(body.category).value, body.author_id.value, body.post_id.value,
             Some(now), body.content.value, body.parent_comment_id)]
        && nextId == old(nextId) + 1
    {
      var category := ParseCategory(body.category);
      if category.None? {
        return BAD_REQUEST, None;
      }
      if !CreatableBody(body) {
        return SERVER_ERROR, None;
      }
      var id := nextId;
      rows := rows[id := Comment(id, category.value, body.author_id.value, body.post_id.value,
                                 Some(now), body.content.value, body.parent_comment_id)];
      nextId := nextId + 1;
      status, newId := CREATED, Some(id);
    }

    /** PUT /comments/<id>: 404 for a missing comment; a category key with a non-enum
        value answers 400 and changes nothing; otherwise the category (when given) and
        the content (when given) are replaced and nothing else. */
    method UpdateComment(id: int, body: CommentBody) returns (status: int)
      requires Valid()
      modifies this
      ensures Valid() && nextId == old(nextId)
      ensures id !in old(rows) ==> status == NOT_FOUND && rows == old(rows)
      ensures id in old(rows) && body.category.Some? && ParseCategory(body.category).None? ==>
        status == BAD_REQUEST && rows == old(rows)
      ensures id in old(rows) && (body.category.None? || ParseCategory(body.category).Some?) ==>
        var c := old(rows)[id];
        && status == OK
        && rows == old(rows)[id := c.(
             category := if body.category.Some? then ParseCategory(body.category).value else c.category,
             content := body.content.GetOr(c.content))]
      ensures id in rows ==>
        && rows[id].post_id == old(rows)[id].post_id
        && rows[id].author_id == old(rows)[id].author_id
        && rows[id].parent_comment_id == old(rows)[id].parent_comment_id
    {
      if id !in rows {
        return NOT_FOUND;
      }
      var c := rows[id];
      if body.category.Some? {
        var category := ParseCategory(body.category);
        if category.None? {
          return BAD_REQUEST;
        }
        c := c.(category := category.value);
      }
      c := c.(content := body.content.GetOr(c.content));
      rows := rows[id := c];
      status := OK;
    }

    /** DELETE /comments/<id>: 404 for a missing comment, otherwise exactly that row
        is removed; its replies stay stored, still naming the removed id as parent. */
    method DeleteComment(id: int) returns (status: int)
      requires Valid()
      modifies this
      ensures Valid() && nextId == old(nextId)
      ensures id !in old(rows) ==> status == NOT_FOUND && rows == old(rows)
      ensures id in old(rows) ==> status == OK && rows == old(rows) - {id}
      ensures forall k :: k in old(rows) && k != id ==> k in rows && rows[k] == old(rows)[k]
    {
      if id !in rows {
        return NOT_FOUND;
      }
      rows := rows - {id};
      status := OK;
    }
  }

  /** The rows visited by `scan`, as the list endpoint shows them. */
  function Listing(scan: seq<int>, rows: map<int, Comment>): (r: seq<CommentView>)
    requires forall i :: 0 <= i < |scan| ==> scan[i] in rows
    ensures |r| == |scan|
    ensures forall i :: 0 <= i < |scan| ==> r[i] == ViewOf(rows[scan[i]])
  {
    if scan == [] then [] else [ViewOf(rows[scan[0]])] + Listing(scan[1..], rows)
  }

  lemma ListingAppend(a: seq<int>, b: seq<int>, rows: map<int, Comment>)
    requires forall i :: 0 <= i < |a| ==> a[i] in rows
    requires forall i :: 0 <= i < |b| ==> b[i] in rows
    ensures Listing(a + b, rows) == Listing(a, rows) + Listing(b, rows)
  {
  }

  /** `get_comments` returns every stored comment once, as stored. */
  lemma ListingCorrect(scan: seq<int>, rows: map<int, Comment>)
    requires ScanOrder(scan, rows)
    requires forall k :: k in rows ==> rows[k].comment_id == k
    ensures |Listing(scan, rows)| == |rows|
    ensures forall k :: k in rows ==> ViewOf(rows[k]) in Listing(scan, rows)
    ensures forall v :: v in Listing(scan, rows) ==> v.comment_id in rows && v == ViewOf(rows[v.comment_id])
  {
    var r := Listing(scan, rows);
    ScanLength(scan, rows);
    forall k | k in rows
      ensures ViewOf(rows[k]) in r
    {
      assert k in scan;
      var j :| 0 <= j < |scan| && scan[j] == k;
      assert r[j] == ViewOf(rows[k]);
    }
  }
}
