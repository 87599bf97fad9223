/** The threaded comment box of the client (client/src/components/CommentsComponent.js):
    the fetch filter, the recursive rendering of the reply tree, and the
    `comments` / `newComment` / `replyTo` interaction state. */
module CommentsComponent {
  import opened Common

  /** A JSON value that should denote an integer id. The server sends numbers, but an
      id may also reach the client as a string. */
  datatype JsonId = Num(n: int) | Text(s: string) | Null

  /** One comment as the client receives it from GET /comments/. Ids are the
      database's autoincrement integers, so they are natural numbers. */
  datatype CommentJson = CommentJson(
    comment_id: nat,
    category: string,
    author_id: string,
    post_id: JsonId,
    content: string,
    parent_comment_id: Option<nat>,
    created_at: Option<string>)

  // ---------------------------------------------------------------------------
  // parseInt and the fetch filter
  // ---------------------------------------------------------------------------

  /** The leading characters `parseInt` skips, as far as this model goes: ASCII
      space, tab, line feed and carriage return. The rest of JavaScript's white
      space (vertical tab, form feed, no-break space, the Unicode separators) is not
      skipped here. */
  predicate IsJsSpace(c: char) {
    c == ' ' || c == '\t' || c == '\n' || c == '\r'
  }

  function TrimStart(s: string): (r: string)
    ensures |r| <= |s| && r == s[|s| - |r|..]
    ensures r != [] ==> !IsJsSpace(r[0])
  {
    if s != [] && IsJsSpace(s[0]) then TrimStart(s[1..]) else s
  }

  /** The longest prefix of `s` made of decimal digits. */
  function DigitPrefix(s: string): (r: string)
    ensures AllDigits(r) && StartsWith(s, r)
    ensures |r| < |s| ==> !IsDigit(s[|r|])
  {
    if s != [] && IsDigit(s[0]) then [s[0]] + DigitPrefix(s[1..]) else []
  }

  /** JavaScript's `parseInt(s)` on a string, decimal notation: leading white space,
      an optional sign, then as many digits as follow; `None` is `NaN`. */
  function ParseIntText(s: string): Option<int> {
    var t := TrimStart(s);
    var negative := t != [] && t[0] == '-';
    var body := if t != [] && (t[0] == '-' || t[0] == '+') then t[1..] else t;
    var digits := DigitPrefix(body);
    var magnitude: int := DigitsValue(digits);
    if digits == [] then None else Some(if negative then -magnitude else magnitude)
  }

  /** `parseInt(v)` for an id value: a number is already an integer, `null` gives `NaN`. */
  function ParseInt(v: JsonId): Option<int> {
    match v
    case Num(n) => Some(n)
    case Text(s) => ParseIntText(s)
    case Null => None
  }

  /** An id written as a decimal string parses back to the same integer, so a post id
      that arrives as "10" is recognised as post 10. */
  lemma ParseIntOfString(n: int)
    ensures ParseInt(Text(IntToString(n))) == Some(n)
  {
    if n < 0 {
      ParseNegative(n);
    } else {
      ParseNonNegative(n);
    }
  }

  lemma ParseNegative(n: int)
    requires n < 0
    ensures ParseIntText(IntToString(n)) == Some(n)
  {
    var m: nat := -n;
    assert IntToString(n) == "-" + NatToString(m);
    ParseDigitsAfterSign(m);
  }

  lemma ParseNonNegative(n: int)
    requires n >= 0
    ensures ParseIntText(IntToString(n)) == Some(n)
  {
    assert IntToString(n) == NatToString(n);
    ParseDigits(n);
  }

  lemma ParseDigits(m: nat)
    ensures ParseIntText(NatToString(m)) == Some(m)
  {
    var ds := NatToString(m);
    DigitPrefixOfDigits(ds);
    NatToStringRoundTrip(m);
    assert IsDigit(ds[0]);
    assert TrimStart(ds) == ds;
  }

  lemma ParseDigitsAfterSign(m: nat)
    requires m > 0
    ensures ParseIntText("-" + NatToString(m)) == Some(-(m as int))
  {
    var ds := NatToString(m);
    var s := "-" + ds;
    DigitPrefixOfDigits(ds);
    NatToStringRoundTrip(m);
    assert s[0] == '-';
    assert TrimStart(s) == s;
    assert s[1..] == ds;
  }

  lemma {:induction false} DigitPrefixOfDigits(s: string)
    requires AllDigits(s)
    ensures DigitPrefix(s) == s
  {
    if s != [] {
      DigitPrefixOfDigits(s[1..]);
    }
  }

  /** `parseInt(c.post_id) === parseInt(postId) && c.category === category`: `NaN`
      equals nothing, not even itself. */
  predicate Keeps(c: CommentJson, postId: JsonId, category: string) {
    ParseInt(c.post_id).Some? && ParseInt(c.post_id) == ParseInt(postId) && c.category == category
  }

  /** `xs.filter(keep)`: the elements `keep` accepts, in their order. */
  function Filter<T(!new)>(xs: seq<T>, keep: T -> bool): (r: seq<T>)
    ensures |r| <= |xs|
    ensures forall x :: x in r <==> x in xs && keep(x)
  {
    if xs == [] then []
    else (if keep(xs[0]) then [xs[0]] else []) + Filter(xs[1..], keep)
  }

  lemma {:induction false} FilterAppend<T(!new)>(a: seq<T>, b: seq<T>, keep: T -> bool)
    ensures Filter(a + b, keep) == Filter(a, keep) + Filter(b, keep)
  {
    if a == [] {
      assert a + b == b;
    } else {
      assert (a + b)[0] == a[0] && (a + b)[1..] == a[1..] + b;
      FilterAppend(a[1..], b, keep);
    }
  }

  lemma {:induction false} FilterKeepsAll<T(!new)>(xs: seq<T>, keep: T -> bool)
    requires forall x :: x in xs ==> keep(x)
    ensures Filter(xs, keep) == xs
  {
    if xs != [] {
      FilterKeepsAll(xs[1..], keep);
      assert xs == [xs[0]] + xs[1..];
    }
  }

  /** The test of the fetch filter, as a function value. */
  function KeepsFor(postId: JsonId, category: string): CommentJson -> bool {
    c => Keeps(c, postId, category)
  }

  /** `res.data.filter(...)` in `fetchComments`. */
  function FilterForPost(cs: seq<CommentJson>, postId: JsonId, category: string): (r: seq<CommentJson>)
    ensures |r| <= |cs|
    ensures forall c :: c in r <==> c in cs && Keeps(c, postId, category)
  {
    Filter(cs, KeepsFor(postId, category))
  }

  /** The filter keeps the input order: filtering a concatenation filters each part. */
  lemma FilterForPostAppend(a: seq<CommentJson>, b: seq<CommentJson>, postId: JsonId, category: string)
    ensures FilterForPost(a + b, postId, category)
         == FilterForPost(a, postId, category) + FilterForPost(b, postId, category)
  {
    FilterAppend(a, b, KeepsFor(postId, category));
  }

  /** A list whose every comment passes the filter comes through unchanged. */
  lemma FilterForPostKeepsAll(cs: seq<CommentJson>, postId: JsonId, category: string)
    requires forall c :: c in cs ==> Keeps(c, postId, category)
    ensures FilterForPost(cs, postId, category) == cs
  {
    FilterKeepsAll(cs, KeepsFor(postId, category));
  }

  /** Filtering an already filtered list changes nothing. */
  lemma FilterForPostIdempotent(cs: seq<CommentJson>, postId: JsonId, category: string)
    ensures FilterForPost(FilterForPost(cs, postId, category), postId, category)
         == FilterForPost(cs, postId, category)
  {
    FilterForPostKeepsAll(FilterForPost(cs, postId, category), postId, category);
  }

  // ---------------------------------------------------------------------------
  // renderComments: the reply tree
  // ---------------------------------------------------------------------------

  /** Every listed reply has a larger id than the comment it answers. A reply
      posted through the comment box always does, since ids are autoincrement and
      the box only answers comments already shown; the comment routes themselves
      store any parent id they are given. The page never loops on a list that
      breaks this: with unique ids, a cycle of parent ids is not reachable from
      the top level, so its comments are simply not shown. The assumption is the
      measure on which the termination of this model's rendering rests. */
  predicate ParentsBelow(cs: seq<CommentJson>) {
    forall c :: c in cs && c.parent_comment_id.Some? ==> c.parent_comment_id.value < c.comment_id
  }

  /** The server's primary key: no two listed comments share an id. */
  predicate UniqueIds(cs: seq<CommentJson>) {
    forall i, j :: 0 <= i < j < |cs| ==> cs[i].comment_id != cs[j].comment_id
  }

  /** One rendered comment `<div>` with the `level` it was rendered at. */
  datatype Placed = Placed(comment: CommentJson, level: nat)

  /** `comments.filter(c => c.parent_comment_id === parentId)`. */
  function Children(cs: seq<CommentJson>, parent: Option<nat>): (r: seq<CommentJson>)
    ensures forall c :: c in r ==> c in cs && c.parent_comment_id == parent
  {
    if cs == [] then []
    else (if cs[0].parent_comment_id == parent then [cs[0]] else []) + Children(cs[1..], parent)
  }

  function MaxId(cs: seq<CommentJson>): (m: nat)
    ensures forall c :: c in cs ==> c.comment_id <= m
  {
    if cs == [] then 0
    else
      var m := MaxId(cs[1..]);
      if cs[0].comment_id > m then cs[0].comment_id else m
  }

  /** Termination measure of the recursion: a parent with a larger id is closer to
      the leaves, and `null` (the top level) is above every comment. */
  function Rank(cs: seq<CommentJson>, parent: Option<nat>): nat {
    match parent
    case None => MaxId(cs) + 1
    case Some(p) => if p < MaxId(cs) then MaxId(cs) - p else 0
  }

  /** `renderComments(parentId, level)`: each child of `parentId`, in list order,
      followed by its own replies one level deeper. */
  function Render(cs: seq<CommentJson>, parent: Option<nat>, level: nat): seq<Placed>
    requires ParentsBelow(cs)
    decreases Rank(cs, parent), 1
  {
    RenderEach(cs, parent, Children(cs, parent), level)
  }

  /** The `.map(...)` over the children `kids` of `parent`. */
  function RenderEach(cs: seq<CommentJson>, parent: Option<nat>, kids: seq<CommentJson>, level: nat): seq<Placed>
    requires ParentsBelow(cs)
    requires forall k :: k in kids ==> k in cs && k.parent_comment_id == parent
    decreases Rank(cs, parent), 0, |kids|
  {
    if kids == [] then []
    else [Placed(kids[0], level)] + Render(cs, Some(kids[0].comment_id), level + 1)
         + RenderEach(cs, parent, kids[1..], level)
  }

  /** `renderComments()`: the whole thread, from the top-level comments down. */
  function RenderThread(cs: seq<CommentJson>): seq<Placed>
    requires ParentsBelow(cs)
  {
    Render(cs, None, 0)
  }

  /** What one rendered comment shows besides its text. */
  datatype NodeView = NodeView(
    comment_id: nat,
    author_id: string,
    content: string,
    marginLeft: nat,
    borderLeft: bool,
    authorBadge: bool,
    deleteButton: bool)

  /** The `<div>` of one comment: indent `level * 20` px, a left border below the
      top level, the "(작성자)" badge for the post's author, and the Delete button
      for the comment's own author. */
  function ViewNode(p: Placed, user: Option<SessionUser>, postAuthorId: string): NodeView {
    NodeView(p.comment.comment_id, p.comment.author_id, p.comment.content,
             p.level * 20, p.level > 0,
             p.comment.author_id == postAuthorId,
             user.Some? && user.value.user_id == p.comment.author_id)
  }

  function ViewAll(ps: seq<Placed>, user: Option<SessionUser>, postAuthorId: string): (r: seq<NodeView>)
    ensures |r| == |ps|
    ensures forall i :: 0 <= i < |ps| ==> r[i] == ViewNode(ps[i], user, postAuthorId)
  {
    if ps == [] then [] else [ViewNode(ps[0], user, postAuthorId)] + ViewAll(ps[1..], user, postAuthorId)
  }

  // ---------------------------------------------------------------------------
  // The reference definition: walking up the parent chain
  // ---------------------------------------------------------------------------

  /** The first listed comment with id `id`, as `parent_comment_id` refers to it. */
  function Lookup(cs: seq<CommentJson>, id: nat): (r: Option<CommentJson>)
    ensures r.Some? ==> r.value in cs && r.value.comment_id == id
    ensures r.None? ==> forall c :: c in cs ==> c.comment_id != id
  {
    if cs == [] then None
    else if cs[0].comment_id == id then Some(cs[0])
    else Lookup(cs[1..], id)
  }

  lemma LookupUnique(cs: seq<CommentJson>, c: CommentJson)
    requires UniqueIds(cs) && c in cs
    ensures Lookup(cs, c.comment_id) == Some(c)
  {
    var d := Lookup(cs, c.comment_id).value;
    var i :| 0 <= i < |cs| && cs[i] == c;
    var j :| 0 <= j < |cs| && cs[j] == d;
    if i < j || j < i {
      assert false;
    }
  }

  /** How many parent steps lead from `x` to a comment whose parent is `top`:
      `Some(0)` when `x` itself hangs under `top`, `None` when the chain of parents
      reaches the top level or a missing comment without meeting `top`. */
  function StepsBelow(cs: seq<CommentJson>, x: CommentJson, top: Option<nat>): Option<nat>
    requires ParentsBelow(cs) && x in cs
    decreases x.comment_id
  {
    if x.parent_comment_id == top then Some(0)
    else if x.parent_comment_id.None? then None
    else match Lookup(cs, x.parent_comment_id.value)
      case None => None
      case Some(d) =>
        match StepsBelow(cs, d, top)
        case None => None
        case Some(j) => Some(j + 1)
  }

  /** The ancestor of `x` (or `x` itself) that hangs directly under `top`. */
  function Top(cs: seq<CommentJson>, x: CommentJson, top: Option<nat>): CommentJson
    requires ParentsBelow(cs) && x in cs && StepsBelow(cs, x, top).Some?
    decreases x.comment_id
  {
    if x.parent_comment_id == top then x
    else Top(cs, Lookup(cs, x.parent_comment_id.value).value, top)
  }

  /** A chain can only reach comments with smaller ids. */
  lemma {:induction false} NoneAbove(cs: seq<CommentJson>, z: CommentJson, m: nat)
    requires ParentsBelow(cs) && z in cs && z.comment_id <= m
    ensures StepsBelow(cs, z, Some(m)) == None
    decreases z.comment_id
  {
    if z.parent_comment_id.Some? && z.parent_comment_id != Some(m) {
      var d := Lookup(cs, z.parent_comment_id.value);
      if d.Some? {
        NoneAbove(cs, d.value, m);
      }
    }
  }

  /** A chain from `y` that passes through `x` continues as `x`'s own chain: the
      steps add up and both end under the same top comment. */
  lemma {:induction false} ChainThrough(cs: seq<CommentJson>, y: CommentJson, x: CommentJson, top: Option<nat>, j: nat)
    requires ParentsBelow(cs) && UniqueIds(cs) && y in cs && x in cs
    requires top.None? || top.value < x.comment_id
    requires StepsBelow(cs, y, Some(x.comment_id)) == Some(j)
    ensures StepsBelow(cs, y, top)
         == (if StepsBelow(cs, x, top).Some? then Some(StepsBelow(cs, x, top).value + j + 1) else None)
    ensures StepsBelow(cs, x, top).Some? ==> Top(cs, y, top) == Top(cs, x, top)
    decreases y.comment_id
  {
    var q := y.parent_comment_id.value;
    var d := Lookup(cs, q).value;
    if q == x.comment_id {
      LookupUnique(cs, x);
      assert d == x;
    } else {
      if d.comment_id <= x.comment_id {
        NoneAbove(cs, d, x.comment_id);
        assert false;
      }
      ChainThrough(cs, d, x, top, j - 1);
    }
  }

  /** The top comment under `top` is a child of `top`, and `x` lies in its subtree
      one step less deep than under `top`. */
  lemma {:induction false} TopUnder(cs: seq<CommentJson>, x: CommentJson, top: Option<nat>)
    requires ParentsBelow(cs) && UniqueIds(cs) && x in cs && StepsBelow(cs, x, top).Some?
    ensures Top(cs, x, top) in cs && Top(cs, x, top).parent_comment_id == top
    ensures StepsBelow(cs, x, top) == Some(0) ==> x == Top(cs, x, top)
    ensures StepsBelow(cs, x, top) != Some(0) ==>
      StepsBelow(cs, x, Some(Top(cs, x, top).comment_id)) == Some(StepsBelow(cs, x, top).value - 1)
    decreases x.comment_id
  {
    if x.parent_comment_id != top {
      var d := Lookup(cs, x.parent_comment_id.value).value;
      TopUnder(cs, d, top);
      var t := Top(cs, d, top);
      if StepsBelow(cs, d, top) != Some(0) && x.parent_comment_id == Some(t.comment_id) {
        LookupUnique(cs, t);
        NoneAbove(cs, t, t.comment_id);
        assert false;
      }
    }
  }

  /** `x` is `k` or one of `k`'s (transitive) replies. */
  predicate InSubtree(cs: seq<CommentJson>, x: CommentJson, k: CommentJson)
    requires ParentsBelow(cs) && x in cs
  {
    x == k || StepsBelow(cs, x, Some(k.comment_id)).Some?
  }

  /** For a child `k` of `top`: `x` lies in `k`'s subtree exactly when `x`'s chain
      reaches `top` and `k` is where it does. */
  lemma InSubtreeIff(cs: seq<CommentJson>, x: CommentJson, k: CommentJson, top: Option<nat>)
    requires ParentsBelow(cs) && UniqueIds(cs) && x in cs && k in cs && k.parent_comment_id == top
    ensures InSubtree(cs, x, k) <==> StepsBelow(cs, x, top).Some? && Top(cs, x, top) == k
  {
    if x == k {
    } else if StepsBelow(cs, x, Some(k.comment_id)).Some? {
      ChainThrough(cs, x, k, top, StepsBelow(cs, x, Some(k.comment_id)).value);
    }
    if StepsBelow(cs, x, top).Some? {
      TopUnder(cs, x, top);
    }
  }

  // ---------------------------------------------------------------------------
  // What the rendering shows
  // ---------------------------------------------------------------------------

  /** How many rendered `<div>`s show comment `x`. */
  function Occurrences(ps: seq<Placed>, x: CommentJson): nat {
    if ps == [] then 0 else (if ps[0].comment == x then 1 else 0) + Occurrences(ps[1..], x)
  }

  lemma {:induction false} OccurrencesAppend(a: seq<Placed>, b: seq<Placed>, x: CommentJson)
    ensures Occurrences(a + b, x) == Occurrences(a, x) + Occurrences(b, x)
  {
    if a == [] {
      assert a + b == b;
    } else {
      assert (a + b)[1..] == a[1..] + b;
      OccurrencesAppend(a[1..], b, x);
    }
  }

  /** How many of `kids` have `x` in their subtree. */
  function SubtreesHolding(cs: seq<CommentJson>, kids: seq<CommentJson>, x: CommentJson): nat
    requires ParentsBelow(cs) && x in cs
  {
    if kids == [] then 0
    else (if InSubtree(cs, x, kids[0]) then 1 else 0) + SubtreesHolding(cs, kids[1..], x)
  }

  lemma {:induction false} SubtreesHoldingCount(cs: seq<CommentJson>, kids: seq<CommentJson>, x: CommentJson, top: Option<nat>)
    requires ParentsBelow(cs) && UniqueIds(cs) && x in cs
    requires forall k :: k in kids ==> k in cs && k.parent_comment_id == top
    ensures SubtreesHolding(cs, kids, x)
         == if StepsBelow(cs, x, top).Some? then multiset(kids)[Top(cs, x, top)] else 0
  {
    if kids != [] {
      InSubtreeIff(cs, x, kids[0], top);
      SubtreesHoldingCount(cs, kids[1..], x, top);
      assert kids == [kids[0]] + kids[1..];
    }
  }

  lemma {:induction false} ChildrenCount(cs: seq<CommentJson>, parent: Option<nat>, c: CommentJson)
    ensures multiset(Children(cs, parent))[c] == if c.parent_comment_id == parent then multiset(cs)[c] else 0
  {
    if cs != [] {
      ChildrenCount(cs[1..], parent, c);
      assert cs == [cs[0]] + cs[1..];
    }
  }

  lemma {:induction false} UniqueOnce(cs: seq<CommentJson>, c: CommentJson)
    requires UniqueIds(cs) && c in cs
    ensures multiset(cs)[c] == 1
  {
    assert cs == [cs[0]] + cs[1..];
    if c == cs[0] {
      assert c !in cs[1..] by {
        forall i | 0 <= i < |cs[1..]|
          ensures cs[1..][i] != c
        {
          assert cs[1..][i] == cs[i + 1];
        }
      }
    } else {
      UniqueOnce(cs[1..], c);
    }
  }

  /** Rendering under `parent` shows a comment once when its parent chain reaches
      `parent`, and never otherwise. */
  lemma {:induction false} RenderCount(cs: seq<CommentJson>, parent: Option<nat>, level: nat, x: CommentJson)
    requires ParentsBelow(cs) && UniqueIds(cs) && x in cs
    ensures Occurrences(Render(cs, parent, level), x) == if StepsBelow(cs, x, parent).Some? then 1 else 0
    decreases Rank(cs, parent), 1
  {
    RenderEachCount(cs, parent, Children(cs, parent), level, x);
    SubtreesHoldingCount(cs, Children(cs, parent), x, parent);
    if StepsBelow(cs, x, parent).Some? {
      TopUnder(cs, x, parent);
      ChildrenCount(cs, parent, Top(cs, x, parent));
      UniqueOnce(cs, Top(cs, x, parent));
    }
  }

  lemma {:induction false} RenderEachCount(cs: seq<CommentJson>, parent: Option<nat>, kids: seq<CommentJson>, level: nat, x: CommentJson)
    requires ParentsBelow(cs) && UniqueIds(cs) && x in cs
    requires forall k :: k in kids ==> k in cs && k.parent_comment_id == parent
    ensures Occurrences(RenderEach(cs, parent, kids, level), x) == SubtreesHolding(cs, kids, x)
    decreases Rank(cs, parent), 0, |kids|
  {
    if kids != [] {
      var k := kids[0];
      var sub := Render(cs, Some(k.comment_id), level + 1);
      var rest := RenderEach(cs, parent, kids[1..], level);
      OccurrencesAppend([Placed(k, level)] + sub, rest, x);
      OccurrencesAppend([Placed(k, level)], sub, x);
      RenderCount(cs, Some(k.comment_id), level + 1, x);
      RenderEachCount(cs, parent, kids[1..], level, x);
      NoneAbove(cs, k, k.comment_id);
    }
  }

  /** Every rendered comment is a listed one, rendered at `level` plus the length of
      its chain up to `parent`. */
  lemma {:induction false} RenderPlaced(cs: seq<CommentJson>, parent: Option<nat>, level: nat)
    requires ParentsBelow(cs) && UniqueIds(cs)
    ensures forall p :: p in Render(cs, parent, level) ==>
      p.comment in cs && p.level >= level && StepsBelow(cs, p.comment, parent) == Some(p.level - level)
    decreases Rank(cs, parent), 1
  {
    RenderEachPlaced(cs, parent, Children(cs, parent), level);
  }

  lemma {:induction false} RenderEachPlaced(cs: seq<CommentJson>, parent: Option<nat>, kids: seq<CommentJson>, level: nat)
    requires ParentsBelow(cs) && UniqueIds(cs)
    requires forall k :: k in kids ==> k in cs && k.parent_comment_id == parent
    ensures forall p :: p in RenderEach(cs, parent, kids, level) ==>
      p.comment in cs && p.level >= level && StepsBelow(cs, p.comment, parent) == Some(p.level - level)
    decreases Rank(cs, parent), 0, |kids|
  {
    if kids != [] {
      var k := kids[0];
      var sub := Render(cs, Some(k.comment_id), level + 1);
      RenderPlaced(cs, Some(k.comment_id), level + 1);
      RenderEachPlaced(cs, parent, kids[1..], level);
      forall p | p in sub
        ensures StepsBelow(cs, p.comment, parent) == Some(p.level - level)
      {
        ChainThrough(cs, p.comment, k, parent, p.level - level - 1);
      }
    }
  }

  /** The comments rendered at exactly `level`, in rendering order. */
  function CommentsAt(ps: seq<Placed>, level: nat): seq<CommentJson> {
    if ps == [] then [] else (if ps[0].level == level then [ps[0].comment] else []) + CommentsAt(ps[1..], level)
  }

  lemma {:induction false} CommentsAtAppend(a: seq<Placed>, b: seq<Placed>, level: nat)
    ensures CommentsAt(a + b, level) == CommentsAt(a, level) + CommentsAt(b, level)
  {
    if a == [] {
      assert a + b == b;
    } else {
      assert (a + b)[0] == a[0] && (a + b)[1..] == a[1..] + b;
      CommentsAtAppend(a[1..], b, level);
      var head := if a[0].level == level then [a[0].comment] else [];
      var ta, cb := CommentsAt(a[1..], level), CommentsAt(b, level);
      assert CommentsAt(a + b, level) == head + (ta + cb);
      assert CommentsAt(a, level) == head + ta;
    }
  }

  lemma {:induction false} CommentsAtDeeper(ps: seq<Placed>, level: nat)
    requires forall p :: p in ps ==> p.level > level
    ensures CommentsAt(ps, level) == []
  {
    if ps != [] {
      CommentsAtDeeper(ps[1..], level);
    }
  }

  /** Siblings keep their list order: the comments shown at the level of a call are
      exactly the children of its parent, in the order the list holds them. */
  lemma SiblingsInOrder(cs: seq<CommentJson>, parent: Option<nat>, level: nat)
    requires ParentsBelow(cs) && UniqueIds(cs)
    ensures CommentsAt(Render(cs, parent, level), level) == Children(cs, parent)
  {
    RenderEachAtLevel(cs, parent, Children(cs, parent), level);
  }

  lemma {:induction false} RenderEachAtLevel(cs: seq<CommentJson>, parent: Option<nat>, kids: seq<CommentJson>, level: nat)
    requires ParentsBelow(cs) && UniqueIds(cs)
    requires forall k :: k in kids ==> k in cs && k.parent_comment_id == parent
    ensures CommentsAt(RenderEach(cs, parent, kids, level), level) == kids
  {
    if kids != [] {
      var k := kids[0];
      var sub := Render(cs, Some(k.comment_id), level + 1);
      var rest := RenderEach(cs, parent, kids[1..], level);
      CommentsAtAppend([Placed(k, level)] + sub, rest, level);
      CommentsAtAppend([Placed(k, level)], sub, level);
      RenderPlaced(cs, Some(k.comment_id), level + 1);
      CommentsAtDeeper(sub, level);
      RenderEachAtLevel(cs, parent, kids[1..], level);
      assert kids == [k] + kids[1..];
    }
  }

  /** The replies of a rendered comment, as the nested `renderComments` call draws them. */
  function Subtree(cs: seq<CommentJson>, p: Placed): seq<Placed>
    requires ParentsBelow(cs)
  {
    Render(cs, Some(p.comment.comment_id), p.level + 1)
  }

  /** Every comment of `r` is followed immediately by the whole block of its replies. */
  predicate SubtreesFollow(cs: seq<CommentJson>, r: seq<Placed>)
    requires ParentsBelow(cs)
  {
    forall i :: 0 <= i < |r| ==> FollowedBySubtree(cs, r, i)
  }

  predicate FollowedBySubtree(cs: seq<CommentJson>, r: seq<Placed>, i: nat)
    requires ParentsBelow(cs) && i < |r|
  {
    var t := Subtree(cs, r[i]);
    i + 1 + |t| <= |r| && r[i + 1..i + 1 + |t|] == t
  }

  /** Children render right after their parent: every rendered comment is followed
      immediately by the whole block of its replies. */
  lemma {:induction false} RenderSubtreeFollows(cs: seq<CommentJson>, parent: Option<nat>, level: nat)
    requires ParentsBelow(cs)
    ensures SubtreesFollow(cs, Render(cs, parent, level))
    decreases Rank(cs, parent), 1
  {
    RenderEachSubtreeFollows(cs, parent, Children(cs, parent), level);
  }

  lemma {:induction false} RenderEachSubtreeFollows(cs: seq<CommentJson>, parent: Option<nat>, kids: seq<CommentJson>, level: nat)
    requires ParentsBelow(cs)
    requires forall k :: k in kids ==> k in cs && k.parent_comment_id == parent
    ensures SubtreesFollow(cs, RenderEach(cs, parent, kids, level))
    decreases Rank(cs, parent), 0, |kids|
  {
    if kids != [] {
      var k := kids[0];
      var sub := Render(cs, Some(k.comment_id), level + 1);
      var rest := RenderEach(cs, parent, kids[1..], level);
      var r := RenderEach(cs, parent, kids, level);
      assert r == [Placed(k, level)] + sub + rest;
      RenderSubtreeFollows(cs, Some(k.comment_id), level + 1);
      RenderEachSubtreeFollows(cs, parent, kids[1..], level);
      var o := 1 + |sub|;
      assert r[1..o] == sub;
      assert r[o..o + |rest|] == rest;
      assert Subtree(cs, r[0]) == sub;
      assert FollowedBySubtree(cs, r, 0);
      FollowsShift(cs, r, sub, 1);
      FollowsShift(cs, r, rest, o);
    }
  }

  /** A block of `r` in which every comment is followed by its replies keeps that
      property inside `r`. */
  lemma FollowsShift(cs: seq<CommentJson>, r: seq<Placed>, part: seq<Placed>, o: nat)
    requires ParentsBelow(cs)
    requires o + |part| <= |r| && r[o..o + |part|] == part
    requires SubtreesFollow(cs, part)
    ensures forall i :: o <= i < o + |part| ==> FollowedBySubtree(cs, r, i)
  {
    forall i | o <= i < o + |part|
      ensures FollowedBySubtree(cs, r, i)
    {
      var j := i - o;
      assert FollowedBySubtree(cs, part, j);
      var t := Subtree(cs, part[j]);
      assert r[i] == part[j];
      SliceOfSlice(r, o, |part|, j + 1, j + 1 + |t|);
    }
  }

  /** A slice of a slice is a slice of the whole. */
  lemma SliceOfSlice<T>(r: seq<T>, o: nat, n: nat, lo: nat, hi: nat)
    requires o + n <= |r| && lo <= hi <= n
    ensures r[o..o + n][lo..hi] == r[o + lo..o + hi]
  {
    var whole := r[o..o + n];
    var x, y := whole[lo..hi], r[o + lo..o + hi];
    assert |x| == |y|;
    forall k | 0 <= k < |x|
      ensures x[k] == y[k]
    {
      assert x[k] == whole[lo + k];
    }
  }

  // ---------------------------------------------------------------------------
  // The thread as a whole
  // ---------------------------------------------------------------------------

  /** Every comment whose chain of parents reaches a top-level comment is shown
      exactly once, at a depth equal to the length of that chain; no other comment
      is shown. */
  lemma ThreadRendersReachableOnce(cs: seq<CommentJson>, x: CommentJson)
    requires ParentsBelow(cs) && UniqueIds(cs) && x in cs
    ensures Occurrences(RenderThread(cs), x) == if StepsBelow(cs, x, None).Some? then 1 else 0
    ensures forall p :: p in RenderThread(cs) ==>
      p.comment in cs && StepsBelow(cs, p.comment, None) == Some(p.level)
  {
    RenderCount(cs, None, 0, x);
    RenderPlaced(cs, None, 0);
  }

  /** What each `<div>` of the thread shows: an indent of 20 px per step of the
      comment's parent chain, the author badge exactly for the post's author, and a
      Delete button exactly for the signed-in author of the comment. */
  lemma ThreadViews(cs: seq<CommentJson>, user: Option<SessionUser>, postAuthorId: string)
    requires ParentsBelow(cs) && UniqueIds(cs)
    ensures var r := RenderThread(cs); var v := ViewAll(r, user, postAuthorId);
      forall i :: 0 <= i < |v| ==>
        && r[i].comment in cs
        && v[i].comment_id == r[i].comment.comment_id
        && StepsBelow(cs, r[i].comment, None).Some?
        && v[i].marginLeft == 20 * StepsBelow(cs, r[i].comment, None).value
        && (v[i].borderLeft <==> r[i].comment.parent_comment_id.Some?)
        && (v[i].authorBadge <==> r[i].comment.author_id == postAuthorId)
        && (v[i].deleteButton <==> user.Some? && user.value.user_id == r[i].comment.author_id)
  {
    var r := RenderThread(cs);
    var v := ViewAll(r, user, postAuthorId);
    RenderPlaced(cs, None, 0);
    forall i | 0 <= i < |v|
      ensures r[i].comment in cs && StepsBelow(cs, r[i].comment, None) == Some(r[i].level)
      ensures v[i] == ViewNode(r[i], user, postAuthorId)
    {
      assert r[i] in r;
    }
  }

  /** A comment whose parent is not in the list is hidden, and so is every reply
      below it. */
  lemma OrphanHidden(cs: seq<CommentJson>, x: CommentJson, y: CommentJson)
    requires ParentsBelow(cs) && UniqueIds(cs) && x in cs && y in cs
    requires x.parent_comment_id.Some?
    requires forall c :: c in cs ==> c.comment_id != x.parent_comment_id.value
    requires InSubtree(cs, y, x)
    ensures Occurrences(RenderThread(cs), y) == 0
  {
    assert StepsBelow(cs, x, None) == None;
    if y != x {
      ChainThrough(cs, y, x, None, StepsBelow(cs, y, Some(x.comment_id)).value);
    }
    RenderCount(cs, None, 0, y);
  }

  // ---------------------------------------------------------------------------
  // The component's state: comments, newComment, replyTo
  // ---------------------------------------------------------------------------

  /** The body `handleSubmit` posts to /comments/. */
  datatype CommentPayload = CommentPayload(
    category: string,
    author_id: string,
    post_id: JsonId,
    content: string,
    parent_comment_id: Option<nat>)

  /** One mounted comment box. The props are constants; the three `useState` hooks
      are fields. Request outcomes are parameters: `None` for a response that
      failed, which the handlers only log. */
  class CommentBox {
    const postId: JsonId
    const category: string
    const user: Option<SessionUser>
    const postAuthorId: string
    var comments: seq<CommentJson>
    var newComment: string
    var replyTo: Option<nat>

    /** The box only ever holds comments of its own post and category. */
    ghost predicate Valid()
      reads this
    {
      forall c :: c in comments ==> Keeps(c, postId, category)
    }

    constructor (postId: JsonId, category: string, user: Option<SessionUser>, postAuthorId: string)
      ensures Valid()
      ensures this.postId == postId && this.category == category
      ensures this.user == user && this.postAuthorId == postAuthorId
      ensures comments == [] && newComment == "" && replyTo == None
    {
      this.postId := postId;
      this.category := category;
      this.user := user;
      this.postAuthorId := postAuthorId;
      comments := [];
      newComment := "";
      replyTo := None;
    }

    /** `fetchComments`: on success the list becomes the filtered response; on
        failure it stays as it was. */
    method Fetch(response: Option<seq<CommentJson>>)
      requires Valid()
      modifies this
      ensures Valid()
      ensures response.None? ==> comments == old(comments)
      ensures response.Some? ==> comments == FilterForPost(response.value, postId, category)
      ensures newComment == old(newComment) && replyTo == old(replyTo)
    {
      if response.Some? {
        comments := FilterForPost(response.value, postId, category);
      }
    }

    /** The input's `onChange`. */
    method Type(text: string)
      requires Valid()
      modifies this
      ensures Valid()
      ensures newComment == text
      ensures comments == old(comments) && replyTo == old(replyTo)
    {
      newComment := text;
    }

    /** The Reply button of a rendered comment. */
    method Reply(c: CommentJson)
      requires Valid()
      modifies this
      ensures Valid()
      ensures replyTo == Some(c.comment_id)
      ensures comments == old(comments) && newComment == old(newComment)
    {
      replyTo := Some(c.comment_id);
    }

    /** The Cancel button of the "Replying to" banner. */
    method Cancel()
      requires Valid()
      modifies this
      ensures Valid()
      ensures replyTo == None
      ensures comments == old(comments) && newComment == old(newComment)
    {
      replyTo := None;
    }

    /** `handleSubmit`: without a user nothing is sent and nothing changes. Otherwise
        the payload answers `replyTo` with `newComment`; a successful post clears
        both and re-fetches, a failed one changes nothing. */
    method Submit(posted: bool, refreshed: Option<seq<CommentJson>>) returns (request: Option<CommentPayload>)
      requires Valid()
      modifies this
      ensures Valid()
      ensures user.None? ==> request.None?
      ensures user.Some? ==> request == Some(CommentPayload(category, user.value.user_id, postId,
                                                           old(newComment), old(replyTo)))
      ensures user.Some? && posted ==> newComment == "" && replyTo == None
      ensures user.Some? && posted && refreshed.Some? ==>
        comments == FilterForPost(refreshed.value, postId, category)
      ensures user.None? || !posted ==>
        comments == old(comments) && newComment == old(newComment) && replyTo == old(replyTo)
      ensures refreshed.None? ==> comments == old(comments)
    {
      if user.None? {
        return None;
      }
      request := Some(CommentPayload(category, user.value.user_id, postId, newComment, replyTo));
      if posted {
        newComment := "";
        replyTo := None;
        Fetch(refreshed);
      }
    }

    /** `handleDeleteComment`: nothing happens unless the confirmation is accepted;
        then a DELETE is sent for the comment and, when it succeeds, the list is
        re-fetched. The text being typed and the reply target are kept. */
    method DeleteComment(commentId: nat, confirmed: bool, deleted: bool, refreshed: Option<seq<CommentJson>>)
      returns (request: Option<nat>)
      requires Valid()
      modifies this
      ensures Valid()
      ensures request == (if confirmed then Some(commentId) else None)
      ensures confirmed && deleted && refreshed.Some? ==>
        comments == FilterForPost(refreshed.value, postId, category)
      ensures !(confirmed && deleted && refreshed.Some?) ==> comments == old(comments)
      ensures newComment == old(newComment) && replyTo == old(replyTo)
    {
      if !confirmed {
        return None;
      }
      request := Some(commentId);
      if deleted {
        Fetch(refreshed);
      }
    }
  }
}
