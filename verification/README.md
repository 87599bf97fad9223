# Campus lost-and-found board, modelled in Dafny

The system is a campus lost-and-found board. A Flask server keeps these tables:
- users, who must be approved by an administrator before they can log in;
- lost-item, found-item and share-item posts;
- notices, which only administrators may write;
- threaded comments.

A React client shows a paged feed of lost items, a notice board with keyword search, a sign-up form with a duplicate-id check, and a threaded comment box under every post.

The model covers the server's route handlers and the client's logic:

- **Server tables.** Each table is a class. It holds a `map` from primary key to record and, for the autoincrement tables, the next id. Each route is a method that returns the HTTP status and changes the map exactly as the handler changes the database. A commit that the database would refuse is modelled as a failure of the table's own constraints:
  - a missing NOT NULL column;
  - a duplicate primary key;
  - a duplicate phone number.

  Such a commit gives 500 and leaves the table unchanged.
- **Row order.** The order in which the database returns rows is a parameter `scan` that lists every key exactly once. `ORDER BY created_at DESC` is an insertion sort proved to be ordered and a permutation.
- **Login session.** The session of `auth_routes.py` is a class holding a string-keyed map.
- **Client pages.** Each page is a class with its `useState` fields. Each handler is a method. Every network answer, `window.confirm` result and clock reading is a parameter. The pure helpers are functions with their properties proved as lemmas:
  - title shortening, relative times, zero-padded dates and row numbers;
  - the comment counter and the `parseInt` filter;
  - the recursive comment renderer.
- **Files** (one module per source file, plus shared vocabulary):
  - `common.dfy`: shared vocabulary;
  - `models.dfy`: records and column defaults;
  - `uploads.dfy`: the upload filter and the `image_urls` encoding;
  - `ordering.dfy`: newest-first sorting;
  - the remaining files follow the source's own files.

## Model

| member | source | states |
|---|---|---|
| Models.ParseCategory | server/app/models.py:65-68 | An enum member is found exactly for the three strings "lost_item", "found_item" and "share_item". The member found carries the string looked up, and every member is found by its own value. |
| Models.NoticeIsNotACategory | server/app/models.py:65-68 | Example, one input: "notice" is not a comment category, so the enum lookup fails for it. The all-inputs fact is `Models.ParseCategory`'s contract. |
| CommentRoutes.CommentTable.GetComments | server/app/routes/comment_routes.py:8-25 | Every stored comment appears once, as stored, whatever its post or category; every entry is a stored comment. |
| CommentRoutes.ListingCorrect | server/app/routes/comment_routes.py:10-24 | A listing in any database order has one entry per stored comment. It contains each stored comment and nothing else. |
| CommentRoutes.ListingAppend | server/app/routes/comment_routes.py:12-24 | The append loop lists each row in scan order: the listing of two scans is the listing of the first followed by that of the second. |
| CommentRoutes.CommentTable.GetComment | server/app/routes/comment_routes.py:28-40 | 404 and no body for a missing id; otherwise 200 with the comment stored under that id. |
| CommentRoutes.CommentTable.CreateComment | server/app/routes/comment_routes.py:42-60 | A category that is not an enum value gives 400 and stores nothing. A body missing a NOT NULL column gives 500 and stores nothing. Otherwise the comment is stored under a fresh id with the category, author, post, content and parent as given, and that id is returned with 201. |
| CommentRoutes.CommentTable.UpdateComment | server/app/routes/comment_routes.py:62-75 | A missing id gives 404, and an invalid category key gives 400; both leave the table unchanged. Otherwise only the category (if given) and the content (if given) change. Post, author and parent never change. |
| CommentRoutes.CommentTable.DeleteComment | server/app/routes/comment_routes.py:77-84 | A missing id gives 404 and changes nothing. Otherwise exactly that comment is removed. Every other comment, replies included, stays as it was, so a reply keeps a dangling parent id. |
| CommentRoutes.ViewOf | server/app/routes/comment_routes.py:14-23 | A listed comment keeps its id and parent id, and its category text reads back as the stored enum member. |
| CommentRoutes.DetailOf | server/app/routes/comment_routes.py:33-40 | A single comment keeps its id and parent id, and its category text reads back as the stored enum member. |
| CommentRoutes.CreatableBody | server/app/models.py:72-76 | Defines the NOT NULL columns a new comment needs besides its category: author, post id and content. |
| CommentsComponent.ParseIntOfString | client/src/components/CommentsComponent.js:18-20 | `parseInt` of an integer's decimal text gives that integer back, so a post id sent as a string matches the same id sent as a number. |
| CommentsComponent.ParseDigits | client/src/components/CommentsComponent.js:19 | `parseInt` of the decimal digits of a natural number gives the number. |
| CommentsComponent.ParseDigitsAfterSign | client/src/components/CommentsComponent.js:19 | `parseInt` of "-" followed by the digits of a positive number gives its negation. |
| CommentsComponent.ParseIntText | client/src/components/CommentsComponent.js:19 | Defines `parseInt` on text: leading ASCII blanks skipped, an optional sign, then the longest digit prefix; no digits gives NaN (`None`). ParseDigits, ParseDigitsAfterSign and ParseIntOfString state its properties. |
| CommentsComponent.ParseInt | client/src/components/CommentsComponent.js:19 | Defines `parseInt` of a JSON id: a number is itself, text is parsed, null is NaN. |
| CommentsComponent.Keeps | client/src/components/CommentsComponent.js:18-20 | Defines the filter's test: the comment's post id parses to a number equal to the parsed box post id (NaN equals nothing), and the categories are equal. |
| CommentsComponent.FilterForPost | client/src/components/CommentsComponent.js:18-20 | A comment is kept if and only if it is in the response, its post id parses to the same integer as the box's post id, and its category is the box's category. |
| CommentsComponent.FilterForPostAppend | client/src/components/CommentsComponent.js:18-20 | The filter keeps the input order: filtering a concatenation is the concatenation of the filtered parts. |
| CommentsComponent.FilterForPostKeepsAll | client/src/components/CommentsComponent.js:18-20 | A list whose every comment passes the filter comes through unchanged. |
| CommentsComponent.FilterForPostIdempotent | client/src/components/CommentsComponent.js:18-21 | Filtering an already filtered list changes nothing. |
| CommentsComponent.Children | client/src/components/CommentsComponent.js:60-61 | Every child picked for a parent is a listed comment whose parent id is that parent. |
| CommentsComponent.Lookup | client/src/components/CommentsComponent.js:61 | A parent id refers to a listed comment with that id, or to none when no listed comment has it. |
| CommentsComponent.Render | client/src/components/CommentsComponent.js:59-88 | Defines `renderComments(parentId, level)`: each child of the parent, in list order, followed by its own rendering one level deeper. RenderCount through OrphanHidden state its properties. |
| CommentsComponent.RenderEach | client/src/components/CommentsComponent.js:60-87 | Defines the `.map` over the children: one child placed at the level, then its replies, then the next child. |
| CommentsComponent.RenderThread | client/src/components/CommentsComponent.js:93 | Defines the thread as `renderComments()`: no parent, level 0. |
| CommentsComponent.ViewNode | client/src/components/CommentsComponent.js:63-83 | Defines what one comment shows: 20 px of indent per level, a left border for a reply, the author badge, the delete button for its own author. ThreadViews states it for the whole thread. |
| CommentsComponent.InSubtreeIff | client/src/components/CommentsComponent.js:59-87 | For a child `k` of `top`, `x` is in `k`'s reply subtree exactly when `x`'s parent chain reaches `top` through `k`. This ties the recursive rendering to the parent-chain definition. |
| CommentsComponent.RenderCount | client/src/components/CommentsComponent.js:59-87 | Rendering under a parent shows a comment exactly once when its parent chain reaches that parent, and never otherwise. |
| CommentsComponent.RenderPlaced | client/src/components/CommentsComponent.js:59-87 | Every rendered comment is listed, and it is rendered at the call's level plus the number of parent steps from it up to the call's parent. |
| CommentsComponent.SiblingsInOrder | client/src/components/CommentsComponent.js:60-62 | The comments rendered at a call's own level are exactly the parent's children, in list order. |
| CommentsComponent.RenderSubtreeFollows | client/src/components/CommentsComponent.js:62-86 | Every rendered comment is immediately followed by the whole block of its replies: the nested call at line 85 renders right after its parent. |
| CommentsComponent.ThreadRendersReachableOnce | client/src/components/CommentsComponent.js:59-93 | In the whole thread, a comment whose parent chain reaches a top-level comment is shown exactly once, at a depth equal to its chain length. Any other comment is not shown. |
| CommentsComponent.ThreadViews | client/src/components/CommentsComponent.js:63-83 | For each shown comment: the indent is 20 px per parent step. There is a left border exactly for a reply. The "(작성자)" badge shows if and only if the comment's author is the post's author. The Delete button shows if and only if a user is logged in and is the comment's author. |
| CommentsComponent.OrphanHidden | client/src/components/CommentsComponent.js:61-93 | A comment whose parent is not in the list is not shown, and neither is any comment in its reply subtree. |
| CommentsComponent.CommentBox.constructor | client/src/components/CommentsComponent.js:5-8 | A new box has no comments, an empty input and no reply target. |
| CommentsComponent.CommentBox.Fetch | client/src/components/CommentsComponent.js:14-25 | A response replaces the comments by the filtered response, and a failed request keeps them. The input and the reply target do not change. |
| CommentsComponent.CommentBox.Type | client/src/components/CommentsComponent.js:104-109 | The input takes the typed text; nothing else changes, and the box still holds only its own post's comments. |
| CommentsComponent.CommentBox.Reply | client/src/components/CommentsComponent.js:76 | The reply target becomes the clicked comment's id; nothing else changes, and the box still holds only its own post's comments. |
| CommentsComponent.CommentBox.Cancel | client/src/components/CommentsComponent.js:95-101 | The reply target is cleared; nothing else changes, and the box still holds only its own post's comments. |
| CommentsComponent.CommentBox.Submit | client/src/components/CommentsComponent.js:27-45 | Without a user nothing is sent and nothing changes. With a user, the payload carries the typed text and the reply target as `parent_comment_id`. On success the input empties, the reply target clears and the list is refetched. On failure nothing changes. |
| CommentsComponent.CommentBox.DeleteComment | client/src/components/CommentsComponent.js:48-56 | A request is sent exactly when the user confirms. The list changes only after a successful delete and a successful refetch. |
| Uploads.LastIndexOf | server/app/routes/lost_item_routes.py:19 | The position found holds the character, and no later position does; no position is found only when the character is absent. |
| Uploads.AllowedFile | server/app/routes/lost_item_routes.py:18-19 | A file name is accepted if and only if it has a dot and the lower-cased text after its last dot is png, jpg, jpeg or gif. |
| Uploads.UpperCaseExtensionAllowed | server/app/routes/notice_routes.py:19-20 | Example, one input: the extension test ignores case, so "photo.PNG" is accepted. The all-inputs fact is `Uploads.AllowedFile`'s if-and-only-if. |
| Uploads.InnerExtensionIgnored | server/app/routes/lost_item_routes.py:19 | Example, one input: only the text after the last dot counts, so "a.png.zip" is refused. The all-inputs fact is `Uploads.AllowedFile`'s if-and-only-if. |
| Uploads.Split | server/app/routes/lost_item_routes.py:80 | `split(",")` gives at least one piece, and no piece holds a comma. |
| Uploads.SplitJoin | server/app/routes/lost_item_routes.py:54-80 | Splitting the comma-join of one or more comma-free pieces gives the pieces back. |
| Uploads.JoinSplit | server/app/routes/lost_item_routes.py:54-80 | Joining the pieces of a split gives the text back. |
| Uploads.CommaInUrlSplits | server/app/routes/lost_item_routes.py:54-80 | Example, one input: a URL holding a comma does not survive and reads back as two URLs. The all-inputs round trip, for comma-free URLs, is `Uploads.UrlsRoundTrip`. |
| Uploads.EncodeUrls | server/app/routes/lost_item_routes.py:54 | The stored column is NULL exactly for an empty URL list. |
| Uploads.DecodeUrls | server/app/routes/lost_item_routes.py:80 | Non-empty stored text reads back as at least one URL. |
| Uploads.UrlsRoundTrip | server/app/routes/lost_item_routes.py:54-80 | A list of non-empty, comma-free URLs is read back exactly as it was stored, the empty list included. |
| Uploads.EmptyUrlIsLost | server/app/routes/notice_routes.py:51-84 | Example, one input: the single-URL list [""] is stored as the empty string and read back as no URLs. The all-inputs round trip is `Uploads.UrlsRoundTrip`. |
| Uploads.AcceptedUrls | server/app/routes/lost_item_routes.py:38-44 | Every URL produced belongs to an uploaded file that passes `allowed_file`, and there are never more URLs than files. |
| Uploads.AcceptedUrlsAppend | server/app/routes/lost_item_routes.py:38-44 | Accepted files keep their upload order: two batches give the first batch's URLs followed by the second's. |
| Uploads.RejectedFileSkipped | server/app/routes/lost_item_routes.py:40-41 | A file that fails `allowed_file` adds no URL. |
| Uploads.AcceptedUrlsComplete | server/app/routes/lost_item_routes.py:38-44 | The converse of `AcceptedUrls`' contract: every uploaded file that passes `allowed_file` has its URL among the accepted ones. |
| Uploads.AcceptedFileKept | server/app/routes/lost_item_routes.py:40-44 | A file that passes `allowed_file` adds its URL after the URLs of the files before it. |
| Uploads.CollectImageUrls | server/app/routes/notice_routes.py:38-45 | The upload loop produces exactly the accepted URLs, in order. |
| Ordering.Insert | server/app/routes/lost_item_routes.py:68 | Inserting into a sorted list adds exactly that element. |
| Ordering.InsertKeepsOrder | server/app/routes/lost_item_routes.py:68 | Inserting into a newest-first list keeps it newest-first. |
| Ordering.SortNewestFirstCorrect | server/app/routes/notice_routes.py:73 | `ORDER BY created_at DESC` gives a newest-first permutation of the rows. |
| Ordering.SortNewestFirst | server/app/routes/notice_routes.py:73 | Defines one newest-first order, by insertion. SortNewestFirstCorrect proves it newest first and a permutation of its input. |
| Common.RowsOf | server/app/routes/lost_item_routes.py:68 | The rows a scan reads: one per scanned key, each the row stored under that key, in scan order. |
| LostItemRoutes.ViewOf | server/app/routes/lost_item_routes.py:70-86 | A shown post keeps its id and creation time, and its URLs are the decoded column. |
| LostItemRoutes.NewPost | server/app/routes/lost_item_routes.py:47-55 | The new row has the given id, author and creation time, the column defaults for status and views, and no image column exactly when no upload was accepted. |
| LostItemRoutes.Storable | server/app/models.py:24-30 | Defines the NOT NULL columns the form has to fill. |
| LostItemRoutes.LostItemTable.CreateLostItem | server/app/routes/lost_item_routes.py:23-64 | A missing or unknown author gives 400 and stores nothing. A missing NOT NULL field gives 500 and stores nothing. Otherwise one post is stored under a fresh id with the accepted uploads' URLs, and 201 returns that id. |
| LostItemRoutes.LostItemTable.GetLostItems | server/app/routes/lost_item_routes.py:66-88 | The list holds every stored post once, as stored, newest first, and nothing else. |
| LostItemRoutes.ListingCorrect | server/app/routes/lost_item_routes.py:68-86 | For any database order: one entry per post, newest first, every post present, and every entry a stored post. |
| LostItemRoutes.OrderedRows | server/app/routes/lost_item_routes.py:68 | The sorted rows are as many as the posts, newest first, and contain every stored post and nothing else. |
| LostItemRoutes.ViewsOrder | server/app/routes/lost_item_routes.py:70-86 | Turning rows into their JSON form keeps the newest-first order. |
| LostItemRoutes.ViewsMembers | server/app/routes/lost_item_routes.py:70-86 | Each row is shown, and each shown entry comes from a row. |
| LostItemRoutes.LostItemTable.GetLostItem | server/app/routes/lost_item_routes.py:90-115 | 404 and nothing changed for a missing id. Otherwise only that post's view count changes, by exactly one, and the answer shows the incremented count. |
| LostItemRoutes.LostItemTable.DeleteLostItem | server/app/routes/lost_item_routes.py:117-128 | 404 and nothing changed for a missing id; otherwise exactly that post is removed. |
| FoundItemRoutes.NewPost | server/app/routes/found_item_routes.py:43-56 | A new post gets the given id and zero views; a missing `resolved` is false, a missing `status` is true, and `image_urls` is stored verbatim. |
| FoundItemRoutes.Patched | server/app/routes/found_item_routes.py:67-74 | For each of the eight updatable fields (title, item name, place, time, content, image URLs, resolved, status): a key absent from the body keeps the stored value, and a present key stores the body's value. Id, author, creation time and views never change. |
| FoundItemRoutes.EmptyPatchKeepsPost | server/app/routes/found_item_routes.py:67-74 | An update without keys leaves the post as it was. |
| FoundItemRoutes.PatchIdempotent | server/app/routes/found_item_routes.py:67-74 | Sending the same update twice has the effect of sending it once. |
| FoundItemRoutes.PatchCompose | server/app/routes/found_item_routes.py:67-74 | Two updates in a row act as one update carrying the later value of each key. |
| FoundItemRoutes.FoundItemTable.GetFoundItems | server/app/routes/found_item_routes.py:7-22 | One entry per stored post, in database order, each exactly the stored post. |
| FoundItemRoutes.FoundItemTable.GetFoundItem | server/app/routes/found_item_routes.py:24-41 | 404 for a missing id; otherwise the stored post, with its view count and URL text unchanged. |
| FoundItemRoutes.FoundItemTable.CreateFoundItem | server/app/routes/found_item_routes.py:43-59 | 500 and nothing stored without a NOT NULL field; otherwise the new post under a fresh id, returned with 201. |
| FoundItemRoutes.FoundItemTable.UpdateFoundItem | server/app/routes/found_item_routes.py:61-76 | 404 and nothing changed for a missing id; otherwise only that post changes, to its patched form. |
| FoundItemRoutes.FoundItemTable.DeleteFoundItem | server/app/routes/found_item_routes.py:78-86 | 404 and nothing changed for a missing id; otherwise exactly that post is removed. |
| ShareItemRoutes.NewPost | server/app/routes/share_item_routes.py:35-44 | A new post gets the given id and zero views. Its status is true unless the body says false. |
| ShareItemRoutes.CreateOverridesModelDefault | server/app/routes/share_item_routes.py:43 | Without a status key the route stores true, unlike the column default false (models.py line 60). |
| ShareItemRoutes.Patched | server/app/routes/share_item_routes.py:55-58 | For title, content, image URLs and status: a key absent from the body keeps the stored value, and a present key stores the body's value. Id, author, creation time and views never change. |
| ShareItemRoutes.PatchIdempotent | server/app/routes/share_item_routes.py:55-58 | The same update twice is the same update once. |
| ShareItemRoutes.EmptyPatchKeepsPost | server/app/routes/share_item_routes.py:55-58 | An update without keys changes nothing. |
| ShareItemRoutes.ShareItemTable.GetShareItems | server/app/routes/share_item_routes.py:7-18 | One entry per stored post, in database order, each exactly the stored post. |
| ShareItemRoutes.ShareItemTable.GetShareItem | server/app/routes/share_item_routes.py:20-33 | 404 for a missing id; otherwise the stored post with its view count unchanged. |
| ShareItemRoutes.ShareItemTable.CreateShareItem | server/app/routes/share_item_routes.py:35-47 | 500 and nothing stored without a NOT NULL field; otherwise the new post under a fresh id, returned with 201. |
| ShareItemRoutes.ShareItemTable.UpdateShareItem | server/app/routes/share_item_routes.py:49-60 | 404 and nothing changed for a missing id; otherwise only that post changes, to its patched form. |
| ShareItemRoutes.ShareItemTable.DeleteShareItem | server/app/routes/share_item_routes.py:62-70 | 404 and nothing changed for a missing id; otherwise exactly that post is removed. |
| NoticeRoutes.ViewOf | server/app/routes/notice_routes.py:77-86 | A shown notice keeps its id, and its URLs are the decoded column. |
| NoticeRoutes.FilterByKeyword | server/app/routes/notice_routes.py:63-71 | An empty keyword keeps every notice. Otherwise a notice is kept if and only if its title or content contains the keyword, ignoring case. |
| NoticeRoutes.KeepMatching | server/app/routes/notice_routes.py:65-71 | A notice is kept if and only if it is listed and it matches the keyword. |
| NoticeRoutes.KeywordCaseBlind | server/app/routes/notice_routes.py:65-71 | Matching ignores the keyword's case. |
| NoticeRoutes.TitleFindsItself | server/app/routes/notice_routes.py:65-71 | A notice is found by any piece of its own title. |
| NoticeRoutes.LowerContains | server/app/routes/notice_routes.py:65-71 | Lower-casing keeps a substring a substring. |
| NoticeRoutes.PageArg | server/app/routes/notice_routes.py:61-73 | The page used is at least 1 and is the requested page when that is at least 1. |
| NoticeRoutes.LimitArg | server/app/routes/notice_routes.py:62-73 | The page size is 10 without the argument, the argument when it is at least 1, and 20 otherwise. |
| NoticeRoutes.TotalPages | server/app/routes/notice_routes.py:88-94 | No pages exactly for no items; otherwise the smallest page count that holds all items. |
| NoticeRoutes.PageSlice | server/app/routes/notice_routes.py:73-74 | Page p holds the items from position (p-1)*limit on, at most `limit` of them, in order. It is empty past the end. |
| NoticeRoutes.ItemOnItsPage | server/app/routes/notice_routes.py:73-74 | Every item lies on a page between 1 and the page count, at the expected row. |
| NoticeRoutes.PageBeyondIsEmpty | server/app/routes/notice_routes.py:73-74 | A page past the last one is empty. |
| NoticeRoutes.MatchingCorrect | server/app/routes/notice_routes.py:63-72 | The query's rows are newest first. They contain every matching notice, and every row is a stored notice that matches. |
| NoticeRoutes.KeptRows | server/app/routes/notice_routes.py:63-71 | The keyword filter over all rows keeps exactly the matching stored notices. |
| NoticeRoutes.MatchingCount | server/app/routes/notice_routes.py:65-74 | No notice appears twice in the query's rows (their ids are distinct), and there are exactly as many rows as stored notices the keyword selects. |
| NoticeRoutes.MatchingDistinct | server/app/routes/notice_routes.py:65-73 | The filtered and ordered rows hold no row twice. |
| NoticeRoutes.IsAdmin | server/app/routes/notice_routes.py:29-36 | Defines the admin check: the author id is given, names a stored user, and that user is an administrator. |
| NoticeRoutes.ILikeContains | server/app/routes/notice_routes.py:69-70 | Defines `ilike('%k%')`: a non-NULL column that contains the keyword, both ASCII lower-cased. KeywordCaseBlind and TitleFindsItself state its properties. |
| NoticeRoutes.Matches | server/app/routes/notice_routes.py:68-71 | Defines the keyword filter: the title or the content matches. |
| NoticeRoutes.Matching | server/app/routes/notice_routes.py:65-73 | Defines the query's rows before paging: the scanned rows, filtered when the keyword is non-empty, newest first. MatchingCorrect and MatchingCount state its properties. |
| NoticeRoutes.NoticeTable.CreateNotice | server/app/routes/notice_routes.py:23-57 | An unknown author gives 400 and a non-admin author 403; in both cases nothing is stored. An admin's notice is stored under a fresh id with the accepted uploads' URLs. |
| NoticeRoutes.NoticeTable.GetNotices | server/app/routes/notice_routes.py:59-94 | The answer is the requested page of the matching notices, newest first, with the page count. The matching count equals the number of stored notices the keyword selects. The page never holds more than the page size. |
| NoticeRoutes.NoticeTable.GetNotice | server/app/routes/notice_routes.py:96-114 | 404 and nothing changed for a missing id. Otherwise only that notice's view count goes up by one, and the answer shows it. |
| NoticeRoutes.NoticeTable.UpdateNotice | server/app/routes/notice_routes.py:116-134 | 404 comes before the admin check. A non-admin gets 403 and nothing changes. Otherwise only title and content change, each only if given. |
| NoticeRoutes.NoticeTable.DeleteNotice | server/app/routes/notice_routes.py:136-151 | 404 comes first. A missing or non-admin `author_id` argument gives 403 and removes nothing. An admin removes exactly that notice. |
| UserRoutes.ViewOf | server/app/routes/user_routes.py:10-19 | A listed user keeps id, phone, admin flag and confirmation (the password is not part of the view). |
| UserRoutes.PendingOf | server/app/routes/user_routes.py:98-102 | A pending entry keeps the user's id and confirmation flag. |
| UserRoutes.NewUser | server/app/routes/user_routes.py:44-56 | A new user has the body's id and phone. It is never confirmed, and it is admin exactly when the body says true. |
| UserRoutes.Patched | server/app/routes/user_routes.py:72-80 | For each of the nine updatable fields (password, name, admission year, grade, class, student number, phone, admin flag, confirmation): a key absent from the body keeps the stored value, and a present key stores the body's value. The id never changes. |
| UserRoutes.EmptyPatchKeepsUser | server/app/routes/user_routes.py:72-80 | A body with no keys changes nothing. |
| UserRoutes.PatchIdempotent | server/app/routes/user_routes.py:72-80 | The same update twice is the same as once. |
| UserRoutes.PutKeepsPhonesUnique | server/app/models.py:15 | Storing a user whose phone no other user has keeps phone numbers unique. |
| UserRoutes.PhoneTaken | server/app/models.py:15 | Defines what the unique phone column refuses at commit: another user than the one written already has the phone. |
| UserRoutes.Complete | server/app/models.py:8-15 | Defines the NOT NULL columns a new user needs. |
| UserRoutes.UserTable.GetUser | server/app/routes/user_routes.py:22-37 | 404 for an unknown id; otherwise that user's view. |
| UserRoutes.UserTable.GetUsers | server/app/routes/user_routes.py:7-20 | Every user appears, each once, as stored; nothing else appears. |
| UserRoutes.UserTable.GetPendingUsers | server/app/routes/user_routes.py:94-103 | Exactly the unconfirmed users, each once. |
| UserRoutes.UserTable.CreateUser | server/app/routes/user_routes.py:39-64 | A missing or empty id gives 400. A missing column, an existing id or a phone in use gives 500 and leaves the table unchanged. 201 happens exactly otherwise, and it stores the new user under its id. |
| UserRoutes.UserTable.UpdateUser | server/app/routes/user_routes.py:66-82 | 404 for an unknown id. A patched phone that another user has gives 500 and nothing changes. Otherwise only that user changes, to its patched form, and the set of ids stays. |
| UserRoutes.UserTable.ApproveUser | server/app/routes/user_routes.py:106-118 | 404 for an unknown id. Otherwise the user becomes confirmed, and the admin flag is overwritten by the body's value, false when absent. |
| UserRoutes.UserTable.DeleteUser | server/app/routes/user_routes.py:84-91 | 404 for an unknown id; otherwise exactly that user is removed. |
| AuthRoutes.StatusOf | server/app/routes/auth_routes.py:13-40 | 200, 400, 401 and 403 correspond one-to-one to success, missing credentials, bad credentials and no approval. |
| AuthRoutes.Given | server/app/routes/auth_routes.py:13 | Defines Python truthiness of an optional string: present and non-empty. |
| AuthRoutes.Authenticate | server/app/routes/auth_routes.py:10-27 | Missing or empty credentials are refused first. An unknown id and a wrong password give the same refusal. An unapproved account is refused only after its password matched. Success means the password matched and the account is confirmed. |
| AuthRoutes.MissingRefusedBeforeLookup | server/app/routes/auth_routes.py:13-14 | With a credential missing, the answer does not depend on the user table. |
| AuthRoutes.ApprovalHiddenWithoutPassword | server/app/routes/auth_routes.py:16-26 | With a wrong password, an existing account gets the same answer as an unknown id, so approval status does not leak. |
| AuthRoutes.IdentityOf | server/app/routes/auth_routes.py:34-40 | The identity shown carries the user's id, admin flag and confirmation. |
| AuthRoutes.Session.constructor | server/app/routes/auth_routes.py:29-31 | A new session is empty. |
| AuthRoutes.Session.Login | server/app/routes/auth_routes.py:7-40 | The status follows the guard chain. Only a successful login writes the session, with user_id, user_name and is_admin, keeping any other key. The answer reports the account as confirmed. |
| AuthRoutes.Session.Logout | server/app/routes/auth_routes.py:42-45 | The session is emptied. |
| AuthRoutes.Session.Me | server/app/routes/auth_routes.py:47-61 | 401 without a logged-in user, 404 when that user no longer exists, otherwise 200 with the user as stored now. |
| AuthRoutes.LoginThenMe | server/app/routes/auth_routes.py:16-31 | A successful authentication returns the account stored under the id the body gave, which is the id Login writes to the session. |
| AuthRoutes.LoginMe | server/app/routes/auth_routes.py:7-61 | On one session, a successful POST /login followed by GET /me gives 200 twice, and /me reports the identity login reported. |
| LostItemsPage.ShortenTitle | client/src/pages/LostItemsPage.js:32-34 | A title of at most 13 characters is unchanged. A longer one becomes its first 13 characters followed by "...", so the result never exceeds 16 characters. |
| LostItemsPage.ShortenTitleIdempotent | client/src/pages/LostItemsPage.js:32-34 | Shortening a shortened title changes nothing. |
| LostItemsPage.RelativeTime | client/src/pages/LostItemsPage.js:37-55 | Minutes are shown exactly while the floored minute count is under 60. Hours are then shown in 1..23, days in 1..29, and months from 1 on. |
| LostItemsPage.RelativeTimeUnits | client/src/pages/LostItemsPage.js:41-53 | The shown hours, days and months are the elapsed milliseconds floored by an hour, a day and 30 days respectively. |
| LostItemsPage.RelativeTimeMonotone | client/src/pages/LostItemsPage.js:37-55 | An older post never shows a smaller unit than a newer one. |
| LostItemsPage.RelativeTimeText | client/src/pages/LostItemsPage.js:37-55 | Defines the card's text: the count RelativeTime picks, followed by its unit ("분전", "시간전", "일전" or "달전"). |
| LostItemsPage.FutureShowsNegativeMinutes | client/src/pages/LostItemsPage.js:40-43 | A date in the future shows a negative number of minutes. |
| LostItemsPage.CountForPost | client/src/pages/LostItemsPage.js:86-93 | Counting under a post id's decimal key counts exactly the lost-item comments of that post. |
| LostItemsPage.CountComments | client/src/pages/LostItemsPage.js:83-97 | After the loop, a key is present exactly when some lost-item comment has that post id, and it maps to the number of them. Other categories count nothing. |
| LostItemsPage.ShownCountIsCommentsOn | client/src/pages/LostItemsPage.js:257 | Every card shows the number of lost-item comments on its own post, 0 when there are none. |
| LostItemsPage.ShownCount | client/src/pages/LostItemsPage.js:257 | Defines the count on a card: the stored count under the decimal key of the post id, or 0 when there is none. ShownCountIsCommentsOn states what it shows. |
| LostItemsPage.WithField | client/src/pages/LostItemsPage.js:99-101 | The named field takes the value; the status field never changes. |
| LostItemsPage.CardDeleteWithinDetailActions | client/src/pages/LostItemsPage.js:398-400 | Whoever sees the card's delete button also sees the detail actions. An admin who is not the author sees the actions but not the card button. "찾기 완료" is only offered for unresolved items. |
| LostItemsPage.ShowsCardDelete | client/src/pages/LostItemsPage.js:260 | Defines the card's delete button: shown to the logged-in author only. |
| LostItemsPage.ShowsDetailActions | client/src/pages/LostItemsPage.js:398 | Defines the detail actions: shown to an administrator or the author. |
| LostItemsPage.ShowsMarkFound | client/src/pages/LostItemsPage.js:398-400 | Defines the "찾기 완료" button: within the detail actions, and only while the item is unresolved. |
| LostItemsPage.FeedPage.constructor | client/src/pages/LostItemsPage.js:9-25 | The page starts on page 1 of 1 with no items, no counts and an empty form. |
| LostItemsPage.FeedPage.FetchLostItems | client/src/pages/LostItemsPage.js:66-80 | A response replaces the items and the page count, and a failure keeps them. The current page does not change. |
| LostItemsPage.FeedPage.FetchCommentCounts | client/src/pages/LostItemsPage.js:83-97 | A response replaces the counts by the per-post lost-item comment counts, and a failure keeps them. |
| LostItemsPage.FeedPage.PageChange | client/src/pages/LostItemsPage.js:182-186 | Only a page between 1 and the page count is taken; a page within range stays within range. |
| LostItemsPage.FeedPage.TypeSearch | client/src/pages/LostItemsPage.js:203 | The search term takes the typed text; the page stays. |
| LostItemsPage.FeedPage.Search | client/src/pages/LostItemsPage.js:189-192 | The page goes back to 1. |
| LostItemsPage.FeedPage.ChangeField | client/src/pages/LostItemsPage.js:99-101 | One form field takes the typed value; nothing else changes. |
| LostItemsPage.FeedPage.ChooseImages | client/src/pages/LostItemsPage.js:103-105 | The chosen files replace the previous choice. |
| LostItemsPage.FeedPage.SubmitRegister | client/src/pages/LostItemsPage.js:109-144 | Without a user or user id nothing is sent and nothing changes. Otherwise the form, files and author are sent. On success the form and files are reset and the modal closes; on failure nothing changes. |
| LostItemsPage.FeedPage.ItemClick | client/src/pages/LostItemsPage.js:148-156 | A fetched item becomes the selected one and the detail opens; a failure changes nothing. |
| LostItemsPage.FeedPage.DeletePost | client/src/pages/LostItemsPage.js:159-168 | A request is sent exactly on confirmation; the detail closes only after a successful delete. |
| LostItemsPage.FeedPage.MarkAsFound | client/src/pages/LostItemsPage.js:171-180 | A request is sent exactly on confirmation. Only a successful update marks the selected item resolved, and nothing else changes. |
| NoticeBoardPage.NoticeRelativeTime | client/src/pages/NoticeBoardPage.js:17-44 | No date gives nothing. Under a minute, a future date included, gives "방금 전". Then minutes 1..59, hours 1..23, days 1..29, months 1..11, and years from 1 on. |
| NoticeBoardPage.AgreesWithFeed | client/src/pages/NoticeBoardPage.js:23-43 | From one minute on, the notice board shows the same minute, hour, day and month counts as the lost-item feed. Twelve months or more become years. |
| NoticeBoardPage.NoticeAgeText | client/src/pages/NoticeBoardPage.js:17-44 | Defines the age text: nothing, "방금 전", or the count followed by its unit. |
| NoticeBoardPage.Pad2 | client/src/pages/NoticeBoardPage.js:51-54 | The padded text is all digits, at least two of them (exactly two below 100), and denotes the number. |
| NoticeBoardPage.FullDateFields | client/src/pages/NoticeBoardPage.js:47-56 | After the year, the date has fixed-width two-digit fields at fixed offsets. Read back, they give month+1, day, hour and minute. |
| NoticeBoardPage.FullDate | client/src/pages/NoticeBoardPage.js:47-56 | Defines "Y-MM-DD HH:MM" with the month counted from 1. FullDateFields states its layout. |
| NoticeBoardPage.RowNumberIsPosition | client/src/pages/NoticeBoardPage.js:239 | A row's number is its 1-based position in the whole matching list, as the server pages it. |
| NoticeBoardPage.RowNumbersIncrease | client/src/pages/NoticeBoardPage.js:239 | Row numbers are distinct across pages and grow with the page and the row. |
| NoticeBoardPage.RowNumber | client/src/pages/NoticeBoardPage.js:239 | Defines the first column's number. RowNumberIsPosition states what it counts. |
| NoticeBoardPage.ShowsAdminButtons | client/src/pages/NoticeBoardPage.js:213 | Defines the register and delete buttons: administrators only. |
| NoticeBoardPage.DeleteRequestAsWritten | client/src/pages/NoticeBoardPage.js:151-160 | The page's delete request names the notice and carries no `author_id` argument. |
| NoticeBoardPage.AsWrittenDeleteRefused | client/src/pages/NoticeBoardPage.js:154 | The server refuses the request as written for every user table. |
| NoticeBoardPage.DeleteRequestFor | server/app/routes/notice_routes.py:143-146 | The corrected request names the notice and the logged-in user as `author_id`. |
| NoticeBoardPage.DeleteRequestForAdminAccepted | server/app/routes/notice_routes.py:143-146 | The corrected request passes the admin check for a stored administrator. |
| NoticeBoardPage.NoticeBoard.constructor | client/src/pages/NoticeBoardPage.js:59-70 | The page starts on page 1 of 1 with no notices and an empty form. |
| NoticeBoardPage.NoticeBoard.FetchNotices | client/src/pages/NoticeBoardPage.js:81-95 | A response replaces the rows and the page count, and a failure keeps them. |
| NoticeBoardPage.NoticeBoard.PageChange | client/src/pages/NoticeBoardPage.js:162-166 | Only a page between 1 and the page count is taken, so a page within range stays within range. |
| NoticeBoardPage.NoticeBoard.TypeSearch | client/src/pages/NoticeBoardPage.js:207 | The search term takes the typed text. |
| NoticeBoardPage.NoticeBoard.Search | client/src/pages/NoticeBoardPage.js:168-171 | The page goes back to 1. |
| NoticeBoardPage.NoticeBoard.ChangeField | client/src/pages/NoticeBoardPage.js:97-99 | The title or the content takes the typed value. |
| NoticeBoardPage.NoticeBoard.ChooseImages | client/src/pages/NoticeBoardPage.js:101-103 | The chosen files replace the previous choice. |
| NoticeBoardPage.NoticeBoard.SubmitRegister | client/src/pages/NoticeBoardPage.js:105-137 | A request is built exactly for a logged-in administrator with an id. Otherwise nothing changes. On success the form resets and the modal closes. |
| NoticeBoardPage.NoticeBoard.NoticeClick | client/src/pages/NoticeBoardPage.js:139-149 | A fetched notice becomes the selected one and the detail opens. |
| NoticeBoardPage.NoticeBoard.DeleteNotice | client/src/pages/NoticeBoardPage.js:151-160 | A request, carrying the user as `author_id`, is sent exactly on confirmation. The detail closes only after a successful delete. |
| RegisterPage.WithField | client/src/pages/RegisterPage.js:24-34 | Exactly the named field takes the value; each of the other eight fields keeps its own. |
| RegisterPage.PayloadOf | client/src/pages/RegisterPage.js:87-96 | The payload carries the form's id and password. |
| RegisterPage.PayloadKeepsAccountFields | client/src/pages/RegisterPage.js:87-96 | The payload loses nothing but the confirmation: the form is recovered from the payload plus the confirmation. |
| RegisterPage.IdAvailability | client/src/pages/RegisterPage.js:58-69 | A 2xx lookup marks the id taken and a 404 marks it free. Any other failure leaves the previous verdict. |
| RegisterPage.AvailableIffUnused | client/src/pages/RegisterPage.js:58-66 | Against the user routes, the check reports an id free exactly when no user has it. |
| RegisterPage.Mismatch | client/src/pages/RegisterPage.js:37-46 | The warning shows if and only if the change was to one of the two password fields and both passwords are non-empty and differ. |
| RegisterPage.OtherFieldClearsWarning | client/src/pages/RegisterPage.js:37-46 | A change to any other field hides the warning, even while the passwords still differ. |
| RegisterPage.SignUp.constructor | client/src/pages/RegisterPage.js:8-21 | The form starts empty, with no check made and no warning. |
| RegisterPage.SignUp.Change | client/src/pages/RegisterPage.js:24-50 | The field takes the value. A change to the id forgets the last check. The warning is recomputed from the new form. A pending lookup goes on. |
| RegisterPage.SignUp.StartCheck | client/src/pages/RegisterPage.js:53-58 | Nothing happens for an empty id. Otherwise GET /users/<id> goes out for the id in the form, that id is recorded as the one asked about, and the check is in progress. The form and the verdict do not change. |
| RegisterPage.SignUp.FinishCheckAsWritten | client/src/pages/RegisterPage.js:58-69 | The lookup's answer sets the verdict, whatever id the form holds now, and the check ends. A 404 records the id asked about as the one found free. |
| RegisterPage.SignUp.FinishCheck | client/src/pages/RegisterPage.js:58-69 | The answer sets the verdict only while the form still holds the id asked about; an answer about an id edited since leaves the verdict as it is. The check ends, and a "free" verdict is always about the form's current id. |
| RegisterPage.SignUp.Submit | client/src/pages/RegisterPage.js:73-106 | A request is sent exactly when the id was found free and the passwords are equal. Because editing the id resets the verdict and a stale answer is dropped, the request carries the id that was checked. On success the page moves to login. |
| RegisterPage.StaleAnswerAccepted | client/src/pages/RegisterPage.js:53-70 | Check "a", change the id to "b" while the lookup is pending, then receive 404 for "a": the page as written marks "b" free although only "a" was checked, and the submit guard lets the form through. |
| RegisterPage.StaleAnswerDropped | client/src/pages/RegisterPage.js:53-70 | With the corrected second half, the same events leave "b" without a verdict and the free-verdict invariant holds. |

## Left out

- HTTP, Flask routing, JSON parsing, CORS, SQLAlchemy sessions and the React renderer are not modelled. Request bodies are `Option` fields (a missing key is `None`), and every network answer on the client is a parameter.
- JSON `null` sent explicitly for a key is not distinguished from a missing key.
- The clock is a parameter: creation times are an integer `now`. `formatRelativeTime` takes the elapsed milliseconds, and `formatFullDate` takes the local calendar fields, so time zones and `Date` parsing are left out.
- `secure_filename`, `uuid`, `file.save` and `send_from_directory` are foreign calls. A saved upload is an opaque stored name, and the `serve_uploaded_file` routes are not modelled.
- Foreign keys (a comment's parent, a post's author) are not enforced, because the database engine's foreign-key setting is not part of the model. The commit failures modelled are missing NOT NULL columns, duplicate primary keys and duplicate phone numbers. Column lengths and SQLite's type coercion are left out, which matters because the sign-up form sends the year, grade, class and student numbers as text.
- Case-insensitive matching (`ilike`, `str.lower`) uses ASCII lower-casing only. The `%` and `_` wildcards inside a search keyword are taken literally.
- `parseInt` is modelled for decimal text: leading ASCII space, tab, line feed or carriage return, a sign, digits. The other characters JavaScript skips as white space (vertical tab, form feed, no-break space, Unicode separators), hexadecimal prefixes and fractional parts are left out.
- Pagination follows Flask-SQLAlchemy 3's `paginate(..., error_out=False)`: a page below 1 becomes 1, and a page size below 1 becomes 20. That library is not part of this model.
- RegisterPage.AvailableIffUnused: holds only for ids that reach the user route unchanged. The page puts the id into the URL without encoding it. An id containing "/" gets a routing 404 and shows as free even when that user exists. An id containing "?" or "#" is cut at that character, so a shorter id is looked up. "." and ".." are normalised away, and "%41" is decoded to "A". The lemma assumes the answer is the membership test for the id as typed, so it does not cover any of these.
- LostItemsPage.ShortenTitle: counts the title in characters (code points). JavaScript's `length` and `substring` count UTF-16 units. A title with characters outside the Basic Multilingual Plane, such as emoji, is therefore cut at a different place in the page, or not cut at all. Korean syllables are single units, so Korean titles are not affected.
- Asynchrony is left out: overlapping fetches, double submissions and React's batched state updates. Each handler runs to completion as one step, except the sign-up page's duplicate-id check, which is split at its `await` so that edits made while the lookup is pending are modelled.
- `alert`, `console.error`, navigation other than the sign-up redirect, and modal show/hide toggles not driven by a handler are not modelled.
- Werkzeug prefers the static `/users/pending` route over `/users/<user_id>`, so an account whose id is "pending" cannot be fetched. The model treats GET /users/<id> as a plain lookup.
- The lost-item list route returns a bare list, while the client reads `lost_items` and `total_pages` from it (server/app/routes/lost_item_routes.py:88 against client/src/pages/LostItemsPage.js:75-76). The client's fetch takes the items and page count as given.
- The client's "찾기 완료" calls PUT /lost-items/<id>, which has no server route. `MarkAsFound` takes the outcome as a parameter.
- The lost-item register form sends `status` false, but the create route ignores it and stores the column default true.
- `NoticePost` is imported by the notice routes but not defined in models.py. Its fields are taken from the route's constructor call and response bodies.
- The notice board's comment box uses the category "notice", which the comment routes refuse with 400 (`Models.NoticeIsNotACategory`).
- CommentRoutes.CommentTable.CreateComment: the commit does not check that the parent comment or the author exists, because foreign keys are not modelled.
- LostItemsPage.FeedPage.FetchLostItems: takes the items and page count the page would read, rather than the bare list the server sends.
- CommentsComponent.Render, CommentsComponent.RenderEach, CommentsComponent.RenderThread and the lemmas about them (RenderCount, RenderPlaced, SiblingsInOrder, RenderSubtreeFollows, ThreadRendersReachableOnce, ThreadViews, OrphanHidden, InSubtreeIff and their helpers) require `ParentsBelow`: every listed reply has a larger id than its parent, which is the measure their termination rests on. The comment routes store any `parent_comment_id` they are given, so a list in which a reply names a later comment (or itself) as parent is not covered: the model says nothing about how, or whether, the page renders it.
- RegisterPage.SignUp.Submit: the promise that the request carries the checked id rests on the corrected FinishCheck. The page as written can send an id nobody checked (see Findings).
- NoticeBoardPage.NoticeBoard.DeleteNotice: sends the corrected request rather than the page's own (see Findings).

## Findings

| source | as written | input that shows it | evidently intended | confidence | as-written member | corrected member |
|---|---|---|---|---|---|---|
| client/src/pages/NoticeBoardPage.js:154 with server/app/routes/notice_routes.py:143-146 | The notice board deletes with `DELETE /notices/<id>` and no `author_id` query argument. The route looks the argument up, finds nothing and answers 403 (or 404). | An administrator confirms the delete of any stored notice; the request carries no `author_id`, so `IsAdmin(None, users)` is false. | The request names the logged-in administrator as `author_id`, which the route then accepts. | not executed | NoticeBoardPage.AsWrittenDeleteRefused | NoticeBoardPage.DeleteRequestForAdminAccepted |
| client/src/pages/RegisterPage.js:58-64 | `checkDuplicateId` reads the id, awaits GET /users/<id>, then sets the verdict. Editing the id while the lookup is pending resets the verdict, but the late answer sets it again, now for the edited id. | Type "a", click 중복확인, change the id to "b" before the answer comes, then 404 arrives for "a": "b" shows as available and the form can be submitted with "b" unchecked. | The answer counts only while the form still holds the id it was asked about. | not executed | RegisterPage.StaleAnswerAccepted | RegisterPage.SignUp.FinishCheck |
