# Forum backend core, modelled in Dafny

This project models the request-handling core of an Express/Mongoose forum
backend. Users register and authenticate with a bearer token. They found
*circles* (topic communities) and publish *posts* and *short videos* in
circles they belong to. They also answer posts with threaded *replies*.

The model covers the following:

- **The database.** The MongoDB collections become an in-memory store: `Database.Db` is a
  snapshot value, and `Database.Store` is a class whose fields are the collections. Each
  `Store` method is one single-step write (`save`, `$inc`, `$push`).
  - The `With...` functions say what each write does to a snapshot.
  - Lemmas prove which invariants each write keeps.
  - The reply invariant: reply links point at existing documents, and a parent always
    belongs to the same post and was stored earlier, so the replies of a post form a forest.
  - The unique indexes on circle names and on user names and emails.
  - The denormalised reply counter of a post.
  - The denormalised post counter of a circle, which counts both its posts and its short videos.
- **Replies** (the main core):
  - the `validatePostId` / `validateParentReply` / `validateReplyToUser` chain, with its
    numbered error codes;
  - reply creation, with the counter increment and the one-element response;
  - the paged reply listing, covering selection, sort choice, skip/limit, `total`, `hasMore`
    and the avatar rewrite.
- **Posts:** the creation checks, the image list and the circle counter; the listing's sort
  whitelist, paging and public URLs.
- **Circles:** creation under a unique name, with a default avatar and the creator as the
  only member. The listing, capped at 50 per page, with member counts and the
  `YYYY-MM-DD HH:MM:SS` date layout. Search by keyword.
- **Short videos:** the upload checks and their three writes; the listing's sort whitelist
  and flat record.
- **Registration:** the ordered password rules, the duplicate check and the new-user defaults.
- **The authentication middleware:** bearer-token extraction and the 401/403 split.

Library calls the code cannot see become function-typed parameters:

- `ObjectId.isValid`;
- `jwt.verify`;
- `JSON.parse` of tags;
- `validator.isEmail`;
- `bcrypt.hash`;
- the case-insensitive `RegExp` of the circle search;
- the local calendar fields and locale renderings of dates.

`CURRENT_URL`, the request's protocol and host, fresh ids and the current time are
parameters too. Each database call of the reply routes that can throw is named in a `faults`
set: the three validator lookups, the save, the increment of the post's `replies`, the
read-back of the saved reply, and the listing's `find`/`countDocuments` pair. The model answers
500 wherever such a call is in the set.

Ids are strings in their canonical lower-case hex form, compared exactly (see "Id spellings"
under "## Left out"). Request fields are `Option<string>`:

- `Common.Present` is JavaScript truthiness;
- `Common.OrElse` is `x || fallback`;
- `Paging.OrDefault` is `parseInt(x) || fallback`, where 0 counts as absent.

The reply and short-video routes read and write fields under other names than their schemas
declare:

- the reply schema declares `postId`, `parentReplyId`, `userId` and `replyToUserId`, but the
  reply routes use `post`, `parentReply`, `user` and `replyToUser`;
- the short-video upload writes `user`, `circle` and `tags`, which the short-video schema does
  not declare.

The records use the route-level names throughout. For replies this is the corrected
behaviour: as written, every reply save fails (see "## Findings").

## Model

| member | source | states |
|---|---|---|
| Common.OrElse | routes/circle.js:56 | `x \|\| fallback`: the field when it is truthy, the fallback otherwise |
| Common.OrNull | routes/reply.js:109-112 | `x \|\| null`: present exactly when the field is truthy, and then the field itself |
| Paging.SortBy | routes/reply.js:39 | a sort on a two-part key: the result is a permutation of the input and sorted by the key |
| Paging.InsertKeepsSorted | routes/reply.js:39 | the sort's insertion step keeps a sorted sequence sorted |
| Paging.Page | routes/reply.js:40-41 | `skip(k).limit(n)`: at most `n` elements, element `i` is input element `k + i` |
| Paging.OrDefault | routes/post.js:230-231 | `parseInt(x) \|\| d`: the parameter unless absent or 0, else the default |
| Paging.OrDefaultInt | routes/post.js:235 | the same for a signed parameter (`sortOrder`) |
| Paging.Skip | routes/post.js:249 | `skip = (page - 1) * limit`, stated as `skip + limit == page * limit` |
| Paging.HasMoreIffMatchesRemain | routes/reply.js:78 | `page * limit < total` holds exactly when matches remain after the current page |
| Paging.PageDrawnFrom | routes/reply.js:39-41 | a page of the sorted result holds only documents of the query |
| Paging.PageOfSorted | routes/reply.js:39-41 | a page of a sorted sequence is sorted |
| Paging.FirstPageIsPrefix | routes/reply.js:40-41 | page 1 is the first `limit` matches |
| AuthMiddleware.Split | middleware/authMiddleware.js:5 | `split(" ")`: at least one piece, and no piece contains the separator |
| AuthMiddleware.JoinSplit | middleware/authMiddleware.js:5 | joining the pieces with the separator gives the header back |
| AuthMiddleware.SplitJoin | middleware/authMiddleware.js:5 | splitting joined separator-free pieces gives the pieces back |
| AuthMiddleware.SplitMany | middleware/authMiddleware.js:5 | `split(" ")` gives two or more pieces exactly when the header holds a space |
| AuthMiddleware.ExtractToken | middleware/authMiddleware.js:5 | there is a token exactly when the header is present and holds a space; the token contains no space |
| AuthMiddleware.BearerToken | middleware/authMiddleware.js:5 | `"<scheme> <token>"` yields exactly the token |
| AuthMiddleware.SecondPiece | middleware/authMiddleware.js:5 | `"<scheme> <token>"` followed by nothing or by a space and anything yields exactly the token: the second space-separated piece |
| AuthMiddleware.NoSpaceNoToken | middleware/authMiddleware.js:5-8 | a header without a space carries no token |
| AuthMiddleware.Authenticate | middleware/authMiddleware.js:4-17 | no token gives 401; a token that fails verification gives 403; otherwise the decoded claims |
| CommentValidators.ValidatePostId | middleware/commentValidators.js:8-33 | missing gives 4001; malformed gives 4002; lookup failure gives 5001; unknown gives 4003; otherwise the post id, each as an if-and-only-if |
| CommentValidators.ValidateParentReply | middleware/commentValidators.js:36-70 | absent passes with no lookup. Otherwise malformed gives 4004, lookup failure 5002, unknown 4005, and a parent under another post 4006; passes exactly when none applies |
| CommentValidators.ValidateReplyToUser | middleware/commentValidators.js:73-95 | absent passes. Otherwise malformed gives 4007, lookup failure 5003 and unknown user 4008; passes exactly when none applies |
| CommentValidators.ValidateChain | routes/reply.js:90-95 | the chain admits a request exactly when its references hold and the lookups it needs answer; it then yields the request's post id |
| CommentValidators.MissingPostIdFirst | middleware/commentValidators.js:12-14 | a missing post id is 400 / 4001 whatever else the request holds |
| CommentValidators.ParentOnOtherPostConflicts | middleware/commentValidators.js:59-64 | a parent under another post is 409 / 4006 |
| CommentValidators.CodesIdentifyRejections | middleware/commentValidators.js:13-93 | distinct rejections have distinct codes; exactly the 500s carry codes 5001 and up |
| ReplyModel.Trim | model/reply.js:19-23 | `trim: true` yields a substring with no white space at either end |
| ReplyModel.TrimIdempotent | model/reply.js:22 | trimming twice is trimming once |
| ReplyModel.TrimEmptyIffAllSpace | model/reply.js:19-23 | the trimmed content is empty exactly when the content is all white space |
| ReplyModel.NewReply | model/reply.js:5-47 | content is required and stored trimmed, so all-white-space content is refused. The references are kept as given (null parent means root), `likes` is 0 and `createdAt` is the creation time |
| ReplyModel.ValidateDoc | model/reply.js:5-47 | `postId`, trimmed `content` and `userId` are required; a valid document is stored with its references, `likes` 0 and `createdAt` now |
| ReplyModel.CastAsWritten | routes/reply.js:107-113 | strict mode keeps only declared paths: `postId` and `userId` stay unset and only `content` survives |
| ReplyModel.Cast | routes/reply.js:107-113 | the route's fields under the schema's names, every reference kept |
| ReplyModel.NewReplyAsWritten | routes/reply.js:107-115 | as written, every save fails on the missing `postId` |
| ReplyModel.NewReplyIsCorrectedSave | model/reply.js:5-47 | the corrected save `NewReply` is validation of the route's fields under the schema's names |
| ReplyModel.ReplySaveFailsAsWritten | routes/reply.js:107-115 | a well-formed reply is refused as written and stored when corrected |
| PostModel.NewPost | model/post.js:4-52 | title and content are required, every tag needs a name and an index, the counters start at 0, and every other field is kept |
| CircleModel.NewCircle | model/circle.js:4-32 | the name is required, `postCount` starts at 0, and the other fields are kept |
| ShortModel.NewShort | model/short.js:5-41 | title and video URL are required; description defaults to `''`; the counters start at 0 |
| UserModel.ParseStatus | model/user.js:23-27 | the status enum accepts exactly `active`, `inactive` and `disabled` |
| UserModel.NewUser | model/user.js:4-93 | username, password and email are required. Roles default to `["user"]`, status to `inactive` (within the enum), and avatar, bio and phone to `''` |
| Database.EmptyValid | model/reply.js:5-47 | an empty database satisfies the store invariant |
| Database.RootOf | model/reply.js:13-17 | following parent links ends at a root reply of the same post, so the replies form a forest |
| Database.WithReplyValid | routes/reply.js:107-115 | storing a reply whose references hold keeps the store invariant |
| Database.WithReplyOrderExact | routes/reply.js:107-115 | a saved reply is listed exactly once in the insertion order |
| Database.IncrementRepliesKeeps | routes/reply.js:118 | `$inc: { replies: 1 }` keeps the store invariant |
| Database.ThreadsKept | model/reply.js:5-47 | a write that touches no reply and removes no post or user keeps the threads valid |
| Database.ReplyThenIncrementConsistent | routes/reply.js:115-118 | a save followed by `$inc: { replies: 1 }` keeps every post's counter equal to its number of replies |
| Database.ReplyWithoutIncrementUndercounts | routes/reply.js:115-118 | a save without the increment leaves that post's counter exactly one short and every other counter exact |
| Database.NewPostConsistent | routes/post.js:145-152 | a new post with 0 replies keeps the store invariant and the reply counters |
| Database.PostCountIncrementKeeps | routes/post.js:155-158 | `$inc: { postCount: 1 }` keeps the store invariant and the reply counters |
| Database.PostAddedCounts | routes/post.js:145-152 | after the post is stored and before the increment, only its circle's `postCount` is off, by exactly one |
| Database.NewPostCounted | routes/post.js:145-158 | a post stored, then its circle's counter incremented, keeps every circle's `postCount` equal to its posts plus its short videos |
| Database.NewShortCounted | routes/short.js:77-96 | the same for a short video stored, pushed to its uploader and counted in its circle |
| Database.ShortAddedCounts | routes/short.js:77-90 | after the video is stored and before the increment, only its circle's `postCount` is off, by exactly one |
| Database.PushKeepsUnique | routes/short.js:87-90 | `$push: { shortVideos: id }` keeps usernames and emails unique |
| Database.NewCircleCounted | routes/circle.js:54-63 | a new circle with `postCount` 0 keeps the post counters exact |
| Database.ShortUploadKeeps | routes/short.js:77-96 | the three writes of an upload keep the store invariant and the reply counters |
| Database.NewCircleKeeps | model/circle.js:5-9 | a circle under a name no stored circle has keeps names unique and the store invariant |
| Database.NewUserKeeps | model/user.js:5-18 | a user whose name and email are unused keeps both unique, and keeps the store invariant and both counters |
| Database.Store.InsertReply | routes/reply.js:115 | the new state is the old one with the reply saved |
| Database.Store.IncrementReplies | routes/reply.js:118 | the post's `replies` grows by one; an unknown id changes nothing |
| Database.Store.InsertPost | routes/post.js:145-152 | the new state is the old one with the post saved |
| Database.Store.IncrementPostCount | routes/post.js:155-158 | the circle's `postCount` grows by one; an unknown id changes nothing |
| Database.Store.InsertCircle | routes/circle.js:63 | the new state is the old one with the circle saved |
| Database.Store.InsertShort | routes/short.js:77-84 | the new state is the old one with the video saved |
| Database.Store.PushShortVideo | routes/short.js:87-90 | the user's `shortVideos` gains the id at its end; an unknown user changes nothing |
| Database.Store.InsertUser | routes/auth.js:77 | the new state is the old one with the user saved |
| ReplyRoutes.RewriteMakesAbsolute | routes/reply.js:60-66 | with an absolute base, a relative non-empty avatar becomes `base + avatar`; absolute, empty and missing avatars are left alone |
| ReplyRoutes.RewriteIdempotent | routes/reply.js:60-66 | with an absolute base, rewriting twice is rewriting once |
| ReplyRoutes.Author | routes/reply.js:37 | the populated author exists exactly when the user does, with name and avatar |
| ReplyRoutes.Addressee | routes/reply.js:38 | the addressee is populated with id and name only, and is null when not set or gone |
| ReplyRoutes.FormatReply | routes/reply.js:47-71 | the view exists exactly when the author does; the fields are copied; the author carries id, username and the rewritten avatar; `replyToUser` is the populated addressee, which has no avatar to rewrite |
| ReplyRoutes.FormatAll | routes/reply.js:47-72 | every reply formats exactly when every author exists, element by element |
| ReplyRoutes.ChooseSort | routes/reply.js:28-33 | `likes` gives likes descending, `time` gives newest first, and anything else gives oldest first |
| ReplyRoutes.Filter | routes/reply.js:22-25 | keeps exactly the replies of the post under the given parent, and null when none is given |
| ReplyRoutes.FilterCountsMatches | routes/reply.js:43 | `total` counts all matches, unpaged |
| ReplyRoutes.OrderedMatches | routes/reply.js:36-39 | the matches, as a permutation, in the chosen order |
| ReplyRoutes.Window | routes/reply.js:40-41 | the page skips `(page-1)*limit` ordered matches and takes `limit`; a limit of 0 takes all |
| ReplyRoutes.ListReplies | routes/reply.js:14-87 | 500 exactly when the query throws, `postId` (or a truthy `parentReply`) is not an ObjectId string so the filter cannot be cast, page 0 comes with a positive limit, or a reply on the page has lost its author. Otherwise `total` is the number of matches, `hasMore` is `page*limit < total`, and the comments are the page's formatted replies |
| ReplyRoutes.ListingShowsWindow | routes/reply.js:35-44 | at most `limit` comments, the page's ids in order, all of the requested post and parent |
| ReplyRoutes.ListingWithoutParentIsRoots | routes/reply.js:24 | without `parentReply` only root replies are listed |
| ReplyRoutes.ListingIsOrdered | routes/reply.js:28-41 | the listed comments follow the chosen order |
| ReplyRoutes.ListingHasMoreIffMatchesRemain | routes/reply.js:78 | `hasMore` holds exactly when matches remain after this page |
| ReplyRoutes.StatusIdentifiesCreation | routes/reply.js:101-160 | 201 is answered exactly on creation; every other outcome is a 4xx or 500 |
| ReplyRoutes.PrepareReply | routes/reply.js:90-113 | the validators run first, then missing content gives 400, then all-white-space content (the schema refuses it) or a failed save gives 500. An admitted reply is fully determined: user from the token, parent and addressee null when not given |
| ReplyRoutes.SaveReply | routes/reply.js:115-156 | the reply is saved and its post's `replies` grows by one. The response holds one comment, `total` 1 and `hasMore` false; a failed increment answers 500 with the reply kept; once the increment succeeded, 201 is answered exactly when the read-back answers and the author exists, otherwise 500 with the reply saved and counted. The store invariant holds throughout and the counters stay exact whenever the increment succeeded |
| ReplyRoutes.CreateReply | routes/reply.js:90-164 | authentication failure and every rejection leave the database unchanged; otherwise as `SaveReply` |
| PostRoutes.ImagePaths | routes/post.js:128-133 | one `/uploads/posts/<filename>` per file, in upload order |
| PostRoutes.BuildImages | routes/post.js:128-133 | the loop builds exactly `ImagePaths(files)` |
| PostRoutes.AdmitPost | routes/post.js:96-142 | in order: missing fields 400, malformed circle id 400, malformed author id 400, unknown circle 404, non-member 403, unparsable tags 400, each as an if-and-only-if. Otherwise the parsed tags, `[]` when none |
| PostRoutes.CreatePost | routes/post.js:86-166 | a refusal changes nothing. Success stores the post and adds exactly 1 to its circle's `postCount`, leaving other circles unchanged, and keeps the store invariant and both counters |
| PostRoutes.ChoosePostSort | routes/post.js:234-246 | `sortBy` defaults to `replies` and must be `replies` or `createdAt`; `sortOrder` defaults to -1 and must be 1 or -1 |
| PostRoutes.SortedPosts | routes/post.js:252-257 | all posts, as a permutation, in the chosen order |
| PostRoutes.PostWindow | routes/post.js:230-259 | `skip = (page-1)*limit`, at most `limit` posts, defaults 1 and 10 |
| PostRoutes.PublicUrl | routes/post.js:281-286 | `protocol://host/public<path>` for a non-empty path, null otherwise |
| PostRoutes.FormatPost | routes/post.js:269-301 | the view exists exactly when author and circle exist; it copies the post's fields and `createdAt`, and carries the author's username, the circle's name and both public avatar URLs |
| PostRoutes.ListPosts | routes/post.js:227-313 | an invalid sort gives 400 with its reason; a missing author or circle on the page gives 500; otherwise the page's formatted posts |
| PostRoutes.PostWindowOrdered | routes/post.js:249-259 | the requested page follows the chosen sort |
| PostRoutes.ListedPostsOrdered | routes/post.js:252-257 | the listed posts follow the chosen order |
| CircleRoutes.AvatarPath | routes/circle.js:44-51 | the first upload under `/uploads/avatar/circle/`, else the default avatar |
| CircleRoutes.CircleRefusal | routes/circle.js:22-40 | no name gives 400, then a taken name gives 400, each as an if-and-only-if; otherwise creation goes on |
| CircleRoutes.CircleRefusalAsWritten | routes/circle.js:22-40 | as written, a refusal with a file uploaded is never answered; without files it is the refusal itself |
| CircleRoutes.NamelessUploadUnanswered | routes/circle.js:22-30 | a nameless form with an avatar gets no answer as written, and 400 with the name missing when corrected |
| CircleRoutes.CreateCircle | routes/circle.js:11-98 | no name gives 400; a taken name gives 400 with nothing saved. An authenticated request is created exactly when neither refusal applies. Then the circle is stored: description defaults to `''`, the creator is the only member, and the avatar is answered absolute. Unique names and both counters are kept |
| CircleRoutes.DecimalRoundTrip | routes/circle.js:136-143 | reading back `String(n)` gives `n` |
| CircleRoutes.Pad2RoundTrip | routes/circle.js:137-141 | a field below 100 pads to two digits that read back as it |
| CircleRoutes.FormatDateLayout | routes/circle.js:135-143 | `YYYY-MM-DD HH:MM:SS`, 19 characters, with the month shown one above `getMonth()` and every field readable back at its place |
| CircleRoutes.SortedCircles | routes/circle.js:120 | the circles, as a permutation, in the chosen order |
| CircleRoutes.CircleLimit | routes/circle.js:113-118 | `min(parseInt(limit) \|\| 10, 50)`, between 1 and 50 |
| CircleRoutes.CircleWindow | routes/circle.js:112-127 | the requested page: `(page-1)*limit` skipped, at most `limit` (at most 50) circles |
| CircleRoutes.CircleWindowFrom | routes/circle.js:212-219 | a page holds only circles of the candidate list |
| CircleRoutes.CircleWindowOrdered | routes/circle.js:120 | the page follows the order: most posts first, then oldest first |
| CircleRoutes.Creator | routes/circle.js:121-124 | the populated creator, or null when gone |
| CircleRoutes.Summarize | routes/circle.js:130-149 | drops `members`, adds `memberCount = members.length`, formats `createdAt` |
| CircleRoutes.ListCircles | routes/circle.js:110-164 | the page's circles summarised, at most 50 |
| CircleRoutes.ChooseSearchOrder | routes/circle.js:176-209 | absent or `postCount` gives most posts first; `createdAt` gives newest first; anything else is refused |
| CircleRoutes.Matching | routes/circle.js:212-217 | exactly the circles whose name or description matches the keyword |
| CircleRoutes.SearchView | routes/circle.js:222-242 | both avatars prefixed with `CURRENT_URL` unconditionally; fails when the creator is gone |
| CircleRoutes.SearchWindow | routes/circle.js:188-219 | the searched page holds at most 50 circles, each of them existing and matching the keyword in its name or description |
| CircleRoutes.SearchCircles | routes/circle.js:174-256 | a missing keyword gives 400, then an unknown sort type gives 400; 500 exactly when a circle of the page has lost its creator; otherwise the page of matches, at most 50 |
| CircleRoutes.SearchFindsMatches | routes/circle.js:212-219 | every found circle matches in its name or description |
| CircleRoutes.SearchFindsInOrder | routes/circle.js:199-219 | the found circles follow the chosen order |
| ShortRoutes.VideoUrl | routes/short.js:79 | `/uploads/videos/shorts/<filename>`, never empty |
| ShortRoutes.AdmitShort | routes/short.js:38-74 | in order: no file 400, unusable circle id 500, unknown circle 404, non-member 403, unparsable tags 400, each as an if-and-only-if. Otherwise the parsed tags, `[]` when none |
| ShortRoutes.UploadShort | routes/short.js:36-115 | a refusal changes nothing. Success stores the video and appends its id to the uploader's `shortVideos`. It adds exactly 1 to the circle's `postCount`, leaving others unchanged, and keeps the invariants |
| ShortRoutes.ChooseShortSort | routes/short.js:124-136 | `sortBy` defaults to `likes` and must be one of the four counters; `sortOrder` defaults to -1 and must be 1 or -1 |
| ShortRoutes.SortedShorts | routes/short.js:141-145 | all videos, as a permutation, in the chosen order |
| ShortRoutes.ShortWindow | routes/short.js:120-147 | `skip = (page-1)*limit`, at most `limit` videos, defaults 1 and 10 |
| ShortRoutes.FormatShort | routes/short.js:153-185 | the flat record with `CURRENT_URL` before the video URL and both avatars; fails when uploader or circle is gone |
| ShortRoutes.ListShorts | routes/short.js:117-201 | an invalid sort gives 400 with its reason; a missing uploader or circle on the page gives 500; otherwise the page's records |
| ShortRoutes.ShortWindowOrdered | routes/short.js:139-147 | the requested page follows the chosen order |
| ShortRoutes.ListedShortsOrdered | routes/short.js:141-147 | the listed videos follow the chosen order |
| AuthRoutes.Utf16Length | routes/auth.js:27 | `password.length` counts UTF-16 code units: between one and two per character, 0 only for the empty string |
| AuthRoutes.Utf16LengthBmp | routes/auth.js:27 | without characters beyond the Basic Multilingual Plane the length is the character count |
| AuthRoutes.EmojiCountsTwice | routes/auth.js:27 | an 11-character password with one emoji has length 12 and passes the length rule |
| AuthRoutes.PasswordRule | routes/auth.js:25-33 | the first failing rule in order: empty, shorter than 12 UTF-16 code units, no upper-case letter, no lower-case letter |
| AuthRoutes.RegisterValidatorAsWritten | routes/auth.js:14-40 | throws exactly when the password is missing, and otherwise agrees with the corrected validator |
| AuthRoutes.MissingPasswordThrows | routes/auth.js:25-35 | a form without a password makes the validator as written throw; the corrected one reports the empty password |
| AuthRoutes.RegisterValidator | routes/auth.js:14-40 | each error key is set exactly when its check fails, with that check's message |
| AuthRoutes.ValidIffAllRulesHold | routes/auth.js:39 | `isValid` holds exactly when every rule holds |
| AuthRoutes.Register | routes/auth.js:43-88 | an invalid form gives 400 with its errors; a taken username or email gives 400; neither writes. A valid, untaken form is registered exactly when the hash is non-empty (the schema requires the password), and then the user is stored with the hashed password, `["user"]`, `active` and empty avatar, bio and phone, keeping names and emails unique |

## Left out

- **Concurrency:** two requests interleaving between a check and a write (a name taken
  between `findOne` and `save`, say) is not modelled. Each route runs alone against the store.
- **I/O and libraries:**
  - File uploads, `multer`, the file system and the removal of uploaded files on failure are
    not modelled. The stored file names are parameters.
  - Password hashing, JWT signing and verification, and e-mail syntax are parameters.
  - The locale rendering of `createdAt` and `publishTime` (`toLocaleString('zh-CN')`) is not
    modelled. Reply and post views carry the stored timestamp, and the short-video listing
    takes the rendering as a parameter.
- **Endpoints outside the core:** login (`POST /login`), the circle hot-search endpoint (it
  calls an external HTTP service), `app.js` wiring and `utils/upload.js`.
- **Mongoose strict mode:** it would drop the route-level reply and short-video fields that
  the schemas do not declare. The model keeps them, so that the routes' own reads see what
  they wrote.
  - For replies the consequence is a finding: every save fails validation. The rest of the
    reply model (`ReplyRoutes.CreateReply`, the listing) follows the corrected save.
  - In particular, the short-video schema requires `userId`, which the upload never sets. The
    model reads the upload's `user` as that field. As written, `Short.create`
    (routes/short.js:77-84) fails validation on `userId` for every upload, so the route answers
    500 and deletes the uploaded file; the model shows the upload as it was evidently meant.
- **ObjectId casts:** the listing's cast of `postId` and `parentReply` to ObjectIds is taken
  to accept exactly the strings the `isObjectId` parameter (`ObjectId.isValid`) accepts.
- **Id spellings:** the model takes every id in the lower-case 24-digit hex form that
  `toString()` produces, and compares ids as exact strings. The database casts a request's id
  before it looks it up. Upper-case hex and 12-character (12-byte) spellings therefore resolve
  to the same document in the source, and this is not modelled. The consequences:
  - `validatePostId` keeps the raw spelling (middleware/commentValidators.js:28).
    `validateParentReply` compares it with the lower-case `parentReply.post.toString()`
    (middleware/commentValidators.js:59).
  - So a reply under a parent of that same post, sent with an upper-case post id, is answered
    409/4006 in the source. The model answers 404/4003.
  - Without a parent, the source stores the reply. The model answers 404/4003.
  - `GET /?postId=<upper-case id>` lists that post's replies in the source. The model lists
    none, with `total` 0.
- **Numbers:** `parseInt` of non-numeric, fractional or negative page and limit values is not
  modelled. Page and limit are natural numbers, and 0 behaves as JavaScript's `||` makes it.
- **Unmodelled 500 branches:** the ones a database or library error causes on the post,
  circle, short-video and registration routes, other than the schema refusals the model
  shows.
  - A circle-search keyword that is not a valid regular expression (it throws) is not
    modelled: matching is a parameter.
  - The circle-creation error handler refers to `multer`, which that file never imports. This
    only matters once `save` itself has thrown, and that is not modelled.
- CircleRoutes.CreateCircle: answers a missing or taken name with 400 whatever was uploaded.
  As written, a refusal with a file uploaded is never answered, because routes/circle.js never
  imports `fs`. `CircleRoutes.CircleRefusalAsWritten` models that, and "## Findings" records
  it. The removal of the uploaded files is not modelled.
- **Tie order:** documents that tie on the sort key come back in insertion order (the
  collection's natural order). MongoDB leaves this order open.
- **Sort choice:** the reply listing knows `likes` and `time`; any other `sort` value, or
  none, gives oldest-first (routes/reply.js:28-33). No `sort` value is refused, and the model
  does the same.
- **Failed increment:** the save and the reply-counter increment are two separate writes with
  no transaction. If the increment fails after the save, the answer is 500 and the reply stays
  stored. The model does the same (`ReplyRoutes.SaveReply`) and proves the counter is then exactly one short
  (`Database.ReplyWithoutIncrementUndercounts`).
- **Lean copies:** the listing's in-place mutation of the lean reply copies is modelled as
  building new view values. No stored document is changed by a listing.

## Findings

| source | as written | input that shows it | evidently intended | confidence | as-written member | corrected member |
|---|---|---|---|---|---|---|
| routes/reply.js:107-113 | the route builds the reply with `post` and `user`, but model/reply.js:7-11 and 25-29 declare `postId` and `userId` as required. Strict mode drops the undeclared fields, so `newReply.save()` fails validation and POST /reply always answers 500 | any request that passes the validators, e.g. `{ postId: "p1", content: "hello" }` from user `u1` | hand the schema its own paths (`postId`, `parentReplyId`, `userId`, `replyToUserId`), so that the reply is stored and answered 201 | high; not executed | ReplyModel.NewReplyAsWritten (with ReplyModel.ReplySaveFailsAsWritten) | ReplyModel.NewReply (shown equal to the corrected cast by ReplyModel.NewReplyIsCorrectedSave; used by ReplyRoutes.PrepareReply) |
| routes/circle.js:22-40 | the refusal branches call `fs.unlinkSync` for each uploaded file, but the file never imports `fs`. The ReferenceError reaches the catch block, which calls `fs.unlinkSync` again and throws out of the handler, so no response is sent | a form without `name` (or with a taken name) and one uploaded avatar `a.png` | remove the files and answer 400 with the refusal | high; not executed | CircleRoutes.CircleRefusalAsWritten (with CircleRoutes.NamelessUploadUnanswered) | CircleRoutes.CircleRefusal (used by CircleRoutes.CreateCircle) |
| routes/auth.js:35 | `validator.equals(data.password, ...)` passes `undefined` when the form has no password; `validator` asserts a string and throws, so the request is answered 500 | `{ username: "alice", email: "alice@example.com" }` with no `password` | read the password as line 25 does (`data.password \|\| ""`), so the form is refused with 400 and the empty-password message | high; not executed | AuthRoutes.RegisterValidatorAsWritten (with AuthRoutes.MissingPasswordThrows) | AuthRoutes.RegisterValidator (used by AuthRoutes.Register) |
