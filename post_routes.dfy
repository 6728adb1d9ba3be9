/** The post router (routes/post.js): `POST /` publishes a post in a circle
    the author belongs to and adds one to the circle's `postCount`; `GET /`
    lists one page of all posts, sorted by a whitelisted field. Uploaded
    files arrive as their stored file names; `JSON.parse` of the tags is the
    parameter `parseTags` (`None` when it throws). */
module PostRoutes {
  import opened Common
  import opened Paging
  import opened AuthMiddleware
  import opened Database
  import opened PostModel

  // ---------------------------------------------------------------------
  // POST /

  const ImagePrefix: string := "/uploads/posts/"

  /** The public path of every uploaded image, in upload order. */
  function ImagePaths(files: seq<string>): (r: seq<string>)
    ensures |r| == |files|
    ensures forall i | 0 <= i < |files| ::
      StartsWith(r[i], ImagePrefix) && r[i][|ImagePrefix|..] == files[i]
  {
    if files == [] then []
    else
      var p := ImagePrefix + files[0];
      assert p[..|ImagePrefix|] == ImagePrefix && p[|ImagePrefix|..] == files[0];
      [p] + ImagePaths(files[1..])
  }

  /** The `forEach` that pushes one path per uploaded file. */
  method BuildImages(files: seq<string>) returns (images: seq<string>)
    ensures images == ImagePaths(files)
  {
    images := [];
    var i := 0;
    while i < |files|
      invariant 0 <= i <= |files|
      invariant images == ImagePaths(files[..i])
    {
      assert files[..i + 1] == files[..i] + [files[i]];
      ImagePathsAppend(files[..i], files[i]);
      images := images + [ImagePrefix + files[i]];
      i := i + 1;
    }
    assert files[..i] == files;
  }

  lemma {:induction false} ImagePathsAppend(files: seq<string>, f: string)
    ensures ImagePaths(files + [f]) == ImagePaths(files) + [ImagePrefix + f]
  {
    if files != [] {
      assert (files + [f])[1..] == files[1..] + [f];
      ImagePathsAppend(files[1..], f);
    }
  }

  /** The multipart body of `POST /`. */
  datatype PostBody = PostBody(
    title: Option<string>,
    content: Option<string>,
    circleId: Option<string>,
    tags: Option<string>)

  /** Why the route refused a post before writing anything. */
  datatype PostRejection =
    | MissingFields       // 400: no title, content or circle id
    | CircleIdMalformed   // 400
    | AuthorIdMalformed   // 400
    | CircleNotFound      // 404
    | NotMember           // 403: the author is not among the circle's members
    | TagsMalformed       // 400: the tags do not parse
  {
    function Status(): nat {
      match this
      case MissingFields | CircleIdMalformed | AuthorIdMalformed | TagsMalformed => 400
      case CircleNotFound => 404
      case NotMember => 403
    }
  }

  predicate FieldsGiven(body: PostBody) {
    Present(body.title) && Present(body.content) && Present(body.circleId)
  }

  /** The author may publish in the circle: both ids are well formed, the
      circle exists and lists the author among its members. */
  predicate MayPublish(db: Db, authorId: Id, body: PostBody, isObjectId: string -> bool)
    requires FieldsGiven(body)
  {
    && isObjectId(body.circleId.value) && isObjectId(authorId)
    && body.circleId.value in db.circles
    && authorId in db.circles[body.circleId.value].members
  }

  /** The checks of `POST /` in route order, ending with the parsed tags
      (`tags || '[]'`: no tags is the empty list). */
  function AdmitPost(db: Db, authorId: Id, body: PostBody, isObjectId: string -> bool,
                     parseTags: string -> Option<seq<TagInput>>): (r: Result<seq<TagInput>, PostRejection>)
    ensures r == Err(MissingFields) <==> !FieldsGiven(body)
    ensures r == Err(CircleIdMalformed) <==> FieldsGiven(body) && !isObjectId(body.circleId.value)
    ensures r == Err(AuthorIdMalformed) <==>
      FieldsGiven(body) && isObjectId(body.circleId.value) && !isObjectId(authorId)
    ensures r == Err(CircleNotFound) <==>
      FieldsGiven(body) && isObjectId(body.circleId.value) && isObjectId(authorId)
      && body.circleId.value !in db.circles
    ensures r == Err(NotMember) <==>
      FieldsGiven(body) && isObjectId(body.circleId.value) && isObjectId(authorId)
      && body.circleId.value in db.circles && authorId !in db.circles[body.circleId.value].members
    ensures r == Err(TagsMalformed) <==>
      FieldsGiven(body) && MayPublish(db, authorId, body, isObjectId)
      && Present(body.tags) && parseTags(body.tags.value).None?
    ensures r.Ok? <==>
      FieldsGiven(body) && MayPublish(db, authorId, body, isObjectId)
      && (Present(body.tags) ==> parseTags(body.tags.value).Some?)
    ensures r.Ok? ==> r.value == (if Present(body.tags) then parseTags(body.tags.value).value else [])
  {
    if !FieldsGiven(body) then Err(MissingFields)
    else if !isObjectId(body.circleId.value) then Err(CircleIdMalformed)
    else if !isObjectId(authorId) then Err(AuthorIdMalformed)
    else if body.circleId.value !in db.circles then Err(CircleNotFound)
    else if authorId !in db.circles[body.circleId.value].members then Err(NotMember)
    else if !Present(body.tags) then Ok([])
    else match parseTags(body.tags.value)
      case None => Err(TagsMalformed)
      case Some(tags) => Ok(tags)
  }

  datatype CreatePostOutcome =
    | PostAuthFailed(auth: AuthOutcome)
    | PostRejected(rejection: PostRejection)
    | PostServerError                       // 500: the schema refused the post
    | PostCreated(id: Id, post: Post)       // 201
  {
    function Status(): nat {
      match this
      case PostAuthFailed(a) => a.Status()
      case PostRejected(e) => e.Status()
      case PostServerError => 500
      case PostCreated(_, _) => 201
    }
  }

  /** `POST /`: on success the post is stored under `newId` with the
      uploaded images, and its circle's `postCount` grows by exactly one
      while every other circle keeps its count; every refusal leaves the
      database as it was. */
  method CreatePost(store: Store, header: Option<string>, body: PostBody, files: seq<string>,
                    verify: string -> Option<Claims>, isObjectId: string -> bool,
                    parseTags: string -> Option<seq<TagInput>>, newId: Id, now: int)
    returns (out: CreatePostOutcome)
    requires Valid(store.View()) && newId !in store.posts
    modifies store
    ensures Valid(store.View())
    ensures old(CountersConsistent(store.View())) ==> CountersConsistent(store.View())
    ensures var auth := Authenticate(header, verify);
      !auth.Authenticated? ==> out == PostAuthFailed(auth) && store.View() == old(store.View())
    ensures var auth := Authenticate(header, verify);
      auth.Authenticated? ==>
        var admitted := AdmitPost(old(store.View()), auth.user.id, body, isObjectId, parseTags);
        && (admitted.Err? ==> out == PostRejected(admitted.error) && store.View() == old(store.View()))
        && (admitted.Ok? ==>
              var made := NewPost(body.title.value, body.content.value, ImagePaths(files),
                                  auth.user.id, body.circleId.value, admitted.value, now);
              && (made.Err? ==> out == PostServerError && store.View() == old(store.View()))
              && (made.Ok? ==>
                    && out == PostCreated(newId, made.value)
                    && store.View() == WithPostCountIncremented(WithPost(old(store.View()), newId, made.value),
                                                                body.circleId.value)))
    ensures out.PostCreated? ==>
      var c := out.post.circleId;
      && c in old(store.circles) && c in store.circles
      && store.circles[c].postCount == old(store.circles[c].postCount) + 1
      && (forall k | k in store.circles && k != c :: store.circles[k] == old(store.circles[k]))
    ensures out.PostCreated? && old(PostCountsConsistent(store.View())) ==> PostCountsConsistent(store.View())
  {
    var auth := Authenticate(header, verify);
    if !auth.Authenticated? {
      return PostAuthFailed(auth);
    }
    var authorId := auth.user.id;
    var admitted := AdmitPost(store.View(), authorId, body, isObjectId, parseTags);
    if admitted.Err? {
      return PostRejected(admitted.error);
    }
    var images := BuildImages(files);
    var made := NewPost(body.title.value, body.content.value, images, authorId, body.circleId.value,
                        admitted.value, now);
    if made.Err? {
      return PostServerError;
    }
    ghost var before := store.View();
    NewPostConsistent(before, newId, made.value);
    PostCountIncrementKeeps(WithPost(before, newId, made.value), body.circleId.value);
    if PostCountsConsistent(before) {
      NewPostCounted(before, newId, made.value);
    }
    store.InsertPost(newId, made.value);
    store.IncrementPostCount(body.circleId.value);
    out := PostCreated(newId, made.value);
  }

  // ---------------------------------------------------------------------
  // GET /

  datatype PostField = ByReplies | ByCreatedAt

  /** The sort the query asks for: one field, ascending or descending. */
  datatype PostSort = PostSort(field: PostField, ascending: bool)

  datatype SortError = InvalidSortField | InvalidSortOrder

  /** `sortBy || 'replies'` must be `replies` or `createdAt`, and
      `parseInt(sortOrder) || -1` must be 1 or -1; otherwise 400. */
  function ChoosePostSort(sortBy: Option<string>, sortOrder: Option<int>): (r: Result<PostSort, SortError>)
    ensures var field, order := OrElse(sortBy, "replies"), OrDefaultInt(sortOrder, -1);
      && (r == Err(InvalidSortField) <==> field != "replies" && field != "createdAt")
      && (r == Err(InvalidSortOrder) <==> (field == "replies" || field == "createdAt") && order != 1 && order != -1)
      && (r.Ok? ==> r.value == PostSort(if field == "replies" then ByReplies else ByCreatedAt, order == 1))
  {
    var field, order := OrElse(sortBy, "replies"), OrDefaultInt(sortOrder, -1);
    if field != "replies" && field != "createdAt" then Err(InvalidSortField)
    else if order != 1 && order != -1 then Err(InvalidSortOrder)
    else Ok(PostSort(if field == "replies" then ByReplies else ByCreatedAt, order == 1))
  }

  /** With no sort parameters the posts come most-replied first. */
  lemma DefaultPostSort()
    ensures ChoosePostSort(None, None) == Ok(PostSort(ByReplies, false))
  {
  }

  function FieldOf(f: PostField, p: Post): int {
    match f
    case ByReplies => p.replies
    case ByCreatedAt => p.createdAt
  }

  /** `a` may come before `b` under the sort. */
  predicate PostInOrder(s: PostSort, a: Post, b: Post) {
    if s.ascending then FieldOf(s.field, a) <= FieldOf(s.field, b)
    else FieldOf(s.field, a) >= FieldOf(s.field, b)
  }

  function PostKey(db: Db, s: PostSort, id: Id): Key {
    if id !in db.posts then (0, 0)
    else if s.ascending then (FieldOf(s.field, db.posts[id]), 0)
    else (-FieldOf(s.field, db.posts[id]), 0)
  }

  /** The query string of `GET /`, with numbers already parsed. */
  datatype PostQuery = PostQuery(
    page: Option<nat>,
    limit: Option<nat>,
    sortBy: Option<string>,
    sortOrder: Option<int>)

  function PostPage(q: PostQuery): nat { OrDefault(q.page, 1) }
  function PostLimit(q: PostQuery): nat { OrDefault(q.limit, 10) }

  /** All posts in the order of the sort, ties in natural order. */
  function SortedPosts(db: Db, natural: seq<Id>, s: PostSort): (r: seq<Id>)
    requires forall i | 0 <= i < |natural| :: natural[i] in db.posts
    ensures multiset(r) == multiset(natural)
    ensures forall i | 0 <= i < |r| :: r[i] in db.posts
    ensures forall i, j | 0 <= i < j < |r| :: PostInOrder(s, db.posts[r[i]], db.posts[r[j]])
  {
    var sorted := SortBy(natural, id => PostKey(db, s, id));
    forall i | 0 <= i < |sorted| ensures sorted[i] in db.posts {
      assert sorted[i] in multiset(natural);
    }
    forall i, j | 0 <= i < j < |sorted| ensures PostInOrder(s, db.posts[sorted[i]], db.posts[sorted[j]]) {
      assert KeyLe(PostKey(db, s, sorted[i]), PostKey(db, s, sorted[j]));
    }
    sorted
  }

  /** The ids of the requested page: `skip((page - 1) * limit).limit(limit)`
      on the sorted posts. */
  function PostWindow(db: Db, natural: seq<Id>, s: PostSort, q: PostQuery): (w: seq<Id>)
    requires forall i | 0 <= i < |natural| :: natural[i] in db.posts
    ensures var sorted, skip := SortedPosts(db, natural, s), Skip(PostPage(q), PostLimit(q));
      && |w| <= PostLimit(q)
      && |w| == (if skip < |sorted| then Min(PostLimit(q), |sorted| - skip) else 0)
      && forall i | 0 <= i < |w| :: skip + i < |sorted| && w[i] == sorted[skip + i]
  {
    Page(SortedPosts(db, natural, s), Skip(PostPage(q), PostLimit(q)), PostLimit(q))
  }

  /** An avatar as `protocol://host/public<path>`, or null when empty. */
  function PublicUrl(protocol: string, host: string, path: string): (r: Option<string>)
    ensures r.None? <==> path == ""
    ensures r.Some? ==> StartsWith(r.value, protocol + "://" + host + "/public")
                        && r.value[|protocol + "://" + host + "/public"|..] == path
  {
    if path == "" then None
    else
      var prefix := protocol + "://" + host + "/public";
      assert (prefix + path)[..|prefix|] == prefix && (prefix + path)[|prefix|..] == path;
      Some(prefix + path)
  }

  datatype AuthorView = AuthorView(id: Id, username: string, avatar: Option<string>)
  datatype CircleView = CircleView(id: Id, name: string, avatar: Option<string>)

  /** A listed post: the stored fields, its author and its circle. */
  datatype PostView = PostView(
    id: Id,
    title: string,
    content: string,
    images: seq<string>,
    tags: seq<Tag>,
    likes: int,
    replies: int,
    favorites: int,
    createdAt: int,
    author: AuthorView,
    circle: CircleView)

  /** `v` shows stored post `id`: the post's own fields, its author's id,
      username and public avatar, and its circle's id, name and public
      avatar. */
  predicate ShowsPost(db: Db, protocol: string, host: string, id: Id, v: PostView)
    requires id in db.posts
    requires db.posts[id].authorId in db.users && db.posts[id].circleId in db.circles
  {
    var p := db.posts[id];
    && v.id == id && v.title == p.title && v.content == p.content
    && v.images == p.images && v.tags == p.tags
    && v.likes == p.likes && v.replies == p.replies && v.favorites == p.favorites
    && v.createdAt == p.createdAt
    && v.author.id == p.authorId
    && v.author.username == db.users[p.authorId].username
    && v.author.avatar == PublicUrl(protocol, host, db.users[p.authorId].avatar)
    && v.circle.id == p.circleId
    && v.circle.name == db.circles[p.circleId].name
    && v.circle.avatar == PublicUrl(protocol, host, db.circles[p.circleId].avatar)
  }

  /** One listed post; `None` when its author or circle is gone (the route
      then reads a field of null and fails). */
  function FormatPost(db: Db, protocol: string, host: string, id: Id): (v: Option<PostView>)
    requires id in db.posts
    ensures v.Some? <==> db.posts[id].authorId in db.users && db.posts[id].circleId in db.circles
    ensures v.Some? ==> ShowsPost(db, protocol, host, id, v.value)
  {
    var p := db.posts[id];
    if p.authorId !in db.users || p.circleId !in db.circles then None
    else
      var u, c := db.users[p.authorId], db.circles[p.circleId];
      Some(PostView(id, p.title, p.content, p.images, p.tags, p.likes, p.replies, p.favorites,
                    p.createdAt,
                    AuthorView(p.authorId, u.username, PublicUrl(protocol, host, u.avatar)),
                    CircleView(p.circleId, c.name, PublicUrl(protocol, host, c.avatar))))
  }

  function FormatPosts(db: Db, protocol: string, host: string, ids: seq<Id>): (vs: Option<seq<PostView>>)
    requires forall i | 0 <= i < |ids| :: ids[i] in db.posts
    ensures vs.Some? <==> forall i | 0 <= i < |ids| :: FormatPost(db, protocol, host, ids[i]).Some?
    ensures vs.Some? ==>
      (|vs.value| == |ids| && forall i | 0 <= i < |ids| :: FormatPost(db, protocol, host, ids[i]) == Some(vs.value[i]))
  {
    if forall i | 0 <= i < |ids| :: FormatPost(db, protocol, host, ids[i]).Some? then
      Some(seq(|ids|, i requires 0 <= i < |ids| => FormatPost(db, protocol, host, ids[i]).value))
    else None
  }

  datatype PostListOutcome =
    | PostsListed(posts: seq<PostView>)   // 200
    | PostSortRejected(error: SortError)  // 400
    | PostListFailed                      // 500
  {
    function Status(): nat {
      match this
      case PostsListed(_) => 200
      case PostSortRejected(_) => 400
      case PostListFailed => 500
    }
  }

  /** `GET /`: an invalid sort is refused before any query; otherwise the
      requested page of posts in the chosen order. `natural` is the
      collection's natural order. */
  function ListPosts(db: Db, natural: seq<Id>, q: PostQuery, protocol: string, host: string): (r: PostListOutcome)
    requires Enumerates(natural, db.posts)
    ensures var s := ChoosePostSort(q.sortBy, q.sortOrder);
      && (r.PostSortRejected? <==> s.Err?)
      && (r.PostSortRejected? ==> Err(r.error) == s)
      && (r.PostsListed? ==>
            var w := PostWindow(db, natural, s.value, q);
            && |r.posts| == |w| <= PostLimit(q)
            && forall i | 0 <= i < |w| :: FormatPost(db, protocol, host, w[i]) == Some(r.posts[i]))
      && (r == PostListFailed <==>
            s.Ok? && exists i | 0 <= i < |PostWindow(db, natural, s.value, q)| ::
              FormatPost(db, protocol, host, PostWindow(db, natural, s.value, q)[i]).None?)
  {
    match ChoosePostSort(q.sortBy, q.sortOrder)
    case Err(e) => PostSortRejected(e)
    case Ok(s) =>
      var w := PostWindow(db, natural, s, q);
      match FormatPosts(db, protocol, host, w)
      case None =>
        assert exists i | 0 <= i < |w| :: FormatPost(db, protocol, host, w[i]).None?;
        PostListFailed
      case Some(views) => PostsListed(views)
  }

  /** The posts of a page follow the chosen sort. */
  lemma PostWindowOrdered(db: Db, natural: seq<Id>, s: PostSort, q: PostQuery)
    requires forall i | 0 <= i < |natural| :: natural[i] in db.posts
    ensures var w := PostWindow(db, natural, s, q);
      forall i, j | 0 <= i < j < |w| ::
        w[i] in db.posts && w[j] in db.posts && PostInOrder(s, db.posts[w[i]], db.posts[w[j]])
  {
    var sorted, skip := SortedPosts(db, natural, s), Skip(PostPage(q), PostLimit(q));
    var w := PostWindow(db, natural, s, q);
    forall i, j | 0 <= i < j < |w|
      ensures w[i] in db.posts && w[j] in db.posts
      ensures PostInOrder(s, db.posts[w[i]], db.posts[w[j]])
    {
      assert skip + i < skip + j < |sorted|;
    }
  }

  /** The listed posts follow the chosen sort. */
  lemma ListedPostsOrdered(db: Db, natural: seq<Id>, q: PostQuery, protocol: string, host: string)
    requires Enumerates(natural, db.posts)
    requires ListPosts(db, natural, q, protocol, host).PostsListed?
    ensures var ps := ListPosts(db, natural, q, protocol, host).posts;
      forall i, j | 0 <= i < j < |ps| ::
        ps[i].id in db.posts && ps[j].id in db.posts
        && PostInOrder(ChoosePostSort(q.sortBy, q.sortOrder).value, db.posts[ps[i].id], db.posts[ps[j].id])
  {
    var s := ChoosePostSort(q.sortBy, q.sortOrder).value;
    var w := PostWindow(db, natural, s, q);
    var ps := ListPosts(db, natural, q, protocol, host).posts;
    PostWindowOrdered(db, natural, s, q);
    forall i | 0 <= i < |ps| ensures ps[i].id == w[i] {
      assert FormatPost(db, protocol, host, w[i]) == Some(ps[i]);
    }
  }
}
