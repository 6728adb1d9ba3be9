/** The short-video router (routes/short.js): `POST /upload` stores an
    uploaded video in a circle the uploader belongs to, records it on the
    uploader and counts it in the circle; `GET /` lists videos under a
    whitelisted sort.

    `CURRENT_URL` is the parameter `base`; the stored name multer gave the
    upload is `filename` (absent when no file came); `JSON.parse` of the
    tags is `parseTags`; `mongoose.isValidObjectId`, which decides whether
    `findById` can cast the circle id, is `isObjectId`; the `zh-CN`
    rendering of the publication time is `localeTime`. */
module ShortRoutes {
  import opened Common
  import opened Paging
  import opened AuthMiddleware
  import opened Database
  import opened ShortModel

  // ---------------------------------------------------------------------
  // POST /upload

  const VideoDir: string := "/uploads/videos/shorts/"

  /** Where the stored video is served from. */
  function VideoUrl(filename: string): (r: string)
    ensures StartsWith(r, VideoDir) && r[|VideoDir|..] == filename && r != ""
  {
    var r := VideoDir + filename;
    assert r[..|VideoDir|] == VideoDir && r[|VideoDir|..] == filename;
    r
  }

  /** The multipart fields of `POST /upload`. */
  datatype ShortBody = ShortBody(
    title: Option<string>,
    description: Option<string>,
    circleId: Option<string>,
    tags: Option<string>)

  /** Why an upload was refused before anything was written. */
  datatype ShortRejection =
    | VideoMissing       // 400: no file
    | CircleIdUnusable   // 500: `findById` cannot cast the circle id
    | CircleNotFound     // 404
    | NotMember          // 403
    | TagsMalformed      // 400: `JSON.parse` throws
  {
    function Status(): nat {
      match this
      case VideoMissing | TagsMalformed => 400
      case CircleIdUnusable => 500
      case CircleNotFound => 404
      case NotMember => 403
    }
  }

  /** The checks of `POST /upload` in route order, ending with the parsed
      tags (none, or an empty string, is the empty list). The circle of an
      admitted upload is `body.circleId.value`. */
  function AdmitShort(db: Db, userId: Id, filename: Option<string>, body: ShortBody,
                      isObjectId: string -> bool, parseTags: string -> Option<seq<string>>)
    : (r: Result<seq<string>, ShortRejection>)
    ensures r == Err(VideoMissing) <==> filename.None?
    ensures r == Err(CircleIdUnusable) <==>
      filename.Some? && body.circleId.Some? && !isObjectId(body.circleId.value)
    ensures r == Err(CircleNotFound) <==>
      filename.Some? && (body.circleId.Some? ==> isObjectId(body.circleId.value) && body.circleId.value !in db.circles)
    ensures r == Err(NotMember) <==>
      && filename.Some? && body.circleId.Some? && isObjectId(body.circleId.value)
      && body.circleId.value in db.circles && userId !in db.circles[body.circleId.value].members
    ensures r == Err(TagsMalformed) <==>
      && filename.Some? && body.circleId.Some? && isObjectId(body.circleId.value)
      && body.circleId.value in db.circles && userId in db.circles[body.circleId.value].members
      && Present(body.tags) && parseTags(body.tags.value).None?
    ensures r.Ok? ==>
      && filename.Some? && body.circleId.Some? && isObjectId(body.circleId.value)
      && body.circleId.value in db.circles && userId in db.circles[body.circleId.value].members
      && r.value == (if Present(body.tags) then parseTags(body.tags.value).value else [])
  {
    if filename.None? then Err(VideoMissing)
    else if body.circleId.None? then Err(CircleNotFound)
    else if !isObjectId(body.circleId.value) then Err(CircleIdUnusable)
    else if body.circleId.value !in db.circles then Err(CircleNotFound)
    else if userId !in db.circles[body.circleId.value].members then Err(NotMember)
    else if !Present(body.tags) then Ok([])
    else match parseTags(body.tags.value)
      case None => Err(TagsMalformed)
      case Some(tags) => Ok(tags)
  }

  datatype UploadOutcome =
    | UploadAuthFailed(auth: AuthOutcome)
    | UploadRejected(rejection: ShortRejection)
    | UploadServerError                       // 500: the schema refused the video
    | Uploaded(id: Id, short: Short)          // 201
  {
    function Status(): nat {
      match this
      case UploadAuthFailed(a) => a.Status()
      case UploadRejected(e) => e.Status()
      case UploadServerError => 500
      case Uploaded(_, _) => 201
    }
  }

  /** `POST /upload`: after the checks the video is stored, its id is
      appended to the uploader's `shortVideos` and the circle's `postCount`
      grows by exactly one; a refusal leaves the database as it was. */
  method UploadShort(store: Store, header: Option<string>, filename: Option<string>, body: ShortBody,
                     verify: string -> Option<Claims>, isObjectId: string -> bool,
                     parseTags: string -> Option<seq<string>>, newId: Id, now: int)
    returns (out: UploadOutcome)
    requires Valid(store.View()) && newId !in store.shorts
    modifies store
    ensures Valid(store.View())
    ensures old(CountersConsistent(store.View())) ==> CountersConsistent(store.View())
    ensures var auth := Authenticate(header, verify);
      !auth.Authenticated? ==> out == UploadAuthFailed(auth) && store.View() == old(store.View())
    ensures var auth := Authenticate(header, verify);
      auth.Authenticated? ==>
        var admitted := AdmitShort(old(store.View()), auth.user.id, filename, body, isObjectId, parseTags);
        && (admitted.Err? ==> out == UploadRejected(admitted.error) && store.View() == old(store.View()))
        && (admitted.Ok? ==>
              var made := NewShort(body.title, VideoUrl(filename.value), Some(OrElse(body.description, "")),
                                   auth.user.id, body.circleId.value, admitted.value, now);
              && (made.Err? ==> out == UploadServerError && store.View() == old(store.View()))
              && (made.Ok? ==>
                    && out == Uploaded(newId, made.value)
                    && store.View() == WithPostCountIncremented(
                         WithShortVideoPushed(WithShort(old(store.View()), newId, made.value), auth.user.id, newId),
                         body.circleId.value)))
    ensures out.Uploaded? ==>
      var c, u := out.short.circle, out.short.user;
      && c in old(store.circles) && c in store.circles
      && store.circles[c].postCount == old(store.circles[c].postCount) + 1
      && (forall k | k in store.circles && k != c :: store.circles[k] == old(store.circles[k]))
      && (u in old(store.users) ==>
            (u in store.users && store.users[u].shortVideos == old(store.users[u].shortVideos) + [newId]))
    ensures out.Uploaded? && old(PostCountsConsistent(store.View())) ==> PostCountsConsistent(store.View())
  {
    var auth := Authenticate(header, verify);
    if !auth.Authenticated? {
      return UploadAuthFailed(auth);
    }
    var userId := auth.user.id;
    var admitted := AdmitShort(store.View(), userId, filename, body, isObjectId, parseTags);
    if admitted.Err? {
      return UploadRejected(admitted.error);
    }
    var circleId := body.circleId.value;
    var made := NewShort(body.title, VideoUrl(filename.value), Some(OrElse(body.description, "")),
                         userId, circleId, admitted.value, now);
    if made.Err? {
      return UploadServerError;
    }
    ghost var before := store.View();
    ShortUploadKeeps(before, newId, made.value);
    if PostCountsConsistent(before) {
      NewShortCounted(before, newId, made.value);
    }
    store.InsertShort(newId, made.value);
    store.PushShortVideo(userId, newId);
    store.IncrementPostCount(circleId);
    out := Uploaded(newId, made.value);
  }

  // ---------------------------------------------------------------------
  // GET /

  datatype ShortField = Likes | Comments | Favorites | PublishedAt

  datatype ShortSort = ShortSort(field: ShortField, ascending: bool)

  datatype ShortSortError = InvalidSortField | InvalidSortOrder

  /** `sortBy || 'likes'` must be one of the four counters; then
      `parseInt(sortOrder) || -1` must be 1 or -1. */
  function ChooseShortSort(sortBy: Option<string>, sortOrder: Option<int>): (r: Result<ShortSort, ShortSortError>)
    ensures var f, o := OrElse(sortBy, "likes"), OrDefaultInt(sortOrder, -1);
      && (r == Err(InvalidSortField) <==> f !in ["likes", "comments", "favorites", "publishedAt"])
      && (r == Err(InvalidSortOrder) <==> f in ["likes", "comments", "favorites", "publishedAt"] && o != 1 && o != -1)
      && (r.Ok? ==>
            (&& r.value.ascending == (o == 1)
             && (r.value.field == Likes <==> f == "likes")
             && (r.value.field == Comments <==> f == "comments")
             && (r.value.field == Favorites <==> f == "favorites")
             && (r.value.field == PublishedAt <==> f == "publishedAt")))
  {
    var f := OrElse(sortBy, "likes");
    var o := OrDefaultInt(sortOrder, -1);
    var field :=
      if f == "likes" then Some(Likes)
      else if f == "comments" then Some(Comments)
      else if f == "favorites" then Some(Favorites)
      else if f == "publishedAt" then Some(PublishedAt)
      else None;
    if field.None? then Err(InvalidSortField)
    else if o != 1 && o != -1 then Err(InvalidSortOrder)
    else Ok(ShortSort(field.value, o == 1))
  }

  /** With no parameters the most liked videos come first. */
  lemma DefaultShortSort()
    ensures ChooseShortSort(None, None) == Ok(ShortSort(Likes, false))
  {
  }

  function FieldValue(f: ShortField, s: Short): int {
    match f
    case Likes => s.likes
    case Comments => s.comments
    case Favorites => s.favorites
    case PublishedAt => s.publishedAt
  }

  predicate ShortInOrder(o: ShortSort, a: Short, b: Short) {
    if o.ascending then FieldValue(o.field, a) <= FieldValue(o.field, b)
    else FieldValue(o.field, a) >= FieldValue(o.field, b)
  }

  function ShortKey(db: Db, o: ShortSort, id: Id): Key {
    if id !in db.shorts then (0, 0)
    else if o.ascending then (FieldValue(o.field, db.shorts[id]), 0)
    else (-FieldValue(o.field, db.shorts[id]), 0)
  }

  /** All videos in order `o`, ties in natural order. */
  function SortedShorts(db: Db, natural: seq<Id>, o: ShortSort): (r: seq<Id>)
    requires Enumerates(natural, db.shorts)
    ensures multiset(r) == multiset(natural)
    ensures forall i | 0 <= i < |r| :: r[i] in db.shorts
    ensures forall i, j | 0 <= i < j < |r| :: ShortInOrder(o, db.shorts[r[i]], db.shorts[r[j]])
  {
    var sorted := SortBy(natural, id => ShortKey(db, o, id));
    forall i | 0 <= i < |sorted| ensures sorted[i] in db.shorts {
      assert sorted[i] in multiset(natural);
    }
    forall i, j | 0 <= i < j < |sorted|
      ensures ShortInOrder(o, db.shorts[sorted[i]], db.shorts[sorted[j]])
    {
      assert KeyLe(ShortKey(db, o, sorted[i]), ShortKey(db, o, sorted[j]));
    }
    sorted
  }

  datatype ShortQuery = ShortQuery(page: Option<nat>, limit: Option<nat>, sortBy: Option<string>, sortOrder: Option<int>)

  /** The videos of the requested page: `(page - 1) * limit` skipped, at
      most `limit` taken, with page 1 and limit 10 by default. */
  function ShortWindow(db: Db, natural: seq<Id>, o: ShortSort, q: ShortQuery): (w: seq<Id>)
    requires Enumerates(natural, db.shorts)
    ensures var sorted, skip := SortedShorts(db, natural, o), Skip(OrDefault(q.page, 1), OrDefault(q.limit, 10));
      && |w| <= OrDefault(q.limit, 10)
      && |w| == (if skip < |sorted| then Min(OrDefault(q.limit, 10), |sorted| - skip) else 0)
      && forall i | 0 <= i < |w| :: skip + i < |sorted| && w[i] == sorted[skip + i]
  {
    Page(SortedShorts(db, natural, o), Skip(OrDefault(q.page, 1), OrDefault(q.limit, 10)), OrDefault(q.limit, 10))
  }

  /** The flat record the list answers with. */
  datatype ShortCard = ShortCard(
    videoId: Id,
    userAvatar: string,
    userName: string,
    title: string,
    videoUrl: string,
    description: string,
    publishTime: string,
    likes: int,
    comments: int,
    favorites: int,
    circleAvatar: string,
    circleName: string,
    tags: seq<string>)

  /** One listed video: the three URLs are prefixed with `base` whatever
      they hold; `None` when the uploader or the circle is gone (reading
      their avatar throws). */
  function FormatShort(db: Db, base: string, localeTime: int -> string, id: Id): (v: Option<ShortCard>)
    requires id in db.shorts
    ensures var s := db.shorts[id];
      v.Some? <==> s.user in db.users && s.circle in db.circles
    ensures v.Some? ==>
      var s := db.shorts[id];
      var u, c := db.users[s.user], db.circles[s.circle];
      v.value == ShortCard(id, base + u.avatar, u.username, s.title, base + s.videoUrl, s.description,
                           localeTime(s.publishedAt), s.likes, s.comments, s.favorites,
                           base + c.avatar, c.name, s.tags)
  {
    var s := db.shorts[id];
    if s.user !in db.users || s.circle !in db.circles then None
    else
      var u, c := db.users[s.user], db.circles[s.circle];
      Some(ShortCard(id, base + u.avatar, u.username, s.title, base + s.videoUrl, s.description,
                     localeTime(s.publishedAt), s.likes, s.comments, s.favorites,
                     base + c.avatar, c.name, s.tags))
  }

  function FormatShorts(db: Db, base: string, localeTime: int -> string, ids: seq<Id>): (vs: Option<seq<ShortCard>>)
    requires forall i | 0 <= i < |ids| :: ids[i] in db.shorts
    ensures vs.Some? <==> forall i | 0 <= i < |ids| :: FormatShort(db, base, localeTime, ids[i]).Some?
    ensures vs.Some? ==>
      (|vs.value| == |ids| && forall i | 0 <= i < |ids| :: FormatShort(db, base, localeTime, ids[i]) == Some(vs.value[i]))
  {
    if forall i | 0 <= i < |ids| :: FormatShort(db, base, localeTime, ids[i]).Some? then
      Some(seq(|ids|, i requires 0 <= i < |ids| => FormatShort(db, base, localeTime, ids[i]).value))
    else None
  }

  datatype ShortListOutcome =
    | ShortsListed(shorts: seq<ShortCard>)      // 200
    | ShortSortRejected(error: ShortSortError)  // 400
    | ShortListFailed                           // 500
  {
    function Status(): nat {
      match this
      case ShortsListed(_) => 200
      case ShortSortRejected(_) => 400
      case ShortListFailed => 500
    }
  }

  /** `GET /`: an unknown sort field or order is refused; otherwise the
      requested page in the chosen order, every video flattened with
      absolute URLs. `natural` is the collection's natural order. */
  function ListShorts(db: Db, natural: seq<Id>, q: ShortQuery, base: string, localeTime: int -> string)
    : (r: ShortListOutcome)
    requires Enumerates(natural, db.shorts)
    ensures var s := ChooseShortSort(q.sortBy, q.sortOrder);
      && (r.ShortSortRejected? <==> s.Err?)
      && (r.ShortSortRejected? ==> r.error == s.error)
      && (r.ShortsListed? ==>
            var w := ShortWindow(db, natural, s.value, q);
            && |r.shorts| == |w| <= OrDefault(q.limit, 10)
            && forall i | 0 <= i < |w| :: FormatShort(db, base, localeTime, w[i]) == Some(r.shorts[i]))
      && (r == ShortListFailed <==>
            s.Ok? && exists i | 0 <= i < |ShortWindow(db, natural, s.value, q)| ::
              FormatShort(db, base, localeTime, ShortWindow(db, natural, s.value, q)[i]).None?)
  {
    match ChooseShortSort(q.sortBy, q.sortOrder)
    case Err(e) => ShortSortRejected(e)
    case Ok(o) =>
      var w := ShortWindow(db, natural, o, q);
      match FormatShorts(db, base, localeTime, w)
      case None =>
        assert exists i | 0 <= i < |w| :: FormatShort(db, base, localeTime, w[i]).None?;
        ShortListFailed
      case Some(cards) => ShortsListed(cards)
  }

  /** The videos of a page follow the chosen order. */
  lemma ShortWindowOrdered(db: Db, natural: seq<Id>, o: ShortSort, q: ShortQuery)
    requires Enumerates(natural, db.shorts)
    ensures var w := ShortWindow(db, natural, o, q);
      forall i, j | 0 <= i < j < |w| ::
        w[i] in db.shorts && w[j] in db.shorts && ShortInOrder(o, db.shorts[w[i]], db.shorts[w[j]])
  {
    var sorted := SortedShorts(db, natural, o);
    var skip := Skip(OrDefault(q.page, 1), OrDefault(q.limit, 10));
    var w := ShortWindow(db, natural, o, q);
    forall i, j | 0 <= i < j < |w|
      ensures w[i] in db.shorts && w[j] in db.shorts
      ensures ShortInOrder(o, db.shorts[w[i]], db.shorts[w[j]])
    {
      assert skip + i < skip + j < |sorted|;
    }
  }

  /** The listed videos follow the chosen order. */
  lemma ListedShortsOrdered(db: Db, natural: seq<Id>, q: ShortQuery, base: string, localeTime: int -> string)
    requires Enumerates(natural, db.shorts)
    requires ListShorts(db, natural, q, base, localeTime).ShortsListed?
    ensures var cs := ListShorts(db, natural, q, base, localeTime).shorts;
      forall i, j | 0 <= i < j < |cs| :: cs[i].videoId in db.shorts && cs[j].videoId in db.shorts
        && ShortInOrder(ChooseShortSort(q.sortBy, q.sortOrder).value,
                        db.shorts[cs[i].videoId], db.shorts[cs[j].videoId])
  {
    var o := ChooseShortSort(q.sortBy, q.sortOrder).value;
    var w := ShortWindow(db, natural, o, q);
    var cs := ListShorts(db, natural, q, base, localeTime).shorts;
    ShortWindowOrdered(db, natural, o, q);
    forall i | 0 <= i < |cs| ensures cs[i].videoId == w[i] {
      assert FormatShort(db, base, localeTime, w[i]) == Some(cs[i]);
    }
  }
}
