/** The reply router (routes/reply.js): `GET /` lists one page of the
    replies under a post (root replies, or the children of one reply), and
    `POST /` creates a reply after authentication and the three validators,
    then increments the post's reply counter.

    `CURRENT_URL`, the prefix of avatar URLs, is the parameter `base`. The
    locale rendering of `createdAt` is not modelled: views carry the stored
    timestamp. */
module ReplyRoutes {
  import opened Common
  import opened Paging
  import opened AuthMiddleware
  import opened CommentValidators
  import opened Database
  import opened ReplyModel
  import UserModel

  // ---------------------------------------------------------------------
  // Presentation

  /** A populated user reference: `populate('user', 'username avatar')`
      yields all three fields, `populate('replyToUser', 'username')` only the
      id and the name. */
  datatype UserView = UserView(id: Id, username: string, avatar: Option<string>)

  /** A reply as the routes send it. */
  datatype ReplyView = ReplyView(
    id: Id,
    post: Id,
    parentReply: Option<Id>,
    content: string,
    user: UserView,
    replyToUser: Option<UserView>,
    createdAt: int,
    likes: int)

  /** The body shared by the listing and the creation response. */
  datatype ReplyPage = ReplyPage(comments: seq<ReplyView>, hasMore: bool, total: nat)

  /** An avatar is made absolute by prefixing `base`, unless it is missing,
      empty, or already starts with `http`. */
  function RewriteAvatar(base: string, avatar: Option<string>): Option<string> {
    if avatar.Some? && avatar.value != "" && !StartsWith(avatar.value, "http")
    then Some(base + avatar.value)
    else avatar
  }

  /** With an absolute base, the rewrite yields no relative path: every
      avatar afterwards is missing, empty, or starts with `http`, and a
      relative path becomes exactly `base` followed by it. */
  lemma RewriteMakesAbsolute(base: string, avatar: Option<string>)
    requires StartsWith(base, "http")
    ensures var r := RewriteAvatar(base, avatar);
      && (r.None? <==> avatar.None?)
      && (r.Some? ==> r.value == "" || StartsWith(r.value, "http"))
      && (avatar.Some? && avatar.value != "" && !StartsWith(avatar.value, "http") ==>
            r == Some(base + avatar.value))
      && (avatar.Some? && StartsWith(avatar.value, "http") ==> r == avatar)
  {
    if avatar.Some? && avatar.value != "" && !StartsWith(avatar.value, "http") {
      StartsWithConcat(base, avatar.value, "http");
    }
  }

  /** Rewriting an already rewritten avatar changes nothing, so formatting
      formatted data never prefixes twice. */
  lemma RewriteIdempotent(base: string, avatar: Option<string>)
    requires StartsWith(base, "http")
    ensures RewriteAvatar(base, RewriteAvatar(base, avatar)) == RewriteAvatar(base, avatar)
  {
    RewriteMakesAbsolute(base, avatar);
  }

  /** The author, populated with name and avatar; `None` when the author's
      document is gone (the route then dereferences null and fails). */
  function Author(db: Db, rep: Reply): (v: Option<UserView>)
    ensures v.Some? <==> rep.user in db.users
    ensures v.Some? ==> v.value == UserView(rep.user, db.users[rep.user].username,
                                            Some(db.users[rep.user].avatar))
  {
    if rep.user in db.users then
      Some(UserView(rep.user, db.users[rep.user].username, Some(db.users[rep.user].avatar)))
    else None
  }

  /** The addressed user, populated with the name only (no avatar). */
  function Addressee(db: Db, rep: Reply): (v: Option<UserView>)
    ensures v.Some? <==> rep.replyToUser.Some? && rep.replyToUser.value in db.users
    ensures v.Some? ==> v.value.id == rep.replyToUser.value && v.value.avatar == None
                        && v.value.username == db.users[rep.replyToUser.value].username
  {
    if rep.replyToUser.Some? && rep.replyToUser.value in db.users then
      Some(UserView(rep.replyToUser.value, db.users[rep.replyToUser.value].username, None))
    else None
  }

  /** One reply as sent: populated, with both avatars rewritten. */
  function FormatReply(db: Db, base: string, id: Id): (v: Option<ReplyView>)
    requires id in db.replies
    ensures v.Some? <==> db.replies[id].user in db.users
    ensures v.Some? ==> var rep := db.replies[id];
      && v.value.id == id && v.value.post == rep.post && v.value.parentReply == rep.parentReply
      && v.value.content == rep.content && v.value.createdAt == rep.createdAt
      && v.value.likes == rep.likes && v.value.user.id == rep.user
      && v.value.user.username == db.users[rep.user].username
      && v.value.user.avatar == RewriteAvatar(base, Some(db.users[rep.user].avatar))
      && v.value.replyToUser == Addressee(db, rep)
  {
    var rep := db.replies[id];
    match Author(db, rep)
    case None => None
    case Some(author) =>
      var addressee := Addressee(db, rep);
      Some(ReplyView(
        id, rep.post, rep.parentReply, rep.content,
        author.(avatar := RewriteAvatar(base, author.avatar)),
        // populated without its avatar, so the avatar rewrite never applies
        addressee,
        rep.createdAt, rep.likes))
  }

  /** Formats every reply of a page; `None` as soon as one has lost its
      author. */
  function FormatAll(db: Db, base: string, ids: seq<Id>): (vs: Option<seq<ReplyView>>)
    requires forall i | 0 <= i < |ids| :: ids[i] in db.replies
    ensures vs.Some? <==> forall i | 0 <= i < |ids| :: db.replies[ids[i]].user in db.users
    ensures vs.Some? ==>
      (|vs.value| == |ids| && forall i | 0 <= i < |ids| :: FormatReply(db, base, ids[i]) == Some(vs.value[i]))
  {
    if forall i | 0 <= i < |ids| :: FormatReply(db, base, ids[i]).Some? then
      Some(seq(|ids|, i requires 0 <= i < |ids| => FormatReply(db, base, ids[i]).value))
    else None
  }

  // ---------------------------------------------------------------------
  // GET /

  /** The listing's query string; `page` and `limit` are already parsed. */
  datatype ListQuery = ListQuery(
    postId: Option<string>,
    parentReply: Option<string>,
    page: Option<nat>,
    limit: Option<nat>,
    sort: Option<string>)

  datatype SortOrder = CreatedAtAscending | LikesDescending | CreatedAtDescending

  /** `likes` sorts by likes descending, `time` by creation time descending,
      anything else (or nothing) by creation time ascending. */
  function ChooseSort(sort: Option<string>): (o: SortOrder)
    ensures o == LikesDescending <==> sort == Some("likes")
    ensures o == CreatedAtDescending <==> sort == Some("time")
    ensures o == CreatedAtAscending <==> sort != Some("likes") && sort != Some("time")
  {
    if sort == Some("likes") then LikesDescending
    else if sort == Some("time") then CreatedAtDescending
    else CreatedAtAscending
  }

  function SortKey(o: SortOrder, rep: Reply): Key {
    match o
    case CreatedAtAscending => (rep.createdAt, 0)
    case LikesDescending => (-rep.likes, 0)
    case CreatedAtDescending => (-rep.createdAt, 0)
  }

  /** `a` may come before `b` in order `o`. */
  predicate InOrder(o: SortOrder, a: Reply, b: Reply) {
    match o
    case CreatedAtAscending => a.createdAt <= b.createdAt
    case LikesDescending => a.likes >= b.likes
    case CreatedAtDescending => a.createdAt >= b.createdAt
  }

  /** The sort keys encode the three orders. */
  lemma SortKeyMeansOrder(o: SortOrder, a: Reply, b: Reply)
    ensures KeyLe(SortKey(o, a), SortKey(o, b)) <==> InOrder(o, a, b)
  {
  }

  /** The filter `{ post: postId, parentReply: parent }`. */
  predicate Selected(db: Db, id: Id, postId: Option<string>, parent: Option<Id>) {
    id in db.replies && postId == Some(db.replies[id].post) && db.replies[id].parentReply == parent
  }

  ghost predicate Distinct(s: seq<Id>) {
    forall i, j | 0 <= i < j < |s| :: s[i] != s[j]
  }

  /** The replies of `order` that the filter selects, in that order. */
  function Filter(db: Db, order: seq<Id>, postId: Option<string>, parent: Option<Id>): (r: seq<Id>)
    ensures forall i | 0 <= i < |r| :: r[i] in order && Selected(db, r[i], postId, parent)
    ensures forall x | x in order && Selected(db, x, postId, parent) :: x in r
    ensures Distinct(order) ==> Distinct(r)
  {
    if order == [] then []
    else
      var rest := Filter(db, order[1..], postId, parent);
      assert forall x | x in order[1..] :: x in order;
      if Selected(db, order[0], postId, parent) then
        assert Distinct(order) ==> order[0] !in order[1..];
        [order[0]] + rest
      else rest
  }

  /** Every stored reply the filter selects. */
  ghost function MatchSet(db: Db, postId: Option<string>, parent: Option<Id>): set<Id> {
    set x | x in db.replies && Selected(db, x, postId, parent)
  }

  lemma {:induction false} DistinctCardinality(s: seq<Id>)
    requires Distinct(s)
    ensures |set x | x in s| == |s|
  {
    if s != [] {
      DistinctCardinality(s[1..]);
      assert (set x | x in s) == {s[0]} + (set x | x in s[1..]);
      assert s[0] !in s[1..];
    }
  }

  /** The filtered replies are exactly the stored matches, each once, so the
      listing's `total` counts all matches. */
  lemma FilterCountsMatches(db: Db, postId: Option<string>, parent: Option<Id>)
    requires OrderExact(db)
    ensures |Filter(db, db.replyOrder, postId, parent)| == |MatchSet(db, postId, parent)|
  {
    var r := Filter(db, db.replyOrder, postId, parent);
    assert (set x | x in r) == MatchSet(db, postId, parent);
    DistinctCardinality(r);
  }

  /** The sort key of a stored reply under order `o`. */
  function KeyOf(db: Db, o: SortOrder, x: Id): Key {
    if x in db.replies then SortKey(o, db.replies[x]) else (0, 0)
  }

  lemma SortedIsInOrder(db: Db, o: SortOrder, s: seq<Id>)
    requires SortedBy(s, x => KeyOf(db, o, x))
    requires forall i | 0 <= i < |s| :: s[i] in db.replies
    ensures forall i, j | 0 <= i < j < |s| :: InOrder(o, db.replies[s[i]], db.replies[s[j]])
  {
    forall i, j | 0 <= i < j < |s|
      ensures InOrder(o, db.replies[s[i]], db.replies[s[j]])
    {
      assert KeyLe(KeyOf(db, o, s[i]), KeyOf(db, o, s[j]));
      SortKeyMeansOrder(o, db.replies[s[i]], db.replies[s[j]]);
    }
  }

  /** The matches in the order the listing returns them. */
  function OrderedMatches(db: Db, postId: Option<string>, parent: Option<Id>, o: SortOrder): (r: seq<Id>)
    ensures multiset(r) == multiset(Filter(db, db.replyOrder, postId, parent))
    ensures forall i | 0 <= i < |r| :: Selected(db, r[i], postId, parent)
    ensures forall i, j | 0 <= i < j < |r| ::
      r[i] in db.replies && r[j] in db.replies && InOrder(o, db.replies[r[i]], db.replies[r[j]])
  {
    var matches := Filter(db, db.replyOrder, postId, parent);
    var sorted := SortBy(matches, x => KeyOf(db, o, x));
    forall i | 0 <= i < |sorted| ensures Selected(db, sorted[i], postId, parent) {
      assert sorted[i] in multiset(matches);
    }
    SortedIsInOrder(db, o, sorted);
    sorted
  }

  datatype ListOutcome = Listed(page: ReplyPage) | ListFailed {
    function Status(): nat { if Listed? then 200 else 500 }
  }

  /** `page = 1` and `limit = 10` apply only when the parameter is absent. */
  function PageNumber(q: ListQuery): nat { if q.page.Some? then q.page.value else 1 }
  function PageLimit(q: ListQuery): nat { if q.limit.Some? then q.limit.value else 10 }

  /** Page 0 with a positive limit asks for a negative skip, which the
      database refuses. */
  predicate NegativeSkip(q: ListQuery) {
    PageNumber(q) == 0 && PageLimit(q) > 0
  }

  /** The number of matches skipped: `(page - 1) * limit`. */
  function Offset(q: ListQuery): (n: nat)
    requires !NegativeSkip(q)
    ensures PageLimit(q) >= 1 ==> n + PageLimit(q) == PageNumber(q) * PageLimit(q)
  {
    if PageLimit(q) == 0 then 0 else Skip(PageNumber(q), PageLimit(q))
  }

  /** The number of matches asked for; a limit of 0 is no limit. */
  function Take(q: ListQuery, total: nat): nat {
    if PageLimit(q) == 0 then total else PageLimit(q)
  }

  /** The ids of the page the query asks for: `skip(offset).limit(take)`
      on the ordered matches. */
  function Window(db: Db, q: ListQuery): (w: seq<Id>)
    requires !NegativeSkip(q)
    ensures var ordered := OrderedMatches(db, q.postId, OrNull(q.parentReply), ChooseSort(q.sort));
      && (PageLimit(q) >= 1 ==> |w| <= PageLimit(q))
      && |w| == (if Offset(q) < |ordered| then Min(Take(q, |ordered|), |ordered| - Offset(q)) else 0)
      && (forall i | 0 <= i < |w| :: Offset(q) + i < |ordered| && w[i] == ordered[Offset(q) + i])
      && (forall i | 0 <= i < |w| :: Selected(db, w[i], q.postId, OrNull(q.parentReply)))
  {
    var ordered := OrderedMatches(db, q.postId, OrNull(q.parentReply), ChooseSort(q.sort));
    Page(ordered, Offset(q), Take(q, |ordered|))
  }

  /** The filter cannot be cast: `post` is an ObjectId path, so a `postId`
      that is not an ObjectId string (the empty string included) throws a
      CastError; so does a truthy `parentReply` that is not one. */
  predicate CastFails(q: ListQuery, isObjectId: string -> bool) {
    || (q.postId.Some? && !isObjectId(q.postId.value))
    || (Present(q.parentReply) && !isObjectId(q.parentReply.value))
  }

  /** `GET /`: one page of the replies under `postId` whose parent is
      `parentReply` (root replies when it is absent or empty), in the chosen
      order, with the number of all matches and whether more follow. The
      request fails with 500 exactly when the query throws, the filter cannot
      be cast, the skip is negative or a reply on the page has lost its
      author. */
  function ListReplies(db: Db, q: ListQuery, base: string, isObjectId: string -> bool,
                       faults: set<Fault>): (r: ListOutcome)
    requires OrderExact(db)
    ensures r == ListFailed <==>
      || ListingQuery in faults
      || CastFails(q, isObjectId)
      || NegativeSkip(q)
      || exists k | 0 <= k < |Window(db, q)| :: db.replies[Window(db, q)[k]].user !in db.users
    ensures r.Listed? ==>
      var parent := OrNull(q.parentReply);
      && r.page.total == |MatchSet(db, q.postId, parent)|
      && r.page.hasMore == (PageNumber(q) * PageLimit(q) < r.page.total)
      && |r.page.comments| == |Window(db, q)|
      && (forall i | 0 <= i < |r.page.comments| ::
            FormatReply(db, base, Window(db, q)[i]) == Some(r.page.comments[i]))
  {
    if ListingQuery in faults || CastFails(q, isObjectId) || NegativeSkip(q) then ListFailed
    else
      var parent := OrNull(q.parentReply);
      var ordered := OrderedMatches(db, q.postId, parent, ChooseSort(q.sort));
      FilterCountsMatches(db, q.postId, parent);
      match FormatAll(db, base, Window(db, q))
      case None => ListFailed
      case Some(views) =>
        Listed(ReplyPage(views, HasMore(PageNumber(q), PageLimit(q), |ordered|), |ordered|))
  }

  /** The page holds the window's replies, each under the requested post and
      parent, and never more than the limit. */
  lemma ListingShowsWindow(db: Db, q: ListQuery, base: string, isObjectId: string -> bool, faults: set<Fault>)
    requires OrderExact(db)
    requires ListReplies(db, q, base, isObjectId, faults).Listed?
    ensures var cs := ListReplies(db, q, base, isObjectId, faults).page.comments;
      && (PageLimit(q) >= 1 ==> |cs| <= PageLimit(q))
      && forall i | 0 <= i < |cs| ::
           && cs[i].id == Window(db, q)[i]
           && Some(cs[i].post) == q.postId && cs[i].parentReply == OrNull(q.parentReply)
  {
    var cs := ListReplies(db, q, base, isObjectId, faults).page.comments;
    forall i | 0 <= i < |cs|
      ensures cs[i].id == Window(db, q)[i]
      ensures Some(cs[i].post) == q.postId && cs[i].parentReply == OrNull(q.parentReply)
    {
      assert Selected(db, Window(db, q)[i], q.postId, OrNull(q.parentReply));
    }
  }

  /** Without `parentReply` the listing returns root replies only, however
      deep the threads under them go. */
  lemma ListingWithoutParentIsRoots(db: Db, q: ListQuery, base: string, isObjectId: string -> bool, faults: set<Fault>)
    requires OrderExact(db)
    requires !Present(q.parentReply)
    requires ListReplies(db, q, base, isObjectId, faults).Listed?
    ensures forall c | c in ListReplies(db, q, base, isObjectId, faults).page.comments :: c.parentReply == None
  {
    ListingShowsWindow(db, q, base, isObjectId, faults);
  }

  /** The replies of a page follow the chosen order. */
  lemma ListingIsOrdered(db: Db, q: ListQuery, base: string, isObjectId: string -> bool, faults: set<Fault>)
    requires OrderExact(db)
    requires ListReplies(db, q, base, isObjectId, faults).Listed?
    ensures var cs := ListReplies(db, q, base, isObjectId, faults).page.comments;
      forall i, j | 0 <= i < j < |cs| ::
        cs[i].id in db.replies && cs[j].id in db.replies
        && InOrder(ChooseSort(q.sort), db.replies[cs[i].id], db.replies[cs[j].id])
  {
    var ordered := OrderedMatches(db, q.postId, OrNull(q.parentReply), ChooseSort(q.sort));
    var cs := ListReplies(db, q, base, isObjectId, faults).page.comments;
    ListingShowsWindow(db, q, base, isObjectId, faults);
    forall i, j | 0 <= i < j < |cs|
      ensures cs[i].id in db.replies && cs[j].id in db.replies
      ensures InOrder(ChooseSort(q.sort), db.replies[cs[i].id], db.replies[cs[j].id])
    {
      assert cs[i].id == ordered[Offset(q) + i] && cs[j].id == ordered[Offset(q) + j];
    }
  }

  /** `hasMore` is set exactly when matches remain after the page. */
  lemma ListingHasMoreIffMatchesRemain(db: Db, q: ListQuery, base: string, isObjectId: string -> bool, faults: set<Fault>)
    requires OrderExact(db)
    requires PageLimit(q) >= 1
    requires ListReplies(db, q, base, isObjectId, faults).Listed?
    ensures var pg := ListReplies(db, q, base, isObjectId, faults).page;
      pg.hasMore <==> Offset(q) + |pg.comments| < pg.total
  {
    var ordered := OrderedMatches(db, q.postId, OrNull(q.parentReply), ChooseSort(q.sort));
    FilterCountsMatches(db, q.postId, OrNull(q.parentReply));
    HasMoreIffMatchesRemain(ordered, PageNumber(q), PageLimit(q));
  }

  // ---------------------------------------------------------------------
  // POST /

  /** How a creation request ends. */
  datatype CreateOutcome =
    | AuthFailed(auth: AuthOutcome)      // 401 or 403 from the middleware
    | Rejected(rejection: Rejection)     // a validator's coded error
    | MissingParameters                  // 400: no content or no post id
    | ServerError                        // 500: a write or a read-back failed
    | Created(page: ReplyPage)           // 201: the new reply, as a one-element page
  {
    function Status(): nat {
      match this
      case AuthFailed(a) => a.Status()
      case Rejected(e) => e.Status()
      case MissingParameters => 400
      case ServerError => 500
      case Created(_) => 201
    }
  }

  /** 201 is answered exactly for a created reply: a failed
      authentication answers 401 or 403, every other outcome 400 to 500. */
  lemma StatusIdentifiesCreation(out: CreateOutcome)
    requires out.AuthFailed? ==> !out.auth.Authenticated?
    ensures out.Status() == 201 <==> out.Created?
    ensures !out.Created? ==> 400 <= out.Status() <= 500
  {
  }

  /** Everything the route decides before its first write: the validators,
      the content/post-id check, the reply the schema would store, and
      whether the save answers. */
  function PrepareReply(db: Db, user: Id, body: ReplyBody, isObjectId: string -> bool,
                        faults: set<Fault>, now: int): (r: Result<Reply, CreateOutcome>)
    ensures r.Err? ==> r.error.Rejected? || r.error == MissingParameters || r.error == ServerError
    ensures r.Err? && r.error.Rejected? <==> ValidateChain(body, db, isObjectId, faults).Err?
    ensures r.Err? && r.error.Rejected? ==> Err(r.error.rejection) == ValidateChain(body, db, isObjectId, faults)
    ensures r == Err(MissingParameters) <==>
      ValidateChain(body, db, isObjectId, faults).Ok? && !Present(body.content)
    ensures r.Ok? <==>
      && ReferencesHold(body, db, isObjectId) && LookupsAnswer(body, faults)
      && Present(body.content) && Trim(body.content.value) != "" && ReplySave !in faults
    ensures r.Ok? ==> var rep := r.value;
      && rep.post == body.postId.value && rep.post in db.posts
      && rep.parentReply == OrNull(body.parentReplyId)
      && (rep.parentReply.Some? ==>
            rep.parentReply.value in db.replies && db.replies[rep.parentReply.value].post == rep.post)
      && rep.replyToUser == OrNull(body.replyToUserId)
      && (rep.replyToUser.Some? ==> rep.replyToUser.value in db.users)
      && rep.user == user
      && rep.content == Trim(body.content.value) && Trimmed(rep.content) && rep.content != ""
      && rep.likes == 0 && rep.createdAt == now
  {
    match ValidateChain(body, db, isObjectId, faults)
    case Err(e) => Err(Rejected(e))
    case Ok(postId) =>
      if !Present(body.content) || !Present(body.postId) then Err(MissingParameters)
      else
        var made := NewReply(postId, OrNull(body.parentReplyId), body.content.value, user,
                             OrNull(body.replyToUserId), now);
        TrimEmptyIffAllSpace(body.content.value);
        if made.Err? || ReplySave in faults then Err(ServerError)
        else Ok(made.value)
  }

  /** The writes of `POST /` once a reply is prepared: save it, add one to
      its post's `replies`, read it back and answer with it as a
      one-element page. A failing increment leaves the saved reply in place
      and answers 500; a failing read-back, or a reply whose author's
      document is gone, answers 500 with the reply saved and counted. */
  method SaveReply(store: Store, newId: Id, rep: Reply, faults: set<Fault>, base: string)
    returns (out: CreateOutcome)
    requires Valid(store.View()) && newId !in store.replies
    requires rep.post in store.posts
    requires rep.parentReply.Some? ==>
      rep.parentReply.value in store.replies && store.replies[rep.parentReply.value].post == rep.post
    requires rep.replyToUser.Some? ==> rep.replyToUser.value in store.users
    modifies store
    ensures Valid(store.View())
    ensures out.Created? || out == ServerError
    ensures RepliesIncrement in faults ==>
      out == ServerError && store.View() == WithReply(old(store.View()), newId, rep)
    ensures RepliesIncrement !in faults ==>
      && store.View() == WithRepliesIncremented(WithReply(old(store.View()), newId, rep), rep.post)
      && (out.Created? <==> ReadBack !in faults && rep.user in old(store.users))
      && (out.Created? ==> out.page == ReplyPage([FormatReply(store.View(), base, newId).value], false, 1))
    ensures RepliesIncrement !in faults && old(CountersConsistent(store.View())) ==> CountersConsistent(store.View())
  {
    ghost var before := store.View();
    WithReplyValid(before, newId, rep);
    store.InsertReply(newId, rep);
    if RepliesIncrement in faults {
      return ServerError;
    }
    IncrementRepliesKeeps(store.View(), rep.post);
    store.IncrementReplies(rep.post);
    if CountersConsistent(before) {
      ReplyThenIncrementConsistent(before, newId, rep);
    }
    if ReadBack in faults {
      return ServerError;
    }
    var view := FormatReply(store.View(), base, newId);
    if view.None? {
      return ServerError;
    }
    out := Created(ReplyPage([view.value], false, 1));
  }

  /** `POST /`: the authentication middleware, the three validators and the
      content check decide whether the request reaches the writes; a request
      stopped before them changes nothing. */
  method CreateReply(store: Store, header: Option<string>, body: ReplyBody,
                     verify: string -> Option<Claims>, isObjectId: string -> bool,
                     faults: set<Fault>, newId: Id, now: int, base: string)
    returns (out: CreateOutcome)
    requires Valid(store.View()) && newId !in store.replies
    modifies store
    ensures Valid(store.View())
    ensures out.AuthFailed? ==> !out.auth.Authenticated?
    ensures var auth := Authenticate(header, verify);
      !auth.Authenticated? ==> out == AuthFailed(auth) && store.View() == old(store.View())
    ensures var auth := Authenticate(header, verify);
      auth.Authenticated? ==>
        var prepared := PrepareReply(old(store.View()), auth.user.id, body, isObjectId, faults, now);
        && (prepared.Err? ==> out == prepared.error && store.View() == old(store.View()))
        && (prepared.Ok? && RepliesIncrement in faults ==>
              out == ServerError && store.View() == WithReply(old(store.View()), newId, prepared.value))
        && (prepared.Ok? && RepliesIncrement !in faults ==>
              && store.View() == WithRepliesIncremented(WithReply(old(store.View()), newId, prepared.value),
                                                        prepared.value.post)
              && (out.Created? || out == ServerError)
              && (out.Created? <==> ReadBack !in faults && auth.user.id in old(store.users))
              && (out.Created? ==>
                    out.page == ReplyPage([FormatReply(store.View(), base, newId).value], false, 1)))
    ensures out.Created? && old(CountersConsistent(store.View())) ==> CountersConsistent(store.View())
  {
    var auth := Authenticate(header, verify);
    if !auth.Authenticated? {
      return AuthFailed(auth);
    }
    var prepared := PrepareReply(store.View(), auth.user.id, body, isObjectId, faults, now);
    if prepared.Err? {
      return prepared.error;
    }
    out := SaveReply(store, newId, prepared.value, faults, base);
  }
}
