/** The MongoDB collections the routes use, as an in-memory store.

    `Db` is a snapshot of every collection (maps from ids to documents, plus
    the natural insertion order of the replies collection, which is the order
    a query returns documents that tie on the sort key). `Store` is the
    mutable database handle: its fields are those collections, and each of
    its methods is one single-step database write (`save`, `$inc`, `$push`).
    The pure functions `With...` say what each write does to a snapshot; the
    lemmas say which invariants each write keeps. */
module Database {
  import opened Common
  import ReplyModel
  import PostModel
  import UserModel
  import CircleModel
  import ShortModel

  datatype Db = Db(
    posts: map<Id, PostModel.Post>,
    replies: map<Id, ReplyModel.Reply>,
    replyOrder: seq<Id>,
    users: map<Id, UserModel.User>,
    circles: map<Id, CircleModel.Circle>,
    shorts: map<Id, ShortModel.Short>)

  /** `order` lists the documents of a collection, each once: the order in
      which the database returns documents whose sort keys tie. */
  ghost predicate Enumerates<V>(order: seq<Id>, docs: map<Id, V>) {
    && (forall i | 0 <= i < |order| :: order[i] in docs)
    && (forall k | k in docs :: k in order)
    && (forall i, j | 0 <= i < j < |order| :: order[i] != order[j])
  }

  /** A database call of the reply routes that throws instead of answering
      (a lost connection, a timeout). Which calls throw is an input of the
      model: the three validator lookups, the save, the increment of the
      post's `replies`, the read-back of the saved reply, and the listing's
      `find`/`countDocuments` pair. */
  datatype Fault =
    | PostLookup | ParentLookup | ReplyToUserLookup
    | ReplySave | RepliesIncrement | ReadBack
    | ListingQuery

  function Empty(): Db {
    Db(map[], map[], [], map[], map[], map[])
  }

  // ---------------------------------------------------------------------
  // Invariants of the reply threads

  /** `replyOrder` lists every stored reply exactly once. */
  ghost predicate OrderExact(db: Db) {
    Enumerates(db.replyOrder, db.replies)
  }

  /** Referential integrity of a stored reply: its post exists, its parent (if
      any) exists and belongs to the same post, the user it addresses (if
      any) exists. */
  ghost predicate ReplyLinksValid(db: Db, r: Id)
    requires r in db.replies
  {
    var rep := db.replies[r];
    && rep.post in db.posts
    && (rep.parentReply.Some? ==>
          rep.parentReply.value in db.replies
          && db.replies[rep.parentReply.value].post == rep.post)
    && (rep.replyToUser.Some? ==> rep.replyToUser.value in db.users)
  }

  /** A parent was stored before its child, so parent links cannot cycle. */
  ghost predicate ParentsEarlier(db: Db)
    requires OrderExact(db)
  {
    forall i, j | 0 <= i < |db.replyOrder| && 0 <= j < |db.replyOrder|
                  && db.replies[db.replyOrder[i]].parentReply == Some(db.replyOrder[j]) :: j < i
  }

  ghost predicate ThreadsValid(db: Db) {
    && OrderExact(db)
    && (forall r | r in db.replies :: ReplyLinksValid(db, r))
    && ParentsEarlier(db)
  }

  /** The invariant every route keeps: thread integrity and the unique
      indexes on circle names, usernames and emails. */
  ghost predicate Valid(db: Db) {
    && ThreadsValid(db)
    && CircleModel.NamesUnique(db.circles)
    && UserModel.NamesAndEmailsUnique(db.users)
  }

  lemma EmptyValid()
    ensures Valid(Empty())
  {
  }

  function IndexOf(s: seq<Id>, x: Id): (i: nat)
    requires x in s
    ensures i < |s| && s[i] == x
  {
    if s[0] == x then 0 else 1 + IndexOf(s[1..], x)
  }

  /** Following parent links from any reply ends at a root reply of the same
      post: the replies of a post form a forest. */
  function RootOf(db: Db, r: Id): (root: Id)
    requires ThreadsValid(db) && r in db.replies
    ensures root in db.replies
    ensures db.replies[root].parentReply == None
    ensures db.replies[root].post == db.replies[r].post
    decreases IndexOf(db.replyOrder, r)
  {
    var p := db.replies[r].parentReply;
    if p.None? then r
    else
      assert ReplyLinksValid(db, r);
      var i, j := IndexOf(db.replyOrder, r), IndexOf(db.replyOrder, p.value);
      assert db.replies[db.replyOrder[i]].parentReply == Some(db.replyOrder[j]);
      RootOf(db, p.value)
  }

  // ---------------------------------------------------------------------
  // The denormalised reply counter of a post

  /** The replies whose `post` is `p`. */
  function RepliesOf(replies: map<Id, ReplyModel.Reply>, p: Id): set<Id> {
    set r | r in replies.Keys && replies[r].post == p
  }

  /** Every post's `replies` field equals the number of its stored replies. */
  ghost predicate CountersConsistent(db: Db) {
    forall p | p in db.posts :: db.posts[p].replies == |RepliesOf(db.replies, p)|
  }

  // ---------------------------------------------------------------------
  // Single-step writes, on snapshots

  /** `new replyModel(...).save()` under a fresh id. */
  function WithReply(db: Db, id: Id, rep: ReplyModel.Reply): Db {
    db.(replies := db.replies[id := rep], replyOrder := db.replyOrder + [id])
  }

  /** `postModel.findByIdAndUpdate(id, { $inc: { replies: 1 } })`: a no-op
      when no post has that id. */
  function WithRepliesIncremented(db: Db, id: Id): Db {
    if id in db.posts then
      db.(posts := db.posts[id := db.posts[id].(replies := db.posts[id].replies + 1)])
    else db
  }

  /** `Post.create(...)` under a fresh id. */
  function WithPost(db: Db, id: Id, p: PostModel.Post): Db {
    db.(posts := db.posts[id := p])
  }

  /** `Circle.updateOne({ _id: id }, { $inc: { postCount: 1 } })`. */
  function WithPostCountIncremented(db: Db, id: Id): Db {
    if id in db.circles then
      db.(circles := db.circles[id := db.circles[id].(postCount := db.circles[id].postCount + 1)])
    else db
  }

  /** `newCircle.save()` under a fresh id. */
  function WithCircle(db: Db, id: Id, c: CircleModel.Circle): Db {
    db.(circles := db.circles[id := c])
  }

  /** `Short.create(...)` under a fresh id. */
  function WithShort(db: Db, id: Id, s: ShortModel.Short): Db {
    db.(shorts := db.shorts[id := s])
  }

  /** `User.findByIdAndUpdate(id, { $push: { shortVideos: shortId } })`. */
  function WithShortVideoPushed(db: Db, id: Id, shortId: Id): Db {
    if id in db.users then
      db.(users := db.users[id := db.users[id].(shortVideos := db.users[id].shortVideos + [shortId])])
    else db
  }

  /** `newUser.save()` under a fresh id. */
  function WithUser(db: Db, id: Id, u: UserModel.User): Db {
    db.(users := db.users[id := u])
  }

  // ---------------------------------------------------------------------
  // What each write keeps

  /** Appending a fresh reply to the order keeps it listing every reply
      exactly once. */
  lemma WithReplyOrderExact(db: Db, id: Id, rep: ReplyModel.Reply)
    requires OrderExact(db) && id !in db.replies
    ensures OrderExact(WithReply(db, id, rep))
  {
    var db' := WithReply(db, id, rep);
    var n := |db.replyOrder|;
    assert db'.replyOrder[n] == id;
    forall i | 0 <= i < |db'.replyOrder| ensures db'.replyOrder[i] in db'.replies {
      if i < n { assert db'.replyOrder[i] == db.replyOrder[i]; }
    }
    forall r | r in db'.replies ensures r in db'.replyOrder {
      if r != id { assert r in db.replyOrder; }
    }
    forall i, j | 0 <= i < j < |db'.replyOrder| ensures db'.replyOrder[i] != db'.replyOrder[j] {
      assert db'.replyOrder[i] == db.replyOrder[i];
      if j < n { assert db'.replyOrder[j] == db.replyOrder[j]; }
    }
  }

  /** Storing a reply whose links hold keeps the threads valid: the new reply
      comes last in the order, after its parent. */
  lemma WithReplyValid(db: Db, id: Id, rep: ReplyModel.Reply)
    requires Valid(db) && id !in db.replies
    requires rep.post in db.posts
    requires rep.parentReply.Some? ==>
               rep.parentReply.value in db.replies && db.replies[rep.parentReply.value].post == rep.post
    requires rep.replyToUser.Some? ==> rep.replyToUser.value in db.users
    ensures Valid(WithReply(db, id, rep))
  {
    var db' := WithReply(db, id, rep);
    var n := |db.replyOrder|;
    WithReplyOrderExact(db, id, rep);
    forall r | r in db'.replies ensures ReplyLinksValid(db', r) {
      if r != id { assert ReplyLinksValid(db, r); }
    }
    forall i, j | 0 <= i < |db'.replyOrder| && 0 <= j < |db'.replyOrder|
                  && db'.replies[db'.replyOrder[i]].parentReply == Some(db'.replyOrder[j])
      ensures j < i
    {
      var child := db'.replyOrder[i];
      if i < n {
        assert child == db.replyOrder[i];
        assert ReplyLinksValid(db, child);
      }
      // the parent is an earlier reply, never the one being stored
      assert db'.replyOrder[j] in db.replies;
      assert j != n;
      assert db'.replyOrder[j] == db.replyOrder[j];
    }
  }

  /** A write that leaves the replies alone and removes no post or user
      keeps the threads valid. */
  lemma ThreadsKept(db: Db, db': Db)
    requires ThreadsValid(db)
    requires db'.replies == db.replies && db'.replyOrder == db.replyOrder
    requires db.posts.Keys <= db'.posts.Keys && db.users.Keys <= db'.users.Keys
    ensures ThreadsValid(db')
  {
    forall r | r in db'.replies ensures ReplyLinksValid(db', r) {
      assert ReplyLinksValid(db, r);
    }
  }

  /** Incrementing a post's reply counter keeps the threads valid. */
  lemma IncrementRepliesKeeps(db: Db, id: Id)
    requires Valid(db)
    ensures Valid(WithRepliesIncremented(db, id))
  {
    var db' := WithRepliesIncremented(db, id);
    assert db'.posts.Keys == db.posts.Keys && db'.replies == db.replies && db'.users == db.users;
    ThreadsKept(db, db');
  }

  lemma RepliesOfWith(replies: map<Id, ReplyModel.Reply>, id: Id, rep: ReplyModel.Reply, p: Id)
    requires id !in replies
    ensures RepliesOf(replies[id := rep], p)
         == if rep.post == p then RepliesOf(replies, p) + {id} else RepliesOf(replies, p)
  {
  }

  /** Storing a reply and then incrementing its post's counter keeps every
      counter equal to the number of replies it counts. */
  lemma {:induction false} ReplyThenIncrementConsistent(db: Db, id: Id, rep: ReplyModel.Reply)
    requires CountersConsistent(db) && id !in db.replies && rep.post in db.posts
    ensures CountersConsistent(WithRepliesIncremented(WithReply(db, id, rep), rep.post))
  {
    var db' := WithRepliesIncremented(WithReply(db, id, rep), rep.post);
    forall p | p in db'.posts ensures db'.posts[p].replies == |RepliesOf(db'.replies, p)| {
      RepliesOfWith(db.replies, id, rep, p);
      if rep.post == p {
        assert id !in RepliesOf(db.replies, p);
      }
    }
  }

  /** Storing a reply without the increment (the increment failed) leaves
      its post's counter exactly one short and every other counter exact. */
  lemma {:induction false} ReplyWithoutIncrementUndercounts(db: Db, id: Id, rep: ReplyModel.Reply)
    requires CountersConsistent(db) && id !in db.replies && rep.post in db.posts
    ensures var db' := WithReply(db, id, rep);
      && db'.posts[rep.post].replies + 1 == |RepliesOf(db'.replies, rep.post)|
      && forall p | p in db'.posts && p != rep.post :: db'.posts[p].replies == |RepliesOf(db'.replies, p)|
  {
    var db' := WithReply(db, id, rep);
    RepliesOfWith(db.replies, id, rep, rep.post);
    assert id !in RepliesOf(db.replies, rep.post);
    forall p | p in db'.posts && p != rep.post
      ensures db'.posts[p].replies == |RepliesOf(db'.replies, p)|
    {
      RepliesOfWith(db.replies, id, rep, p);
    }
  }

  /** A new post under a fresh id starts with a counter of 0 and no reply can
      already point at it, so the counters stay consistent. */
  lemma NewPostConsistent(db: Db, id: Id, p: PostModel.Post)
    requires id !in db.posts && p.replies == 0
    ensures Valid(db) ==> Valid(WithPost(db, id, p))
    ensures Valid(db) && CountersConsistent(db) ==> CountersConsistent(WithPost(db, id, p))
  {
    var db' := WithPost(db, id, p);
    if Valid(db) {
      assert RepliesOf(db.replies, id) == {} by {
        forall r | r in db.replies ensures db.replies[r].post != id {
          assert ReplyLinksValid(db, r);
        }
      }
      ThreadsKept(db, db');
    }
  }

  // ---------------------------------------------------------------------
  // The denormalised post counter of a circle

  /** The posts published in circle `c`. */
  function PostsIn(posts: map<Id, PostModel.Post>, c: Id): set<Id> {
    set p | p in posts.Keys && posts[p].circleId == c
  }

  /** The short videos published in circle `c`. */
  function ShortsIn(shorts: map<Id, ShortModel.Short>, c: Id): set<Id> {
    set s | s in shorts.Keys && shorts[s].circle == c
  }

  /** Every post and every short names a stored circle, and each circle's
      `postCount` equals the number of posts and shorts published in it
      (both upload routes add one to it). */
  ghost predicate PostCountsConsistent(db: Db) {
    && (forall p | p in db.posts :: db.posts[p].circleId in db.circles)
    && (forall s | s in db.shorts :: db.shorts[s].circle in db.circles)
    && (forall c | c in db.circles ::
          db.circles[c].postCount == |PostsIn(db.posts, c)| + |ShortsIn(db.shorts, c)|)
  }

  /** Adding one to a circle's `postCount` changes no name, email or reply,
      so every invariant of `Valid` and the reply counters survive it. */
  lemma PostCountIncrementKeeps(db: Db, c: Id)
    ensures Valid(db) ==> Valid(WithPostCountIncremented(db, c))
    ensures CountersConsistent(db) ==> CountersConsistent(WithPostCountIncremented(db, c))
  {
    var db' := WithPostCountIncremented(db, c);
    if Valid(db) {
      ThreadsKept(db, db');
      if c in db.circles {
        forall a, b | a in db'.circles && b in db'.circles && a != b
          ensures db'.circles[a].name != db'.circles[b].name
        {
          assert db'.circles[a].name == db.circles[a].name;
          assert db'.circles[b].name == db.circles[b].name;
        }
      }
    }
  }

  lemma PostsInWith(posts: map<Id, PostModel.Post>, id: Id, p: PostModel.Post, c: Id)
    requires id !in posts
    ensures PostsIn(posts[id := p], c)
         == if p.circleId == c then PostsIn(posts, c) + {id} else PostsIn(posts, c)
  {
  }

  lemma ShortsInWith(shorts: map<Id, ShortModel.Short>, id: Id, s: ShortModel.Short, c: Id)
    requires id !in shorts
    ensures ShortsIn(shorts[id := s], c)
         == if s.circle == c then ShortsIn(shorts, c) + {id} else ShortsIn(shorts, c)
  {
  }

  /** A database whose counts are exact except that circle `c` is one
      short becomes exact once `c`'s `postCount` is incremented. */
  lemma IncrementCompletes(d: Db, c: Id)
    requires c in d.circles
    requires forall p | p in d.posts :: d.posts[p].circleId in d.circles
    requires forall k | k in d.shorts :: d.shorts[k].circle in d.circles
    requires forall k | k in d.circles && k != c ::
      d.circles[k].postCount == |PostsIn(d.posts, k)| + |ShortsIn(d.shorts, k)|
    requires d.circles[c].postCount + 1 == |PostsIn(d.posts, c)| + |ShortsIn(d.shorts, c)|
    ensures PostCountsConsistent(WithPostCountIncremented(d, c))
  {
    var d' := WithPostCountIncremented(d, c);
    assert d'.posts == d.posts && d'.shorts == d.shorts && d'.circles.Keys == d.circles.Keys;
    forall k | k in d'.circles
      ensures d'.circles[k].postCount == |PostsIn(d'.posts, k)| + |ShortsIn(d'.shorts, k)|
    {
      if k != c {
        assert d'.circles[k] == d.circles[k];
      }
    }
  }

  /** A new post in an existing circle, followed by the increment of that
      circle's `postCount`, keeps every circle's count exact. */
  lemma {:induction false} NewPostCounted(db: Db, id: Id, p: PostModel.Post)
    requires PostCountsConsistent(db) && id !in db.posts && p.circleId in db.circles
    ensures PostCountsConsistent(WithPostCountIncremented(WithPost(db, id, p), p.circleId))
  {
    var d := WithPost(db, id, p);
    PostAddedCounts(db, d, id, p);
    IncrementCompletes(d, p.circleId);
  }

  lemma PostAddedHere(db: Db, d: Db, id: Id, p: PostModel.Post)
    requires PostCountsConsistent(db) && id !in db.posts && p.circleId in db.circles
    requires d.shorts == db.shorts && d.circles == db.circles && d.posts == db.posts[id := p]
    ensures d.circles[p.circleId].postCount + 1 == |PostsIn(d.posts, p.circleId)| + |ShortsIn(d.shorts, p.circleId)|
  {
    var before := PostsIn(db.posts, p.circleId);
    PostsInWith(db.posts, id, p, p.circleId);
    assert id !in before;
    assert |before + {id}| == |before| + 1;
    assert ShortsIn(d.shorts, p.circleId) == ShortsIn(db.shorts, p.circleId);
  }

  lemma PostAddedElsewhere(db: Db, d: Db, id: Id, p: PostModel.Post, k: Id)
    requires PostCountsConsistent(db) && id !in db.posts && k in db.circles && k != p.circleId
    requires d.shorts == db.shorts && d.circles == db.circles && d.posts == db.posts[id := p]
    ensures d.circles[k].postCount == |PostsIn(d.posts, k)| + |ShortsIn(d.shorts, k)|
  {
    PostsInWith(db.posts, id, p, k);
  }

  /** With one more post stored in circle `p.circleId`, every other
      circle's count is still exact and that circle's is one short. */
  lemma PostAddedCounts(db: Db, d: Db, id: Id, p: PostModel.Post)
    requires PostCountsConsistent(db) && id !in db.posts && p.circleId in db.circles
    requires d.shorts == db.shorts && d.circles == db.circles && d.posts == db.posts[id := p]
    ensures forall k | k in d.posts :: d.posts[k].circleId in d.circles
    ensures forall k | k in d.shorts :: d.shorts[k].circle in d.circles
    ensures forall k | k in d.circles && k != p.circleId ::
      d.circles[k].postCount == |PostsIn(d.posts, k)| + |ShortsIn(d.shorts, k)|
    ensures d.circles[p.circleId].postCount + 1 == |PostsIn(d.posts, p.circleId)| + |ShortsIn(d.shorts, p.circleId)|
  {
    forall k | k in d.posts ensures d.posts[k].circleId in d.circles {
      if k != id { assert d.posts[k] == db.posts[k]; }
    }
    forall k | k in d.circles && k != p.circleId
      ensures d.circles[k].postCount == |PostsIn(d.posts, k)| + |ShortsIn(d.shorts, k)|
    {
      PostAddedElsewhere(db, d, id, p, k);
    }
    PostAddedHere(db, d, id, p);
  }

  lemma ShortAddedHere(db: Db, d: Db, id: Id, s: ShortModel.Short)
    requires PostCountsConsistent(db) && id !in db.shorts && s.circle in db.circles
    requires d.posts == db.posts && d.circles == db.circles && d.shorts == db.shorts[id := s]
    ensures d.circles[s.circle].postCount + 1 == |PostsIn(d.posts, s.circle)| + |ShortsIn(d.shorts, s.circle)|
  {
    var before := ShortsIn(db.shorts, s.circle);
    ShortsInWith(db.shorts, id, s, s.circle);
    assert id !in before;
    assert |before + {id}| == |before| + 1;
    assert PostsIn(d.posts, s.circle) == PostsIn(db.posts, s.circle);
  }

  lemma ShortAddedElsewhere(db: Db, d: Db, id: Id, s: ShortModel.Short, k: Id)
    requires PostCountsConsistent(db) && id !in db.shorts && k in db.circles && k != s.circle
    requires d.posts == db.posts && d.circles == db.circles && d.shorts == db.shorts[id := s]
    ensures d.circles[k].postCount == |PostsIn(d.posts, k)| + |ShortsIn(d.shorts, k)|
  {
    ShortsInWith(db.shorts, id, s, k);
  }

  /** With one more short stored in circle `s.circle`, every other circle's
      count is still exact and that circle's is one short. */
  lemma ShortAddedCounts(db: Db, d: Db, id: Id, s: ShortModel.Short)
    requires PostCountsConsistent(db) && id !in db.shorts && s.circle in db.circles
    requires d.posts == db.posts && d.circles == db.circles && d.shorts == db.shorts[id := s]
    ensures forall k | k in d.shorts :: d.shorts[k].circle in d.circles
    ensures forall k | k in d.circles && k != s.circle ::
      d.circles[k].postCount == |PostsIn(d.posts, k)| + |ShortsIn(d.shorts, k)|
    ensures d.circles[s.circle].postCount + 1 == |PostsIn(d.posts, s.circle)| + |ShortsIn(d.shorts, s.circle)|
  {
    forall k | k in d.shorts ensures d.shorts[k].circle in d.circles {
      if k != id { assert d.shorts[k] == db.shorts[k]; }
    }
    forall k | k in d.circles && k != s.circle
      ensures d.circles[k].postCount == |PostsIn(d.posts, k)| + |ShortsIn(d.shorts, k)|
    {
      ShortAddedElsewhere(db, d, id, s, k);
    }
    ShortAddedHere(db, d, id, s);
  }

  /** A new short in an existing circle, the push onto its author's list and
      the increment of the circle's `postCount` keep every count exact. */
  lemma {:induction false} NewShortCounted(db: Db, id: Id, s: ShortModel.Short)
    requires PostCountsConsistent(db) && id !in db.shorts && s.circle in db.circles
    ensures PostCountsConsistent(
      WithPostCountIncremented(WithShortVideoPushed(WithShort(db, id, s), s.user, id), s.circle))
  {
    var d := WithShortVideoPushed(WithShort(db, id, s), s.user, id);
    assert d.posts == db.posts && d.circles == db.circles && d.shorts == db.shorts[id := s];
    ShortAddedCounts(db, d, id, s);
    IncrementCompletes(d, s.circle);
  }

  /** A new circle under a fresh id starts at 0, and nothing can already be
      published in it. */
  lemma NewCircleCounted(db: Db, id: Id, c: CircleModel.Circle)
    requires PostCountsConsistent(db) && id !in db.circles && c.postCount == 0
    ensures PostCountsConsistent(WithCircle(db, id, c))
  {
    var db' := WithCircle(db, id, c);
    assert PostsIn(db.posts, id) == {};
    assert ShortsIn(db.shorts, id) == {};
    forall k | k in db'.circles
      ensures db'.circles[k].postCount == |PostsIn(db'.posts, k)| + |ShortsIn(db'.shorts, k)|
    {
      if k != id {
        assert db'.circles[k] == db.circles[k];
      }
    }
  }

  /** Storing a short and pushing its id onto a user's list change no reply,
      post, circle, user name or email. */
  lemma ShortStoredKeeps(db: Db, id: Id, s: ShortModel.Short, user: Id)
    ensures var db' := WithShortVideoPushed(WithShort(db, id, s), user, id);
      && (Valid(db) ==> Valid(db'))
      && (CountersConsistent(db) ==> CountersConsistent(db'))
  {
    var db' := WithShortVideoPushed(WithShort(db, id, s), user, id);
    assert db'.posts == db.posts && db'.replies == db.replies && db'.replyOrder == db.replyOrder;
    assert db'.circles == db.circles && db'.users.Keys == db.users.Keys;
    if Valid(db) {
      ThreadsKept(db, db');
      if user in db.users {
        PushKeepsUnique(db.users, user, id);
      }
    }
  }

  /** Appending to one user's `shortVideos` keeps usernames and emails
      unique. */
  lemma PushKeepsUnique(users: map<Id, UserModel.User>, u: Id, shortId: Id)
    requires u in users && UserModel.NamesAndEmailsUnique(users)
    ensures UserModel.NamesAndEmailsUnique(users[u := users[u].(shortVideos := users[u].shortVideos + [shortId])])
  {
    var users' := users[u := users[u].(shortVideos := users[u].shortVideos + [shortId])];
    forall a, b | a in users' && b in users' && a != b
      ensures users'[a].username != users'[b].username && users'[a].email != users'[b].email
    {
      assert users'[a].username == users[a].username && users'[a].email == users[a].email;
      assert users'[b].username == users[b].username && users'[b].email == users[b].email;
    }
  }

  /** The three writes of a short upload keep `Valid` and the reply
      counters. */
  lemma ShortUploadKeeps(db: Db, id: Id, s: ShortModel.Short)
    ensures var db' := WithPostCountIncremented(WithShortVideoPushed(WithShort(db, id, s), s.user, id), s.circle);
      && (Valid(db) ==> Valid(db'))
      && (CountersConsistent(db) ==> CountersConsistent(db'))
  {
    ShortStoredKeeps(db, id, s, s.user);
    PostCountIncrementKeeps(WithShortVideoPushed(WithShort(db, id, s), s.user, id), s.circle);
  }

  /** A circle whose name no stored circle has keeps the names unique. */
  lemma NewCircleKeeps(db: Db, id: Id, c: CircleModel.Circle)
    requires id !in db.circles
    requires forall k | k in db.circles :: db.circles[k].name != c.name
    ensures Valid(db) ==> Valid(WithCircle(db, id, c))
    ensures CountersConsistent(db) ==> CountersConsistent(WithCircle(db, id, c))
  {
    var db' := WithCircle(db, id, c);
    if Valid(db) {
      ThreadsKept(db, db');
    }
  }

  /** A user whose name and email no stored user has keeps both unique. */
  lemma NewUserKeeps(db: Db, id: Id, u: UserModel.User)
    requires id !in db.users
    requires forall k | k in db.users :: db.users[k].username != u.username && db.users[k].email != u.email
    ensures Valid(db) ==> Valid(WithUser(db, id, u))
    ensures CountersConsistent(db) ==> CountersConsistent(WithUser(db, id, u))
    ensures PostCountsConsistent(db) ==> PostCountsConsistent(WithUser(db, id, u))
  {
    var db' := WithUser(db, id, u);
    if Valid(db) {
      ThreadsKept(db, db');
    }
  }

  // ---------------------------------------------------------------------
  // The database handle

  class Store {
    var posts: map<Id, PostModel.Post>
    var replies: map<Id, ReplyModel.Reply>
    var replyOrder: seq<Id>
    var users: map<Id, UserModel.User>
    var circles: map<Id, CircleModel.Circle>
    var shorts: map<Id, ShortModel.Short>

    /** The collections as one snapshot. */
    function View(): Db
      reads this
    {
      Db(posts, replies, replyOrder, users, circles, shorts)
    }

    constructor ()
      ensures View() == Empty()
    {
      posts, replies, replyOrder := map[], map[], [];
      users, circles, shorts := map[], map[], map[];
    }

    method InsertReply(id: Id, rep: ReplyModel.Reply)
      modifies this
      ensures View() == WithReply(old(View()), id, rep)
    {
      replies := replies[id := rep];
      replyOrder := replyOrder + [id];
    }

    method IncrementReplies(id: Id)
      modifies this
      ensures View() == WithRepliesIncremented(old(View()), id)
    {
      if id in posts {
        posts := posts[id := posts[id].(replies := posts[id].replies + 1)];
      }
    }

    method InsertPost(id: Id, p: PostModel.Post)
      modifies this
      ensures View() == WithPost(old(View()), id, p)
    {
      posts := posts[id := p];
    }

    method IncrementPostCount(id: Id)
      modifies this
      ensures View() == WithPostCountIncremented(old(View()), id)
    {
      if id in circles {
        circles := circles[id := circles[id].(postCount := circles[id].postCount + 1)];
      }
    }

    method InsertCircle(id: Id, c: CircleModel.Circle)
      modifies this
      ensures View() == WithCircle(old(View()), id, c)
    {
      circles := circles[id := c];
    }

    method InsertShort(id: Id, s: ShortModel.Short)
      modifies this
      ensures View() == WithShort(old(View()), id, s)
    {
      shorts := shorts[id := s];
    }

    method PushShortVideo(id: Id, shortId: Id)
      modifies this
      ensures View() == WithShortVideoPushed(old(View()), id, shortId)
    {
      if id in users {
        users := users[id := users[id].(shortVideos := users[id].shortVideos + [shortId])];
      }
    }

    method InsertUser(id: Id, u: UserModel.User)
      modifies this
      ensures View() == WithUser(old(View()), id, u)
    {
      users := users[id := u];
    }
  }
}
