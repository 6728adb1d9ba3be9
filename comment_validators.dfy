/** The three validators that run, in order, before a reply is created
    (middleware/commentValidators.js). Each either lets the request go on or
    stops it with a numbered error. The `ObjectId.isValid` shape check is a
    parameter; a database lookup that throws is named in `faults`. */
module CommentValidators {
  import opened Common
  import opened Database

  /** The body of `POST /` on the reply router. */
  datatype ReplyBody = ReplyBody(
    postId: Option<string>,
    content: Option<string>,
    parentReplyId: Option<string>,
    replyToUserId: Option<string>)

  /** Why a validator stopped the request. */
  datatype Rejection =
    | PostIdMissing | PostIdMalformed | PostNotFound | PostCheckFailed
    | ParentMalformed | ParentNotFound | ParentOnOtherPost | ParentCheckFailed
    | ReplyToUserMalformed | ReplyToUserNotFound | ReplyToUserCheckFailed
  {
    /** The HTTP status of the response. */
    function Status(): nat {
      match this
      case PostIdMissing | PostIdMalformed | ParentMalformed | ReplyToUserMalformed => 400
      case PostNotFound | ParentNotFound | ReplyToUserNotFound => 404
      case ParentOnOtherPost => 409
      case PostCheckFailed | ParentCheckFailed | ReplyToUserCheckFailed => 500
    }

    /** The `code` field of the response body. */
    function Code(): nat {
      match this
      case PostIdMissing => 4001
      case PostIdMalformed => 4002
      case PostNotFound => 4003
      case ParentMalformed => 4004
      case ParentNotFound => 4005
      case ParentOnOtherPost => 4006
      case ReplyToUserMalformed => 4007
      case ReplyToUserNotFound => 4008
      case PostCheckFailed => 5001
      case ParentCheckFailed => 5002
      case ReplyToUserCheckFailed => 5003
    }
  }

  /** The outcome of a validator that records nothing. */
  datatype Check = Pass | Fail(rejection: Rejection)

  /** `validatePostId`: the post id must be given, well formed and name an
      existing post; on success it becomes `req.validatedPostId`. */
  function ValidatePostId(body: ReplyBody, db: Db, isObjectId: string -> bool,
                          faults: set<Fault>): (r: Result<Id, Rejection>)
    ensures r == Err(PostIdMissing) <==> !Present(body.postId)
    ensures r == Err(PostIdMalformed) <==> Present(body.postId) && !isObjectId(body.postId.value)
    ensures r == Err(PostCheckFailed) <==>
      Present(body.postId) && isObjectId(body.postId.value) && PostLookup in faults
    ensures r == Err(PostNotFound) <==>
      Present(body.postId) && isObjectId(body.postId.value) && PostLookup !in faults
      && body.postId.value !in db.posts
    ensures r.Ok? <==>
      Present(body.postId) && isObjectId(body.postId.value) && PostLookup !in faults
      && body.postId.value in db.posts
    ensures r.Ok? ==> r.value == body.postId.value
  {
    if !Present(body.postId) then Err(PostIdMissing)
    else if !isObjectId(body.postId.value) then Err(PostIdMalformed)
    else if PostLookup in faults then Err(PostCheckFailed)
    else if body.postId.value !in db.posts then Err(PostNotFound)
    else Ok(body.postId.value)
  }

  /** `validateParentReply`: no parent passes without a lookup; a parent must
      be well formed, exist, and belong to the validated post. */
  function ValidateParentReply(body: ReplyBody, validatedPostId: Id, db: Db,
                               isObjectId: string -> bool, faults: set<Fault>): (r: Check)
    ensures !Present(body.parentReplyId) ==> r == Pass
    ensures r == Fail(ParentMalformed) <==>
      Present(body.parentReplyId) && !isObjectId(body.parentReplyId.value)
    ensures r == Fail(ParentCheckFailed) <==>
      Present(body.parentReplyId) && isObjectId(body.parentReplyId.value) && ParentLookup in faults
    ensures r == Fail(ParentNotFound) <==>
      Present(body.parentReplyId) && isObjectId(body.parentReplyId.value) && ParentLookup !in faults
      && body.parentReplyId.value !in db.replies
    ensures r == Fail(ParentOnOtherPost) <==>
      Present(body.parentReplyId) && isObjectId(body.parentReplyId.value) && ParentLookup !in faults
      && body.parentReplyId.value in db.replies
      && db.replies[body.parentReplyId.value].post != validatedPostId
    ensures r == Pass <==>
      !Present(body.parentReplyId)
      || (isObjectId(body.parentReplyId.value) && ParentLookup !in faults
          && body.parentReplyId.value in db.replies
          && db.replies[body.parentReplyId.value].post == validatedPostId)
  {
    if !Present(body.parentReplyId) then Pass
    else if !isObjectId(body.parentReplyId.value) then Fail(ParentMalformed)
    else if ParentLookup in faults then Fail(ParentCheckFailed)
    else if body.parentReplyId.value !in db.replies then Fail(ParentNotFound)
    else if db.replies[body.parentReplyId.value].post != validatedPostId then Fail(ParentOnOtherPost)
    else Pass
  }

  /** `validateReplyToUser`: no addressed user passes without a lookup; one
      that is given must be well formed and exist. */
  function ValidateReplyToUser(body: ReplyBody, db: Db, isObjectId: string -> bool,
                               faults: set<Fault>): (r: Check)
    ensures !Present(body.replyToUserId) ==> r == Pass
    ensures r == Fail(ReplyToUserMalformed) <==>
      Present(body.replyToUserId) && !isObjectId(body.replyToUserId.value)
    ensures r == Fail(ReplyToUserCheckFailed) <==>
      Present(body.replyToUserId) && isObjectId(body.replyToUserId.value)
      && ReplyToUserLookup in faults
    ensures r == Fail(ReplyToUserNotFound) <==>
      Present(body.replyToUserId) && isObjectId(body.replyToUserId.value)
      && ReplyToUserLookup !in faults && body.replyToUserId.value !in db.users
    ensures r == Pass <==>
      !Present(body.replyToUserId)
      || (isObjectId(body.replyToUserId.value) && ReplyToUserLookup !in faults
          && body.replyToUserId.value in db.users)
  {
    if !Present(body.replyToUserId) then Pass
    else if !isObjectId(body.replyToUserId.value) then Fail(ReplyToUserMalformed)
    else if ReplyToUserLookup in faults then Fail(ReplyToUserCheckFailed)
    else if body.replyToUserId.value !in db.users then Fail(ReplyToUserNotFound)
    else Pass
  }

  /** The references of a reply request hold in the database: the post
      exists, a given parent exists under the same post, a given addressed
      user exists (and every id is well formed). */
  ghost predicate ReferencesHold(body: ReplyBody, db: Db, isObjectId: string -> bool) {
    && Present(body.postId) && isObjectId(body.postId.value) && body.postId.value in db.posts
    && (Present(body.parentReplyId) ==>
          isObjectId(body.parentReplyId.value) && body.parentReplyId.value in db.replies
          && db.replies[body.parentReplyId.value].post == body.postId.value)
    && (Present(body.replyToUserId) ==>
          isObjectId(body.replyToUserId.value) && body.replyToUserId.value in db.users)
  }

  /** The lookups the chain reaches all answer. */
  ghost predicate LookupsAnswer(body: ReplyBody, faults: set<Fault>) {
    && PostLookup !in faults
    && (Present(body.parentReplyId) ==> ParentLookup !in faults)
    && (Present(body.replyToUserId) ==> ReplyToUserLookup !in faults)
  }

  /** The three validators in route order; the first failure stops the
      chain. It admits a request exactly when the request's references hold
      and the lookups it needs answer, and then yields the request's own
      post id. */
  function ValidateChain(body: ReplyBody, db: Db, isObjectId: string -> bool,
                         faults: set<Fault>): (r: Result<Id, Rejection>)
    ensures r.Ok? <==> ReferencesHold(body, db, isObjectId) && LookupsAnswer(body, faults)
    ensures r.Ok? ==> r.value == body.postId.value
  {
    match ValidatePostId(body, db, isObjectId, faults)
    case Err(e) => Err(e)
    case Ok(postId) =>
      match ValidateParentReply(body, postId, db, isObjectId, faults)
      case Fail(e) => Err(e)
      case Pass =>
        match ValidateReplyToUser(body, db, isObjectId, faults)
        case Fail(e) => Err(e)
        case Pass => Ok(postId)
  }

  /** A missing post id is reported as 4001 whatever else the request holds:
      nothing is checked before it. */
  lemma MissingPostIdFirst(body: ReplyBody, db: Db, isObjectId: string -> bool, faults: set<Fault>)
    requires !Present(body.postId)
    ensures ValidateChain(body, db, isObjectId, faults) == Err(PostIdMissing)
    ensures PostIdMissing.Status() == 400 && PostIdMissing.Code() == 4001
  {
  }

  /** A parent that lives under another post is refused with 409 / 4006,
      once the post itself has passed. */
  lemma ParentOnOtherPostConflicts(body: ReplyBody, db: Db, isObjectId: string -> bool,
                                   faults: set<Fault>)
    requires ValidatePostId(body, db, isObjectId, faults).Ok?
    requires Present(body.parentReplyId) && isObjectId(body.parentReplyId.value)
    requires ParentLookup !in faults && body.parentReplyId.value in db.replies
    requires db.replies[body.parentReplyId.value].post != body.postId.value
    ensures ValidateChain(body, db, isObjectId, faults) == Err(ParentOnOtherPost)
    ensures ParentOnOtherPost.Status() == 409 && ParentOnOtherPost.Code() == 4006
  {
  }

  /** Each failure code belongs to one step: 400x/5001 to the post check,
      4004-4006/5002 to the parent check, 4007/4008/5003 to the addressed
      user check, and the codes of different rejections differ. */
  lemma CodesIdentifyRejections(a: Rejection, b: Rejection)
    ensures a.Code() == b.Code() ==> a == b
    ensures a.Status() == 500 <==> a.Code() >= 5001
  {
  }
}
