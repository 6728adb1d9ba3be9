/** The reply document (model/reply.js).

    The schema declares its references as `postId`, `parentReplyId`,
    `userId` and `replyToUserId`, while every route and validator reads and
    writes `post`, `parentReply`, `user` and `replyToUser`. `SchemaDoc` and
    `NewReplyAsWritten` show what that mismatch does to a save; the stored
    record `Reply` uses the route-level names, as if the schema declared
    them. */
module ReplyModel {
  import opened Common

  /** A stored reply. `parentReply == None` marks a root reply. */
  datatype Reply = Reply(
    post: Id,
    parentReply: Option<Id>,
    content: string,
    user: Id,
    replyToUser: Option<Id>,
    createdAt: int,
    likes: int)

  datatype SchemaError = RequiredMissing(path: string)

  /** The characters `String.prototype.trim` removes: ECMAScript WhiteSpace
      and LineTerminator. */
  predicate IsSpace(c: char) {
    c == '\t' || c == '\n' || c == '\U{B}' || c == '\U{C}' || c == '\r' || c == ' '
    || c == '\U{A0}' || c == '\U{1680}' || ('\U{2000}' <= c <= '\U{200A}')
    || c == '\U{2028}' || c == '\U{2029}' || c == '\U{202F}' || c == '\U{205F}'
    || c == '\U{3000}' || c == '\U{FEFF}'
  }

  /** Neither end of `s` is white space. */
  predicate Trimmed(s: string) {
    s == [] || (!IsSpace(s[0]) && !IsSpace(s[|s| - 1]))
  }

  function TrimStart(s: string): (r: string)
    ensures |r| <= |s| && r == s[|s| - |r|..]
    ensures forall m | 0 <= m < |s| - |r| :: IsSpace(s[m])
    ensures r == [] || !IsSpace(r[0])
  {
    if s != [] && IsSpace(s[0]) then TrimStart(s[1..]) else s
  }

  function TrimEnd(s: string): (r: string)
    ensures |r| <= |s| && r == s[..|r|]
    ensures forall m | |r| <= m < |s| :: IsSpace(s[m])
    ensures r == [] || !IsSpace(r[|r| - 1])
  {
    if s != [] && IsSpace(s[|s| - 1]) then TrimEnd(s[..|s| - 1]) else s
  }

  /** The schema's `trim: true`: the value with white space removed at both
      ends and nothing else changed. */
  function Trim(s: string): (r: string)
    ensures Trimmed(r)
    ensures exists i, j :: 0 <= i <= j <= |s| && r == s[i..j]
  {
    var t := TrimStart(s);
    var r := TrimEnd(t);
    assert r == s[|s| - |t|..|s| - |t| + |r|];
    r
  }

  /** Trimming leaves an already trimmed string alone. */
  lemma {:induction false} TrimTrimmed(s: string)
    requires Trimmed(s)
    ensures Trim(s) == s
  {
    assert TrimStart(s) == s;
    assert TrimEnd(s) == s;
  }

  /** Trimming twice is trimming once. */
  lemma TrimIdempotent(s: string)
    ensures Trim(Trim(s)) == Trim(s)
  {
    TrimTrimmed(Trim(s));
  }

  /** Only white space is lost: a string with a non-space character keeps a
      non-empty trimmed value. */
  lemma {:induction false} TrimEmptyIffAllSpace(s: string)
    ensures Trim(s) == [] <==> forall m | 0 <= m < |s| :: IsSpace(s[m])
  {
    var t := TrimStart(s);
    if t == [] {
      assert forall m | 0 <= m < |s| :: IsSpace(s[m]);
    } else {
      assert !IsSpace(s[|s| - |t|]);
      assert TrimEnd(t) != [] by {
        assert !IsSpace(t[0]);
        assert !(forall m | 0 <= m < |t| :: IsSpace(t[m]));
      }
    }
  }

  /** `new replyModel({...}).save()` after the schema has run: `content` is
      trimmed and required (a blank content fails validation), `likes`
      starts at 0 and `createdAt` at the creation time. */
  function NewReply(post: Id, parentReply: Option<Id>, content: string, user: Id,
                    replyToUser: Option<Id>, now: int): (r: Result<Reply, SchemaError>)
    ensures r.Err? <==> forall m | 0 <= m < |content| :: IsSpace(content[m])
    ensures r.Err? ==> r.error == RequiredMissing("content")
    ensures r.Ok? ==> var rep := r.value;
      && rep.content == Trim(content) && rep.content != "" && Trimmed(rep.content)
      && rep.post == post && rep.user == user
      && rep.parentReply == parentReply && rep.replyToUser == replyToUser
      && rep.likes == 0 && rep.createdAt == now
  {
    TrimEmptyIffAllSpace(content);
    var c := Trim(content);
    if c == "" then Err(RequiredMissing("content"))
    else Ok(Reply(post, parentReply, c, user, replyToUser, now, 0))
  }

  // ---------------------------------------------------------------------
  // The schema's own paths

  /** The fields `POST /` hands to `new replyModel(...)`, by the names it
      uses. */
  datatype RouteFields = RouteFields(
    post: Id, parentReply: Option<Id>, content: string, user: Id, replyToUser: Option<Id>)

  /** A document by the schema's declared paths. */
  datatype SchemaDoc = SchemaDoc(
    postId: Option<Id>, parentReplyId: Option<Id>, content: string,
    userId: Option<Id>, replyToUserId: Option<Id>)

  /** Validation and defaults: `postId`, `content` (after trimming) and
      `userId` are required, reported in the schema's order. */
  function ValidateDoc(d: SchemaDoc, now: int): (r: Result<Reply, SchemaError>)
    ensures r.Ok? <==> d.postId.Some? && d.userId.Some? && Trim(d.content) != ""
    ensures r.Err? && d.postId.None? ==> r.error == RequiredMissing("postId")
    ensures r.Ok? ==>
      r.value == Reply(d.postId.value, d.parentReplyId, Trim(d.content), d.userId.value,
                       d.replyToUserId, now, 0)
  {
    if d.postId.None? then Err(RequiredMissing("postId"))
    else if Trim(d.content) == "" then Err(RequiredMissing("content"))
    else if d.userId.None? then Err(RequiredMissing("userId"))
    else Ok(Reply(d.postId.value, d.parentReplyId, Trim(d.content), d.userId.value,
                  d.replyToUserId, now, 0))
  }

  /** The route's fields as written: strict mode keeps only declared paths,
      so of `post`, `parentReply`, `content`, `user` and `replyToUser` only
      `content` survives. */
  function CastAsWritten(f: RouteFields): (d: SchemaDoc)
    ensures d.postId.None? && d.userId.None? && d.content == f.content
  {
    SchemaDoc(None, None, f.content, None, None)
  }

  /** The route's fields under the schema's names, as intended. */
  function Cast(f: RouteFields): (d: SchemaDoc)
    ensures d.postId == Some(f.post) && d.userId == Some(f.user) && d.content == f.content
    ensures d.parentReplyId == f.parentReply && d.replyToUserId == f.replyToUser
  {
    SchemaDoc(Some(f.post), f.parentReply, f.content, Some(f.user), f.replyToUser)
  }

  /** `newReply.save()` as written: it fails validation on `postId` for
      every request, whatever the content. */
  function NewReplyAsWritten(f: RouteFields, now: int): (r: Result<Reply, SchemaError>)
    ensures r == Err(RequiredMissing("postId"))
  {
    ValidateDoc(CastAsWritten(f), now)
  }

  /** The corrected save is `NewReply`: it is validation of the fields
      under the schema's names. */
  lemma NewReplyIsCorrectedSave(f: RouteFields, now: int)
    ensures NewReply(f.post, f.parentReply, f.content, f.user, f.replyToUser, now)
         == ValidateDoc(Cast(f), now)
  {
    TrimEmptyIffAllSpace(f.content);
  }

  /** A well-formed reply: as written it is refused (the route answers 500);
      corrected it is stored. */
  lemma ReplySaveFailsAsWritten(now: int)
    ensures var f := RouteFields("p1", None, "hello", "u1", None);
      && NewReplyAsWritten(f, now).Err?
      && NewReply(f.post, f.parentReply, f.content, f.user, f.replyToUser, now).Ok?
  {
    var f := RouteFields("p1", None, "hello", "u1", None);
    assert !IsSpace(f.content[0]);
  }
}
