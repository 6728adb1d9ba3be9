/** The post document (model/post.js). */
module PostModel {
  import opened Common

  /** A tag of the post text: its name and its position in the content. */
  datatype Tag = Tag(name: string, index: int)

  /** A tag as the client sent it, before the schema checks it. */
  datatype TagInput = TagInput(name: Option<string>, index: Option<int>)

  /** A stored post. `replies` is the denormalised count of its replies. */
  datatype Post = Post(
    title: string,
    content: string,
    images: seq<string>,
    authorId: Id,
    circleId: Id,
    tags: seq<Tag>,
    likes: int,
    replies: int,
    favorites: int,
    createdAt: int)

  datatype SchemaError = RequiredMissing(path: string)

  /** A tag passes the schema when both its required paths are set. */
  predicate TagComplete(t: TagInput) {
    Present(t.name) && t.index.Some?
  }

  function ToTags(ts: seq<TagInput>): (r: seq<Tag>)
    requires forall i | 0 <= i < |ts| :: ts[i].name.Some? && ts[i].index.Some?
    ensures |r| == |ts|
    ensures forall i | 0 <= i < |r| :: r[i] == Tag(ts[i].name.value, ts[i].index.value)
  {
    if ts == [] then [] else [Tag(ts[0].name.value, ts[0].index.value)] + ToTags(ts[1..])
  }

  /** `Post.create({...})`: title and content are required, every tag needs a
      name and an index, and the three counters start at 0. */
  function NewPost(title: string, content: string, images: seq<string>, authorId: Id,
                   circleId: Id, tags: seq<TagInput>, now: int): (r: Result<Post, SchemaError>)
    ensures r.Ok? <==> title != "" && content != ""
                       && forall i | 0 <= i < |tags| :: TagComplete(tags[i])
    ensures r.Ok? ==> var p := r.value;
      && p.title == title && p.content == content && p.images == images
      && p.authorId == authorId && p.circleId == circleId
      && |p.tags| == |tags|
      && (forall i | 0 <= i < |tags| :: p.tags[i].name == tags[i].name.value
                                         && p.tags[i].index == tags[i].index.value)
      && p.likes == 0 && p.replies == 0 && p.favorites == 0 && p.createdAt == now
  {
    if title == "" then Err(RequiredMissing("title"))
    else if content == "" then Err(RequiredMissing("content"))
    else if !(forall i | 0 <= i < |tags| :: TagComplete(tags[i])) then Err(RequiredMissing("tags"))
    else Ok(Post(title, content, images, authorId, circleId, ToTags(tags), 0, 0, 0, now))
  }
}
