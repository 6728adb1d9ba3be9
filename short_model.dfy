/** The short-video document (model/short.js).

    The upload route writes `user`, `circle` and `tags`, which the schema
    does not declare (it declares a required `userId`). The record uses the
    route-level fields. */
module ShortModel {
  import opened Common

  datatype Short = Short(
    title: string,
    videoUrl: string,
    publishedAt: int,
    description: string,
    user: Id,
    circle: Id,
    tags: seq<string>,
    likes: int,
    comments: int,
    favorites: int)

  datatype SchemaError = RequiredMissing(path: string)

  /** `Short.create({...})`: title and video URL are required, description
      defaults to the empty string, the counters start at 0. */
  function NewShort(title: Option<string>, videoUrl: string, description: Option<string>,
                    user: Id, circle: Id, tags: seq<string>, now: int): (r: Result<Short, SchemaError>)
    ensures r.Ok? <==> Present(title) && videoUrl != ""
    ensures r.Ok? ==> var s := r.value;
      && s.title == title.value && s.videoUrl == videoUrl
      && s.description == (if description.Some? then description.value else "")
      && s.user == user && s.circle == circle && s.tags == tags
      && s.likes == 0 && s.comments == 0 && s.favorites == 0 && s.publishedAt == now
  {
    if !Present(title) then Err(RequiredMissing("title"))
    else if videoUrl == "" then Err(RequiredMissing("videoUrl"))
    else
      var d := if description.Some? then description.value else "";
      Ok(Short(title.value, videoUrl, now, d, user, circle, tags, 0, 0, 0))
  }
}
