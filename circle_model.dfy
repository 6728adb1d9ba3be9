/** The circle document (model/circle.js). */
module CircleModel {
  import opened Common

  /** A stored circle: a topic community with its member list. */
  datatype Circle = Circle(
    name: string,
    avatar: string,
    description: string,
    members: seq<Id>,
    postCount: int,
    creator: Id,
    createdAt: int)

  datatype SchemaError = RequiredMissing(path: string)

  /** The unique index on `name`: no two stored circles share a name. */
  ghost predicate NamesUnique(circles: map<Id, Circle>) {
    forall a, b | a in circles && b in circles && a != b :: circles[a].name != circles[b].name
  }

  /** `new circleModel({...})`: the name is required and `postCount` starts
      at 0. */
  function NewCircle(name: string, description: string, avatar: string, creator: Id,
                     members: seq<Id>, now: int): (r: Result<Circle, SchemaError>)
    ensures r.Ok? <==> name != ""
    ensures r.Ok? ==> var c := r.value;
      && c.name == name && c.description == description && c.avatar == avatar
      && c.creator == creator && c.members == members
      && c.postCount == 0 && c.createdAt == now
  {
    if name == "" then Err(RequiredMissing("name"))
    else Ok(Circle(name, avatar, description, members, 0, creator, now))
  }
}
