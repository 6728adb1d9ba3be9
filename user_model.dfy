/** The user document (model/user.js), restricted to the fields the modelled
    routes read or write. */
module UserModel {
  import opened Common

  datatype UserStatus = Active | Inactive | Disabled

  datatype User = User(
    username: string,
    password: string,
    email: string,
    roles: seq<string>,
    status: UserStatus,
    avatar: string,
    bio: string,
    phone: string,
    shortVideos: seq<Id>)

  datatype SchemaError = RequiredMissing(path: string) | NotInEnum(path: string)

  /** The `enum` validator of `status`. */
  function ParseStatus(s: string): (r: Option<UserStatus>)
    ensures r == Some(Active) <==> s == "active"
    ensures r == Some(Inactive) <==> s == "inactive"
    ensures r == Some(Disabled) <==> s == "disabled"
  {
    if s == "active" then Some(Active)
    else if s == "inactive" then Some(Inactive)
    else if s == "disabled" then Some(Disabled)
    else None
  }

  /** The unique indexes on `username` and `email`. */
  ghost predicate NamesAndEmailsUnique(users: map<Id, User>) {
    forall a, b | a in users && b in users && a != b ::
      users[a].username != users[b].username && users[a].email != users[b].email
  }

  /** `new User({...})`: username, password and email are required; roles
      default to ["user"], status to "inactive" (and must be one of the three
      values), avatar, bio and phone to the empty string. */
  function NewUser(username: string, password: string, email: string,
                   roles: Option<seq<string>>, status: Option<string>, avatar: Option<string>,
                   bio: Option<string>, phone: Option<string>): (r: Result<User, SchemaError>)
    ensures r.Ok? <==> username != "" && password != "" && email != ""
                       && (status.Some? ==> ParseStatus(status.value).Some?)
    ensures r.Ok? ==> var u := r.value;
      && u.username == username && u.password == password && u.email == email
      && u.roles == (if roles.Some? then roles.value else ["user"])
      && u.status == (if status.Some? then ParseStatus(status.value).value else Inactive)
      && u.avatar == (if avatar.Some? then avatar.value else "")
      && u.bio == (if bio.Some? then bio.value else "")
      && u.phone == (if phone.Some? then phone.value else "")
      && u.shortVideos == []
  {
    if username == "" then Err(RequiredMissing("username"))
    else if password == "" then Err(RequiredMissing("password"))
    else if email == "" then Err(RequiredMissing("email"))
    else if status.Some? && ParseStatus(status.value).None? then Err(NotInEnum("status"))
    else
      Ok(User(username, password, email,
              if roles.Some? then roles.value else ["user"],
              if status.Some? then ParseStatus(status.value).value else Inactive,
              if avatar.Some? then avatar.value else "",
              if bio.Some? then bio.value else "",
              if phone.Some? then phone.value else "",
              []))
  }
}
