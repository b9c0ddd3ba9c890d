/**
 * controllers/userController.js: the profile handlers as the router mounts
 * them. The caller comes from `req.user.userId` (a TypeError without
 * `req.user`), and every failure is handed to `next(error)`.
 */
module UserController {
  import opened Wrappers
  import opened Js
  import ObjectIds
  import opened Users

  /** What a handler passes to `next`. */
  datatype Thrown = NoUser | StoreFailed(error: UserError)

  datatype Reply =
    | Profile(user: PublicUser)          // 200 user, without the password
    | ProfileUpdated(user: PublicUser)   // 200 { message: 'Profile updated successfully', user: { id, name, email } }
    | UserNotFound                       // 404 { error: 'User not found' }
    | Forwarded(error: Thrown)           // next(error)
  {
    function Status(): nat
      requires !Forwarded?
    {
      if UserNotFound? then 404 else 200
    }
  }

  const NotFoundText := "User not found"

  /** `getProfile`: the caller's public profile, or 404 when no user has that id. */
  function GetProfile(table: UserTable, user: Option<Claims>): (reply: Reply)
    reads table
    ensures reply.Profile? || reply.UserNotFound? || reply.Forwarded?
    ensures user.None? ==> reply == Forwarded(NoUser)
    ensures user.Some? ==> (reply.Forwarded? <==> ObjectIds.CastObjectId(user.value.userId).None?)
    ensures reply.Profile? ==>
              exists u :: u in table.users && Some(u.id) == ObjectIds.CastObjectId(user.value.userId)
                          && reply.user == Public(u)
    ensures reply.UserNotFound? ==>
              forall u :: u in table.users ==> Some(u.id) != ObjectIds.CastObjectId(user.value.userId)
  {
    match user
    case None => Forwarded(NoUser)
    case Some(c) =>
      match ProfileOf(table.users, c.userId)
      case Failure(e) => Forwarded(StoreFailed(e))
      case Success(None) => UserNotFound
      case Success(Some(p)) => Profile(p)
  }

  /** `updateProfile`: truthy fields are applied, a truthy password is stored re-hashed at
      cost 12, and the reply shows id, name and e-mail only. An unknown user or any
      failure writes nothing. */
  method UpdateProfile(table: UserTable, user: Option<Claims>, body: Body, bcrypt: Bcrypt, salt: Salt)
    returns (reply: Reply)
    requires table.Valid()
    modifies table
    ensures table.Valid()
    ensures reply.ProfileUpdated? || reply.UserNotFound? || reply.Forwarded?
    ensures user.None? ==> reply == Forwarded(NoUser)
    ensures !reply.ProfileUpdated? ==> table.users == old(table.users)
    ensures reply.UserNotFound? <==>
              && user.Some? && ObjectIds.CastObjectId(user.value.userId).Some?
              && PositionById(old(table.users), ObjectIds.CastObjectId(user.value.userId).value) == |old(table.users)|
    ensures user.Some? && ObjectIds.CastObjectId(user.value.userId).Some?
            && PositionById(old(table.users), ObjectIds.CastObjectId(user.value.userId).value) < |old(table.users)| ==>
              (reply.ProfileUpdated? <==>
                 (CastsAsString(Get(body, "name")) && CastsAsString(Get(body, "email")) && Hashable(Get(body, "password"))))
    ensures reply.ProfileUpdated? ==>
              && user.Some? && ObjectIds.CastObjectId(user.value.userId).Some?
              && var k := PositionById(old(table.users), ObjectIds.CastObjectId(user.value.userId).value);
                 && k < |old(table.users)| && |table.users| == |old(table.users)|
                 && CastsAsString(Get(body, "name")) && CastsAsString(Get(body, "email"))
                 && Hashable(Get(body, "password"))
                 && var was, now := old(table.users)[k], table.users[k];
                    && table.users == old(table.users)[k := now]
                    && reply.user == Public(now)
                    && now.id == was.id
                    && now.name == FieldAfter(Get(body, "name"), was.name)
                    && now.email == FieldAfter(Get(body, "email"), was.email)
                    && now.password == (if Truthy(Get(body, "password"))
                                        then Hash(bcrypt, Get(body, "password").s, salt) else was.password)
  {
    if user.None? {
      return Forwarded(NoUser);
    }
    var res := table.UpdateProfile(user.value.userId, body, bcrypt, salt);
    match res
    case Failure(e) => reply := Forwarded(StoreFailed(e));
    case Success(None) => reply := UserNotFound;
    case Success(Some(u)) => reply := ProfileUpdated(Public(u));
  }
}
