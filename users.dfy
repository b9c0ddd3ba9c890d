/**
 * The user collection as the profile and authentication handlers use it:
 * records with a bcrypt password hash, lookups by e-mail and by id, the
 * profile projection that leaves the hash out, and the in-place profile edit
 * of server.js:129-151 and controllers/userController.js:20-50.
 *
 * bcrypt is salted and randomised, so hashing is modelled by an opaque digest
 * function of the password, the cost and a salt that the caller supplies, and
 * `compare` by an opaque relation between a password and a stored hash. The
 * signed JWT is an opaque value built from the user id.
 */
module Users {
  import opened Wrappers
  import opened Js
  import ObjectIds

  type Salt = nat

  /** A stored bcrypt hash: its cost factor, the random salt, and the digest. */
  datatype PasswordHash = PasswordHash(cost: nat, salt: Salt, digest: string)

  /** What the model knows of bcrypt: a digest function and the comparison relation. */
  datatype Bcrypt = Bcrypt(digest: (string, nat, Salt) -> string, matches: (string, PasswordHash) -> bool)

  /** `saltRounds` (server.js:9) and the literal cost of controllers/userController.js:34. */
  const SaltRounds := 12

  /** `bcrypt.hash(password, 12)` with the salt it drew. */
  function Hash(bcrypt: Bcrypt, password: string, salt: Salt): (h: PasswordHash)
    ensures h.cost == SaltRounds && h.salt == salt
  {
    PasswordHash(SaltRounds, salt, bcrypt.digest(password, SaltRounds, salt))
  }

  /** `jwt.sign({ userId }, JWT_SECRET, { expiresIn: '7d' })`, opaque apart from its payload
      and lifetime. */
  datatype Token = Token(userId: string, expiresIn: string)

  function SignToken(userId: string): (t: Token)
    ensures t.userId == userId && t.expiresIn == "7d"
  {
    Token(userId, "7d")
  }

  /** A token names exactly one user: its payload reads back as the id it was signed for,
      so two tokens can agree only if they were signed for the same id. (The converse is
      not claimed: `jwt.sign` also records the issue time.) */
  lemma TokensIdentifyUsers(a: string, b: string)
    ensures SignToken(a).userId == a
    ensures SignToken(a) == SignToken(b) ==> a == b
  {
  }

  /** The decoded token the auth middleware stores in `req.user`. */
  datatype Claims = Claims(userId: string)

  datatype User = User(id: string, name: string, email: string, password: PasswordHash)

  /** What a response may show of a user: no password field exists in it. */
  datatype PublicUser = PublicUser(id: string, name: string, email: string)

  function Public(u: User): (p: PublicUser)
    ensures p.id == u.id && p.name == u.name && p.email == u.email
  {
    PublicUser(u.id, u.name, u.email)
  }

  /** Two users show the same public view exactly when they agree on id, name and e-mail,
      so the stored hash never shows through it. */
  lemma PublicIgnoresPassword(u: User, v: User)
    ensures Public(u) == Public(v) <==> u.id == v.id && u.name == v.name && u.email == v.email
    ensures Public(u.(password := v.password)) == Public(u)
  {
  }

  /** The public projection of a whole collection. */
  function Publics(users: seq<User>): (ps: seq<PublicUser>)
    ensures |ps| == |users|
    ensures forall i :: 0 <= i < |users| ==> ps[i] == Public(users[i])
  {
    if users == [] then [] else [Public(users[0])] + Publics(users[1..])
  }

  /** Failures of the user store: a malformed id, bcrypt rejecting a non-string password,
      a cast failure on save, a duplicate `_id`. */
  datatype UserError = IdCastFailed | HashFailed | FieldCastFailed(path: string) | DuplicateKey

  /** `findOne({ email })`: the first user, in collection order, with exactly that e-mail. */
  function FindByEmail(users: seq<User>, email: string): (r: Option<User>)
    ensures r.Some? ==> r.value in users && r.value.email == email
    ensures r.None? <==> forall u :: u in users ==> u.email != email
  {
    if users == [] then None
    else if users[0].email == email then Some(users[0])
    else FindByEmail(users[1..], email)
  }

  /** A user appended under an e-mail nobody had is the one `findOne({ email })` finds. */
  lemma {:induction false} FindByEmailAppend(users: seq<User>, u: User)
    requires FindByEmail(users, u.email).None?
    ensures FindByEmail(users + [u], u.email) == Some(u)
  {
    if users == [] {
      assert [u][0] == u;
    } else {
      assert (users + [u])[1..] == users[1..] + [u];
      assert users[0] in users;
      FindByEmailAppend(users[1..], u);
    }
  }

  /** Position of the first user with id `id`, `|users|` when there is none. */
  function PositionById(users: seq<User>, id: string): (k: nat)
    ensures k <= |users|
    ensures k < |users| ==> users[k].id == id
    ensures forall j :: 0 <= j < k ==> users[j].id != id
  {
    if users == [] then 0
    else if users[0].id == id then 0
    else 1 + PositionById(users[1..], id)
  }

  /** `findById(id)`: a malformed id is a cast error; otherwise the user with that id, if
      there is one. */
  function FindById(users: seq<User>, id: string): (r: Result<Option<User>, UserError>)
    ensures r.Failure? <==> ObjectIds.CastObjectId(id).None?
    ensures r.Success? && r.value.Some? ==> r.value.value in users && Some(r.value.value.id) == ObjectIds.CastObjectId(id)
    ensures r.Success? && r.value.None? ==> forall u :: u in users ==> Some(u.id) != ObjectIds.CastObjectId(id)
  {
    match ObjectIds.CastObjectId(id)
    case None => Failure(IdCastFailed)
    case Some(i) =>
      var k := PositionById(users, i);
      if k < |users| then Success(Some(users[k]))
      else
        assert forall u :: u in users ==> u.id != i by {
          forall u | u in users ensures u.id != i {
            var j :| 0 <= j < |users| && users[j] == u;
          }
        }
        Success(None)
  }

  /** Position lookup sees only ids, so collections with the same public projection give
      the same positions. */
  lemma {:induction false} PositionByIdPublic(users1: seq<User>, users2: seq<User>, id: string)
    requires Publics(users1) == Publics(users2)
    ensures PositionById(users1, id) == PositionById(users2, id)
  {
    if users1 != [] {
      assert Public(users1[0]) == Publics(users1)[0] == Publics(users2)[0] == Public(users2[0]);
      assert Publics(users1[1..]) == Publics(users1)[1..] == Publics(users2)[1..] == Publics(users2[1..]);
      PositionByIdPublic(users1[1..], users2[1..], id);
    }
  }

  /** `findById(id).select('-password')`: the public part of the user with that id. */
  function ProfileOf(users: seq<User>, id: string): (r: Result<Option<PublicUser>, UserError>)
    ensures r.Failure? <==> ObjectIds.CastObjectId(id).None?
    ensures r.Success? && r.value.Some? ==>
              exists u :: u in users && Some(u.id) == ObjectIds.CastObjectId(id) && r.value.value == Public(u)
    ensures r.Success? && r.value.None? ==> forall u :: u in users ==> Some(u.id) != ObjectIds.CastObjectId(id)
  {
    match FindById(users, id)
    case Failure(e) => Failure(e)
    case Success(None) => Success(None)
    case Success(Some(u)) => Success(Some(Public(u)))
  }

  /** The profile never depends on password hashes: two collections that differ only in
      their hashes give the same profile for every id. */
  lemma ProfileIgnoresPasswords(users1: seq<User>, users2: seq<User>, id: string)
    requires Publics(users1) == Publics(users2)
    ensures ProfileOf(users1, id) == ProfileOf(users2, id)
  {
    var c := ObjectIds.CastObjectId(id);
    if c.Some? {
      PositionByIdPublic(users1, users2, c.value);
      var k := PositionById(users1, c.value);
      if k < |users1| {
        assert Public(users1[k]) == Publics(users1)[k] == Publics(users2)[k] == Public(users2[k]);
      }
    }
  }

  /** The value a String field of the user takes: the body's value when it is truthy, cast
      as Mongoose casts to a string (a boolean becomes its text). */
  function FieldAfter(v: JsValue, current: string): string
  {
    if !Truthy(v) then current
    else match v
      case Str(s) => s
      case Bool(b) => if b then "true" else "false"
      case _ => current
  }

  /** A truthy value that a String field can take. A number does not cast in this model. */
  predicate CastsAsString(v: JsValue)
  {
    !Truthy(v) || v.Str? || v.Bool?
  }

  /** A truthy password that bcrypt can hash: it refuses anything but a string. */
  predicate Hashable(v: JsValue)
  {
    !Truthy(v) || v.Str?
  }

  class UserTable {
    var users: seq<User>

    /** No two users share an `_id`. E-mail uniqueness is not an invariant here: the
        registration handler checks it, but a profile edit does not. */
    ghost predicate Valid()
      reads this
    {
      forall i, j :: 0 <= i < j < |users| ==> users[i].id != users[j].id
    }

    constructor ()
      ensures Valid() && users == []
    {
      users := [];
    }

    /** `new User({...}).save()`: appends the user unless its `_id` is taken. */
    method Insert(u: User) returns (res: Result<User, UserError>)
      requires Valid()
      modifies this
      ensures Valid()
      ensures res.Success? <==> forall v :: v in old(users) ==> v.id != u.id
      ensures res.Success? ==> res.value == u && users == old(users) + [u]
      ensures res.Failure? ==> res.error == DuplicateKey && users == old(users)
    {
      if exists v :: v in users && v.id == u.id {
        return Failure(DuplicateKey);
      }
      users := users + [u];
      res := Success(u);
    }

    /** The profile edit: find the user, assign name and e-mail when the body's value is
        truthy, re-hash a truthy password, then save. A missing user gives `None` and
        nothing is written; any failure leaves the collection as it was. */
    method UpdateProfile(userId: string, body: Body, bcrypt: Bcrypt, salt: Salt)
      returns (res: Result<Option<User>, UserError>)
      requires Valid()
      modifies this
      ensures Valid()
      ensures ObjectIds.CastObjectId(userId).None? ==> res == Failure(IdCastFailed)
      ensures res.Failure? ==> users == old(users)
      ensures res == Success(None) ==> users == old(users)
      ensures res.Success? ==> ObjectIds.CastObjectId(userId).Some?
      ensures res.Success? ==> (res.value.None? <==> PositionById(old(users), ObjectIds.CastObjectId(userId).value) == |old(users)|)
      ensures ObjectIds.CastObjectId(userId).Some? && PositionById(old(users), ObjectIds.CastObjectId(userId).value) == |old(users)| ==>
                res == Success(None)
      ensures ObjectIds.CastObjectId(userId).Some? && PositionById(old(users), ObjectIds.CastObjectId(userId).value) < |old(users)| ==>
                (res.Success? <==> CastsAsString(Get(body, "name")) && CastsAsString(Get(body, "email"))
                                   && Hashable(Get(body, "password")))
      ensures res.Success? && res.value.Some? ==>
                var k := PositionById(old(users), ObjectIds.CastObjectId(userId).value);
                var was := old(users)[k];
                var u := res.value.value;
                && u.id == was.id
                && u.name == FieldAfter(Get(body, "name"), was.name)
                && u.email == FieldAfter(Get(body, "email"), was.email)
                && u.password == (if Truthy(Get(body, "password")) then Hash(bcrypt, Get(body, "password").s, salt)
                                  else was.password)
                && users == old(users)[k := u]
    {
      var id := ObjectIds.CastObjectId(userId);
      if id.None? {
        return Failure(IdCastFailed);
      }
      var k := PositionById(users, id.value);
      if k == |users| {
        return Success(None);
      }
      var user := users[k];
      var name, email, password := Get(body, "name"), Get(body, "email"), Get(body, "password");
      var uncast: Option<string> := None;
      if Truthy(name) {
        if CastsAsString(name) { user := user.(name := FieldAfter(name, user.name)); } else { uncast := Some("name"); }
      }
      if Truthy(email) {
        if CastsAsString(email) { user := user.(email := FieldAfter(email, user.email)); }
        else if uncast.None? { uncast := Some("email"); }
      }
      if Truthy(password) {
        if !password.Str? {
          return Failure(HashFailed);
        }
        user := user.(password := Hash(bcrypt, password.s, salt));
      }
      if uncast.Some? {
        return Failure(FieldCastFailed(uncast.value));
      }
      users := users[k := user];
      res := Success(Some(user));
    }
  }
}
