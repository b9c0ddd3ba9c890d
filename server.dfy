/**
 * The route handlers of server.js. They repeat the controllers, with two
 * differences: the caller's id comes from `req.userId`, taken here as the
 * string the auth middleware produced, and every failure inside a handler
 * is answered with 400 and the error's message instead of being passed on.
 * Registration and login exist only here.
 *
 * As written, server.js binds the name `Location` to `undefined`, so every
 * location route fails before it touches the collection; that behaviour is
 * `LocationRouteAsWritten`. The location handlers below are the routes with the
 * model bound as evidently intended, and the `...AsWrittenDiffers` members set
 * the two side by side.
 */
module Server {
  import opened Wrappers
  import opened Js
  import ObjectIds
  import EmailPattern
  import opened Validation
  import opened LocationModel
  import opened LocationStore
  import opened Users
  import Weather
  import WeatherController

  // ---- Registration and login -----------------------------------------------------------

  datatype AuthReply =
    | AuthRejected(details: seq<string>)          // 400 { error: 'Validation failed', details }
    | IncorrectEmailForm                          // 400 { error: 'incorrect email form' }
    | EmailExists                                 // 409 { error: 'Email exists' }
    | Registered(token: Token, user: PublicUser)  // 201 { message: 'User registered successfully', token, user }
    | LoggedIn(token: Token, user: PublicUser)    // 200 { message: 'Logged in', token, user }
    | InvalidCredentials                          // 401 { error: 'Invalid credentials' }
    | AuthFailed(error: UserError)                // 400 { error: err.message }
  {
    function Status(): nat
    {
      match this
      case Registered(_, _) => 201
      case LoggedIn(_, _) => 200
      case EmailExists => 409
      case InvalidCredentials => 401
      case _ => 400
    }
  }

  /** The body passed the register validator, so its three fields are strings. */
  predicate RegisterPasses(isEmail: string -> bool, body: Body)
  {
    && Validate(RegisterSchema, isEmail, body).Next?
    && Get(body, "name").Str? && Get(body, "email").Str? && Get(body, "password").Str?
  }

  /** The body passed the login validator, so both fields are strings. */
  predicate LoginPasses(isEmail: string -> bool, body: Body)
  {
    Validate(LoginSchema, isEmail, body).Next? && Get(body, "email").Str? && Get(body, "password").Str?
  }

  /** `POST /api/auth/register`: the validator, then the regex of server.js:61, then the
      duplicate check, and only then hashing and the write. A failed step writes nothing;
      the id the driver assigns and the salt bcrypt draws are inputs. */
  method Register(users: UserTable, body: Body, isEmail: string -> bool, bcrypt: Bcrypt, salt: Salt, newId: string)
    returns (reply: AuthReply)
    requires users.Valid()
    modifies users
    ensures users.Valid()
    ensures reply.AuthRejected? || reply.IncorrectEmailForm? || reply.EmailExists? || reply.Registered?
            || reply == AuthFailed(UserError.DuplicateKey)
    ensures reply.AuthRejected? <==> Validate(RegisterSchema, isEmail, body).Rejected?
    ensures reply.AuthRejected? ==> reply.details == Validate(RegisterSchema, isEmail, body).details
    ensures !reply.AuthRejected? ==> RegisterPasses(isEmail, body)
    ensures reply.IncorrectEmailForm? <==> RegisterPasses(isEmail, body) && !EmailPattern.Test(Get(body, "email").s)
    ensures reply.EmailExists? <==>
              && RegisterPasses(isEmail, body) && EmailPattern.Test(Get(body, "email").s)
              && FindByEmail(old(users.users), Get(body, "email").s).Some?
    ensures !reply.Registered? ==> users.users == old(users.users)
    ensures reply.Registered? <==>
              && RegisterPasses(isEmail, body) && EmailPattern.Test(Get(body, "email").s)
              && FindByEmail(old(users.users), Get(body, "email").s).None?
              && forall v :: v in old(users.users) ==> v.id != newId
    ensures reply.Registered? ==>
              var u := User(newId, Get(body, "name").s, Get(body, "email").s,
                            Hash(bcrypt, Get(body, "password").s, salt));
              && EmailPattern.Test(u.email) && FindByEmail(old(users.users), u.email).None?
              && users.users == old(users.users) + [u]
              && reply.token == SignToken(newId)
              && reply.user == Public(u)
  {
    var gate := Validate(RegisterSchema, isEmail, body);
    if gate.Rejected? {
      return AuthRejected(gate.details);
    }
    RegisterAccepts(isEmail, body);
    var name, email, password := Get(body, "name").s, Get(body, "email").s, Get(body, "password").s;
    if !EmailPattern.Test(email) {
      return IncorrectEmailForm;
    }
    if FindByEmail(users.users, email).Some? {
      return EmailExists;
    }
    var hashed := Hash(bcrypt, password, salt);
    var saved := users.Insert(User(newId, name, email, hashed));
    match saved
    case Success(u) => reply := Registered(SignToken(u.id), Public(u));
    case Failure(e) => reply := AuthFailed(e);
  }

  /** `POST /api/auth/login`: an unknown e-mail and a wrong password give the one same
      reply; a match signs a token for the found user. */
  function Login(users: UserTable, body: Body, isEmail: string -> bool, bcrypt: Bcrypt): (reply: AuthReply)
    reads users
    ensures reply.AuthRejected? || reply.InvalidCredentials? || reply.LoggedIn?
    ensures reply.AuthRejected? <==> Validate(LoginSchema, isEmail, body).Rejected?
    ensures reply.AuthRejected? ==> reply.details == Validate(LoginSchema, isEmail, body).details
    ensures !reply.AuthRejected? ==> LoginPasses(isEmail, body)
    ensures reply.InvalidCredentials? <==>
              && LoginPasses(isEmail, body)
              && var found := FindByEmail(users.users, Get(body, "email").s);
                 found.None? || !bcrypt.matches(Get(body, "password").s, found.value.password)
    ensures reply.LoggedIn? ==>
              exists u :: && u in users.users && u.email == Get(body, "email").s
                          && bcrypt.matches(Get(body, "password").s, u.password)
                          && reply.token == SignToken(u.id) && reply.user == Public(u)
    ensures reply.LoggedIn? ==>
              && LoginPasses(isEmail, body)
              && var found := FindByEmail(users.users, Get(body, "email").s);
                 && found.Some? && bcrypt.matches(Get(body, "password").s, found.value.password)
                 && reply.token == SignToken(found.value.id) && reply.user == Public(found.value)
  {
    match Validate(LoginSchema, isEmail, body)
    case Rejected(details) => AuthRejected(details)
    case Next(_) =>
      LoginAccepts(isEmail, body);
      var email, password := Get(body, "email").s, Get(body, "password").s;
      match FindByEmail(users.users, email)
      case None => InvalidCredentials
      case Some(u) =>
        if !bcrypt.matches(password, u.password) then InvalidCredentials
        else LoggedIn(SignToken(u.id), PublicUser(u.id, u.name, email))
  }

  /** A body with the given fields, as `express.json()` would parse it. */
  function Credentials(name: string, email: string, password: string): Body
  {
    map["name" := Str(name), "email" := Str(email), "password" := Str(password)]
  }

  /** A login body with just the two keys of the login schema. */
  function LoginCredentials(email: string, password: string): Body
  {
    map["email" := Str(email), "password" := Str(password)]
  }

  /** A registration that passes validation and the regex, under an unused e-mail and a
      fresh id, succeeds; a login with the same e-mail and password then logs in as the
      new user, provided bcrypt's comparison accepts what its hash produced. */
  method RegisterThenLogin(users: UserTable, name: string, email: string, password: string,
                           isEmail: string -> bool, bcrypt: Bcrypt, salt: Salt, newId: string)
    returns (registered: AuthReply, loggedIn: AuthReply)
    requires users.Valid()
    requires forall p: string, s: Salt :: bcrypt.matches(p, Hash(bcrypt, p, s))
    modifies users
    ensures users.Valid()
    ensures registered.Registered? ==>
              && users.users == old(users.users) + [User(newId, name, email, Hash(bcrypt, password, salt))]
              && loggedIn == LoggedIn(SignToken(newId), PublicUser(newId, name, email))
    ensures !registered.Registered? ==> users.users == old(users.users)
    ensures && RegisterPasses(isEmail, Credentials(name, email, password)) && EmailPattern.Test(email)
            && FindByEmail(old(users.users), email).None?
            && (forall v :: v in old(users.users) ==> v.id != newId)
            ==> registered.Registered?
  {
    var body := Credentials(name, email, password);
    assert Get(body, "name") == Str(name) && Get(body, "email") == Str(email) && Get(body, "password") == Str(password);
    var login := LoginCredentials(email, password);
    registered := Register(users, body, isEmail, bcrypt, salt, newId);
    if registered.Registered? {
      var u := User(newId, name, email, Hash(bcrypt, password, salt));
      assert users.users == old(users.users) + [u];
      FindByEmailAppend(old(users.users), u);
      RegisterAccepts(isEmail, body);
      assert Get(login, "email") == Str(email) && Get(login, "password") == Str(password);
      LoginAccepts(isEmail, login);
      assert bcrypt.matches(password, u.password);
    }
    loggedIn := Login(users, login, isEmail, bcrypt);
  }

  // ---- Profile --------------------------------------------------------------------------

  datatype ProfileReply =
    | Profile(user: PublicUser)          // 200 user, without the password
    | ProfileUpdated(user: PublicUser)   // 200 { message: 'Profile updated successfully', user: { id, name, email } }
    | UserNotFound                       // 404 { error: 'User not found' }
    | ProfileFailed(error: UserError)    // 400 { error: err.message }
  {
    function Status(): nat
    {
      match this
      case UserNotFound => 404
      case ProfileFailed(_) => 400
      case _ => 200
    }
  }

  /** `GET /api/users/profile`. */
  function GetProfile(users: UserTable, userId: string): (reply: ProfileReply)
    reads users
    ensures reply.Profile? || reply.UserNotFound? || reply.ProfileFailed?
    ensures reply.ProfileFailed? <==> ObjectIds.CastObjectId(userId).None?
    ensures reply.Profile? ==>
              exists u :: u in users.users && Some(u.id) == ObjectIds.CastObjectId(userId) && reply.user == Public(u)
    ensures reply.UserNotFound? ==> forall u :: u in users.users ==> Some(u.id) != ObjectIds.CastObjectId(userId)
  {
    match ProfileOf(users.users, userId)
    case Failure(e) => ProfileFailed(e)
    case Success(None) => UserNotFound
    case Success(Some(p)) => Profile(p)
  }

  /** `PUT /api/users/profile`: the same edit as the controller's, answered with 400 on
      failure. */
  method UpdateProfile(users: UserTable, userId: string, body: Body, bcrypt: Bcrypt, salt: Salt)
    returns (reply: ProfileReply)
    requires users.Valid()
    modifies users
    ensures users.Valid()
    ensures reply.ProfileUpdated? || reply.UserNotFound? || reply.ProfileFailed?
    ensures !reply.ProfileUpdated? ==> users.users == old(users.users)
    ensures ObjectIds.CastObjectId(userId).None? ==> reply == ProfileFailed(UserError.IdCastFailed)
    ensures reply.UserNotFound? <==>
              && ObjectIds.CastObjectId(userId).Some?
              && PositionById(old(users.users), ObjectIds.CastObjectId(userId).value) == |old(users.users)|
    ensures ObjectIds.CastObjectId(userId).Some?
            && PositionById(old(users.users), ObjectIds.CastObjectId(userId).value) < |old(users.users)| ==>
              (reply.ProfileUpdated? <==>
                 (CastsAsString(Get(body, "name")) && CastsAsString(Get(body, "email")) && Hashable(Get(body, "password"))))
    ensures reply.ProfileUpdated? ==>
              && ObjectIds.CastObjectId(userId).Some?
              && var k := PositionById(old(users.users), ObjectIds.CastObjectId(userId).value);
                 && k < |old(users.users)| && |users.users| == |old(users.users)|
                 && CastsAsString(Get(body, "name")) && CastsAsString(Get(body, "email"))
                 && Hashable(Get(body, "password"))
                 && var was, now := old(users.users)[k], users.users[k];
                    && users.users == old(users.users)[k := now]
                    && reply.user == Public(now)
                    && now.id == was.id
                    && now.name == FieldAfter(Get(body, "name"), was.name)
                    && now.email == FieldAfter(Get(body, "email"), was.email)
                    && now.password == (if Truthy(Get(body, "password"))
                                        then Hash(bcrypt, Get(body, "password").s, salt) else was.password)
  {
    var res := users.UpdateProfile(userId, body, bcrypt, salt);
    match res
    case Failure(e) => reply := ProfileFailed(e);
    case Success(None) => reply := UserNotFound;
    case Success(Some(u)) => reply := ProfileUpdated(Public(u));
  }

  // ---- Locations ------------------------------------------------------------------------

  datatype LocationReply =
    | Added(location: Location)                      // 201 { message: 'Location added successfully', location }
    | Listed(count: nat, locations: seq<Location>)   // 200 { count, locations }
    | Found(location: Location)                      // 200 location
    | Updated(location: Location)                    // 200 { message: 'Location updated successfully', location }
    | Deleted                                        // 200 { message: 'Location deleted successfully' }
    | LocationNotFound                               // 404 { error: 'Location not found' }
    | LocationRejected(details: seq<string>)         // 400 { error: 'Validation failed', details }
    | LocationFailed(error: StoreError)              // 400 { error: err.message }
    | LocationUnbound                                // 400 { error: err.message } of the TypeError on `Location`
  {
    function Status(): nat
    {
      match this
      case Added(_) => 201
      case LocationNotFound => 404
      case LocationRejected(_) => 400
      case LocationFailed(_) => 400
      case LocationUnbound => 400
      case _ => 200
    }
  }

  /** The location schema has no e-mail rule, so the grammar passed to its validator is
      never consulted. */
  const NoEmailRule := (s: string) => false

  /** `POST /api/locations`: the validator, then `new Location({ userId, ... }).save()`. */
  method CreateLocation(table: LocationTable, userId: string, body: Body, id: string, now: nat)
    returns (reply: LocationReply)
    requires table.Valid()
    modifies table
    ensures table.Valid()
    ensures reply.Added? || reply.LocationRejected? || reply.LocationFailed?
    ensures reply.LocationRejected? <==> Validate(LocationSchema, NoEmailRule, body).Rejected?
    ensures reply.LocationRejected? ==> reply.details == Validate(LocationSchema, NoEmailRule, body).details
    ensures !reply.Added? ==> table.records == old(table.records)
    ensures reply.Added? <==>
              && Validate(LocationSchema, NoEmailRule, body).Next?
              && NewRecord(id, userId, body, now).Success? && !IdTaken(old(table.records), id)
    ensures reply.Added? ==>
              && reply.location == NewRecord(id, userId, body, now).value
              && ObjectIds.CastObjectId(userId) == Some(reply.location.userId)
              && table.records == old(table.records) + [reply.location]
  {
    var gate := Validate(LocationSchema, NoEmailRule, body);
    if gate.Rejected? {
      return LocationRejected(gate.details);
    }
    var res := table.Create(id, userId, body, now);
    match res
    case Success(location) => reply := Added(location);
    case Failure(e) => reply := LocationFailed(e);
  }

  /** `GET /api/locations`: the caller's records, newest first, with their count. */
  function ListLocations(table: LocationTable, userId: string): (reply: LocationReply)
    reads table
    ensures reply.Listed? || reply.LocationFailed?
    ensures reply.Listed? <==> ObjectIds.CastObjectId(userId).Some?
    ensures reply.Listed? ==>
              && reply.count == |reply.locations|
              && NewestFirst(reply.locations)
              && multiset(reply.locations) == multiset(OwnedBy(table.records, ObjectIds.CastObjectId(userId).value))
  {
    match ListOwned(table.records, userId)
    case Success(l) => Listed(|l|, l)
    case Failure(e) => LocationFailed(e)
  }

  /** `GET /api/locations/:id`: found only when both id and owner match. */
  function GetLocation(table: LocationTable, userId: string, id: string): (reply: LocationReply)
    reads table
    ensures reply.Found? || reply.LocationNotFound? || reply.LocationFailed?
    ensures reply.LocationFailed? <==> Filter(id, userId).Failure?
    ensures reply.Found? ==>
              reply.location in table.records
              && Matches(reply.location, Filter(id, userId).value.0, Filter(id, userId).value.1)
    ensures reply.LocationNotFound? <==> FindOwned(table.records, id, userId) == Success(None)
  {
    match FindOwned(table.records, id, userId)
    case Success(Some(location)) => Found(location)
    case Success(None) => LocationNotFound
    case Failure(e) => LocationFailed(e)
  }

  /** `PUT /api/locations/:id`: no validator runs; the raw body is the update. */
  method UpdateLocation(table: LocationTable, userId: string, id: string, body: Body, now: nat)
    returns (reply: LocationReply)
    requires table.Valid()
    modifies table
    ensures table.Valid()
    ensures reply.Updated? || reply.LocationNotFound? || reply.LocationFailed?
    ensures !reply.Updated? ==> table.records == old(table.records)
    ensures reply.LocationNotFound? ==> FindOwned(old(table.records), id, userId) == Success(None)
    ensures reply.LocationFailed? <==> Filter(id, userId).Failure? || CheckPatch(body).Failure?
    ensures reply.Updated? <==>
              && Filter(id, userId).Success? && CheckPatch(body).Success?
              && FindOwned(old(table.records), id, userId).value.Some?
    ensures reply.Updated? ==>
              var key := Filter(id, userId).value;
              var k := Position(old(table.records), key.0, key.1);
              && k < |old(table.records)|
              && reply.location == ApplyPatch(old(table.records)[k], CheckPatch(body).value, now)
              && table.records == old(table.records)[k := reply.location]
  {
    var res := table.Update(id, userId, body, now);
    match res
    case Success(Some(location)) => reply := Updated(location);
    case Success(None) => reply := LocationNotFound;
    case Failure(e) => reply := LocationFailed(e);
  }

  /** `DELETE /api/locations/:id`: removes only the matched record. */
  method DeleteLocation(table: LocationTable, userId: string, id: string) returns (reply: LocationReply)
    requires table.Valid()
    modifies table
    ensures table.Valid()
    ensures reply.Deleted? || reply.LocationNotFound? || reply.LocationFailed?
    ensures !reply.Deleted? ==> table.records == old(table.records)
    ensures reply.LocationNotFound? <==> FindOwned(old(table.records), id, userId) == Success(None)
    ensures reply.LocationFailed? <==> Filter(id, userId).Failure?
    ensures reply.Deleted? ==>
              && Filter(id, userId).Success?
              && var key := Filter(id, userId).value;
                 var k := Position(old(table.records), key.0, key.1);
                 && k < |old(table.records)|
                 && table.records == old(table.records)[..k] + old(table.records)[k + 1..]
    ensures reply.Deleted? || reply.LocationNotFound? ==> GetLocation(table, userId, id) == LocationNotFound
  {
    var res := table.Delete(id, userId);
    match res
    case Success(Some(_)) => reply := Deleted;
    case Success(None) => reply := LocationNotFound;
    case Failure(e) => reply := LocationFailed(e);
  }

  // ---- Locations as written -------------------------------------------------------------

  /** The five location routes of server.js. */
  datatype LocationRoute = CreateRoute | ListRoute | GetRoute | UpdateRoute | DeleteRoute

  /** The location routes as server.js is written. Its line 17 destructures `Location` out
      of the module models/Location.js, whose export (line 43) is the model itself; the
      model has no property of that name, so `Location` is `undefined`. Each route then
      throws a TypeError at its first use of the name, `new Location(...)` in creation and
      `Location.find`, `findOne`, `findOneAndUpdate` or `findOneAndDelete` in the others, and
      its catch block answers 400 with the error's message. Only creation runs a validator
      before that point. No route reads or writes the collection. */
  function LocationRouteAsWritten(route: LocationRoute, body: Body): (reply: LocationReply)
    ensures reply.Status() == 400
    ensures reply.LocationRejected? <==> route == CreateRoute && Validate(LocationSchema, NoEmailRule, body).Rejected?
    ensures reply.LocationRejected? ==> reply.details == Validate(LocationSchema, NoEmailRule, body).details
    ensures !reply.LocationRejected? ==> reply == LocationUnbound
  {
    var gate := Validate(LocationSchema, NoEmailRule, body);
    if route == CreateRoute && gate.Rejected? then LocationRejected(gate.details) else LocationUnbound
  }

  /** A concrete request that shows the defect: an authenticated user with a well-formed id
      posts `{ "city": "Paris" }`. The validator accepts it and the document it describes
      is valid, so with the model bound the route would store it. */
  lemma ParisPassesValidator()
    ensures Validate(LocationSchema, NoEmailRule, ParisBody).Next?
  {
    ParisFields();
    LocationAccepts(NoEmailRule, ParisBody);
  }

  lemma ParisIsValidRecord()
    ensures NewRecord(ParisId, SomeUserId, ParisBody, 0).Success?
  {
    ParisCityKept();
    assert ObjectIds.IsObjectId(SomeUserId);
    assert ObjectIds.CastObjectId(SomeUserId).Some?;
    assert Get(ParisBody, "city") == Str("Paris");
    assert Get(ParisBody, "country") == Get(ParisBody, "latitude") == Get(ParisBody, "longitude") == Undefined;
    assert Get(ParisBody, "nickname") == Get(ParisBody, "isFavorite") == Undefined;
    NewRecordSucceedsIff(ParisId, SomeUserId, ParisBody, 0);
  }

  lemma ParisCityKept()
    ensures Text.Trim("Paris") == "Paris"
  {
    Text.TrimKeepsIff("Paris");
  }

  lemma ParisFields()
    ensures Get(ParisBody, "city") == Str("Paris")
    ensures forall k :: k != "city" ==> Get(ParisBody, k) == Undefined
  {
  }

  const ParisBody: Body := map["city" := Str("Paris")]
  const ParisId: string := seq(ObjectIds.IdLength, _ => 'f')
  const SomeUserId: string := seq(ObjectIds.IdLength, _ => 'a')

  /** Creation as written answers 400 where the corrected route stores the record. The
      method runs the corrected route, so the table ends with the record appended; the
      route as written is a function of the request alone and leaves the table as it was. */
  method CreateAsWrittenDiffers(table: LocationTable, userId: string, body: Body, id: string, now: nat)
    returns (intended: LocationReply, asWritten: LocationReply)
    requires table.Valid()
    requires Validate(LocationSchema, NoEmailRule, body).Next?
    requires NewRecord(id, userId, body, now).Success? && !IdTaken(table.records, id)
    modifies table
    ensures intended.Added? && asWritten == LocationUnbound
    ensures table.Valid() && table.records == old(table.records) + [intended.location]
  {
    intended := CreateLocation(table, userId, body, id, now);
    asWritten := LocationRouteAsWritten(CreateRoute, body);
  }

  /** Listing as written answers 400 for every caller the corrected route lists for. */
  lemma ListAsWrittenDiffers(table: LocationTable, userId: string, body: Body)
    requires ObjectIds.CastObjectId(userId).Some?
    ensures ListLocations(table, userId).Listed?
    ensures LocationRouteAsWritten(ListRoute, body) == LocationUnbound
  {
  }

  /** Reading one record as written answers 400 where the corrected route answers the
      record or 404. */
  lemma GetAsWrittenDiffers(table: LocationTable, userId: string, id: string, body: Body)
    requires Filter(id, userId).Success?
    ensures GetLocation(table, userId, id).Found? || GetLocation(table, userId, id).LocationNotFound?
    ensures LocationRouteAsWritten(GetRoute, body) == LocationUnbound
  {
  }

  /** An update of an owned record as written answers 400, where the corrected route
      updates it. The method runs the corrected route, so the table ends with the record
      replaced by its patched version; the route as written leaves the table as it was. */
  method UpdateAsWrittenDiffers(table: LocationTable, userId: string, id: string, body: Body, now: nat)
    returns (intended: LocationReply, asWritten: LocationReply)
    requires table.Valid()
    requires Filter(id, userId).Success? && CheckPatch(body).Success?
    requires FindOwned(table.records, id, userId).value.Some?
    modifies table
    ensures intended.Updated? && asWritten == LocationUnbound
    ensures table.Valid()
    ensures var key := Filter(id, userId).value;
            var k := Position(old(table.records), key.0, key.1);
            && k < |old(table.records)|
            && intended.location == ApplyPatch(old(table.records)[k], CheckPatch(body).value, now)
            && table.records == old(table.records)[k := intended.location]
  {
    intended := UpdateLocation(table, userId, id, body, now);
    asWritten := LocationRouteAsWritten(UpdateRoute, body);
  }

  /** A delete of an owned record as written answers 400, where the corrected route
      deletes it. The method runs the corrected route, so the table ends without the
      record; the route as written leaves the table as it was. */
  method DeleteAsWrittenDiffers(table: LocationTable, userId: string, id: string, body: Body)
    returns (intended: LocationReply, asWritten: LocationReply)
    requires table.Valid()
    requires Filter(id, userId).Success? && FindOwned(table.records, id, userId).value.Some?
    modifies table
    ensures intended.Deleted? && asWritten == LocationUnbound
    ensures table.Valid()
    ensures var key := Filter(id, userId).value;
            var k := Position(old(table.records), key.0, key.1);
            && k < |old(table.records)|
            && table.records == old(table.records)[..k] + old(table.records)[k + 1..]
  {
    intended := DeleteLocation(table, userId, id);
    asWritten := LocationRouteAsWritten(DeleteRoute, body);
  }

  // ---- Weather --------------------------------------------------------------------------

  /** The server's way of ending a weather request: the generic failure is a 400 with the
      error's message. */
  function WeatherAnswer<T>(o: Weather.Outcome<T>): (a: Weather.Answer<T>)
    ensures a.Respond?
    ensures o.Failed? ==> a == Weather.Respond(400, Weather.ErrorMessage(o.cause))
    ensures !o.Failed? ==> a == WeatherController.Answer(o)
  {
    match o
    case Failed(c) => Weather.Respond(400, Weather.ErrorMessage(c))
    case _ => WeatherController.Answer(o)
  }

  /** `GET /api/weather/current`. */
  function CurrentWeather(q: Weather.Query, apiKey: Option<string>,
                          fetch: string -> Weather.Fetched<Weather.CurrentPayload>): (a: Weather.Answer<Weather.Current>)
    ensures a.Respond?
    ensures a == Weather.Respond(400, Weather.Error(Weather.CityRequiredText)) <==> !Weather.CityGiven(q)
    ensures a == Weather.Respond(404, Weather.Error(Weather.CityNotFoundText)) <==>
              Weather.CityGiven(q) && fetch(Weather.Url("weather", Weather.CityText(q), apiKey)) == Weather.HttpError(404)
  {
    WeatherAnswer(Weather.CurrentWeather(q, apiKey, fetch))
  }

  /** `GET /api/weather/forecast`. */
  function Forecast(q: Weather.Query, apiKey: Option<string>,
                    fetch: string -> Weather.Fetched<Weather.ForecastPayload>): (a: Weather.Answer<Weather.Forecast>)
    ensures a.Respond?
    ensures a == Weather.Respond(400, Weather.Error(Weather.CityRequiredText)) <==> !Weather.CityGiven(q)
    ensures a == Weather.Respond(404, Weather.Error(Weather.CityNotFoundText)) <==>
              Weather.CityGiven(q) && fetch(Weather.Url("forecast", Weather.CityText(q), apiKey)) == Weather.HttpError(404)
  {
    WeatherAnswer(Weather.ForecastWeather(q, apiKey, fetch))
  }

  /** The two copies of the weather routes answer alike except on the generic failure,
      which the server answers with 400 and the controller hands on. */
  lemma WeatherCopiesAgree<T>(o: Weather.Outcome<T>)
    ensures o.Failed? <==> WeatherAnswer(o) != WeatherController.Answer(o)
  {
  }
}
