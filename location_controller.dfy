/**
 * controllers/locationController.js: the five location handlers as the router
 * mounts them. The caller's id is read from `req.user.userId`; when the auth
 * middleware left no `req.user`, that read throws a TypeError, which, like
 * every store error, is handed to `next(error)` rather than answered.
 */
module LocationController {
  import opened Wrappers
  import opened Js
  import ObjectIds
  import opened LocationModel
  import opened LocationStore
  import opened Users

  /** What a handler passes to `next`. */
  datatype Thrown = NoUser | StoreFailed(error: StoreError)

  datatype Reply =
    | Added(location: Location)                      // 201 { message: 'Location added successfully', location }
    | Listed(count: nat, locations: seq<Location>)   // 200 { count, locations }
    | Found(location: Location)                      // 200 location
    | Updated(location: Location)                    // 200 { message: 'Location updated successfully', location }
    | Deleted                                        // 200 { message: 'Location deleted successfully' }
    | LocationNotFound                               // 404 { error: 'Location not found' }
    | Forwarded(error: Thrown)                       // next(error)
  {
    /** The status of an answered request; a forwarded one is answered by the error handler. */
    function Status(): nat
      requires !Forwarded?
    {
      match this
      case Added(_) => 201
      case LocationNotFound => 404
      case _ => 200
    }
  }

  const NotFoundText := "Location not found"

  /** `req.user.userId`. */
  function Caller(user: Option<Claims>): (r: Result<string, Thrown>)
    ensures r.Failure? <==> user.None?
    ensures r.Failure? ==> r.error == NoUser
    ensures r.Success? ==> r.value == user.value.userId
  {
    match user
    case None => Failure(NoUser)
    case Some(c) => Success(c.userId)
  }

  /** `createLocation`: the record's owner is the caller, never a body field; the driver's
      fresh id and the clock are inputs. */
  method CreateLocation(table: LocationTable, user: Option<Claims>, body: Body, id: string, now: nat)
    returns (reply: Reply)
    requires table.Valid()
    modifies table
    ensures table.Valid()
    ensures reply.Added? || reply.Forwarded?
    ensures user.None? ==> reply == Forwarded(NoUser)
    ensures reply.Forwarded? ==> table.records == old(table.records)
    ensures user.Some? ==>
              (reply.Added? <==> NewRecord(id, user.value.userId, body, now).Success? && !IdTaken(old(table.records), id))
    ensures reply.Added? ==>
              && reply.location == NewRecord(id, user.value.userId, body, now).value
              && ObjectIds.CastObjectId(user.value.userId) == Some(reply.location.userId)
              && table.records == old(table.records) + [reply.location]
  {
    var caller := Caller(user);
    if caller.Failure? {
      return Forwarded(caller.error);
    }
    var res := table.Create(id, caller.value, body, now);
    match res
    case Success(location) => reply := Added(location);
    case Failure(e) => reply := Forwarded(StoreFailed(e));
  }

  /** `getAllLocations`: exactly the caller's records, newest first, with their count. */
  function GetAllLocations(table: LocationTable, user: Option<Claims>): (reply: Reply)
    reads table
    ensures reply.Listed? || reply.Forwarded?
    ensures user.None? ==> reply == Forwarded(NoUser)
    ensures user.Some? ==> (reply.Listed? <==> ObjectIds.CastObjectId(user.value.userId).Some?)
    ensures reply.Listed? ==>
              && reply.count == |reply.locations|
              && NewestFirst(reply.locations)
              && multiset(reply.locations) == multiset(OwnedBy(table.records, ObjectIds.CastObjectId(user.value.userId).value))
  {
    match Caller(user)
    case Failure(e) => Forwarded(e)
    case Success(owner) =>
      match ListOwned(table.records, owner)
      case Success(l) => Listed(|l|, l)
      case Failure(e) => Forwarded(StoreFailed(e))
  }

  /** `getLocation`: a record is returned only if both its id and its owner match; a
      record of another user is as absent as a missing one. */
  function GetLocation(table: LocationTable, user: Option<Claims>, id: string): (reply: Reply)
    reads table
    ensures reply.Found? || reply.LocationNotFound? || reply.Forwarded?
    ensures user.None? ==> reply == Forwarded(NoUser)
    ensures user.Some? ==> (reply.Forwarded? <==> Filter(id, user.value.userId).Failure?)
    ensures reply.Found? ==>
              reply.location in table.records && Matches(reply.location, Filter(id, user.value.userId).value.0,
                                                         Filter(id, user.value.userId).value.1)
    ensures reply.LocationNotFound? ==> FindOwned(table.records, id, user.value.userId) == Success(None)
  {
    match Caller(user)
    case Failure(e) => Forwarded(e)
    case Success(owner) =>
      match FindOwned(table.records, id, owner)
      case Success(Some(location)) => Found(location)
      case Success(None) => LocationNotFound
      case Failure(e) => Forwarded(StoreFailed(e))
  }

  /** `updateLocation`: the raw body is the update; only the matched record changes, and
      the reply carries it as updated (`new: true`). */
  method UpdateLocation(table: LocationTable, user: Option<Claims>, id: string, body: Body, now: nat)
    returns (reply: Reply)
    requires table.Valid()
    modifies table
    ensures table.Valid()
    ensures reply.Updated? || reply.LocationNotFound? || reply.Forwarded?
    ensures user.None? ==> reply == Forwarded(NoUser)
    ensures !reply.Updated? ==> table.records == old(table.records)
    ensures reply.LocationNotFound? ==> FindOwned(old(table.records), id, user.value.userId) == Success(None)
    ensures user.Some? ==>
              (reply.Forwarded? <==> Filter(id, user.value.userId).Failure? || CheckPatch(body).Failure?)
    ensures reply.Updated? <==>
              && user.Some? && Filter(id, user.value.userId).Success? && CheckPatch(body).Success?
              && FindOwned(old(table.records), id, user.value.userId).value.Some?
    ensures reply.Updated? ==>
              var key := Filter(id, user.value.userId).value;
              var k := Position(old(table.records), key.0, key.1);
              && k < |old(table.records)|
              && reply.location == ApplyPatch(old(table.records)[k], CheckPatch(body).value, now)
              && table.records == old(table.records)[k := reply.location]
  {
    var caller := Caller(user);
    if caller.Failure? {
      return Forwarded(caller.error);
    }
    var res := table.Update(id, caller.value, body, now);
    match res
    case Success(Some(location)) => reply := Updated(location);
    case Success(None) => reply := LocationNotFound;
    case Failure(e) => reply := Forwarded(StoreFailed(e));
  }

  /** `deleteLocation`: removes only the matched record; afterwards the same request
      finds nothing. */
  method DeleteLocation(table: LocationTable, user: Option<Claims>, id: string) returns (reply: Reply)
    requires table.Valid()
    modifies table
    ensures table.Valid()
    ensures reply.Deleted? || reply.LocationNotFound? || reply.Forwarded?
    ensures user.None? ==> reply == Forwarded(NoUser)
    ensures !reply.Deleted? ==> table.records == old(table.records)
    ensures reply.LocationNotFound? ==> FindOwned(old(table.records), id, user.value.userId) == Success(None)
    ensures user.Some? && FindOwned(old(table.records), id, user.value.userId) == Success(None) ==>
              reply == LocationNotFound
    ensures user.Some? ==> (reply.Forwarded? <==> Filter(id, user.value.userId).Failure?)
    ensures reply.Deleted? <==>
              && user.Some? && Filter(id, user.value.userId).Success?
              && FindOwned(old(table.records), id, user.value.userId).value.Some?
    ensures reply.Deleted? ==>
              var key := Filter(id, user.value.userId).value;
              var k := Position(old(table.records), key.0, key.1);
              && k < |old(table.records)|
              && table.records == old(table.records)[..k] + old(table.records)[k + 1..]
    ensures reply.Deleted? || reply.LocationNotFound? ==> GetLocation(table, user, id) == LocationNotFound
  {
    var caller := Caller(user);
    if caller.Failure? {
      return Forwarded(caller.error);
    }
    var res := table.Delete(id, caller.value);
    match res
    case Success(Some(_)) => reply := Deleted;
    case Success(None) => reply := LocationNotFound;
    case Failure(e) => reply := Forwarded(StoreFailed(e));
  }

  /** Deleting twice: the first request removes the caller's matching record, the second
      gets the 404 a missing record gets, and only the first request writes. */
  method DeleteTwice(table: LocationTable, user: Option<Claims>, id: string) returns (first: Reply, second: Reply)
    requires table.Valid()
    modifies table
    ensures table.Valid()
    ensures user.Some? && Filter(id, user.value.userId).Success? ==>
              (first.Deleted? <==> FindOwned(old(table.records), id, user.value.userId).value.Some?)
    ensures first.Deleted? || first.LocationNotFound? ==> second == LocationNotFound
    ensures !second.Deleted?
    ensures !first.Deleted? ==> table.records == old(table.records)
    ensures first.Deleted? ==> user.Some? && Filter(id, user.value.userId).Success?
    ensures first.Deleted? ==>
              var key := Filter(id, user.value.userId).value;
              var k := Position(old(table.records), key.0, key.1);
              && k < |old(table.records)|
              && table.records == old(table.records)[..k] + old(table.records)[k + 1..]
  {
    first := DeleteLocation(table, user, id);
    second := DeleteLocation(table, user, id);
  }
}
