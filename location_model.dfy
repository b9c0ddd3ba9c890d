/**
 * The Location document (models/Location.js): its fields, the schema's
 * constraints (required `userId` and `city`, trimmed strings, nickname of at
 * most 50 characters, `isFavorite` defaulting to false, timestamps), and what
 * Mongoose does when a document is built from request values (`create`) or
 * when an update body is cast and validated (`findOneAndUpdate` with
 * `runValidators: true`).
 */
module LocationModel {
  import opened Wrappers
  import opened Js
  import Text
  import ObjectIds

  const NicknameMaxLength := 50

  /** A stored location record. `None` stands for a field that is absent or null.
      Coordinates are only copied, never computed with, so `real` stands in for
      JavaScript's numbers. */
  datatype Location = Location(
    id: string,
    userId: string,
    city: string,
    country: Option<string>,
    latitude: Option<real>,
    longitude: Option<real>,
    nickname: Option<string>,
    isFavorite: Option<bool>,
    createdAt: nat,
    updatedAt: nat)

  /** The schema's constraints, which every saved or updated record satisfies. */
  predicate Valid(r: Location)
  {
    && ObjectIds.IsObjectId(r.userId)
    && r.city != "" && Text.Trimmed(r.city)
    && (r.country.Some? ==> Text.Trimmed(r.country.value))
    && (r.nickname.Some? ==> Text.Trimmed(r.nickname.value) && |r.nickname.value| <= NicknameMaxLength)
  }

  // ---- Casting request values to schema paths ----------------------------------------

  /** What assigning one request value to a schema path yields: nothing (the key is
      absent), a cleared value (null), a cast value, or a cast failure. */
  datatype Assigned<T> = Unset | Cleared | To(value: T) | Uncastable

  /** A trimmed String path (`city`, `country`, `nickname`): Mongoose's string cast turns a
      boolean into its text, and the `trim` setter then trims the string. */
  function AssignText(v: JsValue): (a: Assigned<string>)
    ensures a.To? ==> Text.Trimmed(a.value)
  {
    match v
    case Undefined => Unset
    case Null => Cleared
    case Str(s) => To(Text.Trim(s))
    case Bool(b) => To(if b then "true" else "false")
    case Num(_) => Uncastable
  }

  /** A Number path (`latitude`, `longitude`): Mongoose's number cast takes the empty
      string for null and a boolean for 1 or 0. */
  function AssignNumber(v: JsValue): Assigned<real>
  {
    match v
    case Undefined => Unset
    case Null => Cleared
    case Num(x) => To(x)
    case Bool(b) => To(if b then 1.0 else 0.0)
    case Str(s) => if s == "" then Cleared else Uncastable
  }

  /** A Boolean path (`isFavorite`): Mongoose's boolean cast also takes the strings
      "true", "1", "yes", "false", "0", "no" and the numbers 1 and 0. */
  function AssignBoolean(v: JsValue): Assigned<bool>
  {
    match v
    case Undefined => Unset
    case Null => Cleared
    case Bool(b) => To(b)
    case Str(s) =>
      if s == "true" || s == "1" || s == "yes" then To(true)
      else if s == "false" || s == "0" || s == "no" then To(false)
      else Uncastable
    case Num(x) => if x == 1.0 then To(true) else if x == 0.0 then To(false) else Uncastable
  }

  /** An ObjectId path (`userId`). */
  function AssignObjectId(v: JsValue): (a: Assigned<string>)
    ensures a.To? ==> ObjectIds.IsObjectId(a.value)
  {
    match v
    case Undefined => Unset
    case Null => Cleared
    case Str(s) => (match ObjectIds.CastObjectId(s) case Some(id) => To(id) case None => Uncastable)
    case _ => Uncastable
  }

  /** The value an optional path holds after the assignment, given what it held. */
  function Then<T>(a: Assigned<T>, current: Option<T>): Option<T>
  {
    match a
    case Unset => current
    case Cleared => None
    case To(v) => Some(v)
    case Uncastable => current
  }

  // ---- Errors --------------------------------------------------------------------------

  /** One failed path of a validation error. */
  datatype PathError =
    | CastFailed(path: string)
    | Required(path: string, message: string)
    | TooLong(path: string, message: string)

  /** The errors of the store: a cast error thrown before a query runs, a validation error
      listing every failed path, and a duplicate `_id` on insert. Their message texts are
      not modelled. */
  datatype StoreError = Cast(path: string) | Invalid(errors: seq<PathError>) | DuplicateKey

  const CityRequiredMessage := "City name is required"
  const NicknameTooLongMessage := "Nickname cannot exceed 50 characters"
  const UserIdRequiredMessage := "Path `userId` is required."

  function CastErrors<T>(path: string, a: Assigned<T>): seq<PathError>
  {
    if a.Uncastable? then [CastFailed(path)] else []
  }

  /** `required` on `city`: a missing, null or (after trimming) empty city fails. */
  function CityErrors(a: Assigned<string>): seq<PathError>
  {
    match a
    case Uncastable => [CastFailed("city")]
    case To(c) => if c == "" then [Required("city", CityRequiredMessage)] else []
    case _ => [Required("city", CityRequiredMessage)]
  }

  /** `maxlength: 50` on `nickname`, checked on the trimmed value. */
  function NicknameErrors(a: Assigned<string>): seq<PathError>
  {
    match a
    case Uncastable => [CastFailed("nickname")]
    case To(n) => if |n| > NicknameMaxLength then [TooLong("nickname", NicknameTooLongMessage)] else []
    case _ => []
  }

  // ---- Creating a document ---------------------------------------------------------------

  /** The values read from a create request: only the six destructured body keys. */
  datatype Draft = Draft(
    city: Assigned<string>, country: Assigned<string>,
    latitude: Assigned<real>, longitude: Assigned<real>,
    nickname: Assigned<string>, isFavorite: Assigned<bool>)

  function ReadDraft(body: Body): Draft
  {
    Draft(AssignText(Get(body, "city")), AssignText(Get(body, "country")),
          AssignNumber(Get(body, "latitude")), AssignNumber(Get(body, "longitude")),
          AssignText(Get(body, "nickname")), AssignBoolean(Get(body, "isFavorite")))
  }

  /** Validation errors of a new document, paths in schema order. */
  function DraftErrors(owner: Assigned<string>, d: Draft): seq<PathError>
  {
    CastErrors("userId", owner) + CityErrors(d.city) + CastErrors("country", d.country)
    + CastErrors("latitude", d.latitude) + CastErrors("longitude", d.longitude)
    + NicknameErrors(d.nickname) + CastErrors("isFavorite", d.isFavorite)
  }

  /** What casting guarantees of a draft's text paths. */
  predicate DraftWellCast(d: Draft)
  {
    && (d.city.To? ==> Text.Trimmed(d.city.value))
    && (d.country.To? ==> Text.Trimmed(d.country.value))
    && (d.nickname.To? ==> Text.Trimmed(d.nickname.value))
  }

  lemma ReadDraftWellCast(body: Body)
    ensures DraftWellCast(ReadDraft(body))
  {
  }

  /** Validating a cast draft, then building the document from it. */
  function Admit(id: string, owner: Assigned<string>, d: Draft, now: nat): (r: Result<Location, StoreError>)
    requires owner.To? || owner.Uncastable?
    requires owner.To? ==> ObjectIds.IsObjectId(owner.value)
    requires DraftWellCast(d)
    ensures r.Success? <==> DraftErrors(owner, d) == []
    ensures r.Success? ==> Valid(r.value) && owner.To? && r.value.userId == owner.value
    ensures r.Success? ==> d.city.To? && r.value.city == d.city.value
    ensures r.Success? ==> r.value.id == id && r.value.createdAt == now && r.value.updatedAt == now
    ensures r.Success? && d.isFavorite.Unset? ==> r.value.isFavorite == Some(false)
    ensures r.Failure? ==> r.error.Invalid? && r.error.errors != []
  {
    var errors := DraftErrors(owner, d);
    if errors != [] then Failure(Invalid(errors))
    else
      DraftAccepted(owner, d);
      Success(Location(id, owner.value, d.city.value,
                       Then(d.country, None), Then(d.latitude, None), Then(d.longitude, None),
                       Then(d.nickname, None),
                       if d.isFavorite.Unset? then Some(false) else Then(d.isFavorite, None),
                       now, now))
  }

  /** `new Location({ userId, city, ... })` followed by validation on save: the owner is
      the authenticated user's id, every other field comes from the body, `isFavorite`
      defaults to false, and both timestamps are the creation time. */
  function NewRecord(id: string, owner: string, body: Body, now: nat): (r: Result<Location, StoreError>)
    ensures r.Success? ==> Valid(r.value)
    ensures r.Success? ==> r.value.id == id && ObjectIds.CastObjectId(owner) == Some(r.value.userId)
    ensures r.Success? ==> r.value.createdAt == now && r.value.updatedAt == now
    ensures r.Success? ==> Get(body, "city").Str? || Get(body, "city").Bool?
    ensures r.Success? && Get(body, "city").Str? ==> r.value.city == Text.Trim(Get(body, "city").s)
    ensures r.Success? && Get(body, "isFavorite") == Undefined ==> r.value.isFavorite == Some(false)
    ensures r.Failure? ==> r.error.Invalid? && r.error.errors != []
    ensures r.Success? <==> DraftErrors(AssignObjectId(Str(owner)), ReadDraft(body)) == []
  {
    ReadDraftWellCast(body);
    Admit(id, AssignObjectId(Str(owner)), ReadDraft(body), now)
  }

  /** A create request is accepted exactly when the owner is an ObjectId, the city is a
      string that is not blank or a boolean (cast to its text), every optional field casts, and the trimmed nickname has at
      most 50 characters. */
  lemma NewRecordSucceedsIff(id: string, owner: string, body: Body, now: nat)
    ensures NewRecord(id, owner, body, now).Success?
            <==> (&& ObjectIds.CastObjectId(owner).Some?
                  && ((Get(body, "city").Str? && Text.Trim(Get(body, "city").s) != "") || Get(body, "city").Bool?)
                  && !AssignText(Get(body, "country")).Uncastable?
                  && !AssignNumber(Get(body, "latitude")).Uncastable?
                  && !AssignNumber(Get(body, "longitude")).Uncastable?
                  && (match AssignText(Get(body, "nickname"))
                      case Uncastable => false
                      case To(n) => |n| <= NicknameMaxLength
                      case _ => true)
                  && !AssignBoolean(Get(body, "isFavorite")).Uncastable?)
  {
    var u, d := AssignObjectId(Str(owner)), ReadDraft(body);
    DraftAccepted(u, d);
    NicknameAccepted(Get(body, "nickname"));
  }

  /** The nickname path passes when it is absent, null, or a string whose trimmed form has
      at most 50 characters. */
  lemma NicknameAccepted(v: JsValue)
    ensures NicknameErrors(AssignText(v)) == [] <==>
            (match AssignText(v)
             case Uncastable => false
             case To(n) => |n| <= NicknameMaxLength
             case _ => true)
  {
  }

  /** A draft has no errors exactly when each path's own check passes. */
  lemma DraftAccepted(owner: Assigned<string>, d: Draft)
    ensures DraftErrors(owner, d) == []
            <==> (&& !owner.Uncastable? && d.city.To? && d.city.value != ""
                  && !d.country.Uncastable? && !d.latitude.Uncastable? && !d.longitude.Uncastable?
                  && NicknameErrors(d.nickname) == [] && !d.isFavorite.Uncastable?)
  {
    assert |DraftErrors(owner, d)| == |CastErrors("userId", owner)| + |CityErrors(d.city)|
      + |CastErrors("country", d.country)| + |CastErrors("latitude", d.latitude)|
      + |CastErrors("longitude", d.longitude)| + |NicknameErrors(d.nickname)|
      + |CastErrors("isFavorite", d.isFavorite)|;
  }

  /** Keys outside the six the handler destructures play no part: in particular a
      `userId` in the body never becomes the owner. */
  lemma NewRecordIgnoresOtherKeys(id: string, owner: string, body: Body, key: string, v: JsValue, now: nat)
    requires key !in {"city", "country", "latitude", "longitude", "nickname", "isFavorite"}
    ensures NewRecord(id, owner, body[key := v], now) == NewRecord(id, owner, body, now)
  {
    assert ReadDraft(body[key := v]) == ReadDraft(body);
  }

  // ---- Updating a document --------------------------------------------------------------

  /** The cast `$set` of an update body: every schema path the body names, the owner
      included, since the handler passes the body through whole. */
  datatype Patch = Patch(
    userId: Assigned<string>, city: Assigned<string>, country: Assigned<string>,
    latitude: Assigned<real>, longitude: Assigned<real>,
    nickname: Assigned<string>, isFavorite: Assigned<bool>)

  function ReadPatch(body: Body): Patch
  {
    Patch(AssignObjectId(Get(body, "userId")), AssignText(Get(body, "city")), AssignText(Get(body, "country")),
          AssignNumber(Get(body, "latitude")), AssignNumber(Get(body, "longitude")),
          AssignText(Get(body, "nickname")), AssignBoolean(Get(body, "isFavorite")))
  }

  /** The first path, in schema order, whose value does not cast. */
  function FirstUncastable(p: Patch): Option<string>
  {
    if p.userId.Uncastable? then Some("userId")
    else if p.city.Uncastable? then Some("city")
    else if p.country.Uncastable? then Some("country")
    else if p.latitude.Uncastable? then Some("latitude")
    else if p.longitude.Uncastable? then Some("longitude")
    else if p.nickname.Uncastable? then Some("nickname")
    else if p.isFavorite.Uncastable? then Some("isFavorite")
    else None
  }

  /** Update validators run only on the paths the update sets. */
  function PatchErrors(p: Patch): seq<PathError>
  {
    (if p.userId.Cleared? then [Required("userId", UserIdRequiredMessage)] else [])
    + (if p.city.Cleared? || p.city == To("") then [Required("city", CityRequiredMessage)] else [])
    + NicknameErrors(p.nickname)
  }

  /** Casting then validating an update body: a cast failure is thrown first, then a
      validation error; both come before any record is looked at. */
  function CheckPatch(body: Body): (r: Result<Patch, StoreError>)
    ensures r.Success? <==> FirstUncastable(ReadPatch(body)) == None && PatchErrors(ReadPatch(body)) == []
    ensures r.Success? ==> r.value == ReadPatch(body)
    ensures FirstUncastable(ReadPatch(body)).Some? ==> r == Failure(Cast(FirstUncastable(ReadPatch(body)).value))
    ensures r.Failure? ==> r.error.Cast? || (r.error.Invalid? && r.error.errors != [])
  {
    var p := ReadPatch(body);
    match FirstUncastable(p)
    case Some(path) => Failure(Cast(path))
    case None =>
      var errors := PatchErrors(p);
      if errors != [] then Failure(Invalid(errors)) else Success(p)
  }

  /** The record after `$set` of a checked patch; timestamps set `updatedAt` and never
      touch `createdAt` or `_id`. */
  function ApplyPatch(r: Location, p: Patch, now: nat): Location
  {
    r.(userId := if p.userId.To? then p.userId.value else r.userId,
       city := if p.city.To? then p.city.value else r.city,
       country := Then(p.country, r.country),
       latitude := Then(p.latitude, r.latitude),
       longitude := Then(p.longitude, r.longitude),
       nickname := Then(p.nickname, r.nickname),
       isFavorite := Then(p.isFavorite, r.isFavorite),
       updatedAt := now)
  }

  /** What casting guarantees of each path it sets. */
  predicate WellCast(p: Patch)
  {
    && (p.userId.To? ==> ObjectIds.IsObjectId(p.userId.value))
    && (p.city.To? ==> Text.Trimmed(p.city.value))
    && (p.country.To? ==> Text.Trimmed(p.country.value))
    && (p.nickname.To? ==> Text.Trimmed(p.nickname.value))
  }

  lemma ReadPatchWellCast(body: Body)
    ensures WellCast(ReadPatch(body))
  {
  }

  /** A cast patch that passes the update validators turns a valid record into a valid one. */
  lemma PatchKeepsValid(r: Location, p: Patch, now: nat)
    requires Valid(r) && WellCast(p) && PatchErrors(p) == []
    ensures Valid(ApplyPatch(r, p, now))
  {
    PatchErrorsEmpty(p);
    var u := ApplyPatch(r, p, now);
    assert u.city != "" && Text.Trimmed(u.city);
    assert u.nickname.Some? ==> |u.nickname.value| <= NicknameMaxLength;
  }

  /** The update validators pass exactly when `userId` and `city` are not cleared, `city`
      is not set to the empty text, and the nickname raises nothing. */
  lemma PatchErrorsEmpty(p: Patch)
    ensures PatchErrors(p) == []
            <==> !p.userId.Cleared? && !p.city.Cleared? && p.city != To("") && NicknameErrors(p.nickname) == []
  {
  }

  /** Update validators keep the schema's constraints: a valid record stays valid. */
  lemma ApplyPatchKeepsValid(r: Location, body: Body, now: nat)
    requires Valid(r) && CheckPatch(body).Success?
    ensures Valid(ApplyPatch(r, CheckPatch(body).value, now))
  {
    ReadPatchWellCast(body);
    PatchKeepsValid(r, CheckPatch(body).value, now);
  }

  /** An update changes only the paths the body names: `_id` and `createdAt` never,
      `updatedAt` always, and every other field only when its key is present. */
  lemma ApplyPatchFrame(r: Location, body: Body, now: nat)
    requires CheckPatch(body).Success?
    ensures var u := ApplyPatch(r, CheckPatch(body).value, now);
      && u.id == r.id && u.createdAt == r.createdAt && u.updatedAt == now
      && (Get(body, "userId") == Undefined ==> u.userId == r.userId)
      && (Get(body, "city") == Undefined ==> u.city == r.city)
      && (Get(body, "country") == Undefined ==> u.country == r.country)
      && (Get(body, "latitude") == Undefined ==> u.latitude == r.latitude)
      && (Get(body, "longitude") == Undefined ==> u.longitude == r.longitude)
      && (Get(body, "nickname") == Undefined ==> u.nickname == r.nickname)
      && (Get(body, "isFavorite") == Undefined ==> u.isFavorite == r.isFavorite)
  {
  }

  /** The update body is not filtered: a `userId` in it moves the record to another owner. */
  lemma PatchCanReassignOwner(r: Location, other: string, now: nat)
    requires ObjectIds.IsObjectId(other)
    ensures CheckPatch(map["userId" := Str(other)]).Success?
    ensures ApplyPatch(r, CheckPatch(map["userId" := Str(other)]).value, now).userId == other
  {
    var body := map["userId" := Str(other)];
    assert Get(body, "userId") == Str(other);
    assert ReadPatch(body).userId == To(other);
  }

  /** An update body that names no schema path but `nickname` sets the trimmed nickname and
      leaves city, country, coordinates, owner and favourite flag as they were. */
  lemma NicknameOnlyUpdate(r: Location, body: Body, now: nat)
    requires Get(body, "userId") == Get(body, "city") == Get(body, "country") == Undefined
    requires Get(body, "latitude") == Get(body, "longitude") == Get(body, "isFavorite") == Undefined
    requires Get(body, "nickname").Str? && |Text.Trim(Get(body, "nickname").s)| <= NicknameMaxLength
    ensures CheckPatch(body).Success?
    ensures var u := ApplyPatch(r, CheckPatch(body).value, now);
      && u.nickname == Some(Text.Trim(Get(body, "nickname").s))
      && u.city == r.city && u.country == r.country && u.latitude == r.latitude
      && u.longitude == r.longitude && u.userId == r.userId && u.isFavorite == r.isFavorite
  {
    var p := ReadPatch(body);
    assert p == Patch(Unset, Unset, Unset, Unset, Unset, To(Text.Trim(Get(body, "nickname").s)), Unset);
  }
}
