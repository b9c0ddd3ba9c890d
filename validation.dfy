/**
 * Request validation (middleware/validation.js): the three Joi object schemas
 * and the `validate` middleware factory, which runs a schema over `req.body`
 * with `abortEarly: false` and either answers 400 with every failed rule's
 * message or calls `next()` with the body untouched.
 *
 * A schema is a list of keys in declaration order; Joi reports errors key by
 * key in that order. For one value Joi checks its type first, then the empty
 * string, then each string rule (min, max, email), reporting every rule that
 * fails. Joi's own e-mail grammar is taken as the parameter `isEmail`.
 */
module Validation {
  import opened Wrappers
  import opened Js
  import Text

  datatype Kind = StringType | NumberType | BooleanType

  /** What one key of a Joi object schema demands, with its custom messages by error code. */
  datatype Rule = Rule(kind: Kind, required: bool, min: Option<nat>, max: Option<nat>,
                       email: bool, messages: map<string, string>)

  datatype Key = Key(name: string, rule: Rule)

  type Schema = seq<Key>

  /** Joi's default label: the key name in double quotes. */
  function Label(key: string): string
  {
    "\"" + key + "\""
  }

  /** Joi's default message templates for the error codes these schemas can raise. */
  function DefaultMessage(code: string, key: string, limit: nat): string
  {
    var l := Label(key);
    if code == "any.required" then l + " is required"
    else if code == "string.base" then l + " must be a string"
    else if code == "string.empty" then l + " is not allowed to be empty"
    else if code == "string.min" then l + " length must be at least " + Text.NatToString(limit) + " characters long"
    else if code == "string.max" then l + " length must be less than or equal to " + Text.NatToString(limit) + " characters long"
    else if code == "string.email" then l + " must be a valid email"
    else if code == "number.base" then l + " must be a number"
    else l + " must be a boolean"
  }

  /** The message for `code`: the schema's custom one if it has one, Joi's default otherwise. */
  function Message(key: Key, code: string, limit: nat): string
  {
    if code in key.rule.messages then key.rule.messages[code] else DefaultMessage(code, key.name, limit)
  }

  function BaseCode(kind: Kind): string
  {
    match kind
    case StringType => "string.base"
    case NumberType => "number.base"
    case BooleanType => "boolean.base"
  }

  /** Joi's boolean conversion accepts the strings "true" and "false" in any letter case. */
  predicate BooleanText(s: string)
  {
    Text.AsciiLower(s) == "true" || Text.AsciiLower(s) == "false"
  }

  /** The rules of a string key that apply to a non-empty string, in Joi's order. */
  function StringRuleErrors(isEmail: string -> bool, key: Key, s: string): seq<string>
  {
    var rule := key.rule;
    (if rule.min.Some? && |s| < rule.min.value then [Message(key, "string.min", rule.min.value)] else [])
    + (if rule.max.Some? && |s| > rule.max.value then [Message(key, "string.max", rule.max.value)] else [])
    + (if rule.email && !isEmail(s) then [Message(key, "string.email", 0)] else [])
  }

  /** Every message one key reports for the value `v` found under it. */
  function KeyErrors(isEmail: string -> bool, key: Key, v: JsValue): seq<string>
  {
    var base := [Message(key, BaseCode(key.rule.kind), 0)];
    match v
    case Undefined => if key.rule.required then [Message(key, "any.required", 0)] else []
    case Null => base
    case Str(s) =>
      if key.rule.kind == StringType then
        if s == "" then [Message(key, "string.empty", 0)] else StringRuleErrors(isEmail, key, s)
      else if key.rule.kind == BooleanType && BooleanText(s) then []
      else base
    case Num(_) => if key.rule.kind == NumberType then [] else base
    case Bool(_) => if key.rule.kind == BooleanType then [] else base
  }

  /** Every key's messages under the check `f`, keys in schema order. */
  function Gather(schema: Schema, f: Key -> seq<string>): seq<string>
  {
    if schema == [] then [] else f(schema[0]) + Gather(schema[1..], f)
  }

  /** The messages one key raises for the body. */
  function KeyCheck(isEmail: string -> bool, body: Body): Key -> seq<string>
  {
    (k: Key) => KeyErrors(isEmail, k, Get(body, k.name))
  }

  /** `error.details.map(d => d.message)`: every key's messages, keys in schema order. */
  function Errors(schema: Schema, isEmail: string -> bool, body: Body): seq<string>
  {
    Gather(schema, KeyCheck(isEmail, body))
  }

  /** A key whose value breaks none of its rules. */
  predicate KeyAccepts(isEmail: string -> bool, key: Key, body: Body)
  {
    KeyErrors(isEmail, key, Get(body, key.name)) == []
  }

  lemma {:induction false} GatherEmptyIff(schema: Schema, f: Key -> seq<string>)
    ensures Gather(schema, f) == [] <==> forall i :: 0 <= i < |schema| ==> f(schema[i]) == []
  {
    if schema != [] {
      var tail := schema[1..];
      GatherEmptyIff(tail, f);
      assert forall i :: 1 <= i < |schema| ==> schema[i] == tail[i - 1];
    }
  }

  lemma {:induction false} GatherContains(schema: Schema, f: Key -> seq<string>, m: string)
    ensures m in Gather(schema, f) <==> exists i :: 0 <= i < |schema| && m in f(schema[i])
  {
    if schema != [] {
      var tail := schema[1..];
      GatherContains(tail, f, m);
      assert forall i :: 1 <= i < |schema| ==> schema[i] == tail[i - 1];
      if m in Gather(tail, f) {
        var i :| 0 <= i < |tail| && m in f(tail[i]);
        assert schema[i + 1] == tail[i];
      }
    }
  }

  /** The body passes exactly when every key of the schema accepts its value. */
  lemma ErrorsEmptyIff(schema: Schema, isEmail: string -> bool, body: Body)
    ensures Errors(schema, isEmail, body) == []
            <==> forall i :: 0 <= i < |schema| ==> KeyAccepts(isEmail, schema[i], body)
  {
    GatherEmptyIff(schema, KeyCheck(isEmail, body));
  }

  /** Nothing is dropped and nothing invented: a message is reported exactly when some key
      raises it (all errors are collected, none stops the others). */
  lemma EveryErrorReported(schema: Schema, isEmail: string -> bool, body: Body, m: string)
    ensures m in Errors(schema, isEmail, body)
            <==> exists i :: 0 <= i < |schema| && m in KeyErrors(isEmail, schema[i], Get(body, schema[i].name))
  {
    GatherContains(schema, KeyCheck(isEmail, body), m);
  }

  /** Outcome of the `validate` middleware. */
  datatype Gate =
    | Next(body: Body)                  // next() with req.body as it was
    | Rejected(details: seq<string>)    // 400 { error: 'Validation failed', details }

  const ValidationFailed := "Validation failed"

  /** `validate(schema)(req, res, next)`: rejection carries every message; passing hands
      on the body unchanged, since the converted value Joi returns is discarded. */
  function Validate(schema: Schema, isEmail: string -> bool, body: Body): (g: Gate)
    ensures g.Next? <==> forall i :: 0 <= i < |schema| ==> KeyAccepts(isEmail, schema[i], body)
    ensures g.Next? ==> g.body == body
    ensures g.Rejected? ==> g.details != [] && g.details == Errors(schema, isEmail, body)
  {
    ErrorsEmptyIff(schema, isEmail, body);
    var errors := Errors(schema, isEmail, body);
    if errors != [] then Rejected(errors) else Next(body)
  }

  /** A three-key schema reports its keys' messages in key order. */
  lemma ErrorsOfThree(a: Key, b: Key, c: Key, isEmail: string -> bool, body: Body)
    ensures Errors([a, b, c], isEmail, body)
            == KeyErrors(isEmail, a, Get(body, a.name)) + KeyErrors(isEmail, b, Get(body, b.name))
               + KeyErrors(isEmail, c, Get(body, c.name))
  {
    GatherThree(a, b, c, KeyCheck(isEmail, body));
  }

  lemma GatherThree(a: Key, b: Key, c: Key, f: Key -> seq<string>)
    ensures Gather([a, b, c], f) == f(a) + f(b) + f(c)
  {
    assert [a, b, c][1..] == [b, c] && [b, c][1..] == [c] && [c][1..] == [];
    assert Gather([c], f) == f(c);
    assert Gather([b, c], f) == f(b) + f(c);
  }

  /** A two-key schema passes exactly when both keys accept. */
  lemma ValidateTwo(a: Key, b: Key, isEmail: string -> bool, body: Body)
    ensures Validate([a, b], isEmail, body).Next? <==> KeyAccepts(isEmail, a, body) && KeyAccepts(isEmail, b, body)
  {
    var s := [a, b];
    assert (forall i :: 0 <= i < |s| ==> KeyAccepts(isEmail, s[i], body))
           <==> KeyAccepts(isEmail, s[0], body) && KeyAccepts(isEmail, s[1], body);
  }

  /** A three-key schema passes exactly when all three keys accept. */
  lemma ValidateThree(a: Key, b: Key, c: Key, isEmail: string -> bool, body: Body)
    ensures Validate([a, b, c], isEmail, body).Next?
            <==> KeyAccepts(isEmail, a, body) && KeyAccepts(isEmail, b, body) && KeyAccepts(isEmail, c, body)
  {
    var s := [a, b, c];
    assert (forall i :: 0 <= i < |s| ==> KeyAccepts(isEmail, s[i], body))
           <==> KeyAccepts(isEmail, s[0], body) && KeyAccepts(isEmail, s[1], body) && KeyAccepts(isEmail, s[2], body);
  }

  /** A six-key schema passes exactly when all six keys accept. */
  lemma ValidateSix(s: Schema, isEmail: string -> bool, body: Body)
    requires |s| == 6
    ensures Validate(s, isEmail, body).Next?
            <==> (&& KeyAccepts(isEmail, s[0], body) && KeyAccepts(isEmail, s[1], body) && KeyAccepts(isEmail, s[2], body)
                  && KeyAccepts(isEmail, s[3], body) && KeyAccepts(isEmail, s[4], body) && KeyAccepts(isEmail, s[5], body))
  {
    if (&& KeyAccepts(isEmail, s[0], body) && KeyAccepts(isEmail, s[1], body) && KeyAccepts(isEmail, s[2], body)
        && KeyAccepts(isEmail, s[3], body) && KeyAccepts(isEmail, s[4], body) && KeyAccepts(isEmail, s[5], body)) {
      forall i | 0 <= i < |s| ensures KeyAccepts(isEmail, s[i], body) {
        assert i == 0 || i == 1 || i == 2 || i == 3 || i == 4 || i == 5;
      }
    }
  }

  // ---- The three schemas --------------------------------------------------------------

  const NameKey := Key("name", Rule(StringType, true, Some(3), Some(50), false,
    map["string.min" := "Name must be at least 3 characters",
        "string.max" := "Name cannot exceed 50 characters",
        "any.required" := "Name is required"]))

  const EmailKey := Key("email", Rule(StringType, true, None, None, true,
    map["string.email" := "Please provide a valid email",
        "any.required" := "Email is required"]))

  const PasswordKey := Key("password", Rule(StringType, true, Some(6), None, false,
    map["string.min" := "Password must be at least 6 characters",
        "any.required" := "Password is required"]))

  const RegisterSchema: Schema := [NameKey, EmailKey, PasswordKey]

  const LoginPasswordKey := Key("password", Rule(StringType, true, None, None, false,
    map["any.required" := "Password is required"]))

  const LoginSchema: Schema := [EmailKey, LoginPasswordKey]

  const CityKey := Key("city", Rule(StringType, true, None, None, false, map["any.required" := "City name is required"]))
  const CountryKey := Key("country", Rule(StringType, false, None, None, false, map[]))
  const LatitudeKey := Key("latitude", Rule(NumberType, false, None, None, false, map[]))
  const LongitudeKey := Key("longitude", Rule(NumberType, false, None, None, false, map[]))
  const NicknameKey := Key("nickname", Rule(StringType, false, None, Some(50), false, map[]))
  const FavoriteKey := Key("isFavorite", Rule(BooleanType, false, None, None, false, map[]))

  const LocationSchema: Schema := [CityKey, CountryKey, LatitudeKey, LongitudeKey, NicknameKey, FavoriteKey]

  /** A present, non-empty string. */
  predicate StringWith(v: JsValue, ok: string -> bool)
  {
    v.Str? && v.s != "" && ok(v.s)
  }

  /** A string key accepts an absent value when it is optional, or a non-empty string that
      meets its length bounds and, for an e-mail key, Joi's address grammar. */
  lemma StringKeyAccepts(isEmail: string -> bool, key: Key, body: Body)
    requires key.rule.kind == StringType
    ensures KeyAccepts(isEmail, key, body)
            <==> (|| (Get(body, key.name) == Undefined && !key.rule.required)
                  || StringWith(Get(body, key.name), s =>
                       && (key.rule.min.Some? ==> |s| >= key.rule.min.value)
                       && (key.rule.max.Some? ==> |s| <= key.rule.max.value)
                       && (key.rule.email ==> isEmail(s))))
  {
  }

  /** Registration passes exactly when the name is a 3 to 50 character string, the email a
      non-empty string Joi accepts as an address, and the password a string of at least
      6 characters. */
  lemma RegisterAccepts(isEmail: string -> bool, body: Body)
    ensures Validate(RegisterSchema, isEmail, body).Next?
            <==> (&& StringWith(Get(body, "name"), s => 3 <= |s| <= 50)
                  && StringWith(Get(body, "email"), isEmail)
                  && StringWith(Get(body, "password"), s => |s| >= 6))
  {
    ValidateThree(NameKey, EmailKey, PasswordKey, isEmail, body);
    StringKeyAccepts(isEmail, NameKey, body);
    StringKeyAccepts(isEmail, EmailKey, body);
    StringKeyAccepts(isEmail, PasswordKey, body);
  }

  /** Login passes exactly when email is a non-empty string Joi accepts as an address and
      password is any non-empty string: there is no length bound on it. */
  lemma LoginAccepts(isEmail: string -> bool, body: Body)
    ensures Validate(LoginSchema, isEmail, body).Next?
            <==> (StringWith(Get(body, "email"), isEmail) && StringWith(Get(body, "password"), s => true))
  {
    ValidateTwo(EmailKey, LoginPasswordKey, isEmail, body);
    StringKeyAccepts(isEmail, EmailKey, body);
    StringKeyAccepts(isEmail, LoginPasswordKey, body);
  }

  /** A value an optional key of type number or boolean accepts. */
  predicate TypedOrAbsent(kind: Kind, v: JsValue)
  {
    match v
    case Undefined => true
    case Num(_) => kind == NumberType
    case Bool(_) => kind == BooleanType
    case Str(s) => kind == BooleanType && BooleanText(s)
    case Null => false
  }

  /** A location body passes exactly when city is a non-empty string and each optional key
      is absent or of its type: country a non-empty string, latitude and longitude numbers,
      nickname a non-empty string of at most 50 characters, isFavorite a boolean (or the
      text "true" or "false"). */
  lemma LocationAccepts(isEmail: string -> bool, body: Body)
    ensures Validate(LocationSchema, isEmail, body).Next?
            <==> (&& StringWith(Get(body, "city"), s => true)
                  && (Get(body, "country") == Undefined || StringWith(Get(body, "country"), s => true))
                  && TypedOrAbsent(NumberType, Get(body, "latitude"))
                  && TypedOrAbsent(NumberType, Get(body, "longitude"))
                  && (Get(body, "nickname") == Undefined || StringWith(Get(body, "nickname"), s => |s| <= 50))
                  && TypedOrAbsent(BooleanType, Get(body, "isFavorite")))
  {
    ValidateSix(LocationSchema, isEmail, body);
    LocationStringKeys(isEmail, body);
    OptionalTypedKey(isEmail, LatitudeKey, body);
    OptionalTypedKey(isEmail, LongitudeKey, body);
    OptionalTypedKey(isEmail, FavoriteKey, body);
  }

  lemma LocationStringKeys(isEmail: string -> bool, body: Body)
    ensures KeyAccepts(isEmail, CityKey, body) <==> StringWith(Get(body, "city"), s => true)
    ensures KeyAccepts(isEmail, CountryKey, body)
            <==> (Get(body, "country") == Undefined || StringWith(Get(body, "country"), s => true))
    ensures KeyAccepts(isEmail, NicknameKey, body)
            <==> (Get(body, "nickname") == Undefined || StringWith(Get(body, "nickname"), s => |s| <= 50))
  {
    StringKeyAccepts(isEmail, CityKey, body);
    StringKeyAccepts(isEmail, CountryKey, body);
    StringKeyAccepts(isEmail, NicknameKey, body);
  }

  /** An optional number or boolean key accepts an absent value or a value of its type. */
  lemma OptionalTypedKey(isEmail: string -> bool, key: Key, body: Body)
    requires key.rule.kind != StringType && !key.rule.required
    ensures KeyAccepts(isEmail, key, body) <==> TypedOrAbsent(key.rule.kind, Get(body, key.name))
  {
  }

  /** Registration's errors are the name's, then the email's, then the password's. */
  lemma RegisterErrorsInKeyOrder(isEmail: string -> bool, body: Body)
    ensures Errors(RegisterSchema, isEmail, body)
            == KeyErrors(isEmail, NameKey, Get(body, "name")) + KeyErrors(isEmail, EmailKey, Get(body, "email"))
               + KeyErrors(isEmail, PasswordKey, Get(body, "password"))
  {
    ErrorsOfThree(NameKey, EmailKey, PasswordKey, isEmail, body);
  }

  /** An empty registration body reports all three missing fields, in key order. */
  lemma RegisterMissingFields(isEmail: string -> bool)
    ensures Validate(RegisterSchema, isEmail, map[])
            == Rejected(["Name is required", "Email is required", "Password is required"])
  {
    var empty: Body := map[];
    RegisterErrorsInKeyOrder(isEmail, empty);
    assert Message(NameKey, "any.required", 0) == "Name is required";
    assert Message(EmailKey, "any.required", 0) == "Email is required";
    assert Message(PasswordKey, "any.required", 0) == "Password is required";
  }

  /** A name shorter than three characters reports the name's custom minimum message only. */
  lemma ShortNameErrors(isEmail: string -> bool, n: string)
    requires 0 < |n| < 3
    ensures KeyErrors(isEmail, NameKey, Str(n)) == ["Name must be at least 3 characters"]
  {
    assert Message(NameKey, "string.min", 3) == "Name must be at least 3 characters";
  }

  /** A password shorter than six characters reports the password's custom minimum message only. */
  lemma ShortPasswordErrors(isEmail: string -> bool, p: string)
    requires 0 < |p| < 6
    ensures KeyErrors(isEmail, PasswordKey, Str(p)) == ["Password must be at least 6 characters"]
  {
    assert Message(PasswordKey, "string.min", 6) == "Password must be at least 6 characters";
  }

  /** A non-empty address Joi accepts raises nothing under the e-mail key. */
  lemma AcceptedEmailErrors(isEmail: string -> bool, s: string)
    requires s != "" && isEmail(s)
    ensures KeyErrors(isEmail, EmailKey, Str(s)) == []
  {
    assert StringRuleErrors(isEmail, EmailKey, s) == [];
  }

  /** A short name and a short password are both reported, name first, even with a good
      e-mail address. */
  lemma RegisterShortFields(isEmail: string -> bool, body: Body)
    requires Get(body, "name").Str? && 0 < |Get(body, "name").s| < 3
    requires Get(body, "email").Str? && Get(body, "email").s != "" && isEmail(Get(body, "email").s)
    requires Get(body, "password").Str? && 0 < |Get(body, "password").s| < 6
    ensures Validate(RegisterSchema, isEmail, body)
            == Rejected(["Name must be at least 3 characters", "Password must be at least 6 characters"])
  {
    RegisterErrorsInKeyOrder(isEmail, body);
    ShortNameErrors(isEmail, Get(body, "name").s);
    AcceptedEmailErrors(isEmail, Get(body, "email").s);
    ShortPasswordErrors(isEmail, Get(body, "password").s);
  }
}
