# Weather forecast app: the server core in Dafny

This project models the server side of a small Express/MongoDB weather application:
- users register, log in and edit their profile;
- each user keeps a private list of saved locations;
- the server relays current weather and a five-day forecast from the OpenWeatherMap API.

The model covers the request validators, the Location document schema, the ownership-scoped
location collection, the user collection with its profile edit, the e-mail regular expression
of the registration handler, and the weather handlers' URL building, error mapping and
payload reshaping. Each piece is modelled once. The two copies of the handlers (the route
handlers of `server.js` and the controllers under `controllers/`) are both modelled on top of
it, with their differences kept: where the caller's id comes from, and how a failure is
answered.

As written, `server.js` cannot reach the Location model: its line 17 destructures a
`Location` property that the module's export (models/Location.js:43) does not have. Every
location route of `server.js` therefore answers 400 without touching the collection. This
is modelled as written (`Server.LocationRouteAsWritten`) and, as evidently intended, with
the model bound (the `Server` location handlers); "## Findings" sets the two side by side.
The routes under `controllers/` import the model directly and are not affected.

Modules, in dependency order:

| module | file | models |
|---|---|---|
| `Wrappers` | wrappers.dfy | `Option` and `Result` |
| `Js` | js.dfy | JSON body values, `req.body.key`, JavaScript truthiness |
| `Text` | text.dfy | `String.prototype.trim`, ASCII lower-casing, decimal rendering |
| `ObjectIds` | objectids.dfy | casting a string to a MongoDB ObjectId |
| `EmailPattern` | email.dfy | the regular expression `^[a-zA-Z0-9._%+-]+@[a-zA-Z0-9.-]+\.[a-zA-Z]{2,}$` |
| `Validation` | validation.dfy | the register, login and location Joi schemas and the `validate` middleware |
| `LocationModel` | location_model.dfy | the Location document: fields, constraints, casting a create or update body |
| `LocationStore` | location_store.dfy | the location collection as a class `LocationTable`, and its queries |
| `LocationController` | location_controller.dfy | the five location handlers of the controller |
| `Users` | users.dfy | the user collection as a class `UserTable`, lookups, the public projection |
| `UserController` | user_controller.dfy | the two profile handlers of the controller |
| `Weather` | weather.dfy | the city check, the provider URL, failure classification, reshaping |
| `WeatherController` | weather_controller.dfy | the controller's weather handlers |
| `Server` | server.dfy | the route handlers of `server.js` |

Stateful code is imperative Dafny:
- `LocationTable` and `UserTable` hold their collection as a `seq` field.
- `create`, `findOneAndUpdate`, `findOneAndDelete`, `save` and the profile edit are methods with `modifies` clauses.
- Each table and handler method states the whole new state in terms of the old one. The two scenario methods (`LocationController.DeleteTwice`, `Server.RegisterThenLogin`) state the collection after both steps. The comparison methods `Server.CreateAsWrittenDiffers`, `Server.UpdateAsWrittenDiffers` and `Server.DeleteAsWrittenDiffers` run the corrected route, and state the collection that route leaves.
- Queries (`find`, `findOne`, `findById`) are functions that read the table.

The schema, the validators, the regex and weather reshaping are pure, and are modelled as
datatypes and functions.

Inputs that the program gets from outside are parameters:
- the id the driver generates;
- the clock (`now`);
- the salt bcrypt draws and bcrypt's digest and comparison (the record `Bcrypt`);
- Joi's e-mail grammar (`isEmail`);
- the weather API key;
- the HTTP fetch, as a function from URL to response (`fetch`).

## Model

| member | source | states |
|---|---|---|
| Text.Trim | models/Location.js:13 | a trimmed value neither starts nor ends with white space and is no longer than the input |
| Text.TrimStartDrops | models/Location.js:13 | trimming the front keeps a suffix of the input and drops only white space |
| Text.TrimEndDrops | models/Location.js:13 | trimming the end keeps a prefix of the input and drops only white space |
| Text.TrimIsInfix | models/Location.js:13 | the trimmed value is a contiguous slice of the input |
| Text.TrimKeepsIff | models/Location.js:17 | trimming leaves a string unchanged exactly when it neither starts nor ends with white space |
| Text.TrimIdempotent | models/Location.js:27 | trimming a trimmed value changes nothing |
| ObjectIds.CastObjectId | models/Location.js:6 | a cast succeeds exactly on 24 hexadecimal digits, yields the canonical lower-case id, and leaves a canonical id as it is |
| EmailPattern.TestIsPattern | server.js:61-72 | the decision procedure `Test` accepts exactly the strings of the regular expression's language (local part, '@', domain, '.', two or more letters) |
| EmailPattern.MatchShape | server.js:61 | a matching string has exactly one '@', a '.' before the last two characters, and ends in two ASCII letters |
| EmailPattern.ExampleAccepted | server.js:61 | "ann@example.com" passes the test |
| EmailPattern.ExampleTwoAts | server.js:61 | an address with a second '@' fails the test |
| EmailPattern.ExampleShortLabel | server.js:61 | an address whose last label has one letter fails the test |
| Validation.Validate | middleware/validation.js:44-55 | the middleware calls `next` with the body unchanged exactly when every key accepts its value; otherwise it rejects with the non-empty list of all messages |
| Validation.KeyErrors | middleware/validation.js:4-41 | the messages one key raises for its value: "required" for a missing required key, the type message for a value of another type or null, "empty" for an empty string, else the length and e-mail rules that fail |
| Validation.Errors | middleware/validation.js:46-49 | `error.details.map(d => d.message)`: every key's messages, keys in schema order |
| Validation.ErrorsEmptyIff | middleware/validation.js:46-49 | for a body with no keys outside the schema, no message is reported exactly when every key of the schema accepts its value |
| Validation.EveryErrorReported | middleware/validation.js:46-49 | with `abortEarly: false` a message is reported exactly when some key raises it, so none is dropped and none is invented |
| Validation.StringKeyAccepts | middleware/validation.js:4-41 | a string key accepts exactly an absent value when it is optional, or a non-empty string within its length bounds that, for an e-mail key, Joi accepts as an address |
| Validation.RegisterAccepts | middleware/validation.js:4-18 | for a body with no keys outside the schema, registration passes exactly when name is a string of 3 to 50 characters, email a non-empty accepted address, and password a string of at least 6 characters |
| Validation.LoginAccepts | middleware/validation.js:21-29 | for a body with no keys outside the schema, login passes exactly when email is a non-empty accepted address and password any non-empty string, with no length bound |
| Validation.LocationAccepts | middleware/validation.js:32-41 | for a body with no keys outside the schema, a location body passes exactly when city is a non-empty string, country is absent or a non-empty string, latitude and longitude are absent or numbers, nickname is absent or a non-empty string of at most 50 characters, and isFavorite is absent, a boolean, or the text "true" or "false" |
| Validation.OptionalTypedKey | middleware/validation.js:35-40 | an optional number or boolean key accepts exactly an absent value or a value of its type (for a boolean, also the text "true" or "false" in any case) |
| Validation.RegisterErrorsInKeyOrder | middleware/validation.js:46-49 | registration messages come name first, then email, then password |
| Validation.RegisterMissingFields | middleware/validation.js:4-18 | an empty body is rejected with "Name is required", "Email is required", "Password is required", in that order |
| Validation.ShortNameErrors | middleware/validation.js:5-9 | a 1- or 2-character name raises only "Name must be at least 3 characters" |
| Validation.ShortPasswordErrors | middleware/validation.js:14-17 | a password of 1 to 5 characters raises only "Password must be at least 6 characters" |
| Validation.AcceptedEmailErrors | middleware/validation.js:10-13 | a non-empty address Joi accepts raises nothing |
| Validation.RegisterShortFields | middleware/validation.js:4-18 | a short name and a short password with a good address are rejected with both custom messages, name first |
| LocationModel.Valid | models/Location.js:4-33 | the schema's constraints: the owner is an ObjectId, the city is non-empty and trimmed, country and nickname are trimmed when present, and the nickname has at most 50 characters |
| LocationModel.AssignBoolean | models/Location.js:30-33 | the cast of a value to the Boolean path: booleans, the texts true/1/yes and false/0/no, and the numbers 1 and 0; null clears; anything else does not cast |
| LocationModel.AssignText | models/Location.js:10-14 | a value assigned to a String path (a string, or a boolean cast to "true"/"false") is stored trimmed |
| LocationModel.AssignObjectId | models/Location.js:5-9 | a value cast to the `userId` path is a canonical ObjectId |
| LocationModel.Admit | models/Location.js:4-37 | a cast draft is admitted exactly when it has no validation error; the document is then valid, owned by the cast owner, carries the draft's city, has both timestamps equal to the creation time, and has isFavorite false when unset; a rejection lists at least one error |
| LocationModel.NewRecord | server.js:158-171 | a created document satisfies the schema, has the owner cast from the authenticated id (never a body field), the trimmed body city, `createdAt == updatedAt == now`, and isFavorite false when the body omits it; a failure is a non-empty validation error |
| LocationModel.NewRecordSucceedsIff | models/Location.js:5-33 | creation succeeds exactly when the owner is an ObjectId, city is a string that is not blank after trimming or a boolean (cast to its text), each optional field casts (booleans to text or to 1/0, "" to null on a Number path), and the trimmed nickname has at most 50 characters |
| LocationModel.NicknameAccepted | models/Location.js:25-29 | the nickname path passes when absent, null, or a string whose trimmed form has at most 50 characters |
| LocationModel.DraftAccepted | models/Location.js:5-33 | a draft has no validation error exactly when each path's own check passes |
| LocationModel.NewRecordIgnoresOtherKeys | controllers/locationController.js:6-17 | body keys other than the six destructured ones, a `userId` among them, do not affect the created document |
| LocationModel.ReadPatch | controllers/locationController.js:66-70 | the update body cast path by path, each key to its schema type; keys outside the schema are ignored |
| LocationModel.ApplyPatch | controllers/locationController.js:66-72 | `$set` of the cast paths: a set path takes its new value, a cleared optional path becomes unset, the owner and city are replaced only when set, and `updatedAt` becomes the time of the update |
| LocationModel.CheckPatch | controllers/locationController.js:68-72 | an update body is accepted exactly when every path casts and the update validators pass; an uncastable path is reported as a cast error before any validation runs; an accepted patch is the cast of the body |
| LocationModel.PatchErrorsEmpty | controllers/locationController.js:71 | the update validators pass exactly when the body neither clears `userId` or `city`, nor sets `city` to an empty string, nor sets a nickname longer than 50 characters |
| LocationModel.PatchKeepsValid | controllers/locationController.js:71 | a cast patch that passes the update validators turns a valid record into a valid one |
| LocationModel.ApplyPatchKeepsValid | controllers/locationController.js:68-72 | with `runValidators: true`, a valid record stays valid after any accepted update |
| LocationModel.ApplyPatchFrame | controllers/locationController.js:66-72 | an update never changes `_id` or `createdAt`, always sets `updatedAt`, and leaves every path the body does not name as it was |
| LocationModel.PatchCanReassignOwner | controllers/locationController.js:66-70 | the body is not filtered: a body holding another valid `userId` moves the record to that owner |
| LocationModel.NicknameOnlyUpdate | server.js:215-221 | a body naming only a nickname of at most 50 trimmed characters stores the trimmed nickname and leaves city, country, coordinates, owner and favourite flag unchanged |
| LocationStore.Filter | controllers/locationController.js:49 | the filter casts the record id first and then the owner; it succeeds exactly when both are ObjectIds |
| LocationStore.OwnedBy | controllers/locationController.js:32 | a record is among the caller's records exactly when it is stored with the caller as owner |
| LocationStore.FindOwned | controllers/locationController.js:49 | `findOne({ _id, userId })` fails exactly when the filter does not cast; otherwise it returns a stored record that matches both id and owner, and returns nothing only when no stored record matches both |
| LocationStore.InsertPermutes | controllers/locationController.js:32 | inserting into the listing adds exactly the one record |
| LocationStore.InsertSorted | controllers/locationController.js:32 | inserting into a newest-first listing keeps it newest first |
| LocationStore.SortNewestFirst | controllers/locationController.js:32 | `.sort({ createdAt: -1 })` yields a permutation of its input in descending `createdAt` order |
| LocationStore.ListOwned | controllers/locationController.js:32 | listing fails exactly on an uncastable owner; otherwise it is newest first, contains exactly the caller's records with their multiplicities, and nothing of another user |
| LocationStore.LookupAmongOwned | controllers/locationController.js:49 | looking a record up among the caller's records finds what the lookup in the whole table finds |
| LocationStore.OtherOwnersInvisible | controllers/locationController.js:49-53 | two tables holding the same records for the caller give the caller the same get and list answers, so another user's record is indistinguishable from a missing one |
| LocationStore.NewestCreatedListedFirst | models/Location.js:35-37 | a record created after every stored one is listed once, at the head of its owner's list |
| LocationStore.AppendKeepsUnique | controllers/locationController.js:9 | appending a record under a fresh id keeps ids unique |
| LocationStore.RemoveKeepsUnique | controllers/locationController.js:93 | removing one record keeps ids unique and keeps only stored records |
| LocationStore.RemoveLeavesNoMatch | controllers/locationController.js:93 | after removing the matched record nothing matches the same id and owner |
| LocationStore.LocationTable.constructor | models/Location.js:39 | an empty collection is valid |
| LocationStore.LocationTable.Create | controllers/locationController.js:9-17 | a failed build or a taken id writes nothing; otherwise exactly the built record is appended and returned; the collection stays valid |
| LocationStore.LocationTable.Update | controllers/locationController.js:68-72 | cast and validation errors come before any lookup and write nothing; no match returns nothing and writes nothing; a match replaces only that record by its patched version and returns that updated version; it succeeds exactly when the filter and the patch check pass |
| LocationStore.LocationTable.Delete | controllers/locationController.js:93 | removes only the matched record and returns it, or returns nothing and writes nothing; afterwards nothing matches |
| LocationController.CreateLocation | controllers/locationController.js:4-26 | the record is owned by the caller, equals the body's document, and is appended; a missing user or a store failure is forwarded and writes nothing |
| LocationController.GetAllLocations | controllers/locationController.js:29-41 | the reply lists exactly the caller's records, newest first, with `count` equal to the list length |
| LocationController.GetLocation | controllers/locationController.js:44-59 | a record is returned only if both id and owner match; otherwise the reply is "Location not found" |
| LocationController.UpdateLocation | controllers/locationController.js:62-85 | an update happens exactly when there is a caller, the filter casts, the patch checks and a record matches; only that record changes and the reply carries its updated version; a cast or validation failure is forwarded; no match gives 404; nothing else writes |
| LocationController.DeleteLocation | controllers/locationController.js:88-103 | a delete happens exactly when there is a caller, the filter casts and a record matches; only that record is removed; a cast failure is forwarded; no match gives 404; afterwards the same get gives 404 |
| LocationController.DeleteTwice | controllers/locationController.js:93-97 | the first delete succeeds exactly when a record matched; repeating a delete that succeeded or found nothing gives 404; the second never deletes; the collection ends as the old one less the matched record, or unchanged |
| Users.TokensIdentifyUsers | server.js:57-59 | a token's payload reads back as the user id it was signed for, so two equal tokens name the same user |
| Users.PublicIgnoresPassword | controllers/userController.js:39-46 | two public views are equal exactly when id, name and email agree, so the password never shows in a reply |
| Users.Hash | server.js:34-37 | `bcrypt.hash(password, 12)`: a hash records the cost 12 and the salt drawn (both password hashers of the source use cost 12) |
| Users.FindByEmail | server.js:74 | finds a stored user with exactly that e-mail, and finds none only when no user has it |
| Users.FindByEmailAppend | server.js:74-79 | a user added under an e-mail nobody had is the one found by that e-mail |
| Users.FindById | controllers/userController.js:7 | a malformed id is a cast error; otherwise the stored user with that id, or nothing when no user has it |
| Users.ProfileOf | controllers/userController.js:7 | the profile is the public part of the user with that id, with no password field |
| Users.ProfileIgnoresPasswords | controllers/userController.js:7 | collections differing only in password hashes give the same profile for every id |
| Users.UserTable.constructor | server.js:78 | an empty collection is valid |
| Users.UserTable.Insert | server.js:78-79 | the user is appended exactly when its id is not taken; otherwise a duplicate key and no write |
| Users.UserTable.UpdateProfile | controllers/userController.js:25-37 | an unknown user writes nothing; the save succeeds exactly when name and email cast to strings (a boolean becomes its text) and the password is falsy or a string; then a truthy name or email replaces the stored one, a truthy password is stored as a cost-12 hash of itself, falsy fields change nothing, and only that user's record changes |
| UserController.GetProfile | controllers/userController.js:5-17 | the reply is the caller's public profile, or 404 when no user has the caller's id; errors are forwarded |
| UserController.UpdateProfile | controllers/userController.js:20-50 | an unknown user gives 404 and no write; for a known user the update happens exactly when every field casts; it applies the truthy fields, re-hashes a truthy password, and replies with id, name and email only; failures are forwarded and write nothing |
| Weather.CityGiven | controllers/weatherController.js:8 | `if (!city)`: an absent query or empty text is falsy; a repeated key or a bracketed key is always truthy |
| Weather.CityText | controllers/weatherController.js:13 | the text `${city}` gives: the text itself, a repeated key joined with commas, "undefined" when absent, "[object Object]" for a bracketed key |
| Weather.Url | controllers/weatherController.js:13 | the provider URL: the endpoint's prefix, the city as given, the key part and the units parameter |
| Weather.UrlParts | controllers/weatherController.js:13 | the URL is the fixed prefix, then the city unencoded, then the `&appid=` key part, ending in `&units=metric` |
| Weather.UrlCarriesCity | controllers/weatherController.js:13 | the `q` parameter reads back as the city whenever the city holds no '&' |
| Weather.Classify | controllers/weatherController.js:33-38 | a provider 404 and only a 404 is "City not found"; delivered data that shapes is the response; everything else takes the generic path |
| Weather.Handle | controllers/weatherController.js:6-16 | a missing or empty city gives "City parameter is required"; otherwise the outcome is the classification of the one fetch of the built URL |
| Weather.HandleConsultsOnlyItsUrl | controllers/weatherController.js:8-10 | without a city the provider is never consulted; with one, only its answer for the built URL matters |
| Weather.ShapeCurrent | controllers/weatherController.js:18-32 | the snapshot copies city from `name`, country from `sys`, the readings from `main`, description and icon from `weather[0]`, wind speed and coordinates; a payload missing `sys`, `main`, `wind`, `coord` or `weather[0]` fails |
| Weather.CurrentReadsFirstCondition | controllers/weatherController.js:25-26 | conditions after the first do not change the snapshot |
| Weather.ShapeItem | controllers/weatherController.js:57-64 | an entry copies date, temperature, description, icon, humidity and wind speed from its item |
| Weather.ShapeItems | controllers/weatherController.js:57-64 | the forecast has one entry per provider item, its i-th entry built from the i-th item; one malformed item fails the whole list |
| Weather.ShapeItemsAppend | controllers/weatherController.js:57-64 | reshaping distributes over concatenation, so the provider's order is the response's order |
| Weather.ShapeForecast | controllers/weatherController.js:66-70 | the forecast's city and country come from `data.city`, its entries from `data.list` |
| Weather.CurrentWeather | controllers/weatherController.js:4-32 | a missing city is rejected before any fetch; a shaped snapshot comes from data delivered for the built `weather` URL |
| Weather.ForecastWeather | controllers/weatherController.js:42-70 | a missing city is rejected before any fetch; a shaped forecast has as many entries as the delivered `list`, the i-th from the i-th item |
| WeatherController.Answer | controllers/weatherController.js:33-38 | a missing city is a 400, a provider 404 is a 404 "City not found", shaped data is a 200, and every other failure is handed to `next` |
| WeatherController.GetCurrentWeather | controllers/weatherController.js:4-39 | 400 exactly without a city; 404 exactly on the provider's 404 for the built URL; a forwarded error never comes from a 404 |
| WeatherController.GetForecast | controllers/weatherController.js:42-77 | 400 exactly without a city; 404 exactly on the provider's 404 for the built URL; a forwarded error never comes from a 404 |
| Server.Register | server.js:66-91 | validation first, then the regex with 400 "incorrect email form", then the duplicate check with 409 "Email exists", all before any hashing or write; registration succeeds exactly when the body passes all three checks and the driver's id is not taken; success appends exactly the new user with the hashed password and replies with a token and the public user |
| Server.Login | server.js:94-113 | the one reply "Invalid credentials" is given exactly when the e-mail is unknown or the password does not match; a login replies with a token for the user the e-mail lookup found, and that user's public part |
| Server.RegisterThenLogin | server.js:66-113 | a registration that passes validation and the regex, under an unused e-mail and a fresh id, succeeds; after a successful registration, which appends exactly the new user, logging in with a body of just that e-mail and password logs in as the new user; a failed registration leaves the collection as it was |
| Server.GetProfile | server.js:118-126 | the reply is the public profile of the user with that id, 404 when none has it, 400 on a malformed id |
| Server.UpdateProfile | server.js:129-151 | a malformed id is a 400; a missing user gives 404 and no write; for a known user the update happens exactly when every field casts; truthy fields are applied, a truthy password is re-hashed, and the reply has no password |
| Server.CreateLocation | server.js:156-179 | with `Location` bound to the model: a body the location validator rejects gets 400 with the details and no write; otherwise the record owned by `req.userId` is appended and returned with 201 |
| Server.ListLocations | server.js:182-193 | with `Location` bound to the model: exactly the caller's records, newest first, with `count` equal to the list length |
| Server.GetLocation | server.js:196-208 | with `Location` bound to the model: a record is returned only if id and owner both match, otherwise "Location not found" |
| Server.UpdateLocation | server.js:211-232 | with `Location` bound to the model: no validator runs; an update happens exactly when the filter casts, the patch checks and a record matches; a cast or validation failure is a 400; only the matched record changes, replaced by its patched version, which is returned; no match gives 404 and no write |
| Server.DeleteLocation | server.js:235-247 | with `Location` bound to the model: a malformed id or owner is a 400 exactly; only the matched record is removed; 404 exactly when nothing matches; afterwards the same get gives 404 |
| Server.LocationRouteAsWritten | server.js:17 | as written, every location route answers 400; only creation answers with the validator's details when the validator rejects, all other requests get the error of the unbound `Location`, and no route reads or writes the collection |
| Server.ParisPassesValidator | server.js:156 | the body `{ "city": "Paris" }` passes the location validator |
| Server.ParisIsValidRecord | server.js:161-169 | that body, posted by a user with a well-formed id, describes a valid document |
| Server.CreateAsWrittenDiffers | server.js:156-179 | a create that the bound route stores gets a 400 as written; the table ends with the record that the bound route appended |
| Server.ListAsWrittenDiffers | server.js:182-193 | a list that the bound route answers gets a 400 as written |
| Server.GetAsWrittenDiffers | server.js:196-208 | a lookup that the bound route answers with the record or a 404 gets a 400 as written |
| Server.UpdateAsWrittenDiffers | server.js:211-232 | an update that the bound route applies gets a 400 as written; the table ends with the record that the bound route patched |
| Server.DeleteAsWrittenDiffers | server.js:235-247 | a delete that the bound route performs gets a 400 as written; the table ends without the record that the bound route removed |
| Server.WeatherAnswer | server.js:276-281 | a provider 404 is a 404; every other failure is a 400 with the error's message |
| Server.CurrentWeather | server.js:252-282 | 400 "City parameter is required" exactly without a city; 404 "City not found" exactly on the provider's 404 for the built URL |
| Server.Forecast | server.js:285-314 | 400 "City parameter is required" exactly without a city; 404 "City not found" exactly on the provider's 404 for the built URL |
| Server.WeatherCopiesAgree | server.js:276-281 | the server's and the controller's weather answers differ exactly on the generic failure |

## Left out

- Type coercion, in part. Modelled: Joi's boolean texts "true"/"false"; Mongoose's boolean texts true/1/yes/false/0/no and numbers 1/0 on the Boolean path; Mongoose's cast of a boolean to "true"/"false" on a String path and to 1/0 on a Number path, and of "" to null on a Number path. Joi's `string()` rejects a number, and the model rejects it too. Not modelled: Mongoose's cast of a number to a string on a String path, Joi's and Mongoose's casts of numeric strings to numbers, and Mongoose's cast of a blank string to 0. Such a value counts as rejected by Joi and as uncastable by Mongoose.
- Unknown body keys. Joi rejects a body with a key outside its schema; the model's validators look only at the schema's keys and accept such a body. The validator lemmas' "exactly when" holds for bodies with no keys outside the schema.
- Joi's own e-mail grammar is the parameter `isEmail`, not a re-implementation.
- Joi's `number.unsafe` check is not modelled.
- Nested objects and arrays as body values: a body field is a string, number, boolean, null or absent.
- Mongoose operators in an update body are not modelled. This covers `$set`, `$unset` and the like, as well as an `_id` key; the update is a plain field assignment.
- ObjectIds are represented by their 24-digit text. The 12-byte binary form and the casting of 12-character strings are not modelled.
- Error message texts of Mongoose and of thrown errors are not modelled; errors are datatypes.
- Strings are sequences of code points. JavaScript counts `length` in UTF-16 code units, so lengths of text outside the Basic Multilingual Plane differ.
- `LocationModel.Location` stores an absent field and a null field alike as `None`.
- The User model (`models/User.js`) is not part of this model. `server.js:16` destructures `{ User }` from it and controllers/userController.js:1 takes its default export; the model assumes both reach a working User model, since the file that would decide which one fails is not available. Beyond that:
  - its validators and any unique e-mail index are not modelled;
  - the model claims no e-mail uniqueness after a profile edit.
- bcrypt's 72-byte input limit and `compare` throwing on a malformed hash are not modelled. Hashing is an opaque digest with the cost 12 and a caller-supplied salt.
- `jsonwebtoken` signing is an opaque value built from the id and the lifetime. `jwt.sign` also records the issue time (`iat`, from which `exp` follows); the model has no clock there, so its tokens for one user are all equal, and no member claims that of the program.
- LocationModel.CheckPatch: when several paths of an update body fail to cast, the model reports the first in schema order. Mongoose reports the first in the body's key order; a body here is a map with no key order.
- The authentication middleware (`middleware/auth.js`) is not part of this model. `server.js` handlers take `req.userId` as a given string; the controllers take `req.user` as an optional value.
- `middleware/errorHandler.js` is not part of this model. A forwarded error stays a `Forwarded` reply.
- Left out as I/O and wiring with no logic of their own:
  - asynchronous execution;
  - the MongoDB connection (`config/db.js`);
  - Express and CORS setup, the health route and process bootstrap;
  - the browser code (`public/app.js`).
- Route wiring appears only in two facts:
  - `server.js` creation runs the location validator, and an update runs none;
  - the controller's `createLocation` does not validate on its own, since its route adds the validator (routes/locationRoutes.js:10).
- Requests are sequential operations on the collections. There is no concurrency.
- LocationStore.SortNewestFirst: records with equal `createdAt` keep their collection order. MongoDB leaves that order unspecified, so the model picks one admissible order.
- Weather.UrlParts: the city is not percent-encoded, as in the source. The model does not say how the provider parses a city containing '&', '#' or spaces.
- Weather.ShapeItems and Weather.ShapeCurrent: a provider payload missing a nested object makes the reshaping fail. JavaScript throws a TypeError there; the model returns `None`, which takes the generic failure path.
- Server.Register: save failures other than a duplicate `_id` are not modelled, since they come from the unseen User model.
- Server.Login: a throw from bcrypt's `compare` is not modelled. The comparison is the total relation `Bcrypt.matches`.
- Users.UserTable.UpdateProfile: a new e-mail is not checked against other users, and the model does not claim it is.

## Findings

| source | as written | input that shows it | evidently intended | confidence | as-written member | corrected member |
|---|---|---|---|---|---|---|
| server.js:17 | `const { Location } = require('./models/Location')` destructures a property that the export of models/Location.js:43 (the model itself) lacks, so `Location` is `undefined` and every location route throws a TypeError caught as 400 | an authenticated user with a well-formed id posts `{ "city": "Paris" }` to `/api/locations` | `const Location = require('./models/Location')`, so the five routes use the model | not executed | Server.LocationRouteAsWritten, with Server.ParisPassesValidator, Server.ParisIsValidRecord and Server.CreateAsWrittenDiffers, ListAsWrittenDiffers, GetAsWrittenDiffers, UpdateAsWrittenDiffers, DeleteAsWrittenDiffers | Server.CreateLocation, Server.ListLocations, Server.GetLocation, Server.UpdateLocation, Server.DeleteLocation |
