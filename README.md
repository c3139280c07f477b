# Restaurant registration, modelled in Dafny

The application lets a restaurant owner register a restaurant. It has three
parts, and the model covers each of them:

- **The browser form.** `app/register/page.jsx` keeps the form state. It
  checks each field with `validate`, refuses a logo whose MIME type is not
  an image the page accepts, and posts a `multipart/form-data` body built
  field by field.
- **The endpoint.** `app/api/resturants/route.js` (`POST`) reads that body
  and checks the logo's file extension. It then generates a restaurant id
  from the city, the category and a count of the existing ids with that
  prefix, builds the document and saves it. Each error becomes a 400 or
  500 JSON reply.
- **The schema.** `backend/models/resturant.js` defines the Mongoose
  schema: the required fields, the validators on the contact person,
  phone, email, website and licence number, the `status` enum with its
  default, and the unique `restaurantId`.

The modules are:

- `Ascii`: character classes, case mapping and trimming.
- `Patterns`: letter runs and ten/fourteen-digit strings.
- `ClientPatterns`: the regular expressions used only by the page.
- `Multipart`: a `FormData` object, with `get` and `getAll`.
- `RestaurantModel`: the schema, its validators and the collection, as a
  class `Store`.
- `RestaurantIds`: id generation.
- `RegistrationEndpoint`: the `POST` handler.
- `RegistrationPage`: `validate`.
- `FormPayload`: the body the page posts.
- `RegisterComponent`: the page's state and handlers, as a class
  `RegisterForm`.
- `PostedBody` and `Agreement`: what the endpoint reads from the posted
  body, and how the page's checks and the schema's compare.

Every regular expression in the source is written out as a predicate over
ASCII strings. Where a predicate reads differently from the expression, a
lemma proves that the two readings agree.

## Model

| member | source | states |
|---|---|---|
| RestaurantModel.CheckRequired | backend/models/resturant.js:5 | A required path gives no error exactly when the value is a non-empty string. |
| RestaurantModel.CheckContactPerson | backend/models/resturant.js:8-18 | No error exactly when the contact person is present and, once trimmed, is words of letters separated by single spaces. |
| RestaurantModel.ContactNameIff | backend/models/resturant.js:13 | The schema's letter-run regular expression and the single-spaced-words reading accept the same trimmed strings. |
| RestaurantModel.CheckPhone | backend/models/resturant.js:21-30 | No error exactly when the phone is present and is exactly ten digits. |
| RestaurantModel.CheckEmail | backend/models/resturant.js:32-40 | No error exactly when the email is absent, or has one `@` with a non-empty part before it and a dotted domain after it. |
| RestaurantModel.EmailPatternIff | backend/models/resturant.js:36 | The email regular expression accepts exactly the strings with one `@` and a dotted domain. |
| RestaurantModel.EmailPattern | backend/models/resturant.js:36 | The schema's email regular expression `^[^\s@]+@[^\s@]+\.[^\s@]+$`, written out; `EmailPatternIff` gives its meaning. |
| RestaurantModel.CheckWebsite | backend/models/resturant.js:50-59 | No error exactly when the website is absent, empty, or matches the `www.` host pattern. |
| RestaurantModel.WebsitePattern | backend/models/resturant.js:54 | The website regular expression, written out; `WebsiteShape` and `WebsiteExamples` state what it accepts. |
| RestaurantModel.WebsiteShape | backend/models/resturant.js:54 | An accepted website starts with `www.`, ends in a lower-case letter, and holds only letters, digits, `-` and `.`. |
| RestaurantModel.WebsiteExamples | backend/models/resturant.js:54 | `www.example.com` and `www.my-shop.co.in` are accepted; `example.com` and `www.example.c` are refused. |
| RestaurantModel.CheckLicense | backend/models/resturant.js:63-72 | No error exactly when the licence number is absent, empty, null or exactly fourteen digits. |
| RestaurantModel.CheckStatus | backend/models/resturant.js:75-79 | No error exactly when the status is not text, or is `Active` or `Inactive`. |
| RestaurantModel.Errors | backend/models/resturant.js:1-87 | Every validation error names one of the validated paths. |
| RestaurantModel.ErrorsEmptyIff | backend/models/resturant.js:1-87 | A document has no validation errors exactly when it conforms to every rule of the schema. |
| RestaurantModel.WithDefaults | backend/models/resturant.js:75-79 | Applying the defaults changes only `status`, and only when it is undefined. |
| RestaurantModel.StatusRule | backend/models/resturant.js:75-79 | A missing status becomes `Active` and then passes the enum; a given status passes exactly when it is one of the two values. |
| RestaurantModel.CountPrefixed | app/api/resturants/route.js:46-48 | The count is zero exactly when no id starts with the prefix, and equals the number of ids exactly when all of them do. |
| RestaurantModel.CountIsCardinality | app/api/resturants/route.js:46-48 | The count is the number of ids that start with the prefix. |
| RestaurantModel.CountAppend | app/api/resturants/route.js:46-48 | Appending an id adds one to the count exactly when that id starts with the prefix. |
| RestaurantModel.Store.CountDocuments | app/api/resturants/route.js:46-48 | `countDocuments` with a prefix query is zero exactly when no stored id starts with the prefix. |
| RestaurantModel.Store.Save | backend/models/resturant.js:82 | Save validates, then refuses an id that is already stored, then appends; the stored ids stay unique, and a refused save leaves the collection unchanged. |
| RestaurantIds.Code | app/api/resturants/route.js:41-42 | The code is the first three characters of the text, upper-cased; a missing value gives the empty code. |
| RestaurantIds.Prefix | app/api/resturants/route.js:41-45 | The city code followed by the category code; its instances are stated by `KochiRestaurantPrefix` and `MissingCity`. |
| RestaurantIds.Decimal | app/api/resturants/route.js:51 | `String(n)`: all digits, reading back as `n`, with a leading zero only for zero. |
| RestaurantIds.PadStart | app/api/resturants/route.js:51 | `padStart(width, "0")`: the string keeps its digits at the end, is at least `width` long, and is preceded only by zeros. |
| RestaurantIds.Sequence | app/api/resturants/route.js:51 | The sequence is the decimal of count + 1, zero-padded to seven digits, and is exactly seven long while the count stays below 9,999,999. |
| RestaurantIds.SequenceInjective | app/api/resturants/route.js:51 | Different counts give different sequence strings. |
| RestaurantIds.NewId | app/api/resturants/route.js:41-52 | The id is the city/category prefix followed by the sequence for the number of existing ids with that prefix. |
| RestaurantIds.FirstSequence | app/api/resturants/route.js:51 | The first sequence is `0000001`. |
| RestaurantIds.KochiRestaurantPrefix | app/api/resturants/route.js:41-45 | City `Kochi` with category `Restaurant` gives the prefix `KOCRES`. |
| RestaurantIds.KochiRestaurantFirst | app/api/resturants/route.js:41-52 | The first Kochi restaurant gets `KOCRES0000001`. |
| RestaurantIds.KochiRestaurantFourth | app/api/resturants/route.js:41-52 | After three `KOCRES` ids and one from another prefix, the next Kochi restaurant gets `KOCRES0000004`. |
| RestaurantIds.MissingCity | app/api/resturants/route.js:41-52 | Without a city, the id is built from the category code alone. |
| RestaurantIds.NewIdFresh | app/api/resturants/route.js:41-52 | Over ids that were all issued this way, and with a prefix that holds no digit, the new id is not yet taken and the extended list is still well issued. |
| RegistrationEndpoint.ExtensionRule | app/api/resturants/route.js:19-20 | The extension holds no dot; it is the whole lower-cased name when the name has no dot, and otherwise the lower-cased text after the last dot. |
| RegistrationEndpoint.AfterLastDotSuffix | app/api/resturants/route.js:20 | `split(".").pop()` returns a dot-free suffix of the name that is preceded by a dot, unless it is the whole name. |
| RegistrationEndpoint.AfterLastDotOf | app/api/resturants/route.js:20 | For a stem and a dot-free extension, the text after the last dot of `stem.ext` is the extension. |
| RegistrationEndpoint.UpperCaseExtension | app/api/resturants/route.js:20-22 | `logo.PNG` passes the extension check. |
| RegistrationEndpoint.GifRejected | app/api/resturants/route.js:21-26 | `logo.gif` fails the extension check. |
| RegistrationEndpoint.DoubleExtensionRejected | app/api/resturants/route.js:20-26 | `logo.png.exe` fails, because only the last extension counts. |
| RegistrationEndpoint.Extension | app/api/resturants/route.js:20 | `split(".").pop().toLowerCase()`; `ExtensionRule` states what it returns. |
| RegistrationEndpoint.Field | app/api/resturants/route.js:13 | A field of `Object.fromEntries`: the last string entry under the key, or undefined. |
| RegistrationEndpoint.Texts | app/api/resturants/route.js:14 | The cuisine list is no longer than the parts read, and is exactly the parts' texts when all of them are text. |
| RegistrationEndpoint.NamedLogo | app/api/resturants/route.js:15-19 | The endpoint handles a logo only when the body's `logo` entry is a file with a non-empty name. |
| RegistrationEndpoint.Parse | app/api/resturants/route.js:12-15 | Each field is read from the body's entries, the cuisines come from `getAll("cuisineTypes[]")`, and the logo from `get("logo")`. |
| RegistrationEndpoint.Document | app/api/resturants/route.js:54-76 | The document carries the submitted fields, the generated id and the logo URL; a missing status becomes `Active`. |
| RegistrationEndpoint.LogoUrl | app/api/resturants/route.js:17-37 | The logo URL is "" without a named logo and `/uploads/` plus the file's name with one; `SuccessStoresDocument` states it of the stored document. |
| RegistrationEndpoint.Persist | app/api/resturants/route.js:78-91 | Saving maps a validation failure to 400 with the first message, a duplicate id to 500, and success to 200 with the document appended; `PersistFresh` and `ValidationErrorIs400` state the cases. |
| RegistrationEndpoint.Handle | app/api/resturants/route.js:19-91 | The handler's branches after parsing: the extension check, the write failure, then the save; `HandleShape` states every reply it can give. |
| RegistrationEndpoint.Post | app/api/resturants/route.js:8-93 | The handler's reply and the new collection are those of `Handle` on the parsed body and the old collection. |
| RegistrationEndpoint.GenerateId | app/api/resturants/route.js:41-52 | The generated id is `NewId` of the submitted city and category over the stored ids. |
| RegistrationEndpoint.Register | app/api/resturants/route.js:41-91 | Generating the id, building the document and saving it give the reply and collection of `Persist`. |
| RegistrationEndpoint.HandleShape | app/api/resturants/route.js:19-91 | Every reply is one of three. A 200 carries the success message. A 400 carries the logo message or the first validation error's message. A 500 carries `Error registering restaurant` with the write failure or the duplicate-key message as its detail. The collection grows by the built document exactly on 200. |
| RegistrationEndpoint.BadLogoRejected | app/api/resturants/route.js:19-26 | A named logo with a refused extension gives 400 with the extension message and stores nothing. |
| RegistrationEndpoint.SuccessStoresDocument | app/api/resturants/route.js:54-79 | A 200 reply means the built document conforms, its id was free, and it was appended to the collection. |
| RegistrationEndpoint.ValidationErrorIs400 | app/api/resturants/route.js:83-85 | A document that fails validation gives 400 with the message of the first validation error. |
| RegistrationEndpoint.RequiredFieldsMissing | backend/models/resturant.js:5-44 | A submission without a name, address or city is never stored. |
| RegistrationEndpoint.PastLogoStep | app/api/resturants/route.js:28-79 | Once the logo step passes, the handler saves the document built with the generated id. |
| RegistrationEndpoint.PersistFresh | app/api/resturants/route.js:78-79 | A conforming document with a free id is saved, with reply 200. |
| RegistrationEndpoint.SequentialRegistrationsSucceed | app/api/resturants/route.js:41-79 | Over a well-issued collection, a conforming submission is stored with 200, and the collection stays well issued. |
| Multipart.FormData.Append | app/register/page.jsx:179-186 | `append` adds one entry at the end. |
| Multipart.GetAll | app/api/resturants/route.js:14 | `getAll`: the parts under the key, in order, never more than the entries; `GetAllMembers` states its contents. |
| Multipart.Get | app/api/resturants/route.js:15 | `get`: the first part under the key; `GetIsFirst` states it. |
| Multipart.Last | app/api/resturants/route.js:13 | The value `Object.fromEntries` keeps for a key; `LastIsLast` states it. |
| Multipart.GetIsFirst | app/api/resturants/route.js:15 | `get` returns the first entry under the key, or nothing when there is none. |
| Multipart.LastIsLast | app/api/resturants/route.js:13 | `Object.fromEntries` keeps the last entry under a key, or nothing when there is none. |
| Multipart.GetAllMembers | app/api/resturants/route.js:14 | `getAll` returns exactly the parts stored under the key. |
| Multipart.GetAllIndex | app/api/resturants/route.js:14 | Two entries under one key make `getAll` return at least two parts. |
| Multipart.GetLastAgree | app/api/resturants/route.js:13-15 | When a key has exactly one entry, `get` and `fromEntries` agree on it. |
| ClientPatterns.ClientEmailIff | app/register/page.jsx:69 | The page's email pattern accepts exactly the strings with no whitespace, an `@` after at least one character, and a later `.` that is neither right after the `@` nor at the end. |
| ClientPatterns.PincodePattern | app/register/page.jsx:72 | `^\d{5,6}$`: five or six digits. |
| ClientPatterns.DescriptionPattern | app/register/page.jsx:95 | At least three characters, each a letter, a digit, whitespace or one of `.,!?()'-`. |
| ClientPatterns.GstPattern | app/register/page.jsx:103 | The GST regular expression, position by position; `GstAlphanumeric` and `GstExamples` state what it accepts. |
| ClientPatterns.HoursPattern | app/register/page.jsx:91 | The opening-hours regular expression; `HourTextIff` and `MinuteTextIff` give the meaning of its parts. |
| ClientPatterns.CoordinatesPattern | app/register/page.jsx:87 | The coordinates regular expression; `LatitudeRange` and `LongitudeRange` bound what it accepts. |
| ClientPatterns.GstAlphanumeric | app/register/page.jsx:103-105 | An accepted GST number is fifteen upper-case letters and digits, with `Z` in the fourteenth place. |
| ClientPatterns.GstExamples | app/register/page.jsx:103-105 | `22AAAAA0000A1Z5` is accepted; the same number with `Y` in place of `Z`, or in lower case, is not. |
| ClientPatterns.HourTextIff | app/register/page.jsx:91-93 | The hour of the opening-hours pattern is one or two digits denoting 1 to 12. |
| ClientPatterns.MinuteTextIff | app/register/page.jsx:91-93 | The minutes are two digits denoting 0 to 59. |
| ClientPatterns.HoursAccepted | app/register/page.jsx:91-93 | `09:30 am` and `12:00PM` are accepted. |
| ClientPatterns.HoursRejected | app/register/page.jsx:91-93 | `13:00 PM` and `9:60 AM` are refused. |
| ClientPatterns.LatitudeRange | app/register/page.jsx:87-89 | An accepted latitude has a whole part of at most 90. |
| ClientPatterns.LongitudeRange | app/register/page.jsx:87-89 | An accepted longitude has a whole part of at most 180. |
| ClientPatterns.CoordinatesExample | app/register/page.jsx:87-89 | `9.93, 76.26` is accepted. |
| RegistrationPage.Validate | app/register/page.jsx:64-108 | `validate` returns the error object of `ClientErrors`. |
| RegistrationPage.ClientErrors | app/register/page.jsx:64-108 | The object `validate` returns; `ClientErrorsEmptyIff` and the field lemmas below state its contents. |
| RegistrationPage.LicenseRecheckChangesNothing | app/register/page.jsx:99-101 | Applying the licence rule a second time after `description` leaves the error object as after the first pass. |
| RegistrationPage.CollectReports | app/register/page.jsx:64-108 | The object built statement by statement equals the one that holds each key's outcome. |
| RegistrationPage.ReportedKeys | app/register/page.jsx:64-108 | Only the keys `validate` checks can hold a message. |
| RegistrationPage.ReportedEmptyIff | app/register/page.jsx:64-108 | The object is empty exactly when no rule fired. |
| RegistrationPage.RequiredFields | app/register/page.jsx:66-75 | Name, city, state and country get their "required" message exactly when blank after trimming; the category gets its message exactly when empty. |
| RegistrationPage.AddressRule | app/register/page.jsx:70-71 | The address gets "required" exactly when blank, "too short" exactly when not blank but under five characters before trimming, and nothing otherwise. |
| RegistrationPage.FormatFields | app/register/page.jsx:68-72 | Phone, email and pincode get their message exactly when they fail their pattern, including when empty. |
| RegistrationPage.ContactRule | app/register/page.jsx:80-85 | The contact person gets "required" exactly when blank, "invalid" exactly when not blank and not single-spaced letter words once trimmed, and nothing otherwise. |
| RegistrationPage.OptionalFields | app/register/page.jsx:77-89 | The licence number and coordinates get no message when empty, and otherwise get one exactly when they fail their pattern. |
| RegistrationPage.OptionalPatterns | app/register/page.jsx:91-105 | Hours, description and GST number get no message when empty, and otherwise get one exactly when they fail their pattern. |
| RegistrationPage.UncheckedFields | app/register/page.jsx:64-108 | Cuisine types, website, social links, status and the logo never receive a message. |
| RegistrationPage.CleanIff | app/register/page.jsx:64-108 | No rule fires exactly when the form satisfies every rule. |
| RegistrationPage.ClientErrorsEmptyIff | app/register/page.jsx:64-108 | `validate` returns an empty object exactly when the form satisfies every rule. |
| FormPayload.CuisineEntries | app/register/page.jsx:181-182 | One `cuisineTypes[]` entry per cuisine, in order. |
| FormPayload.AppendCuisines | app/register/page.jsx:181-182 | The inner loop appends exactly the cuisine entries. |
| FormPayload.BuildPayload | app/register/page.jsx:179-186 | The loop over the form's keys builds exactly `Payload` of the form. |
| FormPayload.Payload | app/register/page.jsx:179-186 | The body the submit loop builds; `PayloadFields` and `PayloadCuisinesNoPreview` state its contents. |
| FormPayload.PayloadFields | app/register/page.jsx:179-186 | Every key other than `cuisineTypes` and `logoPreview` has exactly one entry in the body. |
| FormPayload.PayloadCuisinesNoPreview | app/register/page.jsx:179-186 | The body's `cuisineTypes[]` entries are the cuisines in order, and `logoPreview` has no entry. |
| FormPayload.FormKeysDistinct | app/register/page.jsx:17-39 | The form's keys are distinct and include every field. |
| FormPayload.KeyNameInjective | app/register/page.jsx:17-39 | Different fields have different key names, and none of them is `cuisineTypes[]`. |
| RegisterComponent.WithLogo | app/register/page.jsx:126 | Setting the logo changes the logo and its preview. |
| RegisterComponent.AcceptedMime | app/register/page.jsx:117-118 | The page accepts `image/png`, `image/jpeg` and `image/jpg` only. |
| RegisterComponent.ReplyMessage | app/register/page.jsx:189-204 | A success reply shows the success message; a failure shows the server's error, or the fallback when it has none; an unreadable reply shows the unexpected-error message. |
| RegisterComponent.RegisterForm.constructor | app/register/page.jsx:17-42 | The page starts with the initial form, no errors and no message. |
| RegisterComponent.RegisterForm.ChooseLogo | app/register/page.jsx:111-127 | No file changes nothing; a file of a refused MIME type sets the error message and leaves the form; an accepted one stores the file and its preview URL. |
| RegisterComponent.RegisterForm.UploadLogo | app/register/page.jsx:457-470 | The drop-zone upload applies the same MIME rule as the file input. |
| RegisterComponent.RegisterForm.Submit | app/register/page.jsx:161-186 | The errors become those of `validate`; a body is produced exactly when there are none, and then it is `Payload` of the form with the submitting message; otherwise the page asks for the required fields. |
| RegisterComponent.RegisterForm.Respond | app/register/page.jsx:189-204 | The message becomes the reply's message, and the form and errors are unchanged. |
| RegisterComponent.LogoNeverValidated | app/register/page.jsx:64-127 | Changing the logo never changes what `validate` reports. |
| RegisterComponent.LogoOnlyChangesLogoEntry | app/register/page.jsx:179-186 | Changing the logo leaves every other key's entries in the body unchanged. |
| PostedBody.FieldOfPayload | app/register/page.jsx:179-186 | The endpoint reads back a text field exactly as the form held it. |
| PostedBody.CuisinesOfPayload | app/api/resturants/route.js:14 | The endpoint reads back the form's cuisines in order. |
| PostedBody.LogoOfPayload | app/api/resturants/route.js:15-19 | The endpoint sees the form's logo exactly when it is a file with a name. |
| PostedBody.NameFieldsArrive | app/api/resturants/route.js:13 | Name, category and contact person arrive as typed. |
| PostedBody.ContactFieldsArrive | app/api/resturants/route.js:13 | Phone, email and address arrive as typed. |
| PostedBody.PlaceFieldsArrive | app/api/resturants/route.js:13 | Pincode, city and state arrive as typed. |
| PostedBody.RegionFieldsArrive | app/api/resturants/route.js:13 | Country, coordinates and hours arrive as typed. |
| PostedBody.ProfileFieldsArrive | app/api/resturants/route.js:13 | Website, social links and description arrive as typed. |
| PostedBody.RegistrationFieldsArrive | app/api/resturants/route.js:13 | Licence number, GST number and status arrive as typed. |
| Agreement.ContactPersonAgrees | app/register/page.jsx:80-85 | The page accepts exactly the contact persons the schema accepts. |
| Agreement.PhoneAgrees | app/register/page.jsx:68 | The page and the schema accept the same phones: exactly ten digits. |
| Agreement.LicenseAgrees | app/register/page.jsx:77-79 | The page and the schema accept the same licence numbers: empty or exactly fourteen digits. |
| Agreement.ServerEmailIsClientEmail | backend/models/resturant.js:36 | Every email the schema accepts, the page accepts too. |
| Agreement.TwoAtSignsPassOnlyThePage | app/register/page.jsx:69 | `a@b@c.d` passes the page and fails the schema. |
| Agreement.BlankNamePassesOnlyTheServer | app/register/page.jsx:66 | A name of spaces only is refused by the page and accepted by the schema. |
| Agreement.WebsiteOnlyCheckedByTheServer | backend/models/resturant.js:54 | The page never checks the website, and the schema refuses `example.com`. |
| Agreement.LogoChecksDiffer | app/register/page.jsx:115-124 | The page judges a logo by MIME type and the endpoint by extension: a GIF named `.png` passes only the endpoint, and a PNG named `.gif` passes only the page. |
| Agreement.ParseReadsBack | app/api/resturants/route.js:12-15 | A body carrying the form's fields, cuisines and named logo parses to what the form submits. |
| Agreement.PayloadRoundTrip | app/register/page.jsx:179-186 | Parsing the body the page posts gives back the form's fields, cuisines and named logo. |
| Agreement.AcceptedFormConforms | app/api/resturants/route.js:54-76 | A form the page accepts, which also meets the schema's email, website and status rules, becomes a conforming document. |
| Agreement.ReplyOf | app/register/page.jsx:194-199 | The page reads `ok` exactly for a 2xx status, and an `error` exactly when the body is not the success message. |
| Agreement.SuccessShownOnlyOn200 | app/register/page.jsx:195-199 | The page shows its success message for the endpoint's reply exactly when the endpoint answered 200; every refusal is shown as a failure. |
| Agreement.AcceptedFormRegisters | app/api/resturants/route.js:41-79 | Over a well-issued collection, such a form is stored with reply 200, and the page shows the success message for that reply. |

## Left out

- Writing the logo to `public/uploads` is left out. Only its outcome is modelled: the URL `/uploads/<name>` on success, or a failure that becomes a 500 reply.
- The failures of `connectDB`, `req.formData()` and `countDocuments` are not modelled. Each lands in the `catch` block and gives the 500 reply with the driver's message as the detail. Of the handler's failures, only the file write (`writeError`) and the save are modelled.
- The Mongoose timestamps and the logging of errors are left out; they change no reply.
- RegistrationEndpoint.DuplicateKeyDetail: the 500 reply's `detail` for a duplicate id is the MongoDB driver's `E11000` message. The model approximates it with a fixed text naming the collection `restaurants` and the id. The real text also names the database and comes from the driver, not from the source.
- The city and category codes are used in the count query as a regular-expression prefix without escaping. The model matches the prefix literally, so codes holding regular-expression metacharacters are not modelled.
- Two requests counting the same prefix at the same time can generate the same id. The model handles one request at a time, so this race is not modelled. The unique index, which the model does capture, turns it into a 500 reply.
- Strings are sequences of characters. Case mapping, trimming and `\s` cover ASCII only, and Unicode is not modelled.
- The order in which `validate` inserts keys into its error object is not modelled. The page shows the messages by key, so only the object's contents are.
- The generic `handleChange` branch and the setters for the category, the cuisines and the status are left out. They only copy input values into the form.
- `URL.createObjectURL` becomes a parameter of the logo handlers.
- The rendering, the scroll and focus on the first error, the page reload timer and the Geoapify address autocomplete are left out.
- A `data.error` that is not a string is read as missing.
- Which validation error Mongoose lists first depends on its internal path order. The model reports the errors in schema path order.
- A file posted under a text key is read as a missing field.
- RegistrationEndpoint.AfterLastDot: the function's own contract states only that the result is no longer than the name. Its full characterisation is `AfterLastDotSuffix`.
