# GraphQL blog API backend: registration and request-edge rules

This project models the part of the `graphql-api` backend that holds decision
logic of its own:

- **User registration** (`createUser` in `graphql/resolver.js`). The resolver
  looks up the email in the user collection and throws "User already exists!" if
  it is there. Otherwise it hashes the password with bcrypt at cost 12, saves a
  new user document and returns the saved document with its `_id` as a string.
  The collection is the class `Resolver.UserStore`. It holds a map from email to
  document, the hashing primitive as an arbitrary function of (password, cost),
  and a ghost trace of the calls made into the store and the hash library.
  `CreateUser` is proved equal to the function `Resolver.Register`. The lemmas
  about `Register` and about runs of registrations (`RegisterAll`) state email
  uniqueness, no-overwrite and the one-document-per-accepted-registration count.
- **Request-edge rules of `app.js`**, as pure functions:
  - the multer MIME filter and the single-file `image` upload step;
  - the disk-storage filename `originalname + '-' + new Date().toISOString()`;
  - the GraphQL `formatError` envelope;
  - the status and body chosen by the fallback error middleware.

  JavaScript's `||` defaulting is written out (`App.OrNumber`, `App.OrText`).
  `toISOString` is modelled over the date's UTC fields (`IsoTime`), so the model
  can prove that a stored filename gives back its original name and upload time.

Modules: `Wrappers` (Option, Result), `ObjectIds` (ObjectId and its hex
`toString`), `Resolver`, `IsoTime`, `App`.

The model follows the code as written:

- the email is not lower-cased;
- the returned record includes the hashed password;
- there is no input validation;
- the duplicate-email error carries no code, so `formatError` gives it status 500 (`App.DuplicateUserEnvelope`).

## Model

| member | source | states |
|---|---|---|
| `ObjectIds.ParseHexOfHex` | graphql-api/backend/graphql/resolver.js:19 | hex-printing the id's bytes and parsing them back gives the same bytes |
| `ObjectIds.IdToStringFacts` | graphql-api/backend/graphql/resolver.js:19 | `_id.toString()` is 24 lower-case hex digits, and distinct ids print differently |
| `Resolver.Lookup` | graphql-api/backend/graphql/resolver.js:8 | `findOne({ email })`: while every document is filed under its own email, a document is found exactly when some stored document's `email` field equals the (case-sensitive) email, and the one found has that email |
| `Resolver.NewDoc` | graphql-api/backend/graphql/resolver.js:14-15 | the new document has the input's email and name, the generated id, and password the output of `hash(password, 12)` in place of the plaintext |
| `Resolver.ToView` | graphql-api/backend/graphql/resolver.js:19 | the returned record keeps email, name and the hashed password, and its id is the 24-digit hex form of the document's ObjectId |
| `Resolver.FromViewOfToView` | graphql-api/backend/graphql/resolver.js:19 | the returned record determines the saved document: nothing is lost by the `_id` conversion |
| `Resolver.Register` | graphql-api/backend/graphql/resolver.js:6-20 | fails with "User already exists!" iff the email is stored, leaving the store unchanged. Otherwise it adds exactly one document under that email, returns its view, and leaves every other email's lookup unchanged. It preserves email keying, and id distinctness when the id is fresh |
| `Resolver.RegisterCalls` | graphql-api/backend/graphql/resolver.js:8-17 | the lookup always comes first; a hash call and a save happen iff the email was not stored; on the duplicate path the lookup is the only call |
| `Resolver.RegisterAllKeepsExisting` | graphql-api/backend/graphql/resolver.js:8-17 | over any run of registrations, a document already stored is never overwritten |
| `Resolver.RegisterAllKeys` | graphql-api/backend/graphql/resolver.js:8-17 | after any run, the stored emails are exactly the old ones plus every requested one |
| `Resolver.RegisterAllCount` | graphql-api/backend/graphql/resolver.js:8-17 | after any run, the store has grown by exactly the number of successful replies |
| `Resolver.RegisterAllKeyed` | graphql-api/backend/graphql/resolver.js:8-17 | email uniqueness (each document filed under its own email) holds after any run that started with it |
| `Resolver.UserStore.FindOne` | graphql-api/backend/graphql/resolver.js:8 | finds a document exactly when some stored document has that email and returns it, changes no document and records the lookup |
| `Resolver.UserStore.HashPassword` | graphql-api/backend/graphql/resolver.js:14 | returns `hash(password, cost)` and records the call |
| `Resolver.UserStore.Save` | graphql-api/backend/graphql/resolver.js:17 | adds the document under its email and records the save |
| `Resolver.UserStore.CreateUser` | graphql-api/backend/graphql/resolver.js:6-20 | keeps the store invariant. The reply and new store equal `Register` on the old store, and its calls equal `RegisterCalls`. A duplicate email gives the error with the store untouched and nothing hashed or saved. A fresh email adds exactly the document `{id, email, hash(password, 12), name}` and returns its view |
| `IsoTime.DigitsValueOfDigits` | graphql-api/backend/app.js:22 | a zero-padded decimal field of the ISO string reads back as its number |
| `IsoTime.IsoString` | graphql-api/backend/app.js:22 | `toISOString()` is 24 characters for years 0000..9999 and 27 otherwise, ending in `Z` |
| `IsoTime.ParseIsoOfIsoString` | graphql-api/backend/app.js:22 | the ISO string reads back as the same date and time, to the millisecond |
| `IsoTime.IsoStringInjective` | graphql-api/backend/app.js:22 | distinct dates give distinct ISO strings |
| `App.FileFilter` | graphql-api/backend/app.js:26-36 | never reports an error, and accepts a file exactly when its mimetype is `image/png`, `image/jpg` or `image/jpeg` |
| `App.StoredFilename` | graphql-api/backend/app.js:21-23 | the stored name is the original name, then `-`, then exactly the upload time's ISO string |
| `App.SplitOfStoredFilename` | graphql-api/backend/app.js:22 | a stored filename splits back into the original name and the upload time, even when the original name contains dashes |
| `App.StoredFilenameInjective` | graphql-api/backend/app.js:22 | two uploads share a filename only if they have the same original name and the same millisecond |
| `App.Upload` | graphql-api/backend/app.js:17-40 | `.single('image')`: the request fails with "Unexpected field" exactly when it carries more than one file or a file under a field other than `image`. Otherwise a file is stored exactly when it is under `image` with one of the three image mimetypes, in `images` under exactly the name `StoredFilename(originalname, now)`, which gives back its original name and time; a skipped file leaves the request without a file and without an error |
| `App.OrNumber` | graphql-api/backend/app.js:69 | or-defaulting on an optional number: a present non-zero value wins, undefined or 0 gives the default |
| `App.OrText` | graphql-api/backend/app.js:68 | or-defaulting on a string: a non-empty string wins, the empty string gives the default |
| `App.FormatError` | graphql-api/backend/app.js:63-72 | without an original error, the error comes back unchanged. Otherwise the result is `{message, status, data}`: `data` is the original's (possibly absent), `message` is the error's own if non-empty else "An error occurred", and `status` is the original's code if non-zero else 500. So message is never empty and status never 0 |
| `App.DuplicateUserEnvelope` | graphql-api/backend/app.js:63-72 | the duplicate-registration error reaches the client as message "User already exists!", status 500, no data |
| `App.HandleError` | graphql-api/backend/app.js:81-85 | status is `statusCode` if non-zero, else 500 (never 0); the body has only the error's message and data |

## Left out

- The ObjectId generator (timestamp, random value, counter) draws on a clock and randomness. Its output is the `id` parameter of `CreateUser`.
- The converter from the clock reading in milliseconds to calendar fields is left out. The upload time is given as those UTC fields.
- bcrypt is a parameter of the store (`hash`); its salting and one-wayness are not modelled.
- `models/user` is not part of this model, so its schema defaults (status, posts, `__v`) and its validators are not modelled. `findOne`, `hash` and `save` are taken to succeed: a rejection of any of them, which would propagate out of the resolver to `formatError`, is not modelled.
- `Resolver.UserStore.Save`: in the collection, saving a second document with the same email would add one; a map keyed by email cannot hold two. So `Save` requires the email to be new, and `CreateUser` meets that through its check.
- The race between `findOne` and `save` under concurrent requests is not modelled. `createUser` is one sequential step.
- How graphql-js wraps a thrown error for `formatError` is library behaviour. `App.Located` assumes it copies the thrown error's message and keeps the error as `originalError`.
- `App.FormatError` and `App.HandleError`: `code` and `statusCode` are modelled as optional integers. A string or NaN code, and other falsy JavaScript values, are not modelled.
- `App.HandleError`: a truthy `statusCode` outside 100..999 makes `res.status` throw in Node, and Express's final handler then answers 500 with its own body. The model returns the raw code.
- `App.Upload`: file parts without a filename (which multer skips), multer's size limits and the removal of already-written files when an upload aborts are not modelled. An "Unexpected field" error goes to the fallback handler, which answers 500 because it has no `statusCode`.
- Express wiring is not modelled: `express.json`, static files, the CORS headers, the OPTIONS short-circuit, `createHandler` dispatch, `mongoose.connect` and `app.listen`. The `auth` middleware is not part of this model, and the logging in the fallback handler is left out too.
- The front end (`Feed.js`, `SinglePost.js`), the schema text and `utils/file.js` are left out. The front end is UI, the schema text is only declarations, and `utils/file.js` is filesystem I/O.
