# Notes service: a verified model of its request pipeline

This project models the core of a small notes REST service (Express and
Mongoose). Users keep notes that carry a category, a colour, a pinned flag
and tags. Administrators also manage the users, the categories and the
tags. The model covers four layers:

- **Validators.** The three request-body validators (`validateNote`,
  `validateCategory`, `validateTag`) build their error lists in check order
  and answer 400 when the list is not empty.
- **Authentication middleware.** `authenticate`, `authorize(roles)` and
  `optionalAuth` take the token from the `Authorization` header, set
  `req.user`, or answer 401/403.
- **Schemas.** The four Mongoose schemas (Note, Tag, Category, User) and
  what they do to a document on create and on `findByIdAndUpdate`: setters
  (`trim`, `lowercase`), defaults, `required`, `maxlength`, `enum`,
  `match`, the `unique` indexes and the password pre-save hook.
- **Handlers and routes.** The note, tag, category and administration
  handlers run against a store of the four collections. The route tables
  say which middleware runs before each handler.

Modules, one per file:

| file | module | what it holds |
|---|---|---|
| `types.dfy` | `Types` | `Option`, ids, roles, token claims |
| `text.dfy` | `Text` | JavaScript `trim`/`toLowerCase` on strings, hex colours, string order |
| `http.dfy` | `Http` | request bodies, id parameters, replies |
| `validation.dfy` | `Validation` | the three validators |
| `schema.dfy` | `Schema` | the documents, their schema invariants, create/update casts |
| `listing.dfy` | `Listing` | `find().sort().limit()` as functions on the store's maps |
| `auth.dfy` | `Auth` | the header parser and the three middleware functions |
| `db.dfy` | `Db` | the `Store` class (four collections and the id counter) and its model operations |
| `notes.dfy` | `NotesController` | `controllers/noteController.js` |
| `tags.dfy` | `TagsController` | `controllers/tagController.js` |
| `categories.dfy` | `CategoriesController` | `controllers/categoryController.js` |
| `admin.dfy` | `AdminController` | `controllers/adminController.js` |
| `routes.dfy` | `Routes` | the four route files and the middleware chain |

**How the store is modelled.** The store is a class whose fields are four
maps from id to document, plus a counter. `Store.Valid()` is the invariant
every handler keeps:

- every document satisfies its schema;
- the unique indexes hold;
- every id was issued by the counter.

**How a reply is modelled.** A reply is one of three things:

- `Ok(status, data)`;
- `Refused(status, error)`, an answer the handler writes itself;
- `Forwarded`, an error passed to `next(error)`. This covers Mongoose
  validation errors, duplicate keys, and the `TypeError` thrown when a
  handler reads `req.user.role` without a user.

**Where the code is followed over its description.** Where the code and the
service's description differ, the model follows the code:

- **Note routes.** The description puts required or optional
  authentication in front of every note route. The route file puts none,
  so nothing sets `req.user` (see Findings below).
- **Malformed ids.** The description files a malformed id under "not
  found" (404). The handlers answer 400 with their own message.
- **Deleting a tag.** The description says a deleted tag is removed from
  every note that carried it. Only the administration handler does that;
  the public `DELETE /api/tags/:id` leaves the id in the notes.
- **Administration create routes.** These run no body validator, so the
  schemas' checks are the only ones.

## Model

| member | source | states |
|---|---|---|
| Types.ParseRole | models/User.js:22-26 | a role string is accepted only when it is "user" or "admin", and the accepted role has that name |
| Text.NormalizeIdempotent | controllers/noteController.js:225 | lower-casing and trimming a tag name a second time changes nothing |
| Text.TrimLowerCommute | controllers/noteController.js:225 | trimming and lower-casing commute, so the order in which setters run does not matter |
| Text.TrimEmptyIffAllSpace | middleware/validateNote.js:6-16 | `s.trim() === ""` holds exactly when `s` is all white space |
| Validation.NoteErrorsExact | middleware/validateNote.js:6-34 | a note body's error list holds exactly the checks it violates |
| Validation.NoteErrorsOrdered | middleware/validateNote.js:6-34 | the note errors come in the order the checks are written |
| Validation.NoteVerdict | middleware/validateNote.js:36-44 | the validator passes the request on iff no check is violated; otherwise it answers 400 with exactly the violated checks, in order |
| Validation.ValidateNote | middleware/validateNote.js:1-45 | the imperative validator returns the verdict that `NoteVerdict` characterises |
| Validation.CategoryErrorsExact | middleware/validateCategory.js:6-23 | a category body's error list holds exactly the checks it violates |
| Validation.CategoryErrorsOrdered | middleware/validateCategory.js:6-23 | the category errors come in check order |
| Validation.CategoryVerdict | middleware/validateCategory.js:26-33 | passes on iff no category check is violated; otherwise 400 with the violated checks in order |
| Validation.ValidateCategory | middleware/validateCategory.js:1-34 | the imperative category validator returns that verdict |
| Validation.TagErrorsExact | middleware/validateTag.js:6-18 | a tag body's error list holds exactly the checks it violates |
| Validation.TagErrorsOrdered | middleware/validateTag.js:6-18 | the tag errors come in check order |
| Validation.TagVerdict | middleware/validateTag.js:21-28 | passes on iff no tag check is violated; otherwise 400 with the violated checks in order |
| Validation.ValidateTag | middleware/validateTag.js:1-29 | the imperative tag validator returns that verdict |
| Validation.BlankCategoryFailsTwice | middleware/validateNote.js:14-29 | a category made only of spaces is reported both as missing and as outside the enum |
| Validation.LongTitlePassesValidator | middleware/validateNote.js:6-8 | the note validator does not bound the title: a 101-character title passes it |
| Validation.SpacesNameFailsTwice | middleware/validateCategory.js:6-13 | 51 spaces as a category name fail both "required" and the length check, which looks at the untrimmed name |
| Validation.SpacesTagNameFailsTwice | middleware/validateTag.js:6-13 | 31 spaces as a tag name fail both "required" and the length check |
| Schema.Public | models/User.js:16-21 | the listed user keeps id, email and role and drops the password (`select: false`) |
| Schema.CastText | models/Note.js:10-20 | a trimmed string field is stored trimmed, is refused when required and blank, and is refused when longer than its `maxlength` after trimming |
| Schema.CastTextStored | models/Note.js:10-20 | a stored value passes the cast unchanged, so re-validating a stored field never fails |
| Schema.CastTagName | models/Tag.js:5-12 | a tag name is stored lower-cased and trimmed, and is refused when that is empty or over 30 characters |
| Schema.CastTagNameStored | models/Tag.js:5-12 | a stored tag name passes the cast unchanged |
| Schema.CastEmail | models/User.js:6-15 | an email is stored lower-cased, must be non-empty, and must match the pattern |
| Schema.CastColor | models/Note.js:31-35 | an absent colour takes the default; a given colour must be `#` and six hex digits |
| Schema.NewNote | models/Note.js:5-41 | a created note satisfies the schema, with trimmed title and content, the defaults "Other", `false` and "#ffffff", and the owner and tags given; it is refused exactly when a field fails its rule |
| Schema.PatchNote | models/Note.js:5-41 | an update changes only the fields the body names, keeps the schema invariant, and is refused exactly when a named field fails its validator |
| Schema.PatchNoteNothing | models/Note.js:5-41 | an empty update leaves the note as it was |
| Schema.NewTag | models/Tag.js:5-17 | a created tag is valid, with the normalised name and the colour or "#3b82f6"; refused exactly when the name or colour fails |
| Schema.PatchTag | models/Tag.js:5-17 | a tag update changes only the named fields, keeps the invariant, and is refused exactly when a named field fails |
| Schema.NewCategory | models/Category.js:5-25 | a created category is valid, with trimmed name and description, and the defaults for colour and icon; refused exactly when a field fails |
| Schema.PatchCategory | models/Category.js:5-25 | a category update changes only the named fields, keeps the invariant, and is refused exactly when a named field fails |
| Schema.PreSave | models/User.js:34-44 | the password is hashed only when it was modified; email and role are untouched |
| Schema.PreSaveHashesOnce | models/User.js:34-44 | saving again without changing the password does not hash it twice, and an unmodified password is kept |
| Schema.NoteValidatorSound | middleware/validateNote.js:6-34 | a body the note validator passes, with a title of at most 100 characters after trimming, is accepted by the schema |
| Schema.LongTitleRefusedBySchema | models/Note.js:10-15 | a 101-character title passes the validator but is refused by the schema's `maxlength` |
| Schema.CategoryValidatorSound | middleware/validateCategory.js:6-23 | a body the category validator passes is accepted by the category schema |
| Schema.TagValidatorSound | middleware/validateTag.js:6-18 | a body the tag validator passes is accepted by the tag schema |
| Listing.Entries | controllers/noteController.js:76 | `find(query)` returns exactly the matching documents, each once |
| Listing.SortBy | controllers/noteController.js:76-78 | sorting returns a permutation of its input |
| Listing.SortBySorted | controllers/noteController.js:76-78 | under a total preorder the sorted result is in order |
| Listing.Take | controllers/adminController.js:241-249 | `limit(k)` keeps the first `min(k, n)` elements in order |
| Listing.PinnedThenNewestTotal | controllers/noteController.js:78 | `{ isPinned: -1, createdAt: -1 }` compares any two notes and chains |
| Listing.TagNameOrderTotal | controllers/tagController.js:17-29 | sorting tags by name compares any two tags and chains |
| Listing.CategoryNameOrderTotal | controllers/categoryController.js:25-37 | sorting categories by name compares any two and chains |
| Listing.Query | controllers/noteController.js:76-78 | a sorted listing holds exactly the matching documents, each id once, in the requested order |
| Listing.ByNewest | controllers/adminController.js:9-20 | every document, each once, with strictly decreasing creation order |
| Listing.Newest | controllers/adminController.js:241-249 | at most `k` documents, newest first, and any document left out is older than all `k` that were listed |
| Listing.TakeNewest | controllers/adminController.js:241-249 | cutting a newest-first list keeps its order, and everything cut is older than everything kept |
| Auth.JoinSplit | middleware/authenticate.js:5 | joining the pieces of `split(" ")` gives back the header |
| Auth.SplitJoin | middleware/authenticate.js:5 | splitting a join of space-free words gives back the words |
| Auth.BearerToken | middleware/authenticate.js:5 | the token is the second space-separated piece of the header, non-empty; the scheme word is ignored |
| Auth.BearerTokenOfWords | middleware/authenticate.js:5 | for any header of space-free words, the token is the second word |
| Auth.NoSpaceNoToken | middleware/authenticate.js:5 | a header without a space yields no token |
| Auth.Authenticate | middleware/authenticate.js:3-23 | 401 "No token provided…" without a token; 401 when the token does not verify; otherwise passes on with `req.user` set to the token's claims |
| Auth.Authorize | middleware/authenticate.js:25-43 | passes on unchanged iff there is a user whose role is listed; 401 iff there is no user, 403 iff there is one |
| Auth.OptionalAuth | middleware/authenticate.js:46-59 | never refuses; it sets `req.user` only from a token that verifies |
| Db.TagNamed | controllers/noteController.js:228 | `Tag.findOne({ name })` finds the tag with that name, or reports that none has it |
| Db.WithoutOwner | controllers/adminController.js:79 | `Note.deleteMany({ userId })` keeps exactly the other users' notes, unchanged |
| Db.Pull | controllers/adminController.js:222 | `$pull` removes every occurrence of the id and keeps the rest of the array |
| Db.PullAppend | controllers/adminController.js:222 | pulling from two arrays laid end to end is pulling from each in turn, so the ids left keep their order |
| Db.PullOne | controllers/adminController.js:222 | a single id is dropped exactly when it is the pulled one |
| Db.PullKeepsOrder | controllers/adminController.js:222 | pulling an absent id from `[1, 2]` leaves `[1, 2]`, not a reordering |
| Db.PullAbsent | controllers/adminController.js:222 | pulling an id the array lacks changes nothing |
| Db.PullFromNotes | controllers/adminController.js:222 | `updateMany(..., { $pull })` pulls the tag from every note and changes nothing else |
| Db.PullFromNotesUntouched | controllers/adminController.js:222 | a note that did not list the tag is left as it was |
| Db.Store.CreateTag | controllers/tagController.js:6 | `Tag.create` stores the cast tag under a fresh id; refused when the cast fails; duplicate when the name is taken |
| Db.Store.UpdateTag | controllers/tagController.js:67-70 | `findByIdAndUpdate` validates the named fields first, then reports a missing id, then a duplicate name; otherwise stores the patched tag |
| Db.Store.DeleteTag | controllers/tagController.js:97 | removes exactly that tag and reports whether it existed |
| Db.Store.PullTag | controllers/adminController.js:222 | pulls the tag id from every note |
| Db.Store.CreateCategory | controllers/categoryController.js:14 | `Category.create`: fresh id, or refused, or duplicate name |
| Db.Store.UpdateCategory | controllers/categoryController.js:83-86 | validates, then missing, then duplicate, otherwise stores the patch |
| Db.Store.DeleteCategory | controllers/categoryController.js:121 | removes exactly that category and leaves the notes alone |
| Db.Store.CreateNote | controllers/noteController.js:24 | `Note.create` stores the cast note under a fresh id, or refuses it |
| Db.Store.UpdateNote | controllers/noteController.js:164-167 | validates the named fields, then reports a missing id, otherwise stores the patched note |
| Db.Store.DeleteNote | controllers/noteController.js:208 | removes exactly that note |
| Db.Store.DeleteNotesOf | controllers/adminController.js:79 | removes exactly the notes of that owner |
| Db.Store.UpdateUser | controllers/adminController.js:48-51 | casts a given email (refused if malformed), then reports a missing id, then a taken email; the password is never touched |
| Db.Store.DeleteUser | controllers/adminController.js:80 | removes exactly that user |
| NotesController.FindOrCreateTag | controllers/noteController.js:225-235 | yields the id of the tag with the normalised name, creating it with the default colour when absent; no other tag changes |
| NotesController.ConvertTagNamesToIds | controllers/noteController.js:221-239 | one id per name, in order, each naming a stored tag with that normalised name; equal names give equal ids; it fails iff some name fails the tag cast; only default-coloured tags are added |
| NotesController.ResolvedStep | controllers/noteController.js:224-236 | resolving one more name keeps the conversion loop's invariant |
| NotesController.ResolvedNames | controllers/noteController.js:224-236 | names resolved to stored tags all pass the cast, and equal normalised names share an id |
| NotesController.CreateNote | controllers/noteController.js:5-37 | 401 without a user; otherwise the note is created for that user with the converted tags, or the error is forwarded |
| NotesController.ChooseTag | controllers/noteController.js:62-73 | no tag filter without a truthy `tag`; otherwise the tag whose name is the value lower-cased and then cast by the `name` setters (`lowercase`, `trim`), or "no such tag" |
| NotesController.GetAllNotes | controllers/noteController.js:39-88 | exactly the notes that match the query (own notes, category, pinned, search, tag), each once, pinned first then newest; an unknown tag gives an empty list |
| NotesController.ChooseTagIgnoresCase | controllers/noteController.js:63 | the tag filter does not depend on the case of the query value |
| NotesController.ChooseTagIgnoresPadding | controllers/noteController.js:63 | `?tag=%20work` and `?tag=Work%20` both select the tag named "work" |
| NotesController.GetNoteById | controllers/noteController.js:90-121 | 400 for a malformed id; the note iff it exists and, with a user, belongs to them; otherwise 404 |
| NotesController.UpdateNote | controllers/noteController.js:123-176 | 401, 400, then 403 unless the caller owns the note; the owner's update applies the schema's patch with the converted tags |
| NotesController.DeleteNote | controllers/noteController.js:178-218 | 401, 400, then 403 unless owned; the owner's delete removes exactly that note |
| TagsController.CreateTag | controllers/tagController.js:4-15 | 201 with the normalised tag iff the body casts and the name is unused; otherwise forwarded and the tags are unchanged |
| TagsController.GetAllTags | controllers/tagController.js:17-29 | every tag once, sorted by name, with its count |
| TagsController.GetTagById | controllers/tagController.js:31-56 | 400 for a malformed id, the tag when present, otherwise 404 |
| TagsController.UpdateTag | controllers/tagController.js:58-86 | 400; validation errors forwarded; 404 iff valid but absent; Ok iff the update is valid, the tag exists and a new name is not another tag's, a taken name being forwarded; on Ok only the named fields change |
| TagsController.DeleteTag | controllers/tagController.js:88-114 | 400, 404, or only the tag goes, and notes that listed it now list an id no tag has |
| CategoriesController.CreateCategory | controllers/categoryController.js:4-23 | 403 for a non-administrator, before anything is stored; created iff administrator, valid body and unused name |
| CategoriesController.GetAllCategories | controllers/categoryController.js:25-37 | every category once, sorted by name |
| CategoriesController.GetCategoryById | controllers/categoryController.js:39-64 | 400, the category, or 404 |
| CategoriesController.UpdateCategory | controllers/categoryController.js:66-102 | the role check before the id check; 404 iff an administrator sends a valid update for an absent id; Ok iff administrator, valid update, present category and a new name no other category has, a taken name being forwarded; on Ok the patch is stored |
| CategoriesController.DeleteCategory | controllers/categoryController.js:104-138 | role, id and existence checks in that order; removes exactly that category |
| AdminController.PublicAll | controllers/adminController.js:11-13 | each listed user is shown without the password |
| AdminController.GetAllUsers | controllers/adminController.js:9-20 | every user, without passwords, once each, newest first, with the count |
| AdminController.GetUserById | controllers/adminController.js:22-35 | 400, the user without password, or 404 |
| AdminController.UserUpdate | controllers/adminController.js:43-46 | sets the email only when it is truthy, and the role only when it is "user" or "admin" |
| AdminController.UpdateUser | controllers/adminController.js:37-60 | 400; a truthy email that fails the cast is forwarded; 404 iff the id is absent and the email casts; Ok iff the user exists and a truthy email casts and belongs to no other user, a taken email being forwarded; on Ok only email (lower-cased) and role change, and the password is kept |
| AdminController.DeleteUser | controllers/adminController.js:62-86 | 400, 404, then refusal to delete oneself; otherwise the user and exactly their notes go |
| AdminController.GetAllNotesAdmin | controllers/adminController.js:90-105 | every note of every user, once each, newest first |
| AdminController.DeleteNoteAdmin | controllers/adminController.js:107-122 | 400, 404, or exactly that note goes, whoever owns it |
| AdminController.CreateCategoryAdmin | controllers/adminController.js:126-133 | created iff the schema accepts the body and the name is unused; no validator runs first |
| AdminController.UpdateCategoryAdmin | controllers/adminController.js:135-153 | 400; invalid updates forwarded; 404 iff valid but absent; Ok iff valid, present and a new name no other category has, a taken name being forwarded; on Ok the patch is stored |
| AdminController.DeleteCategoryAdmin | controllers/adminController.js:155-169 | 400, 404, or exactly that category goes |
| AdminController.AdminTagBody | controllers/adminController.js:175-179 | the body built for `Tag.create` is accepted iff the name casts and a truthy colour is a hex colour; the colour defaults to "#6366f1" |
| AdminController.CreateTagAdmin | controllers/adminController.js:173-184 | no name is an error; otherwise created iff the cast succeeds and the normalised name is unused, with the colour or "#6366f1" |
| AdminController.AdminTagUpdate | controllers/adminController.js:192-194 | only truthy name and colour are sent, the name normalised; the update validates iff those pass |
| AdminController.UpdateTagAdmin | controllers/adminController.js:186-208 | 400; a failing truthy name or colour forwarded; 404 iff the id is absent and the truthy fields pass; Ok iff present, the truthy fields pass and a truthy name is not another tag's, a taken name being forwarded; on Ok only the truthy fields change |
| AdminController.DeleteTagAdmin | controllers/adminController.js:210-228 | 400, 404, or the tag goes and is pulled from every note, so no note lists it |
| AdminController.GetDashboardStats | controllers/adminController.js:232-267 | the four collection sizes, and the five newest users (without passwords) and notes |
| Routes.Run | routes/noteRoutes.js:14-20 | a request reaches the handler with its body and header untouched |
| Routes.TokenClaims | middleware/authenticate.js:5-22 | the claims exist iff `authenticate` would pass the request on |
| Routes.ValidatorsKeepRequest | routes/tagRoutes.js:14-20 | a chain of validators either passes the request on as it came or answers 400 with their errors |
| Routes.AdminChain | routes/adminRoutes.js:27-28 | `authenticate` then `authorize(["admin"])`: 401 without valid token, 403 for a non-administrator, the handler reached only with an administrator's claims |
| Routes.NoteRoutesNeverAuthenticate | routes/noteRoutes.js:14-20 | no note route sets `req.user`: every request reaches its handler as it came, unless the note validator stops it |
| Routes.NoteRoutesAuthenticatedSetUser | routes/noteRoutes.js:14-20 | with `authenticate`/`optionalAuth` in front, each note handler sees the caller's claims, and a change without a valid token is refused with 401 |
| Routes.NoteDeleteIgnoresToken | routes/noteRoutes.js:20 | `DELETE` with `Bearer t`, where `t` verifies, reaches `deleteNote` without a user as written, and with the caller's claims once authenticated |
| Routes.TagRoutesArePublic | routes/tagRoutes.js:14-20 | no tag route checks the caller; GET and DELETE always reach the handler |
| Routes.CategoryRoutesGuarded | routes/categoryRoutes.js:15-26 | reads are public; a change reaches its handler only as an administrator, with 401/403 before validation |
| Routes.AdminRoutesGuarded | routes/adminRoutes.js:27-51 | every administration route is reached iff the token verifies to an administrator; otherwise 401 or 403, never a validation error |

## Left out

- JSON Web Tokens: `jwt.verify` with the secret is the parameter `verify`, a function from token to claims. Expiry and signatures are inside it.
- bcrypt: the hash in the pre-save hook is the parameter `hash`. `comparePassword` and `getJWT` (models/User.js) belong to login, which is not part of this model.
- Registration and login: controllers/authController.js and its routes are not part of this model. The password `minlength` is only ever checked there.
- The user schema's email regular expression is the store's parameter `emailShape`.
- The `$text` search of `getAllNotes` is the parameter `textMatch`. The text index is not modelled.
- `validateObjectId` (utils/validateObjectId.js is not part of this model) is the request's id parameter, either `Malformed` or `Wellformed(id)`.
- Timestamps: a document's id doubles as its `createdAt`, because the store issues ids from an increasing counter. `updatedAt` is not modelled.
- `populate("tags", …)` only changes how a reply renders tag ids, so replies carry the ids.
- `populate("userId", "email")` (controllers/adminController.js:94 and 247) is not modelled either. In the source, the administration note list and the dashboard's recent notes show each owner's email. In the model, those replies carry the owner's id instead.
- Asynchrony: every `await` is sequential, and `Promise.all` in the dashboard is four reads of one store state. Concurrent requests, and races between `findOne` and `create` in the tag conversion, are not modelled.
- Lengths count characters, not UTF-16 code units.
- `toLowerCase` is modelled for the ASCII letters A–Z only; every other character is left as it is. `trim` removes JavaScript's full WhiteSpace and LineTerminator set, Unicode spaces included.
- JSON values of the wrong type (a number as a title, a string as `tags`, a string as `isPinned`) are outside the body model, whose fields are strings, booleans and string lists.
- The global error handler in app.js is `Forwarded`, with no status. Which status it picks for a Mongoose error is not modelled.
- app.js setup (CORS, static files, the database connection, the 404 route) and the browser client under public/ are not part of this model. The client is cited only as evidence for the finding below.
- AdminController.GetDashboardStats: its contract ties the lists to `Newest`, whose own contract states the ordering and the cut. The dashboard method adds no property beyond that tie.

## Findings

| source | as written | input that shows it | evidently intended | confidence | as-written member | corrected member |
|---|---|---|---|---|---|---|
| routes/noteRoutes.js:14-20 (mounted at app.js:40) | no note route runs `authenticate` or `optionalAuth`, so `req.user` is never set. `createNote`, `updateNote` and `deleteNote` always answer 401, and the listing is never scoped to its caller, although the browser client sends `Authorization: Bearer …` on these calls (public/js/app.js:428, 527, 536, 564, 589) | `DELETE /api/notes/:id` with header `Authorization: Bearer t`, where `t` verifies to some user | `authenticate` before POST, PUT and DELETE; `optionalAuth` before the two GETs | high; not executed | Routes.NoteRoutesNeverAuthenticate | Routes.NoteRoutesAuthenticatedSetUser |
