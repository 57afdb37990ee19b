# DevConnector profile editor and post engine, modelled in Dafny

This project models the two parts of the DevConnector REST backend that edit
nested collections inside a parent document. Each handler does one
read-modify-write on a single document. The model proves what the handlers
guarantee.

- **Profile subdocument editor** (`routes/api/profile.js`). It covers the
  profile upsert and the add, update and delete handlers for the `experience`
  and `education` lists of the caller's profile.
  - The request-body fields are picked by whitelist loops.
  - `skills` and `courses` are split on commas and trimmed.
  - New entries go to the front of their list.
  - An update shallow-merges the picked fields over the entry with the path id.
  - A delete splices that entry out.
- **Post interaction engine** (`routes/api/posts.js`). It covers post
  creation with a name/avatar snapshot, post deletion by its author only, the
  like toggle, adding a comment with a snapshot at the front, and deleting a
  comment by the post's or the comment's author.

Files and modules:

- `common.dfy` (`Common`): ids, request-body values, JavaScript truthiness,
  express-validator's `not().isEmpty()`, and the `Outcome` a handler ends in.
- `text.dfy` (`Text`): `String.prototype.split` with a one-character
  separator, `String.prototype.trim`, and `join`, with the round trips
  between split and join.
- `fields.dfy` (`Fields`): the `forEach` field loops, as one method
  `BuildFields` proved against the function `Build`.
- `profiles.dfy` (`Profiles`): entries, the `Profile` document class (its
  lists are edited in place), and the `ProfileStore` class (one profile per
  user) with the route handlers.
- `posts.dfy` (`Posts`): comments, the `Post` document class, and the
  `PostStore` class with the route handlers.

How the source maps onto the model:

- Documents are classes whose fields the handlers assign. A store is a class
  holding a map from id to document. Its `Valid()` ties each key to the
  document's own id or owner, so no two keys share a document.
- Every outcome other than `Ok` leaves the store and every document as they
  were. The handler contracts state this with `unchanged`, with equality of
  the store's map, or through the `modifies` frame alone when no document
  was loaded.
- A profile's `Valid()` is what every handler keeps: entry ids are unique
  within each list, and every entry, the profile fields and `socials` hold
  only their whitelisted keys, each with a truthy value.
- Experience and education follow one protocol, told apart by `ListKind`. The
  kind selects the whitelist, the required fields and the treatment of
  `courses`.
- Fresh ids come in as parameters. Entry and comment ids are required not to
  occur already in the target list, which is what database id generation
  guarantees.
- The user collection is read-only here. It is a parameter mapping a user id
  to its name and avatar.
- A handler that throws a `TypeError` before its `try` block ends in
  `UncaughtTypeError`. That is `.split` on a missing or non-string `courses`,
  or on a truthy non-string `skills`. The request then gets no response and
  nothing is saved.
- A handler that dereferences a missing user record inside its `try` ends in
  `ServerError`. That is creating a post, or deleting one, with no user
  record for the caller.

Behaviour the model takes from the code as written, which the routes' comments and names do not make obvious:

- A comment for a missing author is rejected as "User not found"
  (`UserNotFound`).
- Comment deletion authorizes against the FIRST comment with the id, then
  filters out EVERY comment with that id.
- Post deletion also fails with a server error when the requester's user
  record is missing.
- The `likes` type allows duplicates. The model proves that the toggle
  keeps the list duplicate-free (`Post.Valid`).
- Education `courses` is split even when it is empty or absent. Absent
  throws.

## Model

| member | source | states |
|---|---|---|
| `Text.Split` | routes/api/profile.js:136-137 | `split(",")` yields at least one piece, and no piece contains the separator |
| `Text.JoinSplit` | routes/api/profile.js:136-137 | joining the pieces of a split with the separator gives back the original string |
| `Text.SplitJoin` | routes/api/profile.js:136-137 | splitting a join of one or more separator-free parts gives back exactly those parts |
| `Text.Trim` | routes/api/profile.js:138 | `trim()` returns a slice of the input with only white space cut at either end, and the result neither starts nor ends with white space |
| `Text.SplitTrim` | routes/api/profile.js:369-372 | the comma-separated list has one piece per split piece; each is that piece trimmed, holds no comma and has no surrounding white space |
| `Common.Truthy` | routes/api/profile.js:134 | the test `if (req.body[field])` of every field loop (also lines 209, 266, 373 and 435): `null`, `false`, `0` and `""` are falsy, any other value and every array is truthy |
| `Common.NotEmpty` | routes/api/profile.js:103-104 | `check(key).not().isEmpty()`: the field is present and neither `null` nor `""`, so `false` and `0` pass |
| `Common.Validates` | routes/api/profile.js:185-187 | the required fields of a route (also profile.js 103-104 and 344-347, posts.js 15 and 167) all pass `not().isEmpty()` |
| `Common.GivenIsNotEmpty` | routes/api/profile.js:209 | a field the loop copies always passed validation; `false` and `0` pass validation but are not copied; a missing, `null` or empty field fails both |
| `Fields.Build` | routes/api/profile.js:208-212 | the object a field loop builds: each listed key the loop writes, with its copied or split value, or no object when some `.split` throws |
| `Fields.BuildFields` | routes/api/profile.js:133-143 | the field loop returns exactly `Build`: every listed field that is truthy is copied, or split and trimmed if it is the list field; the list field is also written when falsy if the rule splits it always; the loop fails exactly when `.split` meets a non-string |
| `Fields.Pick` | routes/api/profile.js:145-147 | a loop without a list field never throws, and its object is the listed truthy fields with their request values, so `socials` holds only the five platform keys |
| `Fields.BuildWhitelists` | routes/api/profile.js:208-212 | a built object holds only listed keys; a copied field was sent truthy and keeps its request value; every listed truthy field is kept; a split field holds the trimmed pieces of a string |
| `Fields.BuiltWhitelisted` | routes/api/profile.js:196-212 | every object a field loop builds holds only listed keys, each with a truthy value |
| `Fields.EducationCoursesAlwaysSplit` | routes/api/profile.js:368-376 | the education loop fails exactly when `courses` is not a string, even an empty one; otherwise `courses` is always written as its trimmed comma-separated pieces |
| `Fields.ProfileSkillsSplitWhenGiven` | routes/api/profile.js:133-143 | the profile loop fails exactly when `skills` is truthy but not a string; `skills` is written iff it is truthy, as its trimmed pieces |
| `Profiles.FindIndex` | routes/api/profile.js:278-280 | `findIndex` returns -1 iff no entry has the id; otherwise an index whose entry has the id and before which no entry has it |
| `Profiles.FindIndexUnique` | routes/api/profile.js:447-449 | when ids are unique, the lookup finds the one entry that has the id |
| `Profiles.Merged` | routes/api/profile.js:286-289 | the merged entry keeps its id; its keys are the old keys plus the supplied keys; supplied fields take the new values and the other fields keep the old ones |
| `Profiles.MergedWhitelisted` | routes/api/profile.js:255-289 | merging the built fields over an entry that holds only whitelisted, truthy fields gives an entry that still does |
| `Profiles.UpdateNeverClears` | routes/api/profile.js:255-269 | an update never removes a field; a field the loop did not write (unlisted, absent or falsy, such as `current: false` or `""`) keeps its old value |
| `Profiles.UnshiftKeepsIdsUnique` | routes/api/profile.js:385 | putting an entry with a new id at the front keeps the ids unique, and the new id is then present |
| `Profiles.SameIdKeepsIdsUnique` | routes/api/profile.js:455-458 | replacing an entry by one with the same id keeps the ids unique |
| `Profiles.SpliceRemovesEntry` | routes/api/profile.js:487-495 | deleting the found entry drops the length by one and keeps the entries before and after in order; with unique ids, no entry with the id remains and every other entry does |
| `Profiles.Profile.constructor` | routes/api/profile.js:166 | a new profile holds the built fields and socials, with empty experience and education lists |
| `Profiles.Profile.Unshift` | routes/api/profile.js:221 | `unshift` makes the list `[e] + old`; the other list and the profile fields are unchanged; given an entry with a new id and whitelisted fields, the ids stay unique and every entry stays whitelisted |
| `Profiles.Profile.Assign` | routes/api/profile.js:286-289 | index assignment replaces only position `i`; the length, the other entries, the other list and the profile fields are unchanged; given a whitelisted entry with the same id, the ids stay unique and every entry stays whitelisted |
| `Profiles.Profile.Splice` | routes/api/profile.js:326 | `splice(i, 1)` makes the list `old[..i] + old[i+1..]`; the other list and the profile fields are unchanged; the ids stay unique and every entry stays whitelisted |
| `Profiles.Profile.Set` | routes/api/profile.js:156-160 | `$set` puts the built fields over the old ones, keeps the unsent fields, replaces `socials` wholesale and leaves both lists alone; given whitelisted fields, the profile fields and `socials` stay whitelisted |
| `Profiles.ProfileStore.Upsert` | routes/api/profile.js:99-176 | the outcome is a validation failure when `status` or `skills` is empty, an uncaught TypeError when `skills` cannot be split, and `Ok` otherwise; an existing profile gets the built fields set over it and fresh `socials`; otherwise a new profile holds exactly the built fields; on failure nothing changes |
| `Profiles.ProfileStore.AddEntry` | routes/api/profile.js:181-233 | for experience, and for education at 340-397: validation, then the field loop, then "Profile not found"; on success the list becomes `[Entry(id, built)] + old` and nothing else changes; on every failure nothing changes |
| `Profiles.ProfileStore.UpdateEntry` | routes/api/profile.js:238-299 | for experience, and for education at 402-468: validation, loop failure, "Profile not found", then "not found" when no entry has the id; on success only the first entry with the id is replaced, by the merge of the built fields over it; it keeps its id and the list keeps its length; on every failure nothing changes |
| `Profiles.ProfileStore.DeleteEntry` | routes/api/profile.js:304-335 | for experience, and for education at 473-504: "Profile not found", then "not found" when no entry has the id; on success the first entry with the id is spliced out and no entry with that id remains; on every failure nothing changes |
| `Profiles.OrderingScenario` | routes/api/profile.js:221-326 | adding entries B, A, N and then deleting B leaves the list N, A (newest first) |
| `Posts.Unliked` | routes/api/posts.js:143-145 | the filtered likes hold exactly the other users' likes and are no longer than before |
| `Posts.UnlikedAbsent` | routes/api/posts.js:143-145 | filtering out a user who has no like changes nothing |
| `Posts.Toggled` | routes/api/posts.js:139-148 | after a toggle the user likes the post iff they did not before |
| `Posts.ToggleTwiceRestores` | routes/api/posts.js:139-148 | two toggles by a user who did not like the post restore `likes` exactly |
| `Posts.ToggleTwiceFromLiked` | routes/api/posts.js:139-148 | two toggles by a user who liked the post move their like to the end |
| `Posts.ToggleKeepsOthers` | routes/api/posts.js:143-147 | a toggle leaves the other users' likes, in their order, as they were |
| `Posts.UnlikedKeepsNoDup` | routes/api/posts.js:143-145 | filtering keeps a duplicate-free likes list duplicate-free |
| `Posts.ToggleKeepsNoDup` | routes/api/posts.js:139-148 | if every user likes the post at most once, that still holds after a toggle |
| `Posts.UnlikeRemovesOne` | routes/api/posts.js:143-145 | with unique likes, unliking removes exactly the caller's one entry at its position |
| `Posts.FindComment` | routes/api/posts.js:219 | `find` returns nothing iff no comment has the id; otherwise the first comment with the id |
| `Posts.WithoutComment` | routes/api/posts.js:233-235 | the filtered comments are exactly those whose id differs, so none with the id remains |
| `Posts.WithoutCommentKeepsUnique` | routes/api/posts.js:233-235 | filtering keeps comment ids unique |
| `Posts.WithoutCommentRemovesOne` | routes/api/posts.js:233-235 | with unique ids, deleting a comment removes exactly that comment and the rest keep their order |
| `Posts.MayDeleteComment` | routes/api/posts.js:226-229 | a comment may be deleted by the post's author or by the comment's author |
| `Posts.MayDeletePost` | routes/api/posts.js:112 | a post may be deleted by its author only |
| `Posts.PostPermissionIsStricter` | routes/api/posts.js:226-229 | whoever may delete the post may delete any of its comments; a comment author who is not the post author may delete the comment but not the post |
| `Posts.Post.constructor` | routes/api/posts.js:26-33 | a new post carries the text, the author's id and a snapshot of the author's name and avatar, with no likes or comments |
| `Posts.PostStore.Create` | routes/api/posts.js:13-43 | empty text is a validation failure; a missing author record is a server error; otherwise the new post is stored under the new id with the snapshot; nothing else changes |
| `Posts.PostStore.Delete` | routes/api/posts.js:103-126 | "Post not found", then a server error for a missing requester record, then "Unauthorized access" unless the requester is the post's author; only on success is the post removed from the store |
| `Posts.PostStore.ToggleLike` | routes/api/posts.js:131-160 | "Post not found" with no change; otherwise `likes` becomes the toggled list and the comments are unchanged |
| `Posts.PostStore.AddComment` | routes/api/posts.js:165-206 | empty text, "Post not found" and "User not found", in that order, change nothing; otherwise `comments` becomes `[c] + old`, where `c` carries the new id, the author's id, the text and the author's current name and avatar |
| `Posts.PostStore.DeleteComment` | routes/api/posts.js:211-246 | "Post not found", "Comment not found", then "Unauthorized access" unless the requester is the post's or the found comment's author, each with no change; on success every comment with the id is filtered out and the likes are unchanged |
| `Posts.ModerationScenario` | routes/api/posts.js:226-235 | after A posts and B comments, an unrelated C is refused and A, the post's author, deletes the comment |

## Left out

- `routes/api/users.js` and `routes/api/auth.js` are not part of this model. They are registration and login, built on bcrypt, JSON web tokens, gravatar and the user model.
- `config/db.js` is not part of this model. It holds the database connection and the process exit.
- The `auth` middleware is not part of this model. The caller's id is a parameter.
- The GitHub repository lookup is left out (`routes/api/profile.js:509-536`). It is a network call.
- The list and read queries are left out (`routes/api/profile.js:13-94`, `routes/api/posts.js:48-98`). They are store reads with `populate` and `sort`.
- The two-step user and profile deletion is left out (`routes/api/profile.js:57-71`). It is two store deletes with no decision logic.
- HTTP status codes, JSON response shapes and console logging are left out. Only the abstract outcome is kept.
- The `err.kind == "ObjectId"` cast-error branches are left out. Ids are plain strings, so a malformed id is just an id that is not found.
- Storage failures are left out. Every `save`, `findOne` and `findOneAndUpdate` is taken to succeed.
- Concurrency is left out. The `findOne`/`findOneAndUpdate` pair in the upsert, and two racing requests on one document, are taken to run one at a time.
- `Post.likes`: each like `{ user }` is reduced to the user's id (`routes/api/posts.js:147`). Any `_id` the database gives the like subdocument is dropped, and no property depends on it.
- Timestamps are left out. Post and comment dates are not modelled.
- Id generation is left out. New ids are parameters.
- Schema casting is left out, because the Mongoose schemas are not part of this model. A stored field holds the request value as sent.
- Validation is modelled on the request body only. express-validator's `check` also looks at the query, params, headers and cookies.
- Body values are null, booleans, integers, strings and lists of strings. Nested objects and non-integer numbers (NaN, fractions) are not modelled.
- A list value in a body counts as non-empty for `not().isEmpty()`. express-validator checks arrays element by element, and that is not modelled.
- Strings are sequences of Unicode code points. JavaScript compares UTF-16 code units, which differs only for characters outside the Basic Multilingual Plane.
- The unreachable `b;` statements after `return` are left out (`routes/api/profile.js:227`, `routes/api/profile.js:391`).
- The shadowed `GET /:user_id` route is left out (`routes/api/posts.js:82`). The `/:id` route is registered first and catches its requests.
