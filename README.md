# Property listing back end and forms, modelled in Dafny

The system is a property-listing web application. It has three halves:

- An Express back end keeps properties, users and leads (a buyer's enquiry about a property, addressed to an agent) in a database.
- A bearer-token middleware guards the back end's routes.
- A React front end has an add-property form, an image carousel and a profile page.

This project models the logic of those pieces with the database replaced by in-memory tables:

| module | file | models |
|---|---|---|
| `Common` | `common.dfy` | ids, `Option`, a number that may be NaN, the reply of a handler: a status with a value, or a status with a message |
| `Text` | `text.dfy` | JavaScript's `trim`, `split` and `join` on one character; the text sanitiser as written and as intended; the comma-separated fallback for features |
| `Properties` | `properties.dfy` | the property handlers over a `PropertyStore` class: create, update, delete, fetch by id (view counter) and the caller's listing, plus the image-list and features rules they share |
| `Users` | `users.dfy` | the credential handlers over a `UserStore` class: register, login, profile read and update, password change |
| `Leads` | `leads.dfy` | the lead handlers over a `LeadStore` class: create, three listings, fetch, update, delete |
| `Session` | `session.dfy` | the bearer-token middleware as a decision: pass through, accept with an identity, or reject with 401 |
| `AddPropertyForm` | `add_property_form.dfy` | the add-property page: image selection check, index-aligned previews, image removal, the multipart body of the submit |
| `Carousel` | `carousel.dfy` | the image index of the property details page: wrap-around arrows and thumbnail selection |
| `ProfileForm` | `profile_form.dfy` | the profile page's two submit handlers and their local password checks |

Some collaborators are outside the model and are passed in as function-valued parameters instead:

- bcrypt's hash and compare;
- token signing and verification;
- `parseInt`, `parseFloat` and `JSON.parse`;
- the media-host upload;
- `URL.createObjectURL`;
- the account service the profile page calls.

Where the code relies on a property of one of these, the property is stated as a hypothesis, e.g. `Users.Sound`: a password verifies against its own hash.

A handler that changes a table is a method of its store class. Its contract gives:

- the reply;
- the whole new table, tied to a specification function (`NewRecord`, `Merge`, `Viewed`, `Patched`).

Lemmas state the promises about those functions.

## Model

| member | source | states |
|---|---|---|
| Text.Trim | backend/src/controllers/property.controller.js:17-20 | the result has no whitespace at either end, is no longer than the input, holds only the input's characters, and a trimmed input is returned as is |
| Text.TrimKeepsMiddle | backend/src/controllers/property.controller.js:17-20 | the trimmed text is the run of the input between the leading and trailing whitespace, and everything outside that run is whitespace |
| Text.TrimIsSlice | backend/src/controllers/property.controller.js:17-20 | the trimmed text is the input's slice that starts after the leading whitespace |
| Text.TrimDropsOnlyTrailingSpace | backend/src/controllers/property.controller.js:17-20 | everything after the trimmed run is whitespace |
| Text.TrimDropsLeadingSpace | backend/src/controllers/property.controller.js:17-20 | a leading whitespace character does not change the trimmed result |
| Text.SplitJoin | backend/src/controllers/property.controller.js:15-18 | splitting the join of pieces that do not hold the separator gives back exactly those pieces |
| Text.JoinSplit | backend/src/controllers/property.controller.js:15-18 | joining the pieces of a split gives back the string |
| Text.NormalizeNewlines | backend/src/controllers/property.controller.js:9-11 | no carriage return survives, and text without one is unchanged |
| Text.ReplacementsUnifyLineBreaks | backend/src/controllers/property.controller.js:9-11 | the two global replacements equal one left-to-right pass that reads "\r\n" and each lone "\r" as one "\n" |
| Text.NormalizeNewlinesUnifies | backend/src/controllers/property.controller.js:9-11 | the newline normalisation is that single pass |
| Text.NormalizeExamples | backend/src/controllers/property.controller.js:9-11 | `"a\rb"` and `"a\r\nb"` both become `"a\nb"` |
| Text.CollapseLeavesShortRuns | backend/src/controllers/property.controller.js:12 | the `\n{3,}` replacement alone leaves no three newlines in a row |
| Text.CollapseKeepsShortRuns | backend/src/controllers/property.controller.js:12 | text with no three newlines in a row passes the replacement unchanged |
| Text.SanitizeTextAsWritten | backend/src/controllers/property.controller.js:5-21 | the sanitiser as written returns text with no carriage return in which every line and the whole are trimmed |
| Text.SanitizeAsWrittenKeepsTripleNewline | backend/src/controllers/property.controller.js:12-18 | on `"a\n \n \nb"` the sanitiser as written returns three newlines in a row, and sanitising that output again changes it: the "max 2 consecutive newlines" promise and idempotence both fail |
| Text.CollapseKeepsPieces | backend/src/controllers/property.controller.js:12 | the `\n{3,}` replacement removes only empty pieces of the split: the non-empty pieces stay, in order |
| Text.TrimJoinKeepsLines | backend/src/controllers/property.controller.js:15-20 | trimming the join of clean lines keeps every non-blank line, in order |
| Text.SanitizeAsWrittenKeepsLines | backend/src/controllers/property.controller.js:5-21 | the sanitiser as written keeps every non-blank line of the input (after the newline normalisation), trimmed and in order |
| Text.SanitizeText | backend/src/controllers/property.controller.js:5-21 | the sanitiser as intended returns text with no carriage return, every line and the whole trimmed, and never three newlines in a row |
| Text.SqueezeBlankLines | backend/src/controllers/property.controller.js:12 | keeps the first line, keeps only input lines, and leaves no two blank lines in a row |
| Text.SqueezeKeepsNonBlank | backend/src/controllers/property.controller.js:12 | every non-blank line survives the squeeze, in its order |
| Text.SqueezeKeepsLast | backend/src/controllers/property.controller.js:12 | the last line survives the squeeze |
| Text.SqueezeKeepsSingleBlanks | backend/src/controllers/property.controller.js:12 | lines with no two blank ones in a row are left as they are |
| Text.SplitNoBlankRun | backend/src/controllers/property.controller.js:12-18 | the lines of a trimmed text with at most two newlines in a row hold no two blank lines in a row |
| Text.SanitizeTextKeepsCleanText | backend/src/controllers/property.controller.js:5-21 | the corrected sanitiser returns clean text with at most two newlines in a row unchanged |
| Text.SanitizeTextIdempotent | backend/src/controllers/property.controller.js:5-21 | sanitising the corrected sanitiser's output again changes nothing |
| Text.SanitizeTextKeepsLines | backend/src/controllers/property.controller.js:5-21 | the corrected sanitiser keeps every non-blank line of the input (after the newline normalisation), trimmed and in order |
| Text.SanitizersAgreeOnLines | backend/src/controllers/property.controller.js:5-21 | both sanitisers return the same non-blank lines, in the same order |
| Text.SanitizeTextSqueezesBlankLines | backend/src/controllers/property.controller.js:12-18 | the corrected sanitiser turns `"a\n \n \nb"` into `"a\n\nb"` |
| Text.TrimJoinClean | backend/src/controllers/property.controller.js:15-20 | trimming the join of clean lines gives clean text |
| Text.TrimJoinAtMostTwoNewlines | backend/src/controllers/property.controller.js:15-20 | trimming the join of clean lines with no two blank lines in a row gives at most two newlines in a row |
| Text.DropEmpty | backend/src/controllers/property.controller.js:100 | `.filter(Boolean)` keeps only non-empty items of the input, keeps every non-empty item, and a list with none empty is unchanged |
| Text.DropEmptyAppend | backend/src/controllers/property.controller.js:100 | filtering a concatenation filters each part, so the kept items stay in their order |
| Text.SplitFeatures | backend/src/controllers/property.controller.js:100 | the comma fallback yields only non-empty, trimmed, comma-free items |
| Text.SplitFeaturesKeepsPieces | backend/src/controllers/property.controller.js:100 | every comma piece whose trim is non-empty appears, trimmed, in the result |
| Text.SplitFeaturesPiece | backend/src/controllers/property.controller.js:100 | a piece with no comma yields its trim, or nothing when that is empty |
| Text.SplitFeaturesComma | backend/src/controllers/property.controller.js:100 | the items of `a + "," + b` are the items of `a` followed by the items of `b`, in order |
| Text.SplitFeaturesJoin | backend/src/controllers/property.controller.js:100 | the comma fallback reads a comma-joined list of such items back, in order |
| Text.SplitFeaturesExample | backend/src/controllers/property.controller.js:100 | `"Gym, Pool"` yields `["Gym", "Pool"]` |
| Properties.CleanOrRaw | backend/src/controllers/property.controller.js:109-112 | `sanitizeText(v) \|\| v`: absent stays absent, truthy exactly when the raw value is, the sanitised text unless it is empty, else the raw value |
| Properties.IntOrZero | backend/src/controllers/property.controller.js:114 | `parseInt(v) \|\| 0`: NaN gives 0 and a number is kept, so the result is always a number |
| Properties.RealOrZero | backend/src/controllers/property.controller.js:116 | `parseFloat(v) \|\| 0`: NaN gives 0 and a number is kept, so the result is always a number |
| Properties.SanitizeEmptyText | backend/src/controllers/property.controller.js:5-21 | the sanitiser leaves the empty string empty |
| Properties.ParseFeatures | backend/src/controllers/property.controller.js:94-105 | absent or empty gives `[]`; a JSON array is taken as parsed; a list is taken as is; unparsable text gives exactly the comma fallback `SplitFeatures` of it |
| Properties.CommaFeaturesRoundTrip | backend/src/controllers/property.controller.js:94-105 | a comma-joined list of clean items that is not JSON is read back as exactly those items, in order |
| Properties.CallerImages | backend/src/controllers/property.controller.js:82-92 | the `images` field adds nothing when falsy, its array's elements when it parses as an array, and itself verbatim when it does not parse |
| Properties.CreateImages | backend/src/controllers/property.controller.js:58-92 | the new record's image list is the uploads' entries followed by the caller's images |
| Properties.CreateUploadsInMemory | backend/src/controllers/property.controller.js:60-79 | with every file held in memory, file `i` contributes entry `2i` (its uploaded URL) and entry `2i + 1` (its path) |
| Properties.KeptImages | backend/src/controllers/property.controller.js:169-181 | `existingImages` contributes its array when it parses as one, and nothing otherwise |
| Properties.UpdateImages | backend/src/controllers/property.controller.js:169-202 | the updated image list is the kept images followed by the entries of the uploaded files |
| Properties.UpdateImagesUsable | backend/src/controllers/property.controller.js:169-202 | with every file usable, the list is the kept images, then at index `k + i` file `i`'s uploaded URL, or its path when it has no bytes |
| Properties.UpdateUploads | backend/src/controllers/property.controller.js:184-201 | the files add at most one entry each |
| Properties.UpdateUploadsUsable | backend/src/controllers/property.controller.js:184-201 | with every file usable, file `i` contributes entry `i`: its uploaded URL when held in memory, else its path |
| Properties.UpdateUploadsAppend | backend/src/controllers/property.controller.js:184-201 | the entries of two batches of files are those of the first followed by those of the second |
| Properties.StoredFilesAtCreateAndUpdate | backend/src/controllers/property.controller.js:60-79 | files that arrive with a path and no bytes are all dropped at create but each kept, by path and in order, at update |
| Properties.CollectCreateImages | backend/src/controllers/property.controller.js:58-92 | the loop at create computes exactly `CreateImages` |
| Properties.CollectUpdateImages | backend/src/controllers/property.controller.js:169-202 | the loop at update computes exactly `UpdateImages` |
| Properties.NewRecord | backend/src/controllers/property.controller.js:107-123 | owner is the caller; title, description and location are `sanitizeText(v) \|\| v`; type defaults to "For Sale"; bedrooms and bathrooms are `parseInt(v) \|\| 0` and area `parseFloat(v) \|\| 0`, while price is `parseFloat(v)` and may be NaN; `yearBuilt` is the parsed year when truthy, else null; parking is the cleaned text when truthy, else null; features parsed; images as given |
| Properties.MergeText | backend/src/controllers/property.controller.js:221-230 | `(sanitised \|\| raw) \|\| stored`: a falsy input keeps the stored value, a truthy one gives its cleaned value |
| Properties.ParsedOr | backend/src/controllers/property.controller.js:223-228 | `v ? parse(v) : stored`: a truthy input gives its parse, a falsy one the stored value |
| Properties.YearOr | backend/src/controllers/property.controller.js:229 | `yearBuilt ? parseInt(yearBuilt) : stored`, the parsed year when truthy |
| Properties.Merge | backend/src/controllers/property.controller.js:218-233 | title, description, location and parking are `(sanitised \|\| raw) \|\| stored`; price, bedrooms, bathrooms and area are the parse of a truthy input, else the stored value; `yearBuilt` likewise; the type is the input when truthy; features and images are replaced only by a non-empty list; id, owner, views and creation time are untouched |
| Properties.MergeNothing | backend/src/controllers/property.controller.js:218-233 | an update with an empty body and no files writes the record back unchanged |
| Properties.MergeTwice | backend/src/controllers/property.controller.js:218-233 | the same update applied twice writes what it writes once |
| Properties.Viewed | backend/src/controllers/property.controller.js:276-279 | views become (old, or 0 when absent) + 1 and nothing else changes |
| Properties.ViewedTimesCounts | backend/src/controllers/property.controller.js:276-279 | `n` fetches add exactly `n` views and change nothing else |
| Properties.InsertNewest | backend/src/controllers/property.controller.js:293 | inserting into a newest-first list keeps it newest first and adds exactly that record |
| Properties.OwnedIds | backend/src/controllers/property.controller.js:291 | exactly the ids of the records the caller owns |
| Properties.PropertyStore.AddProperty | backend/src/controllers/property.controller.js:35-125 | stores `NewRecord` under a fresh id, with the image list `CreateImages`, and returns it with 200 |
| Properties.PropertyStore.UpdateProperty | backend/src/controllers/property.controller.js:133-236 | 404 "Property not found" or 403 "Not allowed" with the table unchanged; otherwise the `Merge` of the stored record is stored and returned |
| Properties.PropertyStore.DeleteProperty | backend/src/controllers/property.controller.js:243-257 | the same 404 and 403 guards with the table unchanged; otherwise only that id is removed |
| Properties.PropertyStore.GetPropertyById | backend/src/controllers/property.controller.js:264-281 | 404 with the table unchanged; otherwise the record as it was before the increment is returned and `Viewed` of it is stored |
| Properties.PropertyStore.GetMyProperties | backend/src/controllers/property.controller.js:288-295 | the list holds exactly the caller's records, each once, newest `createdAt` first |
| Users.ProfileOf | backend/src/controllers/auth.controllers.js:69 | the profile carries id, username, email and role, and no password hash |
| Users.NewUser | backend/src/controllers/auth.controllers.js:23-33 | the role given, or "buyer" when falsy; the stored password is the hash of the password, which verifies against it when bcrypt is sound |
| Users.RoleDefaults | backend/src/controllers/auth.controllers.js:31 | no role or an empty role gives "buyer"; a caller-supplied "admin" is accepted |
| Users.UserStore.FindByEmail | backend/src/controllers/auth.controllers.js:17 | finds a user exactly when one holds the email, and the one found holds it |
| Users.UserStore.Register | backend/src/controllers/auth.controllers.js:6-35 | 400 with the table unchanged when name, email or password is falsy or the email is taken; otherwise exactly one user, `NewUser`, is added and returned with 201 |
| Users.UserStore.Login | backend/src/controllers/auth.controllers.js:43-56 | "Invalid email" and "Wrong password" are distinct 400s; success returns a token signed for the user's id and the user, and changes nothing |
| Users.UserStore.GetProfile | backend/src/controllers/auth.controllers.js:63-74 | 404 "User not found", or the caller's profile |
| Users.UserStore.UpdateProfile | backend/src/controllers/auth.controllers.js:81-98 | 400 "Email already used" only when another user holds the email; otherwise only the username (when given) and the email change, and the profile is returned |
| Users.UserStore.ChangePassword | backend/src/controllers/auth.controllers.js:105-127 | 404 for a missing user; 400 "Wrong current password" with the table unchanged; otherwise only that user's hash changes, after which the new password verifies |
| Leads.AgentLeads | backend/src/controllers/lead.controller.js:23-30 | exactly the stored leads addressed to the caller as agent |
| Leads.BuyerLeads | backend/src/controllers/lead.controller.js:37-44 | exactly the stored leads the caller sent |
| Leads.AllLeads | backend/src/controllers/lead.controller.js:51-56 | every stored lead |
| Leads.ListingsCover | backend/src/controllers/lead.controller.js:23-56 | every lead is in the full listing, its buyer's listing and, when it names one, its agent's listing |
| Leads.GetLeadById | backend/src/controllers/lead.controller.js:63-74 | 404 "Lead not found", or the lead, whoever asks |
| Leads.Patched | backend/src/controllers/lead.controller.js:91-94 | each field the body carries, the id included, is overwritten, and each other is kept; a nullable field carried as `null` is cleared |
| Leads.NullAgentLeavesListing | backend/src/controllers/lead.controller.js:91-94 | a body setting the agent to `null` takes the lead out of that agent's listing and keeps it in its buyer's |
| Leads.NullErasesMessage | backend/src/controllers/lead.controller.js:91-94 | a body setting the message to `null` erases it and changes nothing else |
| Leads.PatchedLaws | backend/src/controllers/lead.controller.js:91-94 | an empty body changes nothing, and a body applied twice acts as once |
| Leads.UpdateMovesId | backend/src/controllers/lead.controller.js:91-94 | a body carrying a free id moves the lead: it answers under the new id, no longer under the old, and the number of leads is unchanged |
| Leads.UpdateMovesBuyer | backend/src/controllers/lead.controller.js:81-96 | an update can move a lead to another buyer, out of the first buyer's listing and into the other's |
| Leads.LeadStore.CreateLead | backend/src/controllers/lead.controller.js:3-16 | the buyer is the caller, the other fields are stored as given, and the caller's buyer listing grows by exactly the new lead |
| Leads.LeadStore.UpdateLead | backend/src/controllers/lead.controller.js:81-96 | 404 with the table unchanged; 500 with the table unchanged when the body moves the lead onto another lead's id; otherwise `Patched` is stored under its own id in place of the old entry and returned, with no ownership check |
| Leads.LeadStore.DeleteLead | backend/src/controllers/lead.controller.js:103-114 | 404 with the table unchanged, or exactly that lead removed from the table and from the full listing |
| Session.BearerToken | backend/src/middlewares/auth.middleware.js:17 | the token is the first space-separated field after "Bearer " and holds no space |
| Session.BearerTokenWhole | backend/src/middlewares/auth.middleware.js:17 | with no further space, the token is all that follows "Bearer " |
| Session.BearerTokenSecondField | backend/src/middlewares/auth.middleware.js:17 | `"Bearer a b"` carries the token `"a"` |
| Session.BearerTokenDoubleSpace | backend/src/middlewares/auth.middleware.js:17 | `"Bearer  a"` carries the empty token |
| Session.Authenticate | backend/src/middlewares/auth.middleware.js:4-34 | OPTIONS exactly passes through; a missing or non-"Bearer " header gives "Not authorized"; a failed verification "Invalid token"; an unknown id "User not found"; every rejection is 401; an accepted identity is the stored user's id and role |
| Session.LowerCaseSchemeRejected | backend/src/middlewares/auth.middleware.js:13-15 | a lower-case "bearer" scheme is "Not authorized" |
| AddPropertyForm.FirstProblem | frontend/src/pages/AddProperty.jsx:40-52 | no message exactly when every file has an allowed type and is at most 5 MiB; otherwise one of the two messages |
| AddPropertyForm.FirstOffenderDecides | frontend/src/pages/AddProperty.jsx:43-52 | the first failing file decides the message, its type checked before its size |
| AddPropertyForm.SizeLimitInclusive | frontend/src/pages/AddProperty.jsx:41-51 | exactly 5 MiB passes and one byte more is "too large" |
| AddPropertyForm.RemoveAt | frontend/src/pages/AddProperty.jsx:62-63 | the element at the index goes and the others keep their order; an index out of range changes nothing |
| AddPropertyForm.FieldNames | frontend/src/pages/AddProperty.jsx:77-94 | the text entries are the eight required names in order, then each optional name whose value is non-empty |
| AddPropertyForm.FormDataNames | frontend/src/pages/AddProperty.jsx:75-99 | the body starts with the eight required fields in order, and holds `yearBuilt`, `parking` and `features` exactly when non-empty |
| AddPropertyForm.FormDataImages | frontend/src/pages/AddProperty.jsx:97-99 | the body ends with one `images` entry per selected file, in order, and has no other `images` entry |
| AddPropertyForm.AddPropertyPage.constructor | frontend/src/pages/AddProperty.jsx:9-26 | no images, no previews, no error, empty inputs with the type "For Sale" |
| AddPropertyForm.AddPropertyPage.HandleImageChange | frontend/src/pages/AddProperty.jsx:36-59 | a selection with a failing file sets the first failure's message and leaves the previous selection and previews; otherwise the selection is the files and the previews are index-aligned with them |
| AddPropertyForm.AddPropertyPage.RemoveImage | frontend/src/pages/AddProperty.jsx:61-66 | the same index leaves both lists, which stay aligned |
| AddPropertyForm.AddPropertyPage.BuildFormData | frontend/src/pages/AddProperty.jsx:75-99 | the body built by the appends is the field entries followed by one `images` entry per selected file |
| Carousel.ArrowsStayInRange | frontend/src/pages/PropertyDetails.jsx:129-137 | both arrows keep the index inside a non-empty gallery |
| Carousel.ArrowsInverse | frontend/src/pages/PropertyDetails.jsx:129-137 | next then previous, and previous then next, return to the same image |
| Carousel.NextTimesModulo | frontend/src/pages/PropertyDetails.jsx:137 | `k` presses of next advance the index by `k` modulo the number of images |
| Carousel.FullTurn | frontend/src/pages/PropertyDetails.jsx:137 | one press of next per image returns to the start |
| Carousel.ImageCarousel.constructor | frontend/src/pages/PropertyDetails.jsx:10 | the index starts at 0 |
| Carousel.ImageCarousel.Next | frontend/src/pages/PropertyDetails.jsx:126-137 | offered only with more than one image; the last index wraps to 0, otherwise one is added |
| Carousel.ImageCarousel.Prev | frontend/src/pages/PropertyDetails.jsx:126-129 | offered only with more than one image; 0 wraps to the last index, otherwise one is taken away |
| Carousel.ImageCarousel.SelectThumbnail | frontend/src/pages/PropertyDetails.jsx:150-153 | only the first six images have a thumbnail, and a click shows that image |
| ProfileForm.PasswordProblem | frontend/src/pages/Profile.jsx:64-75 | no problem exactly when the new password matches its confirmation and has at least 6 characters; a mismatch is reported before a short password |
| ProfileForm.ErrorText | frontend/src/pages/Profile.jsx:93-96 | the error's message, or the fallback when it has none |
| ProfileForm.MismatchReportedFirst | frontend/src/pages/Profile.jsx:64-75 | a short password that also differs from its confirmation is reported as a mismatch |
| ProfileForm.ResetFormRefused | frontend/src/pages/Profile.jsx:69-89 | the emptied form a successful change leaves behind is refused locally as too short |
| ProfileForm.ProfilePage.HandleProfileSubmit | frontend/src/pages/Profile.jsx:40-58 | the profile inputs are sent; success ends editing with "Profile updated successfully"; failure keeps editing and shows the error or "Unable to update profile"; loading is off afterwards |
| ProfileForm.ProfilePage.HandlePasswordSubmit | frontend/src/pages/Profile.jsx:60-100 | a local problem is shown with no service call and nothing else touched; otherwise the current and new passwords are sent; success empties all three fields and shows "Password updated successfully"; failure keeps them and shows the error or "Failed to update password" |

## Left out

- The database: tables are maps, and ids come from a counter in each store. `createdAt` is a parameter of create.
- Views: a new record's `views` is left absent, where the database default would apply; the fetch treats an absent count as 0.
- The read-then-write race on the view counter under concurrent fetches: the model is sequential.
- Errors the database raises are not modelled:
  - a NaN price;
  - a NaN `yearBuilt` at create, from `parseInt` of a truthy text that is not a number;
  - at update, a NaN `bedrooms`, `bathrooms` or `yearBuilt` from `parseInt`, or a NaN `area` from `parseFloat`, of a truthy text that is not a number (`Properties.ParsedOr`, `Properties.YearOr`);
  - a lead update body carrying a key the lead table lacks, or `null` for the buyer;
  - a `features` value that is not an array;
  - a missing lead or property reference.
- Properties.ParseFeatures: a `features` string that parses as JSON but not as an array of strings gives `[]`, where the source would store the parsed value. `JSON.parse` is a parameter that classifies text as a string array, unparsable, or some other value.
- Properties.CallerImages: an `images` string that parses as JSON but not as an array adds nothing, as in the source. A non-string `images` or `existingImages` value is not modelled.
- Properties.CallerImages and Properties.KeptImages: a JSON array with an element that is not a string, such as `"[1]"`, is read as "some other value". The model then adds nothing at create and keeps nothing at update, and the write succeeds. The code puts the parsed elements into the image list, and the database then rejects the write, so the handler answers 500. That database error is not modelled.
- Properties.CleanOrRaw: the handlers store the corrected sanitiser's output, not the output as written. They differ only in the blank lines between the text's lines: `Text.SanitizersAgreeOnLines` proves that both give the same non-blank lines, in order. For example, `"a\n \n \nb"` is stored as `"a\n\nb"` where the code stores `"a\n\n\nb"` (see "## Findings").
- Leads.Patched: a body key the lead table lacks, or `null` for the buyer, is not modelled. The database rejects either write, and the handler answers 500.
- Leads.LeadStore.UpdateLead: ids come from a counter, so the counter is moved past an id an update writes. The database's own id generation is not modelled.
- Properties.CreateUploads: a file held in memory without a path pushes the empty string, where the source pushes `undefined`.
- `imagesToDelete` is read by the update handler but never used, so it is not modelled.
- The uploads to the media host, bcrypt and the JSON Web Token library are function parameters. Salting, token expiry and the secret are not modelled.
- Users.UserStore.Login: the stored password is compared by the `verify` parameter. Its soundness is a hypothesis, not proved.
- Errors caught by the handlers' `catch` blocks are not modelled, apart from the 500 replies for a missing email or password:
  - failure of the database;
  - failure of the media host;
  - failure of bcrypt.
- Session.Authenticate: a database failure inside the middleware's `try` block would also end in "Invalid token". The model only produces that message for a token that does not verify.
- `getProperties` and the route files are not part of this model. Neither is the role middleware: its code is not available.
- ProfileForm.PasswordProblem: the length is counted in characters, while JavaScript counts UTF-16 code units.
- The intermediate `loading` states of the asynchronous handlers are not modelled: only the value they leave behind.
- The following are not modelled:
  - `updateUser`, navigation and the add-property success timer;
  - the add-property submit's service call and messages, beyond the body it builds;
  - rendering.
- Carousel.ImageCarousel: the gallery size is fixed for the lifetime of the object, as it is while one property is shown.

## Findings

| source | as written | input that shows it | evidently intended | confidence | as-written member | corrected member |
|---|---|---|---|---|---|---|
| backend/src/controllers/property.controller.js:12-18 | collapses runs of three or more newlines before trimming each line, so lines holding only whitespace become empty after the collapse and a run of three or more newlines survives | `"a\n \n \nb"` gives `"a\n\n\nb"`, and sanitising that again gives `"a\n\nb"` | at most two newlines in a row in the result, as the comment says, and a sanitiser that leaves its own output alone | not executed | Text.SanitizeAsWrittenKeepsTripleNewline | Text.SanitizeText |

The property handlers use the corrected `Text.SanitizeText`. `Text.SanitizeTextIdempotent` proves that it leaves its own output unchanged.

The model proves one more difference between the handlers, `Properties.StoredFilesAtCreateAndUpdate`. It is a lemma and not a finding, because nothing in the code says which behaviour is meant:

- a file that arrives with a path but no bytes adds nothing at create;
- the same file adds its path at update.
