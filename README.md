# Equipment manager backend, modelled in Dafny

This project models the request-handling core of the equipment manager: an
Express backend over PostgreSQL that keeps brands of routers, their models with
reset instructions and possible default passwords, and the user accounts of the
people who look them up. The model covers these parts:

- the brands, models, users, auth and upload controllers;
- the JWT middleware and the route table that puts guards in front of each handler;
- two pieces of the admin panel: the comma-separated password text ↔ list
  conversion of the model form, and the user-edit prefill.

The relational store is held in memory by one class, `Store.Database`.

- **Tables.** Its fields are the `users`, `brands`, `models` and
  `activity_logs` tables, plus the `./uploads` directory. Each is a sequence of
  rows in insertion order.
- **Ids.** The SERIAL counters that hand out ids are fields too.
- **Invariant.** `Valid()` holds the constraints that the schema and the
  handlers keep:
  - unique ids;
  - user names unique, compared exactly;
  - at most one admin;
  - brand names unique ignoring case;
  - every model belongs to an existing brand;
  - file names unique.
- **Writes.** Every write to a table is a method of the class that keeps
  `Valid()`. Beside each method is a value-level lemma (`Store.AddUserOk`,
  `Store.SetBrandOk`, …) that proves the invariant for the new table.

Each handler is modelled in its source's own form:

- **Mutating handlers** (create, update, delete, login, logout, upload) are
  methods that `modify` the database. Each checks in the source's order and
  returns early on the first failure. Each states its reply and its whole new
  state:
  - a rejected call leaves the database `unchanged`;
  - a successful mutation appends exactly one log entry.
- **Read-only handlers** are functions that read the database. They state the
  rows they return and their order.
- **Middleware and routes** are pure:
  - a `Step` per middleware;
  - `Run` for a chain;
  - the route table as a constant;
  - `Handle` for what becomes of a request.

The `SET` lists that updateUser and updateModel build one field at a time are
methods (`PendingUser`, `PendingRow`). They are proved equal to a pure
`PatchedUser`/`Patched` row.

Things outside the model are parameters:

- `hash` and `checkPassword` stand for bcrypt;
- `sign` and `verify` stand for `jwt.sign`/`jwt.verify`;
- `Json.Codec(parse, serialize)` stands for `JSON.parse`/`JSON.stringify`.

`Lawful(c)` is the single law the proofs use: parsing what was serialised gives
the value back. `KnowsLiterals(c)` pins the three literals the admin panel
parses (`[]`, `null` and the empty text).

Strings and orderings:

- SQL `LOWER` is ASCII lowercasing.
- `trim` removes JavaScript's whitespace set.
- `ORDER BY` is a sortedness predicate over code-point order, with no
  particular order among ties.
- Sorting uses one insertion sort (`Seqs.SortBy`), proved sorted and a
  permutation.

deleteUser answers 400, not 409, to a request to delete one's own account.
createModel and updateModel store a password string that does not parse as
JSON verbatim. The model follows the handlers in both.

`password.length` counts UTF-16 code units, so the password minimum is stated
with `Text.Utf16Length`, which counts two units for a character beyond the
Basic Multilingual Plane.

## Model

| member | source | states |
|---|---|---|
| Text.Trim | equipment-manager/backend/controllers/brandsController.js:76 | `trim` returns a string with no whitespace at either end, no longer than its input, made of the input's characters |
| Text.TrimCutsOnlyOuterSpace | equipment-manager/backend/controllers/brandsController.js:76 | the trimmed string is an infix of the input with only whitespace before and after it, so nothing inside is removed |
| Text.TrimmedInfix | equipment-manager/backend/controllers/brandsController.js:76 | cutting whitespace off the front and then off the back leaves an infix with whitespace on both sides |
| Text.TrimAfterSpaces | equipment-manager/frontend/src/components/AdminPanel.jsx:492 | trimming whitespace followed by a trimmed string gives that string |
| Text.BlankIffAllSpace | equipment-manager/backend/controllers/brandsController.js:76 | a string trims to empty exactly when every character is whitespace |
| Text.Split | equipment-manager/frontend/src/components/AdminPanel.jsx:491 | `split(',')` gives at least one piece and no piece contains the separator |
| Text.SplitAtSeparator | equipment-manager/frontend/src/components/AdminPanel.jsx:491 | splitting `a + sep + b`, with no separator in `a`, gives `a` followed by the pieces of `b` |
| Text.SplitJoin | equipment-manager/frontend/src/components/AdminPanel.jsx:480-491 | splitting what `join` built from separator-free pieces gives the pieces back |
| Text.JoinSnoc | equipment-manager/frontend/src/components/AdminPanel.jsx:480 | joining one more piece appends the separator and the piece |
| Text.Lower | equipment-manager/backend/controllers/brandsController.js:85 | SQL `LOWER`: same length, each ASCII capital becomes its lowercase letter (code + 32), every other character unchanged |
| Text.Contains | equipment-manager/backend/controllers/modelsController.js:61-62 | `LIKE '%term%'` with a literal term: a term found in the text is no longer than it, and every prefix of the text is found |
| Text.Utf16Length | backend/controllers/usersController.js:92 | `password.length`: between one and two code units per character, exactly one each when all lie in the Basic Multilingual Plane |
| Text.StrLeTotal | equipment-manager/backend/controllers/brandsController.js:16 | the code-point order of names is total, so every `ORDER BY name` listing exists |
| Seqs.SortBy | equipment-manager/backend/controllers/brandsController.js:16 | the result is sorted by the given total order and is a permutation of the input |
| Seqs.Filter | equipment-manager/backend/controllers/brandsController.js:278-282 | a `WHERE` selection holds exactly the rows of the table that satisfy the condition, and no more rows than the table |
| Seqs.FilterSplit | equipment-manager/backend/controllers/brandsController.js:224-229 | the rows of a brand and the rows of the other brands add up to the whole table |
| Seqs.IndexWhere | equipment-manager/backend/controllers/brandsController.js:46 | the first row that satisfies a condition, or none exactly when no row does |
| Json.ElementText | equipment-manager/frontend/src/components/AdminPanel.jsx:480 | `String(item)`: null renders as the empty text, a string as itself, an array as its elements' texts joined with `,` |
| Json.ElementTexts | equipment-manager/frontend/src/components/AdminPanel.jsx:480 | one rendered text per element, in order |
| Store.AddUserOk | backend/controllers/usersController.js:100-137 | inserting a user whose name is free, and who is not a second admin, keeps ids unique, names unique and at most one admin |
| Store.SetUserOk | backend/controllers/usersController.js:187-258 | rewriting a row that passed updateUser's checks keeps the users table valid |
| Store.OwnRowFree | backend/controllers/usersController.js:190 | a stored user's own name and admin role never clash with the rest of the table |
| Store.RemoveUserOk | backend/controllers/usersController.js:313 | deleting a user keeps the users table valid |
| Store.AddBrandOk | equipment-manager/backend/controllers/brandsController.js:84-103 | inserting a brand whose name is free ignoring case keeps brand names unique and every model's brand present |
| Store.SetBrandOk | equipment-manager/backend/controllers/brandsController.js:156-176 | renaming to a name no other brand holds keeps brand names unique and the foreign key of every model intact |
| Store.RemoveBrandOk | equipment-manager/backend/controllers/brandsController.js:229 | deleting a brand together with its models (ON DELETE CASCADE) keeps every remaining model's brand present |
| Store.AddModelOk | equipment-manager/backend/controllers/modelsController.js:174-179 | inserting a model under the next SERIAL id with an existing brand keeps ids unique and below the counter and every model's brand present |
| Store.SetModelOk | equipment-manager/backend/controllers/modelsController.js:298-301 | rewriting a model row in place, same id, with an existing brand keeps ids unique and the foreign key of every model intact |
| Store.RemoveModelOk | equipment-manager/backend/controllers/modelsController.js:348 | deleting the models with an id keeps the remaining ids unique and below the counter and their brands present |
| Store.RemoveFileOk | equipment-manager/backend/controllers/uploadController.js:95 | unlinking a file keeps the directory's names unique |
| Store.Database.Record | equipment-manager/backend/controllers/brandsController.js:105-108 | an activity entry is appended to the log and nothing else changes |
| Store.Database.AddUser | backend/controllers/usersController.js:132-137 | the row is appended with the next id, the counter advances, the store stays valid |
| Store.Database.SetUser | backend/controllers/usersController.js:255-258 | exactly the row at the position is replaced, the store stays valid |
| Store.Database.RemoveUser | backend/controllers/usersController.js:313 | exactly the rows with the id are removed, the store stays valid |
| Store.Database.AddBrand | equipment-manager/backend/controllers/brandsController.js:97-102 | the brand is appended with the next id, the counter advances, the store stays valid |
| Store.Database.SetBrand | equipment-manager/backend/controllers/brandsController.js:169-175 | exactly the row at the position is replaced, the store stays valid |
| Store.Database.RemoveBrand | equipment-manager/backend/controllers/brandsController.js:229 | the brand and every model of the brand are removed, nothing else |
| Store.Database.AddModel | equipment-manager/backend/controllers/modelsController.js:174-179 | the model is appended with the next id, the counter advances, the store stays valid |
| Store.Database.SetModel | equipment-manager/backend/controllers/modelsController.js:298-301 | exactly the row at the position is replaced, the store stays valid |
| Store.Database.RemoveModel | equipment-manager/backend/controllers/modelsController.js:348 | exactly the model with the id is removed, the store stays valid |
| Store.Database.RemoveFile | equipment-manager/backend/controllers/uploadController.js:95 | exactly the file with the name is removed from the directory |
| BrandsController.GetAllBrands | equipment-manager/backend/controllers/brandsController.js:13-24 | 200 with every brand, sorted by name, and a permutation of the table |
| BrandsController.GetBrandById | equipment-manager/backend/controllers/brandsController.js:39-56 | 404 "Marca no encontrada." exactly when no brand has the id; otherwise the stored brand with that id |
| BrandsController.GetBrandModels | equipment-manager/backend/controllers/brandsController.js:261-289 | 404 exactly when the brand is unknown; otherwise exactly the models of that brand, sorted by name |
| BrandsController.CreateBrand | equipment-manager/backend/controllers/brandsController.js:73-115 | 400 for a missing or blank name, 409 when a brand has the trimmed name ignoring case (both change nothing); else 201, the trimmed name stored under the next id, one CREATE_BRAND entry |
| BrandsController.UpdateBrand | equipment-manager/backend/controllers/brandsController.js:131-188 | checks in order: blank name 400, unknown id 404, another brand with the name 409, all without change; else just that row renamed to the trimmed name and one UPDATE_BRAND entry |
| BrandsController.RenameToOwnCaseVariant | equipment-manager/backend/controllers/brandsController.js:156-166 | renaming a brand to a case variant of its own name never clashes |
| BrandsController.DeleteBrand | equipment-manager/backend/controllers/brandsController.js:205-245 | 404 for an unknown id without change; else the brand and exactly its models are removed, the reported count equals the number of models removed, one DELETE_BRAND entry |
| ModelsController.JoinBrands | equipment-manager/backend/controllers/modelsController.js:18-19 | every joined row holds a stored model and the name of the brand it references |
| ModelsController.JoinKeepsEveryModel | equipment-manager/backend/controllers/modelsController.js:18-19 | when every model's brand exists, the inner join keeps every model, in order |
| ModelsController.RowLeTotal | equipment-manager/backend/controllers/modelsController.js:20 | ordering by brand name, then model name, is total |
| ModelsController.GetAllModels | equipment-manager/backend/controllers/modelsController.js:13-26 | 200 with the joined rows sorted by (brand name, model name), a permutation of the join |
| ModelsController.GetAllModelsListsEveryModel | equipment-manager/backend/controllers/modelsController.js:13-26 | in a valid store the listing has one row per model and holds exactly the stored models |
| ModelsController.ListingKeepsEveryModel | equipment-manager/backend/controllers/modelsController.js:18-20 | any reordering of the join of models whose brands exist lists each model and only those |
| ModelsController.SearchModels | equipment-manager/backend/controllers/modelsController.js:45-69 | 400 exactly when `q` is missing or blank; else the joined rows whose model or brand name contains the trimmed `q` ignoring case, each as often as in the join, sorted |
| ModelsController.SortedHits | equipment-manager/backend/controllers/modelsController.js:56-64 | the matching rows, sorted by (brand name, model name), each as often as in the input and no other row |
| ModelsController.GetModelById | equipment-manager/backend/controllers/modelsController.js:88-108 | 404 "Modelo no encontrado." exactly when no joined row has the id; otherwise that row |
| ModelsController.GetModelByIdNotFound | equipment-manager/backend/controllers/modelsController.js:98-103 | in a valid store, 404 exactly when no model has the id |
| ModelsController.NormalisePasswords | equipment-manager/backend/controllers/modelsController.js:162-171 | a string that parses is re-serialised, one that does not is kept verbatim, an array becomes its JSON text, other values pass through |
| ModelsController.NormaliseIdempotent | equipment-manager/backend/controllers/modelsController.js:281-291 | normalising the normalised value changes nothing |
| ModelsController.NormaliseArrayOrText | equipment-manager/backend/controllers/modelsController.js:162-171 | a list sent as an array and the same list sent as its JSON text are stored alike |
| ModelsController.ColumnText | equipment-manager/backend/controllers/modelsController.js:178 | a JSON null is stored as NULL and a string as itself |
| ModelsController.ImageColumn | equipment-manager/backend/controllers/modelsController.js:178 | `image_url \|\| null`: NULL exactly when the URL is absent, null or empty, else the URL |
| ModelsController.CreatedPasswords | equipment-manager/backend/controllers/modelsController.js:178 | an absent or falsy normalised value is stored as `[]`, any other as its column text |
| ModelsController.CreatedInstructions | equipment-manager/backend/controllers/modelsController.js:178 | `reset_instructions \|\| ''`: '' for an absent, null or empty value, the text otherwise |
| ModelsController.NewModel | equipment-manager/backend/controllers/modelsController.js:174-178 | the inserted row: next id, given brand, trimmed name, NULL for an empty image, '' for absent or null instructions, `[]` for absent passwords |
| ModelsController.CreateModel | equipment-manager/backend/controllers/modelsController.js:128-191 | checks in order: missing, null or zero brand_id, or missing or empty name 400, unknown brand 404, same brand and trimmed name ignoring case 409, all without change; else 201, the new row appended and one CREATE_MODEL entry |
| ModelsController.CreateModelKeepsNamesUnique | equipment-manager/backend/controllers/modelsController.js:149-159 | a model that passed the duplicate check keeps (brand, lowercased name) unique |
| ModelsController.Patched | equipment-manager/backend/controllers/modelsController.js:244-296 | supplied fields replace stored ones, a blank name is ignored, an empty image URL and a null reset text become NULL, passwords are normalised |
| ModelsController.PatchedEmptyKeepsRow | equipment-manager/backend/controllers/modelsController.js:240-298 | an update with no fields writes the row back unchanged |
| ModelsController.PendingRow | equipment-manager/backend/controllers/modelsController.js:240-296 | the `SET` list built one field at a time is the patched row |
| ModelsController.UpdateModel | equipment-manager/backend/controllers/modelsController.js:212-313 | unknown model 404, a supplied brand_id that is unknown or an explicit null 404, the as-written duplicate check 409, all without change; else only that row becomes the patched row and one UPDATE_MODEL entry |
| ModelsController.AsWrittenClashMissesDuplicate | equipment-manager/backend/controllers/modelsController.js:250-262 | a rename without brand_id passes the check as written and leaves two models of a brand with the same name |
| ModelsController.IntendedClashKeepsNamesUnique | equipment-manager/backend/controllers/modelsController.js:250-262 | checking the resulting (brand, name) pair whenever either changes keeps model names unique per brand |
| ModelsController.DeleteModel | equipment-manager/backend/controllers/modelsController.js:333-359 | 404 for an unknown id without change; else exactly that model is removed and one DELETE_MODEL entry names it |
| ModelsController.DeleteModelRemovesOnlyIt | equipment-manager/backend/controllers/modelsController.js:348 | the models left are exactly the stored ones with another id |
| UsersController.GetAllUsers | backend/controllers/usersController.js:14-25 | 200 with one profile per stored user, hash left out |
| UsersController.GetUserById | backend/controllers/usersController.js:42-57 | 404 exactly when no user has the id; otherwise that user's profile |
| UsersController.CreateUser | backend/controllers/usersController.js:77-150 | checks in order: missing field 400, role outside admin/user 400, password under 6 UTF-16 code units 400, taken username (exact) 409, a second admin 409, all without change; else 201, stored active with `hash(password)` and one CREATE_USER entry |
| UsersController.PatchedUser | backend/controllers/usersController.js:183-255 | supplied fields replace stored ones; an absent or empty password keeps the stored hash |
| UsersController.PendingUser | backend/controllers/usersController.js:183-255 | the `SET` list built one field at a time is the patched row |
| UsersController.UpdateUser | backend/controllers/usersController.js:170-270 | checks in order: unknown id 404, username of another user 409, non-empty password under 6 UTF-16 code units 400, a role other than admin or user, an explicit null included, 400, promotion while another admin exists 409, all without change; else only that row changes and one UPDATE_USER entry |
| UsersController.EmptyPasswordKeepsHash | backend/controllers/usersController.js:206 | an update with an absent or empty password keeps the hash |
| UsersController.AstralPasswordIsLongEnough | backend/controllers/usersController.js:92 | three characters beyond the Basic Multilingual Plane are six code units and pass the minimum |
| UsersController.DeleteUser | backend/controllers/usersController.js:289-324 | the caller's own id 400 before the lookup, unknown id 404, without change; else exactly that user is removed and one DELETE_USER entry |
| UsersController.DeleteUserRemovesOnlyIt | backend/controllers/usersController.js:289-313 | the users left are exactly those with another id, and the caller's own account is among them |
| AuthController.TokenClaims | equipment-manager/backend/controllers/authController.js:59-67 | the token carries the stored row's id, username, role and active flag |
| AuthController.LoginDecision | equipment-manager/backend/controllers/authController.js:19-56 | missing or empty field 400; an unknown username 401; success only for a stored, active row whose hash matches; every failure is one of the three fixed answers |
| AuthController.UnknownUserLikeWrongPassword | equipment-manager/backend/controllers/authController.js:32-56 | an unknown username and a wrong password for an active account get the identical 401 |
| AuthController.DisabledIgnoresPassword | equipment-manager/backend/controllers/authController.js:42-47 | an inactive account gets 403 whatever the password, so the password is never compared |
| AuthController.RightPasswordLogsIn | equipment-manager/backend/controllers/authController.js:26-58 | an active account with the matching password logs in as its own row |
| AuthController.StoredUsernameFound | equipment-manager/backend/controllers/authController.js:27-30 | a username no other row holds is found at its own row |
| AuthController.Login | equipment-manager/backend/controllers/authController.js:59-87 | a failed decision answers it without change; success returns the signed token and `{id, username, role}` and appends one LOGIN entry with the IP |
| AuthController.VerifyToken | equipment-manager/backend/controllers/authController.js:105-134 | 404 exactly when the claimed id is no longer stored, 403 for a stored inactive user, otherwise the stored username and role |
| AuthController.VerifyStoredUser | equipment-manager/backend/controllers/authController.js:105-134 | in a valid store, claims with a stored user's id get that row's username and role when it is active, and 403 when not |
| AuthController.LoginThenVerify | equipment-manager/backend/controllers/authController.js:59-134 | the claims a login signs verify, in the same store, as the account that logged in |
| AuthController.StaleTokenPassesMiddleware | equipment-manager/backend/controllers/authController.js:105-124 | a token issued before its user was disabled passes `authenticate`, and verify refuses it with 403 |
| AuthController.Logout | equipment-manager/backend/controllers/authController.js:153-161 | always 200 and exactly one LOGOUT entry for the caller |
| AuthMiddleware.BearerToken | backend/middleware/auth.js:12-13 | a token, when the header carries one, is a non-empty string without spaces |
| AuthMiddleware.BearerTokenIsSecondField | backend/middleware/auth.js:13 | `scheme token` yields `token` whatever the scheme word is |
| AuthMiddleware.NoSpaceNoToken | backend/middleware/auth.js:13-20 | a header without a space carries no token |
| AuthMiddleware.Step | backend/middleware/auth.js:11-76 | requireActive passes exactly for active claims, requireAdmin exactly for the admin role, and neither changes the request user |
| AuthMiddleware.Run | backend/middleware/auth.js:81-86 | an empty chain passes the user through; a chain halts only with 401 or 403; without `authenticateToken` it never changes the user |
| AuthMiddleware.HeaderClaims | backend/middleware/auth.js:12-31 | no token gives no claims; otherwise the claims are what `verify` gives for the token |
| AuthMiddleware.AuthenticateDecides | backend/middleware/auth.js:81 | `authenticate` passes exactly when the token verifies with active claims, which become the user; no token 401, failed verification 403, inactive 403 |
| AuthMiddleware.AuthenticateAdminDecides | backend/middleware/auth.js:86 | `authenticateAdmin` passes exactly for verified, active admin claims; where `authenticate` refuses, it gives the same answer; an active non-admin gets 403 |
| Routes.Pieces | equipment-manager/backend/routes/index.js:24 | a path splits into its segments exactly when it starts with `/`, and no segment holds a `/` |
| Routes.PiecesOfJoined | equipment-manager/backend/routes/index.js:24-75 | a path written from non-empty segments, with or without one trailing `/`, splits back into exactly those segments |
| Routes.PiecesAfterSlash | equipment-manager/backend/routes/index.js:24-75 | the segments of `/rest` are the pieces of `rest`, less one empty last piece |
| Routes.SplitJoinedSlash | equipment-manager/backend/routes/index.js:24-75 | joined segments followed by `/` split into the segments and one empty piece |
| Routes.Dispatch | equipment-manager/backend/routes/index.js:24-75 | the registration chosen serves the request and no earlier one does; none exactly when no registration serves it |
| Routes.Handle | equipment-manager/backend/routes/index.js:24-81 | a request reaches the handler of the first registration that serves it exactly when that registration's chain passes, with the chain's user |
| Routes.TableGuards | equipment-manager/backend/routes/index.js:24-75 | every registration's chain is the one its handler's access calls for: none, `authenticate` or `authenticateAdmin` |
| Routes.OnlyLoginAndHealthOpen | equipment-manager/backend/routes/index.js:24-81 | only login and the health check are registered without a chain |
| Routes.ChangesNeedAdmin | equipment-manager/backend/routes/index.js:47-70 | every handler that changes users, brands, models or images is admin-only |
| Routes.NoDataChangeWithoutActiveAdmin | equipment-manager/backend/routes/index.js:47-70 | no request reaches an admin-only handler unless its token verifies with active admin claims, which are the request user |
| Routes.GuardedNeedsActiveToken | equipment-manager/backend/routes/index.js:31-70 | every handler but login and health needs a token that verifies with active claims |
| Routes.SearchShadowsModelId | equipment-manager/backend/routes/index.js:41-42 | a GET of `models/search`, in any case, is dispatched to the search registration |
| Routes.SearchRegisteredBeforeId | equipment-manager/backend/routes/index.js:41-42 | the search registration precedes `models/:id`, which is getModelById |
| Routes.NoEarlierRoute | equipment-manager/backend/routes/index.js:24-40 | no registration before search serves `GET models/<x>` |
| Routes.SearchRouteServes | equipment-manager/backend/routes/index.js:41 | the search registration serves `models/search` in any case |
| UploadController.UploadUrl | equipment-manager/backend/controllers/uploadController.js:23 | the URL is `/uploads/` followed by exactly the file name |
| UploadController.UploadImage | equipment-manager/backend/controllers/uploadController.js:15-41 | no file 400 without change; else the file's data with URL `/uploads/<name>` and one UPLOAD_IMAGE entry |
| UploadController.Refs | equipment-manager/backend/controllers/uploadController.js:79-82 | one `{id, name}` per model row, in order |
| UploadController.RefsListUsers | equipment-manager/backend/controllers/uploadController.js:79-92 | the conflict lists exactly the models whose image URL is the file's |
| UploadController.DeleteImage | equipment-manager/backend/controllers/uploadController.js:61-105 | a name with `..` or `/` 400, a missing file 404, a file still used 409 with those models, all without change; else exactly that file removed and one DELETE_IMAGE entry |
| UploadController.UnsafeName | equipment-manager/backend/controllers/uploadController.js:61 | a name that passes the check holds no `/` and is neither `..` nor `../` |
| UploadController.RemoveFileRemovesOne | equipment-manager/backend/controllers/uploadController.js:95 | unlinking removes exactly one entry and keeps the others |
| UploadController.LastDot | equipment-manager/backend/controllers/uploadController.js:134 | the position of the last `.`, none exactly when there is no `.` |
| UploadController.Extname | equipment-manager/backend/controllers/uploadController.js:134 | the extension is empty or a dot-free tail of the name that starts at a `.` |
| UploadController.ExtnameOfStem | equipment-manager/backend/controllers/uploadController.js:134 | `stem.ext` with a non-empty stem has extension `.ext` |
| UploadController.HiddenFileHasNoExt | equipment-manager/backend/controllers/uploadController.js:133-135 | a hidden file such as `.png` has no extension and is never listed |
| UploadController.IsImageName | equipment-manager/backend/controllers/uploadController.js:133-135 | a listed name has an extension of four or five characters and is more than its extension |
| UploadController.Info | equipment-manager/backend/controllers/uploadController.js:137-145 | the entry holds the name, `/uploads/<name>`, the size and the birth time |
| UploadController.Infos | equipment-manager/backend/controllers/uploadController.js:137-145 | one entry per file, in order |
| UploadController.NewerFirstTotal | equipment-manager/backend/controllers/uploadController.js:146 | ordering by birth time, newest first, is total |
| UploadController.InfosOfImages | equipment-manager/backend/controllers/uploadController.js:132-145 | the entries are exactly those of the files whose lowercased extension is an image extension |
| UploadController.ListImages | equipment-manager/backend/controllers/uploadController.js:132-146 | exactly the image files of the directory, each once, newest first |
| AdminPanel.CleanPieces | equipment-manager/frontend/src/components/AdminPanel.jsx:492-493 | trimming the pieces and dropping empties leaves no more elements than pieces, each non-empty, trimmed and comma-free |
| AdminPanel.PasswordList | equipment-manager/frontend/src/components/AdminPanel.jsx:490-493 | every submitted password is non-empty, trimmed and comma-free |
| AdminPanel.Payload | equipment-manager/frontend/src/components/AdminPanel.jsx:495-498 | under the codec law the request value parses back to the submitted list |
| AdminPanel.PayloadParses | equipment-manager/frontend/src/components/AdminPanel.jsx:495-498 | the server parses the payload back to exactly the submitted list of non-empty strings |
| AdminPanel.SplitJoined | equipment-manager/frontend/src/components/AdminPanel.jsx:479-493 | splitting whitespace followed by a clean list joined with `", "` gives the list back |
| AdminPanel.JoinedListRoundTrip | equipment-manager/frontend/src/components/AdminPanel.jsx:479-493 | the edit text of a clean list converts back to the same list |
| AdminPanel.PasswordListIdempotent | equipment-manager/frontend/src/components/AdminPanel.jsx:479-493 | converting a text, showing the list and converting again changes nothing |
| AdminPanel.AsWrittenThrowsOnEmpty | equipment-manager/frontend/src/components/AdminPanel.jsx:479-481 | the prefill as written throws for a NULL or empty passwords column |
| AdminPanel.AsWrittenThrowsOnVerbatim | equipment-manager/frontend/src/components/AdminPanel.jsx:479-481 | the prefill as written throws for a stored text that is not JSON |
| AdminPanel.EditTextAsWritten | equipment-manager/frontend/src/components/AdminPanel.jsx:479-481 | as written: where the stored text is a JSON array it shows the list joined with `, `; stored text that is not JSON throws |
| AdminPanel.EditText | equipment-manager/frontend/src/components/AdminPanel.jsx:479-481 | the stored list joined with `", "` when the column holds a JSON array, the stored text itself when it is not JSON, and the empty text for NULL, '' or any other JSON value |
| AdminPanel.AsWrittenAgreesWhenItAnswers | equipment-manager/frontend/src/components/AdminPanel.jsx:479-481 | wherever the prefill as written does not throw, it shows what the corrected one shows |
| AdminPanel.ElementTextsOfStrings | equipment-manager/frontend/src/components/AdminPanel.jsx:480 | the texts of a list of strings are the strings |
| AdminPanel.EditAfterSubmitIsStable | equipment-manager/frontend/src/components/AdminPanel.jsx:479-498 | submitting a text and opening the model again shows the joined list, which submits to the same list |
| AdminPanel.UserForm | equipment-manager/frontend/src/components/AdminPanel.jsx:180-186 | the edit form carries the stored username, role and active flag and an empty password, which is never too short |
| AdminPanel.UserFormSavesUnchanged | equipment-manager/frontend/src/components/AdminPanel.jsx:180-186 | saving the pre-filled form of a stored user (password '') passes every updateUser check and writes the row back unchanged, hash included |

## Left out

- Database pool, server bootstrap, CORS, environment loading: wiring and I/O. The store is the in-memory `Store.Database`.
- bcrypt, JWT signing, verification and expiry: foreign crypto. They are the parameters `hash`, `checkPassword`, `sign` and `verify`.
- JSON parsing and serialising: foreign code. The model uses an abstract `Json.Codec` with one round-trip law and no JSON grammar.
- HTTP 500 answers: store failures and thrown exceptions are not modelled.
- Timestamps: `created_at`/`updated_at` are clock values. getAllUsers's `ORDER BY created_at DESC` is therefore not modelled, and `UsersController.GetAllUsers` promises the rows only, not their order. In listImages the birth time is an opaque integer.
- Concurrency: races between a check and the write that follows it are out of scope. The model serves one request at a time.
- The multer middleware (`upload.single('image')`, `handleMulterError`) that POST /upload runs after its guards is not part of this model. Neither is the file write it performs, so `UploadController.UploadImage` only logs and answers.
- Real filesystem calls: the upload directory is a sequence of `(name, size, created)` entries. `fs.existsSync` on `.` or on the empty name (the directory itself) and the resulting 500 of `unlinkSync` are not modelled.
- `UploadController.Extname` models `path.extname` for directory entries, that is names without `/`, which is all `readdirSync` returns.
- `ModelsController.SearchModels` treats `q` literally: SQL `LIKE` would treat `%` and `_` in `q` as wildcards.
- `Text.Lower`: SQL `LOWER` is modelled as ASCII lowercasing. Collations and Unicode case mapping are left out, and `ORDER BY` is code-point order.
- Express route parameters are taken as already decoded. HEAD requests served by GET routes, and the `/api` mount prefix, are left out.
- `Json.Json` has integer numbers only. `Json.ElementText`, `Json.Truthy` and `ModelsController.ColumnText` therefore do not cover fractions, `NaN`, or the exponent form of large numbers, such as `String(1e21)` giving `"1e+21"`.
- `ModelsController.UpdateModel` and `ModelsController.CreateModel` take each body field as absent, null or of the type the handler expects. A value of another JSON type is not modelled, such as `brand_id` sent as the string `"0"`, which is truthy in createModel and so gets 404 where the integer 0 gets 400. So is a numeric string that PostgreSQL casts to an id.
- `UsersController.UpdateUser` takes `username` and `active` as absent or of their own type. An explicit `null` there reaches the UPDATE, and its answer depends on the schema's NOT NULL constraints, which are not part of this model. A `role` of another JSON type, such as a number, would get the same 400 in the source, but the model's fields cannot express it.
- `UsersController.DeleteUser` takes the id as an integer. `parseInt(id)` of a text such as `5abc` is not modelled.
- The rest of the front end is left out: React rendering and state, both Dashboards' `parsePasswords`, the HTTP client and the second AdminPanel copy.
- The console scripts `initDatabase.js`, which creates the first admin, and `resetPassword.js` are interactive I/O. The SQL schema file is not part of this model: the table constraints in `Valid()` are those the handlers' own checks keep.

## Findings

| source | as written | input that shows it | evidently intended | confidence | as-written member | corrected member |
|---|---|---|---|---|---|---|
| equipment-manager/backend/controllers/modelsController.js:250-262 | updateModel checks for a duplicate name only in `brand_id \|\| existingModel.rows[0].brand_id`; the lookup at line 213 selected only `id`, so without `brand_id` the brand is undefined, nothing matches, and a brand change without a name is never checked | models `(1, brand 1, "A")` and `(2, brand 1, "B")`; PUT /models/2 with `{name: "a"}` | refuse 409 whenever the resulting (brand, lowercased name) pair is held by another model | not executed | ModelsController.AsWrittenClashMissesDuplicate | ModelsController.IntendedClashKeepsNamesUnique |
| equipment-manager/frontend/src/components/AdminPanel.jsx:479-481 | the guard parses `possible_passwords \|\| '[]'`, but the join parses `possible_passwords` again without the fallback | a model whose `possible_passwords` is NULL or '' (or non-JSON text, which createModel stores verbatim): `JSON.parse(null).join` or `JSON.parse('')` throws while the edit form opens | show the stored list joined with `", "`, a stored text that is not JSON as it is (saving then splits it into a list), and an empty text when there is nothing stored | not executed | AdminPanel.AsWrittenThrowsOnEmpty | AdminPanel.EditAfterSubmitIsStable |
