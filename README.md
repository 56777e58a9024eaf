# Catalogue admin: credentials and catalogue cache, in Dafny

This project models a small catalogue-administration application. It has a
FastAPI backend and two React clients. The older client keeps everything in
local storage. The newer one talks to the backend through Redux thunks. The
model covers two parts.

- **Credential lifecycle.** This covers register, login, the bearer-header
  check, one-time-code (OTP) request and check, password reset and password
  change. Each of the three implementations gets its own model:
  - the backend: `ApiAuth.AuthServer`, with users keyed by e-mail and an OTP
    store;
  - the local-storage React context: `ContextAuth.AuthProvider`;
  - the local-storage Redux slice: `LocalAuthSlice.AuthSlice`.

  The session reducers of the backend-backed client are in
  `SessionSlice.Session`. The implementations disagree on purpose, and each
  one is modelled as written:
  - The backend accepts a code up to and including its expiry instant. The
    context refuses it at that instant (`ContextAuth.ExpiryBoundaryDiffers`).
  - The context refuses a new password equal to the old one. The others
    accept it.
- **Catalogue cache.** The backend's category and product tables are modelled
  with their denormalised `productCount`: +1 on create, a move on update and a
  floored decrement on delete (`ApiCatalog.CatalogServer`). Its `Valid()`
  states that every count equals the number of products referencing the
  category, and every method preserves it. The clients' caches are modelled
  too:
  - the local provider, with cascade delete and count reset
    (`ContextData.DataProvider`);
  - the Redux data reducers (`DataSlice.DataState`);
  - the product validator, the two product forms, the product and category
    pages, and the two CSV exports.

  One export quotes its fields (RFC 4180, section 2). It is proved to read
  back to exactly its records. The other joins fields naively.

Shared helper modules are `Wrappers` (Option and Result), `Text`, `Decimal`,
`Crypt`, `Csv` and `Catalog`:
- `Text` holds JavaScript `trim`, ASCII lower-casing, `join`, `filter`-removal
  and Python's whitespace `split`.
- `Decimal` renders integers as decimal strings and reads them back.
- `Crypt` is a stand-in for the bcrypt pair: `Verify(p, Hash(q))` holds
  exactly when `p == q`. Real bcrypt reads only the first 72 bytes of a
  password, so the model takes every password to be at most 72 bytes long.
- `Catalog` holds the client-side records.

Modelling choices:
- Clocks are integer parameters: microseconds in the backend, milliseconds in
  the clients.
- The random code is a parameter `draw` with `100000 <= draw <= 999999`.
- A JWT decode is a function parameter from token to optional subject.
- The two clients' stored state is a set of fields on one class per module:
  `localStorage` keys appear as fields or map entries.

## Model

| member | source | states |
|---|---|---|
| ApiAuth.Login | backend/main.py:267-278 | Succeeds iff the e-mail is registered and the password verifies against its hash. Then it returns that user, token type `bearer` and claims with the user's e-mail and role. Otherwise the error is 401 "Invalid credentials". |
| ApiAuth.BearerToken | backend/main.py:229-234 | A missing or empty header gives 401 "Not authenticated". The token is accepted iff whitespace-splitting gives exactly two parts and the first lower-cases to `bearer`; the token is then the second part. |
| ApiAuth.BearerRoundTrip | backend/main.py:231-234 | `<scheme> <token>` with a case-insensitive `bearer` scheme and a one-word token is accepted and yields the token. |
| ApiAuth.CurrentUser | backend/main.py:229-246 | The user is resolved iff the header is accepted, the token decodes to a subject and the subject is registered. The result is the user stored under that subject, and every failure is a 401. |
| ApiAuth.OtpWindow | backend/main.py:314-331 | A code stored at `issued` is accepted with the same code exactly while `now <= issued + 10 minutes`, so it is accepted at the expiry instant itself. |
| ApiAuth.OtpWrongCode | backend/main.py:330-331 | A different code is never accepted. |
| ApiAuth.AuthServer.constructor | backend/main.py:76-85 | The server starts from well-formed users (keyed by their own e-mail, ids below the next id) and an empty OTP store. |
| ApiAuth.AuthServer.Register | backend/main.py:252-264 | Mismatched passwords give 400 "Passwords do not match"; an existing e-mail (exact match) gives 400 "Email already registered"; users are then unchanged. Otherwise exactly one user is added, with the next id, the hashed password and role `user`. |
| ApiAuth.AuthServer.RequestOtp | backend/main.py:305-317 | A missing or empty e-mail gives 400; an unknown one gives 404; the store is then unchanged. Otherwise the six-digit rendering of the drawn code and an expiry ten minutes ahead replace any earlier entry for that e-mail. |
| ApiAuth.AuthServer.ResetPassword | backend/main.py:320-341 | All three fields are required (400). A missing entry, a wrong code or `now > expires` gives 400 "Invalid or expired OTP". An accepted code for an e-mail with no user gives 404 "User not found". On success only that user's password changes, and the entry is popped. There is no check that the new password differs from the old one. |
| ApiAuth.AuthServer.ChangePassword | backend/main.py:344-358 | Authentication failures pass through unchanged. Both fields are required (400 "old_password and new_password required"). An old password that does not verify gives 401 "Invalid old password". On success only the current user's password changes. |
| ApiAuth.LoginAfterRegister | backend/main.py:252-278 | A newly registered user can log in with the chosen password and gets its role in the claims. |
| ApiAuth.LoginAfterPasswordChange | backend/main.py:337-355 | After a password is rewritten, login succeeds with the new password and fails with any other. |
| ApiAuth.ResetFlow | backend/main.py:305-341 | Register and log in, request a code, then reset within the window. Afterwards the old password is refused, the new one is accepted, and replaying the same code is refused. |
| Crypt.VerifyHash | backend/main.py:259-270 | A password verifies against its own hash, and against another password's hash only when the two are equal. |
| Decimal.SixDigitCode | backend/main.py:314 | Every code drawn from [100000, 999999] renders as six digits, the first non-zero. |
| Decimal.DigitsInjective | backend/main.py:314 | Distinct codes render differently, so comparing the strings compares the codes. |
| Decimal.ParseInt | frontend/src/redux/authSlice.js:125-127 | `Number` of an optional minus sign and digits is that integer; any other string reads as absent. |
| Decimal.ParseIntOfIntToString | frontend/src/redux/authSlice.js:125-127 | Reading back the stored rendering of an id gives the id. |
| Decimal.IntToString | frontend/src/pages/Products.jsx:62 | A number renders with a leading minus sign exactly when it is negative. |
| Text.TrimEmptyIff | frontend/src/utils/validation.js:4 | A string trims to empty exactly when it is all whitespace. |
| Text.WordsOfPair | backend/main.py:231-232 | Splitting `a b` on whitespace yields exactly the two words. |
| Text.WithoutMultiset | frontend/src/components/ProductModal.jsx:63 | Removing a value drops every occurrence of it and keeps every other element with its multiplicity. |
| Text.WithoutAppend | frontend/src/components/ProductModal.jsx:63 | Removal distributes over concatenation, so the remaining elements keep their order. |
| ApiCatalog.RowsOutside | backend/main.py:94 | The cascade keeps exactly the rows of other categories, so none references the deleted one. |
| ApiCatalog.RowCountOutside | backend/main.py:94 | The cascade leaves every other category's product count unchanged. |
| ApiCatalog.IndexOfId | backend/main.py:447-449 | Finds a row with the requested id, or reports that none has it. |
| ApiCatalog.Decrement | backend/main.py:498 | `max(0, n - 1)` is never negative and equals `n - 1` for positive `n`, and 0 otherwise. |
| ApiCatalog.FloorNeverFires | backend/main.py:495-498 | While every count matches its products, the decremented category's count is positive, so the floor at zero has no effect. |
| ApiCatalog.MoveCount | backend/main.py:458-462 | Moving one product between categories keeps every key, id and name, and touches only the two categories involved. |
| ApiCatalog.MoveCountConsistent | backend/main.py:458-468 | Replacing a product row together with the count move keeps every count equal to its number of referencing products. |
| ApiCatalog.RemoveConsistent | backend/main.py:495-498 | Deleting a row together with the decrement of its category keeps every count consistent. |
| ApiCatalog.CatalogServer.constructor | backend/main.py:88-108 | The tables start empty and consistent. |
| ApiCatalog.CatalogServer.CreateCategory | backend/main.py:369-377 | An exact-name duplicate gives 400 "Category already exists" and changes nothing. Otherwise one category is added with a fresh id and count 0. |
| ApiCatalog.CatalogServer.DeleteCategory | backend/main.py:380-387 | An absent id gives 404 "Category not found". Otherwise the category and, by cascade, all its products are removed; the other counts stay consistent. |
| ApiCatalog.CatalogServer.CreateProduct | backend/main.py:414-442 | An unknown category gives 400 "Category not found" and changes nothing. Otherwise the row is appended with the caller as owner, and the category's count goes up by one. |
| ApiCatalog.CatalogServer.UpdateProduct | backend/main.py:445-483 | An absent product gives 404 "Product not found". A caller who is neither owner nor `Admin` gets 403 "Not authorized to edit this product". An unknown target category gives 400 "Category not found"; every error leaves the tables unchanged. On success the row's fields are replaced while its id and owner are kept, and the counts move. |
| ApiCatalog.CatalogServer.DeleteProduct | backend/main.py:486-500 | 404 and 403 as for update. On success exactly that row is removed and its category's count is decremented with the floor; the invariant is kept. |
| Catalog.ProductsOutside | frontend/src/context/DataContext.jsx:60 | Keeps exactly the products of other categories, and drops as many as referenced the removed one. |
| Catalog.CountOutside | frontend/src/context/DataContext.jsx:58-61 | The cascade leaves every other category's count unchanged. |
| Catalog.CategoriesOutside | frontend/src/redux/dataSlice.js:85 | Keeps exactly the categories with another id. |
| Catalog.ProductsWithoutId | frontend/src/redux/dataSlice.js:102 | Keeps exactly the products with another id. |
| ContextData.DataProvider.constructor | frontend/src/context/DataContext.jsx:16-24 | Starts from the stored lists, or from the three seed categories and no products. |
| ContextData.DataProvider.AddProduct | frontend/src/context/DataContext.jsx:36-43 | Appends the product and increments only the categories whose id matches; with no match the categories are unchanged. Consistent counts stay consistent. |
| ContextData.DataProvider.ClearProducts | frontend/src/context/DataContext.jsx:46-49 | Empties the products and zeroes every count, keeping ids, names and order. The counts are then consistent. |
| ContextData.DataProvider.AddCategory | frontend/src/context/DataContext.jsx:52-54 | Appends the category unchecked. Consistency survives when its count is 0 and no product references its id. |
| ContextData.DataProvider.RemoveCategory | frontend/src/context/DataContext.jsx:58-61 | Removes the category and every product referencing it (an absent id changes nothing). Consistent counts stay consistent. |
| ContextData.ExportCsv | frontend/src/context/DataContext.jsx:64-79 | Empty exactly when there are no products. Otherwise parsing the quoted text gives back the header and one record per product, in order. |
| Csv.FieldRoundTrip | frontend/src/context/DataContext.jsx:76 | A field wrapped in quotes with its quotes doubled reads back as the original field (RFC 4180, section 2, rule 7). |
| Csv.RecordRoundTrip | frontend/src/context/DataContext.jsx:76 | A record of quoted fields joined by commas reads back as its fields. |
| Csv.DocumentRoundTrip | frontend/src/context/DataContext.jsx:74-77 | Records joined by newlines read back as exactly those records. |
| LocalUsers.FindCredentials | src/context/AuthContext.jsx:53 | Finds the first user matching both e-mail and password exactly, or reports that none does. |
| LocalUsers.FindEmail | src/context/AuthContext.jsx:83 | Finds the first user with that e-mail, or reports that none has it. |
| LocalUsers.WithPassword | src/redux/authSlice.js:73-75 | Only users with that e-mail get the new password; everything else is kept, position by position. |
| LocalUsers.WithPasswordUnchanged | src/redux/authSlice.js:73-75 | Rewriting changes nothing when the e-mail is absent or already has that password. |
| LocalUsers.LoginAfterWithPassword | src/redux/authSlice.js:73-75 | After the rewrite, that e-mail logs in with the new password and with no other. |
| LocalUsers.LoginAfterAppend | src/redux/authSlice.js:133-144 | A user appended under a new e-mail is found by its e-mail and password. |
| LocalUsers.AppendDistinct | src/context/AuthContext.jsx:68-73 | Appending under a new e-mail keeps e-mails distinct. |
| LocalUsers.WithPasswordDistinct | src/redux/authSlice.js:73-75 | Rewriting passwords keeps e-mails distinct. |
| ContextAuth.ChangedUsers | src/context/AuthContext.jsx:147-165 | The change walk keeps ids, e-mails and roles. A matching user whose password is the old one gets the new password; everyone else is kept. |
| ContextAuth.ChangedUsersDistinct | src/context/AuthContext.jsx:147-171 | With distinct e-mails the walk reports success exactly when it rewrote that user, and otherwise leaves the list unchanged. |
| ContextAuth.AuthProvider.constructor | src/context/AuthContext.jsx:23-31 | Starts from the stored users, or the two seed users, and the stored session. E-mails are distinct from the start when the seed is used or the stored users have distinct e-mails. |
| ContextAuth.AuthProvider.Login | src/context/AuthContext.jsx:50-63 | True iff some user matches e-mail and password exactly. Then it sets `dummy-token` and that user's role and e-mail; otherwise the session is unchanged. |
| ContextAuth.AuthProvider.Register | src/context/AuthContext.jsx:65-78 | False with users unchanged for a taken e-mail (case-sensitive). Otherwise exactly one user with role `User` is appended. |
| ContextAuth.AuthProvider.RequestOtp | src/context/AuthContext.jsx:80-102 | False for an unknown e-mail, with the store unchanged. Otherwise the code and `now + 600000` replace any earlier entry. |
| ContextAuth.AuthProvider.ResetPassword | src/context/AuthContext.jsx:112-141 | Users become the list with that e-mail's password rewritten. The result is true exactly when the last matching user had a different password, and then the e-mail's code entry is deleted. Otherwise nothing changes. |
| ContextAuth.AuthProvider.ChangePassword | src/context/AuthContext.jsx:143-172 | True exactly when the matching user has the old password and it differs from the new one. Then only that user's password changes; otherwise users are unchanged. |
| ContextAuth.AuthProvider.Logout | src/context/AuthContext.jsx:174-179 | Token, role and current e-mail become null; users and codes stay. |
| ContextAuth.OtpWindow | src/context/AuthContext.jsx:104-110 | A code stored at `issued` verifies exactly while `now < issued + 600000`, strictly, and verifying does not consume it. |
| ContextAuth.ExpiryBoundaryDiffers | src/context/AuthContext.jsx:109 | At the expiry instant the backend still accepts a code and the context refuses it. |
| ContextAuth.ResetFlow | src/context/AuthContext.jsx:80-141 | Request, verify within the window, and reset. Then the new password logs in and the old one does not. A second reset to the same password and a second verification of the consumed code are refused. |
| LocalAuthSlice.OrNull | src/redux/authSlice.js:107-109 | An absent or empty stored value reads as null; anything else is kept. |
| LocalAuthSlice.AuthSlice.constructor | src/redux/authSlice.js:106-115 | The initial state is read from storage, with the seed users when none are stored, and no pending code. The stored token, role and e-mail keys are kept as they were found. |
| LocalAuthSlice.AuthSlice.LoginThunk | src/redux/authSlice.js:6-19 | Rejects with "Invalid email or password" unless some user matches exactly. Otherwise it stores and resolves that user's session. |
| LocalAuthSlice.AuthSlice.LoginFulfilled | src/redux/authSlice.js:128-132 | Sets `dummy-token` and the payload's role and e-mail. |
| LocalAuthSlice.AuthSlice.RegisterThunk | src/redux/authSlice.js:22-48 | Rejects a taken e-mail with "Email already registered" and stores nothing. Otherwise it stores the users with the new `User` appended, plus its session, and resolves with it. |
| LocalAuthSlice.AuthSlice.RegisterFulfilled | src/redux/authSlice.js:133-145 | Logs the new user in and appends exactly it to the state's users. |
| LocalAuthSlice.AuthSlice.RequestOtpThunk | src/redux/authSlice.js:51-66 | Rejects an unknown e-mail with "Email not found". Otherwise it stores the code as a string with a ten-minute expiry and resolves with the number. |
| LocalAuthSlice.AuthSlice.RequestOtpFulfilled | src/redux/authSlice.js:146-148 | Records the pending code. |
| LocalAuthSlice.AuthSlice.ResetPasswordThunk | src/redux/authSlice.js:69-85 | Checks neither code nor old password. It stores the users with that e-mail's password rewritten and deletes the code entry. |
| LocalAuthSlice.AuthSlice.ResetPasswordFulfilled | src/redux/authSlice.js:149-151 | As written: only clears the pending code. |
| LocalAuthSlice.AuthSlice.ResetPasswordFulfilledSynced | src/redux/authSlice.js:149-151 | Corrected: also rewrites the password in the state's users. |
| LocalAuthSlice.AuthSlice.ChangePasswordThunk | src/redux/authSlice.js:88-101 | Rejects with "Old password is incorrect" unless e-mail and old password match. Otherwise it stores the rewritten users; there is no same-password check. |
| LocalAuthSlice.AuthSlice.ChangePasswordFulfilledSynced | src/redux/authSlice.js:88-101 | Corrected: a fulfilled change also rewrites the password in the state's users. |
| LocalAuthSlice.AuthSlice.Logout | src/redux/authSlice.js:117-124 | Token, role and e-mail become null, the three stored session keys are removed, and users stay. |
| LocalAuthSlice.StaleResetFlow | src/redux/authSlice.js:149-151 | As written, after a reset the new password is refused and the old one still logs in. |
| LocalAuthSlice.SyncedResetFlow | src/redux/authSlice.js:149-151 | With the corrected reducer, after a reset the new password logs in and the old one is refused. |
| LocalAuthSlice.StaleChangeFlow | src/redux/authSlice.js:88-101 | As written, after a successful change the new password is refused and the old one still logs in. |
| LocalAuthSlice.SyncedChangeFlow | src/redux/authSlice.js:88-101 | With the corrected reducer, after a change the new password logs in and the old one is refused. |
| LocalAuthSlice.RegisterThenLogin | src/redux/authSlice.js:22-48 | A new e-mail registers, and then logs in with the chosen password. |
| SessionSlice.PayloadOf | backend/main.py:273-278 | The login payload carries the backend user's id, e-mail and role, and the encoded token. |
| SessionSlice.Session.constructor | frontend/src/redux/authSlice.js:119-129 | Each of the five string fields is its stored value, with a missing or empty one as null. The id is null unless a non-empty string is stored, which is then read as a number. There is no error. |
| SessionSlice.Session.Logout | frontend/src/redux/authSlice.js:131-139 | All six session fields become null and storage is cleared. |
| SessionSlice.Session.ClearError | frontend/src/redux/authSlice.js:140-142 | The error becomes null and nothing else changes. |
| SessionSlice.Session.LoginFulfilled | frontend/src/redux/authSlice.js:146-162 | Copies token, role, e-mail, name and mobile from the payload and clears the error. The user id is replaced, and stored, only when the payload has one. |
| SessionSlice.Session.RegisterFulfilled | frontend/src/redux/authSlice.js:166-168 | Only clears the error; no session is established. |
| SessionSlice.Session.Rejected | frontend/src/redux/authSlice.js:163-180 | The payload becomes the error; the session fields are untouched. |
| SessionSlice.LogoutIdempotent | frontend/src/redux/authSlice.js:131-139 | Logging out twice gives the same state as logging out once. |
| SessionSlice.ReloadAfterLogin | frontend/src/redux/authSlice.js:119-162 | After a login whose payload has an id and no empty string, a fresh slice built from the written storage holds the same identity. |
| SessionSlice.LoginSession | frontend/src/redux/authSlice.js:146-162 | A session is established exactly when the backend login succeeds, and it names that user by e-mail, role and id. |
| DataSlice.FindProduct | frontend/src/redux/dataSlice.js:96 | Finds the first product with the id, or reports that none has it. |
| DataSlice.DataState.constructor | frontend/src/redux/dataSlice.js:64-68 | Starts with empty lists and the six colours. |
| DataSlice.DataState.FetchCategoriesFulfilled | frontend/src/redux/dataSlice.js:78-80 | Replaces the categories with the payload. |
| DataSlice.DataState.AddCategoryFulfilled | frontend/src/redux/dataSlice.js:81-83 | Appends the payload; earlier categories are unchanged. |
| DataSlice.DataState.RemoveCategoryFulfilled | frontend/src/redux/dataSlice.js:84-86 | Drops every category with that id; products are not touched (no cascade). |
| DataSlice.DataState.FetchProductsFulfilled | frontend/src/redux/dataSlice.js:89-91 | Replaces the products with the payload. |
| DataSlice.DataState.AddProductFulfilled | frontend/src/redux/dataSlice.js:92-94 | Appends the payload; earlier products are unchanged. |
| DataSlice.DataState.UpdateProductFulfilled | frontend/src/redux/dataSlice.js:95-100 | Replaces only the first product with the payload's id. The length is kept, and with no match the list is unchanged. |
| DataSlice.DataState.RemoveProductFulfilled | frontend/src/redux/dataSlice.js:101-103 | Drops every product with that id; the categories and colours are untouched. |
| DataSlice.RemoveUndoesAdd | frontend/src/redux/dataSlice.js:92-103 | Removing a freshly added product's id restores the product list. |
| DataSlice.RemoveUndoesAddCategory | frontend/src/redux/dataSlice.js:81-86 | Removing a freshly added category's id restores the category list. |
| DataSlice.AddThenRemove | frontend/src/redux/dataSlice.js:92-103 | Running the add reducer and then the remove reducer restores the products and leaves the categories alone. |
| Validation.CollectErrors | frontend/src/utils/validation.js:3-16 | Building the errors object from the four check outcomes sets exactly the keys of the failed checks, each with its message. The object is empty iff no check failed. |
| Validation.ValidateProduct | frontend/src/utils/validation.js:2-17 | There is one error per failed check, each set independently and with its message: missing or blank name; missing, falsy or at-most-zero price; missing or empty colours; falsy category. The result is empty iff all four pass. |
| Validation.UnparsablePricePasses | frontend/src/utils/validation.js:7 | A non-empty price text that parses to NaN passes the price check. The number input of either form hands an unparsable entry over as "", so this case is reached only by a caller of `validateProduct` other than the forms. |
| Validation.BlankNameFails | frontend/src/utils/validation.js:4 | A present name fails exactly when it is all whitespace. |
| FormLists.AddTag | frontend/src/components/ProductModal.jsx:56-60 | Appends the trimmed tag and clears the input only when the tag is non-empty and absent. Otherwise both are unchanged. |
| FormLists.Toggle | frontend/src/components/ProductModal.jsx:66-68 | The colour is in the result exactly when it was not in the list. |
| FormLists.AddTagNoDuplicates | frontend/src/components/ProductModal.jsx:53-61 | A duplicate-free tag list stays duplicate-free. |
| FormLists.WithoutNoDuplicates | frontend/src/components/ProductModal.jsx:63 | Removing a tag keeps the list duplicate-free. |
| FormLists.ToggleNoDuplicates | frontend/src/components/ProductModal.jsx:66-68 | A duplicate-free colour list stays duplicate-free. |
| FormLists.ToggleTwice | frontend/src/components/ProductModal.jsx:66-68 | Toggling an absent colour twice restores the list. |
| ProductModal.FindClash | frontend/src/components/ProductModal.jsx:83-88 | Finds a product with the same case-insensitive trimmed name in the chosen category, other than the one being edited, or reports that none exists. |
| ProductModal.AddKeepsNamesUnique | frontend/src/components/ProductModal.jsx:83-92 | A product that passes the duplicate check keeps names unique within each category. |
| ProductModal.ProductForm.constructor | frontend/src/components/ProductModal.jsx:15-23 | The form holds the given values and no errors. |
| ProductModal.ProductForm.TagKeyPress | frontend/src/components/ProductModal.jsx:53-62 | Enter applies the tag rule; other keys change nothing; tags stay duplicate-free. |
| ProductModal.ProductForm.RemoveTag | frontend/src/components/ProductModal.jsx:63 | Every occurrence of the tag is removed. |
| ProductModal.ProductForm.ColorToggle | frontend/src/components/ProductModal.jsx:66-68 | Removes the colour when present and appends it otherwise; colours stay duplicate-free. |
| ProductModal.ProductForm.HandleSubmit | frontend/src/components/ProductModal.jsx:71-107 | The guards apply in order: validator errors (recorded), a price at most 0 or NaN ("Price must be greater than 0"), a same-name product in the category, then no logged-in user. Each guard fires exactly when the earlier ones pass. Otherwise the payload carries the trimmed name, the parsed price, the user id and an id only when editing. Past the validator the recorded errors are empty, so errors from an earlier submit are cleared. |
| SimpleProductModal.SimpleProductForm.constructor | src/components/ProductModal.jsx:9-13 | The form starts empty. |
| SimpleProductModal.SimpleProductForm.ColorChange | src/components/ProductModal.jsx:15-20 | Checking appends the value; unchecking removes all its occurrences. |
| SimpleProductModal.SimpleProductForm.AddTagClicked | src/components/ProductModal.jsx:22-27 | Applies the same tag rule as the other form. |
| SimpleProductModal.SimpleProductForm.RemoveTag | src/components/ProductModal.jsx:29-31 | Every occurrence of the tag is removed. |
| SimpleProductModal.SimpleProductForm.HandleSubmit | src/components/ProductModal.jsx:33-54 | Submits exactly when the name and price are non-empty and a colour is chosen. The record takes the category's id and name and the untrimmed name. |
| SimpleProductModal.CheckUncheck | src/components/ProductModal.jsx:15-20 | For any colour list without the value, checking and then unchecking it restores the list. |
| SimpleProductModal.NonPositivePriceAccepted | src/components/ProductModal.jsx:35-45 | A price at most 0 or NaN is submitted by this form, while the other form refuses it. The number input hands an unparsable entry over as "", so from the form the reachable case is a price at most 0, such as "0" or "-5". |
| ProductPages.ExportLines | src/pages/Products.jsx:11-21 | The first line is `Name,Price,Colors,Tags,Category`. Then there is one line per product, in order, of its cells joined by commas. |
| ProductPages.ExportCsv | frontend/src/pages/Products.jsx:59-64 | With no products the export is the header line alone. |
| ProductPages.SplitJoin | frontend/src/pages/Products.jsx:64 | Splitting a join on a separator that no part contains gives back the parts. |
| ProductPages.ExportReadsBack | frontend/src/pages/Products.jsx:59-64 | When no name, colour, tag or category contains a comma or newline and each product has at most one colour and one tag, the lines split back into the header and each product's five cells. |
| ProductPages.HeaderSplits | frontend/src/pages/Products.jsx:61-64 | The header line splits back on commas into its five cells. |
| ProductPages.TwoColoursSixCells | frontend/src/pages/Products.jsx:62-64 | The line of a product with two plain colours and no tags splits on commas into six cells. |
| ProductPages.TwoColoursMisalign | frontend/src/pages/Products.jsx:62-64 | A product with two colours exports a six-cell line under the five-cell header. |
| ProductPages.QuotedExportCsv | frontend/src/pages/Products.jsx:59-64 | The quoted export parses back to the header and exactly each product's five cells. |
| ProductPages.Cached | frontend/src/redux/dataSlice.js:89-91 | A fetched product keeps the row's id, owner and category. |
| ProductPages.CanEditMatchesBackend | frontend/src/pages/Products.jsx:121 | Edit and delete are offered exactly when the backend would allow them for the logged-in user. |
| ProductPages.ToolbarFor | frontend/src/pages/Products.jsx:74-85 | Export is shown exactly to `Admin`; add is shown exactly when the user id is truthy. |
| ProductPages.FindByName | frontend/src/pages/Products.jsx:92 | Finds a category with that name, or reports that none has it. |
| ProductPages.ProductsPage.constructor | frontend/src/pages/Products.jsx:16-18 | The modal is closed, with no selection and nothing being edited. |
| ProductPages.ProductsPage.HandleAddProduct | frontend/src/pages/Products.jsx:25-33 | Refused iff there are no categories, with the state unchanged. Otherwise it opens a new-product form whose category name resolves to the first category. |
| ProductPages.ProductsPage.HandleEditProduct | frontend/src/pages/Products.jsx:35-39 | Opens the form on the product, under its cached category name. |
| CategoryPages.NameError | frontend/src/pages/Categories.jsx:32-41 | "Category name cannot be empty" exactly for all-whitespace input. "Category already exists" exactly when the trimmed, lower-cased input equals some lower-cased name. Otherwise the input is accepted. |
| CategoryPages.Submitted | frontend/src/pages/Categories.jsx:47 | The submitted category has the trimmed name and count 0. |
| CategoryPages.AcceptedByBackend | frontend/src/pages/Categories.jsx:32-47 | An accepted name is no exact duplicate of any category the cache holds, so the backend creates it. |
| CategoryPages.AcceptedNameStaysUnique | src/pages/Categories.jsx:21-35 | Adding an accepted name keeps names unique ignoring case. |
| CategoryPages.AddedNameRefused | src/pages/Categories.jsx:21-35 | Once an accepted name is added, the same name in any case or padding is refused as a duplicate. |
| CategoryPages.CategoriesPage.constructor | src/pages/Categories.jsx:8 | The page holds the context's lists. |
| CategoryPages.CategoriesPage.HandleAddCategory | src/pages/Categories.jsx:29-35 | An accepted name is appended as a category with id `now`, the trimmed name and count 0; earlier categories are unchanged and names stay unique. A cancelled dialog changes nothing. |
| CategoryPages.CategoriesPage.HandleRemoveCategory | src/pages/Categories.jsx:54-55 | A confirmed removal drops the categories with that id and keeps the rest in order. Products are untouched (no cascade). |

## Left out

- HTTP transport, routing, CORS and the mapping of error bodies. The client thunks of the backend-backed client are I/O; only their reducers are modelled.
- Persistence: the SQL engine, sessions and commits, JSON encoding of lists, and `localStorage` beyond the fields the classes hold. `backend/config.py` is not part of this model.
- JWT signing, expiry and decoding are a function parameter from token to subject. `create_access_token` is not part of this model; claims stand for the token.
- bcrypt is a deterministic, injective stand-in with no salt; only `verify(p, hash(p))` and its converse are used. passlib's bcrypt truncates passwords to their first 72 bytes, so two passwords that share those bytes verify against each other's hash. The model assumes every password is at most 72 bytes long.
- Crypt.VerifyHash: holds only for passwords of at most 72 bytes; longer passwords that share their first 72 bytes verify against each other's hash.
- ApiAuth.Login: the iff holds for passwords of at most 72 bytes; a longer password also succeeds when its first 72 bytes match the stored one.
- ApiAuth.LoginAfterPasswordChange: "fails with any other" assumes passwords of at most 72 bytes; another password sharing the first 72 bytes of the new one also logs in.
- ApiAuth.ResetFlow: the old password is refused only when it differs from the new one within the first 72 bytes.
- Sending e-mail, SweetAlert dialogs and the download of the exported file are side effects and are left out.
- Randomness and clocks are parameters within their stated ranges.
- `seed_admin` at startup, `get_categories`, `get_products` and the `ownerEmail` field of product responses are left out. Only handlers that change state or guard access are modelled.
- The json-server POST in `registerAsync` is I/O and is left out; only the storage writes are modelled.
- ContextAuth.AuthProvider.constructor: the mount-time persistence effect (src/context/AuthContext.jsx:39-48) removes the stored `currentUserEmail` when `token` or `role` is empty. The constructor keeps the stored e-mail as read, so a stored e-mail without a stored token or role is not cleared in the model. The session fields are the React state; the `token`, `role` and `currentUserEmail` storage keys are not mirrored separately.
- ContextAuth.AuthProvider.ResetPassword and ContextAuth.AuthProvider.ChangePassword: React may run the `setUsers` updater later than the code after it. The model runs the updater synchronously, so the returned flag is the one the updater sets.
- SessionSlice.Session.constructor: a stored id is read as a number only when it is an optional minus sign and digits, as the slice itself writes it. Any other stored text reads as null here, whereas JavaScript's `Number` gives NaN or accepts forms such as `" 7 "` or `"1e3"`.
- Floating-point prices: records hold integer prices, as the backend column does. `parseFloat`'s result is given with the input as a NaN-or-real value.
- Case folding is ASCII only; Unicode lower-casing is not modelled.
- src/context/DataContext.jsx, which feeds src/pages/Categories.jsx, is not part of this model; the page's class holds its two lists.
- The form-initialising effects of the product form (`useEffect` on the edited product and the default category) are left out; the form is constructed with its field values.
- ContextAuth.AuthProvider.ResetPassword and ContextAuth.AuthProvider.ChangePassword define their outcome by the last user with the e-mail, as the walk's flag does. E-mails are distinct under `Valid()`, so this is the one matching user.
- ProductPages.ExportCsv: its own contract states only the empty case. The per-line contents are in ProductPages.ExportLines and ProductPages.ExportReadsBack.

## Findings

| source | as written | input that shows it | evidently intended | confidence | as-written member | corrected member |
|---|---|---|---|---|---|---|
| src/redux/authSlice.js:149-151 | The reset reducer only clears the pending code. `state.users`, which `loginAsync` reads, keeps the old password. The defect is in the slice itself. The current pages use the auth context instead and do not dispatch these thunks, so it does not show through them. | Reset `user@gmail.com` to any other password, then log in with it in the same session. | The state's users take the new password, as the stored users do. | not executed | LocalAuthSlice.StaleResetFlow | LocalAuthSlice.SyncedResetFlow |
| src/redux/authSlice.js:88-101 | `changePassword` has no fulfilled reducer, so `state.users` keeps the old password after a successful change. The defect is in the slice itself. The current pages use the auth context instead and do not dispatch this thunk, so it does not show through them. | Change `user@gmail.com` from `123456` to another password, then log in with the new one. | The state's users take the new password. | not executed | LocalAuthSlice.StaleChangeFlow | LocalAuthSlice.SyncedChangeFlow |
| frontend/src/pages/Products.jsx:62-64 | Colours are joined with `", "` inside cells that are joined by bare commas with no quoting. | A product with colours `Red` and `Blue` and no tags. | One cell per column, with separators inside a cell quoted. | not executed | ProductPages.TwoColoursMisalign | ProductPages.QuotedExportCsv |
