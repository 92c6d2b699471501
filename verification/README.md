# Artisthaambh artist backend and pages, modelled in Dafny

Artisthaambh is a marketplace for artwork. Artists register, log in and manage listings of their art pieces. Users save pieces they like.

This project models two parts of it:

- **The backend's artist controller and router** (an Express application over MongoDB).
- **Seven React pages** of the frontend: artist sign-up, user sign-up, artist login, the art submission form, the art edit form, the saved-items page and the protecting wrapper.

## Backend

- **ListingStore.** Describes each request handler as a function. The function takes the stored artists and listings plus the request, and gives back the new store and the JSON response, or `Forwarded` when the handler calls `next(err)`.
- **ArtistController.Controller.** Performs the same handlers in place, on `seq`/`map` fields. Each method is proved to reach exactly the state and reply that the matching ListingStore function describes.
- **Store invariant (`Consistent`).** The invariant says:
  - ids are below the allocation counter;
  - artist ids and e-mails are unique;
  - every listing's owner is a stored artist whose `arts` holds the listing.
- **StoreProperties.** Proves that every handler keeps the invariant, that a fresh registration can log in, and that only the owner ever changes a listing.
- **RouteValidators.** Models the `express-validator` chains of the router. It also models which routes the artist authentication middleware guards.

## Frontend

Each page with `useState` hooks is a class with one field per piece of state, except Saved.jsx: its only state, `selectedCategory`, is the `category` parameter of the function that computes the shown items.

- A handler is a method. It returns the effects it performs, in order: requests, context updates, token storage, navigation and alerts.
- The outcome of the request it awaits is a parameter.
- **FormRules.** Holds the pages' validation rules as error-map functions. Lemmas state exactly when each field gets a message and which message it gets.
- **JsText.** Models the JavaScript string semantics these rules rely on: `trim()`, the e-mail and phone regular expressions, `split(" ")` and template interpolation.

## Model

| member | source | states |
|---|---|---|
| ListingStore.Register | Backend/controllers/artist.controller.js:11-42 | validation errors give 400 with the errors; a taken e-mail gives 400 "Artist Already Exists"; with no errors and a free e-mail the answer is 201: one artist is appended with id `nextId`, the body's e-mail, a hash that matches the body's password and no `arts`, the counter advances, listings are untouched and the reply carries that artist and a token for its id; any non-201 leaves the store unchanged |
| ListingStore.Login | Backend/controllers/artist.controller.js:44-78 | validation errors give 400; every other failure is 400 "Email Or Password Is Incorrect"; 200 carries a stored artist with the given e-mail whose hash matches the password, and a token for that artist |
| ListingStore.Create | Backend/controllers/artist.controller.js:94-130 | no requester gives 401 and validation errors give 400, both with the store unchanged; a stored requester with no validation errors gets 200; 200 means the listing built from the body's fields (`NewListing`) is stored under the next id, owned by the requester and returned, and that id is appended to the requester's `arts` with every other artist unchanged |
| ListingStore.ApplyUpdate | Backend/controllers/artist.controller.js:153-156 | each of the seven editable fields is overwritten by the body's value when its key is present (not `undefined`) and kept when absent; the owner is never changed; a body without editable fields changes nothing |
| ListingStore.Update | Backend/controllers/artist.controller.js:132-163 | 401 without requester, 404 for an unknown id, 403 for another artist's listing, each with the store unchanged; 200 exactly when the requester owns the listing, with only that listing replaced by the body merged into it (`ApplyUpdate`), which is also the listing returned, and its owner kept; never forwards |
| ListingStore.Delete | Backend/controllers/artist.controller.js:165-188 | 401 without requester; an unknown id is forwarded to the error handler, not answered with 404; another artist's listing gives 401; 200 exactly for the owner, returning the listing and removing only it |
| ListingStore.BearerHeaderToken | Backend/controllers/artist.controller.js:216 | without a cookie, the token is the word after `Bearer ` in the authorization header |
| ListingStore.LoggedIn | Backend/controllers/artist.controller.js:214-239 | the answer is always 200 or 400; no token gives 400 "Token Is Not Present"; 200 exactly when the token verifies to a stored artist's id, with the stored artist of exactly that id in the artist role |
| ListingStore.LocationQuery | Backend/controllers/artist.controller.js:283-285 | the query starts with the interpolated location; it is exactly the location when the country is missing or empty, otherwise followed by ", " and the country |
| ListingStore.MapLookup | Backend/controllers/artist.controller.js:275-329 | unknown listing gives 404; a failed geocoding call gives 500 "Server Error"; an answer with missing or zero features gives 400; an answer with at least one feature gives 200, and 200 comes only then |
| ArtistController.Controller.RegisterArtist | Backend/controllers/artist.controller.js:11-42 | the in-place registration keeps the store invariant and yields exactly `ListingStore.Register`'s new store and reply |
| ArtistController.Controller.LoginArtist | Backend/controllers/artist.controller.js:44-78 | the in-place login answers exactly as `ListingStore.Login` and changes nothing |
| ArtistController.Controller.CreateListing | Backend/controllers/artist.controller.js:94-130 | inserting, bumping the counter and pushing onto `arts` keeps the store invariant and yields exactly `ListingStore.Create`'s store and reply |
| ArtistController.Controller.UpdateListing | Backend/controllers/artist.controller.js:132-163 | the in-place update keeps the invariant and yields exactly `ListingStore.Update`'s store and reply |
| ArtistController.Controller.DeleteListing | Backend/controllers/artist.controller.js:165-188 | the in-place deletion keeps the invariant and yields exactly `ListingStore.Delete`'s store and reply |
| StoreProperties.FindArtistAt | Backend/controllers/artist.controller.js:224 | with unique ids, looking up a stored artist's id finds that artist |
| StoreProperties.FindArtistSameIds | Backend/controllers/artist.controller.js:123-124 | changing artist records without changing their ids does not change any lookup by id |
| StoreProperties.AppendArtistKeepsConsistent | Backend/controllers/artist.controller.js:19-33 | appending an artist with the next id and an unused e-mail keeps the store invariant |
| StoreProperties.RegisterKeepsConsistent | Backend/controllers/artist.controller.js:19-37 | registration preserves the store invariant, in particular e-mail uniqueness |
| StoreProperties.AddListingKeepsConsistent | Backend/controllers/artist.controller.js:109-124 | storing a listing under the next id for a stored owner and recording it in that owner's `arts` keeps the store invariant |
| StoreProperties.CreateKeepsConsistent | Backend/controllers/artist.controller.js:109-124 | listing creation by a stored artist preserves the store invariant |
| StoreProperties.ListingsOnlyKeepConsistent | Backend/controllers/artist.controller.js:156-182 | removing listings, or rewriting them without changing their owner, keeps the store invariant |
| StoreProperties.UpdateKeepsConsistent | Backend/controllers/artist.controller.js:139-158 | an update preserves the store invariant |
| StoreProperties.DeleteKeepsConsistent | Backend/controllers/artist.controller.js:172-183 | a deletion preserves the store invariant |
| StoreProperties.DeleteLeavesArtsEntry | Backend/controllers/artist.controller.js:182-183 | after a successful delete the listing is gone but the owner's `arts` still names it |
| StoreProperties.RegisterThenLogin | Backend/controllers/artist.controller.js:11-78 | a registration that passes the route's validators with an e-mail nobody has is answered with 201, and logging in with the same e-mail and password passes the login validators and yields 200 with the new artist and its token |
| StoreProperties.LoginSucceedsIff | Backend/controllers/artist.controller.js:50-73 | with a consistent store, login succeeds if and only if some artist has the e-mail and a hash matching the password |
| StoreProperties.OnlyOwnerMutates | Backend/controllers/artist.controller.js:132-188 | an update or delete leaves artists, the counter and every other listing untouched, and changes or removes listing `id` only when the requester owns it |
| RouteValidators.ChainErrorsEmptyIff | Backend/routes/artist.routes.js:14-62 | a validation chain reports nothing exactly when each of its checks passes |
| RouteValidators.RunRulesEmptyIff | Backend/routes/artist.routes.js:14-62 | a route's validators report nothing exactly when every check of every field passes |
| RouteValidators.RegisterAccepts | Backend/routes/artist.routes.js:14-23 | registration is valid exactly for an e-mail of length 5+ that passes `isEmail`, a string password of 5+, a first name of 3+ and a city of 2+ characters |
| RouteValidators.LoginAccepts | Backend/routes/artist.routes.js:25-35 | login is valid exactly when e-mail and password are strings of 5+ characters |
| RouteValidators.CreateAccepts | Backend/routes/artist.routes.js:42-62 | creation is valid exactly for a title of 3+, a description of 5+, a string image, a type of art of 2+ and a string price |
| RouteValidators.RouteGuards | Backend/routes/artist.routes.js:37-81 | the artist middleware guards exactly logout, getArtist, create, update, delete and artOwner; only register, login and create carry body validators |
| JsText.TrimStartSuffix | Frontend/src/pages/ArtistSignUp.jsx:22 | `trimStart()` gives a suffix of the input; everything dropped is white space and the result does not start with white space |
| JsText.TrimEndPrefix | Frontend/src/pages/ArtistSignUp.jsx:22 | `trimEnd()` gives a prefix of the input; everything dropped is white space and the result does not end with white space |
| JsText.TrimEmptyIffBlank | Frontend/src/pages/ArtistSignUp.jsx:22-23 | `trim()` is empty exactly when the string is white space only |
| JsText.FirstIndexOfFound | Frontend/src/pages/ArtistSignUp.jsx:27 | the index found holds the character and no earlier one does; none found means absent |
| JsText.LastIndexOfFound | Frontend/src/pages/ArtistSignUp.jsx:27 | the index found holds the character and no later one does; none found means absent |
| JsText.TestEmailIffShaped | Frontend/src/pages/ArtistSignUp.jsx:27 | the executable e-mail test accepts exactly the language of `^\S+@\S+\.\S+$` |
| JsText.SecondWord | Backend/controllers/artist.controller.js:216 | `split(" ")[1]` is undefined exactly when there is no space, and never holds a space |
| JsText.SecondWordOfBearer | Backend/controllers/artist.controller.js:216 | reading back the header `Bearer <token>` gives the token |
| Sequences.FirstIndex | Backend/controllers/artist.controller.js:19 | the first index at or after `from` whose element matches; no earlier element matches |
| Sequences.FirstIndexAppendFrom | Backend/controllers/artist.controller.js:19-33 | searching from any start in a list with one record appended finds the old match if there was one, else the new record if it matches |
| Sequences.FirstIndexAppend | Backend/controllers/artist.controller.js:19-33 | appending a record keeps an existing first match and can only add a match at the end |
| Sequences.FirstIndexAt | Backend/controllers/artist.controller.js:52-56 | a match with no earlier match is the first match |
| Sequences.Filter | Frontend/src/pages/Saved.jsx:28-31 | every kept element passes the test and the result is no longer than the input |
| Sequences.FilterIsSubsequence | Frontend/src/pages/ArtEditForm.jsx:71-73 | a filter keeps elements in their original order |
| Sequences.FilterCounts | Frontend/src/pages/Saved.jsx:28-31 | a filter keeps each passing element as often as it occurs and drops every failing one |
| Sequences.FilterMembers | Frontend/src/pages/ArtEditForm.jsx:71-73 | an element is in the filtered list exactly when it is in the list and passes |
| Sequences.FilterAll | Frontend/src/pages/Saved.jsx:28-31 | a filter that everything passes returns the list unchanged |
| PageEffects.Spread | Frontend/src/pages/ArtSubmissionForm.jsx:24-27 | the named key takes the new value; every other key keeps its presence and value |
| PageEffects.SessionEffects | Frontend/src/pages/ArtistSignUp.jsx:72-77 | the session is taken over exactly on the success status: the account goes to `setArtist` (artist pages) or `setUser` (user page), then the token is stored, then the page navigates to /home |
| FormRules.FilledMessage | Frontend/src/pages/ArtSubmissionForm.jsx:35-36 | a message exactly for the empty string, with no trimming |
| FormRules.PriceMessage | Frontend/src/pages/ArtSubmissionForm.jsx:38-40 | a price message exactly when the price is non-empty and not a number |
| FormRules.RequiredRule | Frontend/src/pages/ArtistSignUp.jsx:22-23 | a required-after-trim field gets its message exactly when it is blank |
| FormRules.EmailRule | Frontend/src/pages/ArtistSignUp.jsx:25-29 | an e-mail message exactly when the e-mail lacks the pattern's shape: "Email is required" when empty, else "Enter a valid email" |
| FormRules.ReportEntry | Frontend/src/pages/ArtistSignUp.jsx:20-43 | recording a rule's message adds only that field and leaves every other entry alone |
| FormRules.ReportPair | Frontend/src/pages/ArtistSignUp.jsx:20-43 | two rules for two different fields each touch only their own entry |
| FormRules.CredentialRules | Frontend/src/pages/ArtistLogIn.jsx:14-31 | the login form reports only e-mail and password, each exactly when its rule fails, with the matching message; it passes exactly when both hold |
| FormRules.NameRules | Frontend/src/pages/UserSignUp.jsx:19-20 | each name gets "... is required" exactly when blank after trimming |
| FormRules.AccountRules | Frontend/src/pages/UserSignUp.jsx:16-36 | the user sign-up form reports exactly the failing ones of its four rules, with their messages |
| FormRules.AccountKeys | Frontend/src/pages/UserSignUp.jsx:16-36 | the user sign-up form reports on its own four fields only |
| FormRules.AccountAccepts | Frontend/src/pages/UserSignUp.jsx:16-36 | the user sign-up form passes exactly when all four rules hold |
| FormRules.ArtistAccountRules | Frontend/src/pages/ArtistSignUp.jsx:19-47 | the artist sign-up form agrees with the user form on the shared fields, reports the phone exactly when it is not ten digits and the city exactly when blank |
| FormRules.ArtistAccountAccepts | Frontend/src/pages/ArtistSignUp.jsx:19-47 | the artist sign-up form passes exactly when all six rules hold |
| FormRules.SubmissionRules | Frontend/src/pages/ArtSubmissionForm.jsx:29-44 | the submission form reports exactly the failing ones of its five rules, with their messages, and passes exactly when all hold |
| ArtistSignUpPage.ArtistSignUp.constructor | Frontend/src/pages/ArtistSignUp.jsx:7-13 | all six fields start empty, with no errors |
| ArtistSignUpPage.ArtistSignUp.Validate | Frontend/src/pages/ArtistSignUp.jsx:19-47 | the stored errors are the artist sign-up error map of the fields; the result is true exactly when it is empty |
| ArtistSignUpPage.ArtistSignUp.Submit | Frontend/src/pages/ArtistSignUp.jsx:49-90 | an invalid form sends nothing and keeps the fields; a valid one posts to /artist/register, takes over the session on 201, shows "Registration failed. Try again." on a rejected request and clears all six fields |
| UserSignUpPage.UserSignUp.constructor | Frontend/src/pages/UserSignUp.jsx:7-11 | all four fields start empty, with no errors |
| UserSignUpPage.UserSignUp.Validate | Frontend/src/pages/UserSignUp.jsx:16-36 | the stored errors are the user sign-up error map of the fields; the result is true exactly when it is empty |
| UserSignUpPage.UserSignUp.Submit | Frontend/src/pages/UserSignUp.jsx:38-69 | an invalid form sends nothing; a valid one posts to /user/register, signs in the user on 200, reports a rejected request and clears only e-mail and password |
| ArtistLogInPage.ArtistLogIn.constructor | Frontend/src/pages/ArtistLogIn.jsx:7-9 | both fields start empty, with no errors |
| ArtistLogInPage.ArtistLogIn.Validate | Frontend/src/pages/ArtistLogIn.jsx:14-31 | the stored errors are the login error map of the fields; the result is true exactly when it is empty |
| ArtistLogInPage.ArtistLogIn.Submit | Frontend/src/pages/ArtistLogIn.jsx:33-55 | an invalid form sends nothing; a valid one posts to /artist/login, signs in the artist on 200, shows "Invalid email or password" on a rejected request and clears both fields |
| ArtSubmissionFormPage.ArtSubmission.constructor | Frontend/src/pages/ArtSubmissionForm.jsx:6-20 | the seven form fields start empty, with no image, file or errors |
| ArtSubmissionFormPage.ArtSubmission.HandleChange | Frontend/src/pages/ArtSubmissionForm.jsx:24-27 | only the named field changes, and every field stays present |
| ArtSubmissionFormPage.ArtSubmission.Validate | Frontend/src/pages/ArtSubmissionForm.jsx:29-44 | the stored errors are the submission error map of the form; the result is true exactly when it is empty |
| ArtSubmissionFormPage.ArtSubmission.Submit | Frontend/src/pages/ArtSubmissionForm.jsx:46-74 | nothing is sent for an invalid form or without a stored token; otherwise the form is posted with the bearer token and a 200 navigates home |
| ArtSubmissionFormPage.ArtSubmission.ChooseFile | Frontend/src/pages/ArtSubmissionForm.jsx:142 | picking a file (or none) in the file input records exactly that choice, changes nothing else and keeps every form field present |
| ArtSubmissionFormPage.ArtSubmission.Upload | Frontend/src/pages/ArtSubmissionForm.jsx:76-100 | without a file nothing happens; a non-empty url from the upload becomes both the image url and the form's image; otherwise the form is unchanged |
| ArtEditFormPage.MissingFields | Frontend/src/pages/ArtEditForm.jsx:70-73 | the missing fields are exactly the falsy required fields, in the required order; none are missing exactly when all four are filled |
| ArtEditFormPage.ArtEdit.constructor | Frontend/src/pages/ArtEditForm.jsx:7-11 | the form starts from the shared listing details with no file |
| ArtEditFormPage.ArtEdit.HandleChange | Frontend/src/pages/ArtEditForm.jsx:23-29 | only the named field of the listing details changes |
| ArtEditFormPage.ArtEdit.ChooseFile | Frontend/src/pages/ArtEditForm.jsx:142 | picking a file (or none) in the file input records exactly that choice and changes nothing else |
| ArtEditFormPage.ArtEdit.Upload | Frontend/src/pages/ArtEditForm.jsx:31-65 | without a file nothing happens; a non-empty url replaces only the image; any other outcome alerts "Image upload failed" and changes nothing |
| ArtEditFormPage.ArtEdit.Submit | Frontend/src/pages/ArtEditForm.jsx:67-104 | missing fields are alerted, then a missing token; otherwise a PUT to /artist/update/ followed by the listing's id (or `undefined`), then /art-details on 200 or an alert on failure; a request is sent only with a token and all required fields |
| SavedPage.FilteredSaved | Frontend/src/pages/Saved.jsx:28-31 | without a user or a saved list nothing is shown; every shown item matches the chosen category |
| SavedPage.FilteredIsSubsequence | Frontend/src/pages/Saved.jsx:28-31 | the shown items keep their saved order |
| SavedPage.NoCategoryShowsAll | Frontend/src/pages/Saved.jsx:28-31 | with no category chosen the whole saved list is shown |
| SavedPage.CategoryShowsExactlyMatching | Frontend/src/pages/Saved.jsx:28-31 | with a category chosen, each item of that type is shown as often as it is saved and no other item is shown |
| ProtectWrapperPage.ProtectWrapper.constructor | Frontend/src/pages/ProtectWrapper.jsx:9-12 | the stored token is read and the user and artist are whatever the two shared contexts hold |
| ProtectWrapperPage.ProtectWrapper.CheckLogin | Frontend/src/pages/ProtectWrapper.jsx:14-52 | no token redirects to /login; when someone is already signed in nothing happens; otherwise the check is requested with the token, a failure forgets the token and redirects, and a 200 signs in exactly the reported role while clearing the other, so nobody is then both user and artist; a state with both set is accepted and left as it is; a state with at most one set keeps that property |

## Left out

- Image hosting (the Cloudinary upload in `uploadImage`, artist.controller.js:243-271) is not modelled; the pages receive the returned url as a parameter.
- The geocoding HTTP call and the static map URL are left out. `MapLookup` takes the geocoder as a function and answers `MapFound` in place of the URL, latitude and longitude.
- JWT signing, secrets and expiry are left out. A token is the artist's id, and `LoggedIn` takes verification as a function.
- ListingStore.Login: the `token` cookie that `loginArtist` sets (artist.controller.js:72) is not modelled; the cookie that `LoggedIn` reads first is a parameter, so the model does not connect a login to a later cookie.
- ListingStore.NewListing, ListingStore.ApplyUpdate: a non-string JSON value (`Other`) is stored as the text the validators read. A JSON `null` location is therefore stored as that text rather than as `null`, and `LocationQuery` starts with that text where the source's template writes `null`. A `null` country is falsy in both and is dropped either way.
- bcrypt is modelled as an abstract salted digest (`Digest(password, salt)`); the salt is a parameter.
- The listing and artist services, the models and the authentication middleware are not part of this model. `createListing` and `updateListing` are taken to store what they are given; the middleware is taken to attach a stored artist.
- ListingStore.ApplyUpdate: the listing service's update (`listingService.updateListing`) is not part of this model, and it is assumed to ignore an `owner` key in the body. The controller passes the whole body on (artist.controller.js:153-156), so if the service writes every key it is given, a body carrying `owner` would hand the listing to another artist. `ApplyUpdate`'s owner clause, `Update`'s owner clause, `StoreProperties.UpdateKeepsConsistent`, `StoreProperties.ListingsOnlyKeepConsistent` (as used for updates), `StoreProperties.OnlyOwnerMutates` and `ArtistController.Controller.UpdateListing`'s invariant all rest on that assumption. Keys other than the seven editable fields and `owner` are ignored as well.
- Malformed ids (Mongoose `CastError`) and failures of the database itself are left out; ids are natural numbers.
- `isEmail` of the validator library and JavaScript's `isNaN` are parameters, not definitions.
- String lengths count Dafny characters, not UTF-16 code units.
- Asynchrony, concurrent requests and React rendering are left out. Each handler is one atomic step, and each page handler receives the outcome of its awaited request. The JSX markup, the NavBar, the loading/uploading flags and `console` logging are left out too.
- `logoutArtist` clears the token cookie and answers 200 "Logged Out"; `getArtist` echoes the artist the middleware attached; `artOwner` belongs to the middleware. None of them touches the store, so they are left out. Their routes appear only in `RouteValidators.RouteOf`.
- `show` and `showListing` read the listings collection (all listings, or one with its owner and comments populated; artist.controller.js:190-212). They change nothing and the comments collection is not part of this model, so they are left out; their routes appear in `RouteValidators.RouteOf`.
- `Backend/init/index.js` deletes every listing and inserts sample data. It is a seeding script outside the request handlers, and the sample data is not part of this model.
- `RouteValidators.Route` does not record the order of a route's handlers. On POST /artist/create the body validators run before `auth.authArtist` (artist.routes.js:42-61), so their errors are computed even for an unauthenticated request; `ListingStore.Create` still answers 401 before reading them.
- Request bodies sent by the pages are not part of the `Request` effect; only the verb, path and bearer token are.
- The account objects (`data.artist`, `data.user`) are opaque values.
- Form state and error maps are keyed by the fixed set of field names the pages use (`Field`); an input with any other `name` is not modelled.
- The user branch of `LoggedIn` refers to a model the controller never imports, so it always throws and answers 400. The model reproduces this rather than the user role the frontend expects.
