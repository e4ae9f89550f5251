# Green Planet backend — a Dafny model

A Dafny model of the rules in the Green Planet Express/Mongoose backend
(`cyclicit/green-planet-moc`), with proofs about them. The database, the Google
OAuth client, the JWT library and multer's disk storage are abstracted.

- **Identity resolution, config/passport.js** (`passport.dfy`): the Google strategy's verify callback. It finds the user by Google id, else links the record with the profile's email, else creates a user. Also modelled: the session serialisers.
- **Identity resolution, routes/auth.js** (`auth.dfy`): the token login. The callback does a single `$or` lookup and links only a record without a Google id. Also modelled: `generateToken`, `/verify` and `/logout`.
- **User collection** (`users.dfy`): shared by both login flows. It is a class holding a `map` from ids to records, with `findOne` and `save` methods and a ghost log of every access.
- **Donation routes** (`donations.dfy`): create, claim (duplicate check and append), and the donor-only update of a claim's status.
- **Blog routes** (`blogs.dfy`): create, and the like toggle.
- **Product routes** (`products.dfy`, `nodepath.dfy`):
  - the multer file filter, including Node's `path.extname`;
  - the create handler: required fields, the `missing` map, the document it builds, validation, and clean-up of the uploaded file;
  - the list query;
  - the rewriting of stored image paths into URLs.
- **Schemas** (`schema.dfy`, `product_model.dfy`, `blog_model.dfy`, `donation_model.dfy`):
  - Mongoose's `required`, `maxlength`, `min`, `max`, `enum` and Number cast, as error lists whose emptiness is equivalent to a `Valid` predicate;
  - the `trim` setters and defaults applied by `new Model(...)`.
- **Server and admin gate** (`server.dfy`, `admin_auth.dfy`): the CORS origin rule, the error handler's status mapping, the handling of unmatched requests, and the admin gate.
- **JavaScript operations** (`jsstring.dfy`, `parse.dfy`): `trim`, `toLowerCase`, substring tests, `replace` and `parseInt`, as the code uses them.

Database faults are boolean parameters (`lookupFails`, `saveFails`). A signed
token is a value holding its claims, its issue and expiry times (seconds) and
the secret it was signed with.

Some of the behaviour below differs from what a token-based Google login
usually offers; the model follows the code as written:

- **Missing code.** A callback without `code` answers 400 with JSON; it does not redirect.
- **Tokens.**
  - There is one token, valid for seven days, with the claims `{id, email, name}`. There is no access/refresh token pair and no refresh endpoint.
  - Success redirects to `<frontend>/auth/success?token=…&userId=…`.
  - Every failure after the code check redirects to `<frontend>/auth/error?message=Authentication failed`.
- **No uniqueness in the store.** The store does not enforce unique Google ids or emails (models/User.js is not part of this model).
  - `UniqueIdentities` is a ghost invariant.
  - The passport callback preserves it unconditionally.
  - The `$or` callback preserves it only when the claims' Google id and email do not already belong to two different records (`SplitIdentity`). Otherwise the lookup may return the email record and link it to a Google id another record already holds.

## Model

| member | source | states |
|---|---|---|
| Users.UserStore.FindOne | config/passport.js:29 | `findOne`: logs the lookup; fails exactly when the database fails; a found record is stored and matches the filter; "not found" exactly when no record matches |
| Users.UserStore.Save | config/passport.js:43 | `save`: the record is stored under its id, or nothing changes on a failure; the write is logged |
| Users.UserStore.NewId | config/passport.js:49-55 | a new document gets an id no stored record has |
| Users.Matches | routes/auth.js:64-69 | a Google-id filter matches the records holding that Google id, an email filter those with that email, and the `$or` filter those matching either |
| Passport.NewGoogleUser | config/passport.js:49-55 | the created record takes Google id, display name, first email and first photo from the profile, with `authMethod` `google` |
| Passport.Link | config/passport.js:40-42 | linking overwrites `googleId` and `avatar` and nothing else |
| Passport.VerifyGoogleProfile | config/passport.js:24-65 | the Google-id match is returned unchanged with only that lookup done; otherwise the email match is linked, saved and returned; otherwise a new user is created; a failure of either lookup or of the save, and a missing email or photo, give `done(error, null)`; at most one record is added; identities stay unique |
| Passport.UpdatePreservesUnique | config/passport.js:37-57 | writing a record whose Google id and email no other record holds keeps identities unique |
| Passport.SerializeUser | config/passport.js:5-7 | the session keeps the user's id |
| Passport.DeserializeUser | config/passport.js:9-16 | error exactly on a database failure; a user exactly when the id is stored, and then the stored record itself |
| Passport.SessionRoundTrip | config/passport.js:5-16 | deserialising what `serializeUser` stored yields the stored record with that id |
| Passport.VerifyTwice | config/passport.js:29-34 | a second login with the same profile returns the same user, writes nothing and only looks up the Google id |
| AuthRoutes.FrontendUrl | routes/auth.js:92 | `FRONTEND_URL` when it is set and non-empty, else `http://localhost:3000` |
| AuthRoutes.GenerateToken | routes/auth.js:17-27 | the token carries exactly `{id, email, name}` of the user and expires seven days after issue |
| AuthRoutes.JwtAccepts | routes/auth.js:111 | a token is accepted only with a non-empty secret equal to the one it was signed with, and only before its expiry |
| AuthRoutes.NewUserFromClaims | routes/auth.js:73-79 | a new user takes Google id, email, name and picture from the claims, with `authMethod` `google` |
| AuthRoutes.LinkClaims | routes/auth.js:81-85 | linking sets `googleId` and `avatar` from the claims and nothing else |
| AuthRoutes.GoogleCallback | routes/auth.js:45-100 | without a code: 400 and no lookup; a failed code exchange makes no lookup and redirects to the error page; after a verified exchange, exactly one `$or` lookup; a record is created, linked only if it had no Google id, or left as it is; success redirects with a token for the resolved user; every other outcome redirects to the error page; a rejected lookup redirects there with nothing written, and a rejected save writes nothing and resolves at most an already linked record as stored |
| AuthRoutes.ResolutionKeepsUnique | routes/auth.js:67-86 | the callback keeps identities unique when the claims do not name two different records |
| AuthRoutes.ResolvedIsOnlyMatch | routes/auth.js:67-86 | after the callback the resolved record is the only `$or` match and holds a Google id |
| AuthRoutes.CallbackTwice | routes/auth.js:67-93 | a repeated callback with the same claims answers with the same user and changes no record |
| AuthRoutes.Verify | routes/auth.js:103-123 | 401 exactly when the header is missing or leaves no token after `Bearer `; 401 when the token does not verify or the lookup fails; 404 when the user is gone; the stored user without password exactly when a token is present, verifies, and names a stored user |
| AuthRoutes.StripBearer | routes/auth.js:105 | `Bearer <t>` yields `<t>` |
| AuthRoutes.IssuedTokenVerifies | routes/auth.js:103-118 | a token issued for a stored user verifies as that user before it expires and is rejected from its expiry on |
| AuthRoutes.Logout | routes/auth.js:126-129 | always 200 "Logged out successfully" |
| DonationRoutes.FindClaimBy | routes/donations.js:50-52 | the first claim by the user, or none exactly when no claim is by the user |
| DonationRoutes.FindClaimId | routes/donations.js:85 | the first claim with the id, or none exactly when no claim has it |
| DonationRoutes.NewDonation | routes/donations.js:25-30 | the donor is the requester; the body's three fields are copied |
| DonationRoutes.AsSchemaDocument | routes/donations.js:25-30 | the create route's fields as the donation schema sees them: no `donorName`, no `user` |
| DonationRoutes.SchemaRejectsRouteDocument | models/Donation.js:20-33 | the donation schema would reject every document the create route builds |
| DonationRoutes.AddClaim | routes/donations.js:58-61 | one claim appended at the end, everything else unchanged |
| DonationRoutes.AddClaimKeepsWellFormed | routes/donations.js:50-61 | a claim by a new claimant keeps claimants and claim ids distinct |
| DonationRoutes.ClaimedOnce | routes/donations.js:50-56 | after a claim is appended, the duplicate check finds it |
| DonationRoutes.SetClaimStatus | routes/donations.js:90-95 | only the addressed claim's status changes; the donation becomes `claimed` iff the status is `approved` |
| DonationRoutes.SetClaimStatusKeepsWellFormed | routes/donations.js:90-95 | a status update keeps claimants and claim ids distinct |
| DonationRoutes.DonationStore.Create | routes/donations.js:21-37 | 201 with a new donation whose donor is the requester, or 500 with nothing stored |
| DonationRoutes.DonationStore.ClaimDonation | routes/donations.js:40-68 | 500 when `findById` rejects; 404 for a missing donation; 400 for a repeat claimant; 500 when the save fails; otherwise one claim appended; nothing changes except on success |
| DonationRoutes.DonationStore.UpdateClaimStatus | routes/donations.js:71-102 | 500 when `findById` rejects; 404 for a missing donation; 401 for anyone but the donor; 404 for an unknown claim; otherwise the status update, or 500 when the save fails; nothing changes except on success |
| BlogRoutes.RemoveAll | routes/blogs.js:68-70 | no occurrence of the id remains; nothing new appears |
| BlogRoutes.RemoveAllCounts | routes/blogs.js:68-70 | every other id keeps its number of occurrences |
| BlogRoutes.RemoveAllKeepsOrder | routes/blogs.js:68-70 | the remaining ids keep their order |
| BlogRoutes.RemoveAllAbsent | routes/blogs.js:68-70 | removing an absent id changes nothing |
| BlogRoutes.RemoveAllAppended | routes/blogs.js:68-73 | removing the id from a list ending with it is removing it from the rest |
| BlogRoutes.Toggle | routes/blogs.js:64-74 | a liked id is removed entirely (RemoveAll); otherwise it is appended once |
| BlogRoutes.ToggleTwice | routes/blogs.js:64-74 | like then unlike restores the list exactly |
| BlogRoutes.ToggleKeepsOthers | routes/blogs.js:64-74 | other ids keep their number of occurrences |
| BlogRoutes.NewBlog | routes/blogs.js:38-46 | the document copies exactly title, content, plantType and cultivationTips; `author` is the requester's id; `ccc` and `user` are unset |
| BlogRoutes.NewBlogNeverValid | routes/blogs.js:40-48 | the blog schema rejects every document the create route builds, for the missing `ccc` and `user` |
| BlogRoutes.ToggleKeepsValidation | routes/blogs.js:64-76 | the toggle never changes the validation errors of a blog |
| BlogRoutes.BlogStore.Create | routes/blogs.js:36-53 | the create route answers 500 with the validation errors, which include `ccc` and `user` |
| BlogRoutes.BlogStore.Like | routes/blogs.js:56-81 | 500 when `findById` rejects; 404 for a missing blog; otherwise the toggled likes are saved, or nothing changes when the save fails |
| NodePath.StripTrailingSlashes | routes/products.js:33 | a prefix of the path without trailing slashes; only slashes are dropped |
| NodePath.BaseName | routes/products.js:33 | the last component: a suffix without slashes |
| NodePath.ExtName | routes/products.js:33 | empty, or a `.` followed by no other `.` and no `/`, at the end of the last component; empty exactly for no dot, `..`, or a dotfile |
| NodePath.ExtNameOfFileName | routes/products.js:33 | `stem.ext` has extension `.ext` |
| NodePath.ExtNameWithoutDot | routes/products.js:33 | a path without `.` has no extension |
| ProductRoutes.FileFilter | routes/products.js:31-40 | an accepted upload has an image mimetype and a lower-cased extension containing an image type, so an extension of at least four characters starting with `.`: names without an extension, dotfiles and two-letter extensions are rejected |
| ProductRoutes.ShortHasNoImageType | routes/products.js:31-40 | an empty extension, or a `.` with at most two more characters, contains no image type |
| ProductRoutes.DottedExtensionTypes | routes/products.js:33 | lower-cased, `.ext` holds an image type exactly when `ext` does |
| ProductRoutes.FilterAcceptsContainingExtension | routes/products.js:31-40 | any extension whose lower-cased form contains an image type passes with an image mimetype (the test is not anchored, and `PNG` passes like `png`) |
| ProductRoutes.FilterRejectsOtherExtension | routes/products.js:31-40 | an extension whose lower-cased form holds no image type is rejected whatever the mimetype |
| ProductRoutes.HasAllFields | routes/products.js:54 | every one of the five fields is present and non-empty |
| ProductRoutes.MissingOf | routes/products.js:54-64 | each flag marks a falsy field; some flag is set exactly when the body is rejected |
| ProductRoutes.ImagesOf | routes/products.js:68-81 | the uploaded path as the only image, or no image without a file |
| ProductRoutes.NewProduct | routes/products.js:75-83 | name, description and category trimmed; `parseInt` stock; the requester as user; the schema's defaults |
| ProductRoutes.DecimalStock | routes/products.js:80 | a stock written in decimal digits is stored as that number |
| ProductRoutes.MakeListQuery | routes/products.js:130-139 | always `status: active`; a name filter exactly when `search` is given; a category filter exactly when it is given and not `all` |
| ProductRoutes.ListedAreActive | routes/products.js:131-139 | only active products pass; without a category or with `all`, every active product passes |
| ProductRoutes.CollapseSlashes | routes/products.js:157 | never longer, never introduces a character |
| ProductRoutes.CollapseKeepsOtherChars | routes/products.js:157 | only slashes are removed; all other characters stay in order |
| ProductRoutes.CollapseWithoutDoubleSlash | routes/products.js:157 | a path without `//` is unchanged |
| ProductRoutes.CollapseExamples | routes/products.js:157 | `//` becomes `/`; `://` stays; `///` becomes `//` |
| ProductRoutes.NormalizePath | routes/products.js:153-157 | no backslash remains; only slashes are dropped |
| ProductRoutes.MapImages | routes/products.js:152-158 | null for a missing or empty image, else `base/normalised-path`, position by position |
| ProductRoutes.KeepTruthy | routes/products.js:159 | a string is kept exactly when some entry holds it and it is non-empty; never longer than the input |
| ProductRoutes.KeepTruthyAppend | routes/products.js:159 | filtering works entry by entry: the filter of a concatenation is the concatenation of the filters, so the order is kept |
| ProductRoutes.KeepTruthySingle | routes/products.js:159 | one entry is kept exactly when it is present and non-empty |
| ProductRoutes.UrlsOf | routes/products.js:158 | one URL per path, in order |
| ProductRoutes.ImagesView | routes/products.js:150-159 | one URL per present, non-empty image, in the images' order; never more URLs than images |
| ProductRoutes.BaseUrl | routes/products.js:146-148 | a non-empty origin without a trailing slash, `https` exactly in production |
| ProductRoutes.ImagesViewIsFilterThenMap | routes/products.js:150-159 | mapping then filtering equals dropping the empty images and mapping the rest, in order |
| ProductRoutes.View | routes/products.js:188-196 | the product with its image URLs |
| ProductRoutes.ListViews | routes/products.js:150-160 | one view per found product, in order |
| ProductRoutes.StoredPath | routes/products.js:102-104 | the uploaded file's path, if any |
| ProductRoutes.ProductStore.SaveNew | routes/products.js:87-124 | validation errors give 400 with the errors, a failed save 500, otherwise the valid document is stored; on an error the upload is removed |
| ProductRoutes.ProductStore.Create | routes/products.js:31-125 | a rejected upload stores nothing; missing fields give 400 with the map and leave the upload; otherwise the built document is validated and saved |
| ProductRoutes.ProductStore.GetById | routes/products.js:173-206 | 500 exactly when `findById` rejects; otherwise 404 exactly when the id is unknown, and else the product with its image URLs |
| JsString.TrimStart | models/Product.js:27 | the suffix left after leading whitespace, which starts with a non-whitespace character |
| JsString.TrimEnd | models/Product.js:27 | the prefix left before trailing whitespace, which ends with a non-whitespace character |
| JsString.Trim | routes/products.js:76-79 | no whitespace at either end; only whitespace is cut, from both ends |
| JsString.TrimOfTrimmed | models/Product.js:27 | trimming a trimmed string changes nothing |
| JsString.TrimIdempotent | models/Product.js:24-29 | the schema's `trim` after the route's `trim()` changes nothing |
| JsString.ToLower | routes/products.js:33 | every character lower-cased, the length kept |
| JsString.IndexOf | routes/auth.js:105 | the first occurrence, or none exactly when the pattern does not occur |
| JsString.ReplaceFirst | routes/auth.js:105 | the first occurrence replaced; no change without one |
| JsString.ReplaceAllChar | routes/products.js:155 | every backslash becomes `/`; every other character is kept |
| JsString.LastIndexOf | routes/products.js:33 | the last position of the character, or none exactly when it is absent |
| JsParse.NatToString | routes/products.js:80 | the decimal digits of a number |
| JsParse.DigitsValueOfNatToString | routes/products.js:80 | the digits of `n` read back as `n` |
| JsParse.DigitPrefixOfDigits | routes/products.js:80 | a string of digits is its own digit prefix |
| JsParse.ReadDigits | routes/products.js:80 | the unsigned part: decimal digits read as the value of their longest run, `0x` digits in base 16, NaN without a digit (and for `0x` alone) |
| JsParse.Negated | routes/products.js:80 | minus keeps NaN and keeps integers integral |
| JsParse.ParseSigned | routes/products.js:80 | `parseInt` after the whitespace, by the shape of the text after an optional sign: NaN for nothing there and for a non-digit; decimal digits read as the value of their longest run, negated after `-`; `0x` reads hexadecimal digits in base 16, signed the same way, and is NaN with none; always an integer or NaN |
| JsParse.ParseInt | routes/products.js:80 | an integer or NaN, and NaN for blank text |
| JsParse.TrimStartAfterWhitespace | routes/products.js:80 | skipping a run of whitespace leaves exactly the text after it |
| JsParse.ParseIntAfterWhitespace | routes/products.js:80 | `parseInt` of padded text is the signed reading of the text after the padding, whatever the whitespace |
| JsParse.ParseIntOfNatToString | routes/products.js:80 | `parseInt` of the decimal text of `n` is `n` |
| JsParse.ParseIntOfNegatedNatToString | routes/products.js:80 | `parseInt` of `-` followed by the decimal text of `n` is `-n` |
| Schema.CheckString | models/Product.js:24-34 | no error exactly when a required value is present and non-empty and no longer than the limit; at most one error |
| Schema.CheckRequired | models/Blog.js:14-17 | no error exactly when the value is a non-empty string |
| Schema.CheckEnum | models/Product.js:45-61 | no error exactly when a required value is present and any value is one of the listed ones |
| Schema.CheckNumber | models/Product.js:35-40 | no error exactly when the value is present if required, is a number, and lies within the bounds; at most one error |
| Schema.CheckRef | models/Product.js:68-72 | no error exactly when the reference is set |
| Schema.CheckEach | models/Blog.js:74-77 | no error exactly when every tag is within the limit |
| ProductModel.ReviewErrors | models/Product.js:3-21 | no error exactly for a review with user, comment and a rating from 1 to 5 |
| ProductModel.AllReviewErrors | models/Product.js:73 | no error exactly when every review is valid |
| ProductModel.Validate | models/Product.js:23-92 | no error exactly for a valid product: name, description, price in [0, 10000], listed category, stock at least 0, user, valid reviews, rating in [0, 5], status active or inactive |
| ProductModel.Construct | models/Product.js:24-92 | name trimmed; stock, rating and numReviews default to 0; status defaults to active; nothing else changes |
| ProductModel.DefaultsAreValid | models/Product.js:62-92 | the defaults pass their own validators |
| ProductModel.ConstructIdempotent | models/Product.js:24-29 | constructing twice is constructing once |
| BlogModel.CommentErrors | models/Blog.js:3-17 | no error exactly for a comment with user, text of at most 500 characters and author name |
| BlogModel.AllCommentErrors | models/Blog.js:64 | no error exactly when every comment is valid |
| BlogModel.Validate | models/Blog.js:22-77 | no error exactly for a valid blog: title and ccc of at most 200, plantType 100, content 5000, cultivationTips 2000, author 100, user, valid comments, status published or draft, tags of at most 50 |
| BlogModel.Construct | models/Blog.js:23-73 | title and ccc trimmed; status defaults to published; nothing else changes |
| BlogModel.ConstructIdempotent | models/Blog.js:23-34 | constructing twice is constructing once |
| DonationModel.Validate | models/Donation.js:3-65 | no error exactly for a valid donation: plantName 100, description 1000, location 200, donorName 100, user, status, condition and size from their lists, claim message and pickup instructions of at most 500 |
| DonationModel.Construct | models/Donation.js:4-61 | plantName trimmed; status, condition and size default to available, good and medium; nothing else changes |
| DonationModel.DefaultsAreValid | models/Donation.js:34-61 | the defaults are members of their enums |
| DonationModel.ConstructIdempotent | models/Donation.js:4-9 | constructing twice is constructing once |
| Server.CheckOrigin | server.js:25-33 | allowed exactly without an origin or from one of the two listed origins; otherwise the error 'Not allowed by CORS' |
| Server.HandleError | server.js:132-147 | 403 with `allowedOrigins` exactly for the CORS error; otherwise 500, with the message hidden in production |
| Server.RejectedOriginIs403 | server.js:25-141 | a rejected origin ends in a 403 naming it and listing the allowed origins |
| Server.RejectedUploadIs500 | server.js:143-146 | a rejected upload ends in a 500 naming the reason, except in production |
| Server.Unmatched | server.js:124-156 | an OPTIONS request gets the CORS preflight answer (the middleware mounted at lines 46-47); in production an unmatched GET or HEAD serves the frontend; any other unmatched request gets a 404 with its URL and method |
| AdminAuth.Gate | middleware/adminAuth.js:1-7 | the next handler runs exactly for a user whose role is `admin`; no user is rejected |
| AdminAuth.OutcomeStatus | middleware/adminAuth.js:2-6 | the gate writes no status exactly when the next handler runs, and 401 otherwise, never both |

## Left out

- Persistence is not modelled: Mongoose queries, `populate`, `sort`, indexes and ObjectId casting. Collections are maps from ids to documents. A rejected lookup (`findOne`, `findById`) or `save` is a boolean parameter of the operation that makes it, which then ends in that operation's error outcome (a 500, or the error redirect of the Google callback) and changes nothing. A malformed id, which Mongoose rejects with a cast error, is one such rejected lookup.
- The Google code exchange and id-token check are not modelled; the callback takes their outcome (`Exchange`) as input. JWT signing is modelled only as the claims, times and secret a token carries. `/verify` takes what the header text decodes to as input.
- The `/google` initiation route, the `GET /` and `GET /:id` routes of blogs and donations, and the health and root routes are not modelled. They only read data.
- The session middleware, passport wiring, static files, logging, server start-up and the process handlers are not modelled.
- The name search of `GET /api/products` is a MongoDB regular expression. It is carried in the query but not evaluated. `ListViews` takes the products the query returned.
- `price` comes from `parseFloat`, which is not modelled; `NewProduct` takes its outcome as a `JsNumber`.
- The 11000 duplicate-key branch of product creation is not modelled. The product schema declares no unique index, so it cannot arise.
- multer's file names (clock and random number) and the 5 MB limit are not modelled. The path multer wrote is an input.
- The donation routes use `donor` and `claims`, which models/Donation.js does not declare. They are modelled on their own document shape and not reconciled with the schema; `SchemaRejectsRouteDocument` records the mismatch. Under Mongoose's default strict mode those paths would not be stored at all.
- Body values are strings or absent; a non-string JSON value, on which `trim()` throws, is not modelled.
- Strings are sequences of Dafny characters, not UTF-16 code units, so `maxlength` counts characters.
- ParseInt (and ParseSigned, ReadDigits, Negated): numbers are exact reals (`JsNumber`), so the rounding of `parseInt`'s result to a double and `Infinity` for very long digit runs are not modelled; above 2^53 the modelled value is the exact integer, not the double JavaScript produces.
- ParseIntOfNatToString: states the exact round trip for every `n`; in JavaScript it holds only for `n` up to 2^53, where doubles stop representing every integer.
- ParseIntOfNegatedNatToString: the same bound applies; `-0` and `0` are not distinguished.
- DecimalStock: a stock of 2^53 or more is stored as the exact number, not as the double `parseInt` rounds it to.
- JsString.ToLower: maps ASCII letters only, not the full Unicode case mapping of `toLowerCase`.
- JsParse.NatToString: an id's text is its decimal digits, not the 24-digit hex of an ObjectId.
- The User schema (models/User.js) and the `auth` middleware (middleware/auth.js) are not part of this model. The requester's id is an input.
