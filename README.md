# backend-mern account and catalog handlers, modelled in Dafny

This project models the request handlers of a small Express/MongoDB
e-commerce backend:

- the **account service** (`api/controller/userControllers.js`): registration
  with an e-mailed six-digit one-time code (OTP), OTP verification, login and
  logout through a `jwt` cookie, the password-reset request, and the
  current-user lookup used behind the authentication middleware;
- the **product catalog** (`api/controller/productControllers.js`): create,
  list, get, partial update and delete, with size-list normalisation and the
  public id that images are uploaded under;
- the **server entry point** (`api/index.js`): the CORS origin rule and the
  listening-port default.

Each handler's guards are pure functions (`RegisterCheck`, `LoginCheck`,
`AllFieldsPresent`, `OriginVerdict`). The state that handlers change in place
is kept in classes:

- `Accounts.AccountService` holds the user collection, the outbox of e-mails
  sent and the last cookie set.
- `Catalog.ProductStore` holds the product collection.

Their methods state the whole new state in terms of the old one. They also
keep a store invariant:

- ids, e-mails and usernames are distinct;
- a verified account has no pending code;
- every stored code is six digits and every reset token is 64 lowercase hex
  characters;
- every stored e-mail matches the registration pattern.

Collaborators are inputs:

- bcrypt is the pair of functions `hash(password, salt)` and
  `compare(password, digest)`, fixed when the service is built; the salt is a
  parameter.
- A signed JWT is the value `Jwt(claims, expiresInDays)`.
- `Math.random()` is the parameter `draw` (`floor(Math.random() * 900000)`,
  so `draw < 900000`).
- `crypto.randomBytes(32)` is a 32-byte parameter and `Date.now()` the
  parameter `now`.
- `sendEmail` appends to the outbox.
- Cloudinary's upload is a function from a file's path and requested public
  id to the host's answer.
- `NODE_ENV === "production"` is the `secure` flag.

A document-store lookup (`findOne`, `findById`) is `Seqs.Find`: the first
record, in the order the model stores them, that satisfies the query.

Details of the code that the model keeps:

- The registration cookie lives 5 days (`maxAge` 432000000 ms); the token
  inside it is signed for 30 days.
- The login cookie and its token both last 30 days, and the login token
  carries no e-mail claim.
- The OTP needs no zero padding: the drawn range [100000, 999999] already
  gives six digits.
- The reply messages are the code's strings, e.g. "User registered. Check
  your email for OTP.".
- The code has no handler that completes a password reset, so none is
  modelled.

## Model

| member | source | states |
|---|---|---|
| Js.Truthy | api/controller/productControllers.js:8-16 | `!x` is true exactly for `undefined`, `null`, `false`, `0` and `""`; arrays and objects are truthy |
| Js.Split | api/controller/productControllers.js:26 | `split(sep)` on one character always yields at least one piece; the lemmas below give the piece count, the pieces and the round trip |
| Js.Trim | api/controller/productControllers.js:26 | `trim()` is `trimStart` then `trimEnd` over the ECMAScript white-space set; `Js.TrimShape` characterises the result |
| EmailPattern.IsEmail | api/controller/userControllers.js:31-32 | the direct reading of the e-mail regex: no white space, one `@` that is neither first nor last, and a dot after it with characters on both sides; `EmailPattern.EmailCheckIsPattern` proves it equal to the regex |
| Accounts.OtpString | api/controller/userControllers.js:47 | the code is the decimal string of `100000 + draw`; `Accounts.OtpStringShape` proves it is six digits |
| Catalog.PublicId | api/controller/productControllers.js:36 | a file is uploaded under `originalname.split(".")[0]` |
| Catalog.AllFieldsPresent | api/controller/productControllers.js:8-16 | creation demands all seven fields truthy |
| Catalog.NewProduct | api/controller/productControllers.js:49-58 | the saved product takes the request's fields, the uploaded images and the normalised sizes |
| Catalog.Patched | api/controller/productControllers.js:104-142 | a truthy field overwrites, `size` is replaced whenever it is given, the images whenever a file was uploaded, and nothing else changes |
| Seqs.Find | api/controller/userControllers.js:102 | `findOne` answers the first record satisfying the query, and None exactly when no record does |
| Js.Present | api/controller/userControllers.js:12 | an absent-or-string body field is truthy exactly when it is present and non-empty |
| Js.SplitPieceCount | api/controller/productControllers.js:26 | `split(",")` yields one more piece than the string has commas |
| Js.SplitPiecesLackSeparator | api/controller/productControllers.js:26 | no piece of `split(sep)` contains the separator |
| Js.SplitJoin | api/controller/productControllers.js:26 | joining the pieces of `split(sep)` with `sep` gives back the string |
| Js.SplitFirstPiece | api/controller/productControllers.js:36 | `split(sep)[0]` is the part before the first separator, or the whole string when there is none |
| Js.TrimShape | api/controller/productControllers.js:26 | `trim()` drops exactly a white-space prefix and suffix; the result neither starts nor ends with white space |
| Encoding.DecimalString | api/controller/userControllers.js:47 | `toString()` of a number is a non-empty digit string with no leading zero |
| Encoding.ParseDecimalString | api/controller/userControllers.js:47 | the decimal string reads back as the number |
| Encoding.DecimalLength | api/controller/userControllers.js:47 | a number in [10^(k-1), 10^k) renders as exactly k characters |
| Encoding.HexEncode | api/controller/userControllers.js:224 | `toString("hex")` gives two lowercase hex characters per byte |
| Encoding.HexRoundTrip | api/controller/userControllers.js:224 | hex decoding inverts the encoding, so the token determines the random bytes |
| EmailPattern.EmailCheckIsPattern | api/controller/userControllers.js:31-32 | the e-mail check accepts a string exactly when it is a@b.c with a, b, c non-empty runs without white space or `@` |
| EmailPattern.AcceptedHasOneAt | api/controller/userControllers.js:31 | an accepted address contains exactly one `@` |
| Accounts.OtpValue | api/controller/userControllers.js:47 | the one-time code lies in [100000, 999999] |
| Accounts.OtpStringShape | api/controller/userControllers.js:47 | the stored and e-mailed code is six digits, first not zero, and reads back as the drawn number |
| Accounts.ResetMessage | api/controller/userControllers.js:230-232 | the reset e-mail's text ends with the reset URL built from the token |
| Accounts.RegisterCheck | api/controller/userControllers.js:12-46 | registration passes exactly when all three fields are present, the password has at least 6 characters, the e-mail matches and no user shares the e-mail or username; each rejection is 400 with the message of the first guard that fails: missing fields, then a short password, then a malformed e-mail, then a taken e-mail or username |
| Accounts.LoginCheck | api/controller/userControllers.js:95-122 | a missing or empty field gives 400 "Email and password are required"; an unknown e-mail gives 404 "User not found"; login passes exactly when both fields are present, a user has that e-mail, the password matches and the account is verified; every other outcome is 401 |
| Accounts.GetMe | api/controller/userControllers.js:152-167 | 404 exactly when there is no request user, otherwise 200 with that user |
| Accounts.RegisterKeepsInvariant | api/controller/userControllers.js:38-55 | a registration that passes its guards keeps ids, e-mails and usernames distinct and the new record well formed |
| Accounts.ShortPasswordRejected | api/controller/userControllers.js:23-28 | a password shorter than 6 characters is always rejected |
| Accounts.DuplicateRejected | api/controller/userControllers.js:39-46 | an e-mail or username already stored is always rejected |
| Accounts.WrongPasswordReportedFirst | api/controller/userControllers.js:110-115 | a wrong password gets 401 "Invalid credentials" whether or not the account is verified |
| Accounts.UnverifiedRefused | api/controller/userControllers.js:117-122 | right credentials of an unverified account get 401 "User not verified" |
| Accounts.ResubmittedCode | api/controller/userControllers.js:178-183 | after a code is accepted, it is accepted again only if another record still holds it |
| Accounts.SharedCodeGoesToEarlier | api/controller/userControllers.js:178 | when two records share a code, the lookup picks the earlier one |
| Accounts.ExampleEmailValid | api/controller/userControllers.js:31-32 | "ana@x.com" passes the e-mail check |
| Accounts.SignUpWalkthrough | api/controller/userControllers.js:7-144 | on a fresh service: register gives 201, the e-mailed code 200, login 200, a wrong password 401 |
| Accounts.AccountService.Register | api/controller/userControllers.js:7-82 | a rejection changes nothing; success appends one unverified record with the hashed password and a code, sets the 5-day cookie with claims {id, username, email}, e-mails "Your OTP is " + code and replies 201 |
| Accounts.AccountService.Login | api/controller/userControllers.js:90-144 | only the cookie can change; on success it carries claims {id, username} and a 30-day max age |
| Accounts.AccountService.VerifyOtp | api/controller/userControllers.js:175-190 | the first record holding the code becomes verified with no code, all others unchanged, reply 200; otherwise 400 "Invalid OTP" and no change |
| Accounts.AccountService.Logout | api/controller/userControllers.js:192-204 | always 200 with an empty, zero-max-age `jwt` cookie; the store is outside its frame |
| Accounts.AccountService.ForgotPassword | api/controller/userControllers.js:212-239 | unknown e-mail: 404 and no change; otherwise only that record's token and expiry change, to hex(bytes) and now + 3600000, and one reset e-mail goes out |
| Catalog.Sizes | api/controller/productControllers.js:23-27 | an array is kept as is, a string gives one entry per piece, anything else gives no sizes |
| Catalog.SizesOfString | api/controller/productControllers.js:23-27 | a size string gives (commas + 1) entries, each the trimmed piece, none holding a comma |
| Catalog.PublicIdIsStem | api/controller/productControllers.js:36 | the public id is the longest dot-free prefix of the file name |
| Catalog.PublicIdExample | api/controller/productControllers.js:36 | "a.b.png" is uploaded under "a" |
| Catalog.ImagesFor | api/controller/productControllers.js:30-47 | one image entry per uploaded file, in file order, each from the upload under the file's public id |
| Catalog.PatchIdempotent | api/controller/productControllers.js:104-143 | applying the same update twice equals applying it once |
| Catalog.EmptyPatchKeeps | api/controller/productControllers.js:104-120 | an update with no truthy field, no size and no file changes nothing |
| Catalog.Without | api/controller/productControllers.js:163 | no product with the deleted id remains |
| Catalog.RemoveFoundIsWithout | api/controller/productControllers.js:157-163 | with distinct ids, deleting the found product removes exactly the products with that id and keeps the rest in order |
| Catalog.ProductStore.Create | api/controller/productControllers.js:4-64 | a falsy field (0 included) gives 400 and no change; otherwise exactly one product with the request values, normalised sizes and uploaded images is appended, reply 201 |
| Catalog.ProductStore.GetAll | api/controller/productControllers.js:70-73 | replies 200 with the whole collection |
| Catalog.ProductStore.GetById | api/controller/productControllers.js:79-87 | 404 exactly when no product has the id, otherwise 200 with that product |
| Catalog.ProductStore.Update | api/controller/productControllers.js:93-149 | unknown id: 404 and no change; otherwise only that product changes: truthy fields overwrite, size when given, images when a file was uploaded |
| Catalog.ProductStore.Delete | api/controller/productControllers.js:155-166 | unknown id: 404 and no change; otherwise exactly that product is removed, reply 200 |
| Server.OriginVerdict | api/index.js:19-28 | the origin callback either allows or fails with "Not allowed by CORS" |
| Server.AllowedExactly | api/index.js:19-23 | an origin is allowed exactly when absent, empty, or one of the two listed front-end origins |
| Server.NearMissesRefused | api/index.js:23-26 | matching is exact: "http://localhost:5173/" and another port are refused |
| Server.ListenPort | api/index.js:35 | the port is PORT when set and non-empty, else 5000 |

## Left out

- The 500 catch-all paths. They fire only when a collaborator throws (store, hasher, mailer, uploader, signer). `verifyOtp` has no such path at all.
- A collaborator failure after a partial write. Registration would keep the user and the cookie when the e-mail fails; this is not modelled.
- The unreachable "Invalid user data" branch of registration, since `User.create` either returns a record or throws.
- The schema default `isVerified: false` lives in the user model, which is not part of this model. The model takes it as given in `PendingUser`.
- Mongo query semantics for an absent field. `VerifyOtp` takes the code, and `ForgotPassword` the e-mail, as a present string.
- `Accounts.AccountService.Register`: computes the password hash after the guards, not before the length check. Hashing has no visible effect, so the outcome is the same.
- `Accounts.RegisterCheck`: measures `password.length` in Unicode scalar values, not UTF-16 code units. A password with characters outside the Basic Multilingual Plane can count shorter here than in JavaScript.
- Body fields of other JSON types. Account fields are modelled as absent or a string. A non-string password, for instance, would have no `length` in JavaScript.
- Product `size` entries and scalar fields are kept as the request values. The unseen product schema's casting is not modelled.
- bcrypt salting and hashing internals, and JWT signing and secret handling. They are abstract inputs.
- Token verification in the authentication middleware. `GetMe` receives the request user the middleware attached, which is the only route that middleware guards.
- Cookie expiry on the client, and the fact that a logged-out token stays valid until it expires. Neither is observable in the handlers.
- `Catalog.ProductStore.Delete`: takes `product.remove()` to delete the document. Mongoose 7 and later have no such document method. The library version is not part of this model.
- Malformed product ids. `findById` with a string that is not an ObjectId throws a cast error, which is a 500 path. Ids are modelled as numbers.
- Numbers are exact reals: NaN and floating-point rounding are not modelled.
- The image host's internals, the Multer file handling and the folder/overwrite options of an upload.
- Express app setup, body parsers, cookie parsing, `connectDB`, `app.listen` and the route table (api/route/userRoute.js). These are wiring only.
- The order of a `findOne` lookup. MongoDB does not guarantee an order without a sort; the model takes it to be the order the records were stored in. This matters only for `verifyOtp`, because codes need not be unique (`Accounts.SharedCodeGoesToEarlier`).
- Concurrency: each handler runs atomically here. The check-then-act races between concurrent requests are not modelled.
