# Company account verification workflow, in Dafny

This project models the company-account backend of TaskApp: a company signs up, gets
a verification link by email, redeems the token in that link, and may then log in and
receive a session token. It covers four parts:

- the four handlers of `backend/controllers/companyController.js`: `signupCompany`,
  `verifyEmail`, `login` and `resendMail`;
- the company document of `backend/models/companyModel.js`;
- the Yup `validationSchema` of `frontend/src/Components/Company/CompanySignup.js`.

Each account is a small state machine: `Unverified(token, expiry)` goes to `Verified`,
and there is no way back.

Modules:

- `Wrappers` (`wrappers.dfy`): the `Option` type.
- `Hex` (`hex.dfy`): `crypto.randomBytes(32).toString('hex')` as `Encode` over 32 bytes.
  `Decode` is proved to be its exact inverse, so distinct random bytes give distinct tokens.
- `CompanyModel` (`company_model.dfy`): the `Company` record.
  - `SchemaValid` states the schema's store rules: required String paths are non-empty
    and `email` is unique.
  - `Insert` is `save()` of a new document.
  - `FindOne` is `findOne(filter)`: the first matching document in insertion order.
- `Workflow` (`workflow.dfy`): each handler as a pure function. Its input is the old
  collection. Its result is the reply (status, message, optional session, optional
  `emailVerified`), the new collection and the mail handed to the mailer.
  - Foreign inputs are parameters: the clock `now` in milliseconds, the 32 random bytes,
    an abstract `Hasher` (`hash`/`compare`), the frontend URL and whether the mail was
    delivered.
  - `StoreValid` adds the workflow's invariants to the schema's: token and expiry are set
    together, and a verified account has neither.
- `CompanyController` (`company_controller.dfy`): class `CompanyStore`, whose field
  `companies: seq<Company>` is the collection.
  - Each handler is a method. It looks a document up, assigns its fields one at a time and
    saves it back.
  - Every method keeps `Valid()`. Each method's reply, new collection and mail equal those
    of the matching `Workflow` function applied to `old(companies)`.
- `QueryInjection` (`query_injection.dfy`): `verifyEmail` on the query value as Express parses it (a string, an array or an operator object), and the string-only handler that the rest of the model describes.
- `SignupValidation` (`signup_validation.dfy`): the client-side signup rules as
  predicates. The login form reuses the same password rule (`LoginFormValid`).
- `WorkflowProperties` (`workflow_properties.dfy`): properties that span several requests:
  - a token redeems only once;
  - a reissued token revokes the old one;
  - a fresh token works for exactly 24 hours;
  - an unverified login never looks at the password;
  - the signup pre-check is the only thing that keeps company IDs unique;
  - the signup → verify → login scenario works end to end.

What the code does that a quick reading might miss:

- A failed mail send still answers 500 "Server error. Please try again later." even
  though the new account or new token is already saved. Nothing is rolled back.
- A login on an unverified account replaces the token before it tries the send. So if
  that send fails, the token mailed earlier no longer works (`LoginRevokesOldToken`
  holds for `delivered == false` too).
- The schema puts a unique index on `email` only. Uniqueness of `companyId` comes only
  from the signup pre-check (`CompanyIdNotUnique`, `SignupKeepsIdsUnique`).
- After the pre-check, `save()` can still reject a new document whose required field is
  empty. That answers 500 and stores nothing.

## Model

| member | source | states |
|---|---|---|
| `Hex.Encode` | backend/controllers/companyController.js:26 | a token built from n random bytes has 2n characters, all lower-case hexadecimal |
| `Hex.DecodeEncode` | backend/controllers/companyController.js:26 | decoding the hex encoding of any bytes gives those bytes back |
| `Hex.EncodeDecode` | backend/controllers/companyController.js:26 | a string that decodes is the encoding of what it decodes to |
| `Hex.EncodeInjective` | backend/controllers/companyController.js:215 | different random bytes never give the same token |
| `CompanyModel.NewCompany` | backend/models/companyModel.js:15 | a document created without `emailVerified` is unverified (schema default false), with the given token fields |
| `CompanyModel.Insert` | backend/models/companyModel.js:4-16 | saving a new document succeeds iff all seven required fields are non-empty and its email is not already stored; success appends exactly that document; a valid collection stays valid |
| `CompanyModel.CompanyIdNotUnique` | backend/models/companyModel.js:5 | a schema-valid collection can hold two documents with the same companyId |
| `CompanyModel.FindOne` | backend/controllers/companyController.js:92-95 | returns the first document matching the filter, or none exactly when no document matches |
| `CompanyModel.FindByEmailIsUnique` | backend/models/companyModel.js:8 | with unique emails, a lookup by an account's email finds that account |
| `SignupValidation.MatchDigitsToEndMeans` | frontend/src/Components/Company/CompanySignup.js:27 | the regex fragment `\d{n}$` matches exactly the strings of n decimal digits |
| `SignupValidation.PhoneValidMeans` | frontend/src/Components/Company/CompanySignup.js:26-28 | a phone number is valid iff it is exactly 10 decimal digits |
| `SignupValidation.PasswordValidIsPattern` | frontend/src/Components/Company/CompanySignup.js:30-36 | `min(8)` and `required` add nothing to the pattern: a password is valid iff it is at least 8 characters, all from `A-Za-z0-9@$!%*?&`, with a letter, a digit and a special character |
| `SignupValidation.PasswordExamples` | frontend/src/Components/Company/CompanySignup.js:32-35 | "Abcdef1!" passes; a password without a special character, one shorter than 8 or one with `#` fails |
| `SignupValidation.LogoRequiredIsRedundant` | frontend/src/Components/Company/CompanySignup.js:38-49 | `.required()` adds nothing: the logo is valid iff it passes the size and type tests, and both tests already fail on a missing logo |
| `SignupValidation.LogoExamples` | frontend/src/Components/Company/CompanySignup.js:40-49 | a 1048576-byte PNG and an empty JPEG pass; 1048577 bytes, `image/gif`, `image/jpg` and a missing logo fail |
| `SignupValidation.LoginFormValidMeans` | frontend/src/Components/Company/CompanyLogin.js:18-29 | the login form accepts exactly a non-empty email with a password of the signup pattern; "Abcdef1!" passes and "Abcdefgh1" fails |
| `Workflow.LinkToken` | frontend/src/Components/Company/VerifyEmail.js:13-14 | a token read from a link is the one the link was built from |
| `Workflow.LinkTokenRoundTrip` | backend/controllers/companyController.js:55 | the verification link `{frontendUrl}/verify-email?token={token}` gives back its token |
| `Workflow.Redeem` | backend/controllers/companyController.js:108-113 | only account `i` changes, only in its verification state: it becomes verified with token and expiry cleared |
| `Workflow.Reissue` | backend/controllers/companyController.js:138-145 | only the account's token and expiry change: a fresh 64-hex token and now + 24 h; the mail carries the new link; 500 if the send fails |
| `Workflow.Signup` | backend/controllers/companyController.js:11-75 | a companyId or email clash gives 400 "Company ID or email already exists." with nothing stored; a schema rejection gives 500 with nothing stored; otherwise exactly one unverified account is appended with the request's profile, `hash(password)`, a 64-hex token expiring at now + 24 h, the link is mailed, and the reply is 201, or 500 if the send failed with the account kept; the store invariant is preserved |
| `Workflow.VerifyEmail` | backend/controllers/companyController.js:79-122 | a missing token gives 400 "No token provided."; otherwise 200 iff some account holds the token with expiry later than now, and then the first such account becomes verified with token and expiry cleared and nothing else changes; any failure gives 400 "Invalid or expired token." and changes nothing |
| `Workflow.SessionFor` | backend/controllers/companyController.js:179-183 | session claims are the account's companyId and email, issued at now in whole seconds, expiring one hour later |
| `Workflow.Login` | backend/controllers/companyController.js:125-194 | an unknown email gives 404; an unverified account gets a new token and expiry and 200 with `emailVerified: false` (500 if the send fails), whatever the password; a verified account gets 200 with its session and `emailVerified: true` iff the password matches its hash, else 400 "Invalid credentials.", with nothing written |
| `Workflow.ResendMail` | backend/controllers/companyController.js:199-251 | an unknown email gives 404; a verified account gives 400 "Email is already verified." with nothing changed; otherwise a new token and expiry (now + 24 h) replace the old pair and the reply is 200 (500 if the send fails) |
| `CompanyController.CompanyStore.SignupCompany` | backend/controllers/companyController.js:11-75 | keeps the store invariant; the reply, the new collection and the mail are those of `Workflow.Signup` on the old collection |
| `CompanyController.CompanyStore.VerifyEmailToken` | backend/controllers/companyController.js:79-122 | keeps the store invariant; the reply and the new collection are those of `Workflow.VerifyEmail`, and no mail is sent |
| `CompanyController.CompanyStore.ReissueToken` | backend/controllers/companyController.js:138-145 | keeps the store invariant; the new collection and the mail are those of `Workflow.Reissue`: account `i` gets a fresh token and now + 24 h, and nothing else changes |
| `CompanyController.CompanyStore.LoginCompany` | backend/controllers/companyController.js:125-194 | keeps the store invariant; the reply, new collection and mail are those of `Workflow.Login` |
| `CompanyController.CompanyStore.ResendVerification` | backend/controllers/companyController.js:199-251 | keeps the store invariant; the reply, new collection and mail are those of `Workflow.ResendMail` |
| `WorkflowProperties.RedeemIsSingleUse` | backend/controllers/companyController.js:108-110 | once a token has redeemed, redeeming it again at any time fails with 400 "Invalid or expired token." and changes nothing (when no other account holds it) |
| `WorkflowProperties.ResendRevokesOldToken` | backend/controllers/companyController.js:219-220 | after a resend, the account's previous token no longer redeems |
| `WorkflowProperties.LoginRevokesOldToken` | backend/controllers/companyController.js:142-143 | after a login on an unverified account, its previous token no longer redeems, even if the send failed |
| `WorkflowProperties.UnverifiedLoginIgnoresPassword` | backend/controllers/companyController.js:136-170 | for an unverified account the login outcome does not depend on the password or on the password checker, and is never 400 |
| `WorkflowProperties.VerifiedLoginAcceptsOwnPassword` | backend/controllers/companyController.js:172-189 | a verified account logs in with the password whose hash it stores, and gets claims {companyId, email} with expiry issue time + 3600 s |
| `WorkflowProperties.FreshTokenLifetime` | backend/controllers/companyController.js:26-44 | the token issued at signup redeems iff the redemption time is before now + 24 h, and it verifies the new account |
| `WorkflowProperties.SignupKeepsIdsUnique` | backend/controllers/companyController.js:16-19 | the signup pre-check keeps company IDs unique across the store |
| `WorkflowProperties.ChangedOnlyKeepsIdsUnique` | backend/controllers/companyController.js:108-110 | a handler that changes only verification state keeps company IDs unique |
| `WorkflowProperties.SecondSignupConflicts` | backend/controllers/companyController.js:16-19 | a second signup with the companyId or email of a just-created account is refused with 400 and changes nothing |
| `WorkflowProperties.ClientValidFormIsStorable` | frontend/src/Components/Company/CompanySignup.js:21-50 | a form that passes the client schema always passes the server schema's required-field check |
| `QueryInjection.VerifyEmailAsWritten` | backend/controllers/companyController.js:82-116 | on a string query value it is `Workflow.VerifyEmail`; on any value other than `""` it answers 200 iff some account's live token satisfies the value as a Mongoose filter (equality, `$in` for an array, `$ne`) |
| `QueryInjection.NotEqualRedeemsUnknownToken` | backend/controllers/companyController.js:85-95 | `?token[$ne]=x` redeems any account whose live token is not `x`, without knowing that token |
| `QueryInjection.NotEqualExample` | backend/controllers/companyController.js:85-95 | a store with one pending account whose token is "ab": `?token[$ne]=` verifies it |
| `QueryInjection.VerifyEmailStringOnly` | backend/controllers/companyController.js:82-101 | a non-string token is refused with 400 and changes nothing; a string token behaves as `Workflow.VerifyEmail`; a 200 implies the caller supplied a live token some account holds |
| `WorkflowProperties.SignupVerifyLoginScenario` | backend/controllers/companyController.js:11-194 | signup on an empty store, redemption of the mailed token, then login: the right password gives a session and a rejected one gives 400 "Invalid credentials." |

## Left out

- Mail delivery (`nodemailer.createTransport`, `sendMail` and the HTML body): modelled as the `Mail(to, link)` handed over and a boolean `delivered` outcome.
- `bcrypt.hash`/`bcrypt.compare`: modelled as an abstract `Hasher` that is assumed `Sound` (a password matches its own hash; a hash is non-empty). The salt, the cost factor and the fact that each call gives a different hash are not modelled.
- `crypto.randomBytes`: the 32 bytes are a parameter. The code never checks tokens for collisions, so the single-use and revocation lemmas assume no other account holds the token. The revocation lemmas (`ResendRevokesOldToken`, `LoginRevokesOldToken`) also assume the fresh token differs from the account's own old token.
- `jwt.sign`: the session token is its claims record {companyId, email, iat, exp}. The JWT secret, signature and encoding are not modelled.
- `Date` and `setHours(getHours() + 24)`: time is an integer `now` in milliseconds, and "+24 hours" is exactly 86 400 000 ms. Local-time and DST effects are not modelled.
- MongoDB connection (backend/config/db.js), asynchronous interleaving and races between a read and its `save()`: each handler runs as one atomic step. `findOne` returns the first match in insertion order.
- Absent versus empty request fields: an absent body field or query parameter is modelled as "". Exceptions other than a rejected insert and a failed send go to the generic 500 catch-all and are not modelled. An example is `bcrypt.hash` throwing on an undefined password.
- Non-string request values: the handlers take `token`, `email` and `password` as strings. In the code a non-string value is not an error. An array or an operator object such as `{"$ne": ""}` passes the `!token` test or the email lookup and widens the `findOne` filter. So "200 iff some account holds the query token" (`Workflow.VerifyEmail`) is proved for string tokens only. For `token` this is the finding below, modelled by `QueryInjection`. For `email` in login and resend (backend/controllers/companyController.js:127-130, 201-204) it is not modelled: `{"email": {"$ne": ""}}` selects the first account and, when that account is unverified, replaces its token.
- Logging (`console.log`/`console.error`).
- Express wiring (backend/server.js, backend/routes/companyRoute.js) and the multer upload middleware (backend/middleware/upload.js). The stored logo path is an opaque `Option<string>`. On an uploaded file, the middleware's type and size filter is the same rule as `LogoSizeOk && LogoTypeOk`. Unlike the form, the server accepts a signup with no file: `upload.single` lets it through (backend/routes/companyRoute.js:7) and the handler stores `companyLogo: null` (backend/controllers/companyController.js:21), which is `logo == None` in `Workflow.Signup`.
- React UI: rendering, hooks, navigation, the `onSubmit`/FormData plumbing (`RequestOf` only maps form fields to the request), and which of several Yup error messages a field shows.
- Yup's `.email()` format check.

## Findings

| source | as written | input that shows it | evidently intended | confidence | as-written member | corrected member |
|---|---|---|---|---|---|---|
| backend/controllers/companyController.js:82-95 | the `token` query value goes into the `findOne` filter unchecked; an operator object or an array is truthy and is read as a Mongoose query operator | `GET /verify-email?token[$ne]=x` while some account holds an unexpired token other than `x` | only the holder of a live token can verify an account; a non-string token is refused | medium, not executed (depends on Express's extended query parser and Mongoose without `sanitizeFilter`) | `QueryInjection.NotEqualRedeemsUnknownToken` | `QueryInjection.VerifyEmailStringOnly` |
