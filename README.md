# Authify account state machine, in Dafny

This project models the authentication controller of Authify
(`backend/controllers/auth.controller.js`): seven request handlers —
`signup`, `verifyEmail`, `login`, `logout`, `forgotPassword`,
`resetPassword` and `checkAuth` — over a document store of user accounts.

- `wrappers.dfy` (`Wrappers`): the `Option` type that stands for document fields which may be absent.
- `tokens.dfy` (`Tokens`): the token generator.
  - Six-digit verification codes: `Math.floor(100000 + Math.random() * 900000).toString()`.
  - Hex reset tokens: `randomBytes(20).toString("hex")`.
  - The two expiry windows (24 h and 1 h, in milliseconds).
  - The reset link `${CLIENT_URI}/reset-password/${token}`.
- `accounts.dfy` (`Accounts`): the account document and its password-free view, and the store (`map<Id, Account>`).
  - The store invariants: emails unique; each token pair both present or both absent; stored tokens in their generated format.
  - The two token filters of `findOne` (match and expiry strictly after `now`).
  - The store after each successful transition, as a function.
  - The laws those transitions obey: invariant preservation, which transition writes which field, one-time use and strict expiry.
- `auth_controller.dfy` (`AuthController`): the class `AuthService`.
  - It holds the store in the field `accounts`, which its handler methods update.
  - Each handler loads one document, assigns its fields one at a time, and saves it back.
  - Each returns a `Response` (success flag, optional message, optional account view).
  - It keeps a ghost `log` of saves, session cookies and emails. The invariant `SavedBeforeNotified` says every email about an account comes after that account was saved.
- `scenarios.dfy` (`Scenarios`): client scenarios, verified against the handler contracts alone.
  - Signup, then verification with a wrong code, the right code, and the right code again.
  - A reset token used after two hours.
  - A reset token used within the hour, then a login with the new password, then a reuse of the token.

Inputs that come from outside the controller are parameters of the handlers:
- the current time `now` (milliseconds);
- the new document's identifier `id` (required to be unused);
- the `Math.random()` draw `r` (in `[0, 1)`, modelled as a real);
- the 20 bytes of `randomBytes(20)`;
- the hasher's salt.

bcrypt is a `Hasher` value with two uninterpreted functions, `hash(password, salt, cost)` and `compare(password, hash)`. The project assumes nothing of it except where a lemma says so: `Sound()` means every hash verifies against its own password.

Behaviours of the code a reader might not expect, which the model keeps:
- The account view strips only the password (`..._doc, password: undefined` and `select("-password")`). So the view still carries the token fields. In particular, the signup response contains the pending verification code (`Accounts.SignupViewCarriesCode`).
- `login` sets the session cookie before it saves `lastLogin` (lines 111-114). So "persist before notify" is stated for emails, and the login log is `[SessionIssued, Saved]`.
- The missing-field message is the code's literal string, typo included: "All fields are requireed".
- The `checkAuth` success response has no message field, so `Response.message` is optional.
- `resetPassword` accepts an empty new password. Only `signup` checks for empty fields.
- After a successful reset, `resetPassword` calls the same reset-link mailer as `forgotPassword` (line 209 against line 164), but with no link. The log records it as `ResetEmailSent` with an absent link.

## Model

| member | source | states |
|---|---|---|
| `AuthController.AuthService.Signup` | backend/controllers/auth.controller.js:11-55 | Succeeds iff email, password and name are all non-empty and no account has that email. A missing field gives "All fields are requireed" and an existing email gives "User already exists"; both leave the store and log unchanged. On success exactly one account is added: it holds `hash(password, salt, 12)` rather than the password, the code `VerificationCode(r)` and the expiry `now + 86400000`. It is returned as a password-free view. The log gains save, then session, then verification email. The store invariants are kept. |
| `AuthController.AuthService.VerifyEmail` | backend/controllers/auth.controller.js:57-91 | Succeeds iff some account holds the code with expiry strictly after `now`. Otherwise it returns "Invalid or expired verification code" and changes nothing. On success the chosen matching account becomes verified, with both verification fields cleared; nothing else changes. The welcome email is logged after the save. |
| `AuthController.AuthService.Login` | backend/controllers/auth.controller.js:93-131 | Succeeds iff the account with that email exists and `compare(password, hash)` holds. An unknown email and a wrong password both give the identical "Invalid credentials" response and change nothing. On success only `lastLogin` of that account changes, to `now`, and the view has no password. |
| `AuthController.AuthService.Logout` | backend/controllers/auth.controller.js:133-139 | Always succeeds with "Logged out successfully", leaves the store unchanged and logs only the cookie clear. |
| `AuthController.AuthService.ForgotPassword` | backend/controllers/auth.controller.js:141-180 | Succeeds iff some account has the email; otherwise "User not found" and nothing changes. On success that account's reset pair becomes the 40-hex-digit token of the 20 bytes and `now + 3600000`, replacing any earlier pair. The emailed link is `ResetLink(CLIENT_URI, token)`, logged after the save. |
| `AuthController.AuthService.ResetPassword` | backend/controllers/auth.controller.js:182-222 | Succeeds iff some account holds the token with expiry strictly after `now`. Otherwise it returns "Invalid or expired reset token" and changes nothing. On success the hash of one matching account becomes `hash(password, salt, 10)` and both reset fields are cleared; nothing else changes. After the save the reset-link mailer is logged, called with no link. |
| `AuthController.AuthService.CheckAuth` | backend/controllers/auth.controller.js:224-245 | Succeeds iff the session's id is in the store. On success it returns that account without its password; otherwise "User not found". It changes nothing. |
| `AuthController.SignupEnablesLogin` | backend/controllers/auth.controller.js:25-31 | With a sound hasher, the account signup creates carries the given email and a hash that login accepts for the signup password. |
| `AuthController.ResetEnablesLogin` | backend/controllers/auth.controller.js:199-201 | With a sound hasher, after a reset the account keeps its email and login accepts the new password. |
| `Tokens.CodeNumber` | backend/controllers/auth.controller.js:26-28 | `floor(100000 + r * 900000)` lies in 100000..999999 for every draw in `[0, 1)`. |
| `Tokens.VerificationCode` | backend/controllers/auth.controller.js:26-28 | The code is six decimal digits with no leading zero, and it denotes exactly `CodeNumber(r)`. |
| `Tokens.DecimalString` | backend/controllers/auth.controller.js:28 | The decimal spelling is non-empty, all digits, and starts with '0' only for zero. |
| `Tokens.ParseDecimalString` | backend/controllers/auth.controller.js:28 | Parsing the decimal spelling of `n` gives back `n`. |
| `Tokens.DecimalLength` | backend/controllers/auth.controller.js:26-28 | A number with `k` digits spells as exactly `k` characters. |
| `Tokens.HexEncode` | backend/controllers/auth.controller.js:154 | The hex spelling has two lower-case hex digits per byte. |
| `Tokens.HexRoundTrip` | backend/controllers/auth.controller.js:154 | Decoding the hex spelling gives back the bytes, so the token determines the random bytes. |
| `Tokens.ResetToken` | backend/controllers/auth.controller.js:154 | The reset token of 20 bytes is 40 lower-case hex digits and decodes to those bytes. |
| `Tokens.ResetLink` | backend/controllers/auth.controller.js:164-167 | The link is the client address (or "undefined" when unset), then "/reset-password/", then the token. The reset page can read the token back out of it. |
| `Tokens.ConfigText` | backend/controllers/auth.controller.js:166 | Definition: how the template literal renders `CLIENT_URI`, "undefined" when unset. Its consequences are stated by `ResetLink`. |
| `Accounts.VerificationHits` | backend/controllers/auth.controller.js:60-63 | Definition: the set of accounts the verification filter selects. Its law is `VerificationHitsShrink`. |
| `Accounts.ResetHits` | backend/controllers/auth.controller.js:186-190 | Definition: the set of accounts the reset filter selects. Its law is `ResetHitsShrink`. |
| `Accounts.VerificationHitsShrink` | backend/controllers/auth.controller.js:60-63 | Because expiry is strict, the accounts a code selects at a later time are a subset of those it selects now. A code that fails once fails at every later time. |
| `Accounts.ResetHitsShrink` | backend/controllers/auth.controller.js:186-190 | The same for reset tokens: a token that fails once fails at every later time. |
| `Accounts.Redact` | backend/controllers/auth.controller.js:44-47 | Definition: the account document with the password removed, as spread in the responses at lines 44-47, 82-85 and 119-122 and selected at line 226. Its law is `ViewIgnoresPassword`. |
| `AuthController.Present` | backend/controllers/auth.controller.js:14 | Definition: the truthiness test of a request field, false for a missing field and for the empty string. Used by `Signup`'s contract. |
| `Accounts.HasEmail` | backend/controllers/auth.controller.js:18 | Definition: `findOne({ email })` finds an account. Used by the `Signup` and `ForgotPassword` contracts. |
| `Accounts.VerificationMatches` | backend/controllers/auth.controller.js:60-63 | Definition: an account passes the verification filter when it holds the code and its expiry is present and strictly after `now`. |
| `Accounts.ResetMatches` | backend/controllers/auth.controller.js:186-190 | Definition: an account passes the reset filter when it holds the token and its expiry is present and strictly after `now`. |
| `Accounts.AfterSignup` | backend/controllers/auth.controller.js:29-35 | Definition: the store after a successful signup. Its laws are `SignupKeepsValid`, `SignupCodeWindow` and `SignupViewCarriesCode`. |
| `Accounts.AfterVerify` | backend/controllers/auth.controller.js:72-75 | Definition: the store after a successful verification. Its laws are `VerifyKeepsValid`, `VerifiedFlagWrites` and `VerifyConsumesCode`. |
| `Accounts.AfterLogin` | backend/controllers/auth.controller.js:113-114 | Definition: the store after a successful login. Its laws are `LoginKeepsValid` and `LastLoginWrites`. |
| `Accounts.AfterForgot` | backend/controllers/auth.controller.js:158-161 | Definition: the store after a successful forgot-password request. Its laws are `ForgotKeepsValid` and `ForgotSupersedes`. |
| `Accounts.AfterReset` | backend/controllers/auth.controller.js:201-207 | Definition: the store after a successful reset. Its laws are `ResetKeepsValid`, `ResetKeepsVerification`, `ResetConsumesToken` and `ResetEnablesLogin`. |
| `Accounts.ViewIgnoresPassword` | backend/controllers/auth.controller.js:44-47 | The returned view is the same whatever the password hash, so no response reveals it. |
| `Accounts.SignupViewCarriesCode` | backend/controllers/auth.controller.js:41-47 | The view signup returns is unverified and carries the pending verification code. |
| `Accounts.SignupKeepsValid` | backend/controllers/auth.controller.js:18-37 | Signup with an unused email adds exactly one account and changes no other. It keeps emails unique and token pairs consistent and well formed. |
| `Accounts.VerifyKeepsValid` | backend/controllers/auth.controller.js:72-75 | Verifying keeps the store invariants. |
| `Accounts.LoginKeepsValid` | backend/controllers/auth.controller.js:113-114 | Recording a login keeps the store invariants. |
| `Accounts.ForgotKeepsValid` | backend/controllers/auth.controller.js:154-161 | Setting a well-formed reset pair keeps the store invariants. |
| `Accounts.ResetKeepsValid` | backend/controllers/auth.controller.js:200-207 | Resetting the password keeps the store invariants. |
| `Accounts.VerifiedFlagWrites` | backend/controllers/auth.controller.js:72 | Only verification writes `isVerified`, and it writes true, to the verified account alone. Login, forgot-password and reset keep every account's flag. |
| `Accounts.LastLoginWrites` | backend/controllers/auth.controller.js:113 | Login sets `lastLogin` to `now`. Verification, forgot-password and reset keep every account's `lastLogin`. |
| `Accounts.ResetKeepsVerification` | backend/controllers/auth.controller.js:199-207 | A reset leaves the email, the verification flag and the verification pair untouched, whatever the verification state. |
| `Accounts.VerifyConsumesCode` | backend/controllers/auth.controller.js:60-75 | Verifying an account removes it, and only it, from the accounts matching any code at any time. When it was the only match, the same code later matches nothing. |
| `Accounts.ResetConsumesToken` | backend/controllers/auth.controller.js:186-207 | A reset removes the account, and only it, from the accounts matching any token. When it was the only match, the token cannot be used again. |
| `Accounts.ForgotSupersedes` | backend/controllers/auth.controller.js:154-161 | After a new forgot-password request the earlier token of that account no longer matches. The new one matches exactly while `now` is before issue time + 1 h. |
| `Accounts.SignupCodeWindow` | backend/controllers/auth.controller.js:29-35 | The code issued at signup time `t` matches exactly while `now < t + 24 h`, and at the expiry instant it is already rejected. |

## Left out

- HTTP plumbing: status codes, cookies' attributes, JSON serialisation and the Express bootstrap in `backend/index.js`.
- JWT signing and cookie setting (`generateTokenAndSetCookie`) and `res.clearCookie`: these are only logged, as `SessionIssued` and `SessionCleared` events. The JWT middleware that yields `req.userId` for `checkAuth` is not part of this model; the id is a parameter.
- Failed email sends. Every send (lines 51, 77, 164, 209) is awaited inside its handler's `try`, always after the save. So a failed send is caught with the store already changed: `verifyEmail` answers "Server error" (line 89) for an account that is already verified; `forgotPassword` and `resetPassword` answer with `error.message` (lines 175-178, 217-220) after the token or password is stored; `signup` tries to answer a second time (lines 52-53). The model logs every send as succeeding and leaves out these failure responses after the save.
- bcrypt: an uninterpreted `hash`/`compare` pair; salting and cost are arguments. Hashing or store failures (the `catch` branches with "Server error" or `error.message`) are not modelled.
- Double-precision arithmetic in `Math.floor(100000 + Math.random() * 900000)`: modelled with reals.
- Mongoose details: `_doc` spreading, `__v`, any automatic timestamps of the user schema (`backend/models/user.model.js` is not part of this model), and how Mongoose casts or drops `undefined` and non-string request fields in a filter. Handlers other than `signup` take their request fields as present strings.
- The order among several accounts matching the same code or token: `findOne` picks one of them nondeterministically.
- The catch path of `signup` that would answer a second time after the response was already sent (lines 41-53), and `console.log` diagnostics.
- Concurrent requests and last-write-wins races at the store: each handler is one atomic step.
