# OTP login, bearer gate and matching rules of the maite-api backend

This project models, in Dafny, the logic that the dating-app backend keeps
beside its routing and storage glue:

- **The OTP store** (`Otp`). The module-level map `dummyusers` maps each email to
  its outstanding one-time code. `/send-otp` gates on the user table, draws a
  code in `[100000, 999999]`, stores it and then hands the mail to the
  transport. `/verify-otp` compares the stored value with the submitted one
  by `===` and never removes the entry. The timer empties the whole map. The
  store is the class `OtpStore` with a `map<string, string>` field and the
  methods `SendOtp`, `Verify` and `Sweep`. The code is chosen
  nondeterministically in its range. The mail outcome is a parameter.
  `send-otp` answers a delivered mail with status 400 and a failed delivery
  with 500, and the code stays stored in both cases.
- **The code's text** (`Decimal`). The drawn integer becomes a string through
  `toString`. The model renders it in decimal and proves three things: the
  rendering reads back to the same number, distinct numbers give distinct
  strings, and every drawable code has exactly six digits.
- **The `/api` gate** (`Auth`). `verifyToken` splits the `Authorization` header on
  a single space, in a simplified form of the Bearer scheme of section 2.1 of
  RFC 6750. The first piece must be `Bearer` and the second must be non-empty.
  The token then goes to `getEmail`, which models JWT verification as an
  oracle function and never throws. `Split` is JavaScript's `split(" ")` and is
  proved inverse to joining with single spaces. The accepted headers are then
  characterised exactly.
- **Tables and relations** (`Tables`). The users, pictures and likes tables live
  in the class `Database`. `/check-email` inserts an unknown email if absent.
  `/api/add-like` inserts a (liker, liked) pair if absent.
  `/api/updateUserPlan` toggles the plan and `/api/checkPlan` tests it. The
  mutual-likes query is a set comprehension, and its join with the user and
  picture rows is modelled too.
- **Recommendations** (`Recommend`). `getGender` and `getReccomendations`
  recommend users of the opposite gender, each with the URL of their first
  picture. A null or empty gender gives a `Gender not found` error value, and
  any other gender gives an `Invalid gender type` error value. Every exception
  ends up rethrown as `Failed to fetch gender`, because the outer `catch` also
  wraps the inner rethrow.

A JavaScript value read from a JSON body is `Option<string>`, where `None` is
`undefined`. Truthiness (`!x`) treats `None` and `""` alike. A property lookup
`obj[x]` with `x` undefined uses the key `"undefined"`.

## Model

| member | source | states |
|---|---|---|
| `Otp.OtpStore.constructor` | src/server.ts:48 | the store starts empty, so it holds only generated codes |
| `Otp.OtpStore.SendOtp` | src/server.ts:155-210 | a falsy email, or an email with no user row, gets a 400 reply, no mail is sent and the store is unchanged; otherwise the store maps that email, and only that email, to a drawable six-digit code (any earlier code is overwritten); the mail to the email carries that code; the reply is 400 "OTP sent to email" when delivered and 500 when not, and the code stays stored either way; the store keeps holding only generated codes |
| `Otp.OtpStore.Verify` | src/server.ts:212-230 | reads the store without changing it, so a code can be replayed until a sweep; the reply is the as-written outcome, and a success with a submitted otp means that otp is a six-digit code |
| `Otp.OtpStore.VerifyStrict` | src/server.ts:217-229 | corrected verification reads the store without changing it; the reply is the strict outcome, and every success is for a submitted six-digit code |
| `Otp.OtpStore.Sweep` | src/server.ts:50-53 | after the timer fires the store is empty |
| `Otp.DrawnCodeIsSixDigits` | src/server.ts:176 | every integer in [100000, 999999] renders as six decimal digits without a leading zero |
| `Otp.DrawableIsSixDigits` | src/server.ts:176-178 | every code the generator can store matches `^[0-9]{6}$` |
| `Otp.Lookup` | src/server.ts:217 | `dummyusers[email]` is undefined exactly when the property key of `email` (with "undefined" for an absent email) has no entry; otherwise it is one of the stored codes |
| `Otp.VerifyReply` | src/server.ts:217-229 | as written: a success answers 200 with a token for the submitted email, and anything else answers 401 "Invalid OTP"; a success with a submitted otp means that otp is stored under the email's key, and a success without otp means no code is stored under that key |
| `Otp.VerifyStrictReply` | src/server.ts:217-229 | corrected: a success answers 200 with a token and requires a submitted otp; anything else answers 401 "Invalid OTP" |
| `Otp.PresentOtpSuccessIsStoredCode` | src/server.ts:217-222 | on a store of generated codes, an as-written success with a submitted code means that code is stored under the email's key and has six digits |
| `Otp.IssueThenVerify` | src/server.ts:178-221 | after a code is stored for an email, submitting that email and code succeeds |
| `Otp.ReissueRevokesEarlierCode` | src/server.ts:178 | re-issuing overwrites, so the earlier code for that email is rejected |
| `Otp.IssueLeavesOthersAlone` | src/server.ts:178 | issuing for one email changes no verification outcome for any other key |
| `Otp.SweptStoreRejectsCodes` | src/server.ts:50-53 | after a sweep every submitted code gets a 401 |
| `Otp.AbsentOtpBypass` | src/server.ts:217 | as written, omitting `otp` verifies any email that has no outstanding code and yields a token for it |
| `Otp.StrictRejectsAbsentOtp` | src/server.ts:217 | corrected verification rejects a body without otp with 401, whatever the store holds, which closes the bypass |
| `Otp.StrictSuccessIsIssuedCode` | src/server.ts:217-222 | on a store of generated codes, every corrected success is for a submitted six-digit code, without a leading zero, that is stored for that email |
| `Otp.StrictAgreesOnPresentFields` | src/server.ts:217 | when both email and otp are present, the corrected check answers exactly as the original does |
| `Decimal.ToDecimal` | src/server.ts:176 | `toString` of a non-negative integer: a non-empty digit string that starts with '0' only for zero |
| `Decimal.ParseToDecimal` | src/server.ts:176 | reading the rendered code back gives the drawn integer |
| `Decimal.ToDecimalInjective` | src/server.ts:176 | distinct draws give distinct codes |
| `Decimal.LengthOfDecimal` | src/server.ts:176 | a k-digit number renders as exactly k characters |
| `Auth.Split` | src/server.ts:70 | `split(" ")` gives at least one piece, no piece contains a space, and joining the pieces with single spaces gives back the header |
| `Auth.SplitJoin` | src/server.ts:70 | splitting space-free pieces joined by single spaces gives back the pieces |
| `Auth.AcceptedHeaderCarriesToken` | src/server.ts:70-78 | an accepted header is "Bearer " followed by the non-empty space-free token, then the header's end or a space |
| `Auth.CarriedTokenAccepted` | src/server.ts:70-78 | every header of that shape is accepted with that token |
| `Auth.ParseAuthorization` | src/server.ts:62-78 | an accepted header is truthy and yields a non-empty, space-free token that differs from the header itself |
| `Auth.ParseAuthorizationAccepts` | src/server.ts:62-78 | a header is accepted with token t exactly when it carries t after "Bearer " |
| `Auth.ParseAuthorizationRejects` | src/server.ts:62-78 | an absent or empty header is reported as missing; a malformed header carries no token at all |
| `Auth.DoubleSpaceRejected` | src/server.ts:70-78 | "Bearer  x" (two spaces) is malformed |
| `Auth.ExtraPieceIgnored` | src/server.ts:70-78 | "Bearer x y" is accepted with token "x" |
| `Auth.GetEmail` | lib/helpers.ts:9-22 | getEmail never throws: `{ email }` carries exactly the email the verifier decoded, and `{ error }` is returned only when the verifier rejects the token, with the message prefixed "Error in Verifying Token: " |
| `Auth.Gate` | src/server.ts:55-97 | the middleware either answers with status 200 or 401, or calls `next()`, and the latter only after the header parsed as a bearer token |
| `Auth.GateCallsNextOnlyForVerifiedTokens` | src/server.ts:55-97 | `next()` is called exactly when the header carries a bearer token that the verifier accepts, and the handler then sees that token's email; a token error is answered with status 200 (no status is set) and header errors with 401 |
| `Tables.FirstWithEmail` | src/server.ts:119-125 | the first row for an email: it has that email and no earlier row does |
| `Tables.FirstWithEmailFindsRegistered` | src/server.ts:165-174 | the lookup finds a row exactly when the email is in the users table |
| `Tables.TogglePlan` | src/server.ts:483-485 | the new plan is always "basic" or "premium", and it is "premium" only when the submitted plan was "basic" |
| `Tables.CheckPlan` | src/server.ts:465-473 | the caller gets no answer exactly when the email has no row |
| `Tables.SetSubscription` | src/server.ts:489-494 | the write keeps the table's length and order, sets the subscription of each of the caller's rows, and changes no other column of any row and no row of another email |
| `Tables.TogglePlanSwaps` | src/server.ts:483-485 | the toggle always gives "basic" or "premium", gives "premium" exactly for "basic", and undoes itself on those two plans |
| `Tables.CheckPlanAnswers` | src/server.ts:465-473 | `hasBasicPlan` holds exactly when the caller's first row has subscription "basic"; a caller with no row gets no answer |
| `Tables.UpdateThenCheckPlan` | src/server.ts:476-500 | after updateUserPlan with `plan`, checkPlan answers basic exactly when `plan` was not "basic" |
| `Tables.MutualLikes` | src/server.ts:598-612 | every returned user is liked by me and likes me |
| `Tables.MutualLikesMeans` | src/server.ts:598-612 | U is a mutual like of me exactly when (me, U) and (U, me) are both in the likes table |
| `Tables.MutualLikesSymmetric` | src/server.ts:601-611 | U is a mutual like of me exactly when me is a mutual like of U |
| `Tables.AddLikeExtendsMutual` | src/server.ts:531-534 | inserting (a, b) adds b to a's mutual likes exactly when b likes a, and removes nothing |
| `Tables.MutualGroups` | src/server.ts:591-619 | every group belongs to a mutual like and carries one of that user's picture URLs |
| `Tables.MutualGroupsExact` | src/server.ts:591-619 | each returned group is a mutual like whose name, instaId and phone come from a user row with that email and whose URL comes from one of its pictures, and every such row and picture pair appears |
| `Tables.InsertIfAbsentSize` | src/server.ts:513-534 | inserting a like grows the table by one exactly when the pair was absent, so no duplicate appears |
| `Tables.Database.CheckEmail` | src/server.ts:105-152 | a falsy email gets 400 and no change; a known email answers whether its row has a name and leaves the table unchanged; an unknown email is inserted with only its email set and answers false; afterwards the email is present |
| `Tables.Database.UpdateUserPlan` | src/server.ts:476-500 | every row of the caller gets the toggled plan, nothing else changes, and the answer is `{ success: true }` |
| `Tables.Database.AddLike` | src/server.ts:502-551 | an absent likedEmail gets 500 and no change; otherwise the table gains exactly the pair (liker, liked), a no-op when it exists; an existing pair gets no answer, a new pair gets 201, and an empty likedEmail gets the 500 first and still reaches the insert |
| `Recommend.GetGender` | lib/helpers.ts:24-38 | throws exactly when the email has no row; otherwise it reads the first row for the email, and returns its gender when truthy and undefined (`NoGender`) exactly when that gender is null or empty |
| `Recommend.WithGender` | lib/helpers.ts:56-62 | the filtered rows all have the asked gender, and each row of that gender occurs as often as in the table; no other row occurs |
| `Recommend.WithGenderAppend` | lib/helpers.ts:56-62 | filtering the concatenation of two parts of the table gives the filtered first part followed by the filtered second part; with the multiset contract of `WithGender` this fixes the result to the matching rows in table order |
| `Tables.FirstWithKey` | lib/helpers.ts:66-71 | the index taken for a table and a key (the first row of a query filtered on that key) holds the key, and no earlier row does; it is used for the first users row of an email and the first picture row of an email |
| `Recommend.FirstPhoto` | lib/helpers.ts:64-71 | a returned URL is the URL of the first picture row of that email, and there is none exactly when the email has no picture |
| `Recommend.AttachPhotos` | lib/helpers.ts:64-78 | succeeds exactly when every user has a picture; each output element is the unchanged user plus the URL of its first picture, in the same order and with the same length |
| `Recommend.OppositeGender` | lib/helpers.ts:56-87 | "male" is recommended "female" and "female" is recommended "male"; no other gender is handled |
| `Recommend.GetRecommendations` | lib/helpers.ts:40-117 | an error value is "Gender not found" or "Invalid gender type", every exception is "Failed to fetch gender", and every recommendation is a user row |
| `Recommend.RecommendsOppositeGender` | lib/helpers.ts:56-103 | a male caller gets exactly the female users, in table order, and a female caller exactly the male users, each decorated with their first picture; the call throws exactly when one of them has no picture |
| `Recommend.RecommendationErrors` | lib/helpers.ts:40-117 | a caller with no row makes the call throw "Failed to fetch gender"; a null or empty gender gives "Gender not found"; any other gender string gives "Invalid gender type" |

## Findings

| source | as written | input that shows it | evidently intended | confidence | as-written member | corrected member |
|---|---|---|---|---|---|---|
| src/server.ts:217 | `dummyusers[email] === otp` also holds when the store has no entry and the body has no `otp` (`undefined === undefined`) | POST `/verify-otp` with body `{ "email": "victim@x.com" }` and no code outstanding for that email (never issued, or cleared by the timer): the answer is 200 with a token for victim@x.com | succeed only when a code was issued to that email and the submitted code equals it (`Otp.StrictRejectsAbsentOtp`, `Otp.StrictSuccessIsIssuedCode`) | high; not executed | `Otp.AbsentOtpBypass` | `Otp.OtpStore.VerifyStrict` |

## Left out

- JSON Web Tokens: signing in `/verify-otp` is the reply `TokenBody(email)`, the payload the token would carry. Verification in `getEmail` is an oracle parameter. Signature, secret and the 30-day expiry are not modelled, and no sign/verify round trip is claimed.
- `Math.random` is floating point. Only the integer range it yields is modelled, as a nondeterministic choice.
- Timer and concurrency: the hourly `setInterval` is the explicit `Sweep` method. Interleavings of concurrent requests and of the timer with requests are not modelled.
- Mail transport: delivery success is the `delivered` parameter. The sender address from the environment is not part of the mail record.
- Database failures and the `catch` branches they reach (500 replies, rethrows) are not modelled. Tables are sequences in table order, and SQL result order is taken as table order.
- Non-string JSON values in request bodies (numbers, null, objects) are not modelled. Neither are keys such as `__proto__` or `toString`, which a plain object resolves through its prototype.
- `Tables.Database.AddLike`: with `likedEmail` absent, the source answers 500 and does not return. What the query and insert then do with `undefined` depends on the ORM and the table schema, which are not part of this model. The model leaves the table unchanged.
- `Tables.MutualGroupsExact`: the final projection of each group to `{ userName, instaId, phone, photoUrl }` and the order of the returned list are not modelled. The groups are a set.
- `Tables.Database.CheckEmail`: the generated `id` (uuid) and any column defaults of the new row are not modelled.
- `req.email` after the gate is `Option<string>` in `Auth.Gate`. The modelled handlers take the caller's email as a string, so a token whose payload has no email is not followed into them.
- The `/api/get-recommendations` route wrapper is not modelled beyond `Recommend.GetRecommendations`. The route answers 500 on a thrown error. Otherwise it sends `{ recommendations }` with status 200, so an error value such as `{ error: "Gender not found" }` reaches the client wrapped under `recommendations`.
- Not modelled, as routing and storage glue with nothing to prove: `/create-user` (a field-copy update), `/api/get-user`, `/api/liked-by`, the echo route `/`, the S3 routes (`/upload-image`, `/generate-url`, `/profile-images`), lib/imageStore.ts, lib/s3Uploader.ts, lib/gql.ts, src/router.ts, logging, CORS and environment loading.
