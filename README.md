# OTP authentication backend: the per-identifier OTP lifecycle

This project models the core of a small one-time-password login backend
(`backend/server.js`). A client asks for a code for an identifier (an email
address or a phone number), submits the code to get a bearer token, and
presents the token to learn who it is. The model covers:

- the in-memory store, one record per identifier: the live code, its expiry
  time, the count of wrong submissions and the end of a block
  (`Server.OtpRecord`, `Server.Store`);
- the constants `BLOCK_DURATION` (10 minutes), `OTP_EXPIRY` (5 minutes) and
  `MAX_ATTEMPTS` (3);
- the block gate `isBlocked` and the remaining-seconds formula;
- the `/auth/request-otp` and `/auth/verify-otp` handlers, as the methods of
  the class `Server.OtpServer`. The class holds the store as a `map` field
  that the methods update in place. Each method is proved equal to a pure
  step function (`RequestOtpStep`, `VerifyOtpStep`), and the step functions
  carry the per-call properties in their contracts;
- the mock token minted on success and the `/auth/me` handler that parses it
  back, over models of the JavaScript string built-ins involved
  (`startsWith`, `split`, `lastIndexOf`, `substring`, `toString` of an integer),
  in module `JsStrings`;
- the multi-call properties in module `Lifecycle`: the lockout sequence,
  single use of a code, expiry, and an invariant kept by every store the
  handlers can reach while the clock never runs backwards. Because the block
  (10 minutes) outlasts the code (5 minutes), a lapsed block always leaves an
  expired code behind, so no record ever counts more than three failures.

The clock (`Date.now()`) is the parameter `now: nat`, in milliseconds. The
random code is the parameter `code`, limited to 100000..999999. That is the
range `Math.floor(100000 + Math.random() * 900000)` produces, so the issued
code is always six digits with no leading zero (`Server.IssuedCode`).

Where the source and its written description differ, the model follows the
source:

- The verify handler answers "no OTP request found" both when there is no
  record and when the record's code is empty (the `!data.otp` test). The
  second case cannot arise from the handlers.
- The block gate reads `blockedUntil` as JavaScript truthiness, so a value
  of 0 counts as unset. With a non-negative clock this never changes the
  answer (`Server.IsBlocked`'s contract).
- The token format is part of the model, as the source has it.

## Model

| member | source | states |
|---|---|---|
| `Server.Missing` | backend/server.js:74 | a body field passes the presence test exactly when it is present and a non-empty string |
| `Server.IsBlocked` | backend/server.js:37-43 | true exactly when a record exists, its `blockedUntil` is set, and it is strictly later than `now` |
| `Server.RemainingSeconds` | backend/server.js:52-54 | the reported seconds are the ceiling of the remaining milliseconds over 1000, and at least 1 whenever the gate fired |
| `Server.IssuedCode` | backend/server.js:57 | the code stored for a drawn number in 100000..999999 is a six-digit decimal string with no leading zero that denotes that number |
| `Server.RequestOtpStep` | backend/server.js:45-69 | 400 "identifier required" exactly for a missing or empty identifier; 403 with the remaining seconds (at least 1) exactly when blocked; neither refusal changes the store; on 200 the identifier's record is replaced by the new code, expiry `now + OTP_EXPIRY`, zero attempts and no block, and every other identifier's record is untouched |
| `Server.VerifyOtpStep` | backend/server.js:71-109 | the gates in order, each keyed on the input: missing fields give 400; a block gives 403 with the seconds left; with no block, no record or an empty code gives 400 "no request", and a pending code past its expiry gives 400 "expired"; none of these changes the store; a wrong code on a pending, unexpired, unblocked record is counted: it adds exactly one to `attempts`, leaves the rest of the store alone, and answers 403 with a block until `now + BLOCK_DURATION` exactly when the new count reaches 3, else 401 with `attemptsRemaining = 3 - attempts` (at least 1); the answer is 200 exactly for the pending, unexpired code while not blocked, and then the record is deleted and the token minted for the identifier at `now` |
| `Server.OtpServer.constructor` | backend/server.js:31 | the server starts with an empty store |
| `Server.OtpServer.RequestOtp` | backend/server.js:45-69 | the response and the updated store are those of `RequestOtpStep` on the old store |
| `Server.OtpServer.VerifyOtp` | backend/server.js:71-109 | the response and the updated store are those of `VerifyOtpStep` on the old store |
| `Server.MintToken` | backend/server.js:106 | the token starts with the `mock-token-` prefix and is longer than the prefix plus the identifier |
| `Server.BearerToken` | backend/server.js:118 | the second space-separated field of the header holds no space |
| `Server.TokenIdentifier` | backend/server.js:124 | the identifier read from a token is no longer than the token |
| `Server.AuthMe` | backend/server.js:111-127 | the answer is 200 or 401, and it is 200 exactly when it carries a user identifier |
| `JsStrings.StartsWith` | backend/server.js:120 | true exactly when the prefix is no longer than the string and agrees with it character by character |
| `JsStrings.LastIndexOf` | backend/server.js:124 | the result is -1 exactly when the character is absent; otherwise it is an index holding the character with no later occurrence |
| `JsStrings.Substring` | backend/server.js:124 | for ordered in-range indices it is the slice between them; for reversed in-range indices it is the slice with the indices swapped; a negative index counts as 0 and one past the end as the length, for either argument; with both out of range it is the whole string when they lie on opposite sides and empty otherwise; it is never longer than the string |
| `JsStrings.Split` | backend/server.js:118 | at least one piece; exactly one when the separator is absent, and then the piece is the whole string; no piece holds the separator; the first piece is the string's longest separator-free prefix |
| `JsStrings.JoinSplit` | backend/server.js:118 | joining the pieces with the separator gives back the string |
| `JsStrings.SplitAtFirstSeparator` | backend/server.js:118 | a separator-free prefix followed by the separator comes off as the first piece |
| `JsStrings.FirstPieceStartsWith` | backend/server.js:118-120 | for a separator-free prefix, the first piece starts with it exactly when the whole string does |
| `JsStrings.Decimal` | backend/server.js:106 | a non-empty string of decimal digits whose first digit is 0 only for the number 0 |
| `JsStrings.DecimalValue` | backend/server.js:57 | the digit string denotes the number it was made from |
| `JsStrings.DecimalLength` | backend/server.js:57 | a number from 10^k to below 10^(k+1) has k + 1 digits |
| `TokenFormat.BearerTokenOf` | backend/server.js:114-118 | for `"Bearer " + rest` the bearer field is the first space-separated piece of `rest` |
| `TokenFormat.AuthMeAccepts` | backend/server.js:114-122 | `/auth/me` answers 200 exactly for a header beginning with `Bearer mock-token-`, and 401 for every other header, missing or not; a 401 carries "unauthorized" exactly when the header is missing or does not start with `Bearer `, and "invalid token" otherwise |
| `TokenFormat.LastHyphenOfMinted` | backend/server.js:106-124 | the last hyphen of a minted token is the one right after the identifier, because the clock digits hold none |
| `TokenFormat.IdentifierOfMinted` | backend/server.js:124 | the identifier read from a minted token is exactly the one it was minted for, hyphens included |
| `TokenFormat.TokenRoundTrip` | backend/server.js:106-126 | sending `"Bearer " + token` for a token minted for an identifier without spaces makes `/auth/me` answer 200 with exactly that identifier |
| `Lifecycle.ConsistentLater` | backend/server.js:33-35 | the store invariant survives the clock moving forward |
| `Lifecycle.RequestKeepsConsistent` | backend/server.js:57-64 | request-otp preserves the store invariant |
| `Lifecycle.VerifyKeepsConsistent` | backend/server.js:93-99 | verify-otp preserves the store invariant; the block set on the third failure ends after the code's expiry |
| `Lifecycle.ReplayConsistent` | backend/server.js:45-109 | any sequence of handler calls with a non-decreasing clock keeps a consistent store consistent |
| `Lifecycle.AttemptsNeverExceedMax` | backend/server.js:94-97 | from an empty store, no record ever counts more than `MAX_ATTEMPTS` failures, and every stored code is a six-digit issued code |
| `Lifecycle.LapsedBlockMeansExpired` | backend/server.js:89-97 | once a block has lapsed, any submission for the blocked code is refused as expired and changes nothing |
| `Lifecycle.BlockAtMostTenMinutes` | backend/server.js:52-54 | in a consistent store the reported remaining time is between 1 and 600 seconds |
| `Lifecycle.RemainingSecondsNonIncreasing` | backend/server.js:79 | repeated calls during a block report a remaining time that never grows |
| `Lifecycle.VerifyWithoutRequest` | backend/server.js:83-87 | verifying for an identifier without a record answers 400 "no request" and changes nothing |
| `Lifecycle.CodeIsSingleUse` | backend/server.js:104-108 | the issued code submitted in time answers 200 with the token and deletes the record; the same submission again answers 400 "no request" |
| `Lifecycle.LateCodeExpires` | backend/server.js:89-91 | the issued code submitted after its expiry answers 400 "expired" and changes nothing |
| `Lifecycle.LockoutSequence` | backend/test_api.js:60-93 | after a request, three wrong codes answer 401 with 2 left, 401 with 1 left, then 403; a request during the block answers 403 with the seconds left and changes nothing; a request after the block answers 200 and starts a fresh record |
| `Lifecycle.LockoutScenario` | backend/test_api.js:47-93 | on a fresh server at one instant, the test script's five calls answer 200, 401 with 2 left, 401 with 1 left, 403, and 403 with 600 seconds left |

## Left out

- The HTTP plumbing: Express setup, CORS, the request-logging middleware,
  JSON body parsing and its error handler, and `app.listen`
  (backend/server.js:1-29, 129-131). Handlers take the body's fields and the
  `Authorization` header as parameters and return a status with a message kind.
- The message texts. Each message is a constructor of `Server.Message`
  carrying the values the text interpolates (the seconds left, the attempts left).
- Random code generation: `Math.random()` is floating point; the drawn
  number is the parameter `code` in 100000..999999.
- The clock: `Date.now()` is the parameter `now`, and one handler call reads
  it once. The source reads the clock separately at each use (lines 39, 53,
  61, 79, 89, 97, 106). If the clock passes `blockedUntil` between the gate
  at line 39 and the formula at line 53 or 79, the source can report 0
  seconds. The model does not capture that.
- Delivering the code by `console.log` (backend/server.js:66): a side
  channel, not logic.
- Body fields that are JSON values other than strings. A field is modelled
  as absent, null or a string. JavaScript truthiness of other values is not
  modelled. Neither is the strict comparison of a numeric `otp` with the
  stored string, which always counts as a wrong code.
- The store is modelled as a map. The source uses a plain JavaScript object,
  whose inherited keys (such as `__proto__` or `constructor`) behave
  differently as identifiers.
- Strings are sequences of Unicode characters, not UTF-16 code units, so
  the lone surrogates a JSON string can carry cannot be represented.
  `toString` is modelled for non-negative integers in plain decimal; the
  exponent form JavaScript uses from 10^21 on is not modelled.
- Concurrency: Node's single event loop runs each handler to completion, so
  the model runs one call at a time.
- The frontend (frontend/src/App.jsx, frontend/src/api.js) and the network
  test scripts (backend/test_api.js, backend/verify_block.js), whose
  expected status sequences appear as `Lifecycle.LockoutSequence` and
  `Lifecycle.LockoutScenario`.
