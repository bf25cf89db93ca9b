# Application intake endpoint — a Dafny model

This project models the server side of the model-agency website's
application form: the `POST /api/send-form-email` route handler and the
form-data shape it validates against. A submission passes a rate limit,
a declared-size check, JSON parsing, the payload validator, a minimum
fill-time check and a human-verification (Turnstile) check. Only then is a
notification e-mail, built from the escaped fields, handed to the SMTP
transport.

The model is split into modules that follow the source:

- `Wrappers`: `Option` and `Result`.
- `JsValues`: the JavaScript values the handler looks at. It covers parsed
  JSON values, `Number(...)` over the full string-to-number grammar
  (white space, sign, `Infinity`, decimals, exponents, `0x`/`0o`/`0b`) on
  exact reals, truthiness, `String.prototype.trim` with the ECMAScript
  white-space and line-terminator set, and `.length` counted in UTF-16
  code units.
- `ApplicationForm` (`src/lib/applicationForm.ts`): the required-field
  order, the `ApplicationFormData` record, `initialFormData`, and the JSON
  object a record serialises to.
- `EmailShape`: `isEmail`. It is a direct check proved equal to the
  regular expression `^[^\s@]+@[^\s@]+\.[^\s@]+$`, stated with
  quantifiers.
- `HtmlEscape`: `escapeHtml`, its per-character form, and an entity
  decoder that inverts it.
- `PayloadValidator`: `validatePayload`. Its read-only loop over the
  required fields is a recursive search.
- `RateLimiter`: `rateLimitOrThrow` over a `CounterStore` class. The
  store holds a map from key to (count, expiry) and is changed in place by
  `Incr` and `Expire`, with an explicit millisecond clock.
- `Turnstile`: the `verifyTurnstile` decision. The call to the
  verification service becomes the reply it produced.
- `SendFormEmail`: `getClientIp`, the mail rows and HTML, and the `POST`
  gate sequence as a function of its inputs. These inputs are the two
  headers, the parse result, the clock, the environment, the limiter's
  answer, the verification reply and the send outcome. `HandlePost` runs
  it against the counter store.

Two points of the code decide behaviour that a reader might expect otherwise:

- A store error is not caught, so it escapes the handler (`Unhandled`);
  there is no fail-open path (route.ts:64-65).
- The age only has to be finite and in [18, 99] under `Number(...)`;
  there is no integer check, so "18.5" is accepted (route.ts:51-52).

## Model

| member | source | states |
|---|---|---|
| JsValues.TrimStartShape | src/app/api/send-form-email/route.ts:34-38 | trimming the front removes exactly a white-space prefix and leaves a non-white-space first character |
| JsValues.TrimEndShape | src/app/api/send-form-email/route.ts:34-38 | trimming the back removes exactly a white-space suffix and leaves a non-white-space last character |
| JsValues.TrimEnds | src/app/api/send-form-email/route.ts:34-38 | a trimmed value is empty or starts and ends with a non-white-space character |
| JsValues.TrimEmpty | src/app/api/send-form-email/route.ts:44 | a value trims to "" exactly when every character is white space |
| JsValues.TrimIdempotent | src/app/api/send-form-email/route.ts:44 | trimming an already trimmed value changes nothing |
| JsValues.Utf16Length | src/app/api/send-form-email/route.ts:49 | `.length` counts UTF-16 code units: between the character count and twice it, and 0 only for "" |
| JsValues.IndexOfAnyFirst | src/app/api/send-form-email/route.ts:13 | the split position is the first comma, or the end when there is none |
| JsValues.ToNumberOfDigits | src/app/api/send-form-email/route.ts:51 | `Number` of a non-empty decimal digit string is the finite value of its digits |
| JsValues.ToNumberOfFraction | src/app/api/send-form-email/route.ts:51 | `Number("18.5")` is the finite 18.5; there is no integer requirement |
| ApplicationForm.FieldOrder | src/lib/applicationForm.ts:1 | the required fields are exactly fullName, age, instagram, email, in that order and without repetition |
| ApplicationForm.FieldNameInjective | src/lib/applicationForm.ts:1-3 | distinct required fields have distinct property names |
| ApplicationForm.InitialFormDataFields | src/lib/applicationForm.ts:16-25 | the empty form serialises to exactly the six string fields, each "" |
| ApplicationForm.ToJsonFields | src/lib/applicationForm.ts:5-14 | a record serialises to its four mandatory strings and to each optional field only when it is set |
| EmailShape.IsEmailMatchesPattern | src/app/api/send-form-email/route.ts:26-28 | the check accepts exactly the strings of the form local@domain.tld with one `@`, no white space and a `.` with text on both sides |
| HtmlEscape.EscapeAmpersand | src/app/api/send-form-email/route.ts:19 | `&` becomes `&amp;` |
| HtmlEscape.EscapeLessThan | src/app/api/send-form-email/route.ts:20 | `<` becomes `&lt;` and later steps leave it alone |
| HtmlEscape.EscapeGreaterThan | src/app/api/send-form-email/route.ts:21 | `>` becomes `&gt;` |
| HtmlEscape.EscapeQuote | src/app/api/send-form-email/route.ts:22 | `"` becomes `&quot;` |
| HtmlEscape.EscapeApostrophe | src/app/api/send-form-email/route.ts:23 | `'` becomes `&#39;` |
| HtmlEscape.EscapeHtmlAppend | src/app/api/send-form-email/route.ts:17-24 | escaping distributes over concatenation |
| HtmlEscape.EscapeHtmlChar | src/app/api/send-form-email/route.ts:17-24 | the five-step chain maps each single character to its entity or to itself, so `&` is never escaped twice |
| HtmlEscape.EscapeHtmlIsPerCharacter | src/app/api/send-form-email/route.ts:17-24 | the chain equals an independent per-character escape |
| HtmlEscape.UnescapeEscapeEach | src/app/api/send-form-email/route.ts:17-24 | decoding the five entities undoes the per-character escape |
| HtmlEscape.UnescapeEscapeHtml | src/app/api/send-form-email/route.ts:17-24 | decoding the five entities restores the input (round trip) |
| HtmlEscape.EscapeHtmlHasNoMarkup | src/app/api/send-form-email/route.ts:17-24 | the output contains none of `<`, `>`, `"`, `'` |
| HtmlEscape.EscapeHtmlOfPlainText | src/app/api/send-form-email/route.ts:17-24 | input with none of the five characters comes back unchanged |
| PayloadValidator.FirstMissing | src/app/api/send-form-email/route.ts:43-47 | the loop stops at the first required field that is empty after trimming, and all earlier ones are non-empty |
| PayloadValidator.MissingMeansEmpty | src/app/api/send-form-email/route.ts:34-37 | since the read values are already trimmed, the loop's second trim finds a field missing exactly when it is "" |
| PayloadValidator.FirstMissingUnrolled | src/app/api/send-form-email/route.ts:43-47 | the loop over the four fields checks fullName, age, instagram, email in turn |
| PayloadValidator.NoneMissing | src/app/api/send-form-email/route.ts:43-47 | the loop finds nothing missing exactly when all four fields are non-empty |
| PayloadValidator.InvalidPayloadIffNotObject | src/app/api/send-form-email/route.ts:31 | "Invalid payload" is returned exactly for a non-object or null body |
| PayloadValidator.PresentFieldsNoMissingReason | src/app/api/send-form-email/route.ts:49-57 | after the loop passes, no rejection reason is a "Missing" one |
| PayloadValidator.MissingReportsFirstEmpty | src/app/api/send-form-email/route.ts:43-47 | "Missing f" is returned exactly for an object whose field f is empty after trimming while every field before f is present |
| PayloadValidator.ValidateAcceptsExactlyValid | src/app/api/send-form-email/route.ts:30-59 | a body is accepted exactly when it is valid; the data returned is the trimmed strings, renderedAt only if a number and turnstileToken only if a string |
| PayloadValidator.ValidateOkIffAcceptable | src/app/api/send-form-email/route.ts:30-59 | acceptance is equivalent to: an object, every bound met, the e-mail matching the pattern, and the honeypot empty |
| PayloadValidator.OkIsReadFields | src/app/api/send-form-email/route.ts:59 | an accepted body yields the record of the values read |
| PayloadValidator.AcceptedDataBounds | src/app/api/send-form-email/route.ts:49-56 | accepted data has a name of 1 to 120 units, a finite age in [18, 99], an instagram of 1 to 60, an e-mail of at most 254 matching the pattern, and onlyfans "" or at most 60 |
| PayloadValidator.HoneypotRejectsLast | src/app/api/send-form-email/route.ts:57 | "Bot" is returned exactly when every other rule passes and the untrimmed honeypot is not "" |
| PayloadValidator.InvalidNameMeansTooLong | src/app/api/send-form-email/route.ts:49 | the `!fullName` test never fires, so "Invalid name" always means more than 120 units |
| PayloadValidator.InvalidInstagramMeansTooLong | src/app/api/send-form-email/route.ts:54 | the `!instagram` test never fires, so "Invalid instagram" always means more than 60 units |
| PayloadValidator.InvalidEmailMeansTooLongOrMalformed | src/app/api/send-form-email/route.ts:55 | the `!email` test never fires, so "Invalid email" always means more than 254 units or no match of the pattern |
| PayloadValidator.VerdictFromFields | src/app/api/send-form-email/route.ts:34-41 | the verdict depends only on the values read from the object |
| PayloadValidator.ReadFieldsOfToJson | src/app/api/send-form-email/route.ts:34-41 | for a record with onlyfans and honeypot set and a finite or absent renderedAt, reading its serialisation gives back its strings trimmed, its honeypot as is, and its renderedAt and token |
| PayloadValidator.AcceptedRecord | src/app/api/send-form-email/route.ts:57-59 | an accepted record has an empty honeypot and is the record of the values read |
| PayloadValidator.ValidateAcceptedAgain | src/app/api/send-form-email/route.ts:30-59 | validation is idempotent for accepted data whose renderedAt is finite or absent; `JSON.stringify` writes a non-finite renderedAt as null, which is then dropped |
| PayloadValidator.InitialFormDataRejected | src/lib/applicationForm.ts:16-25 | the untouched empty form is rejected as "Missing fullName" |
| PayloadValidator.AgeBoundariesAccepted | src/app/api/send-form-email/route.ts:51-52 | "18", "99" and "18.5" pass the age rule |
| PayloadValidator.AgeBoundariesRejected | src/app/api/send-form-email/route.ts:51-52 | "17" and "100" fail the age rule |
| RateLimiter.CounterStore.Incr | src/app/api/send-form-email/route.ts:64 | INCR adds one to a live counter or starts a new one at 1, and returns the new count |
| RateLimiter.CounterStore.Expire | src/app/api/send-form-email/route.ts:65 | EXPIRE sets the key's expiry to now plus the given seconds, only if the key is live |
| RateLimiter.RateLimitOrThrow | src/app/api/send-form-email/route.ts:62-67 | the store changes and the answer are exactly one hit of the fixed-window counter for "rl:apply:" + ip |
| RateLimiter.HitCounts | src/app/api/send-form-email/route.ts:62-67 | one hit adds one to the client's counter, arms the 600 s expiry only when the count becomes 1, allows iff the new count is at most 20, and leaves every other key alone |
| RateLimiter.HitsInsideWindow | src/app/api/send-form-email/route.ts:62-67 | inside a started window, successive hits count up, keep the expiry and are allowed while the count is at most 20 |
| RateLimiter.FixedWindow | src/app/api/send-form-email/route.ts:8-9 | within 600 s of a client's first hit, the 1st to 20th hits are allowed and the 21st and later are refused |
| RateLimiter.WindowResets | src/app/api/send-form-email/route.ts:63-65 | after the expiry, the next hit starts a new window at count 1 and is allowed |
| Turnstile.VerifyTurnstileDecision | src/app/api/send-form-email/route.ts:69-88 | the check passes iff no secret is set, or a token is sent and the reply is ok with a truthy `success`; it fails with a secret and no token; it throws only on a network error, or on an ok reply whose body is not JSON or is `null` |
| Turnstile.SiteverifyRequestFields | src/app/api/send-form-email/route.ts:74-77 | a request is made only with secret and token, it carries both, and it carries `remoteip` exactly when the address is not "unknown" |
| SendFormEmail.ClientIpShape | src/app/api/send-form-email/route.ts:11-15 | the address is "unknown" without the header; otherwise it is the trimmed text before the first comma, with no comma and no white space at either end |
| SendFormEmail.RowDelimiters | src/app/api/send-form-email/route.ts:149 | each paragraph holds exactly its four template tags, whatever the label and value |
| SendFormEmail.RowsDelimiters | src/app/api/send-form-email/route.ts:149 | the joined paragraphs hold exactly four tags per row |
| SendFormEmail.MailHtmlHasOnlyTemplateTags | src/app/api/send-form-email/route.ts:147-150 | the mail body has exactly 2 + 4 × rows `<` and `>` characters, so no applicant text can add markup |
| SendFormEmail.PostSendsIffAllGatesPass | src/app/api/send-form-email/route.ts:90-165 | a mail is handed over iff every gate passes and the configuration is complete; 200 "OK" iff it is delivered; 500 "Failed to send" if sending throws; 500 "Server misconfigured" and no mail if the configuration is incomplete |
| SendFormEmail.PostEarlyGates | src/app/api/send-form-email/route.ts:93-106 | a store error escapes, the limit answers 429 whatever the request, an oversized declaration answers 413 before the body is read, and unparsable JSON answers 400 "Invalid JSON" |
| SendFormEmail.ClientErrorsAreGeneric | src/app/api/send-form-email/route.ts:108-116 | a rejected payload, a too-fast submission and a failed verification all answer 400 "Invalid submission", and no 400 carries the validator's reason |
| SendFormEmail.PostStatuses | src/app/api/send-form-email/route.ts:90-165 | every answer the handler gives has status 200, 400, 413, 429 or 500 |
| SendFormEmail.PostAttempt | src/app/api/send-form-email/route.ts:129-159 | a mail that is handed over is built from the validated data and the client address, after all gates passed |
| SendFormEmail.SentMailContents | src/app/api/send-form-email/route.ts:129-159 | the transport uses implicit TLS iff the port is 465; the mail has the fixed sender name, the staff recipient, reply-to the applicant and subject "New submission", and its HTML is the six escaped rows with 26 tags |
| SendFormEmail.TimingGateBoundaries | src/app/api/send-form-email/route.ts:111 | 2999 ms after rendering is too fast and 3000 ms is not; an absent renderedAt or a renderedAt of 0 skips the check |
| SendFormEmail.HandlePost | src/app/api/send-form-email/route.ts:90-94 | the client's counter is hit once before anything else when the store answers, and the response is the gate sequence's for the limiter's answer |

## Left out

- I/O is not modelled. The Upstash client, the `fetch` to the verification
  service, nodemailer's transport and `sendMail`, `request.json()`,
  `process.env`, `Date.now()` and `console.error` become inputs: the
  limiter's answer (or the store), the parse result, the environment
  record, the clock, the verification reply and the send outcome.
- The framework's reply to an exception that escapes the handler is not
  modelled. That covers a store error and a verification reply that cannot
  be read. It appears only as `Unhandled`.
- `Number(...)` works on exact reals. Rounding to IEEE-754 doubles is not
  modelled. So an age such as "99.0000000000000000001", which rounds to
  99 in JavaScript, is rejected by the model. A content length with more
  significant digits than a double holds is compared exactly.
- Strings are sequences of Unicode scalar values. Lone UTF-16 surrogates,
  which a JavaScript string may hold, cannot be represented.
- A JSON array body counts as an object, as `typeof` says. Its index
  properties are not modelled, because no field the handler reads is an
  index.
- PayloadValidator.ValidateAcceptedAgain: holds only for a finite or absent
  renderedAt. A body whose renderedAt parses to Infinity (such as `1e400`)
  is accepted with it, but `JSON.stringify` writes it as `null`, so the
  data sent again comes back without renderedAt.
- The handler checks only the declared `content-length`, and so does the
  model. The actual body size is not modelled.
- RateLimiter.CounterStore: commands run one at a time. Concurrent
  requests are not modelled. Neither is a failure between INCR and EXPIRE,
  which would leave a counter without expiry. Redis keeps expiries in
  seconds; the model keeps them in milliseconds on the given clock.
- The Redis client is created at module load. No fail-open path and no
  lazily created connection exist in the code, so neither is modelled.
- The presentational React components, the client-side form and its
  duplicate checks, and page metadata are not part of this model.
