# Payment flow of the pizzeria backend, modelled in Dafny

This project models the part of the storefront backend that has logic of its
own. The rest of the backend is wiring and library calls. The modelled part is:

- **the card fingerprint** (`routes/payments.js`). `determineCardBrand`
  removes whitespace, then picks one of the labels `Visa`, `MasterCard`,
  `American Express`, `Discover` or `Otra` from the number's prefix. `last4`
  is `slice(-4)` of the raw, unstripped number.
- **the bearer-token middleware** `verifyToken`. The token is the second
  field of `Authorization.split(' ')`. A missing or empty token gets 401
  `Token no proporcionado`. A token the signature check rejects gets 401
  `Token inválido`. Otherwise `req.userId` is set from the decoded payload
  and the request goes on.
- **the `POST /process` handler**. It answers 400 when `cardData` or `amount`
  is falsy. Otherwise it answers success with the same `amount`. When
  `saveCard` is truthy it first builds a card document and saves it. A failed
  save stays hidden inside the handler: it only makes `cardSaved` false.
- **the order number** of `models/Payment.js`. It is `PZ`, then the last six
  characters of the decimal timestamp, then the random draw padded to three
  digits. The schema default, the pre-save hook and the static
  `generateOrderNumber` all use this formula. The hook fills the field only
  when it is empty. The model also covers the schema's defaults (`MXN`,
  `completed`) and its enumerations.

Outside interactions become parameters:

- `jwt.verify` is a function `verify: string -> Option<JsValue>`. It returns
  `None` where the library throws.
- `newCard.save()` is a function `save: CardRecord -> Option<CardId>`. It
  returns `None` where the promise rejects.
- `Date.now()` is a `nat`.
- `Math.floor(Math.random() * 1000)` is a value of the subset type
  `Random` (0..999).

Request-body values are a small JSON datatype (`JsValues.JsValue`) with
JavaScript truthiness, so `amount: 0`, `""`, `null` and an absent field are
all "falsy" exactly as in `routes/payments.js`.

Files:

- `text.dfy`: module `Text`, the string operations `slice(-k)`, `padStart`,
  `toString` of a non-negative integer, `split(' ')`/`join(' ')` and the
  decimal parser used to state round trips.
- `wrappers.dfy`: module `Wrappers`, the `Option` type.
- `js_values.dfy`: module `JsValues`, request values and truthiness.
- `card_brand.dfy`: module `CardBrand`.
- `card_model.dfy`: module `CardModel`, the card document's fields
  (`models/Card.js`).
- `bearer_auth.dfy`: module `BearerAuth`, the header parsing and the `Request`
  class whose `userId` field `verifyToken` sets.
- `payments_route.dfy`: module `PaymentRoutes`, the `/process` handler.
- `payment_model.dfy`: module `PaymentModel`, the order number and the
  `PaymentDocument` class with its pre-save hook.

Some behaviour of the code is easy to misread, and the model keeps it as
written:

- `last4` is sliced from the raw number, not from the number with whitespace
  removed, so whitespace can end up in `last4`. See
  `CardBrand.Last4KeepsTrailingWhitespace`.
- `determineCardBrand` tests `4` and `5` before `34`/`37`. Since these
  prefixes are disjoint, testing American Express first would give the same
  brand: `CardBrand.PrecedenceIrrelevant`.
- The raw card number and the CVV are passed to the card document and so
  reach storage. `PaymentRoutes.ProcessOutcome` states this.
- Saving a card always inserts a new document. No existing card of the same
  user and `last4` is looked up or updated.
- The schema declares no unique index on `orderNumber`, and two order numbers
  collide whenever the timestamps agree modulo 10^6 and the draws agree
  (`PaymentModel.OrderNumberCollision`).
- Login signs `{ id }`, but `verifyToken` reads `decoded.userId`. A token
  from this backend's own login therefore passes but leaves `req.userId`
  undefined (`BearerAuth.LoginTokenLeavesUserUndefined`).
- A verified payload of `null` makes `decoded.userId` throw, and the same
  `catch` answers 401 `Token inválido` (`BearerAuth.NullPayloadRejected`).

## Model

| member | source | states |
|---|---|---|
| `Text.SliceLast` | routes/payments.js:54 | for k ≥ 1, `slice(-k)` is the suffix of length min(k, \|s\|) (`slice(-0)` is the whole string and is not modelled) |
| `Text.PadStart` | models/Payment.js:15 | `padStart` leaves text already long enough alone and otherwise puts exactly (len - \|s\|) pad characters in front of it |
| `Text.DecimalWellFormed` | models/Payment.js:14 | the decimal text of a number is non-empty, all digits, and starts with `0` only for 0 |
| `Text.Decimal` | models/Payment.js:14 | `toString` of a non-negative integer, most significant digit first; its properties are the lemmas below |
| `Text.DecimalLength` | models/Payment.js:14 | a decimal text of L digits denotes a number below 10^L, and from two digits on at least 10^(L-1) (`0` has one digit) |
| `Text.SixDigits` | models/Payment.js:14 | the decimal text has at least six characters exactly when the number is at least 100000 |
| `Text.ParseDecimalRoundTrip` | models/Payment.js:14-15 | parsing the decimal text of n gives n |
| `Text.ParseDecimalSuffix` | models/Payment.js:14 | the last k characters of the decimal text of n spell n mod 10^k |
| `Text.ParseDecimalLeadingZeros` | models/Payment.js:15 | zero padding in front does not change a digit string's value |
| `Text.Split` | routes/payments.js:9 | `split(' ')` yields at least one field and no field contains a space |
| `Text.JoinSplit` | routes/payments.js:9 | joining the fields of `split(' ')` with spaces gives the original header |
| `Text.SplitNoSpace` | routes/payments.js:9 | text without a space splits into itself alone |
| `Text.SplitAtFirstSpace` | routes/payments.js:9 | the first space ends the first field and the rest splits independently |
| `JsValues.Truthy` | routes/payments.js:42-51 | a request value is falsy exactly when it is undefined, null, false, 0 or "" |
| `JsValues.Property` | routes/payments.js:18-66 | on an object, `v.key` is its own field or `undefined`; on any other value except null and undefined it is `undefined`; null and undefined are excluded because reading a field of them throws |
| `CardBrand.StripWhitespace` | routes/payments.js:127 | `replace(/\s/g, '')` leaves no whitespace character and never lengthens the text |
| `CardBrand.DetermineCardBrand` | routes/payments.js:126-133 | the brand is always one of the five labels |
| `CardBrand.BrandCases` | routes/payments.js:126-133 | on the cleaned number, each label holds exactly when its own condition does: 4… Visa, 5… MasterCard, 34…/37… American Express, 6… Discover, anything else (empty, other 3…) Otra |
| `CardBrand.PrecedenceIrrelevant` | routes/payments.js:128-131 | testing Amex before 4/5 gives the same brand for every number |
| `CardBrand.Last4` | routes/payments.js:54 | `last4` is the suffix of the raw number of length min(4, \|cardNumber\|) |
| `CardBrand.StripConcat` | routes/payments.js:127 | stripping whitespace distributes over concatenation |
| `CardBrand.StripOnlyWhitespace` | routes/payments.js:127 | a run of whitespace strips to nothing |
| `CardBrand.StripNoWhitespace` | routes/payments.js:127 | text without whitespace is left unchanged |
| `CardBrand.WhitespaceInsertionPreservesBrand` | routes/payments.js:127-133 | inserting or removing whitespace anywhere in the number does not change the brand |
| `CardBrand.BrandOfCleanedNumber` | routes/payments.js:127-133 | classifying the cleaned number gives the brand of the raw number |
| `CardBrand.Last4KeepsTrailingWhitespace` | routes/payments.js:54 | a trailing whitespace character of the raw number becomes the last character of `last4`, which is then not all digits |
| `CardBrand.LeadingWhitespaceSkipped` | routes/payments.js:127-133 | whitespace typed before the number does not change its brand |
| `BearerAuth.BearerToken` | routes/payments.js:9 | `authorization?.split(' ')[1]`: absent without a header, never containing a space |
| `BearerAuth.HasToken` | routes/payments.js:9-11 | a token that passes `!token` needs a header with a space in it |
| `BearerAuth.BearerTokenOfShape` | routes/payments.js:9 | a header made of a first field, a space, the token and nothing or a space-led rest yields that token |
| `BearerAuth.BearerTokenHasShape` | routes/payments.js:9 | every extracted token is the second space-separated field of such a header |
| `BearerAuth.NoSpaceNoToken` | routes/payments.js:9-11 | a header gives no token exactly when it contains no space |
| `BearerAuth.DoubleSpaceRejected` | routes/payments.js:9-14 | two consecutive spaces make the token empty, which is rejected |
| `BearerAuth.LoginTokenLeavesUserUndefined` | routes/payments.js:16-20 | a token whose payload is the `{ id, iat }` login signs passes the middleware and leaves `req.userId` undefined |
| `BearerAuth.NullPayloadRejected` | routes/payments.js:16-24 | a verified `null` payload makes `decoded.userId` throw, which is answered 401 `Token inválido` |
| `BearerAuth.Request.VerifyToken` | routes/payments.js:8-25 | no or empty token: 401 `Token no proporcionado`, `userId` untouched; failed verify, or a `null`/`undefined` payload whose `.userId` throws: 401 `Token inválido`, untouched; otherwise `next` with `userId` set from the decoded payload |
| `PaymentRoutes.CardRecordFor` | routes/payments.js:52-69 | the card document keeps `req.userId`, the raw number and the CVV as given, with `last4` the number's suffix of length min(4, \|number\|) and a brand among the five labels |
| `PaymentRoutes.ProcessPayment` | routes/payments.js:39-93 | the outcome `ProcessOutcome`: 400 with no save attempt exactly when `cardData` or `amount` is falsy; otherwise success with the same amount and a `TXN_` id; a save is tried exactly when `saveCard` is truthy and the number is text, with a record holding the raw number, CVV, holder, expiry, `userId`, `last4` and brand; `cardSaved` holds exactly when that save succeeded, and `savedCard` then carries its id, `last4` and brand; a failed save still gives success |
| `PaymentRoutes.HandleProcess` | routes/payments.js:8-93 | no token or a rejected one: the middleware's 401 answer, no save attempt and `req.userId` unchanged; an accepted token: `req.userId` is the payload's `userId` and the whole `ProcessOutcome` holds for it; a success implies an accepted token |
| `PaymentModel.GenerateOrderNumber` | models/Payment.js:12-17 | the order number of the schema default (the same expression as at lines 63-65 and 73-77) starts with `PZ` and has at least six characters |
| `PaymentModel.RandomSuffix` | models/Payment.js:15 | for r in 0..999 the padded draw is exactly three digits and parses back to r |
| `PaymentModel.TimestampPart` | models/Payment.js:14 | the timestamp part is one to six digits |
| `PaymentModel.OrderNumberParts` | models/Payment.js:14-16 | the order number is `PZ` ++ the last (up to six) timestamp digits ++ the three-digit draw |
| `PaymentModel.OrderNumberFormat` | models/Payment.js:14-16 | from a six-digit timestamp on, the order number has length 11, starts with `PZ`, and its other nine characters are digits spelling ts mod 10^6 and r |
| `PaymentModel.ShortTimestampShortOrderNumber` | models/Payment.js:14-16 | a timestamp below 100000 gives an order number shorter than 11 |
| `PaymentModel.ParseDecimalInjective` | models/Payment.js:14-15 | equal-length digit strings with equal value are equal |
| `PaymentModel.OrderNumberInjective` | models/Payment.js:14-16 | two order numbers are equal exactly when the timestamps' last six characters and the draws are |
| `PaymentModel.SameTimestampDistinctDraws` | models/Payment.js:14-16 | the same timestamp with different draws gives different order numbers |
| `PaymentModel.OrderNumberCollision` | models/Payment.js:14-16 | for six-digit timestamps, two order numbers are equal exactly when ts mod 10^6 and r agree |
| `PaymentModel.PreSaveOrderNumber` | models/Payment.js:62-65 | the hook's rule never leaves the order number empty and keeps one that is present |
| `PaymentModel.PreSaveFillsOnlyEmpty` | models/Payment.js:62-67 | the hook leaves a non-empty order number as it is, fills an empty one with the generated value, and never leaves it empty |
| `PaymentModel.PreSaveIdempotent` | models/Payment.js:58-70 | applying the hook twice, at any clock reading and draw, equals applying it once |
| `PaymentModel.PaymentDocument.constructor` | models/Payment.js:3-55 | an omitted order number takes the generated value, currency `MXN`, status `completed`; with those defaults taken, validity depends only on `userId`, `amount` and `paymentMethod` being one of `card`/`saved_card`/`cash` |
| `PaymentModel.PaymentDocument.PreSave` | models/Payment.js:58-70 | the hook updates only `orderNumber`, in place, to the hook's rule applied to its old value, so it is non-empty afterwards, and a valid document stays valid |
| `PaymentModel.PaymentDocument.Valid` | models/Payment.js:3-55 | the schema's validators: the required String paths `orderNumber` (and `userId`) must be present, `orderNumber` non-empty; a required Number `amount` may be 0; `paymentMethod` must be one of `card`/`saved_card`/`cash` and `status` one of `pending`/`completed`/`failed`/`refunded` |
| `PaymentModel.SaveTwice` | models/Payment.js:58-70 | a document through the hook twice keeps the order number the first run gave it |

## Left out

- `jwt.verify` and `jwt.sign` are a foreign cryptographic library. Verify is the oracle `verify`. Token expiry and the `TokenExpired`/`TokenInvalid` difference are not in the code: both throw and give the same 401.
- `newCard.save()` and Mongoose persistence are foreign. This includes the Card schema's required-field validation and the `_id` and timestamps the store assigns. The save is the oracle `save`.
- `GET /cards` (routes/payments.js:105-123) is entirely a Mongoose query (`find().select().sort()`) with a 500 on failure. It is not modelled.
- The outer `catch` of `/process` (500) is not modelled. No step of the modelled handler can throw outside the inner `try`, because with Express 4's body-parser `express.json()` always supplies a body object.
- `console.log` output is not modelled.
- The `TXN_` id takes the clock as the parameter `now`.
- `Text.Decimal` is `Number.prototype.toString` for integers below 10^21, where JavaScript prints plain digits. The model prints plain digits for every `nat`.
- `Math.random()` and `Math.floor` over floats are not modelled. The model takes the draw as a `Random` in 0..999.
- JSON numbers are `real`s, and `-0` is falsy like `0`. The model has no value for the infinities: `JSON.parse` turns an out-of-range literal such as `1e400` into `Infinity`, which is truthy, so such an `amount` passes the 400 check and is echoed back, and `res.json` writes it as `null`. NaN cannot come out of `JSON.parse`.
- Property lookup reads own fields of a JSON object only. Keys inherited from `Object.prototype` are not modelled. On a non-object, a lookup of the card fields is `undefined`, as in JavaScript.
- JavaScript strings are UTF-16 code units, but Dafny's `char` is a Unicode scalar value. `slice(-4)` on text with astral characters would differ, which does not matter for card numbers.
- `PaymentModel.PaymentDocument.Valid` covers only the schema's `required` and `enum` validators. Mongoose's type casting is not modelled. With Mongoose's default `validateBeforeSave`, validation runs before the user's pre-save hooks. So a document whose `orderNumber` was set to an empty value fails `required` before the hook at models/Payment.js:62-65 could fill it. `PreSaveFillsOnlyEmpty` describes the hook on its own and does not mean such a save succeeds. The model keeps validation and the hook as separate operations.
- `PaymentModel.PreSaveOrderNumber`: `undefined`, `null` and `""` are all modelled as the empty string, because the hook treats all three as falsy the same way.
- `routes/auth.js` (register and login), `models/User.js` and `server.js` are library calls and wiring. `server.js` mounts only the auth router, never the payments router.
- The code has none of the following, so the model has none: dedup or upsert of cards by `(userId, last4)`, card deletion, one-time login codes, order recording in `/process`, or stripping of the raw number or CVV before saving.
