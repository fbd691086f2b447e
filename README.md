# ChatFoodSys webhook pipeline, modelled in Dafny

ChatFoodSys is a WhatsApp food-recognition bot. A user sends a photo. The
server downloads it, classifies the food and takes the top three labels. It
looks each label up in the USDA FoodData Central database, adds up calories,
protein, carbohydrate and fat, and replies with a summary. This project
models that per-message pipeline and the two helpers it calls:

- `Webhook` (index.js): the subscription handshake (`VerifyWebhook`) and the
  POST handler (`HandlePost`). The handler reads the first message of the
  delivery and takes the early exits for a missing message, a non-image
  message, a missing media URL or an empty classification. On the normal path
  it looks up the top three labels (`Aggregate`, proved against `Kept` and
  `SumOf`) and renders the reply (`RenderReply`, proved against `Reply`).
  Everything the handler does to the outside world is recorded as a trace of
  `Effect`s: messages sent, media requests, the temporary file being written
  and deleted, classification and nutrition lookups.
- `Nutrition` (nutrition.js): `getNutritionByQuery`. It covers the no-key,
  no-food and thrown-error defaults, the nested `findVal` search (`FindVal`,
  proved against `FirstMatchValue`) and the scaling from 100 g to the
  requested mass (`Scale`). The whole method is proved against `Resolve`.
- `ClassifyFood` (classifyFood.js): the lazily loaded classifier handle as a
  class with a nullable field (`ClassifierModule`), label normalisation
  (`NormalizeLabel`) and the error-to-empty behaviour of `detectFood`
  (`Detected`).
- `Text` and `Wrappers`: ASCII case mapping, JavaScript number rendering and an
  `Option` type.

Nutrient amounts are integers counting tenths of a unit (kcal or g), so sums
are exact. `toFixed(1)` is rounding of the scaled amount to the nearest tenth,
ties away from zero. `Math.round` is rounding to the nearest unit, ties
upwards. External calls become parameters:

- the media lookup and the download;
- writing and deleting the temporary file;
- `detectFood`'s result;
- the nutrition lookup and the database search;
- the model loader, the resize and the inference call.

Sending a message is a trace entry: `sendText` catches its own errors, so it
never throws.

Where the code departs from the intended behaviour of the bot, the model follows the code:

- The reply is rendered and sent even when every lookup returns `null`. It then
  has no item blocks and all-zero totals (`ReplyWhenNothingFound`).
- A missing API key gives an all-zero estimate. It is not reported as a
  separate "unavailable" outcome.
- A failed media request or download is not answered with a retry message. The
  exception reaches the handler's `catch`, which answers 500 and sends nothing.
  Only a missing `data.url` sends the error text.
- Normalisation replaces only `_`, not other word-separator characters.
- There is no `finally` around the temporary file. After the file is written
  (index.js:85), however, nothing can throw before the `unlinkSync` calls:
  `sendText`, `detectFood` and `getNutritionByQuery` all catch their own
  errors. So every run that writes the file also tries to delete it. The file
  is deleted exactly when `unlinkSync` succeeds. It is left behind only when
  `unlinkSync` throws, and the handler then answers 500 (`HandlePost`). If
  the write itself fails, no deletion is attempted.
- A message whose `image` object has no `id` still sends the media request,
  to the path `undefined` (`MediaPath`). Only a missing `image` object throws
  before any request.
- A delivery whose `entry` is an empty list makes `entry.changes` throw. The
  handler then answers 500 (`Unreadable`), not 200.

## Model

| member | source | states |
|---|---|---|
| `Webhook.VerifyWebhook` | index.js:26-40 | 200 with the challenge iff mode is "subscribe" and the (non-empty) token equals VERIFY_TOKEN; 403 iff both are present but do not match; 400 iff either is missing or empty |
| `Webhook.HandlePost` | index.js:43-129 | the status and the exact trace of every branch. Requests are recorded when sent; file operations when they succeed. No entry or no first message: 200, nothing sent. An empty `entry` list or an image message without an `image` object: 500, nothing sent. Non-image: exactly one prompt, with no request, classification or lookup. Media request throws: 500 after that request only. Missing URL: the URL error text. Download or file write throws: 500 after the two requests. No labels: the "analysing" text, then the "could not identify" text, then the deletion if `unlinkSync` succeeds. Otherwise: the lookups of the top labels in order, then the reply of the kept items and their total, then the deletion if it succeeds. Status 200 after a written file exactly when it is deleted, else 500. The file is deleted iff it was written and `unlinkSync` succeeds; a written file stays only with status 500. Lookups occur only for the top labels of a non-empty classification |
| `Webhook.ReadInbound` | index.js:45-53 | no `entry`: the 200 exit; an empty `entry` list: the throwing case; a message iff `entry[0].changes[0].value.messages` exists and is non-empty, and then it is that list's first message |
| `Webhook.MediaPath` | index.js:64-69 | the media request's path is the image id, or "undefined" when the id is missing |
| `Webhook.Top` | index.js:98 | the top labels are the first min(3, \|labels\|) labels, in their original order |
| `Webhook.Lookups` | index.js:102-103 | the lookup trace has one request per top label, in label order |
| `Webhook.Aggregate` | index.js:98-110 | the loop's parts are the labels kept by their lookups, its total is their sum, and its lookups are one per label in order |
| `Webhook.KeptAppend` | index.js:102-105 | keeping distributes over concatenation, so the parts are an order-preserving filter of the labels |
| `Webhook.KeptSound` | index.js:102-105 | there are at most as many parts as labels; each part is a label together with that label's non-null lookup result |
| `Webhook.KeptComplete` | index.js:102-105 | every label whose lookup is non-null appears among the parts with its result |
| `Webhook.KeptNoneFound` | index.js:102-104 | when every lookup is null, no part is kept |
| `Webhook.SumOfAppend` | index.js:106-109 | the total of a concatenation is the elementwise sum of calories, protein, carbs and fat of the two totals |
| `Webhook.SumOfNonNegative` | index.js:99-109 | starting from zero and adding non-negative estimates never gives a negative total |
| `Webhook.SumOfTwoItems` | index.js:99-109 | items {100, 5, 10, 2} and {200, 10, 20, 8} total {300, 15, 30, 10} |
| `Webhook.Capitalize` | index.js:147-150 | `capitalize` keeps the length (so the empty string stays empty), upper-cases the first character and leaves the rest unchanged |
| `Webhook.CapitalizeIdempotent` | index.js:147-150 | capitalising twice is capitalising once |
| `Webhook.BlockFrame` | index.js:115 | an item block (`Block`) opens with the bullet, the capitalised label and "(100 g)" and closes with the fat line and a blank line; blocks of parts with the same capitalised label and amounts are equal |
| `Webhook.RoundTenths` | index.js:117 | `Math.round` of t tenths is the integer r with 10r - 5 <= t < 10r + 5: the nearest integer, ties upwards |
| `Webhook.TotalsLineFrame` | index.js:117 | the totals line (`TotalsLine`) opens with its title and the rounded calories and closes with the per-100 g note; totals whose four rounded amounts agree give the same line |
| `Webhook.JoinAppend` | index.js:114-116 | rendering a concatenation of items gives the concatenated renderings |
| `Webhook.RenderReply` | index.js:113-117 | the `text +=` loop produces the header, then one block per part in order, then the totals line |
| `Webhook.ReplyLayout` | index.js:113-117 | for any part, the reply is the header, then the blocks of the parts before it, its own block and the blocks of the parts after it, then the totals line |
| `Webhook.ReplyWhenNothingFound` | index.js:113-119 | when every lookup is null, the reply that is still sent is the header followed by an all-zero totals line |
| `Nutrition.FindVal` | nutrition.js:25-34 | the nested loop returns the value of the first nutrient, in list order, whose non-empty lower-cased name contains any term, and 0 when none does |
| `Nutrition.FirstMatchWins` | nutrition.js:26-31 | the earliest matching nutrient decides, whatever follows it; a missing value gives 0 |
| `Nutrition.NoMatchIsZero` | nutrition.js:33 | with no matching nutrient the macro is 0 |
| `Nutrition.UnnamedNeverMatches` | nutrition.js:27 | a nutrient without a name, or with an empty one, is skipped |
| `Nutrition.NutrientOrderBeatsTermOrder` | nutrition.js:25-39 | nutrient order takes precedence over term order: "Lipids" before "Total lipid (fat)" yields the first one's fat value |
| `Nutrition.Scale` | nutrition.js:41-45 | `toFixed(1)` of the scaled amount: with p = v × grams hundredths of a tenth, the result r satisfies 100r - 50 <= p < 100r + 50 for p >= 0 and 100r - 50 < p <= 100r + 50 for p < 0, so the nearest tenth with ties away from zero |
| `Nutrition.ScaleByHundreds` | nutrition.js:41-45 | scaling by k × 100 g multiplies a tenths value by k exactly; at 100 g it is unchanged |
| `Nutrition.GetNutritionByQuery` | nutrition.js:7-52 | the method's result is `Resolve` of the key's presence and the search answer for the query; it sends exactly one search, for the query, when the key is set, and none without a key |
| `Nutrition.NoKeyGivesZeros` | nutrition.js:9-12 | without an API key the estimate is all zeros, whatever the search would have answered |
| `Nutrition.NoFoodGivesNull` | nutrition.js:15-20 | a thrown request or a missing or empty `foods` list gives null |
| `Nutrition.OnlyFirstFoodConsulted` | nutrition.js:22-23 | only `foods[0]` is consulted: responses that agree on it give the same, non-null, result |
| `Nutrition.UnmatchedMacroIsZero` | nutrition.js:23-39 | each of calories, protein, carbs and fat is 0 when no nutrient matches its terms; a food without `foodNutrients` gives all zeros |
| `Nutrition.ResolveScalesLinearly` | nutrition.js:41-47 | at 100 g the macros are the database's own values; at k × 100 g each one is k times those |
| `Text.ToLower` | nutrition.js:28 | `toLowerCase` keeps the length and lower-cases each character (ASCII letters) |
| `Text.ShowNatRoundTrip` | index.js:115-117 | a natural number renders as at least one digit, with no leading zero, and reads back as itself |
| `Text.ShowIntRoundTrip` | index.js:117 | a rounded total renders as an optionally signed integer that reads back as itself |
| `Text.ShowTenthsRoundTrip` | index.js:115 | an item amount renders as a number that reads back as its tenths, with a decimal point exactly when it is not whole |
| `ClassifyFood.NormalizeLabel` | classifyFood.js:34 | same length; no `_` remains; each `_` becomes one space and every other character is lower-cased |
| `ClassifyFood.NormalizeLabels` | classifyFood.js:34 | the normalised list has the classifier result's length and order |
| `ClassifyFood.NormalizeLabelIdempotent` | classifyFood.js:34 | normalising a label twice equals normalising it once |
| `ClassifyFood.NormalizeLabelsIdempotent` | classifyFood.js:34 | normalising a label list twice equals normalising it once |
| `ClassifyFood.Detected` | classifyFood.js:21-40 | any failure of load, resize or inference gives the empty list. Otherwise the labels are the normalised raw labels, in order and with no `_`. A classifier that honours `top_k` gives at most 5 |
| `ClassifyFood.ClassifierModule.constructor` | classifyFood.js:12 | the handle starts as null and the loader has not run |
| `ClassifyFood.ClassifierModule.LoadClassifier` | classifyFood.js:14-19 | once the handle is non-null it is returned without invoking the loader again. Otherwise the loader runs once and its result is stored. After a successful load the field is non-null and equals the returned handle |
| `ClassifyFood.ClassifierModule.DetectFood` | classifyFood.js:21-40 | loads as `LoadClassifier` does, and returns `Detected` of the load, the resize and the inference outcome |
| `ClassifyFood.LoadTwice` | classifyFood.js:14-19 | in two sequential loads where the first succeeds, the loader runs once and both return the same handle |

## Left out

- The Express server, routing, `GET /`, JSON body parsing and `app.listen`: HTTP plumbing. Only the decisions and status codes of the two webhook handlers are modelled.
- The Graph API and USDA requests, and `sendText`: they are parameters (their outcomes) and trace entries. `sendText` catches every error, so a send is an effect that never fails. Logging and `dotenv` are omitted.
- The filesystem: `mkdirSync`, the `Date.now()` file name, `writeFileSync` and `unlinkSync` become `TempFileWritten` and `TempFileDeleted` effects and two success flags. A write that fails after partly creating the file is not modelled.
- `sharp` resizing and `@xenova/transformers` inference are foreign libraries; their outcomes are parameters of `DetectFood`.
- Concurrency of the lazy load: two overlapping first calls can both reach the loader across its `await`. Only sequential loads are modelled.
- Floating point: amounts are integer tenths. Raw nutrient values with more than one decimal, binary rounding artefacts of `toFixed(1)` and float addition, and exponent notation in number-to-string conversion are not represented.
- Unicode: `toLowerCase` and `toUpperCase` are modelled on ASCII letters only (`Text.LowerChar`, `Text.UpperChar`). Characters are Unicode scalar values, not UTF-16 code units. The message texts are constants.
- JSON values of unexpected types are not modelled: a non-string `from`, `type`, image `id` or `nutrientName`, or a non-array `foods`. Fields are either present with the expected type or missing; in particular an image `id` of `null`, which would be rendered as "null", is treated like a missing one.
- HandlePost: the nutrition lookup is a function of the label, so looking up the same label twice gives the same answer. `detectFood` is represented by its result; its own behaviour is `ClassifyFood.ClassifierModule.DetectFood`.
