# Ascenda Lift LINE bot: reply routing

A model of the reply-routing core of the Ascenda Lift LINE webhook
(`index.js`). Each inbound event of a webhook delivery is handled on its own:

1. an event that is not a text message gets no reply and raises no error;
2. a text whose trimmed form matches the installation/sizing pattern
   `/(install|ติดตั้ง|cut[-\s]?out|hatch|gate|mezzanine|void|size|opening)/i`
   is escalated with two fixed Thai messages, at any hour;
3. otherwise, from 09:00 up to 18:00 Bangkok time on any day but Sunday, the
   user is told that staff will answer, in one fixed message;
4. otherwise the reply is the first choice returned by the completion API.

The delivery is answered 200 when every event was handled and 500 when any
of them rejected.

The model is made of pure functions and lemmas, because the source is a chain
of guarded returns:

- `wrappers.dfy` holds the `Option` and `Result` values.
- `text.dfy` (`JsText`) holds JavaScript white space and `String.prototype.trim`.
- `keywords.dfy` (`Keywords`) holds the pattern as an explicit case-insensitive
  substring search.
- `schedule.dfy` (`Schedule`) holds the working-hours rule.
- `router.dfy` (`Router`) holds `handleEvent`.
- `webhook.dfy` (`Webhook`) holds the `/webhook` route over a whole delivery.

The clock reading is an input. It is the local day of the week (0 = Sunday)
and the hour, read separately for each event. The completion API is an input
too: a function from the request (the trimmed user text) to either a list of
choices or a rejected call. This lets the lemmas say when the API is asked and
about what.

Modelling notes:

- `\s` and `trim()` use the same set of characters, JavaScript's WhiteSpace
  and LineTerminator code points. `JsText.IsSpace` lists them.
- The `i` flag without `u` compares upper-cased characters, but it refuses to
  map a non-ASCII character onto an ASCII one. So a letter of the pattern
  matches exactly its two ASCII case forms, and Thai has no case. Folding only
  `A`–`Z` is therefore exact for this pattern.
- JavaScript strings are UTF-16. Every character of the pattern and every
  white-space character lies in the Basic Multilingual Plane, so reading the
  text as code points gives the same matches.
- The `cut[-\s]?out` alternative accepts `cutout`, `cut-out`, and `cut`
  followed by any single white-space character and then `out` (a tab or a
  no-break space as well as a space). It is wider than the two spellings
  `cut-out` and `cut out` alone.
- There are no word boundaries, so `navigate`, `avoid` and `installment`
  escalate. The model keeps this (`Keywords.InsideWordExamples`).

## Model

| member | source | states |
|---|---|---|
| JsText.Trim | index.js:61 | the result is `s[lo..hi]`, where everything outside is white space and the kept part neither starts nor ends with white space |
| JsText.TrimmedAtUnique | index.js:61 | these bounds determine the trimmed text uniquely |
| JsText.TrimIdempotent | index.js:61 | trimming twice gives the same text as trimming once |
| JsText.FoldedComparison | index.js:46 | under the `i` flag a lower-case pattern letter matches exactly its two ASCII case forms, any other pattern character matches only itself, and folding is idempotent |
| JsText.SameUpToCaseKeepsClass | index.js:46 | case folding never turns a character into, or out of, white space or `-` |
| Keywords.FirstMatch | index.js:46 | the left-to-right search returns the first position where some alternative matches, or reports that no position matches |
| Keywords.Matches | index.js:46 | `installRegex.test` is true iff some alternative matches at some position (`ContainsTrigger`) |
| Keywords.EveryTermTriggers | index.js:46 | each plain alternative, on its own, matches |
| Keywords.CutOutVariantsTrigger | index.js:46 | `cutout`, and `cut` + `-` or any single white-space character + `out`, match |
| Keywords.LongSeparatorDoesNotMatch | index.js:46 | two separator characters between `cut` and `out` defeat the `cut[-\s]?out` alternative |
| Keywords.TriggerInContext | index.js:46 | a text that matches still matches with anything put before or after it |
| Keywords.InsideWordExamples | index.js:46 | `navigate`, `avoid` and `installment` match, because the pattern has no word boundaries |
| Keywords.TriggerIgnoresCase | index.js:46 | texts equal up to ASCII case either both match or both do not |
| Keywords.MixedCaseExamples | index.js:46 | `INSTALL`, `Hatch` and `GaTe` match |
| Keywords.TrimKeepsTrigger | index.js:61-64 | the trimmed text matches iff the raw text does, because every alternative starts and ends with a non-space character |
| Keywords.TriggerAtInitial | index.js:46 | a match starts at a character folding to one of `iตhgmvsoc`; as proof aids for concrete texts: only `cut…out` starts with `c`, and only the seven-letter `opening` starts with `o` |
| Keywords.NoInitialNoTrigger | index.js:46 | a text with none of those initial characters never matches |
| Keywords.NonTriggerExamples | index.js:46 | `cut--out` and the Thai greeting `สวัสดี` do not match |
| Schedule.WindowEdges | index.js:41-44 | Monday 09 is inside and 08 outside, Saturday 17 is inside and 18 outside, Sunday is outside at every hour |
| Schedule.OpenHoursBeforeCount | index.js:43 | (sanity check of the window) of the hours before `n`, the working ones are none on Sunday and otherwise the part of [9, 18) below `n` |
| Schedule.WeeklyOpenHours | index.js:43 | (sanity check of the window) nine working hours on each day but Sunday, fifty-four a week |
| Router.ChooseStrategy | index.js:63-79 | Escalate iff the text matches; Handoff iff it does not match and it is working hours; ModelFallback iff neither |
| Router.HandleEvent | index.js:58-94 | a reply goes only to an actionable event and carries its reply token; `MissingMessage` iff a message event lacks its message; no reply and no error iff the event is not actionable and well formed |
| Router.NonTextIgnored | index.js:59 | a non-message event, or a message that is not text, gives `Success(None)` |
| Router.EscalationIgnoresClock | index.js:63-69 | a text containing a trigger, trimmed or not, gets the two escalation messages whatever the clock and the completion API |
| Router.HandoffInWorkingHours | index.js:71-77 | a text with no trigger, in working hours, gets exactly the one hand-off message |
| Router.FallbackOutsideWorkingHours | index.js:79-93 | a text with no trigger, outside working hours, gets the first choice of the completion for the trimmed text; a rejected call or an empty choice list fails the event |
| Router.NoCompletionUnlessFallback | index.js:63-77 | unless the strategy is ModelFallback, the outcome does not depend on the completion API at all, so it is not called |
| Router.CompletionSeesOnlyUserText | index.js:80-88 | the outcome depends on the completion API only through its answer to the one request that carries the trimmed user text |
| Router.ReplySize | index.js:64-93 | a reply holds two messages when escalated and one otherwise |
| Router.EscalationExamples | index.js:63-69 | `ติดตั้ง` on Wednesday at 03:00 and `GaTe` on Sunday at noon are escalated |
| Router.GreetingExamples | index.js:71-79 | a greeting is handed off on Wednesday at 10:00, and goes to the model on Sunday at 12:00 and on Wednesday at 20:00 |
| Router.CutOutExamples | index.js:63-79 | `cut out` escalates; `cut--out` at Monday 18:00 goes to the model |
| Webhook.Deliver | index.js:48-56 | the status is 200 or 500, and 200 iff every event was handled successfully; every reply sent is the successful reply of some event of the delivery, and every successful event's reply is sent, even when the status is 500 |
| Webhook.RepliesAccountForActionable | index.js:50 | replies sent plus failed actionable events equal the actionable events |
| Webhook.SuccessfulDeliveryRepliesToEach | index.js:49-51 | when the status is 200, exactly one reply goes to each actionable event, in order, with that event's reply token |
| Webhook.OneFailureFailsDelivery | index.js:49-55 | one failing event, at any position, makes the status 500 |
| Webhook.QuietDelivery | index.js:50-51 | a delivery with no actionable and no malformed event sends nothing and is answered 200 |

## Left out

- Startup is not modelled: loading `.env`, the credential guards that call `process.exit`, and console logging (index.js:1-23, 53). These are process start-up and I/O.
- The Express app, route registration, `app.listen` and the default port 3000 are not modelled (index.js:27, 48, 96-97). These are HTTP plumbing.
- `line.middleware` signature checking and `client.replyMessage` delivery are not modelled. They are calls into the LINE SDK. A reply is returned as a `Router.Reply` value, and a failed or rejected delivery is not modelled.
- The completion call's model name, `SYSTEM_PROMPT`, `temperature` and `max_tokens` are not modelled (index.js:29-39, 80-88). They are fixed settings of a network call, and the temperature is floating point. A completion whose first choice has `null` content is not distinguished from one with text.
- The `moment().tz('Asia/Bangkok')` clock reading is not modelled. The local day and hour are inputs.
- `Promise.all` concurrency is not modelled. Events are handled one after another. The model keeps every successful reply, because a rejection does not cancel sibling events, but it does not capture the order in which replies actually leave.
- The pattern is not run by a general regular-expression engine. Only this fixed pattern is modelled, as substring checks.
- `Router.HandleEvent` assumes that a text message always carries its `text` field. The case where it is missing, which would make `trim()` throw, is not modelled.
