# Chatwoot wrapper: scheduled dispatch, create endpoints and panel injector

This project models the core of a small service that sits beside a Chatwoot
helpdesk. Operators queue outbound messages and follow-up reminders for a
conversation, and a worker delivers the queued messages once they are due.

- **Dispatcher** (`Worker`, src/worker.ts).
  - One cycle reads the clock once and selects every PENDING message whose
    `scheduledAt` is not later than that time.
  - For each selected message it POSTs the content as an outgoing, public
    message. The target is the messages endpoint of the conversation, on the
    tenant's Chatwoot instance. The request carries the tenant's access token.
  - The row becomes SENT, with its diagnostic cleared, when the endpoint
    answers 2xx and that update goes through.
  - Any other ending marks the row FAILED, with the first 1000 characters of
    the error message (counted as code points; see "Left out"). That covers a missing tenant, a transport exception, a
    non-2xx answer (`Chatwoot API Error: <status> - <body>`) and a failed SENT
    update.
  - If the FAILED update throws as well, the exception leaves the loop and
    ends the cycle.
  - `startWorker` awaits one cycle. If that cycle did not throw, it starts an
    interval that runs one cycle per tick and logs what a cycle throws.
- **Create and list endpoints.**
  - `POST /api/schedule` (`ScheduleRoute`) and `POST /api/followup`
    (`FollowUpRoute`) check the required fields and return 400 when one is
    missing.
  - Both upsert the tenant keyed by its Chatwoot URL. The token and the
    account id are replaced, or a new tenant is created.
  - They then create a PENDING row and return 201. Any exception gives 500.
  - `GET /api/followup?conversationId=` returns the follow-ups of a
    conversation in ascending due order. It gives 400 without the parameter
    and 500 when the query throws.
- **Browser injector** (`Injector`, public/injector.js).
  - The session-cookie scan takes the first `cw_d_session_info` cookie whose
    value decodes.
  - The conversation id is read from the address (`/conversations/<digits>`).
  - The account id follows a fallback chain: first listed account, then
    `account_id`, then 1.
  - The panel address is built with its query string.
  - The sidebar entry is inserted before the first "settings" item, or else
    before the last item. Adding it twice changes nothing.

The store is a `Database` class whose tables are maps from row id to row
(`Store`). Everything outside the process is a parameter:

| Parameter | Stands for |
|---|---|
| `now` | the clock |
| `http` | `fetch`: a request in, a response or an exception out |
| `faults` | which store updates throw |
| `WriteFaults` | which create-endpoint store calls throw |
| `decode` | `JSON.parse(decodeURIComponent(...))` |
| `fetchProfile` | the profile request |
| `encode` | the form-urlencoded serializer of `URLSearchParams` |

`Text` and `Decimal` hold the JavaScript string operations the model relies
on and the decimal rendering of integers.

Three facts about the code shape the model:
- the worker sends a JSON body, and never an attachment or a multipart body;
- it sends no client or uid header;
- the interval does not wait for a running cycle to finish.

## Model

| member | source | states |
|---|---|---|
| Worker.FindDue | src/worker.ts:8-18 | The selection holds each message at most once, and holds exactly the messages that are PENDING with `scheduledAt <= now`. |
| Worker.ProcessScheduledMessages | src/worker.ts:4-73 | **Selection:** every due PENDING message, each once. **Progress:** the cycle handles them in order and ends early only at the one message whose FAILED update threw. The error it then reports is that update's exception. **Result:** the table equals the snapshot with each handled message settled by its own handling, and the requests sent are those of the handled messages, in order. **Rows:** the row set, content, time, conversation and tenant of every message are kept, and no row that was terminal or not yet due changes. **Completion:** a completed cycle leaves nothing due. **Unchanged:** tenants, follow-ups and ids; the store invariant is preserved. |
| Worker.SendSelected | src/worker.ts:24-72 | The `for` loop: handling the selected messages in turn against the queried snapshot, the table ends as the snapshot settled by the handled ones. The requests are theirs, in order, and the loop stops exactly after the first message whose FAILED update threw. |
| Worker.BuildRequest | src/worker.ts:32-45 | The request for a message: a POST to the tenant's messages endpoint for the message's conversation, with the token and JSON headers and the three-field body. Its properties are stated by `Worker.RequestTargetsOwnConversation`. |
| Worker.TryDeliver | src/worker.ts:25-56 | The `try` block: no request and the null-tenant error without a tenant; otherwise the request, and as error the transport exception, the API error text of a non-2xx answer, or the SENT update's exception. Its outcomes are stated by `Worker.HandleOutcome`. |
| Worker.ApiErrorText | src/worker.ts:49 | `Chatwoot API Error: <status> - <body>`. `Worker.ApiErrorRoundTrip` proves that status and body read back from it. |
| Worker.HandleMessage | src/worker.ts:24-71 | **Store:** one loop iteration changes only the handled row, to SENT, to FAILED, or not at all. **Request:** it posts the request `Handle` computes. **Escape:** an exception escapes exactly when the FAILED update throws. |
| Worker.Handle | src/worker.ts:25-71 | A request is posted exactly when the message's tenant exists, and it is the tenant's request for that message. Every FAILED diagnostic has at most 1000 characters. |
| Worker.HandleOutcome | src/worker.ts:47-70 | **SENT:** exactly when the tenant exists, the endpoint answers 2xx and the SENT update succeeds. **Escape:** exactly when the message is not SENT and the FAILED update throws; the escaping error is that update's exception. **Otherwise FAILED** with the truncated message of what was thrown: the missing-tenant error, the transport exception, the `Chatwoot API Error` text of a non-2xx answer, or the exception of the SENT update after a 2xx answer. |
| Worker.RequestTargetsOwnConversation | src/worker.ts:32-45 | **Method and URL:** a POST whose URL starts with the tenant's Chatwoot URL. The rest of the URL reads back as the tenant's account id and the message's conversation id. **Headers:** the tenant token and a JSON content type, and no other header (no client or uid header). **Body:** the message content, type "outgoing", not private. |
| Worker.MessagesPathRoundTrip | src/worker.ts:32 | The path `/api/v1/accounts/<a>/conversations/<c>/messages` reads back as `(a, c)`, for any integers. |
| Worker.ConversationPathRoundTrip | src/worker.ts:32 | The conversation part of the path reads back as its conversation id. |
| Worker.ApiErrorRoundTrip | src/worker.ts:49 | The status and the body of a non-ok response can both be read back from the error message thrown for it. |
| Worker.NonOkDiagnostic | src/worker.ts:47-68 | The diagnostic stored for a non-ok response starts with `Chatwoot API Error: `. When the message fits in 1000 characters, the status and the body read back from it. |
| Worker.ErrorLogOf | src/worker.ts:68 | The diagnostic has at most 1000 characters and is a prefix of the message. A message of up to 1000 characters is kept whole; a longer one is cut to exactly 1000. |
| Worker.SettledAt | src/worker.ts:24-71 | After a sequence of handled messages, each handled row holds what its own handling wrote, whatever the others did. Every other row is as in the snapshot, and the set of rows is the same. |
| Worker.SettledChangesOnlyHandledRows | src/worker.ts:8-70 | A cycle changes only status and diagnostic. It leaves rows that are not PENDING or not yet due untouched, and keeps diagnostics well formed: present only on FAILED rows, and at most 1000 characters. |
| Worker.CompletedCycleLeavesNothingDue | src/worker.ts:8-70 | After a cycle that handled every due message without an escape, no row is PENDING and due at that time. |
| Worker.StartWorker | src/worker.ts:75-90 | **Interval:** it starts exactly when the first cycle did not throw. **Environment:** each tick brings its own time, HTTP replies and store failures. **Ticks:** one cycle result per tick once the interval runs, none otherwise. **Exceptions:** a cycle that throws, first or on a tick, throws the failure of its own FAILED update. **Rows:** no SENT or FAILED row is ever changed, and rows keep their content, time, conversation and tenant. **Store invariant:** preserved. |
| Store.Database.UpsertTenant | src/app/api/schedule/route.ts:30-41 | The tenant with the URL, or a new one when none has it, now holds the token and account id. Other tenants are unchanged, URLs stay unique, and messages and follow-ups are unchanged. |
| Store.Database.CreateMessage | src/app/api/schedule/route.ts:44-52 | A fresh id is bound to a PENDING row without diagnostic, holding the given content, time, conversation and tenant. Nothing else changes. |
| Store.Database.CreateFollowUp | src/app/api/followup/route.ts:27-35 | A fresh id is bound to a follow-up with status "PENDING", holding the given note, time, conversation and tenant. Nothing else changes. |
| Store.Database.UpdateMessage | src/worker.ts:53-56 | Only the status and diagnostic of the given row change. |
| ScheduleRoute.HasRequiredFields | src/app/api/schedule/route.ts:19 | The required fields `message`, `scheduledAt`, `conversationId`, `chatwootUrl` and `token` are truthy; `accountId` is not required. |
| ScheduleRoute.Post | src/app/api/schedule/route.ts:5-69 | **400:** exactly when the body parses and a required field is falsy. **201:** exactly when the fields are present and neither store call throws. **Before the upsert:** an unparsable body, a 400 or a throwing upsert changes nothing. **After the upsert:** the tenant is upserted even when the create then fails. **Created row:** fresh, PENDING, with the payload's content, time and conversation and the upserted tenant. **Store:** follow-ups are untouched and the invariant is preserved. |
| FollowUpRoute.HasRequiredFields | src/app/api/followup/route.ts:16 | The required fields `note`, `scheduledAt`, `conversationId`, `chatwootUrl` and `token` are truthy; `accountId` is not required. |
| FollowUpRoute.Post | src/app/api/followup/route.ts:4-42 | Like the schedule endpoint, for a follow-up row with status "PENDING" and the payload's note. Scheduled messages are untouched. |
| FollowUpRoute.Get | src/app/api/followup/route.ts:44-63 | **400:** exactly without the parameter. **500:** exactly when the query throws. **Otherwise:** exactly the follow-ups of that conversation, each once, in ascending due order. |
| FollowUpRoute.InsertByDue | src/app/api/followup/route.ts:53-56 | Inserting a row into the listing adds exactly that row: the result is a permutation of the rows plus the new one. |
| FollowUpRoute.InsertByDueSorted | src/app/api/followup/route.ts:55 | Inserting into a listing in ascending due order keeps it in ascending due order. |
| FollowUpRoute.InsertByDueKeepsIdsDistinct | src/app/api/followup/route.ts:53-56 | Inserting a row whose id is not yet listed keeps the ids distinct. |
| Injector.GetAuthFromCookie | public/injector.js:61-80 | **Found:** the credentials of the first `;`-separated cookie whose trimmed form starts with `cw_d_session_info=` and whose value decodes. A session cookie that fails to decode is skipped. **Not found:** null when no cookie yields a session. |
| Injector.SessionIn | public/injector.js:64-68 | One cookie yields a session only when its trimmed form starts with `cw_d_session_info=`, and the session is then the decoding of the value after that name. |
| Injector.NoSessionCookie | public/injector.js:62-79 | Without any session cookie, the scan yields no credentials. |
| Injector.CookieAuthFound | public/injector.js:63-73 | The first cookie that yields a session determines the credentials. |
| Injector.FirstMatch | public/injector.js:85 | The leftmost position where `/conversations/` is followed by a digit, or none when there is no such position. |
| Injector.ConversationIdFromPath | public/injector.js:84-87 | null exactly when the pattern matches nowhere in the path. |
| Injector.ConversationIdRoundTrip | public/injector.js:84-87 | A path whose first `/conversations/` is followed by any run of decimal digits (leading zeros allowed), then by a non-digit or nothing, yields that run's decimal value. |
| Injector.ConversationIdOfCanonicalDigits | public/injector.js:84-87 | A path with no `/conversations/` before the one followed by the canonical digits of `n` yields `n`. |
| Worker.AbortsFromFailedUpdatesNext | src/worker.ts:82-87 | Appending a cycle result whose exception, if any, is its own tick's FAILED-update failure keeps every tick's result explained by that tick. |
| Injector.AccountIdFrom | public/injector.js:126-146 | **Default 1:** when the fetch throws, the answer is not ok, or the body cannot be read. **Otherwise:** the first listed account's id; else a truthy `account_id`; else 1. |
| Injector.AccountIdProvenance | public/injector.js:126-146 | The chosen account id is 1 or an id the profile named. |
| Injector.ProfileRequestFor | public/injector.js:128-134 | The profile request: `{BASE_URL}/api/v1/profile` with the session's token, client and uid as headers, an absent field sent as `undefined`. |
| Injector.Param | public/injector.js:151-161 | Reading a query parameter gives the value of the first pair with that name, and null exactly when no pair has it. |
| Injector.QueryParam | public/injector.js:151-161 | **Fields:** the panel query gives back the token, account id, client, uid and origin, each under its own name. **Conversation:** under `conversationId`, exactly when one was appended. **Other names:** nothing. |
| Injector.QueryPairs | public/injector.js:151-161 | The query pairs in insertion order: token, accountId, client, uid, chatwootUrl, then conversationId only when given. `Injector.QueryParam` states what reads back from them. |
| Injector.PanelQuery | public/injector.js:151-161 | The query of `openPanel`: the session fields (absent ones as `undefined`), the account id in decimal, the page origin and the conversation parameter. |
| Injector.ConversationParam | public/injector.js:159-161 | The conversation id is appended exactly when it is present and non-zero, and its text reads back as the id. |
| Injector.SerializeSplits | public/injector.js:163 | With an encoder that escapes `&`, the serialized query splits back into the encoded `name=value` pairs, in order. |
| Injector.PanelUrlReadBack | public/injector.js:163 | Splitting the panel address at its first `?` gives the page address (base URL, `/`, page) and the serialized query; with an encoder that escapes `&`, that query splits back into the encoded pairs. |
| Injector.OpenPanel | public/injector.js:114-163 | **Credentials:** those of the cookie scan. **No session:** no address. **Otherwise:** the address of the panel page. Its query carries the session fields, the account id chosen from the profile fetched with the session's headers, the page origin, and the conversation id from the path when it is present and non-zero. |
| Injector.FindReferenceIndex | public/injector.js:197-205 | **Empty nav:** no reference. **Otherwise:** the first item whose lower-cased text contains `configura` or `settings`; without one, the last item. |
| Injector.Sidebar.AddSidebarItem | public/injector.js:189-242 | **No nav:** false. **Entry already present:** true, and nothing changes. **Empty nav:** it throws. **Otherwise:** the entry is inserted immediately before the reference item and true is returned. **Idempotence:** after true, the entry is present, so a second call changes nothing. |
| Text.Split | public/injector.js:62 | Splitting yields at least one piece, and no piece contains the separator. |
| Text.JoinSplit | public/injector.js:62 | Joining the pieces of a split with the separator gives back the original string. |
| Text.SplitJoin | public/injector.js:163 | Splitting the join of separator-free pieces gives back the pieces. |
| Text.Trim | public/injector.js:64 | The result is a contiguous piece of the input with only JavaScript whitespace cut off on either side, and neither of its ends is whitespace. |
| Text.AfterPrefix | public/injector.js:65-67 | The rest after the prefix exists exactly when the string starts with it, and the prefix followed by the rest is the string. |
| Text.SplitAtFirst | public/injector.js:163 | None exactly when the separator is absent; otherwise a separator-free head, the separator and the tail make up the string. |
| Text.AsciiLower | public/injector.js:200 | The result has the input's length; capitals A-Z are lowered and every other character is kept. |
| Decimal.IntToString | src/worker.ts:32 | The `${n}` rendering of an integer: a minus sign for a negative one, then its digits. `Decimal.ReadIntOfIntToString` proves it reads back. |
| Decimal.ReadIntOfIntToString | src/worker.ts:32 | An integer printed in decimal, followed by a non-digit or nothing, reads back as that integer and the text after it. |
| Decimal.DigitRunLength | public/injector.js:85 | The maximal run of digits at the front of a string (`\d+`). |

## Left out

- Worker.ErrorLogOf: lengths are counted in Unicode code points, while `slice(0, 1000)` counts UTF-16 code units. A message with characters outside the Basic Multilingual Plane (emoji, say) is cut later than in the source, up to 2000 code units. A cut through a surrogate pair cannot be represented, since Dafny characters are code points. The same holds for the 1000 bound in `WellFormedLog`, `Worker.Handle` and the lemmas that use it.

- Timer and clock: the 60-second `setInterval` and `new Date()` are not modelled. A cycle takes its time as a parameter, and a run is a finite sequence of ticks.
- Overlapping cycles: the model runs cycles one after the other. If one cycle outlasted the 60-second interval, the source could run the next beside it.
- Throwing query: the `findMany` of a cycle throwing is not modelled. The rejected promise would end that cycle before any row is handled.
- Store internals: Prisma's connection, SQL and transactions are not modelled. Each store call is one atomic map update, or throws as its parameter says.
- Concurrent upserts from two requests are not modelled.
- Logging: every `console.log` and `console.error` is left out, since none affects state.
- JSON bodies: the serialization of the worker's body and the JSON replies of the endpoints are not modelled. The worker's body is the record of its three fields.
- Worker.ProcessScheduledMessages: a null `tenant` relation is modelled as a tenant id with no row in the tenant table. The Prisma schema is not part of this model, so whether such a row can exist is not decided here.
- ScheduleRoute.Post: the payload is taken after JavaScript coercion. Truthiness is modelled as "" or None. `new Date(...)` and `Number(...)` are taken as already applied, so an invalid date and `NaN` are not modelled.
- FollowUpRoute.Post: the same coercion simplification as ScheduleRoute.Post.
- FollowUpRoute.Get: a non-numeric `conversationId` (where `Number` gives NaN) is not modelled. Rows with equal due times are listed in some order, since Prisma does not fix one; the model proves sortedness and membership, not a particular tie order.
- Injector.GetAuthFromCookie: `JSON.parse` and `decodeURIComponent` are the injected `decode`. A session field that is present but not a string is rendered as absent.
- Injector.ConversationIdFromPath: `parseInt` is exact on unbounded integers. The loss of precision above 2^53 is not modelled.
- Injector.AccountIdFrom: ids are integers. An `accounts[0]` without an `id`, where `accountId.toString()` would throw, is not modelled. A non-array `accounts` value is not modelled either.
- Injector.PanelUrl: the percent-encoding of `URLSearchParams` is the injected `encode`, so only its structure (`name=value` joined by `&`) is stated.
- Injector.Sidebar.AddSidebarItem: the DOM is reduced to the nav's items, their text and the document's ids. The new item's text is its label, without the surrounding whitespace and the icon. Copying of class names, the icon, the click handler and `findMainNav`'s selectors are not modelled.
- Panel display: `createPanel`, `closePanel`, the iframe `src` comparison, the CSS, `createHeaderButton`, the MutationObserver and the retrying `init` are DOM effects without logic to verify.
- Other endpoints: the `[id]` routes of messages and follow-ups and the page components are not part of this model.
- Attachments: multipart delivery does not appear in the dispatcher's code, so it is not modelled.
