# Swipe-to-triage for Gmail drafts, modelled in Dafny

This project models the logic inside a small web application. The application shows the Gmail drafts that carry
a "Review" label as cards. A right swipe sends a draft. A left swipe flags it.

Three parts of the application are modelled:

- **The gateway** (`server/src/index.js`), in `server.dfy`, module `Server`. This covers:
  - the in-memory token set behind `requireAuth`, `/auth/status`, `/auth/logout` and the OAuth callback, as
    class `Gateway`;
  - the `/api/drafts` pipeline: find the review label, fetch every draft, keep the drafts that carry the label,
    and flatten each into a record (headers, body precedence, snippet);
  - the `/send` and `/flag` handlers, including the find-or-create of the "Flagged" label and the label-modify
    request.

  Gmail is never called. Each Gmail answer is an input of type `Fetch<T>`, where `ProviderFailed` is a rejected
  promise. Every handler returns its JSON response together with the Gmail calls it issued, in order. Base64
  decoding is the function parameter `decode`, and `drafts.get` is the function parameter `getDraft`.
- **The review queue** (`client/src/App.jsx`), in `app.dfy`, module `App`. Class `ReviewQueue` holds
  `isAuthenticated`, `drafts`, `currentIndex`, `actionInProgress`, the toast, and `pending` (the request a
  swipe is waiting on). `handleSwipe` is two steps, because the source awaits the request:
  - `Swipe` checks the guard, raises the in-flight flag and issues the call;
  - `Settle(succeeded)` is the continuation. It includes the 300 ms pause before the advance.

  The object invariant `Valid()` says:
  - the flag is up exactly while a request is outstanding;
  - `0 <= currentIndex <= |drafts|`, unless a logout has emptied the list.
- **The card** (`client/src/components/EmailCard.jsx`), in `email_card.dfy`, module `EmailCard`. This covers the
  ±100 release classification, `formatBody` (the global replace of `/<[^>]*>/g`, then the cut to 500 characters
  plus `...`), and the fallbacks shown for recipient, subject and body.

`builtins.dfy` (module `Builtins`) defines once the JavaScript built-ins the three parts share: `find` as a
position (`FindIndex`), `filter`, ASCII `toLowerCase`, and `||` on strings.

JavaScript truthiness is modelled explicitly wherever the code relies on it:

- Empty body data counts as absent. An empty top-level `body.data` therefore falls through to the parts.
- A review label whose id is `""` counts as no review label.
- `parts: []` is truthy, and it yields an empty body.
- A drafts answer without `drafts` (an error body) empties the client's list.

Behaviour worth knowing:

- `handleLogout` (`App.jsx:79-87`) clears `drafts` but does not reset `currentIndex`. After a logout from a
  non-zero position, the index is past the end of the empty list (`App.LogoutKeepsPosition`). So `Valid()`
  bounds the index by the list only while signed in. This is not visible, because the sign-in screen is shown
  while signed out.
- The client first sets `isAuthenticated` from the `?auth=success` marker (`App.jsx:20-47`). The status check,
  once it answers, overrides that value (`App.ReviewQueue.Mount`).

## Model

| member | source | states |
|---|---|---|
| `Builtins.FindIndex` | server/src/index.js:86 | `find` picks the first element satisfying the condition; none exists exactly when no element satisfies it |
| `Builtins.FilterSelects` | server/src/index.js:122-125 | `filter` keeps exactly the elements that satisfy the condition, in their original order: record k is the element at the k-th kept position, the positions increase, and a position is kept iff its element satisfies the condition |
| `Builtins.Or` | client/src/components/EmailCard.jsx:68 | the or-operator on strings is left-biased: a non-empty left operand is the result, an empty one yields the right operand; the result is empty only when both are |
| `Server.FindLabel` | server/src/index.js:86 | the first label whose lower-cased name equals the wanted name; none iff no label matches |
| `Server.ReviewLabelId` | server/src/index.js:83-88 | the id of the first label named "review" in any case; nothing iff there is no such label (an absent list counts as empty) |
| `Server.GetHeader` | server/src/index.js:129-130 | the value of the first header whose name matches case-insensitively; `""` when none matches |
| `Server.ChosenPart` | server/src/index.js:139-140 | the first text/plain part is chosen when there is one; only when no part is text/plain is the first text/html part chosen; none is chosen iff no part has either type |
| `Server.BodyPrecedence` | server/src/index.js:133-144 | body precedence: top-level data wins; else the first text/plain part, else the first text/html part; a chosen part without data gives `""` and a data-less text/plain part does not fall back to HTML |
| `Server.ExtractBody` | server/src/index.js:133-144 | the if/else assignment of `body` computes exactly the body that the precedence above defines |
| `Server.ListedDraftsAreReviewDrafts` | server/src/index.js:121-156 | one record per draft that carries the review label, in input order; record k is parsed from the k-th kept draft; missing label ids count as none |
| `Server.ParsedRecordFields` | server/src/index.js:146-155 | a record copies the draft id and message id and the snippet (`""` when absent); To, From, Subject and Date are each the value of the first header of that name in any case, or `""` when there is none; the body is the one `BodyText` chooses |
| `Server.FetchAll` | server/src/index.js:110-119 | fetching every draft succeeds iff each fetch succeeds, and then yields them in the listed order |
| `Server.DraftsRoute` | server/src/index.js:91-163 | with no resolvable review label the answer is an empty list with a non-empty message and only the label list is requested; once the label resolves, the label list, the draft list and one `drafts.get` per listed id are requested in that order; the answer is the 500 error iff one of those calls failed; when all succeed it is exactly the parsed review drafts with no message |
| `Server.SendRoute` | server/src/index.js:166-182 | one send call with the draft id; a successful call answers "Email sent successfully!", a failed one the 500 error |
| `Server.FlagRouteUsesOneFlaggedLabel` | server/src/index.js:185-228 | the "Flagged" label is created iff no label is named "flagged" in any case; the last call is the modify call iff both label lists and any creation succeeded; the modify call adds the first such label's id (or the created one's) and STARRED and removes the review label iff it resolves, else nothing; the answer is "Draft flagged for your review!" iff every call made succeeded, else the 500 error |
| `Server.FlagRouteCallLog` | server/src/index.js:185-228 | the exact call log of `/flag`: the label list, then the creation of "Flagged" when no label is named "flagged", then the label list again, then the modify call; it stops right after the first failed call and holds nothing else |
| `Server.Gateway.constructor` | server/src/index.js:24-25 | the server starts with no tokens |
| `Server.Gateway.CompleteLogin` | server/src/index.js:46-60 | a successful exchange stores the tokens (and hands them to the OAuth client) and redirects with success; a failed one changes nothing and redirects with error |
| `Server.Gateway.Status` | server/src/index.js:63-65 | authenticated iff tokens are stored |
| `Server.Gateway.Logout` | server/src/index.js:68-71 | logout clears the stored tokens |
| `Server.Gateway.RequireAuth` | server/src/index.js:74-80 | the request passes iff tokens are stored, and the OAuth client then holds them |
| `Server.Gateway.GetDrafts` | server/src/index.js:91 | without tokens the answer is 401 and no Gmail call is made; with tokens it is the drafts route |
| `Server.Gateway.Send` | server/src/index.js:166 | without tokens the answer is 401 and no Gmail call is made; with tokens it is the send route |
| `Server.Gateway.Flag` | server/src/index.js:185 | without tokens the answer is 401 and no Gmail call is made; with tokens it is the flag route |
| `Server.LogoutLocksTheApi` | server/src/index.js:68-80 | after a logout the drafts list answers 401 and issues no Gmail call |
| `EmailCard.ClassifyRelease` | client/src/components/EmailCard.jsx:17-31 | offset > 100 sends, offset < -100 flags, [-100, 100] returns to centre; the three cases are exclusive and exhaustive |
| `EmailCard.DragSwipe` | client/src/components/EmailCard.jsx:17-31 | a swipe is reported only from a draggable card released strictly beyond ±100; a disabled card reports none |
| `EmailCard.StripOnlyDeletes` | client/src/components/EmailCard.jsx:36 | stripping markup only deletes characters: the result is a subsequence of the input |
| `EmailCard.StripLeavesNoTag` | client/src/components/EmailCard.jsx:36 | after stripping, no `<` is followed anywhere later by `>` |
| `EmailCard.StripKeepsTagFree` | client/src/components/EmailCard.jsx:36 | text in which no `<` is followed by `>` is left unchanged |
| `EmailCard.StripFirstTag` | client/src/components/EmailCard.jsx:36 | a tag ends at the first `>` after its `<`: for text before the first `<` and a middle without `>`, stripping keeps the text before it, deletes the span through that `>` and goes on with the rest; with `StripKeepsTagFree` this fixes the result for every input |
| `EmailCard.StripIdempotent` | client/src/components/EmailCard.jsx:36 | stripping twice equals stripping once |
| `EmailCard.StripWithoutOpenAngle` | client/src/components/EmailCard.jsx:36 | text without `<` is left unchanged |
| `EmailCard.FormatBodyShape` | client/src/components/EmailCard.jsx:34-42 | stripped text of at most 500 characters is returned as is; longer text becomes its first 500 characters plus `...` (exactly 503); output is at most 503 long, starts with the stripped text's first min(500, length) characters, and has no markup left |
| `EmailCard.FormatBodyIdempotent` | client/src/components/EmailCard.jsx:34-42 | formatting an already formatted body changes nothing |
| `EmailCard.ShownRecipient` | client/src/components/EmailCard.jsx:68 | the recipient shown is the draft's when it has one, and exactly "No recipient" when it is empty |
| `EmailCard.ShownSubject` | client/src/components/EmailCard.jsx:71 | the subject shown is the draft's when it has one, and exactly "(No subject)" when it is empty |
| `EmailCard.ShownBodyFallbacks` | client/src/components/EmailCard.jsx:76 | the body shown is the formatted body; if empty, the formatted snippet; if both are empty, "No content" |
| `App.CallFor` | client/src/App.jsx:101-127 | a right swipe sends by draft id; any other swipe flags with the draft's message id |
| `App.ReviewQueue.Mount` | client/src/App.jsx:13-47 | the queue starts empty at position 0 with no action in flight; the status answer decides authentication, else the callback marker |
| `App.ReviewQueue.Screen` | client/src/App.jsx:152-191 | the sign-in screen iff signed out; otherwise the card at `currentIndex` while one is left, else the empty state |
| `App.ReviewQueue.RemainingCount` | client/src/App.jsx:156-157 | while signed in, `drafts.length - currentIndex >= 0`; it is 0 iff the empty state is shown |
| `App.ReviewQueue.CardDisabled` | client/src/App.jsx:180 | the card is disabled exactly while a request is outstanding, and a disabled card reports no swipe |
| `App.ReviewQueue.Swipe` | client/src/App.jsx:94-127 | while an action is in flight, or with no card left, nothing changes and no call is made; otherwise the in-flight flag is raised and exactly one call for the current draft is issued |
| `App.ReviewQueue.Settle` | client/src/App.jsx:129-138 | success advances `currentIndex` by exactly one with the confirmation toast; failure keeps it with the error toast; the flag comes down either way; the invariant is kept |
| `App.ReviewQueue.FetchDrafts` | client/src/App.jsx:49-66 | an answer replaces the list (with `[]` when it has none) and resets the position to 0, with an info toast for a message; a failed fetch only shows the error toast |
| `App.ReviewQueue.Logout` | client/src/App.jsx:79-87 | a confirmed logout signs out and empties the list, keeping the position; otherwise nothing changes |
| `App.SendTheOnlyDraft` | client/src/App.jsx:94-138 | a right swipe on the only draft sends it by id; a second swipe while it is outstanding returns no call; after success the empty state is shown |
| `App.LogoutKeepsPosition` | client/src/App.jsx:79-87 | after a confirmed swipe and a logout, the position is 1 and the list is empty; the sign-in screen is shown |

## Left out

- The consent URL of `/auth/google` (`server/src/index.js:28-43`) is not modelled: it is built by the OAuth library.
- The token exchange and every Gmail REST call are not executed. Their answers are inputs.
- Base64 decoding is not modelled. It is the uninterpreted parameter `decode`.
- The `Promise.all` fan-out is modelled only by its combined result (`FetchAll`), with every `drafts.get` listed as issued.
- Races between concurrent requests on `userTokens` are not modelled. Neither is the racy find-or-create of the "Flagged" label.
- Express wiring, CORS, dotenv, `app.listen` and logging are left out. `Server.Gateway.Logout` does not return the constant `{success: true}`.
- Label and header objects without a `name` would make the handler throw (a 500). They are not modelled, because Gmail always supplies names.
- `Builtins.Lower` maps only the ASCII letters A-Z. JavaScript's `toLowerCase` also maps other letters. For the names compared here ("review", "flagged", "to", "from", "subject", "date"), no non-ASCII character lower-cases to one of their letters, so the outcome of each comparison is the same.
- Strings are sequences of Unicode characters. JavaScript's `length` and `substring` in `formatBody` count UTF-16 code units, so text with characters outside the Basic Multilingual Plane is cut at a different place.
- `App.ReviewQueue.FetchDrafts` requires that no swipe is outstanding. In the source, a refresh can arrive while a request is in flight. A later success would then advance past the first draft of the new list, or past the end of an empty one. That is concurrency and is not modelled.
- The `loading` flag and its screens are not modelled: every step is atomic, so the flag is always false between steps.
- Toast expiry (3 s), the 300 ms pause before the advance and the 200 ms delay before the card reports a swipe are timing, and are left out. The 300 ms pause is folded into `Settle`.
- `handleLogin`, `window.location`, `window.history` and the effect that fetches drafts when sign-in changes are left out. The caller issues `FetchDrafts`.
- Release offsets are real numbers. NaN and infinite offsets are not modelled.
- The framer-motion values, the rotate and opacity interpolation, and the spring animation are not modelled.
- `Header.jsx`, `Toast.jsx`, `EmptyState.jsx` and `ActionButtons.jsx` only render. The buttons call `handleSwipe('right')` and `handleSwipe('left')`, which `Swipe` covers.
