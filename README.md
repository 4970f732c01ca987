# ConvoSense chat core, modelled in Dafny

ConvoSense is a multilingual chat. Each participant picks a language. Every
message is analysed for sentiment and translated into the languages of the
other participants. Each viewer then sees either the original text or the
translation into their own language, with explanations of context, tone and
formality.

This project models four pieces of that logic and proves properties about them:

- **The in-memory chat state** (`chat_session.dfy`, class `ChatSession.Session`).
  It holds the roster of users, the current user, the `chatStarted` flag, the
  append-only message list and the `isSending` flag. Its operations are
  `addUser`, `setCurrentUser`, `startChat` and `sendMessage`. `sendMessage`
  checks the text, asks the sentiment flow, then loops over the other users
  and fills a translations record keyed by language. A failed translation is
  skipped. On success one message is appended; if sentiment fails, an error
  toast is produced instead.
- **The language registry** (`languages.dfy`): the table of ten code/label
  pairs and `getLanguageLabel`, which falls back to "Unknown".
- **The translation preview dialog** (`translation_preview.dfy`): the
  `targetLanguages` expression (filter, map, then keep first occurrences),
  the render guard and the accordion that skips languages without a
  translation.
- **The message bubble** (`message_bubble.dfy`): what a viewer sees. It
  chooses between the original and the translated text, which half of each
  bilingual explanation to show, the sentiment icon with its fallback, and
  when the details toggle and panel appear.

Supporting modules:

- `wrappers.dfy`: `Option` and `Result`.
- `types.dfy`: the records of `src/lib/types.ts`.
- `js_strings.dfy`: the JavaScript built-ins the provider uses. These are
  `trim` (ECMAScript WhiteSpace and LineTerminator code points), `toLowerCase`
  and decimal rendering of a number in a template literal.
- `ai_services.dfy`: the two AI flows as seen by their callers.

The AI services, the clock and the UI toggle are inputs of the model:

- `sendMessage` takes the sentiment flow's answer (`Ok` or `Err`) as a parameter.
- The translation prompt is an oracle, a function from the request's ordinal
  within the send and the request itself to `Ok(detail)` or `Err`. Any pattern
  of answers and failures is some oracle.
- The translation flow wraps that oracle and forces the attribution
  "ConvoSense" on what the prompt returns (`AiServices.TranslateFlow`).
- The clock reading behind `Date.now()` is a parameter `now`.
- The bubble's `isDetailsOpen` state is a parameter `detailsOpen`.

`SendMessage` also returns the log of AI requests it made (`AiCall`). Each
entry records the value of `isSending` while that request was pending. This
makes "no AI call when the guard fails" and "every AI call is made while
`isSending` is true" statable.

Each file is modelled against the data shape it actually uses. The provider
stores `{text, source}` per language (`ChatSession.StoredTranslation`), not
the full `TranslationDetail` that `src/lib/types.ts` declares. The bubble
reads `sender.uid` and an optional `senderLanguage`
(`MessageBubble.BubbleMessage`), which `src/lib/types.ts` does not declare.

## Model

| member | source | states |
|---|---|---|
| Languages.TableWellFormed | src/lib/languages.ts:1-12 | the table has ten rows; their codes are pairwise distinct; every label is non-empty and differs from "Unknown" |
| Languages.Find | src/lib/languages.ts:15 | a found row is in the table and carries the code; nothing is found exactly when no row carries the code |
| Languages.FindReturnsFirst | src/lib/languages.ts:15 | the lookup returns the row at the first index carrying the code |
| Languages.GetLanguageLabel | src/lib/languages.ts:14-15 | the label is never empty, and a label other than "Unknown" is the label of the table row carrying the code (the full range is in `LabelRange`) |
| Languages.LabelRange | src/lib/languages.ts:1-15 | the label is never empty; it is one of the table's labels or "Unknown"; it is "Unknown" exactly for codes outside the table |
| Languages.LabelOfKnownCode | src/lib/languages.ts:14-15 | every code of the table is labelled with its own row's label |
| Languages.LabelOfUnknownCode | src/lib/languages.ts:15 | any code outside the table is labelled "Unknown" |
| JsStrings.TrimStartSpec | src/contexts/global-talk-provider.tsx:48 | the leading part that is dropped is all whitespace; what is kept is a suffix of the input that does not start with whitespace |
| JsStrings.TrimEndSpec | src/contexts/global-talk-provider.tsx:48 | the trailing part that is dropped is all whitespace; what is kept is a prefix of the input that does not end with whitespace |
| JsStrings.Trim | src/contexts/global-talk-provider.tsx:48 | `text.trim()` drops leading and trailing whitespace; no contract of its own, its properties are those of `TrimStartSpec`, `TrimEndSpec` and `TrimEmptyIffBlank` |
| JsStrings.TrimEmptyIffBlank | src/contexts/global-talk-provider.tsx:48 | `text.trim() === ''` exactly when every character is whitespace; otherwise the trimmed text starts and ends with a non-whitespace character |
| JsStrings.ToLowerCase | src/contexts/global-talk-provider.tsx:81 | same length as the input; each character is lowered in place |
| JsStrings.ToLowerCaseIsIdempotent | src/contexts/global-talk-provider.tsx:81 | no upper-case ASCII letter is left; lowering twice equals lowering once |
| JsStrings.DecimalString | src/contexts/global-talk-provider.tsx:34 | `${n}` (here and in the message id at line 77) is a non-empty string of decimal digits with no leading zero |
| JsStrings.DecimalStringRoundTrip | src/contexts/global-talk-provider.tsx:34 | reading the digits of `${n}` back as a decimal number gives `n`, so the rendering loses nothing |
| AiServices.TranslateFlow | src/ai/flows/translate-message.ts:72-77 | it succeeds exactly when the prompt does; a failure passes through unchanged; a success carries source "ConvoSense" and differs from the prompt's answer only in `source` |
| ChatSession.StampedId | src/contexts/global-talk-provider.tsx:77 | the id (and the user id at line 34) starts with the given prefix and is strictly longer than it |
| ChatSession.StampedIdInjective | src/contexts/global-talk-provider.tsx:77 | two ids with the same prefix are equal only when they were stamped with the same clock reading |
| ChatSession.OtherUsers | src/contexts/global-talk-provider.tsx:56 | a user is kept exactly when it is in the roster and its id differs from the sender's |
| ChatSession.OtherUsersAppend | src/contexts/global-talk-provider.tsx:56 | the filter distributes over concatenation, so kept users stay in roster order and each occurrence is kept once |
| ChatSession.TranslationTargets | src/contexts/global-talk-provider.tsx:58-59 | the loop translates into at most one language per other user; which languages is stated by `TranslationTargetsMembers` |
| ChatSession.TranslationTargetsMembers | src/contexts/global-talk-provider.tsx:56-59 | a language is translated into exactly when some other user speaks it and it differs from the sender's |
| ChatSession.TranslationCallAt | src/contexts/global-talk-provider.tsx:58-65 | the j-th translation request targets the j-th target language, with the sender's and recipient's labels, is made while sending, and a success is attributed to "ConvoSense" |
| ChatSession.Collect | src/contexts/global-talk-provider.tsx:58-72 | the record the loop fills from the successful answers; no contract of its own, its keys are stated by `CollectKeys` and its entries by `CollectLastWins` and `CollectSources` |
| ChatSession.CollectKeys | src/contexts/global-talk-provider.tsx:58-72 | a language is a key of the record exactly when some translation request for it succeeded |
| ChatSession.CollectLastWins | src/contexts/global-talk-provider.tsx:66-69 | when several requests for one language succeed, the entry holds the text and source of the last one |
| ChatSession.CollectSources | src/contexts/global-talk-provider.tsx:66-69 | if every successful answer is attributed to "ConvoSense", so is every stored entry |
| ChatSession.SentTranslations | src/contexts/global-talk-provider.tsx:54-74 | keys are never the sender's language; every key is another user's language; a key is present exactly when a translation for it succeeded, so a failure only omits that key; if all succeed, every other user's differing language is a key; every entry's source is "ConvoSense" |
| ChatSession.SentMessageWellFormed | src/contexts/global-talk-provider.tsx:54-74 | the record of a send has no entry for the sender's language and all its entries are attributed |
| ChatSession.Session.constructor | src/contexts/global-talk-provider.tsx:26-30 | the initial state has no users, no messages, no current user, is not started and not sending |
| ChatSession.Session.AddUser | src/contexts/global-talk-provider.tsx:33-39 | exactly one user with the given name and language and a clock-stamped id is appended at the end; the new user becomes current only when there is none; nothing else changes |
| ChatSession.Session.SetCurrentUser | src/contexts/global-talk-provider.tsx:28 | the current user is replaced and nothing else changes |
| ChatSession.Session.StartChat | src/contexts/global-talk-provider.tsx:41-45 | afterwards the chat is started exactly when it already was or there are at least two users; the flag is never reset |
| ChatSession.Session.TranslateForRecipients | src/contexts/global-talk-provider.tsx:54-74 | the loop makes exactly one translation request per visited user whose language differs, in roster order and while `isSending` holds, and its record is the fold of those requests' successes |
| ChatSession.Session.Deliver | src/contexts/global-talk-provider.tsx:56-85 | after sentiment succeeds, exactly one message is appended at the end: clock-stamped id, the current user as sender, the input text, the lower-cased sentiment label and the collected translations; the new message and every earlier one are well formed |
| ChatSession.Session.SendMessage | src/contexts/global-talk-provider.tsx:47-96 | no current user or blank text: nothing changes and no AI request is made; sentiment failure: messages unchanged and the error toast is returned; sentiment success: exactly the one message above is appended and earlier messages are untouched; every AI request is made while sending; `isSending` is false afterwards on every path |
| TranslationPreview.RecipientLanguages | src/components/global-talk/translation-preview-dialog.tsx:17 | a language is listed exactly when some user other than the current one speaks it and it differs from the current user's |
| TranslationPreview.RecipientLanguagesEmpty | src/components/global-talk/translation-preview-dialog.tsx:17 | the list is empty exactly when no user in the roster is both someone else and speaking another language |
| TranslationPreview.RecipientLanguagesAppend | src/components/global-talk/translation-preview-dialog.tsx:17 | collecting recipient languages distributes over concatenation, so the list follows roster order with one entry per recipient |
| TranslationPreview.IndexOfSpec | src/components/global-talk/translation-preview-dialog.tsx:17 | `indexOf` is -1 exactly for an absent element and is otherwise the first position holding it |
| TranslationPreview.KeepFirstOccurrencesMembers | src/components/global-talk/translation-preview-dialog.tsx:17 | the `indexOf` filter keeps an element exactly when its first occurrence is in the range it scans |
| TranslationPreview.KeepFirstOccurrencesOrder | src/components/global-talk/translation-preview-dialog.tsx:17 | the kept elements appear in the order of their first occurrences |
| TranslationPreview.TargetLanguages | src/components/global-talk/translation-preview-dialog.tsx:17 | the dialog's target languages; no contract of its own, its properties are stated by `TargetLanguagesSpec` |
| TranslationPreview.TargetLanguagesSpec | src/components/global-talk/translation-preview-dialog.tsx:17 | target languages have no duplicates; each is another user's language and never the current user's; every other user with a differing language contributes theirs; they follow the order of first occurrence |
| TranslationPreview.PreviewItems | src/components/global-talk/translation-preview-dialog.tsx:36-43 | every item is a target language that has a translation, with that translation and its language label; every target language with a translation has an item; a language without one is skipped |
| TranslationPreview.RenderPreviewDialog | src/components/global-talk/translation-preview-dialog.tsx:15-82 | renders exactly when there is a preview and a current user; shows the original text; shows "no translations needed" exactly when there is no target language; otherwise the accordion opens on the first target and lists exactly the targets that have a translation; the buttons are disabled while sending |
| TranslationPreview.SharedLanguageNeedsNoTranslation | src/components/global-talk/translation-preview-dialog.tsx:17-75 | when every other user speaks the current user's language, the dialog shows "no translations needed" |
| MessageBubble.ExplanationText | src/components/global-talk/message-bubble.tsx:46-52 | without a viewer language the text is ""; otherwise it is the recipient's half exactly when the viewer's language is the translation's language, else the sender's half |
| MessageBubble.SentimentIcon | src/components/global-talk/message-bubble.tsx:19-24 | as looked up at line 107: "positive", "negative" and "neutral" get their own icons; any other value gets the faint fallback icon |
| MessageBubble.Details | src/components/global-talk/message-bubble.tsx:126-144 | the panel shows the original text under the sender's language label; it has one entry per translation language; each entry shows that language's label, that translation's text, formality, nugget phrase and phrase translation, and for context, tone and nugget the recipient's half exactly when the viewer reads that language |
| MessageBubble.RenderBubble | src/components/global-talk/message-bubble.tsx:44-126 | nothing renders without a viewer language; the bubble is the viewer's own exactly when the uids match; a viewer who shares the sender's language sees the original; one whose language differs and has an entry sees that translation, marked "translated from" the sender's language label; otherwise the original, unmarked; the toggle appears exactly when there are translations; the panel appears exactly when there are translations and it is open |

## Left out

- The prompts of the two AI flows and the language model behind them. They are answers and oracles that may fail (see above). Output-schema validation failures are one kind of `Err`.
- The sentiment flow's `confidence` is carried but never read, as in the provider.
- `console.error` logging of failed translations and sends.
- Firebase authentication, Firestore reads and writes, the user list, router redirects and every page and UI-wiring component. These are I/O and external services.
- The preview/confirm/cancel workflow (`previewMessage`, `confirmSendMessage`, `cancelPreview`). No file in this model implements it. The dialog is modelled for a given preview message, and its buttons only as enabled or disabled.
- `getMessageDate`, the relative-time display, tooltips and the avatar initial in the bubble. These are JavaScript `Date` handling and presentation.
- `Date.now()`: the clock reading is the parameter `now`. The two readings for the message id and its timestamp are taken as one. Ids made from the clock are not unique when two are made in the same millisecond. The model does not assume they are.
- ChatSession.Session.AddUser: reads the current `currentUser` field. The source reads the value captured when the callback was last created, so two additions before a re-render could both see "no current user".
- ChatSession.Session.StartChat: reads the current roster length. The source reads the length captured when the callback was last created.
- ChatSession.Session.SendMessage: the send is atomic. Other operations that run while its requests are pending are not modelled; the source loops over the roster captured when the send started.
- JsStrings.ToLowerCase: lowers only the ASCII letters A–Z. Full Unicode case mapping is not modelled.
- JsStrings.TrimStartSpec: strings are sequences of Unicode scalar values, not UTF-16 code units. The whitespace set is otherwise that of ECMAScript.
- The `as Sentiment` cast is unchecked in the source. The stored label is any lower-cased string, and the bubble's fallback icon covers the rest.
- Lookups of object keys that hit JavaScript prototype properties (a language code or sentiment such as "constructor") are not modelled. Records are Dafny maps.
- MessageBubble.Details: panel entries form a map keyed by language. The order of `Object.entries` is not modelled.
- TranslationPreview.PreviewItems: the contract does not state that items follow the order of the target languages, although the function keeps that order.
- TranslationPreview.RenderPreviewDialog: the accordion places `contextExplanation`, `toneExplanation` and the nugget's `explanation` directly as element children (src/components/global-talk/translation-preview-dialog.tsx:51-66). With the `TranslationDetail` records of `src/lib/types.ts` these are `Explanation` objects, and React refuses plain objects as children at render time. So for any target language that has a translation, the accordion would fail to render rather than show the item. The model describes the items the code selects and carries each translation record as it stands; the render failure is not modelled.
