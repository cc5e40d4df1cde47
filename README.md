# ThreadCutter core in Dafny

ThreadCutter turns a piece of text into a thread of posts for a social platform: Twitter,
LinkedIn, Threads, Instagram, Facebook or TikTok. This project models the logic behind that
and proves properties of it. The model covers five parts:

- **Gemini request wrapper** (`src/services/geminiService.ts`, module `Formatter`).
  - tone instructions and platform character limits;
  - the choice between the mock reply and the provider;
  - how a parsed provider reply is normalised;
  - the local fallback splitter (`createFallbackPosts`), which packs sentences greedily
    within `charLimit - 50` and truncates to `charLimit - 10` plus "..." when no sentence
    survives;
  - the `#\w+` / `@\w+` scanners.
- **Usage ledger** (`src/utils/messageTracking.ts`, module `Ledger`).
  - the 32-bit fingerprint hash and the base-36 device id, with the browser storage as a
    class whose two items the methods update;
  - per user-and-device daily usage records, where a new day reads as zero;
  - the daily limits for guests (3), free users (5) and premium users (unlimited).
- **Chat store** (`src/hooks/useChats.tsx`, module `Chats`).
  - the converters between posts and their database form;
  - the UUID check;
  - the `saveChat`, `updateMessage` and `deleteChat` updates of the chat list, with a class
    `ChatStore` whose list the methods reassign.
- **Thread cutter screen** (`src/components/ThreadCutter.tsx`, module `Screen`).
  - a class with the screen's state;
  - the quota gate;
  - tone toggling;
  - chat titles and previews;
  - the numbering of generated posts;
  - the whole `splitIntoThreads` flow and `editPost`.
- **Form check** (`validateForm` in `src/pages/Auth.tsx`, module `Auth`).

Shared modules:

- `Wrappers` holds `Option`.
- `JsText` holds the JavaScript string built-ins the code relies on: `trim` with the
  whitespace set of `\s`, `split`, `join`, `substring` with its index clamping,
  `Number.prototype.toString(radix)`, and `||` defaulting.

Everything outside the browser tab becomes a parameter. That covers the provider's reply, the
database's successes, the clock, the fingerprint text and freshly generated ids. Each method
then states its new state in terms of those inputs.

Where the repository's own description disagrees with the code, the model follows the code:

- The fallback splitter does not cap posts at `maxPosts`. It never receives it.
- A long text with no `.`, `!` or `?` becomes one post: the trimmed text plus ".", not
  truncated (`Formatter.FallbackWithoutTerminator`). The truncating post is produced only
  when every sentence fragment is blank.
- When writing the usage item fails, `updateMessageUsage` returns a fresh record whose count
  is the increment itself, not the stored count plus the increment.
- The provider's metadata overrides the computed fields field by field, as the object spread
  does.

## Model

| member | source | states |
|---|---|---|
| JsText.TrimFacts | src/services/geminiService.ts:352-357 | `trim` leaves no leading or trailing whitespace, gives "" exactly for all-whitespace text, and leaves already trimmed text alone |
| JsText.SplitOnJoin | src/components/ThreadCutter.tsx:241-242 | joining the pieces of `split(sep)` with `sep` gives the original text back, and no piece contains the separator |
| JsText.RadixRoundTrip | src/utils/messageTracking.ts:41 | `toString(radix)` writes digits whose value in that radix is the number |
| JsText.CountOrLength | src/services/geminiService.ts:291 | `characterCount \|\| content.length`: a non-zero count is kept, a missing or zero count falls back to the length of the content (or of ""), and the result is 0 exactly when the count is missing or zero and the content is missing or empty |
| JsText.SplitOnWithout | src/components/ThreadCutter.tsx:241 | text without the separator splits into itself alone |
| JsText.SplitOnPiece | src/components/ThreadCutter.tsx:241 | splitting `x + sep + y`, with `x` free of the separator, gives `x` followed by the pieces of `y` |
| JsText.JoinSplitOn | src/components/ThreadCutter.tsx:241-242 | joining pieces that are free of the separator and then splitting gives the pieces back (the converse of SplitOnJoin) |
| Formatter.ToneInstruction | src/services/geminiService.ts:44-56 | the result is always one of the table's instructions; a known tone gets its own instruction, and the neutral instruction comes out exactly for "neutral" or a tone outside the table (names inherited from `Object.prototype` aside, see Left out) |
| Formatter.CombinedTonesAppend | src/services/geminiService.ts:90-92 | the combined instruction lists each tone's instruction in the order given, separated by ". Additionally, " |
| Formatter.PlatformInfo | src/services/geminiService.ts:57-94 | a known platform gets its own specification; an unknown one gets Twitter's, with its 280-character limit; every limit is at least 280 (names inherited from `Object.prototype` aside, see Left out) |
| Formatter.MockOnlyForMockKey | src/services/geminiService.ts:34-41 | the mock reply is used exactly when the configured key is the mock key; the built-in default key never selects it |
| Formatter.SplitSentences | src/services/geminiService.ts:352 | `split(/[.!?]+/)` yields at least one fragment, and no fragment contains a terminator |
| Formatter.SplitWithoutTerminator | src/services/geminiService.ts:352 | a text without terminators splits into itself alone |
| Formatter.DottedNonBlank | src/services/geminiService.ts:352-357 | dropping blank fragments first does not change the ended sentences the loop builds |
| Formatter.CreateFallbackPosts | src/services/geminiService.ts:351-392 | the loop emits exactly the posts of the fallback definition: packed sentences, or the truncation post when none survive |
| Formatter.PackJoin | src/services/geminiService.ts:356-384 | the packing loop neither loses, duplicates nor reorders text: its posts joined with " " are the sentences, each ended with ".", joined with " " |
| Formatter.PackEmpty | src/services/geminiService.ts:356-384 | the loop emits nothing exactly when the buffer is empty and no sentence is non-blank |
| Formatter.PackTrimmed | src/services/geminiService.ts:357-382 | every post the loop emits is non-empty and trimmed |
| Formatter.FallbackNonEmpty | src/services/geminiService.ts:386-391 | the fallback always yields at least one post, which is the truncation post when no sentence survives |
| Formatter.FallbackCounts | src/services/geminiService.ts:368-389 | every fallback post's `characterCount` is its content's length |
| Formatter.TruncatedShape | src/services/geminiService.ts:386-391 | the truncation post is the first `charLimit - 10` characters plus "...", without hashtags or mentions |
| Formatter.FallbackJoin | src/services/geminiService.ts:351-384 | the posts joined with " " are exactly the text's non-blank sentences, trimmed and ended with ".", joined with " " |
| Formatter.FallbackBound | src/services/geminiService.ts:360-372 | a post longer than `charLimit - 50` is a single sentence of the text |
| Formatter.FallbackKeepsLong | src/services/geminiService.ts:360-372 | a sentence longer than `charLimit - 50` is emitted whole as a post of its own |
| Formatter.FallbackTags | src/services/geminiService.ts:366-383 | each post's hashtags and mentions are the ones found in its own content |
| Formatter.FallbackWithoutTerminator | src/services/geminiService.ts:351-384 | a non-blank text with no terminator becomes exactly one post, the trimmed text plus ".", whatever its length |
| Formatter.WordRun | src/services/geminiService.ts:396 | the `\w+` run at a position is maximal: all word characters, followed by a non-word character or the end |
| Formatter.Matches | src/services/geminiService.ts:395-405 | every match is the sigil followed by one or more word characters |
| Formatter.MatchesConcat | src/services/geminiService.ts:395-405 | matching is left to right: after a boundary, the matches of a concatenation are those of each part, in order |
| Formatter.StartsExactly | src/services/geminiService.ts:395-405 | the token starts (a sigil followed by a word character) are listed each once, in increasing order, and no other position is listed |
| Formatter.MatchesAreTokenStarts | src/services/geminiService.ts:395-405 | the scan is complete and in text order: its k-th match is the sigil and the whole word run at the k-th token start, and every token start gives a match |
| Formatter.NoMatches | src/services/geminiService.ts:395-405 | there is no match exactly when the sigil is never followed by a word character |
| Formatter.TagsAreComplete | src/services/geminiService.ts:395-405 | hashtags (without `#`) and mentions (with `@`) are the tokens at every `#` or `@` followed by a word character, left to right |
| Formatter.HashtagsAreMatches | src/services/geminiService.ts:395-399 | hashtags are the `#\w+` matches in order, each without its `#` |
| Formatter.Mentions | src/services/geminiService.ts:401-405 | every mention is an `@` followed by word characters |
| Formatter.MockPosts | src/services/geminiService.ts:154-212 | for `maxPosts` of at least 1 the mock reply never exceeds `maxPosts` posts (for a smaller `maxPosts` one post is still emitted), each count is its content's length, and a short prompt becomes one post with the optional emoji around it |
| Formatter.NormalizePost | src/services/geminiService.ts:289-294 | a parsed post keeps its content (or ""), its tags (or []), and its count, or the content's length when the count is missing |
| Formatter.CallGeminiAPI | src/services/geminiService.ts:151-347 | fails exactly when the provider call fails without the mock, with the error message and no posts; an unparsable reply yields the fallback posts; a parsed one yields the normalised posts; the metadata is the post count, the request's platform, tones and emoji flag and the sum of the counts, overridden field by field by a parsed reply's metadata, and zero counts on failure |
| Ledger.ToInt32 | src/utils/messageTracking.ts:38 | `hash & hash` is the signed 32-bit value congruent to `hash` modulo 2^32 |
| Ledger.HashStepIsTimes31 | src/utils/messageTracking.ts:36-38 | `(hash << 5) - hash + char`, kept to 32 bits, is `31 * hash + char` wrapped to 32 bits |
| Ledger.HashIsPolynomial | src/utils/messageTracking.ts:33-39 | the loop's hash is the base-31 polynomial of the code units wrapped to 32 bits, so intermediate wrapping does not matter |
| Ledger.FingerprintHash | src/utils/messageTracking.ts:33-39 | the hashing loop computes the 32-bit wrapped base-31 polynomial of the fingerprint |
| Ledger.DeviceIdShape | src/utils/messageTracking.ts:41 | the device id is non-empty, consists of base-36 digits with no "_", and reads back as the absolute hash |
| Ledger.GenerateDeviceFingerprint | src/utils/messageTracking.ts:11-42 | the generated id is the base-36 absolute hash of the fingerprint text |
| Ledger.GuestAndUserKeysDiffer | src/utils/messageTracking.ts:68 | a signed-in user's usage key never collides with a guest's |
| Ledger.UserKeyInjective | src/utils/messageTracking.ts:68 | distinct (user, device) pairs get distinct keys |
| Ledger.GuestKeyInjective | src/utils/messageTracking.ts:68 | distinct devices get distinct guest keys |
| Ledger.ReadUsage | src/utils/messageTracking.ts:70-90 | a stored record for today is returned as is; a missing or stale record reads as a zero record dated today |
| Ledger.BrowserStorage.GetDeviceId | src/utils/messageTracking.ts:46-53 | a cached id is returned unchanged; otherwise the generated id is stored and returned; afterwards the id no longer depends on the fingerprint |
| Ledger.BrowserStorage.GetMessageUsage | src/utils/messageTracking.ts:59-91 | returns today's record for the key without writing the usage item |
| Ledger.BrowserStorage.UpdateMessageUsage | src/utils/messageTracking.ts:93-123 | adds the increment to today's count and stores it under the key; when the item is unreadable or the write fails, the store is unchanged and the returned count is the increment |
| Ledger.BrowserStorage.ResetMessageUsage | src/utils/messageTracking.ts:125-139 | removes the key's record and leaves the other keys alone |
| Ledger.ReadAfterUpdate | src/utils/messageTracking.ts:82-111 | reading after an update gives the previous count plus the increment |
| Ledger.UpdatesAccumulate | src/utils/messageTracking.ts:93-123 | a sequence of same-day updates adds up |
| Ledger.UpdateKeepsOtherKeys | src/utils/messageTracking.ts:111 | an update does not change what another key reads |
| Ledger.NewDayStartsAtZero | src/utils/messageTracking.ts:73-80 | a record written yesterday reads as zero today |
| Ledger.ReadAfterReset | src/utils/messageTracking.ts:132-133 | after a reset the key reads zero and other keys read as before |
| Ledger.LimitsOrdered | src/utils/messageTracking.ts:141-145 | the limit is negative (unlimited) exactly for premium users; for others the guest limit is below the free one, and both are positive |
| Chats.ConvertDbPostsToThreadPosts | src/hooks/useChats.tsx:42-55 | a non-array value gives nothing; an array gives one post per element, none of them being edited |
| Chats.FromDbDefaults | src/hooks/useChats.tsx:45-54 | missing fields get their defaults: a fresh id, "" content, the content's length as count, empty tags |
| Chats.ToDbKeepsFields | src/hooks/useChats.tsx:58-68 | the database form keeps each post's id, content, count and tags |
| Chats.PostRoundTrip | src/hooks/useChats.tsx:42-68 | converting a post to the database form and back gives it back, apart from `isEditing`, exactly when the `\|\|` defaults do not fire: non-empty id, non-zero index and total, a non-zero count unless the content is empty, and tags present |
| Chats.ConvertersRoundTrip | src/hooks/useChats.tsx:42-68 | converting a list to the database form and back gives the list with editing switched off exactly when every post in it round-trips |
| Chats.UuidFields | src/hooks/useChats.tsx:162 | for an id with the 8-4-4-4-12 layout, the pattern checks version 1 to 5 and the variant bits 10 |
| Chats.EnsureUuid | src/hooks/useChats.tsx:161-165 | the result is the id or the fresh id: a UUID id is kept and anything else is replaced by the fresh id, so the result is a UUID exactly when one of the two is |
| Chats.EnsureUuidIdempotent | src/hooks/useChats.tsx:161-165 | when fresh ids are UUIDs, an id already passed through is kept by a second pass, whatever the second fresh id is |
| Chats.PersistedIdsAreUuids | src/hooks/useChats.tsx:160-197 | after a signed-in save, the chat's id and every message id are UUIDs, and existing UUIDs are kept |
| Chats.FindChat | src/hooks/useChats.tsx:147 | `find` returns a chat with that id exactly when one exists, and it is the first one in the list |
| Chats.ReplaceChats | src/hooks/useChats.tsx:149 | every chat with the id is replaced, the others are untouched |
| Chats.UpsertProperties | src/hooks/useChats.tsx:146-153 | an existing chat is replaced in place; a new one is put first; either way the chat is then found |
| Chats.UpsertIdempotent | src/hooks/useChats.tsx:146-153 | saving the same chat twice equals saving it once |
| Chats.RemoveChats | src/hooks/useChats.tsx:291 | after `filter` no chat has the id, and nothing is added |
| Chats.RemoveKeepsOthers | src/hooks/useChats.tsx:291 | a chat with another id survives the deletion |
| Chats.RemoveAppend | src/hooks/useChats.tsx:291 | the filter works chat by chat: removing from a concatenation removes from each part, keeping their order |
| Chats.RemoveSingle | src/hooks/useChats.tsx:291 | one chat is dropped exactly when it has the id |
| Chats.RemoveNothing | src/hooks/useChats.tsx:291 | a list without the id is left exactly as it is |
| Chats.RemoveAfterUpsert | src/hooks/useChats.tsx:146-153 | deleting a chat just saved gives the list without that chat, as before the save |
| Chats.MergeIdempotent | src/hooks/useChats.tsx:245 | merging the same update twice equals merging it once; an update without an id keeps the message's id |
| Chats.UpdateMessageProperties | src/hooks/useChats.tsx:239-278 | an unknown chat changes nothing; otherwise every chat with the id becomes the first such chat with its messages updated (each message with the id merged with the update), and every other chat is unchanged |
| Chats.ChatStore.SaveChat | src/hooks/useChats.tsx:143-236 | a guest's chat is upserted locally; a signed-in save upserts the chat with UUID ids when the database succeeds and changes nothing when it fails |
| Chats.ChatStore.UpdateMessage | src/hooks/useChats.tsx:239-278 | the list becomes the merged list, unless a needed database write fails |
| Chats.ChatStore.DeleteChat | src/hooks/useChats.tsx:280-291 | the chat is removed, unless a signed-in delete fails in the database |
| Screen.CharacterLimitAgrees | src/components/ThreadCutter.tsx:503-520 | the screen's limit for every platform name equals the request wrapper's, and is at least 280 (names inherited from `Object.prototype` aside, see Left out) |
| Screen.ChatTitleShape | src/components/ThreadCutter.tsx:240-243 | the title is a prefix of the input whose space-separated words are exactly the input's first min(6, n) words, cut to 30 characters plus "..." when longer, and so at most 33 characters |
| Screen.PreviewShape | src/components/ThreadCutter.tsx:340 | the preview is the input when it has at most 50 characters, else its first 50 characters plus "..."; never more than 53 characters |
| Screen.Without | src/components/ThreadCutter.tsx:253 | `filter` removes exactly the given tone and keeps the others |
| Screen.WithoutAppend | src/components/ThreadCutter.tsx:253 | filtering distributes over concatenation |
| Screen.ToggleFree | src/components/ThreadCutter.tsx:245-250 | without a premium plan, toggling always leaves exactly the chosen tone |
| Screen.TogglePremium | src/components/ThreadCutter.tsx:251-254 | with a premium plan, toggling flips the tone's membership, leaves the other tones as they were, and adds a new tone last |
| Screen.ToggleTwice | src/components/ThreadCutter.tsx:251-254 | selecting a new tone and toggling it again gives the previous selection back |
| Screen.GateMatchesMessagesLeft | src/components/ThreadCutter.tsx:133-139 | no count is shown exactly for premium users; the corrected gate blocks exactly when no messages are left |
| Screen.GatesAgree | src/components/ThreadCutter.tsx:267-271 | for guests and for premium users, the gate as written and the corrected gate agree |
| Screen.GateAsWrittenNeverStopsSignedIn | src/components/ThreadCutter.tsx:267-278 | the as-written gate lets a signed-in free user through with no messages left |
| Screen.NumberingProperties | src/components/ThreadCutter.tsx:307-316 | the generated posts are numbered 1 to n of n, each with a fresh id, and keep the reply's content, count and tags |
| Screen.NumberedPostsRoundTrip | src/components/ThreadCutter.tsx:307-316 | numbered posts survive the database round trip |
| Screen.EditPostsProperties | src/components/ThreadCutter.tsx:418-427 | only posts with the id get the new content and its length as count; ids, numbering and tags are kept, and counts keep matching contents |
| Screen.EditPostsLastWins | src/components/ThreadCutter.tsx:418-427 | a second edit of the same post overrides the first |
| Screen.EditUnknownPost | src/components/ThreadCutter.tsx:418-427 | editing an id no post has changes nothing |
| Screen.FindMessage | src/components/ThreadCutter.tsx:415 | finds a message with that id exactly when one exists, and it is the first one in the list |
| Screen.EditUpdate | src/components/ThreadCutter.tsx:407-430 | an update is produced exactly when the active chat's first message with the id has posts, and it carries only those posts, edited |
| Screen.ThreadChatProperties | src/components/ThreadCutter.tsx:329-347 | the chat continues the active chat, or is new with the title and preview; it ends with the user's message followed by the reply |
| Screen.ThreadCutterScreen.constructor | src/components/ThreadCutter.tsx:99-121 | the initial state: empty input, Twitter, the neutral tone, emojis off, no active chat, no dialog shown, zero local usage, an empty chat list |
| Screen.ThreadCutterScreen.BlockedAsIntendedForGuests | src/components/ThreadCutter.tsx:267-271 | for a guest or a premium user, the screen's gate is the corrected one |
| Screen.ThreadCutterScreen.HandleToneToggle | src/components/ThreadCutter.tsx:245-255 | the selected tones become the toggled list and nothing else changes |
| Screen.ThreadCutterScreen.CountMessage | src/components/ThreadCutter.tsx:351-358 | a guest's local count is incremented, a registered free user's server count grows when the increment succeeds, and a premium user counts nothing |
| Screen.ThreadCutterScreen.Publish | src/components/ThreadCutter.tsx:329-365 | saves the new chat, makes it active, counts the message, shows a guest the sign-up prompt once their count, read again after counting, is at least the limit minus one, and clears the input |
| Screen.ThreadCutterScreen.StartChat | src/components/ThreadCutter.tsx:329-349 | the chat is the open chat extended with the two messages, or a new chat that becomes the active one, and the chat list is exactly what saving it yields for a guest, a signed-in user whose writes succeed, or one whose writes fail |
| Screen.ThreadCutterScreen.PromptNearLimit | src/components/ThreadCutter.tsx:360-363 | the sign-up prompt is set exactly when the user is a guest whose count, read back from the ledger, is at least the limit minus one; the ledger is not changed |
| Screen.ThreadCutterScreen.SplitIntoThreads | src/components/ThreadCutter.tsx:266-384 | a non-premium user whose count in the browser ledger has reached the limit (the gate as written) gets the guest prompt or the upgrade dialog and nothing else changes; a failed generation changes nothing and reports the error; otherwise the chat is saved, usage counted and the input cleared |
| Screen.ThreadCutterScreen.EditPost | src/components/ThreadCutter.tsx:407-430 | the chat list becomes the list with the edited message, or stays when there is nothing to edit |
| Auth.ValidateForm | src/pages/Auth.tsx:64-89 | each field gets its message in order of precedence, or none; the form is valid exactly when no field has a message |
| Auth.EmailPatternNeeds | src/pages/Auth.tsx:69 | an accepted address has at least five characters, an '@' and a '.' |
| Auth.EmailPatternUnanchored | src/pages/Auth.tsx:69 | the pattern is unanchored: surrounding text does not make an address invalid |
| Auth.EmailPatternRefuses | src/pages/Auth.tsx:69 | text without an '@' or without a '.' is refused |
| Auth.EmailPatternSplitsAtSpace | src/pages/Auth.tsx:69 | around a whitespace character, text matches exactly when one side matches |
| Auth.EmailPatternExamples | src/pages/Auth.tsx:69 | "user@example.com" is accepted; "user@example" and "user@ example.com" are refused |

## Left out

- Lengths are counted in characters. JavaScript counts UTF-16 code units, so text outside the
  Basic Multilingual Plane would count differently. Only the fingerprint hash works on code
  units explicitly.
- The real provider call is not modelled: `fetch`, the prompt text and JSON extraction. The
  reply is an input, either `CallFailed(message)` or `Replied(Parsed(...) | Unparsable)`.
- The API key literals are not reproduced. The configured key, the built-in default and the
  mock key are symbolic constants. The mock literal differs from the default, so the mock
  branch runs only when that literal is configured.
- Formatter.FallbackCounts: it needs `charLimit >= 10` when no sentence survives, because
  below that the truncation post's count would not equal its length. Every platform's limit
  is at least 280.
- Ledger: a non-object JSON value in storage, prototype-polluting keys and a throwing
  `setItem` in `getDeviceId` are not modelled. An unreadable usage item is `Corrupt`.
- Ledger.GenerateDeviceFingerprint: the canvas, navigator and screen signals are given as one
  fingerprint text. They are not computed.
- Chats: Supabase, the hosted database, is represented only by whether each call succeeds
  (`dbSucceeds`). The rows' contents read back from it are not modelled.
- Chats.ChatStore.SaveChat: the source also rewrites the chat and message ids of the caller's
  object in place. The model returns the persisted ids in the stored chat but does not model
  that aliasing.
- Chats: `fetchChats` and the loading state are not modelled.
- Screen: exactly what a blocked user sees once `isProcessing` settles is not modelled.
  React's asynchronous state updates are treated as taking effect at once, and the loading
  flag and toasts are left out.
- Screen: `uuidv4()` and `new Date()` become parameters (`ids`, `now`, `today`). The source reads the clock three times: the user message's timestamp before the provider call, then the reply's timestamp and a new chat's `createdAt` after it. The model collapses these three reads into the single instant `now`.
- Screen.ThreadCutterScreen.CountMessage: `src/hooks/usePremium.tsx` is not part of this
  model. Its `incrementUsage` is represented by whether it succeeds (`incrementSucceeds`),
  which raises `messagesUsed` by one.
- Screen: `handleEmojiToggle`, `handleNewChat`, `handleSelectChat`, the rewrite dialog and
  rendering are outside the modelled core.
- Formatter.ToneInstruction: a tone named after a member inherited from `Object.prototype`
  (`"constructor"`, `"toString"`, `"__proto__"` and so on) makes the source's lookup return that
  inherited member instead of the neutral instruction. Tone and platform names are plain
  strings in the model, and such names are not modelled.
- Formatter.PlatformInfo: for a platform named after an inherited `Object.prototype` member, the
  source's lookup returns that member, whose `charLimit` is `undefined`, instead of Twitter's
  specification. This is not modelled.
- Screen.CharacterLimitAgrees: for those inherited names the source's switch still returns 280,
  while the wrapper's limit is `undefined`, so the two would not agree. The model covers plain
  platform names only.
- Screen.ThreadCutterScreen.SplitIntoThreads: runs the gate as written (the browser-ledger
  count). The corrected gate is stated on its own (`Screen.Gate`,
  `Screen.ThreadCutterScreen.BlockedAsIntended`) and is not wired into a second flow.
- Formatter.MockPosts: only the post cap, the counts and the short-prompt case are stated.
  The exact word packing of the long-prompt branch is modelled in the body but not specified.

## Findings

| source | as written | input that shows it | evidently intended | confidence | as-written member | corrected member |
|---|---|---|---|---|---|---|
| src/components/ThreadCutter.tsx:267-278 | the gate compares `getMessageUsage(user?.id).count` with the limit. That is the browser counter under `user_<id>_<device>`, which the screen never writes for a signed-in user: only guests call `updateMessageUsage` (lines 351-358). | a signed-in free user with 5 messages used on the server and no local record | gate on `actualMessagesUsed` (line 135), the count shown to the user, so the free limit of 5 stops them | medium, not executed | Screen.GateAsWritten, Screen.GateAsWrittenNeverStopsSignedIn, Screen.ThreadCutterScreen.SplitIntoThreads | Screen.Gate, Screen.GateMatchesMessagesLeft, Screen.ThreadCutterScreen.BlockedAsIntendedForGuests |
