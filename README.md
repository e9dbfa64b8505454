# Room state and view rules of a multilingual chat room, in Dafny

The application lets people create or join a chat room by a six-digit
code. Each person picks a language, and every message is shown to each
reader translated into the reader's language. This project models the
client-side core of that application and proves properties of it:

- the room store (`src/lib/room-store.ts`): a class `RoomStore.Store` whose
  fields are the store's state. Its methods are the actions `createRoom`,
  `joinRoom`, `leaveRoom`, `sendMessage` and `clearError`. `Apply` applies
  one realtime notification.
- the store's pure parts (`RoomEvents`): the realtime reducers over the
  participant and message lists, and the fold of translation rows into a
  language-to-text map. Also the list of languages a message is translated
  into, and the placeholder `translateText`.
- the message display rule (`MessageView`).
- the participants panel (`ParticipantsList`).
- the room-code input sanitiser and the join form's submit handler
  (`JoinRoomPage`).
- the message input (`MessageInput`).
- the room page's view selection, rejoin effect, unmount cleanup and
  handlers (`RoomPage`).

Shared pieces are JavaScript value semantics (`Js`): `null` as `None`,
truthiness of `string | null`, and `String.prototype.trim` over
ECMAScript's exact whitespace set. Room codes and their decimal rendering
are in `RoomCode`, and the records of `src/lib/types.ts` are in `Types`.

Backend calls are not executed. Each call an action makes is appended to
the store's `requests` log. Its reply is an argument of the action: an
`Outcome` for a write, a `Result` for a read. Fresh identifiers (`nanoid`)
are arguments too. The random draw behind a room code is the argument `r`,
with `0 <= r < 900000`. Page-level navigation, localStorage writes and
calls into the store are appended to an effect log.

`Scenarios` drives the store and the message view through their contracts
alone. In it alice creates a room in English, bob joins in German, and
alice sends "Hello". Exactly one translation is requested, for German. Bob
sees the German text in the translation panel, and alice sees "Hello" with
no panel.

## Behaviour as the code has it

The model follows the code in each of these points:

- A participant insert is appended with no duplicate check.
- A participant delete is removed locally; the list is not re-fetched.
- `joinRoom` always inserts a new participant. It never reuses an identity
  cached in localStorage.
- `joinRoom` resolves with nothing.
- `createRoom` resolves with the code string alone.
- A translation has no failure placeholder. The local `translateText` is a
  string template that cannot fail.
- A failed subscription is never retried.
- `leaveRoom` clears the room only after the delete promise settles. A
  rejected delete leaves the state as it was.

## Model

| member | source | states |
|---|---|---|
| `RoomStore.Store.constructor` | src/lib/room-store.ts:24-32 | The store starts with no room, empty lists, not loading and no error. |
| `RoomStore.Store.CreateRoom` | src/lib/room-store.ts:34-86 | It succeeds iff both inserts succeed. On success it returns the six-digit code, the creator is the only participant, the identity fields are set, loading is off and the requests are room insert, participant insert, subscribe. On failure it records and returns the failing insert's message and leaves the room fields and lists as they were. |
| `RoomStore.Store.JoinRoom` | src/lib/room-store.ts:88-181 | A failed lookup throws "Room not found" after only the lookup request, so no participant is inserted. Each later failure throws its own message and leaves the room fields and lists alone. On success the store holds the fetched participants, the formatted history, the new participant id and the given language, and the five requests in source order. |
| `RoomStore.Store.LeaveRoom` | src/lib/room-store.ts:183-210 | It changes nothing unless room id and participant id are both truthy. A settled delete empties both lists, clears the four room fields and drops every channel. A rejected delete leaves the state unchanged apart from the delete request. |
| `RoomStore.Store.SendMessage` | src/lib/room-store.ts:212-263 | Without a room, participant or language (`Connected`, the guard at line 215) it sets "Not connected to a room" and sends nothing. Otherwise it inserts the message; if that fails, it records the error and sends nothing more. If it succeeds, it sends one translation insert per language to translate. It never touches the lists. |
| `RoomStore.Store.ClearError` | src/lib/room-store.ts:265 | The error is cleared and nothing else changes. |
| `RoomStore.Store.Apply` | src/lib/room-store.ts:279-375 | A realtime event changes only the participant list or only the message list, through the matching reducer. |
| `RoomStore.FormatHistory` | src/lib/room-store.ts:141-154 | Each history row becomes the message at the same position. The message keeps the row's id, sender, text, language and `createdAt`. Its sender name is the looked-up name when that is non-empty, else "Unknown". Its translations are the row's translations folded by `TranslationMap`. |
| `RoomStore.TranslationRequests` | src/lib/room-store.ts:244-254 | The k-th request inserts, for the message, the k-th language with the placeholder text for that language. |
| `RoomStore.TranslationFanOut` | src/lib/room-store.ts:237-256 | The translation inserts for a message carry its id and the placeholder text for their language. Their languages are pairwise distinct and never the sender's. Each is some participant's language, and every other participant language is covered. So there is exactly one insert per participant language other than the sender's. |
| `RoomCode.GenerateRoomCode` | src/lib/room-store.ts:38 | The generated code matches `^\d{6}$` and denotes 100000 + r, which lies in [100000, 999999]. |
| `RoomCode.DecimalString` | src/lib/room-store.ts:38 | `toString` of a number gives at least one digit, all digits, with no leading zero. |
| `RoomCode.DecimalRoundTrip` | src/lib/room-store.ts:38 | Reading back the decimal string of n gives n. |
| `RoomCode.DecimalLength` | src/lib/room-store.ts:38 | A number in [10^k, 10^(k+1)) renders as k+1 characters. |
| `RoomCode.StorageKey` | src/pages/Room.tsx:40 | The key `room_${code}_user` has the code between a fixed prefix and a fixed suffix. |
| `RoomCode.StorageKeyInjective` | src/pages/Room.tsx:102 | Two rooms share a storage key only if their codes are equal. |
| `RoomEvents.TranslationMap` | src/lib/room-store.ts:148-151 | The keys of the folded map are exactly the languages of the rows. |
| `RoomEvents.TranslationMapLastWins` | src/lib/room-store.ts:324-327 | For a language that occurs in several rows, the map holds the text of the last such row. |
| `RoomEvents.TranslationMapOf` | src/lib/room-store.ts:324-327 | A failed translations lookup gives the empty map. Otherwise it gives the rows folded by `TranslationMap`. |
| `RoomEvents.SenderNameOr` | src/lib/room-store.ts:332 | The name is never empty. It is the looked-up name when that is non-empty, else "Unknown". |
| `RoomEvents.FormatMessage` | src/lib/room-store.ts:329-337 | The message takes the row's id, sender, text, language and `createdAt`, the given translations, and a non-empty sender name from `SenderNameOr`. |
| `RoomEvents.OnParticipantInsert` | src/lib/room-store.ts:279-288 | It appends exactly one participant at the end and keeps every earlier entry. |
| `RoomEvents.ParticipantInsertNoDedup` | src/lib/room-store.ts:280-287 | Inserting an id that is already listed adds another entry with that id, because there is no duplicate check. |
| `RoomEvents.OnParticipantDelete` | src/lib/room-store.ts:296-298 | It keeps exactly the participants whose id differs from the deleted one, and the length drops by the number of entries with that id. |
| `RoomEvents.ParticipantDeleteKeepsOthers` | src/lib/room-store.ts:296-298 | A delete removes exactly the entries with the deleted id. It keeps all others and splits over concatenation, so their order is kept. |
| `RoomEvents.DeleteAfterInsert` | src/lib/room-store.ts:279-298 | A delete after an insert of the same id leaves what the delete alone leaves. |
| `RoomEvents.OnMessageInsert` | src/lib/room-store.ts:312-341 | It appends exactly one message and keeps the earlier ones. The new message has the payload's id, sender, text, language and `createdAt`. Its sender name is the looked-up name or "Unknown". Its translations are the looked-up rows folded by `TranslationMap`, or empty when the lookup failed. |
| `RoomEvents.OnTranslationInsert` | src/lib/room-store.ts:360-376 | The message count is kept. A translation whose message is not in the subscribed room changes nothing. |
| `RoomEvents.MergeTranslation` | src/lib/room-store.ts:363-371 | A message with another id is unchanged. The matching message keeps every field but its translations. There the language's entry becomes the new text, and every other language keeps its entry. |
| `RoomEvents.TranslationInsertChangesOnlyItsKey` | src/lib/room-store.ts:361-375 | Only messages with the matching id change, and only in that language's key, which is overwritten. Every other field and every other key stays. |
| `RoomEvents.TranslationInsertNoMatch` | src/lib/room-store.ts:363-374 | A translation for an id that no message has leaves the messages unchanged. |
| `RoomEvents.TranslationInsertIdempotent` | src/lib/room-store.ts:363-374 | A translation delivered twice has the effect of one delivery. |
| `RoomEvents.TranslationInsertsCommute` | src/lib/room-store.ts:363-374 | Translations for different languages or messages may arrive in either order with the same result. |
| `RoomEvents.Distinct` | src/lib/room-store.ts:237 | `[...new Set(s)]` holds each value of s exactly once and nothing else. |
| `RoomEvents.Except` | src/lib/room-store.ts:240 | The filter keeps exactly the values other than the excluded one, and keeps them free of duplicates. |
| `RoomEvents.Languages` | src/lib/room-store.ts:237 | The k-th entry is the k-th participant's language. |
| `RoomEvents.LanguagesToTranslate` | src/lib/room-store.ts:237-240 | The result has no duplicates and excludes the current language. It contains exactly the participant languages that differ from the current one. |
| `RoomEvents.TranslateTextRecoverable` | src/lib/room-store.ts:382-386 | `TranslateText`'s placeholder names the target language at a fixed place and ends with the whole original text. |
| `RoomEvents.TranslateTextInjective` | src/lib/room-store.ts:382-386 | Two texts give the same `TranslateText` placeholder for one language only if they are equal. |
| `Types.WithoutId` | src/components/ParticipantsList.tsx:14 | The filter keeps every participant whose id differs and no participant with the id. Its length drops by the number of matching entries. |
| `Types.WithoutIdAppend` | src/lib/room-store.ts:297 | The filter splits over concatenation, so it preserves the order of what it keeps. |
| `Types.WithoutIdAbsent` | src/lib/room-store.ts:297 | Deleting an id that no entry has leaves the list unchanged. |
| `MessageView.Render` | src/components/Message.tsx:13-57 | A message in the viewer's language is always shown, with no translation panel. A message in another language is hidden iff its translation into the viewer's language is absent or empty; otherwise the panel shows exactly that translation. A shown message always displays its original text. The sender's name is shown iff the viewer did not send it. |
| `MessageView.TranslatedText` | src/components/Message.tsx:13-14 | It is the translation into the viewer's language when a non-empty one exists. Otherwise it is the original text when that is in the viewer's language. It is empty iff there is no translation and the original is in another language or empty. |
| `MessageView.OwnLanguageRoundTrip` | src/components/Message.tsx:13-18 | A message read in its own language, through `RenderFor`, is shown with its original text and needs no translation. |
| `MessageView.VisibilityIndependentOfViewer` | src/components/MessageList.tsx:40 | `RenderFor` treats the viewer as the sender iff the ids match. Whether a message is hidden depends on the language, not on who views it. |
| `ParticipantsList.FindById` | src/components/ParticipantsList.tsx:12 | `find` gives an entry iff one has the id, and that entry has the id. |
| `ParticipantsList.FindByIdFirst` | src/components/ParticipantsList.tsx:12 | `find` gives the first entry with the id. |
| `ParticipantsList.ShowPanel` | src/components/ParticipantsList.tsx:12-51 | The count is the number of participants. The Me chip appears iff someone has the viewer's id, and it is the first such entry. The visible chips are the first min(max, others) of the others, all of them non-viewers. The overflow badge appears iff the others exceed max (`MaxVisible`: 3 below width 500, else 6); it shows others − max, and visible plus remaining equals the others. |
| `ParticipantsList.PanelAccountsForEveryone` | src/components/ParticipantsList.tsx:17-23 | When the viewer is listed once, the Me chip, the visible chips and the overflow count add up to the head count. |
| `JoinRoomPage.KeepDigits` | src/pages/JoinRoom.tsx:61 | The digit filter returns only digits and is no longer than its input. On one character it keeps a digit and drops anything else. |
| `JoinRoomPage.KeepDigitsAppend` | src/pages/JoinRoom.tsx:61 | The digit filter splits over concatenation, so it keeps the digits in order. |
| `JoinRoomPage.KeepDigitsOfDigits` | src/pages/JoinRoom.tsx:61 | A string of digits passes the filter unchanged. |
| `JoinRoomPage.KeepDigitsOfNonDigits` | src/pages/JoinRoom.tsx:61 | A text without digits is filtered to the empty string. |
| `JoinRoomPage.SanitizeRoomCode` | src/pages/JoinRoom.tsx:57-69 | The sanitised code holds only 0-9 and is at most 6 long. It is the prefix of the input's digits of length min(6, number of digits). |
| `JoinRoomPage.SanitizeIdempotent` | src/pages/JoinRoom.tsx:61-66 | Sanitising twice gives the same result as sanitising once. |
| `JoinRoomPage.SanitizedIsCodeIff` | src/pages/JoinRoom.tsx:64-66 | The sanitised code matches `^\d{6}$` iff the input has at least six digits. |
| `JoinRoomPage.SanitizeRecoversCode` | src/pages/JoinRoom.tsx:61-66 | A six-digit code with a separator typed into it comes out intact. |
| `JoinRoomPage.FormatRoomCodeInput` | src/pages/JoinRoom.tsx:57-69 | It rewrites the field's value in place to the sanitised code. |
| `JoinRoomPage.OnSubmitAsWritten` | src/pages/JoinRoom.tsx:38-55 | With an empty language, the submit handler as written does nothing. |
| `JoinRoomPage.AsWrittenNeverEntersRoom` | src/pages/JoinRoom.tsx:43-50 | As written, no submission stores the identity or navigates, and a successful join ends in the destructuring TypeError. |
| `JoinRoomPage.OnSubmit` | src/pages/JoinRoom.tsx:38-55 | With an empty language it does nothing. A successful join stores the identity under `room_${code}_user` with the participant id and then navigates to `/room/${code}`. A failed join neither stores nor navigates. |
| `Js.TrimStart` | src/components/MessageInput.tsx:16 | It drops a leading run of whitespace, which leaves a suffix that does not start with whitespace. |
| `Js.TrimEnd` | src/components/MessageInput.tsx:16 | It drops a trailing run of whitespace, which leaves a prefix that does not end with whitespace. |
| `Js.Trim` | src/components/MessageInput.tsx:17 | The trimmed text is empty or has no whitespace at either end. |
| `Js.TrimIsSlice` | src/components/MessageInput.tsx:17 | The trimmed text is a slice of the input whose two flanks are all whitespace. |
| `Js.TrimEmptyIff` | src/pages/Room.tsx:95 | A text trims to empty iff it is all whitespace, which is exactly when `if (text.trim())` fails. |
| `Js.TrimIdempotent` | src/components/MessageInput.tsx:17 | Trimming twice is trimming once. |
| `MessageInput.SubmitPayload` | src/components/MessageInput.tsx:14-20 | It sends iff the text is not blank and the input is enabled, and what it sends is the trimmed, non-empty text. |
| `MessageInput.TranscriptionPayload` | src/components/MessageInput.tsx:22-26 | It sends iff the transcription is not blank, whatever the disabled flag, and it sends the trimmed text. |
| `MessageInput.SubmitButtonMatchesGuard` | src/components/MessageInput.tsx:42 | The send button is disabled (`SubmitDisabled`) iff a submit would send nothing, and what is sent is already trimmed. |
| `MessageInput.Input.HandleSubmit` | src/components/MessageInput.tsx:14-20 | On a send the trimmed text is passed on and the field is cleared. Otherwise the field and the sent list are unchanged. |
| `MessageInput.Input.HandleTranscription` | src/components/MessageInput.tsx:22-26 | It passes the trimmed transcription on iff it is not blank, and the typed text is left alone. |
| `MessageInput.Input.Change` | src/components/MessageInput.tsx:34 | The field's text becomes the state. |
| `MessageInput.Input.constructor` | src/components/MessageInput.tsx:12 | The message state starts empty. |
| `RoomPage.RenderBranch` | src/pages/Room.tsx:109-141 | Loading is shown iff the URL has a code and any of room code, participant id or language is unset. Otherwise Waiting is shown iff room code and participant id are set and the viewer is the only participant. Active requires all three set and not alone. Blank occurs only without a URL code. |
| `RoomPage.InRoomIsWaitingOrActive` | src/pages/Room.tsx:109-143 | With the room set in the store, the page waits iff the viewer is alone and is active otherwise. |
| `RoomPage.JoinAttempt` | src/pages/Room.tsx:32-71 | It acts only when the URL has a code, the store has no room code and no attempt was made yet (`MayAttemptJoin`); then it marks the attempt. A non-6-digit code goes to "/". A valid code with nothing stored goes to "/join". An unreadable stored entry is removed and the page goes to "/join". A stored identity when a participant id is already set does nothing. It calls `joinRoom` at most once, and iff a valid code has a stored identity and there is no participant id. A rejected join then removes the stored key and goes to "/". |
| `RoomPage.FailedJoinForgetsIdentity` | src/pages/Room.tsx:45-51 | A failed rejoin calls `joinRoom`, removes the stored key, then navigates home. |
| `RoomPage.Page.RunJoinEffect` | src/pages/Room.tsx:32-66 | The effect updates the ref and appends exactly the join attempt's effects. |
| `RoomPage.Page.JoinEffectCleanup` | src/pages/Room.tsx:68-70 | The cleanup resets the attempt flag. |
| `RoomPage.Page.Unmount` | src/pages/Room.tsx:74-91 | On unmount the room state is cleared iff the URL has a code and the store's room code equals it. |
| `RoomPage.Page.HandleSendMessage` | src/pages/Room.tsx:94-98 | It forwards the text, untrimmed, iff it is not blank. |
| `RoomPage.Page.HandleLeaveRoom` | src/pages/Room.tsx:100-106 | It removes the stored key for the URL code before calling `leaveRoom` and navigating to "/". |

## Findings

| source | as written | input that shows it | evidently intended | confidence | as-written member | corrected member |
|---|---|---|---|---|---|---|
| src/pages/JoinRoom.tsx:43 | `const { participantId } = await joinRoom(...)` destructures the `undefined` that `joinRoom` resolves with. This throws a TypeError after every successful join, so the identity is never stored and the page never navigates to the room; the form shows the TypeError's message. | room code "482193", name "bob", language "de", with a join that succeeds | store `{ userName, language, participantId }` under `room_482193_user` and navigate to `/room/482193` | high; not executed | `JoinRoomPage.AsWrittenNeverEntersRoom` | `JoinRoomPage.OnSubmit` |

## Left out

- Backend semantics: Supabase query building, `.single()`, row filters and channel wiring are not modelled. Each call is a `Request` entry, and its reply is an argument.
- Interleaving: each action and each realtime handler is one atomic step. The `isLoading` value between the awaited calls is not observable in the model. Callbacks racing in-flight actions are not modelled.
- The lookups inside the message and translation handlers are not modelled: their results are fields of the `RoomEvent` values.
- `nanoid` and `Math.random` are not modelled: ids are arguments, and so is the code offset `r`.
- Subscriptions: only the `Subscribe` and `RemoveAllChannels` requests are recorded. Several live channels after repeated creates or joins are not tracked.
- `RoomStore.Store.LeaveRoom`: a Supabase delete that returns an error still resolves its promise, so the room is cleared; only a rejected promise (`Failed`) keeps the state.
- `RoomStore.Store.SendMessage`: the translation inserts run concurrently. Their combined settlement is the argument `translationsSettled`; an insert that resolves with an error is ignored, as in the code.
- The fallback messages "Failed to create room", "Failed to join room" and "Failed to send message" are not modelled, because every value the actions throw is an `Error` with a message.
- `RoomEvents.LanguagesToTranslate`: does not state that the languages come in first-occurrence order. Translations are requested concurrently, so the order has no effect.
- `RoomEvents.TranslateText`: the placeholder is a string template with no contract of its own; its lemmas state its shape.
- `RoomPage.StoredUser`: `JSON.parse` is not modelled. A stored entry is given as absent (also for ""), unreadable, or an identity.
- Language names (`getLanguageName`), `toUpperCase` of language codes, timestamps, animation and styling are not modelled; they are presentation only.
- src/lib/openai.ts and src/components/AudioRecorder.tsx are not part of this model; they wrap a hosted API and the microphone.
- The pages CreateRoom, Home and App, and the components Header, Button, RoomCodeDisplay, LanguageSelector and MessageList (beyond who counts as the sender), are not part of this model: they are markup and wiring.
- The form library's validation flow on the join page (required fields and error display) is not modelled; the `^\d{6}$` pattern itself is `RoomCode.IsSixDigitCode`.
