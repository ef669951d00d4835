# NearNest client core in Dafny

NearNest is a location-based chat client: a React single-page app over a hosted
backend (authentication, a `profiles` table, public `messages`, `dm_messages`
and `reports`). This project models the client's own logic and proves what it
promises:

- the session gate that picks exactly one screen;
- the block list and its JSON persistence in `localStorage`;
- the message composer and the 1500 ms send throttle of the public chat and
  of direct messages;
- the relative-time labels;
- the profile-creation retry chain;
- the location, sign-in and per-message-menu state machines;
- the signed-out flag and the configuration check.

Every backend call is a parameter of the operation that awaits it: an
optional error message, a `QueryResult` (an error, or data that may be
null), or an `InsertOutcome`. Component state is a class with one method per
event handler. A handler that awaits is split at the await whenever other
events can run before the answer: for example `Composer.MessageComposer.Submit`
then `SendReturned`, `Auth.AuthScreen.Submit` then `OnSignInResult`, and the
direct-message send, `Conversation.DMConversation.BeginSend` then `SendAnswered`
(and `Submit` then `SubmitAnswered` for the form around it). The public chat
send and the profile-creation chain are kept whole: the composer's `sending`
flag and the loader screen keep a second one from starting while one is awaited. Times are whole milliseconds. Coordinates are whole
thousandths of a degree. Strings are sequences of characters.

Files:

- `types.dfy`: shared records.
- `text.dfy`: JavaScript `trim`, `slice(0, n)` and decimal rendering.
- `storage.dfy`: `localStorage`, where any access may throw.
- `json.dfy`: `JSON.stringify` and `JSON.parse` for arrays of strings.
- `throttle.dfy`: the shared throttle rule.
- `time_format.dfy`: the two `formatTime` variants.
- One module per component or hook: `session.dfy`, `block_list.dfy`,
  `signed_out.dfy`, `config.dfy`, `composer.dfy`, `chat_screen.dfy`,
  `dm_conversation.dfy`, `message_item.dfy`, `profile_setup.dfy`,
  `location_setup.dfy` and `auth_screen.dfy`.

## Model

| member | source | states |
|---|---|---|
| Session.ChooseScreen | src/App.tsx:57-79 | The loader shows exactly while loading. Auth shows exactly when not loading and there is no user, whatever the profile. Profile setup shows exactly with a user and no profile. Location setup shows exactly when the profile is at (0, 0). Chat shows exactly when the profile has a non-zero coordinate. So each state gets exactly one screen. |
| Session.HasLocation | src/App.tsx:73-74 | A profile has a location exactly when one of its rounded coordinates is non-zero; `Session.ChooseScreen` uses it to pick location setup or chat. |
| Session.ProfileFromFetch | src/App.tsx:41-50 | The fetched profile is present exactly when the query succeeded with a row, and it is that row; an error or no row gives none. |
| Session.App.constructor | src/App.tsx:12-14 | Starts with no user, no profile and loading, so the loader is shown. |
| Session.App.OnSessionResolved | src/App.tsx:17-25 | The user comes from the session and loading ends. Without a user the profile is cleared and the auth screen shows. With a user a profile fetch starts for that user's id. |
| Session.App.OnAuthStateChange | src/App.tsx:29-36 | Same as the session check on user and profile, but loading is left unchanged, so it never goes back to true. |
| Session.App.OnProfileFetched | src/App.tsx:20 | The profile becomes the fetch result; user and loading are unchanged. |
| Session.App.OnProfileCreated | src/App.tsx:52 | The profile becomes the created row. |
| Session.App.OnLocationSet | src/App.tsx:53-55 | A refetch happens exactly when there is a user, and it is for that user's id. |
| Session.ReturningUserSeesProfileSetup | src/App.tsx:17-24 | When the first session check finds a user, that user's profile is fetched, and until the answer arrives there is no profile, so the profile-setup screen is shown (App.tsx:69-70), even to a user who already has a profile. |
| Session.StaleProfileFetch | src/App.tsx:17-36 | A user signs in, signs out before their profile fetch answers, the answer arrives, and a second user signs in. Then the second user is signed in with the first user's profile, and the chat is shown, until the second fetch answers. The answer is never checked against the user it was fetched for. |
| BlockList.Add | src/hooks/useBlockList.ts:33-34 | Adding h makes h a member and keeps every other handle's membership. Existing members keep their order. Adding an existing member is a no-op. No duplicates are introduced. |
| BlockList.AddIdempotent | src/hooks/useBlockList.ts:31-37 | Blocking h twice gives the same set as blocking it once. |
| BlockList.AddAll | src/hooks/useBlockList.ts:10 | `new Set(arr)` holds exactly the elements of the array, without duplicates. |
| BlockList.AddAllFresh | src/hooks/useBlockList.ts:10 | When the array has no duplicates, the set is the array itself, in order (proved by induction). |
| BlockList.LoadBlocked | src/hooks/useBlockList.ts:5-14 | Loads the empty set when reading throws, when nothing is stored, when "" is stored, or when the text is not an array of strings. Otherwise loads exactly the stored elements, without duplicates. |
| BlockList.Saved | src/hooks/useBlockList.ts:16-22 | A save writes the key and leaves every other key as it was. |
| BlockList.SaveLoadRoundTrip | src/hooks/useBlockList.ts:5-18 | Loading what was saved gives back the same set, in the same order. |
| BlockList.BlockList.constructor | src/hooks/useBlockList.ts:25-29 | The initial set is loaded from storage. The save effect then writes it back, or storage is unchanged when it cannot be written. |
| BlockList.BlockList.BlockUser | src/hooks/useBlockList.ts:31-37 | Afterwards h is blocked and every other handle is blocked exactly when it was before. The new set is the old one with h added, whether or not the storage write succeeds. Storage holds the new set when it is writable. With working storage, reloading gives the new set. |
| BlockList.BlockList.IsBlocked | src/hooks/useBlockList.ts:39-42 | A handle is blocked exactly when it is in the current set; `BlockUser` states how the set changes. |
| BlockList.BlockList.Save | src/hooks/useBlockList.ts:16-29 | The save effect writes the current set under the block-list key when storage is writable, leaving every other key as it was, and changes nothing when it is not. |
| JsonArray.DecodeEncode | src/hooks/useBlockList.ts:9-18 | Parsing what `JSON.stringify` wrote for an array of strings gives back the same array. This covers every escape it writes. |
| JsonArray.Encode | src/hooks/useBlockList.ts:18 | `JSON.stringify` of an array of strings starts with `[`; `JsonArray.DecodeEncode` states that it reads back. |
| JsonArray.Decode | src/hooks/useBlockList.ts:9-10 | `JSON.parse` restricted to arrays of strings, anything else unreadable; `JsonArray.DecodeEncode` states the round trip. |
| JsonArray.EscapeBodyParses | src/hooks/useBlockList.ts:18 | A string literal's escaped body, read back, is the original string, and reading stops right after the closing quote (proved by induction). |
| JsonArray.ElementsParse | src/hooks/useBlockList.ts:18 | The comma-separated literals of a non-empty array, read back, are the original strings, in order (proved by induction). |
| SignedOut.GetSignedOut | src/hooks/useSignedOut.ts:5-11 | True exactly when the stored value is "true"; false when reading throws or nothing is stored. |
| SignedOut.Written | src/hooks/useSignedOut.ts:18-22 | Writing true stores "true"; writing false removes the key; other keys are untouched. |
| SignedOut.WriteThenRead | src/hooks/useSignedOut.ts:5-22 | Reading the flag after writing it gives the value written. |
| SignedOut.SignedOutFlag.constructor | src/hooks/useSignedOut.ts:14 | The initial state is what storage says. |
| SignedOut.SignedOutFlag.SetSignedOut | src/hooks/useSignedOut.ts:16-27 | The state becomes the value even when storage throws. Storage changes only when writable. With working storage, a reload reads the value back. |
| Config.FromEnv | src/config.ts:8-9 | An unset variable reads as "". |
| Config.SupabaseUrl | src/config.ts:11-12 | The variable when non-empty, otherwise the placeholder; never empty. |
| Config.SupabaseAnonKey | src/config.ts:13-14 | The variable when non-empty, otherwise the placeholder; never empty. |
| Config.IsConfigValid | src/config.ts:16-18 | Valid exactly when both variables are set, non-empty and different from their placeholders. So an unset or empty variable makes it invalid. |
| Text.TrimSpec | src/components/MessageComposer.tsx:16 | The trimmed text is no longer than the input, is empty exactly when the input is all whitespace, and neither starts nor ends with whitespace. |
| Text.TrimIsSlice | src/components/MessageComposer.tsx:23 | The trimmed text is a contiguous part of the input, with only whitespace cut away on each side. |
| Text.TrimIdempotent | src/components/MessageComposer.tsx:23 | Trimming twice is trimming once, so the text handed on is already trimmed. |
| Text.Take | src/components/MessageComposer.tsx:44 | `slice(0, n)` keeps the first min(n, length) characters. |
| Text.DecimalRoundTrip | src/components/DMConversation.tsx:26-27 | A rendered whole number reads back as itself (proved by induction). |
| Composer.ValidIffNotBlank | src/components/MessageComposer.tsx:16 | A draft of at most 500 characters is valid exactly when it is not blank. |
| Composer.IsValidDraft | src/components/MessageComposer.tsx:16 | A draft is valid exactly when its trimmed text has 1 to 500 characters. |
| Composer.MessageComposer.constructor | src/components/MessageComposer.tsx:11-13 | Starts empty, not sending and not throttled. |
| Composer.MessageComposer.Accepts | src/components/MessageComposer.tsx:20 | A submit goes ahead exactly when the draft is valid, no send is in flight and the composer is not throttled. |
| Composer.MessageComposer.SendDisabled | src/components/MessageComposer.tsx:54 | A submittable draft never has a disabled button. An enabled button means the submit is accepted, or the composer is throttled. |
| Composer.MessageComposer.Edit | src/components/MessageComposer.tsx:44 | The draft becomes the edit cut to 500 characters, so it never exceeds 500. |
| Composer.MessageComposer.Submit | src/components/MessageComposer.tsx:18-26 | When the draft is invalid, sending or throttled, nothing changes and nothing is sent. Otherwise sending is set, the draft is cleared and exactly the trimmed draft is sent. |
| Composer.MessageComposer.SendReturned | src/components/MessageComposer.tsx:26-33 | Sending ends either way. A failure restores the trimmed text, throttles and arms a timer. A success leaves the draft empty and the throttle as it was. |
| Composer.MessageComposer.ThrottleTimerFires | src/components/MessageComposer.tsx:32 | The timer clears `throttled` and changes nothing else; nothing else clears it. |
| Throttle.SpacedApart | src/components/ChatScreen.tsx:67-87 | In a history of accepted sends, sends k apart are at least 1500·k ms apart, so any two are at least 1500 ms apart (proved by induction). |
| Throttle.AdmittedKeepsSpaced | src/components/ChatScreen.tsx:67-69 | Accepting a send the guard admits keeps the history spaced. |
| Throttle.Admits | src/components/ChatScreen.tsx:69 | A send is admitted exactly when `now` is at least 1500 ms after the last accepted send; the direct-message guard at src/components/DMConversation.tsx:81 is the same. |
| Chat.FeedCutoff | src/components/ChatScreen.tsx:23 | The cutoff is exactly one day, 86 400 000 ms, before now. |
| Chat.SendRow | src/components/ChatScreen.tsx:74-79 | The inserted row carries the profile's handle and rounded coordinates and the trimmed body. |
| Chat.Visible | src/components/ChatScreen.tsx:104 | A message is visible exactly when it was fetched and its handle is not blocked (proved by induction), and the filter never lengthens the feed. The order it keeps is stated by `Chat.VisibleConcat`. |
| Chat.FeedMessagesShowRelativeTime | src/components/ChatScreen.tsx:23-28 | A message fetched at `fetchNow` and labelled later, at `renderNow`, gets a date label exactly when the time since the fetch has reached its distance from the cutoff, that is once it is a day old. Labelled at the fetch instant, only a message created exactly at the cutoff gets a date label. |
| Types.FetchedRows | src/components/ChatScreen.tsx:31-36 | A fetch error or a null answer leaves an empty list; otherwise the list is the rows returned. The thread fetch in src/components/DMConversation.tsx treats its answer the same way. |
| Chat.VisibleConcat | src/components/ChatScreen.tsx:104 | The filter distributes over concatenation, so visible messages keep their relative order (proved by induction). |
| Chat.VisibleAllWhenNoneBlocked | src/components/ChatScreen.tsx:104 | When no fetched handle is blocked, every message is visible, in order. |
| Chat.BlockHidesHandle | src/components/ChatScreen.tsx:104 | After blocking h, the feed is the previous feed minus h's messages. |
| Chat.ReportFor | src/components/ChatScreen.tsx:90-102 | Without a signed-in user nothing is inserted. Otherwise the row carries the message id, the user's id and the reason, where a missing reason is null. |
| Chat.ChatScreen.OnMessagesFetched | src/components/ChatScreen.tsx:31-38 | The feed is replaced by the fetch result, and both loading and refreshing end. |
| Chat.ChatScreen.constructor | src/components/ChatScreen.tsx:16-20 | Starts with an empty feed, loading, not refreshing, the last-send time 0 and nothing inserted. |
| Chat.ChatScreen.RefreshDisabled | src/components/ChatScreen.tsx:123 | The refresh button is disabled while refreshing or loading. |
| Chat.ChatScreen.Refresh | src/components/ChatScreen.tsx:62-65 | A refresh marks the feed as refreshing. |
| Chat.ChatScreen.HandleSend | src/components/ChatScreen.tsx:67-88 | Inside 1500 ms of the last accepted send it is refused, with no insert and no change. Otherwise one row is inserted with the profile's handle and coordinates and the trimmed body. A failed insert returns false and changes nothing else. A success returns true and records now as the last send. Accepted sends stay spaced. |
| Chat.ChatScreen.VisibleMessages | src/components/ChatScreen.tsx:104 | The rendered feed is the fetched messages whose handle is not in the block list. |
| TimeFormat.BucketOf | src/components/DMConversation.tsx:21-29 | "Now" exactly below 60 000 ms, including negative differences. Whole minutes 1–59 below an hour, and whole hours 1–23 below a day, each rounded down. A date label from a day on. |
| TimeFormat.ShortLabel | src/components/DMConversation.tsx:21-29 | The direct-message label of a bucket; its minute and hour labels are stated by `TimeFormat.ShortMinutesLabel` and `TimeFormat.ShortHoursLabel`. |
| TimeFormat.AgoLabel | src/components/MessageItem.tsx:11-24 | The public-message label of a bucket; `TimeFormat.AgoExtendsShort` relates it to the short label. |
| TimeFormat.BucketMonotone | src/components/DMConversation.tsx:24-28 | A larger difference never gets a younger label. |
| TimeFormat.ShortMinutesLabel | src/components/DMConversation.tsx:26 | The minute label is digits then "m", and the digits read back as floor(diff / 60000), between 1 and 59. |
| TimeFormat.ShortHoursLabel | src/components/DMConversation.tsx:27 | The hour label is digits then "h", and the digits read back as floor(diff / 3600000), between 1 and 23. |
| TimeFormat.AgoExtendsShort | src/components/MessageItem.tsx:11-24 | The public label uses the same thresholds as the direct-message one: "now" below a minute, the short label plus " ago" below a day, the date label from a day on. |
| Conversation.Thread | src/components/DMConversation.tsx:40-47 | The thread query keeps exactly the messages between the two participants. |
| Conversation.InThread | src/components/DMConversation.tsx:44-46 | A message belongs to the thread exactly when it was sent by one participant to the other, in either direction. |
| Conversation.ThreadOldestFirst | src/components/DMConversation.tsx:40-47 | Rows ordered oldest first give a thread ordered oldest first (proved by induction). |
| Conversation.ThreadSymmetric | src/components/DMConversation.tsx:44-46 | The thread filter is the same from either side (proved by induction). |
| Conversation.FetchedThreadShown | src/components/DMConversation.tsx:40-54 | When the thread query over the whole message table succeeds, the conversation shows exactly the messages between the two participants, oldest first when the table is ordered by creation time. Each one is either one's own to the other user or the other user's to oneself. |
| Conversation.IsOwn | src/components/DMConversation.tsx:117 | A message is one's own exactly when one sent it. |
| Conversation.NotOwnIsFromOther | src/components/DMConversation.tsx:117 | In a thread with someone else, a message that is not one's own came from the other participant to oneself. |
| Conversation.DMConversation.OnMessagesFetched | src/components/DMConversation.tsx:49-55 | The thread is replaced by the fetch result and loading ends. |
| Conversation.DMConversation.Type | src/components/DMConversation.tsx:142-147 | The text area keeps at most 500 characters. |
| Conversation.DMConversation.constructor | src/components/DMConversation.tsx:36-38 | Starts with no messages, loading, the last-send time 0, an empty text area, nothing inserted and no send in flight. |
| Conversation.DMConversation.BeginSend | src/components/DMConversation.tsx:79-87 | The send is admitted exactly when `now` is at least 1500 ms after the last-send time as read at this moment; a refused send inserts nothing. An admitted send inserts the trimmed body from this profile to the other user and leaves the last-send time alone until its answer. |
| Conversation.DMConversation.SendAnswered | src/components/DMConversation.tsx:89-94 | The result is true exactly when the insert had no error. Only a success moves the last-send time, to that send's own `now`, and records it as accepted; a failure changes nothing else. |
| Conversation.DMConversation.Submit | src/components/DMConversation.tsx:132-137 | Blank input is not admitted and inserts nothing. Otherwise admission is that of `BeginSend` on the trimmed text; a refusal inserts nothing. |
| Conversation.DMConversation.SubmitAnswered | src/components/DMConversation.tsx:137-138 | The text area is cleared exactly when the send returned true; otherwise it is kept. |
| Conversation.OverlappingSubmits | src/components/DMConversation.tsx:79-93 | Two submits 1 ms apart, the second made before the first insert is answered, are both admitted: the same text is inserted twice, and the two accepted sends are not 1500 ms apart. Nothing in the component guards against this. |
| MessageItem.MessageItem.constructor | src/components/MessageItem.tsx:32 | The menu starts closed. |
| MessageItem.MessageItem.ActionsShown | src/components/MessageItem.tsx:53 | The actions (the ⋮ button) are rendered exactly for another person's message. |
| MessageItem.MessageItem.MenuShown | src/components/MessageItem.tsx:53-65 | The menu shows exactly for another person's message while open, and only inside the actions. |
| MessageItem.MessageItem.ToggleMenu | src/components/MessageItem.tsx:58 | The ⋮ button flips the menu. |
| MessageItem.MessageItem.Report | src/components/MessageItem.tsx:34-37 | Reports the message id with no reason and closes the menu. |
| MessageItem.MessageItem.Block | src/components/MessageItem.tsx:39-42 | Blocks the message's handle and closes the menu. |
| ProfileSetup.GeneratedHandleIsValid | src/components/ProfileSetup.tsx:5-8 | For an id starting with eight hex digits (as a UUID does), the handle is "User_" followed by those eight characters. It has 13 characters and satisfies the 3–20 letters, digits and underscore rule. |
| ProfileSetup.GenerateHandle | src/components/ProfileSetup.tsx:5-8 | "User_" followed by the first eight characters of the id; `ProfileSetup.GeneratedHandleIsValid` states its shape and validity. |
| ProfileSetup.ProfileRow | src/components/ProfileSetup.tsx:24-29 | The inserted profile row carries the user's id, the handle and the unset location (0, 0). |
| ProfileSetup.Retries | src/components/ProfileSetup.tsx:34 | Another attempt follows exactly when the insert failed with code 23505 and the attempt number is below 3. |
| ProfileSetup.Chain | src/components/ProfileSetup.tsx:18-43 | A chain makes at least one attempt, and from attempt 0 at most four (attempts 0–3). |
| ProfileSetup.ChainRows | src/components/ProfileSetup.tsx:18-36 | The i-th row of a chain is the one attempt `attempt + i` inserts: the user's id, a handle made from that attempt's id, and coordinates (0, 0) (proved by induction). |
| ProfileSetup.ChainEnds | src/components/ProfileSetup.tsx:33-42 | Every attempt but the last got a 23505 conflict below attempt 3, and the last did not. The last attempt decides the end: success gives the returned row, anything else gives its message (proved by induction). |
| ProfileSetup.ChainBound | src/components/ProfileSetup.tsx:34-35 | A chain started at 0 inserts at most four times. |
| ProfileSetup.FourConflictsFail | src/components/ProfileSetup.tsx:34-39 | Four conflicts in a row mean four inserts, and the fourth conflict's message is shown. |
| ProfileSetup.OtherErrorStops | src/components/ProfileSetup.tsx:38-39 | Any other error ends the chain at once with its message. |
| ProfileSetup.ProfileSetup.CreateProfile | src/components/ProfileSetup.tsx:18-43 | The loop ends as the chain specifies and inserts exactly its rows. The error is the failure message, or "" after a success, since each attempt clears it. `onComplete` receives the returned row. |
| ProfileSetup.ProfileSetup.constructor | src/components/ProfileSetup.tsx:16 | Starts with no error, nothing inserted and nothing completed. |
| ProfileSetup.ProfileSetup.ErrorShown | src/components/ProfileSetup.tsx:50 | The error panel with "Try again" shows exactly when the error text is non-empty. |
| ProfileSetup.ProfileSetup.TryAgain | src/components/ProfileSetup.tsx:59 | Restarts the chain at attempt 0, so it makes at most four more inserts. On success `onComplete` receives the returned row; otherwise what was completed before stays. |
| LocationSetup.PositionErrorState | src/components/LocationSetup.tsx:47-54 | Code 1 gives denied with the fixed denial text. Any other code gives error with the browser's message, or "Failed to get location." when that is empty. |
| LocationSetup.LocationSetup.constructor | src/components/LocationSetup.tsx:12-15 | Starts idle with an empty message. |
| LocationSetup.LocationSetup.RequestDisabled | src/components/LocationSetup.tsx:90 | A disabled request button is never shown together with the error panel. |
| LocationSetup.LocationSetup.ErrorPanelShown | src/components/LocationSetup.tsx:68 | The error panel shows exactly in the denied and error states. |
| LocationSetup.LocationSetup.RequestLocation | src/components/LocationSetup.tsx:17-25 | Moves to requesting with the message cleared. Without geolocation it moves to error with the fixed "not supported" message. |
| LocationSetup.LocationSetup.OnPosition | src/components/LocationSetup.tsx:28-37 | Moves to updating and sends this profile's rounded coordinates. |
| LocationSetup.LocationSetup.OnUpdateResult | src/components/LocationSetup.tsx:39-45 | `onComplete` is called exactly when the update succeeded. An error moves to error with the backend's message. |
| LocationSetup.LocationSetup.OnPositionError | src/components/LocationSetup.tsx:47-54 | The new state and message are those of `PositionErrorState`. |
| LocationSetup.LocationSetup.TryAgain | src/components/LocationSetup.tsx:77-80 | Back to idle with an empty message. |
| Auth.ViewFor | src/components/AuthScreen.tsx:39-67 | The sent panel shows exactly when a link was sent, even with a broken configuration. The configuration prompt shows exactly when not sent and the configuration is invalid. The form shows exactly when not sent and the configuration is valid. |
| Auth.AuthScreen.constructor | src/components/AuthScreen.tsx:6-10 | Starts idle with an empty email and message, and with the configuration's validity. |
| Auth.AuthScreen.InputsDisabled | src/components/AuthScreen.tsx:77-83 | The email field and the button are disabled exactly while sending. |
| Auth.AuthScreen.EditEmail | src/components/AuthScreen.tsx:73 | The email becomes the typed value. |
| Auth.AuthScreen.Submit | src/components/AuthScreen.tsx:12-22 | A blank address changes nothing and sends nothing. Otherwise it moves to sending, clears the message and requests the trimmed address. |
| Auth.AuthScreen.OnSignInResult | src/components/AuthScreen.tsx:24-30 | An error moves to error with the backend's message; success moves to sent. |
| Auth.AuthScreen.UseDifferentEmail | src/components/AuthScreen.tsx:45-48 | Back to idle with an empty email. |

## Left out

- Backend calls (auth, select, insert, update, `.order`, `.gte`, `.or`) are parameters: the outcome each returns is an input.
  - Server-side ordering and filtering are not modelled, except for the direct-message thread filter in `Conversation.Thread`. `Conversation.FetchedThreadShown` states what the conversation shows when the backend answers with that filter; `OnMessagesFetched` itself takes whatever rows arrive.
  - The rows a feed query returns are taken as given.
- Realtime subscriptions and the refetch on insert are event plumbing and are not modelled. So is unsubscribing.
- Every handler that awaits is split at its await, except two, so a late answer can arrive after any other event:
  - `App`'s profile fetch (`Session.App.OnSessionResolved`, `OnAuthStateChange` and `OnLocationSet`, answered by `OnProfileFetched`). `Session.StaleProfileFetch` shows a fetch for a user who has since signed out setting the profile of the next user.
  - The location flow (`RequestLocation`, then `OnPosition` or `OnPositionError`, then `OnUpdateResult`), the sign-in request, the composer's send, the direct-message send and both feed fetches (`OnMessagesFetched`).
  - Not split: `ProfileSetup.ProfileSetup.CreateProfile` runs its whole insert chain as one step, so a sign-out or screen change while the chain is still inserting is not modelled. `Chat.ChatScreen.HandleSend` is one step because the composer's `sending` flag keeps a second send from starting while one is awaited.
- `setTimeout` is an event (`ThrottleTimerFires`), and the throttle delay is not measured.
- `Date.now` is a parameter (`now`), and message creation times are whole milliseconds.
- Parsing ISO timestamps is not modelled. Neither is the `Date` arithmetic around it.
- `toLocaleDateString` is an opaque label passed in by the caller.
- `crypto.randomUUID` ids and `navigator.geolocation` positions and errors are inputs.
- The rounding of coordinates to three decimals (`src/utils/geo.ts`) is floating point and is not modelled. Positions arrive already as whole thousandths.
- Strings are sequences of Unicode scalar values. JavaScript measures length and slices in UTF-16 code units, so characters outside the Basic Multilingual Plane count once here and twice in the source.
- Composer.IsValidDraft: the 500 bound is measured in characters, not UTF-16 code units.
- JsonArray.Decode: reads JSON arrays whose elements are all strings. It treats any other JSON value as unreadable, including arrays that mix in other kinds of values and `\u` escapes of UTF-16 surrogates.
  - The client only ever writes arrays of strings without surrogate escapes, and the round trip is proved for everything it writes.
- BlockList.LoadBlocked: a stored array that mixes strings with other values loads here as the empty set. The source would keep its elements, and its non-string elements could never match a handle anyway.
- The `console.error` logging, focus handling and all markup are not modelled, beyond the enabled, disabled and shown conditions above.
- The list screens `NearbyUserList`, `MessageFeed` and `InboxScreen` are not part of this model. Neither are the type declarations, `config.example.ts` and the build configuration.
- ProfileSetup.ProfileSetup.CreateProfile: the retry bound is stated as the code has it. A conflict is retried while the attempt number is below 3, so a chain makes up to four inserts: the first attempt plus three retries. Four conflicts in a row end in the error.
- An insert error with an empty message leaves `ProfileSetup.ProfileSetup.ErrorShown` false, as in the source, so the loader stays up with no "Try again".
