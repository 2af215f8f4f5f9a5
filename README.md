# go-rufkian core, modelled in Dafny

go-rufkian is a language-practice relay: a user talks to a German-speaking persona on a chat
model, the telephonist keeps one live conversation session per user, persists it when it is
stopped or idle, and has it translated afterwards; the companion reads stored dialogs back and
exports vocabulary as an Anki package. This project models:

- the message and dialog records and their two helpers, `Empty` and `WithoutSystem`
  (`model.dfy`, module `Model`);
- the session controller `Talk` / `Stop` / `CleanUp` with the reply clean-up
  `withoutChatPrefix` and `mistralResponse.Message` (`walkietalkie.dfy`, module `WalkieTalkie`);
- the telephonist's `StoreDialog`, which serialises the messages to a JSON array
  (`dialog_store.dfy`, module `DialogStore`);
- the companion's `ToModel`, which reads that array back (`dialog_record.dfy`, module `DialogRecord`);
- the Anki collection builder `NewSimpleAnki`, `GetTable` and the `toRow` flatteners
  (`apkg.dfy`, module `Apkg`);
- the translator client's empty-batch guard (`translator.dfy`, module `Translator`);
- a value model of the fastjson operations those use (`json.dfy`, module `Json`) and the
  `Option`/`Result` wrappers (`wrappers.dfy`).

The controller is a class. Its registry is a `map` field, and a ghost log `storeCalls` records
every dialog handed to the store. `Talk` and `Stop` are proved equal to the functions `TalkSpec`
and `StopSpec`. `CleanUp` is proved against the planned sequence of stops along the order in
which the sweep visits the keys. Every method also preserves `Valid`: each live session has the
shape Talk builds. Services outside the core are function-valued parameters:

| service | parameter |
|---|---|
| chat-completion API | `ChatCompletion` |
| SQL insert | `StoreQuery` |
| store client, as seen by the controller | `StoreDialogCall` |
| translator | `Translate` |
| dialog update | `UpdateDialogCall` |
| fastjson parser | `Parse` |
| random source | `rand` |

The clock is an integer `now`, or `nowNanos`, in nanoseconds.

Behaviour of the code that the model keeps, although it may be unexpected:

- A nil database handle makes `StoreDialog` fail with the error "attempt to user empty db". It
  does not return a silent zero result. The nil check comes before the empty-dialog check.
- `withoutChatPrefix` slices off `len(chatPrefixContent)` characters of every non-empty
  assistant reply, without checking that the reply starts with the fragment. A shorter reply
  makes the slice go out of range, a run-time panic that ends the process; the model returns
  `None` and `Talk` flags it as `panicked`.
- A reply that is exactly the fragment becomes an assistant message with empty content. Such a
  message is not `Empty`, so `Talk` stores the turn and answers "" (`BareFragmentReplyIsStored`).
- When the store fails, the translation goroutine still runs, on the zero dialog. The real
  translator then refuses the empty batch (`FailedStoreStarvesTail`).
- The translation loop indexes the messages by the translations' positions. More translations
  than messages is an index panic inside the goroutine, which ends the process; the model flags
  it as `TailOutcome.IndexPanic`.
- Card `i` gets `Due = i`, so due positions start at 0.

## Model

| member | source | states |
|---|---|---|
| Model.Empty | internal/model/message.go:19-24 | a message is empty exactly when it equals the zero message once its translation is ignored, and an empty message is never a user or assistant message |
| Model.EmptyRef | internal/model/message.go:19-24 | a message reference is empty exactly when it is nil or the zero message up to its translation |
| Model.EmptyRefCases | internal/model/message.go:19-24 | a nil message is empty; a message is empty iff role and content are empty and the primer flag is off; so no assistant message is ever empty |
| Model.WithoutSystem | internal/model/message.go:28-32 | the filtered list is no longer than the input and holds only user and assistant messages |
| Model.WithoutSystemCounts | internal/model/message.go:28-32 | every user/assistant message is kept exactly as often as it occurs and every other message is dropped completely |
| Model.WithoutSystemAppend | internal/model/message.go:28-32 | filtering a concatenation is the concatenation of the filtered parts, so kept messages stay in their order |
| Model.WithoutSystemSingleton | internal/model/message.go:28-32 | a single message survives iff its role is user or assistant |
| Model.WithoutSystemKeepsConversational | internal/model/message.go:28-32 | a list of only user/assistant messages is returned unchanged |
| Model.DropLeadingSystem | internal/model/message.go:28-32 | a leading non-conversational message before conversational ones is the only one removed |
| Model.WithoutSystemIdempotent | internal/model/message.go:28-32 | filtering twice equals filtering once |
| Model.WithoutSystemExample | internal/model/message.go:28-32 | [system, user, assistant] filters to [user, assistant] |
| Json.Get | internal/companion/database/dialog.go:35-37 | a key lookup fails exactly when the key is not among the object's keys |
| Json.GetFirstMatch | internal/companion/database/dialog.go:35-37 | a successful lookup returns the value of the first field carrying the key, so a repeated key reads as its first occurrence |
| Json.Set | internal/telephonist/database/client.go:41-44 | after setting a key, the keys are the old ones plus it, it reads back the new value, and every other key reads as before |
| Json.GetStringBytes | internal/companion/database/dialog.go:35-37 | a string is returned exactly when the value is an object holding a string under the key, and it is that string |
| Json.SetArrayItem | internal/telephonist/database/client.go:46 | the array grows to include the index (padding with null), holds the value there and keeps every other element |
| DialogStore.MessageObject | internal/telephonist/database/client.go:40-45 | the object has the keys role and content, plus translation only when it is set; each reads back the message's field and no primer flag is written |
| DialogStore.EncodeMessagesAt | internal/telephonist/database/client.go:38-47 | the array has one element per message and element i reads back message i's role, content and translation |
| DialogStore.StoreDialog | internal/telephonist/database/client.go:26-61 | the loop-built array and the result agree with the store's contract: nil handle error, ErrEmptyDialog for no messages, the zero dialog with the query's error, or the input with the returned id |
| DialogStore.NilDbComesFirst | internal/telephonist/database/client.go:27-30 | without a handle the error is "attempt to user empty db", even for an empty dialog |
| DialogStore.EmptyDialogRejected | internal/telephonist/database/client.go:32-35 | with a handle and no messages the result is the zero dialog with ErrEmptyDialog |
| DialogStore.StoreKeepsDialog | internal/telephonist/database/client.go:51-60 | success iff the query succeeds, and then the dialog is the input with only its id replaced by the query's id |
| DialogRecord.DecodeMessage | internal/companion/database/dialog.go:34-41 | role and content are the stored strings or "" when absent; translation is set iff a string is stored under it; the primer flag is off |
| DialogRecord.ToModel | internal/companion/database/dialog.go:18-51 | a parse error or a non-array value gives the zero dialog and that error; otherwise the row's id, user, start and duration with one decoded message per element |
| DialogRecord.DecodeEncode | internal/companion/database/dialog.go:33-42 | reading back the array the store writes gives every message with its role, content and translation; only the primer flag comes back false |
| DialogRecord.RoundTripWithoutPrimers | internal/companion/database/dialog.go:33-42 | messages without the primer flag survive store-then-read unchanged |
| WalkieTalkie.ResponseMessage | internal/telephonist/walkietalkie/walkietalkie.go:159-164 | the message of the last choice, or the zero message when there are no choices |
| WalkieTalkie.LastChoiceWins | internal/telephonist/walkietalkie/walkietalkie.go:159-164 | whatever choices precede it, the last one decides the message |
| WalkieTalkie.TrimLeft | internal/telephonist/walkietalkie/walkietalkie.go:190 | the result is a suffix; everything dropped is white space and the result does not start with white space |
| WalkieTalkie.TrimRight | internal/telephonist/walkietalkie/walkietalkie.go:190 | the result is a prefix; everything dropped is white space and the result does not end with white space |
| WalkieTalkie.TrimSpace | internal/telephonist/walkietalkie/walkietalkie.go:190 | the result is the contiguous middle of the input; everything dropped before and after it is white space, and it neither starts nor ends with white space |
| WalkieTalkie.TrimSpaceFixesTrimmed | internal/telephonist/walkietalkie/walkietalkie.go:190 | a string without surrounding white space is returned unchanged |
| WalkieTalkie.TrimSpaceAllSpaces | internal/telephonist/walkietalkie/walkietalkie.go:190 | a string of white space only trims to "" |
| WalkieTalkie.WithoutChatPrefix | internal/telephonist/walkietalkie/walkietalkie.go:186-193 | panics exactly for a non-empty assistant reply shorter than the fragment; otherwise clears the primer flag, keeps role and translation, and for a non-empty assistant reply keeps the trimmed text after the fragment's length; any other message is unchanged |
| WalkieTalkie.StripEchoedPrefix | internal/telephonist/walkietalkie/walkietalkie.go:186-193 | a reply that echoes the fragment comes back as the trimmed remainder, unflagged |
| WalkieTalkie.BareFragmentCleansToEmpty | internal/telephonist/walkietalkie/walkietalkie.go:186-193 | a reply that is exactly the fragment becomes an assistant message with empty content |
| WalkieTalkie.TalkRequestShape | internal/telephonist/walkietalkie/walkietalkie.go:63-66 | the request uses mistral-small and sends the session's messages, the user turn and exactly one flagged primer with the fragment, last |
| WalkieTalkie.TalkNewUser | internal/telephonist/walkietalkie/walkietalkie.go:52-83 | for an unknown user a successful Talk stores [persona, user turn, reply] started and updated now, and answers the reply |
| WalkieTalkie.TalkExistingUser | internal/telephonist/walkietalkie/walkietalkie.go:47-83 | for a known user a successful Talk appends exactly the user turn and the reply, sets the activity time and changes nothing else of the session |
| WalkieTalkie.TalkFailureKeepsRegistry | internal/telephonist/walkietalkie/walkietalkie.go:68-78 | a failed call, a reply that cannot be cleaned or an empty cleaned reply answers "" and leaves the registry as it was; of these, exactly the successful call whose reply cannot be cleaned is flagged as a panic (the crash itself is not modelled) |
| WalkieTalkie.TalkPanicsExactly | internal/telephonist/walkietalkie/walkietalkie.go:68-75 | Talk panics exactly when the call succeeds with a non-empty assistant reply shorter than the fragment, and then answers "" with the registry unchanged |
| WalkieTalkie.TalkTouchesOnlyItsUser | internal/telephonist/walkietalkie/walkietalkie.go:79-80 | no other user's entry is added, removed or changed |
| WalkieTalkie.BareFragmentReplyIsStored | internal/telephonist/walkietalkie/walkietalkie.go:74-83 | a bare-fragment reply answers "" without panic and still stores the turn with an empty assistant message |
| WalkieTalkie.StoredTurnWellFormed | internal/telephonist/walkietalkie/walkietalkie.go:54-80 | storing a user turn and a non-empty, unflagged reply keeps every session in the shape Talk builds |
| WalkieTalkie.Controller.Talk | internal/telephonist/walkietalkie/walkietalkie.go:43-84 | registry, answer and panic flag are those of the Talk contract (TalkSpec), the store is never called, and well-formed sessions stay well formed |
| WalkieTalkie.ElapsedSeconds | internal/telephonist/walkietalkie/walkietalkie.go:99-100 | the whole seconds elapsed, truncated toward zero for either sign |
| WalkieTalkie.StopRemovesEntry | internal/telephonist/walkietalkie/walkietalkie.go:87 | Stop removes the user's entry and no other |
| WalkieTalkie.StopWithoutStore | internal/telephonist/walkietalkie/walkietalkie.go:87-97 | an absent user or fewer than two conversational messages gives "" and no error, with no store call and no translation |
| WalkieTalkie.StopStores | internal/telephonist/walkietalkie/walkietalkie.go:93-124 | otherwise the store gets the filtered messages with the elapsed seconds, and its id, its error and its dialog (for the translation) are passed on |
| WalkieTalkie.StopTwice | internal/telephonist/walkietalkie/walkietalkie.go:86-97 | a second Stop for the same user is a no-op, so a session is stored at most once |
| WalkieTalkie.WellFormedSessionPersists | internal/telephonist/walkietalkie/walkietalkie.go:93-97 | in a well-formed session whose replies are assistant messages, Stop drops exactly the persona directive and the session is persisted |
| WalkieTalkie.Controller.Stop | internal/telephonist/walkietalkie/walkietalkie.go:86-125 | registry, id, error and translation input are those of StopSpec; the store log grows by exactly the stored dialog, if any; well-formed sessions stay well formed, and a well-formed session whose replies are all assistant messages is handed to the store with only its persona directive dropped |
| WalkieTalkie.TranslateTail | internal/telephonist/walkietalkie/walkietalkie.go:103-122 | the translator gets the contents in order; on its error the tail stops; more translations than messages panic; otherwise message i gets translation i, the rest are unchanged, and the update runs on that dialog |
| Translator.YaTranslate | internal/telephonist/translator/translator.go:44-47 | an empty batch is refused with "empty texts" without a request; any other batch is the request's answer |
| WalkieTalkie.FailedStoreStarvesTail | internal/telephonist/walkietalkie/walkietalkie.go:101-113 | when the store fails, the tail's dialog has no messages and the translator refuses the empty batch |
| WalkieTalkie.Stale | internal/telephonist/walkietalkie/walkietalkie.go:135 | a session is stale exactly when it has been idle for more than ten minutes; a stale session has been idle at least 600 whole seconds and a fresh one at most 600 |
| WalkieTalkie.StaleThreshold | internal/telephonist/walkietalkie/walkietalkie.go:135 | eleven idle minutes are stale; one, and exactly ten, are not |
| WalkieTalkie.SweepDone | internal/telephonist/walkietalkie/walkietalkie.go:127-140 | after the sweep exactly the fresh sessions remain, every stale session was stopped once, and well-formedness is kept |
| WalkieTalkie.Controller.CleanUp | internal/telephonist/walkietalkie/walkietalkie.go:127-140 | exactly the sessions idle past ten minutes are stopped, each once, in the visiting order; the store calls and translation inputs are those of stopping them in that order, and the rest stay untouched |
| Apkg.CardRow | pkg/apkg/model.go:124-128 | a card row is as wide as the cards column list |
| Apkg.ColRow | pkg/apkg/model.go:147-151 | the collection row is as wide as the col column list |
| Apkg.GraveRow | pkg/apkg/model.go:160-164 | a grave row is as wide as the graves column list |
| Apkg.NoteRow | pkg/apkg/model.go:181-185 | a note row is as wide as the notes column list |
| Apkg.RevlogRow | pkg/apkg/model.go:200-204 | a review row is as wide as the revlog column list |
| Apkg.CardRowMatchesColumns | pkg/apkg/const.go:4-23 | cell i of a card row is the card field named by column i of cards |
| Apkg.ColRowMatchesColumns | pkg/apkg/const.go:24-38 | cell i of the collection row is the field named by column i of col |
| Apkg.GraveRowMatchesColumns | pkg/apkg/const.go:39-43 | cell i of a grave row is the field named by column i of graves |
| Apkg.NoteRowMatchesColumns | pkg/apkg/const.go:44-56 | cell i of a note row is the field named by column i of notes |
| Apkg.RevlogRowMatchesColumns | pkg/apkg/const.go:57-67 | cell i of a review row is the field named by column i of revlog |
| Apkg.GetTable | pkg/apkg/model.go:71-100 | the rows built by the loops are those of TableRows: one row per record of the named table, in order |
| Apkg.TableRowCounts | pkg/apkg/model.go:71-100 | cards, graves, notes and revlog give one row per record, col gives exactly one row, an unknown name gives none |
| Apkg.TableRowWidths | pkg/apkg/const.go:3-68 | every row returned for a table is as wide as that table's column list |
| Apkg.Itoa | pkg/apkg/model.go:42 | the guid text is a non-empty string of decimal digits with no leading zero whose decimal value is the number |
| Apkg.Fields | pkg/apkg/model.go:46 | the fields text is the front, then the separator character 0x1F, then the back |
| Apkg.FieldsRoundTrip | pkg/apkg/model.go:46 | splitting the fields at the first separator gives back the front and the back when the front has no separator |
| Apkg.NewSimpleAnki | pkg/apkg/model.go:14-61 | the loop-built collection equals SimpleAnki, the collection of one note and one card per input note |
| Apkg.SimpleAnkiCounts | pkg/apkg/model.go:14-58 | one note and one card per input note, with no graves and no review log |
| Apkg.SimpleAnkiCol | pkg/apkg/model.go:20-35 | the collection row has id 1, version 11 and tags "{}", is created at the second of now and is modified, schema included, at the millisecond of now |
| Apkg.SimpleAnkiNotes | pkg/apkg/model.go:39-48 | note ids strictly increase, each note uses model 1, and its fields are front, separator, back |
| Apkg.SimpleAnkiCards | pkg/apkg/model.go:50-57 | card i belongs to note i, is in deck 1 and is due in position i, counting from 0 |
| Apkg.SimpleAnkiGuids | pkg/apkg/model.go:42 | each guid is the decimal text of that note's random draw |

## Left out

- Crashes from panics: `panicked` (from `Talk`) and `TailOutcome.IndexPanic` (from the
  translation tail) only flag a run-time panic. Neither the goroutine in `Stop` nor the HTTP
  handler calling `Talk` recovers, so in Go the panic ends the process: no answer is sent and
  every live session is lost. The model keeps the registry as it was and does not model the crash.
- Concurrency: `sync.Map` and the translation goroutine. Talk, Stop and CleanUp are modelled
  as atomic steps on one registry. The goroutine is `TranslateTail`, a separate step after
  `Stop` that runs on the dialog it is handed.
- `getMistralResponse` and its HTTP client, the translator's HTTP request, the SQL driver and
  fastjson's parser. Each is an oracle parameter. Only the translator's empty-batch guard is
  modelled (`Translator.YaTranslate`).
- `arr.MarshalTo(nil)` in `StoreDialog` is folded into the `StoreQuery` parameter, which receives
  the JSON value, not its text. `DecodeEncode` and `RoundTripWithoutPrimers` therefore prove the
  round trip on JSON values: they assume a parser that gives back the value the store wrote, and
  do not cover the text between writing and `Parse`.
- `IClient.UpdateDialog` is not part of this model; it is an oracle returning the error.
- Strings are `seq<char>`, while Go's `len` and slicing count bytes. The fragment and the
  persona texts are ASCII, so their lengths agree. A reply with multi-byte characters is cut
  at a character position here, but at a byte position in Go.
- WalkieTalkie.ElapsedSeconds: models `int(time.Since(start).Seconds())` on integer
  nanoseconds. The float conversion and the 64-bit range of `time.Duration` are not modelled.
- WalkieTalkie.Controller.CleanUp: every Stop in the sweep uses the same `now`. In Go, each
  Stop reads the clock again.
- WalkieTalkie.Controller.CleanUp: the visiting order of `sync.Map.Range` is unspecified. The
  model picks keys arbitrarily and returns the order as a ghost output. The Range skip for keys
  or values of the wrong type cannot happen, because the registry is typed.
- WalkieTalkie.Controller.Talk: the new session's start time and its activity time use the
  same `now`. Go reads the clock twice.
- WalkieTalkie.WellFormedSession: records that the first message is a system message, not its
  exact persona text.
- `slices.DeleteFunc` zeroes the tail of the original backing array. Nothing reads it
  afterwards, so the model does not have it.
- The collection's default configuration strings (`defaultColConf`, `defaultColModels`,
  `defaultColDecks`, `defaultColDConf`) are not part of this model. They are a parameter.
- The guid draws of `rand.Int` are a parameter `rand`, where `rand(i)` is the draw for note i.
- Go's `int` is 64 bits wide. Ids `unixMilli + i` and the time conversions are unbounded here.
- DialogRecord.ToModel: fastjson's "not an array" message carries the actual type after the
  text "value doesn't contain array"; the model keeps only that text.
- The SQLite writing and zip packaging of the Anki package, HTTP handlers, the companion's
  proxy, cookie, authentication, dictionary and graceful-shutdown code, and the `cmd` entry
  points are outside the modelled core.
