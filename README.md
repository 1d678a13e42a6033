# Chat composer input controller

This project models the input controller of the chat bottom bar in a Next.js front end for Ollama. The controller joins three input channels into one outgoing message:

- typed text, which belongs to the parent component;
- live speech-to-text, from the `useSpeechToText` hook;
- an ordered list of attached images, each encoded to a base64 data string.

It also decides when the send button is enabled, and it records what is handed to the parent's `handleSubmit` and `stop`.

The model runs as one sequential state machine. Each React `setState` is an assignment. Each browser or engine callback is a separate atomic event.

Modules:

- `Wrappers` (`wrappers.dfy`): `Option`, which stands for JavaScript's null or undefined.
- `JsText` (`jstext.dfy`): the two JavaScript string built-ins the code uses. `toUpperCase` covers ASCII letters only. `trim` removes exactly the ECMAScript WhiteSpace and LineTerminator code points.
- `Speech` (`speech.dfy`): the hook. Each transition is a pure function on `SessionState`: `Start`, `Stop`, `WithResults`, `Ended` and `TornDown`. Besides the hook's own state, `SessionState` carries the engine's "session running" flag. A successful `start()` sets it, and only the end event clears it. The class `SpeechSession` keeps this state in fields. Each of its methods performs exactly one transition; it proves `State() == Transition(old(State()))` and keeps the invariant "listening implies a running engine session". `Run` replays any sequence of events, so the lemmas can talk about whole histories.
- `Attachments` (`attachments.dfy`): the file list, with `File` as an opaque type. It holds the state updaters of `appendFiles` and `removeImageFile`, written as loop methods. The splice step is done in place on an array. It also holds the `imageToBase64` loop. The encoder `toBase64` is a function parameter that the model does not interpret.
- `ChatBottombar` (`chat_bottombar.dfy`): the class `Composer`. It holds the speech session, `input`, `isLoading`, `imageFiles` and `base64Images`. It also keeps the log of `handleSubmit` calls (`submitted`) and the count of `stop` calls. Its methods model the event handlers and effects. The displayed value and the send gate are pure functions. Three scenario methods play through one whole interaction each.

Behaviour of the code that a reader might not expect (the model follows the code):

- `stopListening` sets `isListening` to false at once. The hook does not wait for the engine's end-of-session event to do it. Only `onend` clears the transcript.
- Between `stopListening` and the engine's end event, the engine's session is still running. A new `startListening` passes the hook's guard, but the engine's `start()` throws, so `isListening` stays false. The model keeps the engine's own `engineActive` flag for this.
- `removeImageFile` uses JavaScript `splice`. A negative index therefore counts from the end and removes an entry (`-1` removes the last one). Only an index at or past the end does nothing.
- Enter without Shift submits without checking the send gate. It submits even while listening or with blank input. In that case the parent's `input` is sent, not the transcript on screen. Only the send button is gated.
- `interimResults` is always true, even when `false` is passed, because the code writes `options.interimResults || true`.
- The code has no stale-generation check on image encoding. The model publishes one whole encoding pass atomically and claims nothing about passes that overlap.
- `setInput` is an optional prop. When the parent does not pass it, committing the transcript leaves `input` unchanged.
- The `isLoading` effect also runs at mount. A bar mounted while a send is in flight therefore sets the parent's text to "", the still-empty transcript.

## Model

| member | source | states |
|---|---|---|
| JsText.UpperAscii | src/app/hooks/useSpeechRecognition.ts:45 | upper-cases an ASCII lower-case letter (code minus 32) and keeps every other character |
| JsText.UpperAsciiIdempotent | src/app/hooks/useSpeechRecognition.ts:45 | upper-casing twice is the same as upper-casing once |
| JsText.ToUpperCase | src/app/hooks/useSpeechRecognition.ts:45 | the ASCII-only model of `toUpperCase` keeps the length and upper-cases each character in place |
| JsText.IsJsWhitespace | src/components/chat/chat-bottombar.tsx:227 | the code points `trim` removes: no visible ASCII character is among them, and in ASCII they are exactly tab, line feed, vertical tab, form feed, carriage return and space |
| JsText.TrimStart | src/components/chat/chat-bottombar.tsx:227 | the result is the suffix left after a run of whitespace; it does not start with whitespace |
| JsText.TrimEnd | src/components/chat/chat-bottombar.tsx:227 | the result is the prefix left before a run of whitespace; it does not end with whitespace |
| JsText.Trim | src/components/chat/chat-bottombar.tsx:227 | `input.trim()` is no longer than the input, neither starts nor ends with whitespace, and is "" for an all-whitespace input |
| JsText.TrimEmptyIff | src/components/chat/chat-bottombar.tsx:227 | `s.trim()` is empty exactly when every character of `s` is JavaScript whitespace |
| JsText.TrimIsInfix | src/components/chat/chat-bottombar.tsx:227 | `s.trim()` is one contiguous piece of `s` with only whitespace before it and only whitespace after it |
| Speech.Configure | src/app/hooks/useSpeechRecognition.ts:23-25 | `interimResults` is always true; `lang` is the given non-empty language, otherwise "en-US"; `continuous` holds only when true is passed |
| Speech.ConfigureDefaults | src/app/hooks/useSpeechRecognition.ts:23-25 | with no options the engine gets interim results, "en-US" and non-continuous mode |
| Speech.OrBool | src/app/hooks/useSpeechRecognition.ts:23 | the JavaScript or-default of an optional boolean `a` and `b` is true exactly when `a` is true or `b` is |
| Speech.OrString | src/app/hooks/useSpeechRecognition.ts:24 | the JavaScript or-default of an optional string `a` and `b` gives `a` when it is a non-empty string and `b` when it is undefined or "" |
| Speech.Joined | src/app/hooks/useSpeechRecognition.ts:37-42 | the `text +=` accumulation: "" for no results; otherwise the text starts with the first result's best alternative |
| Speech.JoinedAppend | src/app/hooks/useSpeechRecognition.ts:40-42 | joining the best alternatives of `a + b` gives the join of `a` followed by the join of `b`, in index order |
| Speech.JoinedPrefix | src/app/hooks/useSpeechRecognition.ts:40-42 | the text joined from a prefix of the results is a prefix of the text joined from all of them |
| Speech.CharAt0 | src/app/hooks/useSpeechRecognition.ts:45 | `charAt(0)` is the one-character prefix of a non-empty string and "" for "" |
| Speech.Slice1 | src/app/hooks/useSpeechRecognition.ts:45 | `slice(1)` is one shorter than a non-empty string and holds its characters from the second on, in place; "" for "" |
| Speech.CharAtSliceSplit | src/app/hooks/useSpeechRecognition.ts:45 | `s.charAt(0) + s.slice(1)` is `s` again, the empty string included |
| Speech.CapFirst | src/app/hooks/useSpeechRecognition.ts:45 | capitalising keeps the length, upper-cases the first character and leaves every later character as it was |
| Speech.CapFirstEmpty | src/app/hooks/useSpeechRecognition.ts:45 | the empty transcript stays empty |
| Speech.CapFirstIdempotent | src/app/hooks/useSpeechRecognition.ts:45 | capitalising twice is the same as capitalising once |
| Speech.Mounted | src/app/hooks/useSpeechRecognition.ts:10-25 | after mount the hook is idle with an empty transcript, no engine session runs and no call was made; an engine with the configured options exists exactly when the capability does |
| Speech.Start | src/app/hooks/useSpeechRecognition.ts:64-69 | the hook ends up listening when it already was, or when an engine exists with no session running; a start is logged exactly when listening began; the transcript is kept |
| Speech.Stop | src/app/hooks/useSpeechRecognition.ts:71-78 | with an engine the hook ends up not listening; a stop is logged exactly when it was listening on an engine; the transcript and the engine's session are kept |
| Speech.WithResults | src/app/hooks/useSpeechRecognition.ts:36-46 | a result changes only the transcript, which is as long as the joined text and at least as long as the first result's best alternative |
| Speech.Ended | src/app/hooks/useSpeechRecognition.ts:52-55 | after the end event the hook is not listening, the transcript is "", the engine's session is over, and no engine call is made |
| Speech.TornDown | src/app/hooks/useSpeechRecognition.ts:57-61 | the cleanup logs one stop exactly when an engine exists and changes nothing else |
| Speech.RunKeepsInv | src/app/hooks/useSpeechRecognition.ts:52-78 | after any sequence of start, stop, result, end, error and teardown events, listening still implies a running session on an existing engine |
| Speech.NoEngineNeverListens | src/app/hooks/useSpeechRecognition.ts:15-69 | with no capability, no sequence of events ever sets `isListening`, makes an engine call or creates an engine |
| Speech.StartIdempotent | src/app/hooks/useSpeechRecognition.ts:64-69 | a second `startListening` does nothing more: no second engine start |
| Speech.StopIdempotent | src/app/hooks/useSpeechRecognition.ts:71-78 | a second `stopListening` does nothing more |
| Speech.EndedIdempotent | src/app/hooks/useSpeechRecognition.ts:52-55 | a repeated `onend` gives the same state as a single one |
| Speech.StopEndsListening | src/app/hooks/useSpeechRecognition.ts:71-78 | under the invariant, `stopListening` always leaves the hook not listening and keeps the transcript |
| Speech.RestartBeforeEndFails | src/app/hooks/useSpeechRecognition.ts:64-78 | a start between `stopListening` and the engine's end event leaves the hook not listening and sends no start |
| Speech.SessionRoundTrip | src/app/hooks/useSpeechRecognition.ts:52-78 | start, stop and end on an idle engine restore the flags with one start and one stop sent, and the next start succeeds |
| Speech.SpeechSession.constructor | src/app/hooks/useSpeechRecognition.ts:10-25 | the hook mounts idle with an empty transcript; an engine configured from the options exists exactly when the capability does |
| Speech.SpeechSession.StartListening | src/app/hooks/useSpeechRecognition.ts:64-69 | with an engine, not listening and no engine session running: one engine start is logged and `isListening` becomes true; otherwise nothing changes, including when the engine's `start()` throws |
| Speech.SpeechSession.StopListening | src/app/hooks/useSpeechRecognition.ts:71-78 | with an engine and listening: one engine stop is logged and `isListening` becomes false; otherwise nothing changes; it never ends up listening |
| Speech.SpeechSession.OnResult | src/app/hooks/useSpeechRecognition.ts:36-46 | the transcript becomes the capitalised concatenation of every result's best alternative, in index order; the flags are unchanged |
| Speech.SpeechSession.OnError | src/app/hooks/useSpeechRecognition.ts:48-50 | an engine error changes no state |
| Speech.SpeechSession.OnEnd | src/app/hooks/useSpeechRecognition.ts:52-55 | end-of-session sets `isListening` to false and clears the transcript; the engine's session is over |
| Speech.SpeechSession.Teardown | src/app/hooks/useSpeechRecognition.ts:57-61 | unmount sends one engine stop when an engine exists, whatever the flags say |
| Attachments.FilesOf | src/components/chat/chat-bottombar.tsx:120-125 | a null file list contributes no files and a present one contributes its files unchanged, as the `if (prevFiles)` and `if (files)` checks do |
| Attachments.Appended | src/components/chat/chat-bottombar.tsx:117-133 | the appended list has the previous files (none for null) at their positions, followed by the new files at theirs |
| Attachments.AppendUpdater | src/components/chat/chat-bottombar.tsx:117-133 | the new list is the previous files in order (none when null), followed by the new files in order |
| Attachments.AppendAllIsConcatenation | src/components/chat/chat-bottombar.tsx:117-146 | any run of appends yields the concatenation of the inputs in call order |
| Attachments.SpliceStart | src/components/chat/chat-bottombar.tsx:108 | splice's start position: an in-range index as it is, a negative index counted from the end, both clamped to the list |
| Attachments.Spliced | src/components/chat/chat-bottombar.tsx:108 | `splice(index, 1)` removes one entry exactly when the start position is inside the list; entries before it keep their index, and entries after it move down by one |
| Attachments.SplicedInRange | src/components/chat/chat-bottombar.tsx:105-115 | for `0 <= i < n`, exactly entry `i` is removed; the result is `files[..i] + files[i+1..]` and the rest keep their order |
| Attachments.SplicedPastEnd | src/components/chat/chat-bottombar.tsx:105-115 | an index at or past the end leaves the list unchanged |
| Attachments.SplicedNegative | src/components/chat/chat-bottombar.tsx:105-115 | a negative index `i >= -n` removes entry `n + i` |
| Attachments.RemoveUpdater | src/components/chat/chat-bottombar.tsx:105-115 | `Array.from`, an in-place `splice(index, 1)` and the copy into a new list together give the spliced list |
| Attachments.EncodeAll | src/components/chat/chat-bottombar.tsx:88-97 | the encoded list has one entry per file, and entry k is `toBase64(files[k])` |
| Attachments.ImageToBase64 | src/components/chat/chat-bottombar.tsx:88-97 | the result has one entry per file, and entry k is `toBase64(files[k])`; a null list gives [] |
| Attachments.EncodeAllAppend | src/components/chat/chat-bottombar.tsx:88-103 | encoding an appended list is appending the two encodings |
| Attachments.EncodeAllSpliced | src/components/chat/chat-bottombar.tsx:99-115 | encoding after a removal is the same as removing the same entry from the encoding |
| ChatBottombar.DisplayedValue | src/components/chat/chat-bottombar.tsx:182-184 | the text area shows the transcript while listening, even an empty one, and the typed input otherwise |
| ChatBottombar.SendDisabled | src/components/chat/chat-bottombar.tsx:227 | the send button is disabled exactly when sending, when listening, or when the typed input is all whitespace |
| ChatBottombar.ListeningHidesInput | src/components/chat/chat-bottombar.tsx:182-184 | while listening, what was typed has no influence on what is shown |
| ChatBottombar.GateIgnoresTranscript | src/components/chat/chat-bottombar.tsx:227 | while listening the gate is closed; otherwise it is closed exactly when sending or when the typed input is all whitespace |
| ChatBottombar.RemoveKeepsThumbnailsAligned | src/components/chat/chat-bottombar.tsx:171-172 | with thumbnails in sync, removing thumbnail i and re-encoding drops exactly thumbnail i and keeps the rest in order |
| ChatBottombar.Composer.constructor | src/components/chat/chat-bottombar.tsx:28-86 | mount: a speech hook with `{continuous: true}`, no files, no images, nothing submitted; mounting while loading clears the input when `setInput` exists |
| ChatBottombar.Composer.StopVoiceInput | src/components/chat/chat-bottombar.tsx:67-70 | the input becomes the transcript (when `setInput` exists), then the hook stops; it ends not listening |
| ChatBottombar.Composer.Listen | src/components/chat/chat-bottombar.tsx:63-65 | when idle it starts the hook and keeps the input; when listening it commits the transcript to the input and stops |
| ChatBottombar.Composer.HandleListenClick | src/components/chat/chat-bottombar.tsx:72-74 | a microphone click toggles as `Listen` does, and does nothing while sending because the button is disabled |
| ChatBottombar.Composer.SetLoading | src/components/chat/chat-bottombar.tsx:82-86 | when `isLoading` turns true, the transcript is committed even when not listening, and listening ends false; any other change leaves input and speech alone |
| ChatBottombar.Composer.InputChange | src/components/chat/chat-bottombar.tsx:187 | a text-area edit sets the parent's text to the new value |
| ChatBottombar.Composer.HandleKeyPress | src/components/chat/chat-bottombar.tsx:53-58 | Enter without Shift prevents the default and submits the input with the current images; any other key does neither; the gate is not consulted |
| ChatBottombar.Composer.ClickSend | src/components/chat/chat-bottombar.tsx:176-230 | the send button submits the input and the current images exactly when the gate is open |
| ChatBottombar.Composer.ClickStop | src/components/chat/chat-bottombar.tsx:243-251 | the stop button forwards one `stop` call while sending |
| ChatBottombar.Composer.AppendFiles | src/components/chat/chat-bottombar.tsx:117-146 | the file list becomes the previous files followed by the new ones |
| ChatBottombar.Composer.RemoveImageFile | src/components/chat/chat-bottombar.tsx:105-115 | a null list stays null; otherwise the list is spliced at the index |
| ChatBottombar.Composer.EncodeImages | src/components/chat/chat-bottombar.tsx:99-103 | after the effect's pass, the images are exactly the encodings of the current files, in order |
| ChatBottombar.VoiceCommitScenario | src/components/chat/chat-bottombar.tsx:63-70 | click the microphone, hear "hi there", click again: the parent's text is "Hi there" and listening is off |
| ChatBottombar.AppendRemoveScenario | src/components/chat/chat-bottombar.tsx:105-133 | append two files, remove index 0, encode: only the second file and its encoding remain |
| ChatBottombar.TypeAndSubmitScenario | src/components/chat/chat-bottombar.tsx:53-58 | blank input has the gate closed; after typing "hello", Enter submits {text: "hello", images: []} with the gate open |

## Left out

- Window resizing and `isMobile`, the focus effect, the unused `message` state, JSX layout, styling, animation and `Link`: these are presentation only.
- `FileUploader.tsx` and `HoverImage.tsx`: a wrapper around a third-party upload widget, and a hover flag that forwards `remove()`.
- `toBase64` internals (FileReader, data-URI format): `toBase64` is not part of this model. It is a function parameter that the model does not interpret, and it is assumed never to fail. Per-entry encoding failures are not modelled, because the code has no handling for them.
- `DataTransfer` and `FileList`: modelled as `seq<File>` over an opaque `File` type. The copy loops append to a sequence.
- The speech engine itself: engine calls are recorded in `engineCalls`, and its callbacks are events. The JSGF punctuation grammar (an optional hint) and all console logging are also left out.
- Speech.SpeechSession.OnResult: assumes that every result carries at least one alternative, as the engine delivers them. A result with none would make `results[i][0].transcript` (useSpeechRecognition.ts line 41) throw, and that is not modelled.
- Speech.SpeechSession.StartListening: the engine's `start()` is modelled as failing only while its previous session is still running. Other start failures, such as a denied microphone, are reported through the error and end events and are not separate outcomes here.
- JsText.UpperAscii: does not model Unicode case mapping, because only ASCII letters are upper-cased. JavaScript's `charAt` works on UTF-16 code units, while the model's characters are Unicode scalar values.
- Asynchrony: each event is one atomic step. The model does not capture stale `isListening` values in React render closures, batched `setState`, or overlapping `imageToBase64` passes. In the real component `base64Images` can lag behind `imageFiles`, so a thumbnail index can refer to an outdated list. The model shows that alignment only in the synchronised state (`RemoveKeepsThumbnailsAligned`).
- The parent's `handleSubmit`, `handleInputChange`, `setInput` and `stop`: they are outside this core. They appear as the recorded `submitted` log, `stopRequests` and direct writes to `input`. What `handleSubmit` does with the text, such as clearing it, is not modelled.
- JavaScript `splice` with a non-integer or non-finite index: the index is modelled as an integer.
