# tv-companion session state, in Dafny

The page script of the TV companion prototype captures the user's screen, has each frame
described by a hosted vision model, and offers a chat whose system message carries the latest
description and the whole viewing history. This project models the state that script keeps
and the handlers that change it:

- the **viewing history** (`viewingHistory`) and **latest analysis** (`latestScreenAnalysis`),
  updated by `updateScreenAnalysis` on each analysed frame and shown newest first by
  `updateViewingHistoryUI`;
- the **context string** that `buildViewingHistoryContext` and the `systemContext` template
  build from them;
- the **conversation** sent to `/chat`, with its single system message at index 0 that
  `sendChatMessage` inserts once and overwrites before every later user turn;
- the start/end capture guard over `mediaStream` and `analysisInterval`.

Layout, one module per file:

- `Text.dfy` (`Text`): ECMAScript `trim`, as the chat input uses it.
- `Responses.dfy` (`Responses`): the shapes a `/analyze` or `/chat` call can end in, and how
  the script reads the reply text out of them.
- `History.dfy` (`History`): history entries, the context string, and the panel's HTML. The
  two `forEach` loops are methods proved equal to their specification functions.
- `Conversation.dfy` (`Conversation`): messages, the system-message upsert, one turn
  (`AfterSend`), and runs of turns (`Replay`).
- `Client.dfy` (`Client`): class `Session`. Its fields are the script's globals plus the
  parts of the page the script writes. Its methods are the event handlers.

Each network call becomes an input of type `Response`. It is either a parsed body, whose
`choices` may be missing, or a thrown failure with its message. The timestamp of an entry is
an opaque string input, and so are the stream and timer handles.

Points where the script's behaviour is easy to misread; the model follows the code:

- A `/chat` body without `choices` throws at `data.choices[0]` (public/script.js:118), because
  that access has no optional chaining. The turn then fails like a network error and shows
  `"Error: " + message`. The `"No response."` placeholder appears only when `choices` is
  present but its first entry has no content. `Responses.ChatReply` states both cases.
- A failed chat turn renders an error line and appends nothing to the conversation
  (public/script.js:121-124). The user turn stays in the conversation.
- `trim()` strips whitespace at both ends of the input.
- A `/analyze` response with a non-2xx status does not throw. Its `{ error }` body is recorded
  as `"No analysis available."`.

## Model

| member | source | states |
|---|---|---|
| `Text.Trim` | public/script.js:83-84 | the trimmed input is the slice of the raw input left after cutting whitespace at both ends; it starts and ends with a non-space, and it is empty exactly when the raw input is all whitespace (the no-op test) |
| `Responses.AnalysisText` | public/script.js:39-41 | a thrown call yields no analysis; any parsed body yields a non-empty analysis, which is the first choice's content when that is a non-empty string and `"No analysis available."` when `choices`, the first choice or its content is missing or empty |
| `Responses.ChatReply` | public/script.js:117-118 | a chat turn fails exactly when the call threw or the body lacks `choices` (failing with the thrown message or with the TypeError's message); otherwise the reply is non-empty and is the first choice's content, or `"No response."` |
| `Responses.Rendered` | public/script.js:119-123 | the assistant line shows the reply, or `"Error: "` followed by the failure message |
| `History.Reverse` | public/script.js:75 | the display order has the history's length and puts entry `|h|-1-k` at position `k` |
| `History.ReverseInvolutive` | public/script.js:75 | reversing the display order gives back the history, so nothing is dropped or changed |
| `History.ReverseSnoc` | public/script.js:75 | the entry recorded last comes first in the display order, ahead of the earlier display order |
| `History.BuildViewingHistoryContext` | public/script.js:90-96 | the loop returns `"Viewing History:\n"` followed by `[ts]: analysis\n` for every entry, oldest first |
| `History.LinesSnoc` | public/script.js:92-94 | the history lines of a log with one more entry are the old lines followed by that entry's line |
| `History.LinesSplit` | public/script.js:92-94 | the history lines list the entries before any position, then the entries after it, so they are in chronological order |
| `History.HistoryContextAppend` | public/script.js:90-96 | recording an entry extends the history context by exactly that entry's line; what it said before is unchanged |
| `History.SystemContextAfterRecord` | public/script.js:42-44 | after an analysis is recorded, the system context names it as the current screen and ends with its history line after all earlier ones |
| `History.SystemContextShape` | public/script.js:99 | `SystemContext(latest, h)`, the `systemContext` template, is `"Current Screen: " + latest` followed by `"\n"` and `HistoryContext(h)`, and its last character is a line break, so nothing follows the last history line |
| `History.SystemContextOneEntry` | public/script.js:99 | with one recorded analysis the system context is exactly `Current Screen: A\nViewing History:\n[t]: A\n`, with nothing after the last history line |
| `History.RenderViewingHistory` | public/script.js:73-78 | the loop over a reversed copy returns one `<p>[ts]: analysis</p>` per entry, newest first |
| `History.ParagraphsSnoc` | public/script.js:75-77 | the panel loop adds each paragraph after the ones already built |
| `History.DisplayNewestFirst` | public/script.js:74-77 | a newly recorded entry appears at the top of the panel, above everything shown before |
| `Conversation.RefreshSystem` | public/script.js:101-106 | after the upsert, index 0 is the system message with the new content; an empty conversation or one not led by a system message gets it inserted in front with everything else shifted by one; otherwise only index 0's content changes and the length stays; the single-system shape is kept |
| `Conversation.AfterSend` | public/script.js:101-120 | one turn grows the conversation by 2 when the system message is inserted and by 1 otherwise, then by 1 more only on a reply; the user message sits right after the old messages and the assistant reply after it; all earlier messages other than index 0 keep their content; the single-system shape is kept |
| `Conversation.ExactlyOneSystem` | public/script.js:102-106 | a non-empty conversation has the single-system shape exactly when index 0 is a system message and the count of system messages is 1 (built on the helper fact that a role is absent exactly when its count is 0) |
| `Conversation.ReplayKeepsSingleSystem` | public/script.js:102-120 | after any run of turns the single-system shape holds, and after at least one turn there is exactly one system message, at index 0 |
| `Conversation.ReplayAppendsOnly` | public/script.js:103-120 | once a system message leads, later turns leave every message other than index 0 at its place with its content |
| `Client.Session.constructor` | public/script.js:10-14 | the session starts with no stream, no timer, an empty history, an empty latest analysis and an empty conversation |
| `Client.Session.UpdateViewingHistoryUI` | public/script.js:69-79 | the panel shows the history newest first, or stays as it was when the page has no panel; the history is not changed |
| `Client.Session.UpdateScreenAnalysis` | public/script.js:17-51 | without a stream or with a zero dimension nothing changes; a thrown call shows `"Error: " + message` and leaves the history and latest analysis unchanged; a parsed body appends exactly one entry with the given timestamp, makes its analysis the latest and the status text, and redraws the panel; the latest analysis is always the newest entry's |
| `Client.Session.SendChatMessage` | public/script.js:82-125 | an input that trims to nothing changes nothing; otherwise the input is cleared, the log shows the user's text and then the reply or the error, the conversation becomes `AfterSend` of the old one with the current system context, and it holds exactly one system message, at index 0 |
| `Client.Session.StartCapture` | public/script.js:137-153 | a refused capture changes nothing; a granted one holds the new stream and starts a timer only when none is running, so a second start keeps the first timer |
| `Client.Session.EndCapture` | public/script.js:156-169 | after the end button there is no timer and no stream, and the status reads `"Screen capture ended."` |

## Left out

- DOM rendering is not modelled beyond the strings the script writes. Each `appendMessage` is
  a `ChatLine` in `chatLog`. `responseBox.textContent` and the panel's `innerHTML` are string
  fields. Element creation, CSS classes and scrolling are not modelled.
- The request bodies (`JSON.stringify` of the image or of the conversation) are not
  modelled. `fetch` and `response.json()` are not modelled either: each call's outcome is a
  `Response` input.
- Screen capture and frame encoding (`getDisplayMedia`, canvas drawing, `toDataURL`, the
  base64 split) are not modelled. Only the video size that gates an analysis is an input.
- Timers are not modelled. `setInterval` contributes only its handle. The 15-second ticks and
  the 3-second first analysis are calls of `UpdateScreenAnalysis` made by the environment.
- Every handler runs to completion in one method call. The `"Analyzing..."` status shown
  while the call is pending is therefore overwritten before the method returns. Overlapping
  chat turns or analyses whose responses interleave are not modelled.
- Console output, the `alert` on a refused capture, stopping the stream's tracks and
  `video.srcObject` are not modelled.
- A JSON body that is `null` or not an object is not modelled, and neither is a `content`
  that is not a string. `Choice.content` is a string or absent.
- `Responses.MissingChoicesError` uses V8's wording of the TypeError; other engines word it
  differently.
- The case where `window.updateViewingHistoryUI` does not exist yet (an analysis before the
  page's DOMContentLoaded handler ran) is not modelled.
- Dafny strings are sequences of Unicode scalar values, while JavaScript strings are
  sequences of UTF-16 code units, so a string holding a lone surrogate cannot be represented.
  `trim` is unaffected: every character it removes is in the Basic Multilingual Plane.
- The relay in server.js is not part of this model. It passes provider responses through
  unchanged, and only the shapes it can return appear here, as `Response`.
