# Chat store model

A Dafny model of the chat store of a Vue/Pinia chat client
(`src/stores/chat.js`). The store holds the conversation shown on screen
(`messages`, each with an id, a text and a sender, `user` or `bot`) and the
text of the input box (`newMessage`). It starts with one bot greeting.
`sendMessage` ignores blank input. Otherwise it pushes the user's message,
clears the input box, pushes an empty bot message, and starts a timer. Each
firing of that timer appends one more character of a simulated reply to
the bot message, until the whole reply is out and the timer cancels itself.
`rate` only logs the rating.

Layout:

- `text.dfy`, module `Text`: the set of characters JavaScript's `trim`
  removes, `TrimStart`/`TrimEnd`/`Trim`, and the blank-input test
  `s.trim() === ''` shown equivalent to "every character is whitespace".
- `chat.dfy`, module `Chat`: the `Message` and `Stream` datatypes, the
  simulated reply `MockResponse`, the invariant `StreamsFit` with the two
  lemmas that show sending and firing keep it, and the class `ChatStore`.
  The class holds `messages`, `newMessage` and `streams`. `streams` is the
  state each timer callback closes over: the position of its bot message,
  its reply, its counter `i`, and whether it has cancelled itself. Its
  methods are `SendMessage`, `Tick` (one firing of one timer),
  `StreamToEnd` (a timer firing until it cancels itself) and `Rate`.
- `chat.dfy`, module `ChatSession`: two sessions driven through the store's
  methods, one sending "hi" and one sending only spaces.

The simulated reply is built from the user's own text: it is
`This is a mock streamed response for the message: "<text>"`. It is not a
fixed string, and `MockResponseInjective` shows that different texts give
different replies.

Each send starts its own timer, and a second send does not stop the first
one. So the store keeps a list of streams, and `Tick(k)` fires the `k`-th
one. The caller chooses which timer fires, so every order of firings is
covered. A timer that has cancelled itself never fires again, which is why
`Tick` requires `!streams[k].cleared`.

## Model

| member | source | states |
|---|---|---|
| `Text.IsWhitespace` | src/stores/chat.js:10 | the characters `trim` removes; among ASCII characters they are exactly TAB, LF, VT, FF, CR and space |
| `Text.IsBlank` | src/stores/chat.js:10 | input is blank (every character whitespace) exactly when removing its leading whitespace leaves nothing |
| `Text.TrimStart` | src/stores/chat.js:10 | the result is the longest suffix of the input that does not start with whitespace; everything dropped is whitespace |
| `Text.TrimEnd` | src/stores/chat.js:10 | the result is the longest prefix of the input that does not end with whitespace; everything dropped is whitespace |
| `Text.Trim` | src/stores/chat.js:10 | `s.trim()`: the result is the slice of the input that starts where the leading whitespace ends; everything before and after it is whitespace, and it neither starts nor ends with whitespace |
| `Text.TrimEmptyIffBlank` | src/stores/chat.js:10 | trimming gives the empty string exactly when every character of the input is whitespace (both directions) |
| `Text.TrimmedIsEmpty` | src/stores/chat.js:10 | the guard `newMessage.trim() === ''` is true exactly when the input is blank |
| `Chat.MockResponse` | src/stores/chat.js:19 | the reply is the fixed opening, then the user's text verbatim, then a closing double quote, and its length is the sum of those parts |
| `Chat.MockResponseInjective` | src/stores/chat.js:19 | two user texts with the same reply are equal, so a reply identifies the message it answers |
| `Chat.SendKeepsFit` | src/stores/chat.js:11-20 | pushing a user message and an empty bot message, and starting a stream at the bot message's position with `i = 0`, keeps every earlier stream's bot message where it was and keeps the invariant |
| `Chat.TickKeepsFit` | src/stores/chat.js:21-24 | appending `reply[i]` to a stream's own bot message and incrementing `i` keeps that message equal to `reply[..i]` and keeps the invariant |
| `Chat.StreamedTextIsPrefix` | src/stores/chat.js:17-27 | in any reachable state, every stream's bot text is a prefix of its reply, is never longer than the reply, and equals the reply once the timer has cancelled itself |
| `Chat.ChatStore.constructor` | src/stores/chat.js:4-7 | the initial state is the single bot greeting with id 1 and text "Hello! How can I help you today?", an empty input box, and no running timer |
| `Chat.ChatStore.SendMessage` | src/stores/chat.js:9-20 | blank input changes nothing and starts no timer; otherwise `messages` becomes the old list plus a user message with the untrimmed input (id `userNow`, the first clock reading) and an empty bot message (id `botNow + 1`, from the second clock reading), the input box becomes empty, and one stream starts at the new bot message with the reply for that input and `i = 0`; the invariant is kept |
| `Chat.ChatStore.Tick` | src/stores/chat.js:21-28 | while `i` is below the reply's length, the firing appends exactly `reply[i]` to the captured bot message and increments `i`; once `i` equals that length it writes nothing and cancels the timer; no other message, stream or the input box changes; the invariant is kept |
| `Chat.ChatStore.StreamToEnd` | src/stores/chat.js:20-28 | a timer left to fire until it cancels itself leaves its bot message's text equal to the whole reply, with the id and sender unchanged, and changes nothing else |
| `Chat.ChatStore.Rate` | src/stores/chat.js:30-32 | rating leaves the whole store unchanged |
| `ChatSession.SendHi` | src/stores/chat.js:4-28 | from the initial state, sending "hi" and streaming its reply to the end gives the greeting, the user message "hi" (id from the first clock reading) and a bot message holding the full reply (id one more than the second clock reading), with an empty input box |
| `ChatSession.SendSpaces` | src/stores/chat.js:4-10 | from the initial state, sending "  " leaves the greeting alone and the input box as typed |

## Left out

- The 50 ms timer and real time: each firing of a `setInterval` callback is an explicit `Tick` call, and which timer fires next is the caller's choice.
- `Date.now()`: `sendMessage` reads the clock twice, and the two readings are the parameters `userNow` and `botNow` of `SendMessage`. Nothing is claimed about ids being unique or ordered, not even within one send.
- The `console.log` in `rate` is output only. `Rate` has no state effect, and the rating's value is not used.
- The bot message is captured in the source by object reference. The model captures it by its position in `messages`. These agree because the store only ever appends to `messages`; code outside the store that replaced or reordered the list is not part of this model.
- JavaScript strings are sequences of UTF-16 code units, and `mockResponse[i]` streams one code unit per firing. The model's `string` is a sequence of Unicode scalar values, so a character outside the Basic Multilingual Plane is one step here but two in the source.
- `IsWhitespace` lists the characters `trim` removes as the ECMAScript standard defines them: TAB, VT, FF, SP, NBSP, ZWNBSP, the Unicode space separators of current Unicode, LF, CR, LS and PS. It is a fixed set and does not follow later changes to Unicode.
- How `newMessage` gets its text: the model assigns `newMessage` directly from outside the store.
- `src/main.ts` (the app bootstrap, plugin registration and mounting) and `vite.config.ts` (build and proxy settings) hold no store logic and are not part of this model.
- Decoding streamed server frames, dispatching server events, authentication and feedback submission are not part of this model: none of them appears in `src/stores/chat.js`, which simulates the reply locally.
