# Assistant panel and update installer — a Dafny model

This project models the two pieces of logic in a dashboard web application
whose other pages only render static data:

- **The AI assistant panel** (`src/components/ai/AIAssistantPanel.tsx`). It
  keeps an open/closed flag, an append-only transcript of messages and a draft.
  Several things change that state:
  - the mount effect seeds the transcript with a greeting;
  - while the panel is open, a 30-second interval adds an "insight" picked at
    random from a fixed pool, as long as the transcript holds fewer than 10
    messages;
  - submitting a non-blank draft appends it as a user message, clears the
    draft and schedules a reply 800 ms later.

  The reply comes from a case-insensitive, first-match-wins substring
  classifier over an ordered command table. When no trigger matches, a fixed
  fallback string is used.
- **The simulated update installation** (`simulateInstall` in
  `src/pages/Updates.tsx`). Its state is `installing` and `progress`. A 500 ms
  interval adds 10 to the progress on each firing. Once the progress is at
  least 100, the next firing clears the interval, ends the install and resets
  the progress.

Files and modules:

- `text.dfy` (`Text`): the string primitives the panel uses. `toLowerCase`
  becomes ASCII lower-casing. `trim` uses the ECMAScript whitespace set. The
  substring test is `includes`.
- `commands.dfy` (`Commands`): the command table, the fallback reply, the
  insight pool, and the resolver. `FindCommand` is the `find` over the table.
  `Resolve` applies it to any table; `Respond` applies it to the fixed one.
- `assistant.dfy` (`Assistant`): the session. Each transition is a function on
  the value `PanelState`. `Run` plays a sequence of `Event`s. The lemmas are
  stated over these functions. The class `AssistantPanel` holds the same state
  in fields, and each of its methods is proved to perform one of those
  transitions.
- `install.dfy` (`Install`): the installer. It has the pure transitions
  `Started` and `Ticked` with their invariant. The class `Installer` keeps the
  page's state cells. A method runs one install to completion and counts the
  interval's firings.

Timers are explicit events. `Interval(pick, id)` is one firing of the
30-second interval. `Reply(id)` is one firing of an 800 ms reply callback.
Every reply callback has the same delay, so the callbacks fire in the order
they were scheduled. The scheduled replies are therefore a first-in first-out
queue (`pending`) of the texts captured at submit time. `Math.random` becomes
the index `pick`, with `pick < |Insights|`. Message ids come from
`Date.now()`, so they are supplied by the caller as opaque strings. The one
exception is the greeting, whose id is `"initial"`.

For the installer, the interval handle of `simulateInstall` is modelled as
the field `timerActive`. Clearing the interval sets it to false. A tick can
only happen while it is true.

## Model

| member | source | states |
|---|---|---|
| `Text.LowerChar` | src/components/ai/AIAssistantPanel.tsx:101 | the lower-cased character is never an ASCII capital; a capital moves up by 32 to a small letter, and any other character is kept |
| `Text.ToLower` | src/components/ai/AIAssistantPanel.tsx:101 | `toLowerCase` keeps the length, leaves no capital, shifts each capital to its small letter and keeps every other character |
| `Text.ToLowerIdempotent` | src/components/ai/AIAssistantPanel.tsx:101 | lower-casing twice is the same as lower-casing once |
| `Text.ToLowerOfLower` | src/components/ai/AIAssistantPanel.tsx:101 | a string without capitals is its own lower-case form |
| `Text.TrimStart` | src/components/ai/AIAssistantPanel.tsx:90 | the result is a suffix of the input that does not start with whitespace, and everything dropped is whitespace |
| `Text.TrimEnd` | src/components/ai/AIAssistantPanel.tsx:90 | the result is a prefix of the input that does not end with whitespace, and everything dropped is whitespace |
| `Text.Trim` | src/components/ai/AIAssistantPanel.tsx:90 | `trim` returns the slice of the input that neither starts nor ends with whitespace and has only whitespace before and after it; it is empty exactly when the input is all whitespace, which is the test `!input.trim()` makes |
| `Text.TrimSlice` | src/components/ai/AIAssistantPanel.tsx:90 | trimming the front and then the back yields the slice at the first non-whitespace position, and that slice is empty exactly when the input is blank |
| `Text.TrimDropsBlanks` | src/components/ai/AIAssistantPanel.tsx:90 | everything `trim` drops, before and after the slice it keeps, is whitespace |
| `Text.Includes` | src/components/ai/AIAssistantPanel.tsx:101 | `includes` is true exactly when the needle occurs at some position of the text |
| `Text.OccursShift` | src/components/ai/AIAssistantPanel.tsx:101 | when the needle is not a prefix of the text, it occurs in the text exactly when it occurs in the text's tail |
| `Text.MissingCharExcludes` | src/components/ai/AIAssistantPanel.tsx:101 | a needle holding a character that the text lacks does not occur in the text |
| `Commands.Matches` | src/components/ai/AIAssistantPanel.tsx:101 | an entry fires exactly when its lower-cased trigger occurs at some position of the lower-cased text |
| `Commands.FindCommand` | src/components/ai/AIAssistantPanel.tsx:100-102 | the index `find` returns is the earliest table entry whose lower-cased trigger occurs in the lower-cased text; when it finds none, no entry matches |
| `Commands.FirstMatchUnique` | src/components/ai/AIAssistantPanel.tsx:100-102 | at most one entry is the earliest match |
| `Commands.Resolve` | src/components/ai/AIAssistantPanel.tsx:97-108 | for a table with distinct triggers (an object's keys): the reply is the response of the earliest matching entry when that entry's trigger is non-empty; it is the fallback when the earliest match has the empty (falsy) trigger, and when no entry matches; so it is always the fallback or some table response |
| `Commands.EmptyTriggerFallsBack` | src/components/ai/AIAssistantPanel.tsx:100-107 | an empty trigger at the head of a table matches every text, yet the reply is the fallback, because `find` returns the falsy key "" and `if (matchedCommand)` fails |
| `Commands.CommandTableWellFormed` | src/components/ai/AIAssistantPanel.tsx:33-39 | the fixed table's five triggers are distinct and non-empty, so the truthiness test never turns a match into the fallback |
| `Commands.Respond` | src/components/ai/AIAssistantPanel.tsx:97-108 | under the fixed table (lines 33-39) and the fallback string of line 107, every reply is the fallback string or one of the five canned responses |
| `Commands.ResolveIgnoresCase` | src/components/ai/AIAssistantPanel.tsx:101 | a text and its lower-case form get the same reply, whatever the table |
| `Commands.TriggersAreLower` | src/components/ai/AIAssistantPanel.tsx:33-39 | the five triggers are already lower case, so lower-casing them changes nothing |
| `Commands.TextMatches` | src/components/ai/AIAssistantPanel.tsx:100-102 | a lower-case text in which a trigger occurs matches that trigger's entry |
| `Commands.TextMisses` | src/components/ai/AIAssistantPanel.tsx:100-102 | a lower-case text lacking one of a trigger's characters does not match that trigger's entry |
| `Commands.SystemStatusWins` | src/components/ai/AIAssistantPanel.tsx:33-39 | a lower-case text that holds "system status" but no 'c' and no 'd' gets the "system status" response, even if a later trigger such as "help" also occurs |
| `Commands.EarlierTriggerWins` | src/components/ai/AIAssistantPanel.tsx:33-39 | "help with system status" matches both "help" and "system status"; it gets the "system status" response because that entry comes first in the table |
| `Commands.TriggerFoundInsideText` | src/components/ai/AIAssistantPanel.tsx:100-105 | "Please give me SYSTEM STATUS now" gets the "system status" response: the trigger is found in the middle of the text and regardless of case |
| `Commands.FallbackWithoutTriggerLetters` | src/components/ai/AIAssistantPanel.tsx:104-108 | a lower-case text without 'c', 'u', 'y' and 'p' matches no trigger and gets the fallback reply |
| `Commands.WeatherFallsBack` | src/components/ai/AIAssistantPanel.tsx:104-108 | "what is the weather" gets the fallback reply |
| `Commands.RebootFallsBack` | src/components/ai/AIAssistantPanel.tsx:104-108 | "reboot the database" gets the fallback reply |
| `Commands.GreetingFallsBack` | src/components/ai/AIAssistantPanel.tsx:104-108 | "hello there" gets the fallback reply |
| `Assistant.CannedTextsNotEmpty` | src/components/ai/AIAssistantPanel.tsx:23-39 | the greeting, the fallback, every canned response of the command table and every insight of the `mockResponses` pool (lines 23-30) are non-empty |
| `Assistant.Initial` | src/components/ai/AIAssistantPanel.tsx:42-56 | the state the mount effect produces from a new panel: closed, the draft empty, no reply scheduled, and the transcript exactly one `ai` message with id "initial" and the greeting text; this state satisfies the session invariant |
| `Assistant.WithMessage` | src/components/ai/AIAssistantPanel.tsx:78-86 | `addMessage` keeps the old transcript as a prefix, adds exactly one message at the end holding the given content, sender and id, and changes nothing else |
| `Assistant.UserTextsAppend` | src/components/ai/AIAssistantPanel.tsx:85 | appending a message adds its content to the user texts exactly when its sender is `user` |
| `Assistant.Submitted` | src/components/ai/AIAssistantPanel.tsx:88-114 | `handleSubmit` changes the state exactly when the draft is not blank; then the transcript and the queue of scheduled replies each grow by one, the queue's new last entry is the draft, and the draft is cleared |
| `Assistant.Ticked` | src/components/ai/AIAssistantPanel.tsx:59-67 | the insight interval changes the state exactly when the panel is open and holds fewer than 10 messages; it then appends one `ai` message taken from the insight pool; it never takes a transcript of at most 10 messages past 10; open flag, draft and queue are untouched |
| `Assistant.Resolved` | src/components/ai/AIAssistantPanel.tsx:96-111 | the oldest scheduled reply leaves the queue, and an `ai` message holding the reply to that oldest captured text is appended; open flag and draft are untouched |
| `Assistant.Step` | src/components/ai/AIAssistantPanel.tsx:59-114 | every event (open toggle, typing, submit, interval firing, reply firing) keeps the old transcript as a prefix and adds at most one message |
| `Assistant.BlankSubmitChangesNothing` | src/components/ai/AIAssistantPanel.tsx:90 | submitting a blank draft leaves transcript, draft, queue and open flag unchanged |
| `Assistant.SubmitEffect` | src/components/ai/AIAssistantPanel.tsx:88-114 | a non-blank submit appends one `user` message holding the raw, untrimmed draft, clears the draft, enqueues exactly that draft for a reply, and keeps the open flag |
| `Assistant.SubmittedConsistent` | src/components/ai/AIAssistantPanel.tsx:88-114 | a submit keeps the session invariant: the scheduled replies are the latest user messages in order, no message is empty, no user message is blank |
| `Assistant.TickedConsistent` | src/components/ai/AIAssistantPanel.tsx:59-71 | an insight tick keeps the session invariant |
| `Assistant.ResolvedConsistent` | src/components/ai/AIAssistantPanel.tsx:96-111 | firing the oldest reply keeps the session invariant |
| `Assistant.StepConsistent` | src/components/ai/AIAssistantPanel.tsx:59-114 | every event that can occur keeps the session invariant |
| `Assistant.RunConsistent` | src/components/ai/AIAssistantPanel.tsx:59-114 | every admissible sequence of events keeps the session invariant |
| `Assistant.RunAppendOnly` | src/components/ai/AIAssistantPanel.tsx:78-86 | over any run, the old transcript stays a prefix and the transcript grows by at most one message per event |
| `Assistant.StepBalanced` | src/components/ai/AIAssistantPanel.tsx:88-114 | apart from insights, each event changes the transcript length by twice the change in user messages, less the change in scheduled replies |
| `Assistant.RunBalanced` | src/components/ai/AIAssistantPanel.tsx:88-114 | over any admissible run without insight ticks, in any interleaving of typing, submits and replies, the transcript grows by twice the number of new user messages, less the growth of the reply queue |
| `Assistant.TranscriptCount` | src/components/ai/AIAssistantPanel.tsx:48-114 | from a state whose transcript is the greeting alone and whose queue is empty (the mounted state among them), once every scheduled reply has fired and with no insights, the transcript holds 1 + 2N messages, N being the number of user messages |
| `Assistant.IntervalsRespectCap` | src/components/ai/AIAssistantPanel.tsx:62-67 | ticks alone never take a transcript of at most 10 messages past 10, and they leave a transcript of 10 or more untouched |
| `Assistant.ClosedPanelIgnoresIntervals` | src/components/ai/AIAssistantPanel.tsx:59-60 | while the panel is closed, ticks change nothing |
| `Assistant.RunCons` | src/components/ai/AIAssistantPanel.tsx:59-114 | running one event and then a sequence is the same as running the combined sequence |
| `Assistant.RunAppend` | src/components/ai/AIAssistantPanel.tsx:59-114 | running one sequence of events and then another is the same as running their concatenation |
| `Assistant.ReplyUsesCapturedText` | src/components/ai/AIAssistantPanel.tsx:96-113 | a reply is computed from the text captured at submit time: typing a new draft before it fires does not change it |
| `Assistant.TwoSubmissions` | src/components/ai/AIAssistantPanel.tsx:88-114 | two texts typed and submitted in turn, from an empty queue, are both appended as user messages and both scheduled, in that order |
| `Assistant.TwoReplies` | src/components/ai/AIAssistantPanel.tsx:96-111 | with two texts scheduled, the two reply firings append the reply to the older text first |
| `Assistant.RepliesInSubmissionOrder` | src/components/ai/AIAssistantPanel.tsx:96-111 | two submissions in flight get two user messages and then two replies, in submission order, each computed from its own text and carrying its own id |
| `Assistant.DialogueStep` | src/components/ai/AIAssistantPanel.tsx:88-114 | the first text and its reply followed by the dialogue of the remaining texts is the whole dialogue |
| `Assistant.OneExchange` | src/components/ai/AIAssistantPanel.tsx:88-114 | typing a non-blank text, submitting it and letting its reply fire, from an empty queue, is admissible and appends the text followed by its reply, leaving the draft empty and nothing scheduled |
| `Assistant.ConversationTranscript` | src/components/ai/AIAssistantPanel.tsx:88-114 | after N non-blank submissions, each answered before the next and each message carrying its own id, the transcript has grown by exactly 2N messages: each text is followed by its own reply, and nothing stays scheduled |
| `Assistant.Dialogue` | src/components/ai/AIAssistantPanel.tsx:88-114 | the messages N alternating exchanges add number exactly 2N: message 2i is text i as a `user` message with its submit id, and message 2i+1 is the reply to text i as an `ai` message with its reply id |
| `Assistant.AssistantPanel.constructor` | src/components/ai/AIAssistantPanel.tsx:42-44 | a new panel is closed, has no messages, an empty draft and nothing scheduled |
| `Assistant.AssistantPanel.Mount` | src/components/ai/AIAssistantPanel.tsx:48-56 | the mount effect runs once, on a new panel; it leaves the greeting alone in the transcript and establishes the session invariant |
| `Assistant.AssistantPanel.SetOpen` | src/components/ai/AIAssistantPanel.tsx:123 | `onOpenChange` sets the open flag and nothing else |
| `Assistant.AssistantPanel.SetInput` | src/components/ai/AIAssistantPanel.tsx:164 | `onChange` sets the draft and nothing else |
| `Assistant.AssistantPanel.AddMessage` | src/components/ai/AIAssistantPanel.tsx:78-86 | appends exactly one message and changes nothing else |
| `Assistant.AssistantPanel.HandleSubmit` | src/components/ai/AIAssistantPanel.tsx:88-114 | performs the submit transition, using `trim` for the blank test, and keeps the session invariant |
| `Assistant.AssistantPanel.Tick` | src/components/ai/AIAssistantPanel.tsx:62-67 | appends the picked insight as an `ai` message only when the panel is open and holds fewer than 10 messages, and otherwise changes nothing; keeps the session invariant |
| `Assistant.AssistantPanel.FireReply` | src/components/ai/AIAssistantPanel.tsx:96-111 | removes the oldest captured text from the queue and appends its reply as an `ai` message; keeps the session invariant |
| `Install.Started` | src/pages/Updates.tsx:21-25 | `simulateInstall` from a non-installing page gives a valid state that is installing, with 11 firings to come |
| `Install.Ticked` | src/pages/Updates.tsx:26-37 | from a valid state, a firing keeps progress a multiple of 10 in [0, 100] and the interval live exactly while installing; it uses up one remaining firing; it ends the install exactly when progress was 100 |
| `Install.InstallCompletes` | src/pages/Updates.tsx:25-38 | a running install stays installing, gaining 10 per firing, until its last remaining firing returns the page to idle |
| `Install.ElevenTicks` | src/pages/Updates.tsx:21-38 | from idle, the install is at 10·n after n ≤ 10 firings and idle again after exactly 11 |
| `Install.Installer.constructor` | src/pages/Updates.tsx:18-19 | initially not installing, progress 0, no interval |
| `Install.Installer.SimulateInstall` | src/pages/Updates.tsx:21-23 | callable only while not installing, because both install buttons are disabled then (lines 95 and 165); sets installing, resets progress to 0 and starts the interval |
| `Install.Installer.Tick` | src/pages/Updates.tsx:26-37 | below 100, adds 10 and keeps installing; from 100 on, clears the interval, stops installing and resets progress to 0; keeps the invariant |
| `Install.Installer.InstallToCompletion` | src/pages/Updates.tsx:21-38 | starting from idle and letting the interval fire until it clears itself takes exactly 11 firings and ends idle |

## Left out

- Rendering, styling, the collapsible's layout and scroll-into-view (`src/components/ai/AIAssistantPanel.tsx:74-76`, `116-175`): presentation only.
- Wall-clock timing. The model has no notion of time, so it does not capture the 30 s and 800 ms delays. It also does not capture that the insight interval is torn down and re-created whenever the transcript changes, which restarts its 30 s countdown. Ticks and replies are events that the caller interleaves.
- Unmounting: the effect cleanup that clears the insight interval, and reply callbacks that still fire after the panel is gone, are not modelled.
- `Math.random`: replaced by the caller-supplied index `pick`.
- Message timestamps are dropped. Ids other than the greeting's come from `Date.now()`, which does not make them unique; the model passes them in as opaque strings and claims no uniqueness.
- `toLowerCase` is modelled on ASCII letters only; full Unicode case mapping is not part of this model.
- React's batching of state updates and the double-invoked effects of development builds are not modelled: each event is applied atomically to the current state.
- The toast notifications of `src/pages/Updates.tsx:30-33` and the other toasts of the application: user-interface side effects.
- The static pages and layout (`Settings`, `IoTDevices`, `AIModels`, `Cloud`, `Index`, `App`, `Navbar`, `Sidebar`, the dashboard cards): they render literal arrays; their single boolean flags around a timeout, a path comparison and float-valued data hold no logic worth a model.
- `Commands.Resolve`: requires distinct triggers, since the table is an object literal whose keys are unique; a sequence with a repeated trigger has no counterpart in the source and is not given a meaning.
- `Assistant.AssistantPanel.Mount`: requires the state of a new panel, because the effect with an empty dependency list runs once after the first render; a second run over a live transcript has no counterpart in the source.
