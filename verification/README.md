# A verified model of scomp

scomp shares terminal sessions through a relay. An agent on the user's machine discovers tmux and screen
sessions, attaches to them on demand, replays their recent output to every client that attaches, and forwards
what comes after. It also has a built-in fake shell with its own line editor and an in-memory file tree.

This project models the parts where most can go wrong and proves what they promise.

| module | models | main results |
|---|---|---|
| `Ring` | the circular replay buffer | a snapshot is the tail of everything written since the last reset |
| `Snapshot` | chunked replay messages | every batch reassembles to its data; a refused batch is a prefix |
| `Replay` | `internal/stream` with a session's forwarder, as small steps | `AttachReplay`: no gap and no overlap; `NoSilentHole` |
| `Attach` | the same in terms of what ran: emits, resets and requests | `AttachAnswered`, `AttachIsServed`, `ClosedWhen`, `LockIsReleased` |
| `Agent` | the main loop with forwarders, registry, deaths and catalog | `RelayViewMatches`, `IncarnationsNeverMix`, `SnapshotFromOwnSession` |
| `Lifecycle` | what the main loop answers, over whole runs of `Agent` | `AttachesAnsweredOnce`, `AnsweredBy`, `AttachActivates`, `InputExactly`, `EndedRetires`, `NeverStuck` |
| `Catalog` | stable ids for discovered sessions | `Scan` follows the listing; `AgentCatchesUp` and `CatalogModeLimitsInput` over whole runs |
| `Registry` | running sessions and their late cleanups | no cleanup touches a live entry; a source lookup finds the source's own live session |
| `Keys` | the incremental key decoder | `BoundariesInvisible`, `SplitAfterEsc`, `OneKeyPerSequence`, `KeyRoundTrip`, `TypedKeys` |
| `Terminal`, `Editor` | a terminal, the line editor and its redraw | `RenderWrites`, `RenderShows`, `ReadLine`, `KeysMean`, `HistoryKeys`, `HowItEnds`, `TypingRoundTrip` |
| `Tree`, `Vfs` | the layered file tree | `ReadDir` agrees with `Stat`; `ReadFileExactly`; `Remove` is exact; the overlay's books balance |
| `Pairing` | the pairing prompt's event loop | `SubmissionsAreAnswers` |
| `Columns` | `ls`-like column layout | every name once, column-major, within the width |

## How to read it

Code that changes objects in place is a class here: the ring buffer, the decoder, the editor, the file tree, the
catalog, the registry and the pairing prompt. Their `Valid()` is the invariant every method keeps, so it holds in
every state that any sequence of calls can reach, failed calls included.

Code whose difficulty is that several goroutines run at once is a transition system: `Replay` and `Agent` have one
action per critical section, channel operation or goroutine event. `Exec` runs any list of actions from the start,
so a lemma about `Exec` is about every interleaving. `Subscribe` and `Unsubscribe` may happen inside an `Emit`,
since they do not take the stream's main lock; sessions may die between any two steps. A run of `Agent` ends when
the connection closes, and `Replay` claims nothing about closed connections, because after that Go's random
`select` may still queue messages.

Ghost state names what the claims are about: the whole emitted history of a session, every prompt ever shown, the
ids ever removed from the catalog. The program itself does not hold it.

## What turned out different

- The relay can list a session as active although nobody forwards it, when the session ends between the two
  registry lookups of the start-up or attach path. `Agent.ActiveButNotForwarded` says exactly when,
  `Agent.ActiveButNotForwardedExample` is such a run. The next attach to such an id is answered with an empty replay.
- Cutting a message right after an ESC read in the ground state is visible, on purpose: a lone ESC is a key.
  `Keys.BoundariesInvisible` shows that this is the only such place, `Keys.SplitAfterEsc` which continuations notice.
  Besides a beginning escape sequence these are the continuations with exactly one ESC in front, when the ESC before
  the cut stood inside a rune or after a CR (`Keys.NoticedWithoutIntroducer`): in `stEsc` an ESC goes through `ground`,
  which ends a pending rune and forgets the CR, while an ESC at the end of a message does neither.
- Two creates for the same source that both look before either registers leave two live sessions
  (`Registry.ConcurrentCreates`). `Registry.SessionRegistry.Register` says exactly when a registration keeps one
  session per source; with sequential creates it always does.
- A name that stops inside a control sequence makes `columns` overflow its width: it swallows the padding and turns
  the next name's colour sequence into text. `Columns.RowsFit` holds when no name does, and `Columns.ClosedNeeded`
  shows that the condition is needed for every single name. The same holds for the indent (`Columns.BalancedNeeded`).
- In `ground` the case of four bytes that are not a full rune cannot happen: `utf8.FullRune` accepts any four bytes.

## Model

| member | source | states |
|---|---|---|
| Ring.Buffer.constructor | internal/ring/ring.go:16-19 | any capacity, 0 included, starts with nothing written |
| Ring.Buffer.Write | internal/ring/ring.go:21-57 | what was written since the last reset grows by exactly p, and the buffer still holds its tail in order |
| Ring.Buffer.Store | internal/ring/ring.go:21-57 | the bytes kept become the last capacity bytes of (kept ++ p), in all three layouts of the copy |
| Ring.WriteWhole | internal/ring/ring.go:34-40 | a write at least as long as the buffer leaves exactly its own tail |
| Ring.WriteWithoutWrap | internal/ring/ring.go:42-49 | a write up to the end of the buffer appends to the chronological order and drops the oldest bytes |
| Ring.WriteWithWrap | internal/ring/ring.go:50-56 | a write continued at the start of the buffer appends to the chronological order and drops the oldest bytes |
| Ring.Buffer.Snapshot | internal/ring/ring.go:59-78 | the result is the last min(capacity, length) bytes written since the last reset |
| Ring.Buffer.Reset | internal/ring/ring.go:80-86 | nothing is remembered, the buffer stays usable |
| Snapshot.SendSnapshot | cmd/scomp/main.go:815-834 | when enqueue starts to refuse, what was accepted is exactly a prefix of the batch; otherwise it is the batch |
| Snapshot.RestWellChunked | cmd/scomp/main.go:815-834 | from any offset: ceil(rest/chunk) chunks numbered on, none empty or too long, together the rest, and the final number |
| Snapshot.BatchReassembles | protocol/protocol.go:25-57 | the chunks of a batch concatenate to the data, are numbered 1..n, and Total and the final Seq match, if the count fits in a uint32 |
| Snapshot.ReceiveBatch | protocol/protocol.go:51-57 | a receiver that knows only the message format has exactly the data after the whole batch and is still replaying before |
| Snapshot.OthersUnaffected | protocol/protocol.go:51-57 | another client's batch, or any part of it, changes nothing for this client |
| Replay.RecordKeeps | internal/stream/stream.go:40-56 | writing the ring, after a reset or not, keeps it the tail of the history since the last reset |
| Replay.DeliverKeeps | internal/stream/stream.go:59-78 | delivering to one copied subscriber keeps every open forwarder's queue an exact piece of the stream |
| Replay.SubscribeKeeps | internal/stream/stream.go:80-85 | a subscription in the middle of an Emit starts at the right stream position |
| Replay.UnsubscribeKeeps | internal/stream/stream.go:87-92 | so does an unsubscription: what was queued stays an exact piece |
| Replay.RequestKeeps | internal/stream/stream.go:94-110 | a snapshot is queued at exactly the position it was taken at, or the connection closes |
| Replay.ForwarderKeeps | cmd/scomp/main.go:417-470 | taking an event and queueing its messages one by one keeps the wire equal to the events taken |
| Replay.RunKeeps | internal/stream/stream.go:40-110 | the invariant holds after every run of the machine |
| Replay.ShownIsSlice | protocol/protocol.go:51-57 | a snapshot plus the live output after it is one contiguous slice of the history |
| Replay.WireShows | cmd/scomp/main.go:417-470 | decoding the messages gives what the queued events mean |
| Replay.PartlyQueued | cmd/scomp/main.go:815-834 | a batch that is only partly queued never shows as a finished replay |
| Replay.AttachReplay | protocol/protocol.go:51-57 | in every interleaving, a client whose snapshot was taken and sent has received it, and has one contiguous slice of the history, from max(last reset, request position - capacity), up to date once everything queued was sent |
| Replay.NoSilentHole | internal/stream/stream.go:59-78 | in every run an open connection's forwarder was handed every byte since it subscribed whenever no Emit is in progress |
| Attach.HistoryIsEmitted | internal/stream/stream.go:39-56 | over every run the history is the data of the Emits and EmitResets that wrote the ring, in order, and the last reset is that of the last EmitReset |
| Attach.RequestsAreQueued | internal/stream/stream.go:94-110 | the snapshots among a channel's events on an open connection are exactly the requests made on it, each at its own stream position |
| Attach.RequestNotLost | internal/stream/stream.go:94-110 | the client's last snapshot is the one of its last request, taken where the run was at that step |
| Attach.AttachAnswered | protocol/protocol.go:51-57 | once its forwarder has sent what it was handed, a client has been shown everything emitted from max(last reset before its request, request position - capacity) on |
| Attach.AttachIsServed | cmd/scomp/main.go:417-470 | from every run in which a client asked on an open connection, the forwarder alone gets to that point |
| Attach.SubscribedWhile | internal/stream/stream.go:80-92 | a channel is served from its Subscribe to its Unsubscribe, for the connection it was made for |
| Attach.ClosedWhen | cmd/scomp/main.go:302-313 | a connection is closed exactly if some step closed it: its own end, a full channel in broadcast or a refused request |
| Attach.RunsOrderly | cmd/scomp/main.go:417-470 | no channel exceeds its room, and no forwarder of an open connection leaves in the middle of an event |
| Attach.MayLeave | cmd/scomp/main.go:429-451 | a forwarder can leave exactly between two events or once its connection closed |
| Attach.StepsMay | internal/stream/stream.go:39-110 | each step can happen exactly when the source allows it: one lock holder, one subscription per channel, one event at a time |
| Attach.Drains | cmd/scomp/main.go:445-468 | a forwarder that keeps running sends everything it was handed, whatever the rest does not do |
| Attach.LockIsReleased | internal/stream/stream.go:39-78 | every run can go on until the stream lock is free: a full channel never blocks the output path |
| Agent.RelayViewMatches | cmd/scomp/main.go:501-603 | after every main-loop step the relay lists exactly availableLazy, inactive exactly for lazyMap, and no lazy id has a live session |
| Agent.IncarnationsNeverMix | cmd/scomp/main.go:417-530 | never lazy and forwarding, one running forwarder per id, each retired once, and all its output before its session_remove and before the next incarnation's |
| Agent.SnapshotFromOwnSession | cmd/scomp/main.go:477-490 | a live registered session of a forwarded id is the one its forwarder follows |
| Agent.InputNeedsActiveEntry | cmd/scomp/main.go:719-792 | input or resize only reaches entries the relay lists as active, within the entry's own mode |
| Agent.ActiveButNotForwarded | cmd/scomp/main.go:417-430 | an active entry lacks a forwarder exactly when, in some step of the run, startForwarder looked its session up and found it gone |
| Agent.MissedWhen | cmd/scomp/main.go:417-421 | over every run, the ids startForwarder gave up on are exactly those it looked up in a step that found no live session |
| Agent.ActiveButNotForwardedExample | cmd/scomp/main.go:531-542 | a concrete run in which an active entry has no forwarder |
| Lifecycle.InputExactly | cmd/scomp/main.go:837-882 | input is let through exactly for entries the relay lists as active, if their mode is full, or approved and the data is an approved sequence; resizes exactly if the mode is not readonly |
| Lifecycle.AttachesAnsweredOnce | cmd/scomp/main.go:719-808 | over every run the attaches to an id are the empty replays sent for it, the snapshots requested for it, and the one being served |
| Lifecycle.AnsweredBy | cmd/scomp/main.go:477-490 | a live session with a forwarder is asked for its snapshot through that forwarder; an empty replay is sent only if the session is gone or nothing forwards it |
| Lifecycle.AttachActivates | cmd/scomp/main.go:719-792 | attaching to a lazy entry whose activation succeeds ends idle with the entry active, forwarded from the new session, with its mode, and the snapshot requested through the new forwarder |
| Lifecycle.SpawnSucceeds | internal/sessions/spawn.go:67-81 | in every reachable state a newly spawned session is a live one |
| Lifecycle.AttachRevives | cmd/scomp/main.go:517-530 | attaching to an entry whose session has ended retires the old forwarder first and activates a new incarnation |
| Lifecycle.StopIsReported | cmd/scomp/main.go:429-451 | a forwarder whose session ended can stop and report itself |
| Lifecycle.EndedRetires | cmd/scomp/main.go:495-516 | the report of a current forwarder ends with the id not forwarded, without a mode and listed as inactive, or not at all if it left the catalog; a stale report changes nothing |
| Lifecycle.NeverStuck | cmd/scomp/main.go:495-602 | from every reachable state the main loop gets back to its channels by its own steps; the forwarder finishSession waits for can always stop |
| Lifecycle.TakesAnything | cmd/scomp/main.go:565-602 | at its channels the main loop takes any attach, pending change or pending report |
| Lifecycle.ChangeShows | cmd/scomp/main.go:583-597 | a published change is delivered, and the relay lists an added entry as inactive and a removed one not at all |
| Lifecycle.LostAfterLive | cmd/scomp/main.go:417-421 | an active entry that nothing forwards had a live session earlier in the run; an entry that never had one is never started |
| Lifecycle.FullQueueCloses | cmd/scomp/main.go:346-356 | when there is no room for what the main loop sends or requests, nothing goes out and the connection closes, and only then |
| Lifecycle.RunningMaySend | cmd/scomp/main.go:445-468 | a running forwarder may queue output at any time |
| Lifecycle.EnvironmentMay | cmd/scomp/main.go:429-468 | deaths, cleanups, removals and the forwarder's own steps can happen exactly under the conditions of the source |
| Lifecycle.ChannelsBounded | cmd/scomp/session_catalog.go:170-172 | over every run the report and change channels never hold more than their room |
| Lifecycle.RegistryChannel | internal/sessions/registry.go:70-148 | a death ends one session, a cleanup forgets an id of an ended session, a removal forgets an id and ends its session, and nothing else changes |
| Agent.BootKeeps | cmd/scomp/main.go:531-542 | the start-up loop up to its registry lookup keeps the lifecycle invariant |
| Agent.RetireKeeps | cmd/scomp/main.go:501-516 | retiring a forwarder and restoring its lazy entry keeps the lifecycle invariant |
| Agent.ActivateKeeps | cmd/scomp/main.go:719-808 | activation, its failure and the reuse of a source's session keep the lifecycle invariant |
| Agent.ChangeKeeps | cmd/scomp/main.go:583-597 | applying a catalog change keeps the lifecycle invariant |
| Agent.EndedKeeps | cmd/scomp/main.go:565-602 | a notification that a forwarder ended, stale or not, keeps the lifecycle invariant |
| Agent.RegistryKeeps | internal/sessions/registry.go:73-85 | deaths, late cleanups and removals in the registry keep the lifecycle invariant |
| Agent.RetireOrder | cmd/scomp/main.go:501-516 | a session_remove follows everything its forwarder sent |
| Agent.RunKeeps | cmd/scomp/main.go:531-602 | the lifecycle invariant holds after every run on an open connection |
| Agent.IsApproved | cmd/scomp/main.go:857-882 | true exactly for the eight approved byte sequences |
| Catalog.SessionCatalog.constructor | cmd/scomp/session_catalog.go:35-51 | after its first scan, which notifies nobody, the catalog has exactly the listed keys |
| Catalog.SessionCatalog.Scan | cmd/scomp/session_catalog.go:55-157 | the keys become exactly the listed ones, kept keys keep their entries, new ids are new, removed ids never return, every entry has the catalog's mode, lossless subscribers still follow, and the registry forgets exactly the gone entries that were active |
| Catalog.SessionCatalog.AddListed | cmd/scomp/session_catalog.go:62-116 | the listed keys are added once each, with the catalog's mode, and the changes recorded lead from the old entries to the new |
| Catalog.SessionCatalog.RemoveAbsent | cmd/scomp/session_catalog.go:118-127 | exactly the present keys stay, and the changes recorded lead there |
| Catalog.SessionCatalog.ForgetRemoved | cmd/scomp/session_catalog.go:144-152 | afterwards no removed id has a live session; entries of other ids and sessions of other ids are untouched; the registry keeps its invariants |
| Catalog.SessionCatalog.Publish | cmd/scomp/session_catalog.go:129-140 | each subscriber gets the changes its channel has room for; whoever missed none can compute the new entries |
| Catalog.SessionCatalog.Deliver | cmd/scomp/session_catalog.go:131-138 | the non-blocking sends accept the longest prefix that fits |
| Catalog.SessionCatalog.SnapshotAndSubscribe | cmd/scomp/session_catalog.go:159-179 | the snapshot has each entry once, and the new subscriber starts from exactly it |
| Catalog.SessionCatalog.Unsubscribe | cmd/scomp/session_catalog.go:173-177 | only that subscriber is gone |
| Catalog.AvailableCatchesUp | cmd/scomp/main.go:531-597 | over every run, availableLazy with what is still awaited is the initial snapshot with everything published |
| Catalog.AgentCatchesUp | cmd/scomp/main.go:531-597 | with a lossless channel, once nothing is awaited, availableLazy is exactly the catalog's current entries |
| Catalog.CatalogModeLimitsInput | cmd/scomp/session_catalog.go:62-116 | over every run of an agent fed by the catalog, no id at any moment lets through more input or resizes than the catalog's mode allows |
| Registry.SessionRegistry.Get | internal/sessions/registry.go:87-97 | an ended session is missing even before its cleanup ran |
| Registry.SessionRegistry.ForgetWhenDone | internal/sessions/registry.go:70-85 | however late it runs, no entry of a live session is touched, and every entry keeps a pending cleanup of its own |
| Registry.SessionRegistry.Add | internal/sessions/registry.go:120-133 | the old session under the id is closed if it is another one; every entry keeps a pending cleanup; sources stay right exactly when the id has none or the terminal attaches to it, and deduplicated when it has none |
| Registry.SessionRegistry.Remove | internal/sessions/registry.go:135-148 | the id is forgotten and its session closed; all invariants stay |
| Registry.SessionRegistry.Lookup | internal/sessions/spawn.go:119-129 | never an ended session, never another source's, and a miss means that none is registered and alive |
| Registry.SessionRegistry.LookupOrAlias | internal/sessions/spawn.go:49-65 | the source's live session gets the id as an alias; all invariants stay |
| Registry.SessionRegistry.Register | internal/sessions/spawn.go:67-81 | the spawned session is registered with its source; a live one leaves the source deduplicated if and only if no other live session of the source is registered at that moment |
| Registry.SessionRegistry.CreateWithID | internal/sessions/spawn.go:48-81 | without another create in between, the id gets the source's live session if there is one, else the spawned one, else nothing is registered; the source keeps a single live session |
| Registry.ConcurrentCreates | internal/sessions/spawn.go:17-46 | whenever two creates for one source both looked before either registered and both sessions live, the source ends up with two live sessions |
| Keys.Decoder.constructor | fakeshell/term/keys.go:62-70 | a decoder in the ground state with empty buffers |
| Keys.Decoder.Feed | fakeshell/term/keys.go:75-126 | keys and new state are those of decoding the bytes one by one, the last one marked |
| Keys.Decoder.FeedByte | fakeshell/term/keys.go:77-124 | one byte in every state, with lone ESC, discarded and malformed sequences |
| Keys.Decoder.GroundStep | fakeshell/term/keys.go:128-156 | one byte in the ground state: CR LF as one Enter, control keys, UTF-8 across calls |
| Keys.BuffersBounded | fakeshell/term/keys.go:75-156 | the parameter and UTF-8 buffers stay within their bounds on every input |
| Keys.OneKeyPerSequence | fakeshell/term/keys.go:58-126 | every control sequence of any length is exactly one key; one that is too long is discarded whole and reported as unknown |
| Keys.ApplicationKeys | fakeshell/term/keys.go:158-205 | the cursor keys mean the same in application mode and leave the decoder as it was |
| Keys.NamedKeys | fakeshell/term/keys.go:158-187 | which key each control sequence of a terminal is, in literal bytes |
| Keys.UnknownSequences | fakeshell/term/keys.go:158-187 | every other control sequence is an unknown key, and in application mode the same six final bytes mean the same keys |
| Keys.ControlBytes | fakeshell/term/keys.go:128-156 | Backspace has two codes, CR and LF are Enter, CR LF is one Enter, every other control byte is its own key |
| Keys.KeyRoundTrip | fakeshell/term/keys.go:75-205 | whatever keys are pressed in whatever order, the bytes a terminal sends for them decode to exactly those keys |
| Keys.SplitWithoutEsc | fakeshell/term/keys.go:75-156 | cutting a message anywhere but after a ground-state ESC changes neither keys nor state |
| Keys.BoundariesInvisible | fakeshell/term/keys.go:75-126 | a cut is invisible to every continuation if and only if it is not after a ground-state ESC |
| Keys.SplitAfterEsc | fakeshell/term/keys.go:75-156 | after such an ESC, exactly which continuations notice the cut: an escape sequence beginning after all ESC bytes, or a single ESC that breaks a rune or parts CR from LF |
| Keys.NoticedWithoutIntroducer | fakeshell/term/keys.go:79-148 | two cuts that show although no escape sequence begins: between CR ESC and ESC LF, and inside a rune |
| Keys.TornEitherWay | fakeshell/term/keys.go:79-142 | for a torn rune with a further ESC both outcomes occur |
| Keys.Utf8Inverted | fakeshell/term/keys.go:132-142 | the UTF-8 encoding of every typable rune decodes to it, and no proper prefix is complete |
| Keys.OnlyEncodings | fakeshell/term/keys.go:132-139 | nothing but an encoding is decoded: overlong forms, surrogates and values above U+10FFFF are errors (section 3 of RFC 3629) |
| Keys.OneRune | fakeshell/term/keys.go:132-142 | the bytes of a rune report exactly that rune and leave the decoder at rest |
| Keys.TypedRunes | fakeshell/term/keys.go:128-156 | the bytes of a typable text report exactly its runes |
| Keys.CutAnywhere | fakeshell/term/keys.go:75-156 | input without ESC decodes the same however it is cut into messages |
| Keys.TypedKeys | fakeshell/term/keys.go:75-156 | typed text and CR, cut in any way, arrive as its runes and Enter |
| Terminal.VisibleLen | fakeshell/term/editor.go:255-275 | the number of runes that occupy a column, control sequences skipped |
| Terminal.PromptDraws | fakeshell/term/editor.go:227-253 | read by the terminal's own parser, a prompt with no other control sequences than colours draws exactly like its visible text |
| Terminal.TokenizeCounted | fakeshell/term/term_test.go:178-203 | the terminal reads a counted move written in decimal as a move by that count |
| Terminal.DrawText | fakeshell/term/term_test.go:159-223 | printing a text fills consecutive cells, wraps lazily and touches nothing above |
| Editor.AfterText | fakeshell/term/editor.go:237-240 | the terminal is in the pending-wrap state exactly when the text is not empty and fills its last row |
| Editor.FinishLands | fakeshell/term/editor.go:237-241 | the extra line break and the erase leave the text intact, blank cells after it and the cursor on the cell after it |
| Editor.GoToLands | fakeshell/term/editor.go:242-250 | the final moves land on the target cell and change no cell |
| Editor.RenderShows | fakeshell/term/editor.go:224-253 | one redraw, for every width, prompt, line and cursor: text wrapped from the prompt's row, blank after it, cursor on its cell |
| Editor.RenderWrites | fakeshell/term/editor.go:227-253 | the terminal reads the string render writes, escape sequences and decimal counts included, as the moves, the text and the erase it means |
| Editor.ListingLands | fakeshell/term/editor.go:195-207 | listing choices between two line breaks puts them below the line, with nothing behind them, and the cursor on the row after them |
| Editor.StaysInPlace | fakeshell/term/editor.go:75-222 | over every key sequence without Ctrl-L and Tab the prompt stays on the row where the call started |
| Editor.KeysMean | fakeshell/term/editor.go:127-216 | the index arithmetic of every erasing, moving and inserting key does to the text before and after the cursor what the key means |
| Editor.HistoryRoundTrip | fakeshell/term/editor.go:174-194 | as many steps down as up through the history give the edited line back |
| Editor.HistoryKeys | fakeshell/term/editor.go:174-194 | n presses of Up show the n-th line from the end with the cursor behind it, and as many of Down give the edited line back |
| Editor.OtherKeysMean | fakeshell/term/editor.go:167-221 | Tab takes the completer's line if it fits, with the cursor inside it; Ctrl-L, unknown keys and Up or Down at the ends leave the line alone |
| Editor.HowItEnds | fakeshell/term/editor.go:97-130 | a call returns the line at Enter and only then, and each error for its own cause and only then |
| Editor.HistoryTidy | fakeshell/term/editor.go:51-62 | the history never holds blank lines, immediate repeats or more than 200 lines; every other line is its last entry afterwards, and only the oldest is lost |
| Editor.BlankMeans | fakeshell/term/editor.go:51-62 | a line is blank exactly if it trims to nothing |
| Editor.JoinMeans | fakeshell/term/editor.go:203-206 | choices are listed one after the other with two spaces in between |
| Editor.EditKeepsText | fakeshell/term/editor.go:107-221 | whatever key is pressed, the line stays printable, within its limit, and the cursor in it |
| Editor.QuietKeys | fakeshell/term/editor.go:107-221 | a key without a redraw leaves the line as it is on screen |
| Editor.LineEditor.constructor | fakeshell/term/editor.go:64-79 | width and length limit fall back to their defaults |
| Editor.LineEditor.Render | fakeshell/term/editor.go:224-253 | the terminal is exactly the old screen above the prompt's row, then prompt and line, then nothing, and cursorRow is the row of the cursor's cell |
| Editor.LineEditor.BuildText | fakeshell/term/editor.go:227-250 | the string built step by step, and the cursor's row |
| Editor.LineEditor.ShowEdit | fakeshell/term/editor.go:107-221 | after any effect of a key the screen shows prompt and line; the prompt's row and what is above it change only by a clear or a list of choices, and then in a known way |
| Editor.LineEditor.LeaveLine | fakeshell/term/editor.go:115-126 | the line is redrawn whole and the cursor goes to the start of the row below it |
| Editor.LineEditor.Remember | fakeshell/term/editor.go:51-62 | blank lines and repeats are left out, at most 200 lines stay |
| Editor.LineEditor.ReadLine | fakeshell/term/editor.go:75-222 | for every width, colour-only prompt and key sequence, after each key the whole screen is a function of the screen at the start and the keys: the prompt and the edited line at their place, the rows above untouched, nothing after; Enter ends on the row below; the result is what the keys say |
| Editor.TypingRoundTrip | fakeshell/term/editor.go:75-222 | any typable text within the limit, sent as UTF-8 and CR in any messages, is what ReadLine returns |
| Editor.BytesEdit | fakeshell/term/editor.go:75-222 | whatever keys are pressed, their bytes make ReadLine do what the keys mean |
| Tree.LowerUnchanged | fakeshell/vfs/vfs.go:194-236 | in every state a lower-layer entry keeps its kind and content |
| Tree.ParentIsDirectory | fakeshell/vfs/vfs.go:338-357 | in every state the parent of whatever exists is a directory |
| Tree.BelowOverlay | fakeshell/vfs/vfs.go:423-448 | below an overlay directory everything is overlay |
| Tree.Stat | fakeshell/vfs/vfs.go:194-236 | lookup fails exactly where no layer has anything, and reports the layer's kind |
| Tree.KindExactly | fakeshell/vfs/vfs.go:194-236 | something is found exactly where a layer has it, and as what that layer has |
| Tree.LayeredExample | fakeshell/vfs/vfs.go:180-236 | a configuration with all layers exists, and lookup finds each of them |
| Tree.ReadFileExactly | fakeshell/vfs/vfs.go:298-324 | reading fails exactly for what is missing, for directories and for private files unless root, and otherwise gives the content of the topmost layer |
| Tree.StatExactly | fakeshell/vfs/vfs.go:194-236 | the size of a readable file is that of its content; times come from the overlay, from now for generated files, and from the base otherwise |
| Tree.CreateExactly | fakeshell/vfs/vfs.go:326-357 | creating is refused with each error exactly for its own reason, with the writable and private directories spelled out |
| Tree.PutFileOk | fakeshell/vfs/vfs.go:359-380 | an allowed write keeps the overlay's books: sizes, limits, times, disjointness, parents |
| Tree.PutDirOk | fakeshell/vfs/vfs.go:398-419 | an allowed mkdir keeps the overlay's books |
| Tree.CutOk | fakeshell/vfs/vfs.go:421-448 | dropping a subtree keeps the overlay's books |
| Tree.CutUsed | fakeshell/vfs/vfs.go:421-448 | dropping a subtree lowers used by exactly the bytes of the files in it |
| Tree.CutIsExact | fakeshell/vfs/vfs.go:421-448 | after dropping a subtree nothing is left at or below it, and every other path has the same kind, content and Stat |
| Tree.ResolveStaysInside | fakeshell/vfs/vfs.go:111-121 | whatever is asked for, the result is a clean absolute path, and it fails exactly for names with a NUL |
| Tree.ResolveWalks | fakeshell/vfs/vfs.go:111-121 | the last name of a path is entered from where the path before it leads, with the dots staying or going up |
| Tree.ResolveName | fakeshell/vfs/vfs.go:111-121 | a single name is entered from the working directory |
| Tree.ResolveIdempotent | fakeshell/vfs/vfs.go:111-121 | a clean absolute path resolves to itself from anywhere |
| Vfs.FileSystem.constructor | fakeshell/vfs/vfs.go:81-98 | an empty overlay over well-formed layers; limits of 0 or less become the defaults |
| Vfs.FileSystem.Reset | fakeshell/vfs/vfs.go:100-106 | the overlay is empty again |
| Vfs.NamesSuffice | fakeshell/vfs/vfs.go:256-287 | the names collected from all layers include every existing child |
| Vfs.AddName | fakeshell/vfs/vfs.go:264-272 | climbing from a deep entry adds exactly the name of the child it lies under |
| Vfs.InsertByName | fakeshell/vfs/vfs.go:288-295 | the listing stays sorted and only gains the new entry |
| Vfs.FileSystem.ReadDir | fakeshell/vfs/vfs.go:243-296 | sorted, without duplicates, and exactly the children for which Stat succeeds; otherwise the right error |
| Vfs.FileSystem.WriteFile | fakeshell/vfs/vfs.go:359-380 | succeeds exactly when allowed, with the first objection otherwise; then only p changes, reads back, and has the new size and time |
| Vfs.FileSystem.Touch | fakeshell/vfs/vfs.go:382-396 | creates an empty file where nothing exists, with the first objection if it cannot, otherwise changes at most a time |
| Vfs.FileSystem.Mkdir | fakeshell/vfs/vfs.go:398-419 | mkdir -p succeeds exactly when no file is in the way, all missing parents may be made and all fit; in any case it makes exactly the missing prefixes of p that can be made and reports the objection to the first that cannot |
| Vfs.RefusalWhen | fakeshell/vfs/vfs.go:398-419 | going down from the root there is no objection exactly when nothing stands in the way of all of it |
| Vfs.FileSystem.MakeOne | fakeshell/vfs/vfs.go:410-418 | one directory is made exactly when nothing is there and creating is allowed; otherwise the error is the first objection and nothing changes |
| Vfs.FileSystem.Remove | fakeshell/vfs/vfs.go:421-448 | terminates; a file or, if recursive, a directory goes with exactly the entries at or below it; every failure changes nothing and has the right error |
| Vfs.PrunedAll | fakeshell/vfs/vfs.go:436-447 | removing every listed child and then the directory is removing the whole subtree |
| Pairing.Prompter.Connected | cmd/scomp/pairing_prompt.go:44-57 | the newest connection's sender is installed |
| Pairing.Prompter.Disconnected | cmd/scomp/pairing_prompt.go:44-57 | a stale disconnect never removes a newer connection's sender |
| Pairing.Prompter.Request | cmd/scomp/pairing_prompt.go:59-67 | a request is queued, or dropped when four are waiting |
| Pairing.Prompter.TakeRequest | cmd/scomp/pairing_prompt.go:76-150 | the new prompt replaces the one showing and gets a fresh timer |
| Pairing.Prompter.TakeLine | cmd/scomp/pairing_prompt.go:76-150 | the line answers the prompt showing, if any, and is submitted under its id if it is not blank and a sender accepts it |
| Pairing.Prompter.LinesClosed | cmd/scomp/pairing_prompt.go:76-150 | closed input ends the prompt without a submission |
| Pairing.Prompter.TimerFires | cmd/scomp/pairing_prompt.go:76-150 | an old timer never expires a newer prompt |
| Pairing.SubmissionsAreAnswers | cmd/scomp/pairing_prompt.go:76-150 | over every order of events a prompt has at most one submission, with its own id and the first line received while it was showing |
| Pairing.TrimSpaceMeans | cmd/scomp/pairing_prompt.go:135-135 | trimming takes blanks from both ends, and all of them |
| Columns.Columns | fakeshell/shell.go:229-257 | the nested loops print exactly the lines of the grid for the widest name, width and indent |
| Columns.LayoutFits | fakeshell/shell.go:229-257 | that grid is column-major and has every name, and its rows are within the width if the widest name and the indent fit, no name stops inside a control sequence and the indent is balanced |
| Columns.OnePlaceEach | fakeshell/shell.go:242-250 | no name is printed twice |
| Columns.ColumnsAligned | fakeshell/shell.go:242-253 | name k of every row stands exactly k cells after the indent |
| Columns.CellStarts | fakeshell/shell.go:242-253 | for names that end in a lone ESC, a cell starts exactly as many columns earlier as such names come before it in its row |
| Columns.BytesOfText | fakeshell/shell.go:239-239 | the length of the indent is counted in bytes of its encoding |
| Columns.RowsFit | fakeshell/shell.go:234-253 | every row of the grid is at most width visible columns if the widest name and the indent fit, no name stops inside a control sequence and the indent inside no sequence |
| Columns.ClosedNeeded | fakeshell/shell.go:234-253 | beside any name that stops inside a control sequence, the row that is printed for it and a harmless name overflows |
| Columns.BalancedNeeded | fakeshell/shell.go:234-253 | behind any indent that stops inside a sequence, the row that is printed for a harmless name overflows |

## Left out

- WebSocket dialing, deadlines, ping and pong, JSON, base64 and the Ed25519 handshake: messages are values, and an
  encoding is taken to be lossless.
- PTY, tmux, screen, fsnotify and process spawning: a spawn gives a fresh session or fails, a session may die at
  any moment, a scan is given its two listings.
- `internal/stream` and `runAgent` are transition systems on values, not classes with locks: what matters there is
  the interleaving. The order of the map iteration in `broadcast` is left open, as in Go.
- The very last bytes of a session: its forwarder may stop before it drained its channel
  (cmd/scomp/main.go:446-467), so claims about output are about what was queued.
- The empty snapshot that the main loop sends itself when a session has no live forwarder
  (cmd/scomp/main.go:480-486) appears in `Agent` as a message, but not in `Replay`.
- Session ids are numbers compared only for equality, and ids drawn by `newSessionID` are taken to be distinct.
- In `Agent` a stopped forwarder may report its end more than once; the program reports once, so this only adds runs.
- Catalog.SessionCatalog.Scan: does not model the activation closures, nor the kill of a tmux helper session.
- Catalog.SessionCatalog.SnapshotAndSubscribe: does not model the order of the snapshot, which nothing depends on.
- `sourceKey`: the parsing of attach commands; a source is an opaque key.
- Registry.SessionRegistry.Spawn: does not model the process behind a session.
- The editor's output is a sequence of runes, not of UTF-8 bytes; rows are unbounded, the width is constant during a
  call, and every rune takes one column, which are the editor's own assumptions. A colour change leaves the pending
  wrap alone.
- Keys.SplitAfterEsc: does not decide one family of malformed inputs: a rune torn by an ESC before the cut, one ESC
  right after it, then a byte above 0x7f and later another ESC. Both outcomes occur (`Keys.TornEitherWay`).
- Editor.LineEditor.ReadLine: does not model prompts with other escape sequences than colours. The editing keys are
  a function of the line, the two loops of Ctrl-W are recursion, and clearing the screen is taken to be home and erase.
  A completer is taken to propose and list printable text.
- Tree.Stat: does not model owner and permission bits, which no other operation reads.
- The file tree always has a base; file times are numbers given by the caller; the library sort is an insertion sort.
- Tree.ResolveStaysInside: does not model what the other operations do with the empty path that stands for a name
  with a NUL.
- Pairing.Prompter.Request: does not model an empty pair id, and drops like the source when its queue is full, so the
  latest request need not win. `TrimSpace` knows the blanks of ASCII.
- Terminal resize during an edit, wide or combining characters, the fake commands, the process table, `top`, `date`,
  banners, help texts and identity files.
