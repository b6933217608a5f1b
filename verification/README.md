# TerminalTeams: state machines of a serverless LAN chat, modelled and proved

TerminalTeams lets the users of a local network chat without a server. Its logic is a set of
state machines joined by queues, where each machine has a peer that has to agree with it. This
project models the machines in Dafny and proves what they keep over every run.

* **Text layout** (`Words`, `Layout`): how a message is trimmed, collapsed, split and wrapped.
  Greedy wrapping uses the fewest lines among all layouts, loses nothing, and ends exactly when
  the side width is positive.
* **Chat pipeline** (`ChatMessages`, `ChatHandlers`, `ChatScreen`, `ChatPipeline`): handler, queue,
  main loop and display. The screen is a replica of the selected conversation. Which steps end that
  is stated as an if-and-only-if for every step of every run, stopped or not, with the main loop at
  work, giving up or gone.
* **Contacts** (`ContactStates`, `ContactsReplica`, `ContactsHandlers`, `SharedMemory`,
  `ContactsLink`): eight states that encode four bits of history, an identity index, a stream of
  changes, a one-slot shared buffer under two semaphores, and the list another process rebuilds.
  The display always shows some past of the contacts and never goes back.
* **Store and forward** (`ChatBroadcaster`, `Peers`, `SentMail`): nothing accepted is lost, every
  attempt carries the unacknowledged rest, and what is acknowledged is stored by the peer, itself an
  engine, at least once and in order. What the user sees as sent is what was handed over.
* **Engine and discovery** (`Discovery`, `Engine`, `DiscoveryBroadcaster`): two separately locked
  stores stay aligned under every interleaving of the locked regions.
* **All of it** (`WholeSystem`): one engine with both pipelines and both displays. The chat screen is
  the conversation with exactly the contact that the contacts list shows as selected.
* **Text box** (`TextBox`): from typed lines to callbacks.

## How the model is built

Each operation is a method of a class with the source's fields, proved equal to a function on the
value of its state. The functions are then composed into transition systems whose steps are the
source's critical sections (single memory cells and system calls for the shared memory), and
the theorems are about every sequence of steps.

The stop flag can be raised by another thread between any two instructions. A handler carries
`life`, the number of further `isStopped()` reads that still find the flag lowered; a theorem for
every `life` is one for every moment at which the stop can land, also in the middle of an
operation. "Running" and "not stopped" mean `life > 0`. Outcomes of the system and of the network
(timeouts, failed posts, lost acknowledgements, expired timers) are parameters over which every
statement quantifies; so is what the process at the other end of the shared memory does between two
steps of a call.

`history`, `emitted` and `snapshots` in the contacts handler, `handed` and `attempts` in the
broadcaster, `lost` in `SentMail`, `posted`, `confirmed` and `received` in the channel and `probes` in the neighbour
records only remember what happened; the source has no such fields.

## Where the code falls short

* A side width of zero makes the wrap loop stand still for ever (`Layout.WrapHaltsIff`).
* Selecting a neighbour, or storing a message of it, while `addNeighbor` has created its contact
  but not yet its conversation stops the whole engine, and so does any message from a contact that
  is marked inactive (`Engine.StopsItselfExactly`; `Engine.SelectionInTheWindowStops`,
  `Engine.MessageInTheWindowStops` and `Engine.InactiveMessageExample` give the runs).
* Nothing limits the nickname of a greeting, but a contacts message can hold 255 characters: a longer
  one from an unknown neighbour fails an assertion and ends the process (`Engine.LongNicknameStops`).
  In a build without assertions the behaviour is undefined.
* A stop that lands between a change of the storage and the enqueue loses the replica. For the chat
  `ChatPipeline.SendLosesExactly`, `ChatPipeline.ReceiveLosesExactly` and
  `ChatPipeline.SelectLosesExactly` say when, for the contacts `ContactsHandlers.StepLosesExactly`
  does, with a failing run for each. The contacts go on changing after a stop, so that a lost replica
  can come back (`ContactsHandlers.LostAndRegained`); `ContactsHandlers.AtTheEndExactly` says when the
  stream is one at the end of a run. What holds in any case: the screen shows a beginning of one
  conversation, every prefix of the contacts stream is a past state, and only the current contact can
  be selected.
* One failed send to the display destroys what is queued for it while the handler goes on accepting
  texts, for as long as the goodbye takes. Giving up may be harmless
  (`ChatPipeline.GivingUpExactly`), but every later text of the selected conversation is then lost
  (`ChatPipeline.LateExactly`), and so is the rest of a replay (`ChatPipeline.ReplayAfterGivingUp`).
* The same stop between storing and queueing a text makes `handleSend` give up on it: the text is shown
  as sent and never handed over (`SentMail.LosesExactly`, `SentMail.LostText`).
* A receiver that knows the sender's identity under its own address acknowledges texts without storing
  them (`ChatBroadcaster.AcceptedIsStored`).
* `#select` and `#select ` read an argument that does not exist (`TextBox.ParsableExactly`).
* A neighbour whose probing has ended is never probed again (`Engine.ExhaustedIsNeverProbed`), even
  when it is active. It can be in three ways: after a heartbeat of it, after a greeting from it, which
  both activate the contact without touching the trial counter, and when its last probes failed for
  want of a stub, which uses up trials without telling the contact (`Engine.ActiveYetNeverProbed`;
  `Engine.ExhaustedYetActiveExactly` says when).
* `TTChatHandler::size` is declared to return a boolean and only tells whether it is empty.

## Model

| member | source | states |
|---|---|---|
| `Words.Normalize` | chat/src/TTChat.cpp:170-205 | the three whitespace loops together compute the words of the text joined by single spaces, and one space for a blank, non-empty text |
| `Words.TrimFront` | chat/src/TTChat.cpp:170-177 | a text with ink starts with a non-whitespace character afterwards and keeps its words; a blank text is not touched |
| `Words.TrimBack` | chat/src/TTChat.cpp:178-185 | the same for the end of the text |
| `Words.Collapse` | chat/src/TTChat.cpp:186-204 | the nested loop turns every whitespace run into one space |
| `Words.CollapsedTrimmed` | chat/src/TTChat.cpp:186-205 | for a trimmed text, collapsing is joining its words by one space |
| `Words.WordsHoldTheInk` | utils/src/TTUtilsAscii.hpp:6-17 | the words of a text, concatenated, are the text without its whitespace |
| `Words.WordsOfJoin` | chat/src/TTChat.cpp:186-205 | splitting the joined words on whitespace gives the words back |
| `Words.NormalizedIdempotent` | chat/src/TTChat.cpp:170-205 | formatting a formatted text changes nothing |
| `Words.ExtractWords` | chat/src/TTChat.cpp:212-219 | the find loop computes the pieces between delimiters, one more than there are delimiters |
| `Words.SplitOfJoin` | chat/src/TTChat.cpp:212-219 | splitting on one space inverts joining by one space |
| `Layout.FillLine` | chat/src/TTChat.cpp:226-232 | the inner loop takes the longest prefix of the words that fits, and its `pop_back` never meets an empty line |
| `Layout.MakeLines` | chat/src/TTChat.cpp:222-237 | the outer loop ends and computes the wrapping of the words, long words cut in place |
| `Layout.WrapIsGreedy` | chat/src/TTChat.cpp:222-237 | the loop over words equals first-fit over pieces, where each word is cut into full blocks and a remainder, possibly empty |
| `Layout.WrapLinesFit` | chat/src/TTChat.cpp:222-237 | every line is at most the side width long |
| `Layout.GreedyIsOptimal` | chat/src/TTChat.cpp:222-237 | no division of the pieces into consecutive fitting lines has fewer lines than first fit |
| `Layout.GreedySuffix` | chat/src/TTChat.cpp:222-237 | pieces in front never save first fit a line: the exchange argument behind optimality |
| `Layout.WrapIsOptimal` | chat/src/TTChat.cpp:222-237 | the printed lines are such a division and no other one is shorter, for all words, long ones included |
| `Layout.ShortWordsAreTheirPieces` | chat/src/TTChat.cpp:224-224 | when every word is shorter than the side width the pieces are the words, so optimality is about the words themselves |
| `Layout.WrapIsLossless` | chat/src/TTChat.cpp:222-237 | deleting whitespace from the lines gives the words, and splitting the lines on spaces gives the pieces back |
| `Layout.TextIsShown` | chat/src/TTChat.cpp:206-238 | for any text there is at least one line, all lines fit, and they hold exactly the non-whitespace characters of the text |
| `Layout.TextIsOptimal` | chat/src/TTChat.cpp:206-238 | for a text with at least one word, no layout of its pieces has fewer lines than the printed one |
| `Layout.WrapHaltsIff` | chat/src/TTChat.cpp:223-237 | the wrap loop ends if and only if the side width is positive or there are no words |
| `Layout.Format` | chat/src/TTChat.cpp:170-238 | all loops of the formatting part together compute the lines of the text |
| `ChatMessages.PiecesShape` | chat/src/TTChatHandler.cpp:160-190 | a text of length n takes max(1, ceil(n/2048)) pieces, all but the last full chunks of the chunk kind; their payloads are the text |
| `ChatMessages.PiecesAssemble` | chat/src/TTChat.cpp:95-166 | the display accepts the pieces of a text and turns them, with what was gathered before, into exactly one entry |
| `ChatMessages.TranscriptAssembles` | chat/src/TTChat.cpp:95-166 | feeding the pieces of a list of entries appends exactly these entries to the screen |
| `ChatMessages.HeartbeatsDoNotMatter` | chat/src/TTChat.cpp:153-155 | heartbeats inserted anywhere, also between chunks, change nothing |
| `ChatMessages.ReassemblyIsIdentity` | chat/src/TTChat.cpp:95-166 | cutting and reassembling is the identity for entries of any lengths with heartbeats anywhere |
| `ChatHandlers.ChatHandler.Count` | chat/src/TTChatHandler.cpp:160-168 | full chunks and last length add up to the size; after a chunk there is always something left to close the text |
| `ChatHandlers.ChatHandler.Cut` | chat/src/TTChatHandler.cpp:160-185 | the chunking loop computes the pieces, and every payload fits the message buffer |
| `ChatHandlers.ChatHandler.QueueText` | chat/src/TTChatHandler.cpp:153-195 | queues all pieces of a text, or nothing once the stop has landed |
| `ChatHandlers.ChatHandler.SendMessage` | chat/src/TTChatHandler.cpp:44-65 | the new storage, queue and result of `send`, including the store that precedes a refused enqueue |
| `ChatHandlers.ChatHandler.ReceiveMessage` | chat/src/TTChatHandler.cpp:67-86 | the same for `receive`; only the current conversation is queued |
| `ChatHandlers.ChatHandler.SelectContact` | chat/src/TTChatHandler.cpp:88-116 | the same for `select`: a clear, the new current id, the replay of the whole storage |
| `ChatHandlers.ChatHandler.CreateStorage` | chat/src/TTChatHandler.cpp:118-132 | a conversation is created only with the next free id |
| `ChatHandlers.ChatHandler.Dequeue` | chat/src/TTChatHandler.cpp:197-237 | takes everything queued in order; when nothing was queued that is a heartbeat with what other threads queued before and after it; it fails exactly when a stop lands before the last of its one or three looks at the flag, and then nothing leaves the queue |
| `ChatHandlers.ChatHandler.SendBatch` | chat/src/TTChatHandler.cpp:277-289 | the batch reaches the pipe up to the first message that finds the handler stopped or is refused, and the loop is left early for no other reason |
| `ChatScreen.RightEdge` | chat/src/TTChat.cpp:248-251 | a text is moved to the right edge exactly when it is not wider than the terminal; a wider one gets a whole blank line in front |
| `ChatScreen.SentLinesReachTheRightEdge` | chat/src/TTChat.cpp:250-253 | every line of a sent message ends exactly at the right edge |
| `ChatScreen.Chat.HandleMessage` | chat/src/TTChat.cpp:95-166 | reassembly of one message, which is accepted exactly when the chunks gathered so far are none or of its own side; afterwards the terminal shows the rendering of exactly the entries since the last clear |
| `ChatMessages.AcceptsExactly` | chat/src/TTChat.cpp:95-166 | the same on values: which messages may follow which chunks, and that a refused one changes nothing |
| `ChatScreen.Chat.PrintEntry` | chat/src/TTChat.cpp:168-256 | prints the time stamp, the wrapped lines and an empty line; a received line stands there as it is, a sent one behind blanks only and up to the right edge when it fits |
| `ChatScreen.EntryOnTerminal` | chat/src/TTChat.cpp:240-256 | the same read off the terminal: split at its line ends, the output of an entry is these lines and no others |
| `ChatScreen.Chat.Run` | chat/src/TTChat.cpp:39-65 | the receive loop handles exactly the messages up to the first refusal, failed receive or stop, none when a queue is not alive, and ends stopped |
| `ChatPipeline.StepKeepsInv` | chat/src/TTChatHandler.cpp:44-305 | every step of handler, replay loop, main loop, goodbye, queue and display keeps the replica invariant; a failed send, the goodbye and the stop of `main` are separate steps |
| `ChatPipeline.StepWhole` | chat/src/TTChatHandler.cpp:44-195 | while the main loop is at work, a step ends the replica exactly when it stores an entry and is stopped before queueing it, or is stopped within a replay |
| `ChatPipeline.ScreenIsReplica` | chat/src/TTChatHandler.cpp:44-195 | in every reachable state that is not stopped and whose main loop has not given up, consuming all messages in flight leaves exactly the selected conversation on the screen, short of what a running `select` has still to replay |
| `ChatPipeline.ReplicaExactly` | chat/src/TTChatHandler.cpp:44-195 | stopped or not, while the main loop is at work: the screen is a replica if and only if no step of the run has left a gap |
| `ChatPipeline.SendLosesExactly` | chat/src/TTChatHandler.cpp:59-62 | from a replica, `send` ends on a replica unless, and only unless, the stop lands between storing and queueing |
| `ChatPipeline.ReceiveLosesExactly` | chat/src/TTChatHandler.cpp:78-82 | the same for `receive` |
| `ChatPipeline.SelectLosesExactly` | chat/src/TTChatHandler.cpp:102-112 | `select` loses the replica exactly when it has changed the conversation and fewer reads of the flag are left than entries to replay |
| `ChatPipeline.StoreWithoutQueue` | chat/src/TTChatHandler.cpp:59-62 | a run in which `send`, and one in which `receive`, is cut off and loses the replica |
| `ChatPipeline.ReplayCut` | chat/src/TTChatHandler.cpp:108-112 | a run in which a stop within a replay loses the replica |
| `ChatPipeline.GivingUpExactly` | chat/src/TTChatHandler.cpp:277-296 | a main loop that gives up, stop or no stop, replay or no replay, keeps the replica exactly when only heartbeats are destroyed, or a clear is among what is destroyed and what follows it leads to the screen the pipe leads to |
| `ChatPipeline.LateExactly` | chat/src/TTChatHandler.cpp:44-116 | after the loop is left a step ends the replica exactly when it stores an entry of the selected conversation, selects another one while the screen is not empty, or goes on with a replay |
| `ChatPipeline.LosesExactly` | chat/src/TTChatHandler.cpp:44-305 | the three phases together: from a replica, any step of any kind ends on one unless, and only unless, it is one of those named for its phase |
| `ChatPipeline.ThroughoutExactly` | chat/src/TTChatHandler.cpp:44-305 | over any run, the screen is a replica throughout if and only if no step lost it |
| `ChatPipeline.AtTheEndExactly` | chat/src/TTChatHandler.cpp:277-296 | once the loop is left the screen the display heads for is fixed, over any continuation, and it is a replica exactly when the conversation selected then reads like it |
| `ChatPipeline.ReplayAfterGivingUp` | chat/src/TTChatHandler.cpp:108-112 | a run that gives up within a replay, without a stop, and loses the rest of it |
| `ChatPipeline.LostAndRegained` | chat/src/TTChatHandler.cpp:277-296 | a run in which only a heartbeat is destroyed: still a replica, lost with the next text, regained by selecting an empty conversation |
| `ChatPipeline.FailedSendLosesTheReplica` | chat/src/TTChatHandler.cpp:284-296 | a run with one failed send and no stop: the handler still runs, nothing is in flight, and the screen misses an entry |
| `ChatPipeline.ScreenShowsOneConversation` | chat/src/TTChatHandler.cpp:88-116 | in every reachable state, stopped or not, the screen is a beginning of one stored conversation |
| `ChatPipeline.DisplayNeverRefuses` | chat/src/TTChat.cpp:95-166 | in every run the display accepts every message of the handler but the goodbye |
| `ChatPipeline.CatchUp` | chat/src/TTChat.cpp:39-65 | a display process in a reachable state that consumes what is in flight ends with the rendering of the selected conversation on its terminal |
| `ChatPipeline.CanCatchUp` | chat/src/TTChatHandler.cpp:264-305 | progress: from every state whose main loop is at work, with no stop near, the steps of main loop and display alone bring the selected conversation onto the screen |
| `ContactStates.EncodingIsExact` | contacts/src/TTContactsState.hpp:7-25 | the eight states are exactly the bit combinations the header does not call impossible, each once |
| `ContactStates.HistoryStep` | contacts/src/TTContactsHandler.cpp:51-240 | how one accepted operation moves the bits of a contact, the bits being defined by the history alone |
| `ContactStates.TransitionsFollowHistory` | contacts/src/TTContactsHandler.cpp:51-240 | every arm of the six switch statements moves the four bits as the history does |
| `ContactStates.AcceptedExactly` | contacts/src/TTContactsHandler.cpp:51-240 | send needs a selected contact, receive an active one, the halves of select the matching selection; activate and deactivate always work |
| `ContactsReplica.Contacts.HandleMessage` | contacts/src/TTContacts.cpp:35-56 | appends a new active entry or overwrites the state of an existing one; the loop goes on exactly after a heartbeat and after a change that could be shown |
| `ContactsReplica.Contacts.Run` | contacts/src/TTContacts.cpp:19-33 | the loop handles exactly the rounds up to the first failed receive, failed refresh, goodbye or stop, and ends stopped |
| `ContactsReplica.LoopReplays` | contacts/src/TTContacts.cpp:19-56 | wherever that loop ends, the list is the replay of the messages received until then |
| `ContactsHandlers.ContactsHandler.CreateContact` | contacts/src/TTContactsHandler.cpp:38-49 | the new list, index and queue, also when the enqueue is refused after the insertion |
| `ContactsHandlers.ContactsHandler.SendMessage` | contacts/src/TTContactsHandler.cpp:51-83 | new state and counter of the contact, and a message exactly when the state changed |
| `ContactsHandlers.ContactsHandler.ReceiveMessage` | contacts/src/TTContactsHandler.cpp:85-117 | the same for `receive`, which refuses an inactive contact |
| `ContactsHandlers.ContactsHandler.Activate` | contacts/src/TTContactsHandler.cpp:119-150 | the same for `activate` |
| `ContactsHandlers.ContactsHandler.Deactivate` | contacts/src/TTContactsHandler.cpp:152-183 | the same for `deactivate` |
| `ContactsHandlers.ContactsHandler.SelectContact` | contacts/src/TTContactsHandler.cpp:185-240 | both halves of `select`, with every point at which it can give up |
| `ContactsHandlers.ContactsHandler.Find` | contacts/src/TTContactsHandler.cpp:251-259 | the index lookup, which is the linear search for the last contact with that identity wherever the index invariant holds |
| `ContactsHandlers.ContactsHandler.QueueMessage` | contacts/src/TTContactsHandler.cpp:272-282 | appends one message, or nothing once the stop has landed |
| `ContactsHandlers.ContactsHandler.HeartbeatLoop` | contacts/src/TTContactsHandler.cpp:284-301 | queues one heartbeat per round until the stop lands, changes no contact, and ends with a stop |
| `ContactsHandlers.ContactsHandler.TakeQueue` | contacts/src/TTContactsHandler.cpp:309-327 | once its wait has ended, takes the whole queue in order, or leaves it alone when stopped |
| `ContactsHandlers.StepKeepsInv` | contacts/src/TTContactsHandler.cpp:38-301 | every operation keeps history, selection, index and replica invariants, also when the stop lands inside it |
| `ContactsHandlers.SelectArms` | contacts/src/TTContactsHandler.cpp:185-240 | while running no error arm of `select` is reachable; the second arm is not reachable at all, the first only after a stop |
| `ContactsHandlers.UpdateSpeaks` | contacts/src/TTContactsHandler.cpp:51-183 | `send`, `receive`, `activate` and `deactivate` announce exactly a change of state, and fail after it exactly when a stop has landed |
| `ContactsHandlers.SelectSpeaks` | contacts/src/TTContactsHandler.cpp:185-240 | `select` announces the contact it leaves and then the one it chooses |
| `ContactsHandlers.CreateSpeaks` | contacts/src/TTContactsHandler.cpp:38-49 | a new contact is active, has no messages, and is announced unless a stop has landed |
| `ContactsHandlers.StateIsHistory` | contacts/src/TTContactsHandler.cpp:51-240 | in every reachable state a contact is active, selected, unread and pending exactly as its history says, counters included; impossible combinations never occur |
| `ContactsHandlers.StreamIsReplica` | contacts/src/TTContactsHandler.cpp:38-282 | while not stopped, replaying the emitted stream gives exactly the projected contacts; no prefix goes out of bounds, stopped or not |
| `ContactsHandlers.StepLosesExactly` | contacts/src/TTContactsHandler.cpp:38-282 | from a replica, an operation ends on one except exactly when it changes a contact and is stopped before it can say so, for each operation in terms of the reads left |
| `ContactsHandlers.ReplicaExactly` | contacts/src/TTContactsHandler.cpp:38-282 | stopped or not: the stream is a replica throughout a run if and only if no operation of the run was cut off |
| `ContactsHandlers.AtTheEndExactly` | contacts/src/TTContactsHandler.cpp:38-282 | at the end of any run the stream is a replica exactly when no contact was added since the last message that got through and every contact is in the state it was in then |
| `ContactsHandlers.LostAndRegained` | contacts/src/TTContactsHandler.cpp:119-183 | a run in which a stop within `deactivate` loses the replica and the next `activate` brings it back |
| `ContactsHandlers.CreateCutOff` | contacts/src/TTContactsHandler.cpp:46-48 | a run in which a stop within `create` loses the replica |
| `ContactsHandlers.UpdateCutOff` | contacts/src/TTContactsHandler.cpp:152-183 | a run in which a stop within `deactivate` does |
| `ContactsHandlers.ChooseCutOff` | contacts/src/TTContactsHandler.cpp:214-239 | a run in which a stop within the second half of `select` does |
| `ContactsHandlers.UnselectCutOff` | contacts/src/TTContactsHandler.cpp:192-213 | a run in which a stop within its first half does |
| `ContactsHandlers.OneSelected` | contacts/src/TTContactsHandler.cpp:185-240 | every selected contact is the current one, even after a stop, so at most one is selected; while running the current one is |
| `ContactsHandlers.IndexFindsLast` | contacts/src/TTContactsHandler.cpp:38-49 | in every run the index finds the last contact created with an identity, and nothing for an unknown one |
| `SharedMemory.Rendezvous` | utils/src/TTUtilsSharedMem.cpp:140-220 | in every interleaving, with any timeouts and failures: confirmed <= received <= posted <= confirmed + 1, received data is a prefix of posted data, and the two copies never overlap |
| `SharedMemory.StepKeepsInv` | utils/src/TTUtilsSharedMem.cpp:140-220 | every single cell copy, wait and post of either side keeps the token and content invariants |
| `SharedMemory.DeadStaysDead` | utils/src/TTUtilsSharedMem.cpp:177-217 | a side that failed never touches the buffer or its record again |
| `SharedMemory.SidesAreSeparate` | utils/src/TTUtilsSharedMem.cpp:140-220 | whatever one process does leaves the other side alone |
| `SharedMemory.Channel.Send` | utils/src/TTUtilsSharedMem.cpp:182-220 | true exactly when this very message was received and confirmed, and that is so exactly when the side was alive, its post succeeded and one of its waits was answered before the attempts were used up or a clock failed; after a failure the flag stays down |
| `SharedMemory.Channel.Receive` | utils/src/TTUtilsSharedMem.cpp:140-180 | true exactly when the oldest message not received so far was taken over whole and confirmed, and that is so exactly when the side was alive, one of its waits was answered and its own post succeeded |
| `SharedMemory.Channel.AwaitConfirmation` | utils/src/TTUtilsSharedMem.cpp:193-213 | the retry loop of `send` succeeds exactly when some attempt finds the semaphore up and the system says so, and no clock failed before |
| `SharedMemory.Channel.AwaitData` | utils/src/TTUtilsSharedMem.cpp:146-166 | the same for the retry loop of `receive` |
| `SharedMemory.SendingExactly` | utils/src/TTUtilsSharedMem.cpp:182-220 | when `send` succeeds and what it leaves behind, for every behaviour of the other process |
| `SharedMemory.ReceivingExactly` | utils/src/TTUtilsSharedMem.cpp:140-180 | the same for `receive` |
| `SharedMemory.SendingIsPlay` | utils/src/TTUtilsSharedMem.cpp:182-220 | every `send` is an interleaving of single steps of both processes, so that the theorems above hold of it |
| `SharedMemory.ReceivingIsPlay` | utils/src/TTUtilsSharedMem.cpp:140-180 | the same for `receive` |
| `ContactsLink.RecordRoundTrip` | contacts/src/TTContactsMessage.hpp:19-37 | decoding the fixed record of a message gives the message back |
| `ContactsLink.NextKeepsInv` | contacts/src/TTContactsHandler.cpp:303-361 | every event of the composed system keeps its invariant: handler operation, queue swap, send step, memory step, display step |
| `ContactsLink.DisplayShowsThePast` | contacts/src/TTContacts.cpp:19-56 | in every reachable state, stopped or not, the display shows the handler's contacts as they were at some earlier point of their history |
| `ContactsLink.DisplayCatchesUp` | contacts/src/TTContactsHandler.cpp:303-347 | with nothing left in flight and no stop the display shows the present contacts |
| `ContactsLink.DisplayNeverGoesBack` | contacts/src/TTContacts.cpp:35-56 | no event moves the display to an earlier point of the history |
| `ContactsLink.SendBatch` | contacts/src/TTContactsHandler.cpp:329-339 | the link takes over the batch up to the first message that finds the handler stopped, the link dead or its own send failing, and the loop is left for no other reason; what is posted is that part, then a goodbye after a stop |
| `ContactsLink.HandleIsTheDisplays` | contacts/src/TTContacts.cpp:35-56 | a step of the display in the composed system is what its own code does with the message, and ends it exactly for a goodbye or an unknown record |
| `LinkProgress.CanCatchUp` | contacts/src/TTContactsHandler.cpp:303-347 | progress: from every state with an idle link and no stop near, the steps of main loop, link and display alone, cell by cell, bring the present contacts onto the display |
| `LinkProgress.SaysGoodbye` | contacts/src/TTContactsHandler.cpp:317-321 | after a stop the goodbye can get across, and ends the display |
| `Discovery.TrialsCountMisses` | engine/src/TTBroadcasterDiscovery.cpp:131-186 | the counter is five minus the misses since the last success, and after exactly five in a row probing has ended for good |
| `Discovery.GreetsAreBounded` | engine/src/TTBroadcasterDiscovery.cpp:92-129 | a static neighbour gets at most three greets, none after a success, and the counter is zero exactly then |
| `DiscoveryBroadcaster.Broadcaster.AddNeighbor` | engine/src/TTBroadcasterDiscovery.cpp:188-230 | both stores, the probing records, the result and whether it stops, in every case: incomplete data, known identity, nickname too long, refusal by either handler, success |
| `DiscoveryBroadcaster.AddingExactly` | engine/src/TTBroadcasterDiscovery.cpp:188-230 | a success creates contact, conversation and probing record together, or activates the known contact; while running it succeeds exactly for complete data of a known identity or with a nickname that fits; it stops the broadcaster only together with a stopped handler, and the stores stay aligned in every case |
| `DiscoveryBroadcaster.Broadcaster.HandleGreet` | engine/src/TTBroadcasterDiscovery.cpp:42-45 | a greeting does all that adding a neighbour does, refusals included |
| `DiscoveryBroadcaster.Broadcaster.HandleHeartbeat` | engine/src/TTBroadcasterDiscovery.cpp:47-60 | activates a known contact and leaves all probing counters alone, also when it is refused, which stops the broadcaster; while running it succeeds exactly for known identities |
| `DiscoveryBroadcaster.Broadcaster.ProbeOne` | engine/src/TTBroadcasterDiscovery.cpp:143-181 | one neighbour is probed exactly when its time has come and trials are left; a positive answer with an identity leaves its contact active and all five trials, any other answer leaves it inactive and one trial fewer, and without a stub only a trial is lost; it is refused exactly when the contact has to change after a stop |
| `DiscoveryBroadcaster.Broadcaster.ProbePass` | engine/src/TTBroadcasterDiscovery.cpp:131-186 | one pass probes every neighbour that is due exactly once, in ascending order, and no other, up to the neighbour before which another thread's stop lands, and every contact and counter becomes what its neighbour's answer means; a probe is refused only when its contact has to change after a stop |
| `DiscoveryBroadcaster.Broadcaster.GreetOne` | engine/src/TTBroadcasterDiscovery.cpp:97-124 | one neighbour is greeted exactly when its time has come and trials are left; while running it is a welcome exactly for a complete, positive answer whose nickname fits or whose identity is known |
| `DiscoveryBroadcaster.Broadcaster.GreetPass` | engine/src/TTBroadcasterDiscovery.cpp:92-129 | one pass gives the neighbours their turns in order, up to the one before which a stop lands, and greets those that are due once, with the engine after every turn; the loop is left exactly when none of them had trials left |
| `Engine.BootstrapInv` | engine/src/TTEngine.cpp:14-21 | after the constructor both stores hold the selected host, whatever the moment of a stop |
| `Engine.StepKeepsInv` | engine/src/TTEngine.cpp:124-146 | every locked region of engine, discovery and broadcaster, in any interleaving, keeps sizes, selections, identities and counters aligned |
| `Engine.StoresAgree` | engine/src/TTBroadcasterDiscovery.cpp:188-230 | while running: the stores differ by one contact only inside `addNeighbor`, creating its conversation succeeds, every other contact but the host is probed, and outside `selection` the mismatch arm of `handleSend` is unreachable |
| `Engine.IdentitiesAreUnique` | engine/src/TTBroadcasterDiscovery.cpp:197-217 | neighbours added through `addNeighbor` have unique identities, so index and list are inverse |
| `Engine.CountersFollowProbes` | engine/src/TTBroadcasterDiscovery.cpp:131-186 | in every run a probing counter is five minus the misses in a row |
| `Engine.StoreFailsOnlyWhenStopped` | engine/src/TTBroadcasterDiscovery.cpp:218-222 | the error arm after `mChat->create` is reached only when a handler has stopped |
| `Engine.StopsItselfExactly` | engine/src/TTEngine.cpp:124-146 | a running engine that nobody stops goes on after any step except exactly four: selecting, or storing a message for, a contact whose conversation does not exist yet; a message from an inactive contact; a greeting of an unknown neighbour whose nickname is too long |
| `Engine.SelectionInTheWindowStops` | engine/src/TTEngine.cpp:133-146 | in every running state, selecting a neighbour between the two writes that create it stops the engine |
| `Engine.MessageInTheWindowStops` | engine/src/TTBroadcasterChat.cpp:161-193 | in every running state, a message of a neighbour arriving between the two writes that create it stops the engine |
| `Engine.InactiveMessageStops` | engine/src/TTBroadcasterChat.cpp:179-183 | so does a message from any neighbour that is marked inactive |
| `Engine.LongNicknameStops` | contacts/src/TTContactsMessage.hpp:22-27 | a greeting with a nickname of 256 or more characters from an unknown neighbour fails the assertion |
| `Engine.WindowExample` | engine/src/TTEngine.cpp:14-21 | a freshly constructed engine is a state in which the window can open |
| `Engine.InactiveMessageExample` | engine/src/TTBroadcasterDiscovery.cpp:169-174 | a run in which a neighbour that missed one probe stops the engine with its next message |
| `Engine.ExhaustedIsNeverProbed` | engine/src/TTBroadcasterDiscovery.cpp:149-149 | once the trials of a neighbour are used up, its counter and probes never change again, over any continuation of any run |
| `Engine.ProbedExactly` | engine/src/TTBroadcasterDiscovery.cpp:149-180 | in every run, a neighbour is probed at its next opportunity if and only if it has missed fewer than five in a row |
| `Engine.ExhaustedYetActiveExactly` | engine/src/TTBroadcasterDiscovery.cpp:47-60 | in every run, a neighbour without trials is active if and only if every time it was marked inactive something has activated it since |
| `Engine.ActiveYetNeverProbed` | engine/src/TTBroadcasterDiscovery.cpp:47-60 | three runs to such a neighbour: after a heartbeat, after a greeting, and with neither when five probes failed for want of a stub |
| `ChatBroadcaster.Broadcaster.HandleSend` | engine/src/TTBroadcasterChat.cpp:66-127 | result and both handlers wherever it gives up; on success the text is queued for the neighbour unless that is the host |
| `ChatBroadcaster.DispatchExactly` | engine/src/TTBroadcasterChat.cpp:66-97 | it succeeds exactly when both handlers have the same contact current, it is selected, its conversation exists and no stop lands before the text is queued; a mismatch changes nothing |
| `ChatBroadcaster.Broadcaster.Serve` | engine/src/TTBroadcasterChat.cpp:31-61 | one neighbour: one request exactly when its time has come, it is active, there is a stub and something is pending; one text is told, several are narrated; cleared only on an acknowledgement |
| `ChatBroadcaster.Broadcaster.Pass` | engine/src/TTBroadcasterChat.cpp:23-64 | one pass gives the neighbours their turns in ascending order, up to the one before which the stop lands, while other threads change the contacts between the turns |
| `ChatBroadcaster.OneTurnEach` | engine/src/TTBroadcasterChat.cpp:31-61 | in a pass the record of a neighbour is changed by its own turn only, on the contacts as they are then, and by nothing when the stop lands before it |
| `ChatBroadcaster.Broadcaster.HandleReceive` | engine/src/TTBroadcasterChat.cpp:161-193 | result, stop and both handlers in every case: unknown identity, own address, refusal by either handler, also after part of the batch is stored |
| `ChatBroadcaster.TakeInExactly` | engine/src/TTBroadcasterChat.cpp:161-193 | an unknown sender is only refused; a known one under another address is accepted exactly when its contact is active and no stop lands before the last text is stored and queued, and stops the broadcaster otherwise; one known under the own address is accepted |
| `ChatBroadcaster.PassKeepsInv` | engine/src/TTBroadcasterChat.cpp:23-64 | a pass keeps the accounts of all neighbours, accepts nothing and forgets nobody, wherever the stop lands |
| `ChatBroadcaster.NothingIsLost` | engine/src/TTBroadcasterChat.cpp:23-64 | for every run and every pattern of failures: acknowledged batches followed by the pending texts are all texts accepted for the neighbour, in order |
| `ChatBroadcaster.AttemptsCarryTheRest` | engine/src/TTBroadcasterChat.cpp:50-60 | every attempt carries exactly the texts accepted and not yet acknowledged |
| `ChatBroadcaster.AcceptedIsStored` | engine/src/TTBroadcasterChat.cpp:161-193 | an accepted batch ends up whole and in order in the conversation with the sender if and only if the receiver does not know the sender under its own address |
| `ChatBroadcaster.DeliveredAtLeastOnce` | engine/src/TTNeighborsServiceChat.cpp:28-66 | end to end, over any losses and any peers that follow the rely: the acknowledged texts are found, in order, among the texts stored in the peer's conversation with this engine, and acknowledged and pending texts are all texts accepted |
| `Peers.StepFollows` | engine/src/TTEngine.cpp:124-146 | every step of an engine, a stop included, follows that rely, unless it is a greeting that claims the sender's identity for the engine's own address |
| `Peers.AcceptedBySteps` | engine/src/TTBroadcasterChat.cpp:161-193 | a batch that is accepted leaves the engine exactly as its own steps for it do |
| `Peers.EnginesDeliver` | engine/src/TTNeighborsServiceChat.cpp:28-66 | the same end to end statement for real engines as peers, over every run of their own steps between the deliveries, from their constructors on |
| `SentMail.SentIsHandedOver` | engine/src/TTBroadcasterChat.cpp:66-127 | in every run, while the chat handler runs: the texts a conversation with somebody else shows as sent are exactly those handed over for that neighbour, in order, and so exactly the acknowledged ones followed by the pending ones |
| `SentMail.AtMostOneIsLost` | engine/src/TTBroadcasterChat.cpp:93-97 | stopped or not, both differ by the lost texts only, and a run loses at most one |
| `SentMail.LosesExactly` | chat/src/TTChatHandler.cpp:59-62 | a step loses a text exactly when `send` finds the stop flag lowered at its beginning and raised at its enqueue |
| `SentMail.LostText` | chat/src/TTChatHandler.cpp:59-62 | a run that ends with a text shown as sent and never handed over |
| `SentMail.ThreeStepsAreHandleSend` | engine/src/TTBroadcasterChat.cpp:66-127 | left alone, the steps of the runs above are `handleSend` as the class has it |
| `WholeSystem.NextKeepsInv` | engine/src/TTEngine.cpp:124-146 | every step of the engine, of either main loop, of the link and of either display keeps the invariants of all parts together |
| `WholeSystem.SelectionUninterrupted` | engine/src/TTEngine.cpp:133-146 | left alone, the interleaved `selection` is the engine's own step |
| `WholeSystem.DisplaysAgree` | engine/src/TTEngine.cpp:133-146 | in every reachable state of a running engine, outside of `selection`, when both displays have consumed what is in flight: the contacts list is the present one, it shows exactly one contact as selected, and the chat screen is the conversation with that contact |
| `WholeSystem.DisplaysCanAgree` | chat/src/TTChatHandler.cpp:264-305 | and such states are reached: with an idle link and no stop near, the two pipelines alone lead there, with the stores as they were |
| `ChatBroadcaster.BatchIsStored` | engine/src/TTBroadcasterChat.cpp:184-190 | an accepted batch is appended whole and in order to that contact's conversation and to no other |
| `TextBox.Box.Send` | textbox/src/TTTextBox.cpp:140-157 | the splitting loop queues exactly the pieces of the text |
| `TextBox.TextPiecesHoldTheText` | textbox/src/TTTextBox.cpp:140-157 | the pieces concatenate to the text and each has 1 to 2048 characters |
| `TextBox.Box.ExecuteCommand` | textbox/src/TTTextBox.cpp:79-138 | verdict, queued message and quit of every command, all refusals included |
| `TextBox.ParseExactly` | textbox/src/TTTextBox.cpp:59-138 | an empty line is refused, `help`, `quit` and a selection with one numeral of at most four digits are the only commands, only `quit` quits, and any other line is sent as it is |
| `TextBox.Box.Arguments` | textbox/src/TTTextBox.cpp:66-73 | the `getline` loop: a final delimiter opens no further argument |
| `TextBox.Box.ParseLine` | textbox/src/TTTextBox.cpp:59-77 | what one typed line does to queue, stop flag and result |
| `TextBox.ParsableExactly` | textbox/src/TTTextBox.cpp:108-113 | the missing second argument of `select` is read for exactly two lines, `#select` with and without one trailing space |
| `TextBox.SelectNumeral` | textbox/src/TTTextBox.cpp:108-133 | `#select` with any numeral of one to four digits calls back with its value |
| `TextBox.BytesRoundTrip` | textbox/src/TTTextBoxHandler.cpp:55-56 | an id survives being copied into and out of the message bytes |
| `TextBox.Box.Round` | textbox/src/TTTextBox.cpp:162-198 | one round of the loop writes as much of the queue, or of a heartbeat, as the stop flag and the pipe allow, in order; it is the last one exactly when that is not all, and then a goodbye follows |
| `TextBox.CallbacksFollowTheLines` | textbox/src/TTTextBoxHandler.cpp:39-75 | in every run the callbacks, selections and messages in their order, are a prefix of those the typed lines call for, and all of them once everything was read and nothing was cut off |
| `TextBox.CallbacksSayWhatWasTyped` | textbox/src/TTTextBoxHandler.cpp:39-75 | in particular the message callbacks concatenate to a prefix of the text typed |
| `TextBox.LoopEndsExactly` | textbox/src/TTTextBoxHandler.cpp:39-75 | in every run the receive loop is over, unless stopped, exactly when a goodbye, an undefined message or three failures in a row were received, and never receives again |
| `TextBox.HandlerLoop` | textbox/src/TTTextBoxHandler.cpp:33-83 | the counted loop that resets its own counter goes through exactly the first outcomes that are a reason to end, and makes one callback per message |

## Left out

- gRPC, protobuf, the server and the stubs: a request is an outcome chosen freely; a broken narrate stream is modelled as the arrival of a prefix of its messages. Two identities with the same hash in one stream are not modelled.
- Creation and teardown of POSIX objects, signals and files: only semaphore counters, FIFO queues and failing calls remain; a pipe message is read whole or not at all, and a chat queue message is never duplicated or reordered.
- Real time, timers, sleeps and random intervals: `expired()` is a free boolean, and no claim is made about durations.
- Threads, condition variables, promises and destructors: replaced by atomic steps over the regions under a mutex.
- Settings, argument parsing, logging, tracing, escape codes, time stamp formatting, the help text and the refresh of the contacts terminal: input and output without state.
- The floating-point side ratio: `mSideWidth` is any value from 1 to `mWidth`; what 0 does is stated by `Layout.WrapHaltsIff`.
- `TTChatMessage` is a value whose payload is at most 2048 characters; its in-place setters and the bytes beyond its length are not modelled.
- Lines for which `execute` reads a missing argument have no defined effect; runs of the text box contain none of them.
- Engine.RunKeepsInv: runs start from a host whose own nickname fits a message; with a longer one the constructor fails the same assertion and there is no engine.
- DeliveredAtLeastOnce: a peer that takes the sender's identity for its own address is excluded by its rely; `Peers.StepFollows` names the one step that would do so, and `ChatBroadcaster.AcceptedIsStored` says what happens then.
- EnginesDeliver: what a peer does to receive one batch is not interleaved with other steps of that peer.
- Two threads of one broadcaster at work at once: other threads act between the turns of a pass on the contacts and on the stop flag, in the discovery loops on the stop flag only; their effect on the stores is part of the runs of `Engine`.
- Callbacks that arrive while the engine's constructor is still at work: construction is one step.
- A stop inside a component of the engine stops both handlers at once; the order in which the source shuts its components down is not modelled.
- The heartbeat queues by which the display processes report back to their handlers, and the forced shutdown they lead to, appear only as a stop at any moment.
- `ContactsLink`: the length and size limits of `size_t` are not modelled, identities and lengths are unbounded integers in one cell each.
- Duplicate suppression at the receiving peer: the code has none, so delivery is at least once.
- A single store and the single enqueue that follows it are one step of `ChatPipeline`, as nothing but the storage's owner can tell them apart; the replay of `select` is one step for each entry.
