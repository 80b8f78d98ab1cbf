# Epicenter: verified models of its stateful core

A Dafny model of the parts of the repository that hold real state or a real algorithm, with proofs about
every run, every input or every reachable state. `dafny verify dfyconfig.toml` checks it all.

- **The Query session.** One host owns a conversation, an approval gate and a log of direct tool
  invocations, and pushes whole snapshots to its subscribers. `Session` is its state machine: one event is
  a client command, a chunk or the end of the model's stream, one suspended call moving on, disposal, or a
  millisecond passing. `ToolGate`, `InvocationLog` and `Transcript` are its parts; `QueryHost` is the host
  object with its loops and in-place updates, each method proved to take the state machine's step. Nine
  modules prove what every run keeps and does: `SessionConsent` (what never runs), `SessionCalls` (what becomes
  of a call), `SessionInvocations` (the log), `SessionTranscript` and `PromptReading` (what the model provider is
  sent), `SessionReplies` (text, stream and outcomes in a turn), `SessionTurns` (what ending a turn leaves),
  `SessionNotify` (who is told what), `SessionLibrary` (rows, stores, restart).
- **Its transports.** `RelayClients` (the string-keyed client map), `Mirror` (host, sockets, queues and
  clients together), `MirrorEvents` (what of a history reaches the host) and `RelayTransport` (the two relay
  ends as objects).
- **The sync gate** (`SyncGate`): the promise chain over a queue of promise jobs (section 27.2 of ECMA-262).
- **License reachability** (`LicenseGraph`): the depth-first search with its seen set and path witnesses.
- **The parent pipe** (`Utf8`, `MalformedUtf8`, `ParentPipe`): the streaming line reader over a streaming
  UTF-8 decoder (section 8.1.1 of the WHATWG Encoding Standard).
- **Asset paths** (`PercentCoding`, `StaticPaths`, `AssetRequests`, `Paths`): the bounded percent-decoding
  loop (section 2.1 of RFC 3986), dot segments (section 5.2.4) and the two containment tests.
- **The local-books arguments** (`Cli`), **the redirect reconciler** (`JsonTrees`, `Redirects`,
  `RedirectAnswers`), **the spec ledger** (`SpecHistory`, `SpecReading`) and **the bootstrap rewrite** (`Bootstrap`).

Assumed about code and services outside the model: a relay delivers each endpoint's frames in order; the
Yjs table and message stores keep what is written to them and notify at once; message times never run
backwards and messages of one millisecond are listed as stored, so that the transcript the loop sorts by
time (`packages/workspace/src/agent/loop.ts:157`) is in the order of writing; a catalog answers with an
outcome, never by rejecting, in a chat turn; a promise runs its reactions in the order they were
registered; ids are new; the clock is a count of milliseconds that never runs backwards.

## Where the code does less than it says

Each of these is proved, with an input it fails on and the exact condition under which it holds.

- The host's `subscribe` promises a call on any conversation or approval change
  (`apps/epicenter/src/host.ts:201`). When a step's stream ends with a tool request that raises no prompt,
  `packages/workspace/src/agent/loop.ts:332` moves the message from streaming to settled and nobody is
  told, so every client shows an outdated snapshot until something else changes
  (`SessionNotify.StaleAfterQueryRequest`, `SessionNotify.ChangesAreTold`, `Mirror.PeersMirrorTheHost`).
- Boot resumes the conversation of the last send only if that send had its millisecond to itself; two sends
  around a clear within one millisecond leave it to the table's listing order
  (`SessionLibrary.ClearedWithinAMillisecond`, `SessionLibrary.BootResumesLastSend`).
- The relay's client map tells endpoints apart exactly when no two of them share a space-joined key; ids
  with spaces can (`RelayClients.SpacedKeysCollide`, `RelayClients.RefinesIffKeysTellApart`).
- A clean asset name comes back from any number of encodings up to seven, and from no more
  (`StaticPaths.EightLayersAreRefused`, `StaticPaths.EncodedNamesComeBack`).
- The license pattern's dot is no escape: it takes `Apache-2x0` for `Apache-2.0` (`LicenseGraph.CompatibleIff`).
- The `startsWith(uiDist + sep)` test refuses everything below a root `uiDist`
  (`Paths.RootRefusesItsFiles`, `Paths.PrefixTestIffPrefix`, `Paths.TestsAgree`).
- From a value on its left, `deepEqual` decides equality of meaning exactly when no object inside that value
  holds what a missing key reads as: `undefined`, or an empty object under `__proto__`
  (`JsonTrees.UndefinedHidesAKey`, `JsonTrees.ProtoHidesAKey`, `JsonTrees.DeepEqualIffSameMeaning`). A
  server's rule with such a member is left alone although it lacks another (`Redirects.HidingRuleIsLeftAlone`).
- Reconciling redirects again is idle, for a zone of rules that hide nothing, exactly when redirects that
  share a `ref` make one rule; for any zone the exact condition is `Redirects.Settles`
  (`Redirects.HomeAndElsewhereClash`, `Redirects.RerunsAreIdleIff`).
- The bootstrap rewrite can be undone at its two places, but from its result alone exactly when the page
  held no gated closing marker (`Bootstrap.TwoPagesOneResult`, `Bootstrap.ResultTellsPageIff`).

## Model

| member | source | states |
|---|---|---|
| SessionConsent.MutationsRunWithConsent | packages/workspace/src/agent/tools.ts:58-98 | Over every run, a call reaches its tool at most once, and only if the tool is listed and the call is a query, or its own prompt was approved, or the tool was granted for the session; a call with a denied prompt never runs |
| SessionConsent.PromptsAreConserved | apps/epicenter/src/host.ts:471-538 | Over every run, the prompts requested are the disjoint union of pending and resolved ones, none resolved twice; a tool is granted exactly when some resolution approved its prompt with always-allow |
| SessionConsent.CancelIsFinal | apps/epicenter/src/host.ts:407-448 | A stop, clear or disposal leaves no prompt pending; none of those calls ever runs, nor any chat call that had not started, even with its approval already given |
| SessionConsent.DoomedForever | packages/workspace/src/agent/tools.ts:86-95 | A call whose signal was aborted before it ran stays so over every later run and never runs |
| SessionConsent.DeniedNeverRuns | apps/epicenter/src/host.ts:511-536 | A prompt once denied, with or without always-allow, keeps its call from running whatever follows |
| SessionConsent.StepGate | apps/epicenter/src/host.ts:400-448 | Every event of the session acts on the gate only through the gate's own operations |
| SessionCalls.AnswersAreObeyed | packages/workspace/src/agent/tools.ts:85-97 | In every reachable state: answer a pending prompt, let anything happen before its call is woken, wake it; if the turn was stopped or cleared (for a chat call) or the host disposed in between, the call is settled as stopped, otherwise an approved call has just reached its tool and a denied one is settled as denied; nothing else changes at the gate |
| SessionCalls.CancelsAreObeyed | apps/epicenter/src/host.ts:407-448 | A prompt pending at a stop, clear or disposal ends its call when next woken: as stopped for a chat call or after disposal, as denied for a direct call of a standing host |
| SessionCalls.InvocationBegins | packages/workspace/src/agent/tools.ts:58-90 | Over every run, invoking a tool refuses an unlisted one, runs at once, without a prompt, a query or a tool some answer always-allowed, and otherwise raises exactly one new prompt that describes the call; subscribers hear once of the record and once of the prompt |
| SessionCalls.AnswersTakeOne | apps/epicenter/src/host.ts:511-529 | Over every run, an answer resolves the prompt it names and no other, tells its call the verdict and grants its tool exactly on an approval for always; an answer to anything else does nothing |
| SessionCalls.CancelDeniesInOrder | apps/epicenter/src/host.ts:530-536 | Cancelling denies every pending prompt in order and touches nothing but the calls they suspend |
| ToolGate.ApplyAllInv | apps/epicenter/src/host.ts:471-538 | Any sequence of starts, answers, cancellations, wake-ups and settlements keeps the gate's invariant: pending entries are exactly the waiting calls, verdicts told are verdicts given, grants have a resolution behind them, what ran had consent |
| ToolGate.ApplyAllExtends | apps/epicenter/src/host.ts:511-537 | No prompt, resolution or execution is ever taken back |
| ToolGate.StartInv | packages/workspace/src/agent/tools.ts:58-90 | Starting a call keeps the whole gate invariant |
| ToolGate.ResolveInv | apps/epicenter/src/host.ts:520-528 | Resolving one pending prompt, either way, keeps the whole gate invariant |
| ToolGate.CancelAllInv | apps/epicenter/src/host.ts:530-536 | Cancelling every prompt keeps the invariant and leaves none pending |
| ToolGate.ResumeInv | packages/workspace/src/agent/tools.ts:86-97 | A woken call runs exactly when its prompt was approved and its signal is clear, and the whole gate invariant stays |
| ToolGate.RunsOnlyAwake | packages/workspace/src/agent/tools.ts:86-97 | A waiting call can start only by being woken with a clear signal |
| InvocationLog.EvictIsDropSettled | apps/epicenter/src/host.ts:351-361 | The eviction loop removes exactly the oldest settled records, as many as the cap asks and there are, and no running one |
| InvocationLog.DropSettledCounts | apps/epicenter/src/host.ts:355-361 | Dropping the k oldest settled records takes k records, all settled |
| InvocationLog.PushBound | apps/epicenter/src/host.ts:350-361 | After every push the log has at most 20 records or only running ones |
| InvocationLog.PushKeeps | apps/epicenter/src/host.ts:343-361 | A push keeps every running record and push order, and shows the new record |
| InvocationLog.SettleIsUpdate | apps/epicenter/src/host.ts:375-379 | Settling rewrites status and content of the one record of that id, in place |
| InvocationLog.SettleKeepsIds | apps/epicenter/src/host.ts:375-379 | Settling keeps the records, their ids and their order |
| SessionInvocations.RecordsMirrorTheirCalls | apps/epicenter/src/host.ts:343-381 | Over every run, each record in the log belongs to one call and shows running until that call's outcome is delivered, then exactly that outcome; no running record is ever missing |
| SessionInvocations.SettledForever | apps/epicenter/src/host.ts:351-379 | A settled record still in the log later is unchanged: it settles once and never returns to running |
| SessionInvocations.SettlementIsHeard | apps/epicenter/src/host.ts:351-380 | In every reachable state the notification of a settlement shows the record with its outcome: a settling record is observable at least once |
| Transcript.CompleteFreezesInterleaved | packages/workspace/src/agent/message.ts:92-134 | In the frozen prompt of a transcript whose calls are all answered, each assistant turn is followed at once by one tool turn per call, in order, and tool turns stand nowhere else (what the turns hold is `PromptReading.FrozenReadsBack`) |
| PromptReading.FrozenReadsBack | packages/workspace/src/agent/message.ts:92-134 | Reading a frozen prompt back gives the conversation, for every transcript: each non-empty user text, each reply with its text and calls and the id, tool and content of every result, in order, and nothing besides |
| PromptReading.FreezeSplit | packages/workspace/src/agent/message.ts:96-133 | Freezing goes message by message: the prompt of a longer transcript continues the shorter one |
| PromptReading.PartsAdd | packages/workspace/src/agent/message.ts:66-73 | The text, calls and results of a message are read off part by part, in order |
| PromptReading.AppendTextAdds | packages/workspace/src/agent/loop.ts:397-403 | A delta adds exactly its text to the prose of a message, in the trailing text part if there is one |
| PromptReading.KeptIff | packages/workspace/src/agent/message.ts:79-86 | A message is worth keeping exactly when it has prose, a call or a result |
| Transcript.KeptAreComplete | packages/workspace/src/agent/message.ts:79-86 | Dropping what is not worth persisting leaves complete rounds complete |
| SessionTranscript.PromptsAreInterleaved | packages/workspace/src/agent/loop.ts:270-361 | Over every run of commands, aborts and tool outcomes, the stored transcript and every history a model call is given freeze into such prompts, and a turn waiting on a tool is owed that call's outcome |
| SessionTranscript.InvocationsStayOutOfChat | apps/epicenter/src/host.ts:337-381 | Direct invocations never touch the conversation, at start or at settlement |
| SessionNotify.ChangesAreTold | apps/epicenter/src/host.ts:201-202 | After every event that changes the snapshot the last notification carried the current one, except exactly after a quiet step end, which changes it unheard |
| SessionNotify.StaleAfterQueryRequest | packages/workspace/src/agent/loop.ts:325-343 | A three-event run whose last pushed snapshot is not the current one |
| SessionTurns.StoppedTurnStoresNothing | packages/workspace/src/agent/loop.ts:346-361 | Over every run, from the stop of a turn up to the event that ends it, its conversation stores nothing more |
| SessionTurns.FinishKeepsWhatWasShown | packages/workspace/src/agent/loop.ts:175-180 | A turn that ends cleanly leaves stored and shown exactly what was shown just before, the streaming message included; a stopped or failed one leaves only what was stored before it |
| SessionReplies.SendAsksTheModel | packages/workspace/src/agent/loop.ts:369-381 | A send to an idle conversation stores the trimmed text and asks the model at once with the stored conversation, a prompt ending in exactly that text; a blank text, or one during a turn, does nothing |
| SessionReplies.RetryAsksTheModel | packages/workspace/src/agent/loop.ts:385-388 | A retry of an idle conversation asks the model at once with the stored conversation; during a turn it does nothing |
| SessionReplies.StreamAddsUp | packages/workspace/src/agent/loop.ts:216-262 | After any chunks the message being filled holds what it had, followed by all deltas and all requests in order, the last error is remembered, and nothing else of the conversation changed |
| SessionReplies.StreamEnds | packages/workspace/src/agent/loop.ts:325-361 | Over every run, the end of a live stream ends the turn with the error thrown or last reported and nothing kept, or, with no call asked for, with everything kept, or begins the first call asked for and waits for it |
| SessionReplies.StoppedStreamEnds | packages/workspace/src/agent/loop.ts:332-361 | The stream of a stopped turn ends it with nothing kept and no call begun |
| SessionReplies.OutcomesReturn | packages/workspace/src/agent/loop.ts:270-361 | Over every run, the outcome a turn waits for becomes the answer to exactly the next call its message owes one; then the call after it begins, or the model is asked again, or, after fifty steps, the turn ends with an error; a stopped turn ends, and an outcome nobody waits for is dropped |
| SessionReplies.OutcomeReachesTheModel | packages/workspace/src/agent/loop.ts:312-326 | When that asks the model again, the prompt ends in the outcome |
| SessionReplies.ToolsSettle | packages/workspace/src/agent/tools.ts:97 | A call in progress takes the outcome its tool comes back with; any other stays as it is |
| SessionReplies.ViewTells | packages/workspace/src/agent/loop.ts:174-210 | A view shows what is stored followed by what of the turn is worth keeping, says whether a turn runs, thinks exactly while nothing of it is, and streams exactly a last message worth keeping |
| SessionReplies.StopMarksClearEmpties | apps/epicenter/src/host.ts:407-428 | A stop marks the turn and leaves the rest of the conversation; a clear leaves an empty one of a new id; both leave the log, and subscribers hear once if a prompt was pending and once more of a clear |
| Strings.TrimStrips | packages/workspace/src/agent/loop.ts:370 | Trimming takes away the blanks at both ends and nothing else |
| SessionLibrary.BootResumesLastSend | apps/epicenter/src/host.ts:276-335 | After every run of a booted host with a started send, the next host resumes the last send's conversation with its whole stored transcript, for every listing order, if and only if no other conversation was sent to, and no other row found at boot was dated, in that send's millisecond |
| SessionLibrary.TickingSendsResume | apps/epicenter/src/host.ts:276-335 | If every started send has a tick between it and the send before, or the start, the last one is always resumed |
| SessionLibrary.ClearedWithinAMillisecond | apps/epicenter/src/host.ts:402-428 | Two sends around a clear with no tick: the next host may resume the cleared conversation |
| SessionLibrary.RowsFoundOrSent | apps/epicenter/src/host.ts:308-335 | After any run the rows are exactly those found at boot and those of conversations sent to |
| SessionLibrary.TitledByFirstRealSend | apps/epicenter/src/host.ts:308-335 | A conversation's row is dated by its first started send and named by the first of its sends that does not spell 'New Chat'; the first name stays exactly if it is not the placeholder or no later send spells another |
| SessionLibrary.TieResumesEither | apps/epicenter/src/host.ts:279-284 | With a tie for the latest row some listing makes boot resume another conversation |
| SessionLibrary.RestartReplays | apps/epicenter/src/host.ts:276-305 | A restart from any state resumes a most recent row with exactly its stored transcript, or a new conversation when there is no row, and carries over no turn, prompt, grant or invocation |
| SessionLibrary.SentIsStored | packages/workspace/src/agent/loop.ts:369-381 | A started send's message stays in its stored transcript whatever follows |
| SessionLibrary.RunKeepsDisk | apps/epicenter/src/host.ts:414-428 | Over every run no stored message is lost or changed |
| SessionLibrary.StoresAreAccountedFor | apps/epicenter/src/host.ts:298-306 | After n clears, disposed or not, n+1 stores were opened and at no moment were two open or two subscriptions live; one subscription is live; replaced stores were disposed once, in order, and after disposal so was every store opened; what disposal awaits is each of them once |
| QueryHostObject.QueryHost.constructor | apps/epicenter/src/host.ts:276-306 | The boot scan over listed rows gives the state machine's boot state |
| QueryHostObject.QueryHost.CancelEveryPrompt | apps/epicenter/src/host.ts:530-536 | Clears the map, denies each entry in order and notifies once, or does nothing when empty |
| QueryHostObject.QueryHost.AnswerPrompt | apps/epicenter/src/host.ts:511-529 | Takes the session's approve step, and reports whether the prompt was pending |
| QueryHostObject.QueryHost.StartCall | packages/workspace/src/agent/tools.ts:58-98 | Starts a call up to its first suspension: refused, running, or waiting on a new prompt with a notification |
| QueryHostObject.QueryHost.RunInvocation | apps/epicenter/src/host.ts:343-381 | Push, eviction by splicing, notification and start of the call together are the session's invoke step |
| QueryHostObject.QueryHost.SettleInvocation | apps/epicenter/src/host.ts:375-380 | The in-place status update and its notification are the session's delivery step |
| QueryHostObject.QueryHost.TouchConversationRow | apps/epicenter/src/host.ts:313-335 | Mints or bumps the active row, keeps its birth and any name but the placeholder, and leaves every other row alone |
| QueryHostObject.QueryHost.ClearConversation | apps/epicenter/src/host.ts:414-428 | Unbinding, parking, disposing, cancelling, opening and binding, one by one, are together the session's clear step |
| QueryHostObject.QueryHost.SendToConversation | apps/epicenter/src/host.ts:402-406 | A send starts a turn exactly when the trimmed text is not empty and no turn runs: the message is stored, the row exists, subscribers are told, gate and log stay; otherwise nothing changes |
| QueryHostObject.QueryHost.HandleCommand | apps/epicenter/src/host.ts:400-442 | Every command takes the state machine's step, with the exact acceptance answer |
| QueryHostObject.QueryHost.DisposeAsync | apps/epicenter/src/host.ts:443-461 | Disposal takes the session's dispose step; it awaits exactly the stores ever opened, once each, and each was then disposed once |
| RelayClients.RefinesIffKeysTellApart | apps/epicenter/src/attach-relay-host.ts:103-127 | Over every trace of attach, detach and close frames the keyed map is the set of attached endpoints, if and only if no two endpoints share a key |
| RelayClients.SpacelessKeysTellApart | apps/epicenter/src/attach-relay-host.ts:108-109 | Device ids without spaces never share a key |
| RelayClients.SpacedKeysCollide | apps/epicenter/src/attach-relay-host.ts:108-109 | Two endpoints with spaces in their ids that share a key, and attaching both loses one |
| RelayClients.SharedKeyLosesOne | apps/epicenter/src/attach-relay-host.ts:155-164 | Attaching two endpoints of one key loses one |
| RelayClients.KeysKeepTheirOrder | apps/epicenter/src/attach-relay-host.ts:103-165 | The client map keeps its keys in the order they came: a known one keeps its place, a new one goes last, the rest close up behind a deleted one |
| Mirror.PeersMirrorTheHost | apps/epicenter/src/attach-relay-host.ts:130-169 | Over every interleaving, the last frame sent to a live peer is the host's current snapshot if and only if no quiet step end happened since; a client that has read its queue holds that frame |
| Mirror.StalenessIsQuiet | apps/epicenter/src/host.ts:268-270 | A peer becomes outdated only by a quiet step end |
| Mirror.NoticeHealsAll | apps/epicenter/src/host.ts:268-270 | The next notification brings every peer up to date |
| Mirror.FramesGoToAttached | apps/epicenter/src/attach-relay-host.ts:101-166 | Over every history and whatever the keys, a frame sent to a remote endpoint goes to one attached, and not since detached, before or after the step that sends it |
| Mirror.LiveIffAttached | apps/epicenter/src/attach-relay-host.ts:101-172 | Over every history, while no two endpoints share a key, notifications reach a remote endpoint exactly if it is attached, the socket is open and the transport was not closed |
| Mirror.ClientsAreTraced | apps/epicenter/src/attach-relay-host.ts:107-179 | Over every history the client map is the trace of the attach, detach and close frames handled |
| Mirror.FramesGoToLivePeers | apps/epicenter/src/attach-relay-host.ts:111-136 | Frames are only appended, and each goes to a peer of the client map, or a stream, before or after the step |
| Mirror.SilentAfterClose | apps/epicenter/src/attach-relay-host.ts:176-180 | After `close()` no remote endpoint is ever sent a frame again |
| MirrorEvents.SessionIsTheRun | apps/epicenter/src/attach-relay-host.ts:140-169 | Over every history, the session is the run of exactly the internal events, the well-formed commands received over the open relay socket and those of open streams, in order, each once; which sockets are open is read off the history alone |
| MirrorEvents.ReachedIff | apps/epicenter/src/attach-relay-host.ts:101-180 | Over every history, notifications reach exactly the open streams and, while no two endpoints share a key, the attached endpoints of a relay socket that opened and that neither end began to close |
| MirrorEvents.AnsweredAtOnce | apps/epicenter/src/server.ts:165-174 | An endpoint that attaches, a stream that opens and a stream that sends a command are sent the current snapshot at once |
| RelayTransport.AttachRelayHost.OnHostChange | apps/epicenter/src/attach-relay-host.ts:130-135 | One frame to each attached client in map order, or none when the socket is not open |
| RelayTransport.AttachRelayHost.HearSince | apps/epicenter/src/attach-relay-host.ts:130-135 | The subscription's calls during one event of the session take the transport where `Mirror` drives that event |
| RelayTransport.AttachRelayHost.OnOpen | apps/epicenter/src/attach-relay-host.ts:149 | Takes the step of `Mirror` in which the socket opens |
| RelayTransport.AttachRelayHost.OnClosing | apps/epicenter/src/attach-relay-host.ts:112 | A socket that starts to close takes the step of `Mirror` after which nothing is sent, the map still standing |
| RelayTransport.AttachRelayHost.OnPresence | apps/epicenter/src/attach-relay-host.ts:154-166 | An attach or detach frame takes the step of `Mirror`: the map follows and an attach is answered with the host's snapshot |
| RelayTransport.AttachRelayHost.OnCommand | apps/epicenter/src/attach-relay-host.ts:142-168 | A command payload is applied to the host object while it is not disposed, which then stands where the session's command step takes it, and the frames its notifications send take the step of `Mirror`; a malformed one does nothing |
| RelayTransport.AttachRelayHost.OnClose | apps/epicenter/src/attach-relay-host.ts:170-172 | Takes the step of `Mirror` in which the socket has closed, keeping every frame sent before |
| RelayTransport.AttachRelayHost.Close | apps/epicenter/src/attach-relay-host.ts:176-180 | Takes the closing step of `Mirror`, after which no remote frame is sent (`Mirror.SilentAfterClose`) |
| RelayTransport.AttachRelayClient.Deliver | apps/epicenter/src/attach-relay-client.ts:83-94 | Delivering the next frame of its queue keeps the client at the latest frame `Mirror` says it has read and shows it to each listener once; anything else drops |
| SyncGate.OneAtATimeInOrder | apps/local-books/src/app.ts:79-86 | Over every interleaving of calls, jobs and completions at most one function is in progress, functions start in call order, and a caller is told exactly its own function's verdict |
| SyncGate.FiveTicksSettle | apps/local-books/src/app.ts:79-86 | If no function throws at once, from any reachable state five jobs drain the queue, leaving at most the first unfinished function in progress |
| SyncGate.FourJobsACallSettle | apps/local-books/src/app.ts:79-86 | Whatever the functions throw when called, four jobs a call drain the queue from any reachable state |
| SyncGate.SettledPassLetsNextIn | apps/local-books/src/app.ts:79-86 | A pass that settles, rejected or not, tells its caller and lets the next one start within four jobs, whatever functions throw at once; a next one that does has told its caller |
| SyncGate.Gate.Enter | apps/local-books/src/app.ts:81-85 | One call chains on the tail and becomes the new one |
| LicenseGraph.Reaches | scripts/check-license-graph.ts:31-44 | For every graph, cyclic or not, a hit is returned if and only if some AGPL workspace package is reachable; its path is a real chain of dependencies without repetition; the search ends |
| LicenseGraph.CheckLicenses | scripts/check-license-graph.ts:46-54 | The violations are exactly the MIT-compatible packages that reach an AGPL one, once each and in order, each with its chain; so there is none if and only if no such package exists |
| LicenseGraph.ExploredMeansUnreachable | scripts/check-license-graph.ts:31-44 | When the stack is empty the explored set is closed, so no chain leads to an AGPL package |
| LicenseGraph.IsAgplIff | scripts/check-license-graph.ts:16 | A license is AGPL exactly when those four letters, each in either case, stand together in it |
| LicenseGraph.CompatibleIff | scripts/check-license-graph.ts:14-15 | The pattern admits six licenses by name and Apache 2.0 with any character but a line end for its dot, and nothing it admits is AGPL |
| Utf8.DecodeOneInverts | apps/epicenter/src/sidecar-runtime.ts:145 | Strict decoding of a sequence and encoding of a character are exact inverses |
| Utf8.FeedConcat | apps/epicenter/src/sidecar-runtime.ts:155 | Decoding chunk after chunk is decoding the whole, malformed bytes included |
| Utf8.FeedEncodedAll | apps/epicenter/src/sidecar-runtime.ts:155 | The streaming decoder reads back every encoded text |
| Utf8.FeedNewline | apps/epicenter/src/sidecar-runtime.ts:158 | A line feed comes out of a stretch of bytes exactly when byte 0x0A is among them, malformed bytes included |
| MalformedUtf8.MalformedIsReplaced | apps/epicenter/src/sidecar-runtime.ts:145-155 | The decoder on all input: a whole character is read as itself; an unfinished one at the end waits; cut short by a byte it cannot go on with it is one replacement character, however long, and reading goes on at that byte; so is a byte that begins no character |
| ParentPipe.WatchParentPipe | apps/epicenter/src/sidecar-runtime.ts:141-184 | For every stream, every cutting and every ending, the boot promise is settled as reading the whole stream at once would settle it, at most once (what that makes of a line is `ParentPipe.LinesArrive`) |
| ParentPipe.ResolvesIffNewlineByte | apps/epicenter/src/sidecar-runtime.ts:158-163 | The boot line resolves if and only if the stream holds byte 0x0A, even in malformed UTF-8 |
| ParentPipe.LinesArrive | apps/epicenter/src/sidecar-runtime.ts:158-163 | A line written with any number of byte-order marks before it and of carriage returns before its line feed, then anything, arrives with one fewer of each: a line without any as it is, whichever line end it has, and second ones stay |
| PercentCoding.DecodeUndoesEncode | apps/epicenter/src/static-assets.ts:98-103 | Percent-decoding undoes one layer of encoding of any text |
| PercentCoding.DecodeShrinks | apps/epicenter/src/static-assets.ts:98-106 | A decode that changes the text shortens it, and only texts without a percent sign stay |
| PercentCoding.DecodesIffSpelled | apps/epicenter/src/static-assets.ts:98-103 | A text decodes exactly to what it spells: characters other than the percent sign as themselves and UTF-8 bytes in hexadecimal digits of either case; anything else throws |
| StaticPaths.WhisperingRelativePath | apps/epicenter/src/static-assets.ts:88-124 | The decode loop and the segment checks compute the specification function |
| StaticPaths.AcceptedStaysInside | apps/epicenter/src/static-assets.ts:57-124 | An accepted path is a fixpoint of decoding with no percent sign, backslash, NUL or climbing segment, and resolves to the root's segments followed by its own |
| AssetRequests.AcceptedIff | apps/epicenter/src/static-assets.ts:88-124 | A request names an asset if and only if at most seven decodings, none showing a backslash, a NUL or an encoded NUL, slash or backslash in either case, lead to `/apps/whispering/` followed by the name, without percent signs, and the name only descends |
| StaticPaths.EncodedNamesComeBack | apps/epicenter/src/static-assets.ts:88-124 | A clean name below the prefix, encoded n times, comes back if and only if n is at most seven or there is nothing to encode |
| StaticPaths.SegmentsComeBack | apps/epicenter/src/static-assets.ts:88-124 | Each segment of a clean name percent-encoded on its own, joined below the prefix, comes back as exactly the joined segments |
| StaticPaths.EncodesEachSegment | apps/epicenter/src/static-assets.ts:111 | Encoding a path is joining its separately encoded segments |
| StaticPaths.EightLayersAreRefused | apps/epicenter/src/static-assets.ts:106 | A name with a space, encoded eight times, is refused |
| StaticPaths.LoopPeels | apps/epicenter/src/static-assets.ts:90-107 | The loop removes one layer a turn and gives up at the eighth |
| Paths.ContainedIffPrefix | apps/epicenter/src/static-assets.ts:180-187 | The relative-path test holds exactly when the root's segments are a prefix of the path's |
| Paths.PrefixTestIffPrefix | apps/local-books/src/app.ts:97-100 | The equal-or-prefix test holds exactly when the base's segments are a prefix, except that a root base admits itself alone |
| Paths.TestsAgree | apps/epicenter/src/static-assets.ts:180-187 | The two tests agree exactly off the root base |
| Paths.WalkDownAndUp | apps/local-books/src/app.ts:94-97 | Walking down named segments and then up any number of times ends that many short of where it went, never above the root |
| Paths.TargetIsNamed | apps/local-books/src/app.ts:93-97 | A request for named segments is looked up at exactly those below the built files, one for `/` at the index |
| Paths.ServesOnlyInside | apps/local-books/src/app.ts:89-100 | A request is looked up if and only if walking its pieces ended inside the base, and at a root base only if it ended at the root |
| Paths.RootRefusesItsFiles | apps/local-books/src/app.ts:93-100 | Below a root base the prefix test refuses `/index.html`, which the relative-path test admits |
| Cli.ParseArgs | apps/local-books/src/cli.ts:116-219 | The index loop with its lookahead computes the specification parser |
| Cli.TakeValue | apps/local-books/src/cli.ts:140-146 | The inline value, or the next token with the index moved onto it, or the error |
| Cli.ParsesExactlyTheGrammar | apps/local-books/src/cli.ts:116-219 | A vector parses if and only if it spells allowed items, and then to what they say; otherwise it spells allowed items up to the first offending token and the error names that offence |
| Cli.PrintedItemsParse | apps/local-books/src/cli.ts:130-218 | Items in any order and spelling parse to: first non-empty word, later words, flags anywhere, entities in order, the last value of every other option |
| Cli.SpellingsParseAlike | apps/local-books/src/cli.ts:136-146 | Two spellings of the same items parse alike in front of any rest |
| Cli.RecordsComeBack | apps/local-books/src/cli.ts:13-38 | Every well-formed record printed with either value spelling parses back to itself |
| Cli.ParsedIsWellFormed | apps/local-books/src/cli.ts:130-134 | Everything that parses is a well-formed record |
| Cli.DashlessAreWords | apps/local-books/src/cli.ts:130-134 | Tokens without a leading dash always parse, as words alone: the first non-empty one is the command, the later ones follow it |
| Cli.DashedAreOptions | apps/local-books/src/cli.ts:136-138 | An unknown option is refused whatever follows it: after one dash by its whole text, after two by what stands before the first equals sign |
| JsonTrees.DeepEqualIffSameMeaning | ops/cf/apply.ts:293-312 | For every array-free value on the left: `deepEqual` with every other value is equality as key/value maps at every depth, if and only if no object inside it holds `undefined` or an empty object under `__proto__` (where a missing key reads the same) |
| JsonTrees.UndefinedHidesAKey | ops/cf/apply.ts:303-311 | An object with an `undefined` that `deepEqual` takes for one with another key |
| JsonTrees.ProtoHidesAKey | ops/cf/apply.ts:303-311 | An object out of JSON with an empty own `__proto__` that `deepEqual` takes for one with another key |
| JsonTrees.DeepEqualRespects | ops/cf/apply.ts:293-312 | Values of one meaning are interchangeable on either side of `deepEqual` |
| Redirects.HidingRuleIsLeftAlone | ops/cf/apply.ts:437-448 | A rule that lost any member and owns an empty `__proto__` instead is left alone |
| Redirects.UpToDateIff | ops/cf/apply.ts:441-442 | A server's rule that hides nothing is left alone exactly when it has an id and agrees with the desired rule under every other key |
| Redirects.ReconcileRedirectRuleset | ops/cf/apply.ts:405-462 | The merge loop writes what one pass should write, or nothing when planning, and counts one drift exactly when there is something to write (what the rules written do is `RedirectAnswers.RuleAnswersItsHosts`) |
| Redirects.MergeTouchesOnly | ops/cf/apply.ts:427-449 | Whatever rules the zone holds, each keeps its place, ref and id, and its content unless it is the first of a desired ref; what is added has a desired ref the rules lacked |
| Redirects.MergeKeepsOrMakes | ops/cf/apply.ts:429-449 | Whatever rules the zone holds, each ref's first rule after a merge is the one it had, accepted by every desired rule of the ref, or was made from one of them because some was not accepted |
| Redirects.MergeAnswersLast | ops/cf/apply.ts:429-449 | Whatever rules the zone holds, after a merge the first rule of each ref is accepted for, or was made from, the last desired rule of that ref |
| Redirects.AppliedIsUpToDate | ops/cf/apply.ts:405-462 | Once a pass applied, a consistent desired rule is in place with an id if the rule found for its ref, where there was one, hid nothing |
| Redirects.SecondPassIsIdleIff | ops/cf/apply.ts:405-462 | Whatever rules the zone held, hiding ones included, the pass after one that applied writes nothing if and only if that one wrote nothing, or no desired rule was accepted by a rule without an id and desired rules of one ref agree or are both accepted |
| Redirects.ParsedSettlesIff | ops/cf/apply.ts:405-462 | For a zone of rules that hide nothing that condition is: desired rules of one ref agree |
| Redirects.ExpressionTellsHosts | ops/cf/apply.ts:493-495 | Quote-free hosts can be read back from the expression |
| Redirects.RulesTellRedirects | ops/cf/apply.ts:476-491 | Two redirects with quote-free hosts give the same rule only if they are the same |
| RedirectAnswers.RuleAnswersItsHosts | ops/cf/apply.ts:476-495 | Read by its members alone, the rule of a redirect with quote-free hosts is enabled, redirects, and answers a host, with the redirect's target, status and query flag, if and only if it is one of them |
| RedirectAnswers.ZoneAnswersAsConfigured | ops/cf/apply.ts:405-495 | After a pass that applied or found nothing to do, the zone's rule for each ref has an id, bears the redirect's description and answers exactly its hosts, as it says, if redirects of one ref make one rule and the rule found for it hid nothing |
| Redirects.RerunsAreIdleIff | ops/cf/apply.ts:405-495 | A second run finds no drift if and only if zone and redirects meet that condition, and, for a zone of rules that hide nothing, if and only if redirects that share a ref make one rule |
| Redirects.HomeAndElsewhereClash | ops/cf/apply.ts:405-495 | Two redirects under one ref and different targets, stored by a server, after which the next run writes again |
| SpecHistory.FirstAdds | scripts/generate-spec-history.ts:54-63 | The log loop computes the specification fold |
| SpecReading.LinesReadAs | scripts/generate-spec-history.ts:56-62 | A line is a header exactly if it opens with three at signs, its date being the trimmed rest, and adds a path exactly if it is that spec behind an A and a tab |
| SpecReading.IsSpecIff | scripts/generate-spec-history.ts:50-51 | A spec is a Markdown file anywhere below a directory `specs`, save a README.md in a directory |
| SpecReading.LedgerKeepsOrder | scripts/generate-spec-history.ts:54-63 | The ledger lists specs in the order of their first lines |
| SpecHistory.LedgerHolds | scripts/generate-spec-history.ts:54-63 | The ledger holds exactly the specs the log adds, once each |
| SpecHistory.DatedByLastAdd | scripts/generate-spec-history.ts:53-63 | Each spec has the date of the header its last listed add stands under |
| SpecHistory.EarliestWhenNewestFirst | scripts/generate-spec-history.ts:53-63 | In a newest-first log that is the earliest date of all its adds |
| SpecHistory.CompareIsAPreorder | scripts/generate-spec-history.ts:93-98 | The comparator orders all rows consistently whenever the locale orders titles so |
| SpecReading.SortedIff | scripts/generate-spec-history.ts:93-98 | Rows are sorted exactly when dated ones come first, newest first down to the day, and undated ones follow by title |
| SpecReading.CompareTextIff | scripts/generate-spec-history.ts:97 | Dates compare as in a dictionary |
| SpecReading.YearsAreFourDigits | scripts/generate-spec-history.ts:108 | A dated row stands under the first four characters of its date, any other under `undated` |
| SpecHistory.Place | scripts/generate-spec-history.ts:107-116 | One turn of the grouping loop, with groups shared by list and map, grows or adds one group and leaves the others |
| SpecHistory.GroupByYear | scripts/generate-spec-history.ts:105-116 | The grouping loop computes the specification groups |
| SpecHistory.GroupsAreTheYears | scripts/generate-spec-history.ts:105-116 | For any rows: one group a year, for exactly the years there are, each with all its rows in order |
| SpecHistory.SectionsKeepOrderIff | scripts/generate-spec-history.ts:102-116 | The groups one after the other are the rows if and only if rows of one year stand together |
| SpecHistory.SortedRowsGroupInOrder | scripts/generate-spec-history.ts:93-116 | For sorted rows the years are distinct, newest first and undated last, and the groups together are exactly the rows |
| Bootstrap.AcceptsExactlySingleMarkers | apps/epicenter/scripts/prepare-whispering-index.ts:18-25 | A page is accepted exactly when each marker occurs at one place |
| Bootstrap.GatingInserts | apps/epicenter/scripts/prepare-whispering-index.ts:10-16 | The result is the page with the gate before the opening marker and one parenthesis in the closing one |
| Bootstrap.RemovingTheInsertionsRecovers | apps/epicenter/scripts/prepare-whispering-index.ts:10-16 | Taking the two insertions out gives the page back |
| Bootstrap.SecondRunThrows | apps/epicenter/scripts/prepare-whispering-index.ts:10-25 | On its own output the rewrite always throws, for want of a closing marker |
| Bootstrap.TwoPagesOneResult | apps/epicenter/scripts/prepare-whispering-index.ts:13-15 | Two different accepted pages with one result |
| Bootstrap.ResultTellsPageIff | apps/epicenter/scripts/prepare-whispering-index.ts:10-16 | For every accepted page: no other page has its result if and only if it held no gated closing marker |

## Left out

- Timestamps and generated message ids: `requestedAt`, `settledAt` and message ids carry no decision, and `createdAt` of messages only the order assumed above; prompt, record and conversation ids are numbers in order of creation.
- `options.approval`: the host is modelled with its own session gate, not with an injected policy; the `deny` decision no policy here returns is left out with it.
- Tool catalogs, the model engine, the Yjs table and stores, the relay coordinator: only the assumptions listed above. A tool result's `details`, a run error's `code` and a tool input's structure beyond its text.
- Commands sent to a host after its disposal: the model ignores them; the sidecar stops its server before it disposes the host.
- SessionLibrary.SentIsStored: says that the message is stored, not when its flush reaches the disk.
- The conversation object is part of the host's state rather than an object of its own, and the approval maps are fields of the host class, because the notifications they raise are the host's; host listeners are recorded as the list of snapshots heard.
- The relay client's `send`, `ready` and `subscribe`, and JSON framing on every socket: frames are values.
- server.ts beyond subscribe, push and command of the stream socket: session cookies and their trimming, origins, CSP, upgrades. It is a local peer of `Mirror`.
- `superviseSidecar`, `parseBootFrame`, `parseRuntimeMode`, `createReadyFrame`: each is settled by reading a branch or two.
- The background loop of app.ts and the functions it passes to the sync gate: the gate is proved for arbitrary callers. A function that never settles is in progress for ever.
- Filesystem, `realpath`, symbolic links and the index fallback of `resolveWhispering` and `serveStatic`: paths are sequences of segments, after symbolic links were resolved.
- Lone surrogates: text is a sequence of Unicode scalar values, so `encodeURIComponent` never throws and lengths and positions count characters, not 16-bit units.
- Cli.ParseArgs: `parseInterval` with the `ms` library and `Number` are parameters; the interval and port values are whatever they return.
- JsonTrees.DeepEqualIffSameMeaning: arrays, which `deepEqual` takes for objects keyed by index, do not occur in redirect rules and are not modelled; the object prototype is the engine's own, with nothing added.
- RelayTransport.AttachRelayHost.OnCommand: a command payload that arrives after the host was disposed, for the reason above.
- Redirects.SecondPassIsIdleIff: assumes a server that stores what is written and only adds missing ids; a server that adds other fields makes every pass rewrite. DNS records, zone settings and network errors of apply.ts are not modelled.
- RedirectAnswers.ZoneAnswersAsConfigured: says what the rule of each ref answers, not which rule of a zone with rules of its own is tried first; an expression's string ends at the next quote, backslash escapes are not modelled.
- Reading the package manifests for the license graph: the default license and the `@epicenter/` filter on dependency names; the graph is given.
- SpecHistory.SortedRowsGroupInOrder: `sort` is taken at its word; `localeCompare` is a parameter on titles and text order on dates. `dateOf`, `titleOf` and the Markdown are not modelled, nor line terminators other than the line feed inside a log line.
- The Query page, app catalogs and every build, release and deployment script.
