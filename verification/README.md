# A verified model of the voice and video calling plugin

The plugin gives a chat server voice rooms and one-to-one calls. Its server side, in Go, keeps the voice rooms and
who is in them as one value in the key-value store, which any number of nodes update by compare-and-set; it hands out
private signalling sessions, relays messages between their participants, limits requests, and sends invitations that
are answered later. Its browser side, in JavaScript, runs a voice session and a one-to-one call as small state machines
over resources that may take their time to close, and sanitizes what it logs.

The project models these parts and proves what each is for. `dafny verify dfyconfig.toml` checks all of it.

**Voice rooms.** `voice_domain.dfy` defines the snapshot of rooms and presence and what each operation does to it, and
proves that every operation keeps it consistent. `voice_draft.dfy` holds the program's own loops over the decoded value,
each proved equal to those functions. `legacy_import.dfy` does the same for the one-time import of two older values.
`domain_protocol.dfy` lets any number of requests run the read, prune, mutate and compare-and-set steps in every
interleaving, with failing calls, and proves serializability; `domain_answers.dfy` says when a request answers and what;
`voice_domain_store.dfy` is one node's two retry loops among arbitrary writes of the others. `presence_history.dfy` reads
presence off the history of requests, `incarnations.dfy` shows that a room which is gone never comes back under the same
generation.

**Invitations.** `voice_invites.dfy` models sending and answering, `invite_history.dfy` the life of an invitation post in
one process, and `invite_protocol.dfy` answers racing with room changes on other nodes.

**Signalling.** `signal_sessions.dfy` and `signal_store.dfy` model the session store, `session_history.dfy` who may use a
session according to the whole history of calls, and `session_answers.dfy` which calls create one. `signal_limits.dfy`
models the limiter, with its slice filtered in place; `signal_broker.dfy` the broker's objects, `broker_protocol.dfy` their
concurrent use and `broker_refinement.dfy` how the two agree; `signal_delivery.dfy` and `signal_outcomes.dfy` put handlers,
store and broker together. `presence_handler.dfy` follows a presence or delete request through to the signalling sessions.

**The browser.** `voice_session.dfy` models the voice session and its close, `voice_resources.dfy` what it holds and lets
go of, `voice_panel.dfy` the panel that drives it, `call_session.dfy`, `call_redux.dfy`, `call_flow.dfy`,
`call_progress.dfy` and `call_client.dfy` the one-to-one call, its store slices, the thunks as steps, what each step
achieves, and the thunks as methods, and `debug_sanitizer.dfy` the sanitizer over a possibly cyclic object graph.
`text.dfy`, `sorting.dfy`, `finite.dfy` and `outcomes.dfy` are helpers.

Conventions. Times are integers read from one clock that never runs backwards; presence is in milliseconds, signalling
in nanoseconds. Clock readings, generated ids, the answers of other services and the moment at which a foreign callback
fires are parameters or steps. Generated ids are new. JavaScript closures that outlive their call are records with an
index. React state updates are immediate. A null string is the empty string.

## Findings

- A literal JSON `null` in an older key makes the imported value unreadable ever after; `ImportReadable` says that this
  is the only way.
- A voice room that empties because a heartbeat lapsed, rather than because its user left, keeps its signalling session:
  `LapsedUserKeepsAccess` is an instance, `EmptiedRoomLosesItsSession` the exact condition, and
  `OnlyLapsingStrandsInRuns` says that lapsing is the only cause.
- While the panel is switching away from a room, a click back to that room is lost and the switch goes through. The click
  decides the room exactly when the panel is not just leaving that room: `ClickBackIsLost`, with a run in
  `SwitchingStillShowsTheOldRoom`; `PanelFollowsLastRequest` is the same of whole runs.
- While the panel is switching away from a room, the microphone and speaker buttons, and a microphone granted late,
  announce presence in the room being left: `MicrophoneAnnouncesTheOldRoom` is a run, `AnnouncesOnlyWanted` the exact
  condition.
- A caller takes only an acceptance that carries the caller's own id (`webapp/src/actions/index.js:340-344`), while the
  callee sends the callee's (line 511), so no outgoing call gets beyond ringing: `CalleesAnswerIsIgnored` is a run,
  `AnswerTakenExactly` the exact condition, and `HonestAnswersNeverConnect` holds of every run in which acceptances
  carry the callee's id.
- `acceptCall` relies on being offered for incoming calls only: `AcceptExact` says when it would part the store from the
  session, and `AcceptingAPlacedCallBreaks` gives a run. The dialog shows the button for an incoming call only
  (`webapp/src/components/modals/start_video_call/start_video_call.jsx:126`, `179`), so no click leads there.
- The sanitizer drops an object's own key `__proto__`: `ProtoIsLost`, with the exact condition in `KeysKept`.

## Model

The results about whole runs come first. Below them are the results about single operations, and the methods whose loop
or re-entrancy carries a proof; every other method of the classes is proved equal to the function of the step it takes.

| member | source | states |
|---|---|---|
| DomainProtocol.Serializable | server/voice_domain_store.go:25-130 | in every interleaving the stored value is that of a sequential run of the logged events; a mutation that answered took effect exactly once, after it began and before it answered, one that failed not at all, and a read answered with a value stored while it ran |
| DomainProtocol.RealTimeOrder | server/voice_domain_store.go:25-130 | of two mutations that answered, one that ended before the other began took effect before it |
| DomainAnswers.EveryAnswerIsDue | server/voice_domain_store.go:25-130 | in every interleaving, every answer is due: an operation is refused only by a snapshot stored during the request and at times the clock showed during it, a value is called corrupt only if an unreadable one was stored, a call failed only if one did, and a mutation gives up only when others wrote at least twenty times while it ran; a read is never refused and never gives up |
| DomainAnswers.UnovertakenAnswer | server/voice_domain_store.go:106-130 | a mutation whose calls work and during which nobody else writes answers with the outcome, success or refusal, of its operation on the value stored when it began, or on the value it imports; and with corruption exactly if that value is unreadable |
| DomainAnswers.EveryRequestAnswers | server/voice_domain_store.go:25-130 | until a request has answered its next step can be taken, and it takes at most 180 of its own, whatever the others do |
| DomainAnswers.ImportReadsTheOldKeys | server/voice_domain_store.go:43-63 | what is imported are the two older values as they stood or as an old build wrote them, pruned by a clock reading made during the request that imports |
| DomainProtocol.EveryStoredSnapshotConsistent | server/voice_domain_store.go:106-130 | every value ever stored, in every run, is consistent |
| PresenceHistory.PresenceIsLastRequest | server/voice_room_service.go:140-179 | from an empty store, in every interleaving, a user is listed in a room exactly when their last committed request named it less than 45 seconds ago and it has not been deleted since |
| Incarnations.NoRevival | server/voice_room_service.go:60-62 | a room incarnation seen at two moments was alive at every moment between |
| InviteProtocol.AnsweredWhileAlive | server/voice_invite_service.go:86-132 | in every interleaving with room changes and imports elsewhere, an acknowledged answer was written while the very incarnation invited to was alive |
| InviteProtocol.DeletedRoomNeverAnswers | server/voice_room_service.go:112-138 | a room deleted and recreated under the same id never satisfies an old invitation |
| InviteProtocol.TurnRefinesRespond | server/voice_invite_service.go:86-132 | each turn of a responder among the other nodes writes and answers the next part of what the sequential respond does with the readings that the turns meet |
| InviteHistory.AnswersNeverFlip | server/voice_invite_service.go:86-132 | two answers ever written to one post are the same; a post that is pending again is so for good with a past expiry |
| InviteHistory.RunKeepsShape | server/voice_invite_service.go:35-147 | in every run a post is pending, then answered or withdrawn, then only after an answer withdrawn, and nothing more |
| BrokerProtocol.SafeDelivery | server/signal_broker.go:29-98 | in every interleaving no send or close hits a closed channel, at most 64 wait, and a channel gets only its topic's payloads, each publish at most once and each publisher's in order |
| BrokerProtocol.DeliveredMeansSent | server/signal_broker.go:90-98 | a publish delivered to a subscriber exactly when it says so |
| BrokerProtocol.DroppedOnlyWhenFullOrClosed | server/signal_broker.go:33-43 | a payload for a subscriber in the snapshot is dropped only when it is full or closed |
| BrokerProtocol.SnapshotHasListeners | server/signal_broker.go:90-95 | in every run a publish has in its snapshot exactly the subscribers that listen on its topic at that step, each once |
| BrokerProtocol.ListenersAreServed | server/signal_broker.go:33-98 | in every run a finished publish has put its payload into the channels of exactly those, but for the ones that were closed or held 64 payloads when their turn came |
| BrokerProtocol.PublishGoesOn | server/signal_broker.go:29-98 | in every run an unfinished publish can take its next step, or whoever holds the lock it waits for can |
| BrokerRefinement.DeliverRefines | server/signal_broker.go:33-43 | one turn of a publish, taken without interruption, does what the subscriber object does and touches no other subscriber |
| BrokerRefinement.CloseRefines | server/signal_broker.go:46-56 | so does the closing of a subscriber that has left its list |
| SessionHistory.AuthorizeMatchesHistory | server/signal_sessions.go:175-187 | authorize succeeds exactly when the history says so: created less than 30 minutes ago, not ended since, call id blank or equal, user in the participants installed last |
| SessionHistory.StoreFollows | server/signal_sessions.go:63-212 | every stored session is the one the history describes, and an absent one ended or ran out |
| SessionHistory.EveryStoreSound | server/signal_sessions.go:63-212 | after every history the two maps agree and the bounds hold |
| SessionAnswers.CreatesByCalls | server/signal_sessions.go:63-173 | which calls create a session is told by the calls alone: a direct call exactly when it is well formed and fewer than five sessions of its owner stand, a call for a room exactly when the caller is on its list and no session of the room stands |
| SessionAnswers.AuthorizeByCalls | server/signal_sessions.go:175-187 | the same authorization law with the creating calls told by the calls alone, every refusal included |
| SignalDelivery.SessionStreamsAreAuthorized | server/signal_handlers.go:52-126 | every message in a session stream names that session and, as its sender, the authenticated user of the request that published it, which had itself authorized that user before publishing; the request that opened the stream had authorized its own user before subscribing |
| SignalDelivery.InboxesAreAuthorized | server/signal_handlers.go:155-193 | an inbox message is an invitation, names its authenticated sender, reaches only that user, and its own request had authorized both ends before publishing |
| SignalDelivery.AuthorizationsAreOwn | server/signal_handlers.go:52-126 | no two requests share an authorization |
| SignalDelivery.PassedWasParticipant | server/signal_sessions.go:175-187 | to have passed is to have been, at that call, a participant of a session that was created, not ended and not run out |
| SignalOutcomes.ServedGoesOn | server/signal_handlers.go:52-126 | a request that is being served can always take its next turn, needs at most two authorizations and then publishes or subscribes |
| SignalOutcomes.RefusedWasNoParticipant | server/signal_handlers.go:52-126 | a request is refused only by an authorization of its own, of a user it had to authorize, who by the history could not use the session at that call |
| SignalOutcomes.StreamMessagesAreValid | server/signal_handlers.go:290-296 | in every run, a message in a session stream has version 1, a call id and a type that are not blank and within their limits, and a payload |
| SignalOutcomes.PublishedReachesListeners | server/signal_handlers.go:69-75 | end to end, a published message whose publish has finished is in the streams of exactly those who listened on its topic when it was published, but for streams that were closed or held 64 messages |
| SignalLimits.LimiterMatchesLog | server/signal_limits.go:44-62 | the pruned list answers as an unbounded log would: a request is refused exactly when sixty were admitted in the sixty seconds before it |
| SignalLimits.AtMostSixtyAMinute | server/signal_limits.go:44-62 | at most sixty requests of a user are admitted in any window of a minute |
| SignalLimits.CountIsOpenStreams | server/signal_handlers.go:88-92 | under acquire and release a user's count is the number of their open streams, at most ten |
| SignalLimits.OpensUnderTen | server/signal_limits.go:24-42 | a stream is opened exactly when its user has fewer than ten open, and only the stream that opens or ends changes |
| PresenceHandler.LiveUsersAreAdmitted | server/voice_presence.go:185-221 | in every run of requests, a room session belongs to a listed room and lets in every user live there |
| PresenceHandler.OnlyLapsingStrandsInRuns | server/voice_presence.go:207-221 | in every run, whoever is a participant without being live at its end was so at its beginning, or had an entry in that room that lapsed with time at some point of the run |
| PresenceHandler.EmptiedRoomLosesItsSession | server/voice_presence.go:207-221 | the session of an emptied room is gone exactly when the room was entered, or left by a user who was still live in it |
| PresenceHandler.LapsedUserKeepsAccess | server/voice_presence.go:207-221 | an instance in which a lapsed user stays authorized after entering another room |
| VoiceSessions.CallbacksRunOnce | webapp/src/utils/voiceSession.js:266-332 | in every run each callback runs exactly once if its close completes and never before |
| VoiceSessions.CaptureReleasedOnce | webapp/src/utils/voiceSession.js:288-331 | each close stops its stream and closes its swarm once, and its hub once on completion, and releases nothing else |
| VoiceSessions.CallbackRunsAfterRelease | webapp/src/utils/voiceSession.js:299-318 | a callback runs only after its close has released everything |
| VoiceSessions.LateCompletionIsNoOp | webapp/src/utils/voiceSession.js:299-303 | a late completion of an earlier close changes nothing |
| VoiceSessions.ClosingHasTimer | webapp/src/utils/voiceSession.js:304-331 | a closing session has its timer set and not cleared |
| VoiceSessions.InactiveHoldsNothing | webapp/src/utils/voiceSession.js:288-295 | outside an active room no stream, hub, swarm or room is held |
| VoiceResources.StartsOnlyIdle | webapp/src/utils/voiceSession.js:39-51 | in every run, starting an idle session with a room makes it active there, and starting any other changes nothing; a session is closing exactly while its last close is unfinished |
| VoiceResources.CompletionFrees | webapp/src/utils/voiceSession.js:299-318 | in every run, the completion of the close in progress leaves the session idle, with every callback of the close due |
| VoiceResources.HoldsWhatItWasGiven | webapp/src/utils/voiceSession.js:53-90 | in every run a session holds what it was given last for the room it was active in, since its last close |
| VoiceResources.CloseReleasesWhatWasGiven | webapp/src/utils/voiceSession.js:266-332 | in every run a close stops the stream and closes the swarm last given to the session once each, and its hub once on completion, and releases nothing else whatever follows |
| VoiceResources.StreamGivenIsStopped | webapp/src/utils/voiceSession.js:53-60 | a stream given to a session that is active in its room, and not replaced, is stopped once by the close that follows |
| VoiceResources.ConnectionGivenIsClosed | webapp/src/utils/voiceSession.js:81-136 | a hub and swarm given so are closed once each by the close that follows, the hub on its completion |
| VoiceResources.TooLateIsReleased | webapp/src/utils/voiceSession.js:53-57 | what is offered for another room, or too late, is released at once, each part once, and nothing else changes |
| VoicePanels.PanelFollowsLastRequest | webapp/src/components/modals/audio_group_call/audio_group_call.jsx:795-909 | in every run, the room shown, the session and the heartbeat end up where the last request asked (at once, or when the pending close completes) exactly when that request was not a click on the room being left |
| VoicePanels.ClosingSettlesLastRequest | webapp/src/components/modals/audio_group_call/audio_group_call.jsx:862-909 | while a close is in progress no heartbeat runs, and its completion settles the last request exactly when that was not a lost click |
| VoicePanels.ClickBackIsLost | webapp/src/components/modals/audio_group_call/audio_group_call.jsx:851-854 | a click on a room takes the panel there, at once or on completion of the pending close, exactly when the panel is not just leaving that room |
| VoicePanels.SwitchingStillShowsTheOldRoom | webapp/src/components/modals/audio_group_call/audio_group_call.jsx:847-909 | a run that ends while the panel is leaving the room it shows |
| VoicePanels.AnnouncesOnlyWanted | webapp/src/components/modals/audio_group_call/audio_group_call.jsx:946-1090 | a step announces a room other than the one the panel is bound for (the one last asked for, unless that click was lost) exactly when it toggles the microphone, or takes up a granted one, while another room is being left |
| VoicePanels.MicrophoneAnnouncesTheOldRoom | webapp/src/components/modals/audio_group_call/audio_group_call.jsx:1059-1067 | a run in which the microphone button announces the room being left |
| VoicePanels.AnnouncesExactly | webapp/src/components/modals/audio_group_call/audio_group_call.jsx:795-1090 | in every run, exactly which announcements each event makes: of a room on entering it and at every heartbeat in it, of none on leaving, and of the room shown by the buttons |
| VoicePanels.EnteredCanConnect | webapp/src/components/modals/audio_group_call/audio_group_call.jsx:975-1010 | in every run, a room that has just been entered has microphone and speaker on, and the next attempt to connect goes ahead |
| VoicePanels.MovedAwayExactly | webapp/src/components/modals/audio_group_call/audio_group_call.jsx:598-608 | in every run, a presence event takes the panel out of its room exactly when it says that this user has left that room, and nothing is announced |
| VoicePanels.GrantedIsHeard | webapp/src/components/modals/audio_group_call/audio_group_call.jsx:946-973 | in every run, a microphone asked for and granted in an active room is held by the session, and the room is announced |
| VoicePanels.ConnectStartsNothing | webapp/src/components/modals/audio_group_call/audio_group_call.jsx:998-1000 | a connection attempt never starts the session |
| CallFlow.StoreMirrorsSession | webapp/src/actions/index.js:124-697 | in every run of the thunks and late events, the store's state and call id equal the session's between events |
| CallFlow.NeverBothDirections | webapp/src/reducers/index.js:73-121 | incoming and outgoing are never both set, the dialog shows exactly one of them, and a session always has one |
| CallFlow.LateEventsAreIgnored | webapp/src/actions/index.js:339-380 | a late event of an earlier call changes nothing that is shown, and a late decline or cancel is not heard |
| CallFlow.ConnectingNeedsOwnId | webapp/src/actions/index.js:339-354 | an outgoing call gets beyond ringing only in a run in which some acceptance carries the caller's own id |
| CallFlow.HonestAnswersNeverConnect | webapp/src/actions/index.js:339-354 | as long as every acceptance carries the callee's id, no outgoing call starts connecting |
| CallFlow.AnswerTakenExactly | webapp/src/actions/index.js:339-354 | an acceptance is taken exactly when its call is live, none was taken before and the id it carries is the caller's own |
| CallFlow.CalleesAnswerIsIgnored | webapp/src/actions/index.js:511-511 | a run in which the callee's acceptance, sent as acceptCall sends it, changes nothing |
| CallFlow.HangingUpReleasesAll | webapp/src/actions/index.js:670-697 | hanging up leaves no session, nothing tracked, every tracked hub closed and nothing shown |
| CallFlow.AcceptExact | webapp/src/actions/index.js:482-504 | when accepting would part the store from the session: exactly during a call without its signal session |
| CallFlow.AcceptingAPlacedCallBreaks | webapp/src/actions/index.js:482-497 | a one-event run after which it would; the dialog offers accept for an incoming call only |
| CallProgress.PlacesExactly | webapp/src/actions/index.js:124-172 | in every run, placing a call to somebody else while none is shown starts it ringing with its delivery under way, and otherwise nothing happens |
| CallProgress.RingsExactly | webapp/src/actions/index.js:229-287 | in every run, an invitation from somebody else with its ids rings exactly when no call is shown |
| CallProgress.AcceptingConnects | webapp/src/actions/index.js:482-540 | in every run, accepting an incoming call starts it connecting |
| CallProgress.PeerConnectsExactly | webapp/src/actions/index.js:371-377 | in every run, a peer connects exactly the call it was found for, while that is connecting |
| CallProgress.DeliveryListens | webapp/src/actions/index.js:186-213 | in every run, a placed call that is still ringing when its hub arrives has it tracked and both answers listened for |
| CallProgress.LateHubIsClosed | webapp/src/actions/index.js:194-224 | in every run, a hub that arrives after its call is over is closed, and giving up changes nothing shown |
| CallProgress.EveryEndReleasesAll | webapp/src/actions/index.js:51-55 | in every run, whatever ends a call leaves no session, nothing tracked, every tracked hub closed and no listener that is heard; only a declined call stays shown |
| CallProgress.EndTellsCallee | webapp/src/actions/index.js:670-697 | in every run, ending a placed call opens a hub to tell the callee exactly while nobody has answered and its session is ready |
| CallProgress.RejectTellsCaller | webapp/src/actions/index.js:633-668 | in every run, rejecting an incoming call opens a hub to tell its caller |
| DebugSanitizer.ExpandedExactlyOnce | webapp/src/utils/debug.js:52-73 | over all arguments each container reachable without a redacted key is expanded exactly once, and nothing else is |
| DebugSanitizer.SecretsDoNotLeak | webapp/src/utils/debug.js:72-76 | what sensitive keys hold has no influence on the output |
| DebugSanitizer.ArgsShown | webapp/src/utils/debug.js:79-82 | every argument is shown: primitives unchanged, array lengths and keys kept, sensitive keys redacted, a repeated container cut off |
| DebugSanitizer.ArgsRedacted | webapp/src/utils/debug.js:73-74 | wherever it is nested, every sensitive key shows the marker |
| DebugSanitizer.KeysKept | webapp/src/utils/debug.js:73-76 | an expanded object keeps all its keys exactly when none is `__proto__` |
| DebugSanitizer.ProtoIsLost | webapp/src/utils/debug.js:73-76 | an instance in which that key disappears |
| DebugSanitizer.ProtoIsNotSensitive | webapp/src/utils/debug.js:3-3 | the pattern does not match `__proto__` |
| VoiceDomain.ApplyKeepsConsistent | server/voice_domain_store.go:106-130 | every operation on a consistent snapshot stores a consistent one (listed rooms only, one room a user, no empty record, distinct ids, the two limits) with its rooms sorted |
| VoiceDomain.RefusedExactly | server/voice_room_service.go:49-179 | a whole mutation is refused exactly when it creates a new room at 200 listed, deletes a listed room of another creator without the right to manage any, or moves into a room that is not listed or has 100 live users and not the mover |
| VoiceDomain.Moved | server/voice_room_service.go:140-179 | a move that is not refused, pruning included: the mover is in the room named and no other, with an expiry 45 seconds ahead and the announced microphone; every other live entry and the rooms stay |
| VoiceDomain.Created | server/voice_room_service.go:49-64 | a create that is not refused, pruning included: a new id is listed once with the creator, name, time and generation of the request, one that exists stays as it is, and live entries stay |
| VoiceDomain.Deleted | server/voice_room_service.go:66-91 | a delete that is not refused, pruning included: the room and its users go, every other room and live entry stays |
| VoiceDomain.MoveKeepsConsistent | server/voice_room_service.go:149-176 | a move keeps each user in one room and the limit of 100 |
| VoiceDomain.DeleteKeepsConsistent | server/voice_room_service.go:66-91 | deleting a room takes its presence with it |
| VoiceDomain.PruneKeepsConsistent | server/voice_presence.go:105-120 | pruning leaves no empty record and breaks nothing |
| VoiceDomain.VacatedMembers | server/voice_room_service.go:149-166 | leaving takes out the mover from every room but the destination, and nobody else |
| VoiceDomain.RoomLeOrder | server/voice_rooms.go:43-52 | the room order, by folded name and then id, is total and transitive |
| VoiceDomain.SortKeeps | server/voice_rooms.go:43-52 | sorting keeps the rooms and their ids and orders them |
| VoiceDraft.FindRoom | server/voice_room_service.go:31-38 | finds the room with an id, or says that there is none |
| VoiceDraft.UserRoom | server/voice_room_service.go:40-47 | returns the room a user is in whatever the order of visiting |
| VoiceDraft.ActiveParticipants | server/voice_presence.go:87-101 | lists exactly the users whose entry has not lapsed, each once |
| VoiceDraft.PruneRooms | server/voice_presence.go:105-120 | the double loop leaves exactly the live entries, and reports whether anything changed |
| VoiceDraft.VacateRooms | server/voice_room_service.go:149-166 | the loop of a move takes the user out everywhere else and reports the room they were in with its microphone state |
| VoiceDraft.RemainingRooms | server/voice_room_service.go:70-79 | refuses exactly when the room belongs to somebody else and the caller may not manage it |
| VoiceDraft.Draft.DeleteRoom | server/voice_room_service.go:66-91 | the decoded value after a delete, and the users who were still in the room |
| VoiceDraft.Draft.SetPresence | server/voice_room_service.go:140-179 | the decoded value after a move, and what it reports of the previous room |
| VoiceDraft.Draft.Attempt | server/voice_domain_store.go:112-117 | one pass of prune, mutate and sort is the function the protocol uses, and is refused exactly as `RefusedExactly` says |
| LegacyImport.ImportedMembers | server/voice_domain_store.go:69-104 | a user is kept in the known room with their latest live entry, ties going to the smallest id, with that entry |
| LegacyImport.BestIsUnique | server/voice_domain_store.go:82-93 | that room is unique |
| LegacyImport.ImportKeepsTheLive | server/voice_domain_store.go:67-104 | exactly the users with a live entry in a known room are kept, each in one room |
| LegacyImport.ImportIsIdempotent | server/voice_domain_store.go:69-104 | importing the result again at the same time changes nothing |
| LegacyImport.ImportIsConsistent | server/voice_domain_store.go:51-52 | old values within the limits import to a consistent snapshot |
| LegacyImport.FindOwners | server/voice_domain_store.go:80-93 | the first loop finds each user's winning room, in any order of visiting |
| LegacyImport.DropOthers | server/voice_domain_store.go:94-103 | the second loop keeps exactly the owned entries |
| LegacyImport.NormalizeLegacyPresence | server/voice_domain_store.go:69-104 | the whole import is one function of its input, whatever order maps are visited in |
| DomainProtocol.RoundTrip | server/voice_domain_store.go:31-40 | decoding inverts encoding, and only encodings of the current version decode |
| DomainProtocol.ImportReadable | server/voice_domain_store.go:43-60 | the imported value is readable exactly when neither older key holds a literal null |
| DomainProtocol.FailureWritesNothing | server/voice_domain_store.go:106-130 | the step on which a request fails leaves the stored value as it was |
| DomainStore.Node.ReadVoiceDomain | server/voice_domain_store.go:25-65 | the read loop answers with the value stored at that moment and writes at most the import; it fails only if a call failed or an unreadable value was stored, never gives up, and undisturbed answers with the stored or the imported value |
| DomainStore.Node.MutateVoiceDomain | server/voice_domain_store.go:106-130 | the mutation loop answers with a snapshot only if its operation was applied exactly once, to the value stored then; it fails, having written nothing, only if a call failed, an unreadable value was stored, a refusal was due on a snapshot stored while it ran, or the log grew by twenty events; undisturbed it answers with the outcome of its operation |
| DomainStore.Node.Seed | server/voice_domain_store.go:51-63 | the import seeds an empty key with the normalized older values |
| PresenceHistory.ListedIsLastRequest | server/voice_presence.go:105-120 | the same of any legal history of events |
| PresenceHistory.ApplyListing | server/voice_room_service.go:149-176 | what one operation does to who is listed where |
| Incarnations.AppearedSince | server/voice_room_service.go:60-62 | an incarnation that appears was created by an event with its generation |
| VoiceInvites.InviteRoundTrip | server/voice_invites.go:49-84 | reading the record back from the post it was written to gives the same record |
| VoiceInvites.Rewrite | server/voice_invite_service.go:114-119 | copying the props keeps every other prop and replaces the invitation |
| VoiceInvites.InviteDesk.ValidateResponse | server/voice_room_service.go:124-138 | the room holds, the inviter is still in it and the target is not |
| VoiceInvites.InviteDesk.FindInviteRoom | server/voice_room_service.go:93-110 | the room an invitation may be sent for, or why not |
| VoiceInvites.InviteDesk.RespondTo | server/voice_invite_service.go:86-132 | the revisions written and the error of an answer, in every outcome of the calls it makes |
| VoiceInvites.InviteDesk.SendTo | server/voice_invite_service.go:35-84 | the revisions, the events and the error of a send |
| InviteHistory.AnsweredStays | server/voice_invite_service.go:98-109 | repeating an answer writes nothing and succeeds exactly for the same answer of the right user while the room lives |
| InviteHistory.WithdrawnIsFinal | server/voice_invite_service.go:134-147 | a withdrawn invitation is never written again |
| InviteHistory.ExpiredLeavesUnanswerable | server/voice_invite_service.go:120-131 | an answer of "expired" leaves the post unchanged or withdrawn |
| InviteHistory.PublishedOncePerSend | server/voice_invite_service.go:64-84 | a send publishes exactly once when it succeeds and never when it fails |
| InviteHistory.AcknowledgedExactly | server/voice_invite_service.go:86-132 | an answer is recorded and acknowledged exactly when the right user answers a pending, unexpired invitation whose room holds, with the inviter in it and the target not, both before and after the write |
| InviteHistory.SendsExactly | server/voice_invite_service.go:35-84 | an invitation to a listed room is sent exactly when its users differ and are found, the room is open between them at lookup, the post can be written, and the same incarnation of the room is open between them after that |
| InviteHistory.SentInvite | server/voice_invite_service.go:52-62 | what is sent names both users and the incarnation of the room, is pending and expires in five minutes, and is published once |
| InviteHistory.SendRefusals | server/voice_invite_service.go:35-50 | which error a send answers with before it writes anything, by the users and the room it finds |
| InviteHistory.RespondRefusals | server/voice_invite_service.go:86-131 | which error an answer meets, each exactly when it is due by the post and the rooms read |
| SignalSessions.PruneSound | server/signal_sessions.go:203-212 | pruning keeps the two maps in agreement and the bounds |
| SignalSessions.ForVoiceRoomSound | server/signal_sessions.go:63-89 | so does looking up or creating a room's session |
| SignalSessions.SyncSound | server/signal_sessions.go:91-110 | so does a participant update |
| SignalSessions.CreateSound | server/signal_sessions.go:128-173 | so does a direct call, of which an owner has at most five, each with the owner among at most sixteen |
| SignalSessions.CreateAnswers | server/signal_sessions.go:128-173 | a direct call is refused as malformed, or for five unexpired sessions of its owner, and otherwise gets its session for thirty minutes |
| SignalSessions.ForVoiceRoomAnswers | server/signal_sessions.go:63-89 | a room session is given to exactly the users on the list: the unexpired one with that list, or else a new one for thirty minutes |
| SignalSessions.CloseSound | server/signal_sessions.go:189-201 | so does closing, which answers yes exactly to the owner of a stored session, and then removes it |
| SignalSessions.RoomSessionExists | server/signal_sessions.go:67-70 | a room in the index has its session, so a lookup never revives a missing one |
| SignalStore.TrimAll | server/signal_sessions.go:134-141 | the participant loop accepts exactly lists without a blank id and collects the trimmed ids and the owner |
| SignalStore.CountOwned | server/signal_sessions.go:160-165 | the counting loop counts the owner's sessions |
| SignalStore.SessionStore.PruneExpired | server/signal_sessions.go:203-212 | the two maps after pruning |
| SignalStore.SessionStore.ForVoiceRoom | server/signal_sessions.go:63-89 | the two maps and the answer, for a room with and without a session |
| SignalStore.SessionStore.Create | server/signal_sessions.go:128-173 | the two maps and the answer: invalid exactly for a malformed call, over the limit exactly for five unexpired sessions of the owner, else the session |
| SignalLimits.ListsBounded | server/signal_limits.go:44-62 | no list is ever longer than sixty |
| SignalLimits.RequestWindow.FilterInPlace | server/signal_limits.go:49-55 | the loop that writes into the slice it reads keeps exactly the recent times, in order |
| SignalLimits.Limiter.AllowRequest | server/signal_limits.go:44-62 | all the lists after one request: the user's is updated, the others are untouched |
| SignalMessages.TopicsApart | server/signal_sessions.go:214-220 | session and inbox topics are injective and never equal to each other |
| SignalBroker.Broker.Unsubscribe | server/signal_broker.go:71-87 | the subscriber leaves its list, an emptied topic goes, and its channel closes |
| SignalBroker.Broker.Publish | server/signal_broker.go:90-98 | every subscriber of the topic is offered the payload once |
| SignalBroker.RemovedExactly | server/signal_broker.go:71-87 | leaving takes exactly that subscriber off its topic and an emptied topic with it; other topics stay |
| SignalBroker.WithoutFirstAt | server/signal_broker.go:74-83 | splicing at the found index removes the first occurrence |
| PresenceHandler.Handlers.Presence | server/voice_presence.go:154-224 | the stored rooms and the sessions after a presence request, and its error |
| PresenceHandler.Handlers.Delete | server/voice_rooms.go:207-225 | the stored rooms and the sessions after a delete request, which is refused exactly for a listed room of another creator without the right to manage any |
| PresenceHandler.PresenceSyncs | server/voice_presence.go:207-221 | when a presence request finishes, the session of the room left and of the room entered has exactly the live users as participants, or is gone when there are none |
| PresenceHandler.PresenceFrame | server/voice_presence.go:207-221 | no other session is touched |
| PresenceHandler.DeleteSyncs | server/voice_rooms.go:207-225 | a deleted room has no session, and other rooms keep theirs |
| PresenceHandler.RoomSessionExactly | server/signal_handlers.go:220-250 | asking for a room session is refused without a trace unless the caller is live in the room; else the room has an unexpired session for exactly its live users, and other unexpired sessions stay |
| PresenceHandler.AuthorizesExactly | server/signal_sessions.go:175-187 | an unexpired room session authorizes its participants and nobody else |
| PresenceHandler.OnlyLapsingStrands | server/voice_presence.go:207-221 | whoever is a participant without being live after one request was so before it, or has an entry that lapsed with time |
| VoiceSessions.VoiceSession.Close | webapp/src/utils/voiceSession.js:266-332 | what close captures, releases at once and leaves to its completion |
| VoiceSessions.VoiceSession.Finish | webapp/src/utils/voiceSession.js:299-318 | what a completion does the first time and every other time |
| VoiceSessions.CaptureIsWhatWasHeld | webapp/src/utils/voiceSession.js:288-295 | what a close captures is what the session held, and the session lets go of it |
| CallFlow.ReleaseEnds | webapp/src/utils/callSession.js:82-124 | releasing the current call ends it even when closing a swarm ends it from inside |
| CallClients.CallClient.End | webapp/src/actions/index.js:670-697 | hanging up tells a callee still being rung, silences both listeners, releases the call and clears it |
| CallClients.CallClient.Release | webapp/src/actions/index.js:51-55 | a release ends the named call if it is current and closes everything tracked, also when a swarm it closes ends the call from inside |
| DebugSanitizer.Sanitizer.Sanitize | webapp/src/utils/debug.js:47-77 | the recursion over a cyclic heap terminates and shares its visited set as the function does |
| DebugSanitizer.Sanitizer.MapAll | webapp/src/utils/debug.js:63-66 | the loop over elements or arguments |
| DebugSanitizer.Sanitizer.ReduceKeys | webapp/src/utils/debug.js:72-76 | the loop over keys |
| InviteProtocol.ReadWasStored | server/voice_room_service.go:112-128 | a check reads a snapshot that was stored between the beginning and the end of its read |
| VoicePanels.VoicePanel.RunCallbacks | webapp/src/utils/voiceSession.js:309-317 | the loop over the callbacks of a finished close, which may start the next session |
| VoicePanels.VoicePanel.Cleanup | webapp/src/components/modals/audio_group_call/audio_group_call.jsx:769-771 | a close whose swarm may finish within the call runs its callbacks before it returns |
| CallClients.CallClient.CloseHubs | webapp/src/utils/callSession.js:118-124 | the loop over the tracked hubs, taken off the list before the first is closed, closes every one of them |

## Left out

- HTTP requests and status codes, JSON bytes, server-sent events, logging and the Mattermost API: only what each does to state is modelled.
- WebRTC, audio, ringtones, notifications, rendering, pickers and the other components: foreign calls or user interface.
- Configuration, ICE server lists, direct-message peers, API clients and event registries: they would only add easy members.
- Text outside ASCII: case folding of room names and trimming are those of ASCII, and Go strings stand for their bytes.
- A random source that fails when a session id is generated: ids are parameters.
- DomainProtocol.Serializable: like the other results about its runs, assumes that neither older key holds a literal JSON null and that old rooms have distinct ids within the limits; `ImportReadable` gives the exact condition for the first.
- PresenceHistory.PresenceIsLastRequest: assumes that no old build lists users while the run lasts.
- DomainStore.Node.MutateVoiceDomain: the other nodes' writes enter between calls as any legal events; the two older keys stay as they are while one call runs.
- InviteHistory.AnswersNeverFlip: holds inside one plugin process; across instances the post update is not a compare-and-set, and "first answer wins" is not claimed.
- SignalSessions.CreateSound: the bound of five counts direct calls; voice-room sessions are not counted by the source either.
- LegacyImport.NormalizeLegacyPresence: the imported rooms are not sorted until the next mutation, so no order is claimed.
- PresenceHandler.LiveUsersAreAdmitted: requests run one at a time and reads of the store succeed, so the stored value is a field.
- SignalBroker.Broker.Unsubscribe: a topic's list is a sequence; that the splice reuses the list's memory does not show, since publish copies the list under the lock.
- VoiceSessions.CaptureReleasedOnce: covers what a close captures; a stream or connection overwritten by a later one in the same room is not released by the source.
- VoiceSessions.VoiceSession.Close: peers, playbacks, peer timers and their views are left out, since `registerHubPeer` does not look at the state; stopping a track and emitting views do not throw and do not call back into the session, nor does closing a hub.
- VoicePanels.PanelFollowsLastRequest: the panel stays mounted, and the directory offers no room with a blank id.
- VoicePanels.AnnouncesOnlyWanted: an announcement is the room it names; the microphone state sent along is left out.
- CallFlow.LateEventsAreIgnored: a late disconnect of a swarm carries no call id and may end a newer call; that is not excluded.
- CallFlow.StoreMirrorsSession: media streams, the peer object and the peer-connection watches of a call are left out, as are thunks that only toggle media; accepting is offered on an incoming call, and destroyed listeners stay silent.
- DebugSanitizer.ArgsShown: getters, proxies, sparse arrays and errors whose name is not a string are left out; the contents of an error are shown as they are.
- SignalDelivery.SessionStreamsAreAuthorized: rate limits and stream heartbeats do not appear in the end-to-end runs; they are treated in `signal_limits.dfy`.
