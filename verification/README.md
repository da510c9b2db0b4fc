# A verified model of go-ginx-2's tunnel core

go-ginx-2 is a reverse-proxy server with clients behind NAT. This project models the parts of it whose
correctness is hardest to see, and proves what they are for:

- **The TCP+TLS stream multiplexer** (`MuxProtocol`, `MuxInvariant`, `MuxLocal`, `MuxDelivery`, `MuxTheorems`,
  `MuxWrites`, `MuxTidy`, `MuxEnds`, `MuxAccept`, `MuxExchange`): two endpoints, their goroutines stopped at every
  point where another may run, and any interleaving of their steps. One invariant holds in every reachable state;
  delivery in order, honest resets, table bounds and shutdown follow, and that what ends is ended and nothing lingers
  or sticks. `Mux` holds the same multiplexer as the objects it is, each method proved to change the object as the
  protocol says; `MuxTurn` proves that the protocol's steps, run without interference, come to the same, and what any
  peer can do. `Framing` and `MuxDatagrams` add the bytes: length-prefixed frames, and datagrams over a stream.
- **The session registry** (`Sessions`, `SessionRuns`): the object with its two maps, and what every run of
  register, heartbeat, close and expiry keeps.
- **Listener admission and reconciliation** (`Hosts`, `Paths`, `Listeners`, `Admission`, `ProxyWrites`,
  `ListenerSafety`, `RouteSafety`, `ListenerLimits`, `RouteLimits`, `Reconciler`, `ListenerRuntime`, `ProxyServices`,
  `ProxyAnswers`): which proxies are admitted, what each service call makes of the store under every failure, and how
  the running listeners follow the store and come back after an undo.
- **Web routes** (`WebRoutes`, `Paths`): longest-prefix choice and path rewriting.
- **The local allowlist** (`Addresses`, `SortKeys`, `Allowlist`) and **two back-off schedules** (`Reconnect`, `Lifecycle`).

Code that updates objects is a class here, its loops are loops; each is proved against a function or predicate on
values, and the laws are lemmas about those. `dafny verify dfyconfig.toml` checks the whole project.

## Where the code does less than one would hope

Each of these is stated with the exact condition under which the code is right; most have a concrete failing input too.

- A failed `DisableLocalProxy` is undone by setting the proxy enabled, without admission. If it was not enabled before,
  that can put two conflicting listeners into the store (`internal/admin/local_service.go:127-141`;
  `ListenerLimits.DisableLocalSafeIff`, `ListenerLimits.DisableLocalCanConflict`).
- The store normalises bind hosts and route paths once more than admission does, and neither normal form is
  idempotent (`internal/domain/proxy_entry.go:119-128`, `internal/domain/types.go:419-428`,
  `internal/store/sqlite/sqlite.go:761-794`). A host is settled exactly when, inside its outer brackets, it is empty,
  an address, or has nothing more to trim (`Hosts.SettledHostIff`); a path exactly when its normal form does not end in
  space (`Paths.RoutePrefixSettledIff`). The user API refuses every unsettled host; the local API does not look, and no
  API refuses an unsettled path. So a create or an update can put a conflict into the store
  (`ListenerLimits.CreateLocalSafeIff`, `ListenerLimits.UpdateLocalSafeIff`, `RouteLimits.CreateWebSafeIff`,
  `RouteLimits.UpdateWebSafeIff`, each with a failing input beside it, and the two lemmas on every store).
- A legacy create makes a domain for a host that has none, and admission does not look at that domain
  (`RouteLimits.CreateLegacySafeIff`).
- When listeners fail to follow, the store comes back to what it was only after a create, an update of a row in
  its stored form, enabling a disabled proxy, disabling an enabled local proxy, or disabling a user proxy that already
  was (`ProxyServices.UndoRestoresStoreIff`).
- With the origin CA window switched off, an origin CA certificate inside the renewal window is due, but the store's
  query does not select it (`Lifecycle.QueryFindsDueIff`).
- Without fresh session ids the session index breaks in exactly one case (`SessionRuns.RegisterKeepsIndexIff`).
- Rewriting a path there and back is not always the identity (`Paths.RewriteRoundTripIff`).

## Model

| member | source | states |
|---|---|---|
| MuxDelivery.StepKeepsInv | internal/control/mux.go:68-217 | every enabled step of either side, at any point of a race, keeps the invariant: table and index, calls and reader in progress, wire order, and what each stream received against what was sent |
| MuxTheorems.ReachableInv | internal/control/mux.go:40-44 | every state reached from two fresh endpoints by any interleaving satisfies the invariant |
| MuxTheorems.ReadsArePrefixOfWrites | internal/control/mux.go:219-279 | what was read from a stream, then its read buffer, then its queue, is a prefix of the bytes the peer put on the wire for that same stream, in every reachable state |
| MuxTheorems.LiveStreamsLoseNothing | internal/control/mux.go:112-132 | for a stream in the table and not finished, everything received for it is read, buffered, queued or in the read loop's hands: nothing is lost or crosses streams |
| MuxTheorems.DropsAreForGood | internal/control/mux.go:257-265 | once a payload for a stream has been dropped, that stream receives nothing more in any continuation of the run |
| MuxTheorems.NoInvalidOrDuplicateReset | internal/control/mux.go:134-160 | two muxes started at 1 and 2 never decide on or send an "invalid stream id" or "duplicate stream id" reset, in any interleaving before ids wrap |
| MuxDelivery.OpenIsFresh | internal/control/mux.go:134-151 | an open frame about to be taken names a stream its receiver has never had, so the new entry replaces nothing |
| MuxTheorems.TableBounds | internal/control/mux.go:81-87 | an open mux always keeps stream 0 and at most 256 streams, and ids of its own parity are ones its allocator passed; a closed one keeps none |
| MuxTheorems.AfterCloseAllEveryStreamIsFinished | internal/control/mux.go:200-217 | after closeAll every stream ever returned by OpenStream or AcceptStream, or still queued for accept, is finished |
| MuxTheorems.CloseIsForGood | internal/control/mux.go:200-213 | a closed mux stays closed with an empty table through every later step |
| MuxEnds.TakenEndsTakeEffect | internal/control/mux.go:126-129 | in every reachable state, once a close or reset frame has been taken its stream is finished or out of the table unless the read loop is just about to finish it, and out of the table unless it is stream 0 or the loop is still ending it |
| MuxEnds.NoStreamLingers | internal/control/mux.go:81-93 | every stream in the table but stream 0 is held by a caller, queued, being opened or being offered, and a finished one is about to be removed: failed opens and ended streams leave no entry behind |
| MuxEnds.OpenedStreamsAreAnswered | internal/control/mux.go:150-159 | every stream of the peer that was taken in has been accepted, is queued or on its way there, or is refused with a reset, unless the mux closes or the connection dies |
| MuxEnds.OpenFrameIsTakenIn | internal/control/mux.go:139-151 | an open frame taken with the mux open and room in the table brings a new, empty stream into the table, about to be offered |
| MuxEnds.OfferedStreamIsQueued | internal/control/mux.go:152-159 | with room in the queue the offered stream goes to its end, and nothing else can happen to it |
| MuxEnds.CloseTakesEffect | internal/control/mux.go:250-255 | once Close has been called on a stream and no such call is in flight, the stream is finished and out of the table, and a close frame has gone out unless the mux closed or the connection died |
| MuxEnds.CallsNeverStick | internal/control/mux.go:68-94 | in every reachable state each call in flight can take its next step |
| MuxEnds.OnlyFullQueuesBlock | internal/control/mux.go:257-265 | the read loop is held up only by a full queue of an unfinished stream |
| MuxExchange.EveryMessageCanArrive | internal/control/mux.go:50-140 | for every message there is a run in which it is written to a new stream, read whole at the other side, and the stream closed and gone from both tables with no call left |
| MuxExchange.DeliveredCanBeRead | internal/control/mux.go:219-231 | from every reachable state a caller that holds a stream can read all that was delivered to it |
| MuxExchange.CanShutDown | internal/control/mux.go:200-217 | from every reachable state either side can be closed with every stream it had finished |
| MuxTurn.TurnOpens | internal/control/mux.go:134-160 | the protocol's steps for an open frame, run without interference, come to what HandleOpen does |
| MuxTurn.TurnDelivers | internal/control/mux.go:122-125 | the same for a data frame, and the loop is held up exactly by the full queue of a live stream |
| MuxTurn.TurnEnds | internal/control/mux.go:126-129 | the same for a close or reset frame |
| MuxTurn.OpenComesTo | internal/control/mux.go:89-93 | past the reservation, OpenStream sends its frame and hands out the stream, or takes the stream out again |
| MuxTurn.WriteComesTo | internal/control/mux.go:233-248 | a Write run without interference puts all its chunks on the wire, or none on a finished stream, closed mux or dead connection |
| MuxTurn.CloseComesTo | internal/control/mux.go:250-255 | a Close run without interference finishes and removes the stream, and sends its frame if it can |
| MuxTurn.OpenIsAnswered | internal/control/mux.go:134-160 | what an open frame of any peer does: refused for an id not the peer's, nothing with the table full, refused for an id in use, queued with room, refused for a full queue |
| MuxTurn.AnyPeerIsContained | internal/control/mux.go:112-160 | whatever frames a peer sends in whatever order, taken one turn after another, the mux stays within its limits, no stream of this side's appears or is replaced, and one that lives has got exactly the data for it |
| MuxAccept.AcceptsInOpenOrder | internal/control/mux.go:96-105 | streams are accepted, and queued, in the order the peer opened them, each at most as often as it was opened |
| MuxWrites.WireCarriesWhatWasAsked | internal/control/mux.go:233-248 | when writes on a stream do not overlap, the wire carries a prefix of the data passed to Write, and all of it when no write is in flight and nothing is closed or dead |
| MuxDatagrams.DatagramsArriveInOrder | internal/control/protocol.go:207-240 | when the calls of Write on a stream are, so far, the two writes for each of a sequence of datagrams, without overlap, the other end reads, through any chunking and any cut, the first few of them with boundaries intact, and all of them once all bytes are read |
| MuxDatagrams.RunAsks | internal/control/mux.go:233-248 | what a run has asked to be written on a stream is exactly the arguments of its calls of Write, in order |
| MuxDatagrams.ConnectionIsFifo | internal/control/protocol.go:154-205 | given an encoding that decodes back, frames read from any prefix of the connection's bytes are the first few written, and all of them from all the bytes |
| MuxDatagrams.WireFramesAreWritable | internal/control/protocol.go:154-160 | every frame of a reachable state passes the checks of WriteMuxFrame, and data frames are not empty |
| Framing.RoundTrip | internal/control/protocol.go:207-240 | any sequence of payloads of 1 byte to 1 MiB reads back exactly, every byte used, ending in end of file |
| Framing.ParseTruncated | internal/control/protocol.go:223-240 | any truncation yields exactly the frames it left whole, then end of file or unexpected end of file |
| Framing.LengthRoundTrip | internal/control/protocol.go:214-228 | the four big-endian length bytes give back the length |
| Framing.LengthIsBigEndian | internal/control/protocol.go:214-228 | the most significant length byte comes first: the length bytes are in dictionary order of the lengths |
| Framing.ParseIff | internal/control/protocol.go:223-240 | what reads as a frame is exactly what was written as one; the empty frame, the too long one and end of file are told apart exactly |
| Framing.ReadFull | internal/control/protocol.go:223-227 | however few bytes each read returns: exactly the bytes asked for, or the error that tells whether any came |
| Framing.ReadDatagramFrame | internal/control/protocol.go:223-240 | the loop over a reader computes Parse, every error case included, and leaves the reader after the frame |
| Framing.WriteDatagramFrame | internal/control/protocol.go:207-221 | refuses exactly the empty and the too large payload and writes nothing then; otherwise writes as much of the encoding as the writer has room for, and succeeds exactly when that is all |
| Framing.WriteDatagrams | internal/control/protocol.go:207-221 | what is written is as much of the encoding of all as the writer has room for, success is exactly all of it, and the count is of the frames that are whole |
| Framing.ReadDatagrams | internal/control/protocol.go:223-240 | reading to the first error gives what ParseAll gives |
| Mux.FirstFreeFound | internal/control/mux.go:162-170 | under 64-bit wrap-around the allocator's walk ends after at most one try per stream in use, on an unused id of the same parity, and skips only ids in use |
| Mux.TcpTlsMux.NextAvailableStreamId | internal/control/mux.go:162-170 | the loop terminates and returns that id, nonzero and unused, and moves nextID past it |
| Mux.MuxStream.Read | internal/control/mux.go:219-231 | reading moves bytes from queue to buffer to caller without changing their sequence; when there is data for the caller, when the end, when it blocks; a short read empties the buffer |
| Mux.MuxStream.Deliver | internal/control/mux.go:257-265 | a payload is queued exactly when the stream is open and has room, dropped exactly when it is finished, and waits otherwise |
| Mux.TcpTlsMux.constructor | internal/control/mux.go:40-44 | a new mux has stream 0 only and the parity of its first id |
| Mux.TcpTlsMux.Start | internal/control/mux.go:50-60 | starts once, and never a closed mux |
| Mux.TcpTlsMux.ReserveStream | internal/control/mux.go:76-88 | the part of OpenStream under the lock: closed, full, or one new stream under the first free id |
| Mux.TcpTlsMux.OpenStream | internal/control/mux.go:68-94 | which of the four outcomes, from the mux, the table and the connection; opened with exactly one open frame sent, or the table is as it was, with the id used up when the write failed |
| Mux.TcpTlsMux.AcceptStream | internal/control/mux.go:96-105 | takes the oldest queued stream, exactly when there is one and the end is not taken instead |
| Mux.TcpTlsMux.HandleOpen | internal/control/mux.go:134-160 | which of the six outcomes an open frame has, the table and queue after it, and that a rejection sends its reset exactly when the mux is open and the connection takes it |
| Mux.TcpTlsMux.SendFrame | internal/control/mux.go:187-198 | a frame goes out exactly when the mux is open and the connection takes it |
| Mux.TcpTlsMux.DeliverTo | internal/control/mux.go:122-125 | a data frame changes only the stream it names, if that is in the table |
| Mux.TcpTlsMux.HandleFrame | internal/control/mux.go:112-132 | one turn of the read loop: what each kind of frame makes of the mux, and when it blocks |
| Mux.TcpTlsMux.FinishAndRemove | internal/control/mux.go:267-279 | the stream is finished and leaves the table, unless it is stream 0 |
| Mux.TcpTlsMux.CloseStream | internal/control/mux.go:250-255 | the same, with a close frame sent exactly when the mux is open and the connection takes it |
| Mux.TcpTlsMux.CloseAll | internal/control/mux.go:200-217 | finishes exactly the streams that were in the table and empties it |
| Mux.TcpTlsMux.WriteStream | internal/control/mux.go:233-248 | for every point of failure, what was sent is exactly the chunks of 1 to 32768 bytes that fit before the connection fails and before the stream or mux is closed, n is their bytes, and the write succeeds exactly when that is all of them |
| Sessions.Manager.Register | internal/session/manager.go:86-131 | each invalid input is refused without change; otherwise both maps and both results are those of AfterRegister |
| Sessions.Manager.Heartbeat | internal/session/manager.go:133-149 | updates exactly the named session, only if it is active |
| Sessions.Manager.Close | internal/session/manager.go:151-172 | the new state and whether the client's latest session ended |
| Sessions.Manager.Latest | internal/session/manager.go:174-184 | the session the index names for a client, or none |
| Sessions.Manager.SnapshotLatest | internal/session/manager.go:186-198 | the active sessions the index names, each client's once, in some order |
| Sessions.Manager.MarkExpired | internal/session/manager.go:200-221 | the loop that mutates the map closes and returns exactly the sessions overdue at its start, each once |
| SessionRuns.IndexIsExact | internal/session/manager.go:86-198 | over every run with fresh ids the index names id for c exactly when that session belongs to c and is active; it has the greatest generation of c's sessions; the snapshot is exactly the active sessions |
| SessionRuns.EndedAtMostOnce | internal/session/manager.go:100-172 | being returned as replaced, closed with true, or expired happens at most once per session and exactly once if it has ended; registrations = active + replaced + closed |
| SessionRuns.EndedRecordsAreFrozen | internal/session/manager.go:133-221 | an ended record never changes again |
| SessionRuns.RecordsFollowEvents | internal/session/manager.go:86-221 | over every run the registry is what the events alone say, told without it: which registrations were taken, each session's data, its last heartbeat before it ended and what that carried, when it ended and whether replaced or closed; the index names exactly the sessions that have not ended |
| SessionRuns.ExpiryFollowsEvents | internal/session/manager.go:200-221 | after any run, expiry ends a session that has not ended exactly when it is not persistent and its registration or last accepted heartbeat is more than the timeout ago, and reports it once |
| SessionRuns.ExpiryIsExact | internal/session/manager.go:200-221 | expiry closes exactly the active, non-persistent, overdue sessions, leaves every other record and index entry alone, and leaves nothing overdue |
| SessionRuns.RegisterKeepsIndexIff | internal/session/manager.go:119-129 | with a reused id the index survives exactly when the id is not that of another client's active session |
| Hosts.SettledHostIff | internal/domain/proxy_entry.go:119-128 | normalising a bind host twice is normalising it once exactly when, inside its outer brackets, it is empty, an address, or has nothing more to trim |
| Hosts.SameHostIff | internal/domain/proxy_entry.go:119-128 | two bind hosts normalise alike exactly when, inside their brackets, both are empty, both are the same address, or both are names that differ in case at most |
| Hosts.WildcardIff | internal/domain/proxy_entry.go:168-175 | a host is a wildcard exactly when, inside its brackets, it is empty or an unspecified address |
| Hosts.AcceptedHostsIff | internal/domain/proxy_entry.go:134-150 | a bind host is accepted exactly when it is blank, or has no slash and is an address or a hostname inside its brackets |
| Hosts.ValidHostnameIff | internal/domain/types.go:758-778 | a hostname is at most 253 characters of valid labels joined by dots |
| Hosts.AcceptedHostsAreSettled | internal/domain/proxy_entry.go:119-150 | a bind host the user API accepts is normalised by one pass |
| Hosts.NestedBracketsAreNotSettled | internal/domain/proxy_entry.go:119-128 | a host with two pairs of brackets is not |
| Listeners.LeftOutIsDefault | internal/domain/proxy_entry.go:36-85 | a host or HTTP port left out is the same as the default written out; a TCP or UDP proxy has an entry exactly with a port in range, web and forward proxies never |
| Listeners.LeftOutIsDefaultForDomains | internal/domain/proxy_entry.go:87-117 | the same for domain entries |
| Listeners.EntryIsAsGiven | internal/domain/proxy_entry.go:36-85 | an entry is on the protocol and network of its proxy's type, on the host and port given where they are, and routes by its host for HTTP and HTTPS only |
| Listeners.DomainEntryIsAsGiven | internal/domain/proxy_entry.go:87-117 | a secure domain entry is on HTTPS and another on HTTP, on the host and port given where they are |
| Listeners.ConflictsAreOverlaps | internal/domain/listener.go:24-74 | claims conflict exactly when some address, on the same network and port, would be answered by both, unless both are HTTP or both HTTPS; a host answers every address when it is empty or an unspecified address, and else the one it names |
| Listeners.UnspecifiedTakesThePort | internal/domain/listener.go:66-70 | a TCP or UDP claim without an address, or on an unspecified one, conflicts with every claim on its network and port |
| Listeners.FindListenerConflict | internal/domain/listener.go:45-52 | finds a conflicting claim of the list, or there is none |
| Admission.ActiveListenerClaims | internal/admin/proxy_admission_policy.go:73-90 | the claims collected are exactly the static ones and those of enabled proxies other than the ignored one |
| Admission.FindActiveWebRouteConflict | internal/admin/proxy_admission_policy.go:125-136 | finds an enabled web proxy of the domain with the same prefix, or there is none |
| Admission.EnsureAdmission | internal/admin/proxy_admission_policy.go:20-71 | passes exactly the proxies whose claim, or route, is free in the store, and otherwise names a real conflict |
| ProxyWrites.OpChangesOnlyItsRow | internal/admin/proxy_service.go:143-146 | whatever fails, an operation changes no row but its own, and the user API changes no server-local row, nor the local API a user's |
| ProxyWrites.SuccessIsDone | internal/admin/proxy_service.go:265-306 | an operation that goes through has done what it says: an enabled row with what was given, under the right owner; an update that holds what was given and keeps id, owner, type and status; the new status; or no row |
| ProxyAnswers.ListenerCreateIff | internal/admin/proxy_service.go:15-75 | a new TCP or UDP proxy goes through exactly when its id is new, the API may have it, host and port are taken, and enabling it makes no listener conflict |
| ProxyAnswers.ListenerUpdateIff | internal/admin/proxy_service.go:132-275 | a TCP or UDP proxy is updated exactly when the API may have it, the new host and port are taken, and putting them into the row makes no listener conflict |
| ProxyAnswers.WebCreateIff | internal/admin/proxy_service.go:90-131 | a new web proxy goes through exactly when its id is new, it is a user's, it names a domain and an acceptable path, and no enabled proxy of the domain has that path |
| ProxyAnswers.DisableThenEnable | internal/admin/proxy_service.go:276-331 | disabling an enabled proxy and enabling it again always goes through and gives the store back as it was |
| ProxyAnswers.CreateThenRemove | internal/admin/proxy_service.go:309-358 | creating a proxy, disabling it and deleting it always goes through and gives the store back as it was |
| ProxyAnswers.OnlyOwnDisabledAreDeleted | internal/admin/proxy_service.go:333-358 | a proxy is deleted exactly when it is disabled and the API may have it |
| ProxyWrites.OpKeepsRowsOk | internal/store/sqlite/sqlite.go:658-794 | whatever fails, every row keeps its own id and a current type, and server-local rows stay TCP or UDP |
| ListenerSafety.PutIsSafeIff | internal/domain/listener.go:45-52 | writing one row leaves listeners free of conflict exactly when its claim was free |
| ListenerSafety.CreateKeepsListeners | internal/admin/proxy_service.go:58-73 | creating through either API, with any failure at any stage and its undo, leaves no listener conflict; through the local API the host must be settled |
| ListenerSafety.UpdateKeepsListeners | internal/admin/proxy_service.go:244-272 | the same for updates, undone or not |
| ListenerSafety.EnableKeepsListeners | internal/admin/proxy_service.go:276-307 | the same for enabling, with nothing asked of the caller |
| ListenerSafety.DisableKeepsListeners | internal/admin/local_service.go:127-141 | the same for disabling; only a local disable that is written, fails to reconcile and is undone must have been of a proxy that was enabled or could be |
| ListenerSafety.RunsHaveNoListenerConflict | internal/admin/proxy_admission_policy.go:20-90 | after every sequential run of creates, updates, enables, disables and deletes, with any failures and undos, no enabled TCP or UDP proxy conflicts with another or with a static claim; care is asked through the local API only |
| ListenerSafety.UserRunsNeedNoCare | internal/admin/proxy_service.go:15-358 | a run through the user API alone needs no care at all |
| RouteSafety.PutIsSafeIff | internal/admin/proxy_admission_policy.go:125-136 | writing one row keeps the routes of a domain distinct exactly when its route was free |
| RouteSafety.OpKeepsRoutes | internal/admin/proxy_service.go:90-274 | every operation, with any failure and undo, keeps routes distinct if a web path settles at once and a domain made for a legacy proxy gets an unused id |
| RouteSafety.RunsHaveNoRouteConflict | internal/admin/proxy_admission_policy.go:125-136 | after every such run no two enabled web proxies of a domain share a prefix |
| ListenerLimits.OthersAreSafe | internal/admin/proxy_service.go:15-358 | whatever the user API does, and enabling and deleting through either API, is safe under every failure |
| ListenerLimits.EnableIffNoConflict | internal/admin/proxy_service.go:294-298 | a TCP or UDP proxy is enabled exactly when that leaves listeners free of conflict |
| ListenerLimits.DisableLocalSafeIff | internal/admin/local_service.go:127-141 | disabling a local proxy is safe under every failure exactly when it was enabled or would be admitted |
| ListenerLimits.DisableLocalCanConflict | internal/admin/local_service.go:127-141 | two local proxies on one port, one disabled: a failed disable enables both |
| ListenerLimits.CreateLocalSafeIff | internal/admin/local_service.go:44-66 | creating a local proxy that passes every check is safe under every failure exactly when its row, normalised once more, would be admitted too; a plain host sees to that |
| ListenerLimits.CreateLocalSafeEverywhereIff | internal/admin/local_service.go:44-66 | a local record is safe to create in every store that admits it exactly when normalising its host once more does not move its claim, or the claim is for every address |
| ListenerLimits.CreateLocalCanConflict | internal/admin/local_service.go:161-182 | three pairs of brackets around 127.0.0.1 are admitted beside 127.0.0.1, and the row conflicts with it |
| ListenerLimits.UpdateLocalSafeIff | internal/admin/local_service.go:68-103 | updating a local proxy in a way that passes every check is safe exactly when its new row, and the row an undo writes, would be admitted too; a plain host and a row in its stored form see to that |
| ListenerLimits.UpdateLocalCanConflict | internal/admin/local_service.go:68-103 | the same three pairs of brackets by an update from port 8081 to 8080 |
| RouteLimits.OthersAreSafe | internal/admin/proxy_service.go:276-358 | enabling, disabling and deleting keep routes distinct under every failure |
| RouteLimits.EnableIffNoConflict | internal/admin/proxy_service.go:294-298 | a web proxy is enabled exactly when that keeps routes distinct |
| RouteLimits.CreateWebSafeIff | internal/store/sqlite/sqlite.go:761-794 | creating a web proxy that passes every check keeps routes distinct exactly when the path normalised once more is free; a plain path sees to that |
| RouteLimits.CreateWebSafeEverywhereIff | internal/admin/proxy_service.go:101-123 | a web record is safe to create in every store that admits it exactly when its normalised path does not end in space |
| RouteLimits.CreateWebCanConflict | internal/admin/proxy_service.go:101-123 | a path of slash, a, space, slash is admitted beside slash a and stored as slash a |
| RouteLimits.UpdateWebSafeIff | internal/admin/proxy_service.go:158-272 | updating a web proxy in a way that passes every check keeps routes distinct exactly when its new row, and the row an undo writes, have a free route; settled paths see to that |
| RouteLimits.UpdateWebCanConflict | internal/admin/proxy_service.go:171-180 | the same path by an update |
| RouteLimits.CreateLegacySafeIff | internal/store/sqlite/sqlite.go:683-760 | a legacy create keeps routes distinct exactly when its host has a domain already, or nothing enabled stands at "/" of the domain made for it |
| Reconciler.DesiredProxyListeners | internal/daemon/proxy_listeners.go:153-222 | succeeds exactly when every enabled proxy and entry that must have a listener has one, and then holds exactly the keys of the defaults, proxies and domain entries, each with the number of those asking for it |
| Reconciler.DesiredAreWanted | internal/daemon/proxy_listeners.go:166-196 | the desired keys depend on the store, not on the order it lists proxies in |
| Reconciler.EnabledProxyIsServed | internal/daemon/proxy_listeners.go:170-196 | every enabled TCP or UDP proxy with a port has the listener for its host and port among the desired ones |
| Reconciler.EnabledEntryIsServed | internal/daemon/proxy_listeners.go:201-220 | every enabled domain entry on a host and port of its own has its listener among the desired ones, HTTPS for a secure one |
| Reconciler.ServedOnlyIfAsked | internal/daemon/proxy_listeners.go:153-226 | nothing is desired without an enabled proxy of that type on that port, an enabled domain entry of that kind, or its being a default |
| Reconciler.DefaultsAreServed | internal/daemon/proxy_listeners.go:160-165 | the default listeners are always desired, HTTPS if it is switched on |
| Reconciler.ReconcileFailsIff | internal/daemon/proxy_listeners.go:178-210 | the listeners cannot be worked out exactly when an enabled proxy is neither a web proxy nor TCP or UDP with a port, or an enabled domain entry names a port that is none |
| Reconciler.OneProxyPerListener | internal/daemon/proxy_listeners.go:170-196 | in a store free of conflicts every desired TCP or UDP key counts exactly one proxy, and one proxy asks for it |
| Reconciler.RunsShareNoListener | internal/daemon/proxy_listeners.go:170-196 | the same after every sequential run of the services |
| ListenerRuntime.StartMissing | internal/daemon/proxy_listeners.go:75-106 | starting loses no running listener and adds only wanted ones, freshly opened; it succeeds exactly when the system refuses none that is missing, and then has all that are wanted |
| ListenerRuntime.StopObsolete | internal/daemon/proxy_listeners.go:108-147 | stopping removes only listeners that are not wanted, closing each; it succeeds exactly when none of them is stuck, and then has no other |
| ListenerRuntime.ServerRuntime.ReconcileProxyListeners | internal/daemon/proxy_listeners.go:64-151 | the outcome follows from the store, the running listeners and what the system makes of sockets; success leaves exactly the wanted keys with the already running ones as the same, untouched objects; until every missing listener has started nothing is closed; every failure case |
| ListenerRuntime.RepeatChangesNothing | internal/daemon/proxy_listeners.go:64-151 | reconciling registries that already hold the wanted keys leaves them as they are, whatever the outcome |
| ListenerRuntime.RepeatSucceeds | internal/daemon/proxy_listeners.go:64-151 | reconciling what is in sync cannot fail, whatever the system refuses |
| ListenerRuntime.UndoRestoresListeners | internal/admin/proxy_service.go:66-73 | a failed start followed by a successful reconcile to what ran before leaves exactly the listeners that ran before, as the same objects |
| ProxyServices.ProxyService.Commit | internal/admin/proxy_service.go:66-73 | write, reconcile, undo write, second reconcile: each is taken or fails as the world has it, the store and the listeners after each, and when the listeners are back as they were |
| ProxyServices.ProxyService.CheckCreate | internal/admin/proxy_service.go:58-66 | the checks before a create pass exactly when the specification writes, and give the row it writes |
| ProxyServices.ProxyService.CheckUpdate | internal/admin/proxy_service.go:139-265 | the same for an update, with the row its undo writes |
| ProxyServices.ProxyService.CheckEnable | internal/admin/proxy_service.go:283-298 | the same for enabling |
| ProxyServices.ProxyService.CreateProxy | internal/admin/proxy_service.go:15-88 | the object's store and listeners go through the plan of the specification as the world has it, its domain entries grow by the one a legacy create makes; a failure with a store that takes the undo leaves the store as it was |
| ProxyServices.ProxyService.UpdateProxy | internal/admin/proxy_service.go:132-274 | the same for updates |
| ProxyServices.ProxyService.EnableProxy | internal/admin/proxy_service.go:276-307 | the same for enabling |
| ProxyServices.ProxyService.DisableProxy | internal/admin/proxy_service.go:309-331 | the same for disabling, with the undo of the local API and without one for the user API |
| ProxyServices.ProxyService.DeleteProxy | internal/admin/proxy_service.go:333-358 | the same for deleting, which only a disabled proxy allows and nothing undoes |
| ProxyServices.UndoRestoresStoreIff | internal/admin/local_service.go:60-64 | after a failed reconcile and a successful undo the store is what it was exactly for creates, updates of a row in its stored form, enabling a disabled proxy, disabling an enabled local proxy, and disabling a user proxy that already was |
| WebRoutes.SelectWebProxy | internal/domain/types.go:448-461 | the proxy chosen is enabled, matches, and has a longest prefix; none only if none matches |
| WebRoutes.SelectionIsMostSpecific | internal/domain/types.go:448-461 | something is selected whenever an enabled web proxy matches, and its prefix starts with that of every other that does |
| WebRoutes.SelectionIgnoresOrder | internal/domain/types.go:444-461 | with distinct prefixes there is one answer for every order of the list, and one exactly when some enabled web proxy matches |
| WebRoutes.MatchingPrefixesAreNested | internal/domain/types.go:444-446 | two prefixes that match a path and are equally long are the same |
| Paths.MatchesBySegments | internal/domain/types.go:444-446 | a prefix other than "/" matches a path exactly when its segments begin those of the path |
| Paths.NormalIsCanonical | internal/domain/types.go:419-428 | a normalised prefix is "/" or starts with "/" and does not end with one, and loses at most one slash |
| Paths.NormalFormIs | internal/domain/types.go:419-428 | a path is accepted exactly when, trimmed, it starts with "/", holds none of ? # % backslash NUL and no two slashes together; its normal form is the trimmed path without a last slash |
| Paths.RoutePrefixSettledIff | internal/domain/types.go:419-428 | normalising twice is normalising once exactly when the result does not end in space |
| Paths.RewrittenPathMatches | internal/domain/types.go:471-483 | a path moved from prefix A to B matches B |
| Paths.RewriteKeepsRest | internal/domain/types.go:471-483 | without stripping the path is unchanged; with it, what follows the prefix is kept and the prefix exchanged |
| Paths.UpstreamIsCanonical | internal/domain/types.go:430-442 | an upstream prefix is taken exactly when it is left out, which means "/", or acceptable as a route, and is then the same |
| Paths.ConfiguredPathMatches | internal/domain/types.go:430-442 | whatever route and upstream a proxy was given, once normalised, a matching request goes upstream under the upstream's prefix |
| Paths.RewriteRoundTripIff | internal/domain/types.go:471-483 | moving a path from A to B and back gives it again exactly when the remainder has the stated form; for A and B other than "/" that is: it does not begin with "//" |
| Addresses.AddressMeaning | internal/localproxy/policy.go:136-141 | the prefix kept for a written address covers exactly that address of the 128-bit space, IPv4-mapped addresses included |
| Addresses.PrefixKept | internal/localproxy/policy.go:142-154 | a prefix is refused exactly when it is a mapped one shorter than 96 bits; what is kept is valid and masked |
| Addresses.PrefixMeaning | internal/localproxy/policy.go:146-154 | the test on the kept prefix accepts exactly the addresses that agree with the written prefix on its bits of the 128-bit space, IPv4 and IPv6 kept apart |
| Addresses.KeptIsKept | internal/localproxy/policy.go:136-155 | a kept prefix is kept as it is: masking makes no IPv6 address a mapped one |
| Allowlist.NormalizeEntries | internal/localproxy/policy.go:106-134 | fails exactly for an empty list or a bad entry; otherwise the normal forms of all entries, each once, in order |
| Allowlist.RefusedIff | internal/localproxy/policy.go:112-121 | an entry is refused exactly when its CIDR is neither an address nor a prefix, is a mapped prefix shorter than 96 bits, or its ports are not accepted |
| Allowlist.PortsOkIff | internal/localproxy/policy.go:117-121 | ports are accepted exactly when they say "all", or cover some port and only ports from 1 to 65535 |
| Allowlist.KeyIsExact | internal/localproxy/policy.go:123-127 | two entries with the same deduplication key are the same entry |
| Allowlist.SortIsSorted | internal/localproxy/policy.go:130-132 | sorting distinct entries gives them strictly in order and loses none |
| SortKeys.LessIff | internal/localproxy/policy.go:130-132 | the order is the lexicographic one |
| Allowlist.NormalisingKeepsMeaning | internal/localproxy/policy.go:106-155 | an address and port are allowed by the normalised list exactly when some entry, as written, covers them |
| Allowlist.NormalisedIsUnique | internal/localproxy/policy.go:106-134 | the result depends on which entries there are, not on order or repetition |
| Allowlist.SnapshotIsSettled | internal/localproxy/policy.go:75-85 | normalising a snapshot gives the same snapshot |
| Allowlist.Policy.ValidateTarget | internal/localproxy/policy.go:52-73 | a target is allowed exactly when it is an address, the port is from 1 to 65535 and some stored entry covers both |
| Allowlist.Policy.Replace | internal/localproxy/policy.go:87-104 | succeeds exactly for a non-empty list of good entries that the repository takes; then the normal form is stored and in force, else nothing changes; putting a snapshot back changes nothing in force |
| Reconnect.NextIsNextWait | internal/daemon/client.go:111-120 | from one wait the next is min(initial times 2^(k+1), max) for all 64-bit 0 < initial <= max, through overflow |
| Reconnect.WaitsGrowToMax | internal/daemon/client.go:111-120 | waits never get shorter and from some wait on are the maximum |
| Reconnect.RunClient | internal/daemon/client.go:27-56 | the i-th wait is min(initial times 2^k, max), k the failures in a row since a session was established; when the loop ends and when it reports a permanent error |
| Lifecycle.NextAttemptAt | internal/certmanager/scheduler.go:43-61 | the loop computes min(60, 2^(max(n,1)-1)) minutes, and at most 5 within 24 hours of expiry |
| Lifecycle.DelayIsMonotoneAndBounded | internal/certmanager/scheduler.go:43-61 | more failures never bring the next attempt forward; it is from one minute to one hour away |
| Lifecycle.DelayDoubles | internal/certmanager/scheduler.go:43-61 | the delay starts at a minute and doubles with each failure up to an hour, and is cut to five minutes exactly in the 24 hours before expiry |
| Lifecycle.DueIffNotUsable | internal/certmanager/scheduler.go:22-41 | a certificate is due exactly when it is no longer served as usable and renewal is on for its provider |
| Lifecycle.StatusOnlyWorsens | internal/certmanager/scheduler.go:22-30 | as time goes by a certificate goes from usable to expiring soon to expired, never back; expired exactly from its expiry on |
| Lifecycle.QueryFindsDueIff | internal/certmanager/scheduler.go:68-79 | the candidate query selects exactly the due certificates if and only if the origin CA window is set or no window is |

## Left out

- MuxTheorems.NoInvalidOrDuplicateReset: runs stop before the 64-bit id counter wraps, as the property does; wrap-around itself is covered by Mux.FirstFreeFound.
- MuxTheorems.ReadsArePrefixOfWrites: that a reader gets all data before end of file, and that a blocked read loop moves on, are not claimed; the code does not promise them.
- MuxTheorems.ReadsArePrefixOfWrites: one reader per stream; two concurrent calls of Read may both find the buffer empty and one then overwrite what the other took, so the test and the receive are one step here.
- MuxTheorems.LiveStreamsLoseNothing: one reader per stream, for the same reason.
- MuxDatagrams.DatagramsArriveInOrder: a caller whose write failed and who goes on writing other datagrams to the same stream is outside the hypothesis.
- MuxDatagrams.ConnectionIsFifo: the protobuf encoding of a mux frame body is a pair of functions with a decode-after-encode law; a decoded frame without a type is a body that does not decode.
- MuxProtocol: closing the readDone channel and setting closed in `finish` are one step, and so is one whole frame write; a failed connection write is a dead connection.
- MuxProtocol: the contexts of AcceptStream and of waiting for start add only ways to give up before anything happens.
- Mux: the classes run one method at a time; where the code would block, the method says so, and what others do meanwhile is in MuxProtocol.
- Mux.TcpTlsMux.WriteStream: another goroutine finishing the stream or closing the mux is a chunk number before which it happens; the connection takes a given number of frames and fails from then on.
- Mux: the goroutine of `readLoop` and the closing of the connection under it; one turn of the loop is a method.
- SessionRuns.IndexIsExact: session ids are fresh, as drawn at random; the generation counter is unbounded, not 64-bit.
- Sessions: stream openers are opaque numbers, and the clock is a parameter.
- Hosts: `net.ParseIP` and address texts are functions with the laws in Hosts.Lawful; lower case is ASCII only.
- ListenerSafety.RunsHaveNoListenerConflict: through the local API hosts must be settled, and an undone disable must have been admissible; without that the code fails, and ListenerLimits says exactly when for the create, the update and the disable, which are the only operations that can.
- RouteSafety.RunsHaveNoRouteConflict: web paths must settle at once and domains made for legacy proxies get unused ids; RouteLimits says exactly when the code fails without, for the create, the update and the legacy create, which are the only operations that can.
- ProxyWrites: sqlite is a map from id to row with the normalisation its writes perform; audit records, users, certificates and access tokens are left out, and their failures are part of the input check.
- ProxyServices.ProxyService.UpdateProxy: an update of a web proxy may also write its domain's host, certificate and access tokens before the reconcile, and does not undo them; no listener or route of this model depends on those, and the domain of a host is given anew to each operation.
- ProxyServices.ProxyService.CreateProxy: the domain a legacy create makes is known by its id and whether it is enabled only.
- ProxyServices.ProxyService.CheckUpdate: the second, identical admission check of a non-web update is made once.
- ProxyServices: each service call runs alone; concurrent admin calls are not claimed to be safe, as admission and write are not under one lock.
- ListenerRuntime: the four registries are one field holding four maps; the derived lists of listeners and the serving goroutines are left out.
- ListenerRuntime: which sockets the system opens and closes is an input to each reconcile; a socket that will not close is open or closed then.
- ListenerRuntime: start-up with port 0, where the key takes the port the system chose; a reconcile only starts keys with a port.
- Reconciler: a domain entry is HTTP or HTTPS, and carries whether its domain was found and enabled; a store that cannot be listed is not modelled.
- Paths.NormalizeProxyRoutePrefix: strings are sequences of characters, with Go's byte length kept where prefixes are compared (WebRoutes.ByteLen).
- Paths: RewriteWebProxyPath with strip on and both prefixes "/" drops the leading slash, as the code does; Paths.RewriteRoundTripIff counts it as not reversible.
- Allowlist: reading and writing addresses are functions with the laws in Allowlist.Lawful; `slices.SortFunc` is an insertion sort, and any other sort gives the same result by Allowlist.SortedIsUnique.
- Allowlist.Policy.Replace: whether the repository takes the entries is an input; the atomically swapped snapshot is a field.
- Reconnect: a session is its outcome; dialling, authentication and heartbeats are left out.
- Lifecycle.QueryFindsDueIff: the query's conditions on serving status and next attempt are left out.
- Protobuf messages, TLS, QUIC, ACME, Cloudflare, the admin API and UI, statistics, pagination and deployment: libraries, I/O, or easy members.
