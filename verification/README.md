# RustNps: a verified model of its tunnel core

RustNps is a reverse tunnel: a server accepts inbound connections and asks a client behind NAT to open
a data path for each one. This project models the parts of it where state is shared between threads or
where two representations must agree, and proves what they promise.

Sockets are reliable byte FIFOs that may be cut at any point. Lock-protected and atomic sections of the
program are atomic actions, and a run is any sequence of actions by any threads: an action that is not
enabled changes nothing. The one coarser grain is in `Registry`: preparing an upload, a client add or a
registration takes the ids it draws together with its look at the client map; the insertion under the
second lock is an action of its own. Protocols are transition systems on values with invariants over all runs.
Objects the program updates in place are classes whose methods are proved against functions of the old
state, and loops are loops with invariants. Time is an argument, `f64` is `real`, JSON is an opaque codec
of records, and the environment, health probes and network outcomes are parameters.

| area | modules |
|---|---|
| framing codecs, byte streams | `Frames`, `Streams` |
| multiplexer | `MuxProtocol`, `MuxHistory`, `MuxInvariant`, `MuxTheorems`, `MuxTable`, `MuxFlushFailure`, `MuxStreams` |
| link ids, pairing, connection slots | `LinkIds`, `LinkPairing`, `ConnectionSlots`, `ConnectionHandles` |
| metering | `RateLimit`, `FlowMeter` |
| registry and persistence | `Persistence`, `StartUp`, `Registry`, `RegistryContents` |
| HTTP | `HttpRelay`, `HeaderList`, `HttpHead`, `HeadRewrite`, `RewriteTwice`, `ResponseCache` |
| targets and listeners | `Health`, `RoundRobin`, `Ports`, `Listeners` |
| configuration text | `RenderEnv` |
| shared helpers | `Wrappers`, `Text`, `Sublists`, `Division` |

## What the proofs found

- A mux write whose flush fails after its frame was handed over returns an error, yet the peer may read
  its bytes (`MuxFlushFailure.ReadCanExceedAcknowledged`). `MuxTheorems.Delivery` therefore accounts for
  every byte exactly: acknowledged, failed, or still under way, and
  `MuxTheorems.ReadIsPrefixOfAcknowledged` says exactly when only acknowledged bytes were handed over.
- A failed transport wrap keeps its connection slot for good (`ConnectionSlots.WrapFailureKeepsItsSlot`);
  `ConnectionSlots.Slots` gives the exact count with that leak, and `SlotsWithoutWrapFailure` without it.
- Renaming a client while a config upload of it is between its two locks files one client id under two
  keys (`Registry.RenameDuringUploadDuplicates`). `Registry.RenameIsSafeIffQuiet` shows that this is
  exactly when it goes wrong.
- Stored clients can share an id after start-up: a record without one is numbered before later records
  are seen (`StartUp.ZeroIdClashes`), and equal ids are taken as they are (`StartUp.EqualIdsClash`).
  `StartUp.DistinctIffNoLaterClash` says for every set of files exactly when the ids are distinct.
- Flow recording is exact for every counter precisely when the cap is neither 0 nor the largest `u64`
  (`FlowMeter.ExactIffCapIsProper`); a limit in megabytes gives such a cap exactly below 2^44
  (`FlowMeter.CapIsProper`).
- The rate law needs each call to start after the previous release (`RateLimit.UnpacedCallsExceedTheRate`),
  which holding the mutex while sleeping provides.
- A failure counter that has saturated off a reporting value never reports again
  (`Health.SaturatedIsSilent`); `Health.StreakRemovesIff` is the exact condition.
- A removal report that is processed after the target has recovered leaves it removed with no failures
  (`Health.LateRemovalOutlivesRecovery`); `Health.AgreesIffInTime` is the exact condition.
- A host override with a line break inside, or an empty peer address behind an existing
  X-Forwarded-For, does not read back as the header list that was computed
  (`RewriteTwice.PlainSecondLineIsHarmless` is a failing input for every request,
  `HeadRewrite.ReparsesIffGood` the exact condition).
- Rewriting twice can differ from rewriting once even without origin headers: such an override can
  repeat a header on each rewrite (`RewriteTwice.ExtraHeaderRepeats`) or drop the headers behind it
  (`RewriteTwice.BlankLineDropsHeaders`). `RewriteTwice.RewriteIsIdempotentIff` is the exact condition.
- The port check trims a tunnel's mode and the start does not, so a mode such as "secret " is exempt from
  the check and still claims the listener key of a port outside the allow list
  (`Listeners.PaddedModeEscapesCheck`). `Ports.EscapesCheckIffSecret` shows that no other mode does.

## Model

| member | source | states |
|---|---|---|
| `MuxTheorems.Delivery` | src/mux.rs:133-163 | After every run, the bytes read on a stream are a prefix of what the peer handed over for it, which is its acknowledged bytes, then at most those of a write that failed after its last byte (only on a broken transport) or is under way; if the peer's CLOSE found the stream in the table and the reader met the end, it read all of it; at most one end marker per channel |
| `MuxTheorems.ReadIsPrefixOfAcknowledged` | src/mux.rs:221-273 | What was handed over for a stream is exactly what its writes acknowledged if and only if no write failed after its last byte or waits for its flush, as on a working transport between writes; then only acknowledged bytes are ever read |
| `MuxTheorems.EndIsFinal` | src/mux.rs:221-255 | Once a reader has met the end, no continuation of the run lets it read another byte |
| `MuxTheorems.WireDiscipline` | src/mux.rs:94-149 | After every run the wire is whole frames back to back and at most one unfinished one, decodes to exactly those frames, and each id's frames are a prefix of OPEN DATA* CLOSE (opener) or DATA* CLOSE (other side) |
| `MuxTheorems.EveryRunIsGood` | src/mux.rs:410-486 | The session invariant (channel contents, table, handles and their flags, history and wire agree on both sides) holds after every run of writers, read loops, closes, splits, drops and transport failures |
| `MuxTheorems.StepKeeps` | src/mux.rs:114-163 | Every single action of either side keeps that invariant |
| `MuxTheorems.ScanIffInOrder` | src/mux.rs:94-163 | The invariant's automaton accepts exactly the frame orders that wire discipline speaks of |
| `MuxTheorems.CloseDiscipline` | src/mux.rs:210-218 | After every run with splits and drops at any moment, a stream is held whole or as halves, at most one CLOSE of it is on the wire and nothing follows it; on a working transport there is none while a writer that has not closed is alive, and there is one once no writer is left and its close has run, unless the session was gone |
| `MuxTheorems.NoByteLost` | src/mux.rs:285-306 | After every run, every byte dispatched for a stream in the table, or ended by the peer's CLOSE, has been read, is buffered, is queued or is in the read loop's hands |
| `MuxTheorems.HandlesMoveNothing` | src/mux.rs:285-306 | Splitting and dropping the read half change nothing but who holds the stream; the write half is as closed as the whole was |
| `MuxTable.TableDiscipline` | src/mux.rs:462-480 | After every run, an id in the table has had no CLOSE from the peer; while the session is up and the owner has not closed the stream the converse holds, and a dispatched CLOSE has found it there; a stream its owner has closed is out of the table; every OPEN dispatched on a session that is up has become a stream or is just becoming one |
| `MuxTable.EndIsOwed` | src/mux.rs:155-163 | After every run, while the session exists and the owner has not closed the stream, exactly one end marker has been delivered to its channel or is still owed; after a dispatched CLOSE it is in the channel, last, or in the read loop's hands |
| `MuxTable.AttachedLosesNothing` | src/mux.rs:468-472 | While the session is up and the owner has not closed the stream, every byte dispatched for it has been read, is buffered, is queued or is in the read loop's hands |
| `MuxTable.SealedOpensNothing` | src/mux.rs:114-122 | Once a session is closing and no opening was past its check, no run opens or accepts another stream |
| `MuxTable.RunKeepsTables` | src/mux.rs:410-486 | The table invariant behind these holds after every run |
| `MuxTheorems.OpeningIsFresh` | src/mux.rs:114-131 | Between the closed check and the insert, the id has no stream here and the peer has sent no data for it |
| `MuxFlushFailure.ReadCanExceedAcknowledged` | src/mux.rs:133-149 | A concrete run after which the peer has read a byte that no successful write sent |
| `MuxStreams.ReadHalf.Read` | src/mux.rs:314-349 | A non-empty read returns pending bytes whenever there are any, zero bytes exactly at the end, and waits otherwise; empty DATA frames never look like the end |
| `MuxStreams.WriteHalf.Write` | src/mux.rs:368-384 | After the close nothing is sent or metered; before it, success means exactly one whole DATA frame |
| `MuxStreams.WriteHalf.CloseWriteOnce` | src/mux.rs:356-365 | The first call with a session sends CLOSE, whole or cut where the transport fails, and drops the table entry; any other call does nothing |
| `MuxStreams.Entire.IntoHalves` | src/mux.rs:285-306 | Splitting keeps every buffered and queued byte and both flags, and disarms the drop of the whole stream |
| `MuxStreams.Entire.SplitAndDrop` | src/mux.rs:390-408 | Over the life of a split stream, with a shutdown, both drops and the end of the husk, exactly one CLOSE is sent, or none if it was closed before |
| `Streams.SendFrame` | src/mux.rs:133-149 | An oversized or over-limit payload leaves no byte and no count; any other frame is written whole or cut where the transport fails |
| `Streams.WriteMessage` | src/protocol.rs:105-117 | Success exactly when the body fits and the transport takes all; the bytes written are a prefix of the RNP1 encoding |
| `Streams.ReadMessage` | src/protocol.rs:119-140 | For any chunking, returns the body that the codec decodes at the front and consumes exactly its encoding, and fails exactly when the codec does |
| `Streams.WriteBlob` | src/protocol.rs:142-149 | The same as for messages, without magic |
| `Streams.ReadBlob` | src/protocol.rs:151-161 | The same as for messages, without magic |
| `Frames.StreamRoundTrip` | src/mux.rs:410-446 | Decoding the concatenated encodings of any well-formed frames returns them, in all three formats |
| `Frames.CutDecodesToPrefix` | src/protocol.rs:105-161 | Decoding any cut of those bytes returns exactly the frames that lie wholly within it |
| `Frames.WholeWithinIsGreatest` | src/protocol.rs:105-161 | The number of frames in a cut is the greatest that fits |
| `Frames.DecodingIsCanonical` | src/mux.rs:410-446 | Whatever is decoded re-encodes to a prefix of the input |
| `Frames.FramesOnWireArePrefix` | src/mux.rs:410-446 | Frames read off a wire that ends in an unfinished frame are a prefix of the frames sent |
| `Frames.LittleEndianRoundTrip` | src/mux.rs:143-144 | Little-endian numbers of any width read back |
| `Frames.LittleEndianIsCanonical` | src/mux.rs:427-433 | Every byte string is the encoding of the number it reads as |
| `Frames.LittleEndianAt` | src/mux.rs:143-144 | The i-th byte of a number is its i-th digit to the base 256, the least significant first |
| `Frames.MuxLayout` | src/mux.rs:142-147 | Where kind, id, length and payload of a mux frame stand |
| `Frames.MessageLayout` | src/protocol.rs:113-116 | The bytes of a message and of a blob |
| `LinkIds.IdsAreFresh` | src/server.rs:173-190 | Under any interleaving, lost races and spurious failures included, drawn ids strictly increase and exceed every observed or issued id |
| `LinkPairing.Pairing` | src/server.rs:1898-2003 | In every run no link id is issued or claimed twice, a request only holds the stream that claimed its own id, and no stream is held by two requests |
| `LinkPairing.LateStreamIsDropped` | src/server.rs:679-691 | A stream arriving for an id that is not pending is never attached to any request, then or later |
| `LinkPairing.StreamReachesRequest` | src/server.rs:684-687 | A stream that arrives for a pending id and is forwarded reaches exactly the request that waits for that id |
| `LinkPairing.GivingUpCleansUp` | src/server.rs:1936-2001 | A request that cannot send its Open, or times out, ends with its id no longer pending and its slot given back |
| `LinkPairing.AbandonedIsDropped` | src/server.rs:685-687 | A claimed raw connection that cannot be acknowledged reaches no one |
| `LinkPairing.StepKeepsPairing` | src/server.rs:1898-2065 | Every action of requests, arrivals (raw or mux), timeouts and guards keeps the pairing invariant |
| `LinkPairing.RunKeepsPairing` | src/server.rs:2257-2265 | The pairing invariant holds after every run |
| `ConnectionSlots.Slots` | src/server.rs:2099-2137 | In every run the stored count is calls in flight plus live streams plus leaked calls, live streams never exceed it and it never exceeds max_conn; a reserved slot is released once, exactly when it is given back, also after splitting |
| `ConnectionSlots.SlotsWithoutWrapFailure` | src/server.rs:1904-2003 | If wrapping never fails, the count is calls in flight plus live streams |
| `ConnectionSlots.CountIsExactIffNothingLeaked` | src/server.rs:1970-1979 | In every run the count is calls in flight plus live streams if and only if no reserved call has failed to wrap |
| `ConnectionSlots.WrapFailureKeepsItsSlot` | src/server.rs:1970-1979 | A concrete run in which one wrap failure blocks a client limited to one connection |
| `ConnectionSlots.RunKeepsSlots` | src/server.rs:2005-2065 | The slot invariant holds after every run |
| `ConnectionHandles.HeldKeepsSlot` | src/server.rs:2005-2027 | Handles being those given out and not dropped according to the actions, a stream with a handle left has not given its slot back and counts as live |
| `ConnectionHandles.HeldIsBounded` | src/server.rs:2099-2124 | Under a limit the streams with a handle left never exceed the stored count, nor that max_conn |
| `ConnectionHandles.ReleaseNeedsBothDrops` | src/server.rs:2051-2064 | If a stream was split, its slot is given back only after both halves have been dropped |
| `ConnectionHandles.ReleaseNeedsDrop` | src/server.rs:2024-2027 | If it was not, only after it has been dropped whole |
| `ConnectionHandles.GuardReleases` | src/server.rs:2024-2027 | Once every handle is gone, running the guard leaves the slot given back |
| `ConnectionHandles.AdmittedIffFree` | src/server.rs:2099-2124 | Under a limit a call is admitted exactly when fewer than max_conn slots are held, and then takes one |
| `ConnectionHandles.UnlimitedIsAdmitted` | src/server.rs:2099-2112 | With limits off or none set every call is admitted and nothing is counted |
| `ConnectionHandles.SlotIsFreeAfterBothHalves` | src/server.rs:2051-2064 | With one slot, a second call is refused until both halves of the first connection are gone, and then admitted |
| `RateLimit.RateGovernor.PlanDelay` | src/relay.rs:425-444 | The delay is the least after which the refilled bucket covers the request; the allowance stays between 0 and the rate |
| `RateLimit.PlanIsLeast` | src/mux.rs:540-559 | The same for the specification of both governors |
| `RateLimit.WindowBound` | src/relay.rs:446-452 | Over any window of consecutive paced calls, bytes are at most rate times the time from its first request to its last release, plus one bucket |
| `RateLimit.BurstBound` | src/relay.rs:410-452 | That bound for a whole sequence of paced calls |
| `RateLimit.CallsAreCovered` | src/relay.rs:852-859 | What paced calls spend is covered by the starting allowance and the refill up to the last release |
| `RateLimit.CallsConserve` | src/relay.rs:425-444 | Over paced calls, starting allowance and refill are exactly what was let through, what is left and what overflowed, so no caller waits longer than that |
| `RateLimit.UnpacedCallsExceedTheRate` | src/mux.rs:561-566 | A concrete sequence of unpaced calls that exceeds the bound |
| `FlowMeter.FlowCounter.Record` | src/mux.rs:173-191 | A record is accepted exactly when the saturating sum is within the cap; a rejected one changes nothing |
| `FlowMeter.AcceptedIffFits` | src/mux.rs:178-187 | Under a cap below the largest u64 an amount is accepted exactly when it fits; without a cap always |
| `FlowMeter.CapHolds` | src/relay.rs:829-850 | For a proper cap, whatever any streams attempt, the total stays within it and both counters are the exact sums of what was accepted |
| `FlowMeter.ExactIffCapIsProper` | src/relay.rs:829-850 | Recording is exact for every counter and amount if and only if the cap is neither 0 nor the largest u64 |
| `FlowMeter.CapIsProper` | src/mux.rs:68-73 | Which configured limits give such a cap |
| `FlowMeter.OvershootIsOneChunkEach` | src/relay.rs:371-397 | In every run of metered connections and mux sessions, what is forwarded exceeds what is counted by at most one chunk for each connection whose writer was refused |
| `FlowMeter.ForwardedIsCapped` | src/relay.rs:161-197 | k metered connections and any mux sessions, sending and receiving, forward at most the cap plus k times 16384 bytes |
| `Persistence.SaveAll` | src/store.rs:66-116 | Saving visits every client once and yields the flattened records of that order; `SavedKeys` and `SavedChildren` say which |
| `Persistence.InstallAll` | src/server.rs:334-395 | Installing regroups the records as the specification does |
| `Persistence.SaveInstallRoundTrip` | src/server.rs:334-395 | Saving in any order and installing yields exactly the persistable projection, tunnels and hosts in their original order |
| `Persistence.ProjectionIsIdempotent` | src/store.rs:79-108 | The projection is consistent and is its own projection |
| `Persistence.SavedChildren` | src/store.rs:83-108 | Flattening loses no stored child and no order |
| `Persistence.SavedKeys` | src/store.rs:96-98 | A visited client is among the written records if and only if it is stored itself or owns a stored tunnel or host |
| `Persistence.ProjectionKeys` | src/store.rs:96-98 | A client survives if and only if it is stored itself or owns a stored tunnel or host |
| `Persistence.ProjectedClient` | src/store.rs:83-106 | What survives of it: its record, exactly the stored tunnels and hosts in their order, no health rules, no local servers |
| `Persistence.StoredArePicked` | src/store.rs:83-94 | The stored children are exactly those not marked otherwise, in order |
| `Persistence.RecordsRoundTrip` | src/store.rs:143-165 | A written file of one-line records reads back as exactly those records |
| `Persistence.WrittenText` | src/store.rs:318-328 | The text of two records |
| `Persistence.BlankHoldsNothing` | src/store.rs:147-151 | A blank file holds no records |
| `Persistence.WriteRecords` | src/store.rs:318-328 | The file text is every record followed by a newline and the separator |
| `Persistence.RestartYieldsProjection` | src/store.rs:44-116 | Through text and back, with any faithful JSON codec, a restart yields the projection |
| `StartUp.DistinctIffNoLaterClash` | src/server.rs:340-358 | For every set of files, the installed clients have distinct ids if and only if no surviving record carries a non-zero id that an earlier surviving one was given, a missing id counting as the counter at that point |
| `StartUp.SavedRecordsAreGood` | src/store.rs:79-108 | What is saved from a map with distinct ids has distinct non-zero ids again, in whatever order it is saved |
| `StartUp.ZeroIdClashes` | src/server.rs:349-357 | Two records that collide because the first has no id |
| `StartUp.ZeroIdLastDoesNotClash` | src/server.rs:349-357 | The same two in the other order do not |
| `StartUp.EqualIdsClash` | src/server.rs:349-357 | Any two records with different keys and the same id do |
| `StartUp.InstallObservesAll` | src/server.rs:340-388 | After start-up the counter is above every stored id, those of overwritten and orphaned records included |
| `StartUp.InstalledRecords` | src/server.rs:341-358 | Under each key stands its last record, with the id it was given |
| `StartUp.RecordIsFiled` | src/server.rs:342-349 | A record is filed under its vkey, else its verify_key, else dropped |
| `Persistence.OfArePicked` | src/server.rs:360-388 | The records that name a client are picked from the file in order, and all of them |
| `StartUp.TunnelsGroup` | src/server.rs:360-373 | Whatever the file holds, a client's tunnels are the records that name it, in order, numbered where they had no id |
| `StartUp.HostsGroup` | src/server.rs:375-388 | The same for hosts |
| `Registry.StartIsGoodIff` | src/server.rs:334-395 | An installed registry satisfies the invariant if and only if its client records do not clash in that sense |
| `Registry.RegistryInvariant` | src/server.rs:709-767 | From any stored state whose client records do not clash, every quiet run of uploads, adds, registrations, edits, deletes and restarts keeps each entry under its own non-empty key, its children tagged with it, and client ids unique and below the counter |
| `Registry.RestartKeeps` | src/server.rs:334-395 | A restart through the saved records keeps the entries consistent and distinct ids distinct |
| `Registry.EveryRunKeepsEntries` | src/server.rs:4071-4170 | The part about keys and children holds after every run, quiet or not |
| `Registry.StepKeeps` | src/server.rs:4301-4699 | Every single action keeps the entries consistent, and every quiet one the ids distinct |
| `Registry.QuietRunKeeps` | src/server.rs:4113-4170 | Every quiet run keeps the whole invariant |
| `Registry.LookupIsUnambiguous` | src/server.rs:4751-4755 | After a quiet run an id finds at most one client |
| `Registry.RenameIsSafeIffQuiet` | src/server.rs:734-767 | A rename leaves every pending upload harmless if and only if none of them is for that client |
| `Registry.RenameDuringUploadDuplicates` | src/server.rs:734-767 | A run from an empty registry that ends with two clients of one id |
| `Registry.PreparedIsGood` | src/server.rs:709-760 | An upload prepares a well-filed entry that takes over the id of the entry it replaces or gets a new one |
| `Registry.RenameMovesEntry` | src/server.rs:4113-4170 | A rename moves the entry, its id and every child to the new key and leaves every other entry, the counter and pending drafts alone |
| `Registry.UploadKeepsStored` | src/server.rs:734-767 | An accepted upload for a known client keeps its stored hosts and every copy its stored tunnels expand to |
| `RegistryContents.UploadContents` | src/server.rs:709-767 | For every accepted upload: the uploaded hosts in order, then the stored ones of the client it replaces; the expanded uploaded tunnels, then the expanded stored ones; nothing else; the client's own settings from the upload, apart from id and mark |
| `RegistryContents.UploadAcceptedIff` | src/server.rs:713-741 | An upload is accepted unless it has no key, fails a check or comes over a config connection the client forbids |
| `RegistryContents.ExpandedOne` | src/server.rs:795-824 | One tunnel record becomes one record per copy, in order |
| `RegistryContents.ExpandedConcat` | src/server.rs:795-824 | Expansion goes record by record, in order |
| `RegistryContents.PublishFiles` | src/server.rs:762-767 | Publishing files the draft under its key and changes no other entry |
| `RegistryContents.AddDrafts` | src/server.rs:4071-4106 | An added client is drafted empty under a free key with an id of its own, or refused |
| `RegistryContents.RegisterDrafts` | src/server.rs:3636-3658 | A registered user is drafted under a free key without config connections |
| `RegistryContents.EditInPlace` | src/server.rs:4113-4169 | An edit that keeps the key sets the form and nothing else, and touches no other entry |
| `RegistryContents.EditRefused` | src/server.rs:4117-4145 | A refused edit changes nothing |
| `RegistryContents.DeleteRemoves` | src/server.rs:4048-4058 | A delete removes the addressed entry only |
| `RegistryContents.AddTunnelAppends` | src/server.rs:4423-4474 | A new tunnel goes to the end of the addressed client's list with the drawn id and that owner |
| `RegistryContents.AddHostAppends` | src/server.rs:4615-4645 | The same for hosts |
| `RegistryContents.EditTunnelEdits` | src/server.rs:4494-4535 | An edit changes the addressed tunnel but not its id or owner, and no other |
| `RegistryContents.EditHostEdits` | src/server.rs:4670-4684 | The same for hosts |
| `RegistryContents.DropTunnelDrops` | src/server.rs:4348-4361 | A delete takes the addressed tunnel out of its list and nothing else |
| `RegistryContents.DropHostDrops` | src/server.rs:4596-4599 | The same for hosts |
| `RegistryContents.RestartProjects` | src/server.rs:334-395 | A restart leaves the persistable projection of the map and no drafts |
| `Registry.ExpandedCovers` | src/server.rs:795-824 | Every copy a tunnel expands to is among the expanded records, with the tunnel's id and owner |
| `Registry.RestartAfterAnyRun` | src/store.rs:66-116 | After any run at all, a restart through the files yields the projection of the map |
| `HttpRelay.ReadHead` | src/relay.rs:867-888 | Consumes exactly the shortest prefix ending in CRLFCRLF, and fails exactly when none lies within the limit |
| `HttpRelay.CopyOneWay` | src/relay.rs:161-197 | For any chunking the target receives exactly the source and is shut down, or receives the prefix it could take and is not |
| `HttpRelay.ServeHttp` | src/client.rs:598-657 | The target receives the PROXY header and exactly the source stream and is shut down; on failure it receives a prefix of that |
| `HeaderList.SetHeader` | src/relay.rs:1041-1050 | Overwrites the first header of that name, ignoring case, or appends one |
| `HeaderList.SameIffCaseless` | src/relay.rs:1042-1045 | Names are the same exactly when they agree letter by letter but for ASCII case |
| `HeaderList.RemoveHeader` | src/relay.rs:1059-1061 | Keeps exactly the headers of other names, in order |
| `HeaderList.GetOfSets` | src/relay.rs:1052-1057 | A lookup after any changes gives the last change of that name, or the original value |
| `HeaderList.SetsIsIdempotent` | src/relay.rs:999-1007 | Applying the same list of changes again has no effect |
| `HeaderList.RemoveOfSets` | src/relay.rs:1024-1027 | Removing a header after changes is removing it before those that do not set it |
| `HttpHead.ReparsesIffClean` | src/relay.rs:987-998 | A head reads back exactly as written if and only if its parts are trimmed, unbroken and names have no colon |
| `HttpHead.ParsedIsClean` | src/relay.rs:987-998 | Whatever is parsed is clean |
| `HttpHead.EmittedText` | src/relay.rs:1029-1038 | The text of a head with one header |
| `HeadRewrite.RewriteHead` | src/relay.rs:979-1039 | The loops compute the specified head |
| `HeadRewrite.ReparsesIffGood` | src/relay.rs:979-1039 | Reparsing the output gives exactly the computed header list if and only if the caller's settings are good |
| `HeadRewrite.RewrittenLookup` | src/relay.rs:999-1027 | The value of every header after a rewrite: close and no Proxy-Connection when forced, origin headers when asked for, then changes over host override over the request |
| `HeadRewrite.ForwardedFromRequest` | src/relay.rs:1011-1021 | The forwarded-for value from the change lines, the request's header and the address |
| `HeadRewrite.ChangesReadBack` | src/relay.rs:1004-1008 | Any clean headers written one per line are read back as exactly those changes, in order |
| `HeadRewrite.LineWithColon` | src/relay.rs:1004-1008 | A change line sets the text before its first colon to the text behind it, both trimmed |
| `HeadRewrite.LineWithoutColon` | src/relay.rs:1004-1008 | A line without a colon changes nothing |
| `HeadRewrite.NoProxyConnection` | src/relay.rs:1024-1027 | No Proxy-Connection remains anywhere in the list when closing is forced |
| `HeadRewrite.UntouchedSurvive` | src/relay.rs:1041-1061 | Headers the settings do not name keep name, value and order |
| `HeadRewrite.ComputedIsIdempotent` | src/relay.rs:999-1027 | Without origin headers, the computed list is a fixed point, whatever the settings |
| `HeadRewrite.RewriteIsIdempotent` | src/relay.rs:979-1039 | With good settings and no origin headers, rewriting a rewritten head changes nothing |
| `RewriteTwice.RewriteIsIdempotentIff` | src/relay.rs:979-1039 | Without origin headers, rewriting a rewritten head changes nothing if and only if the lines of the surviving host override beyond the first are harmless: none blank and none a header the rewrite keeps, or a blank one behind which exactly the headers that stood there are added again |
| `RewriteTwice.ReadsBack` | src/relay.rs:987-998 | What is read back of a head whose host header has any value: the headers before it, its first line, its continuation lines, and the rest unless a blank line cuts it off |
| `RewriteTwice.ExtraHeaderRepeats` | src/relay.rs:1000-1002 | For every request, an override whose second line is a header makes the second rewrite differ |
| `RewriteTwice.BlankLineDropsHeaders` | src/relay.rs:991-993 | A request for which an override with a blank line drops a header on the second rewrite |
| `RewriteTwice.PlainSecondLineIsHarmless` | src/relay.rs:994-996 | For every request, an override whose second line is no header does not read back as computed, and the second rewrite still changes nothing |
| `ResponseCache.HttpResponseCache.Insert` | src/server.rs:63-80 | The new state is the specified one |
| `ResponseCache.CacheRefinesHistory` | src/server.rs:52-81 | After any insertions with one limit the cache holds exactly the last `limit` distinct keys by latest insertion (all for 0), each with its latest value, without duplicates in the queue |
| `ResponseCache.RecentIsByLastInsertion` | src/server.rs:63-80 | The reference list holds exactly the keys ever inserted, ordered by last insertion |
| `Health.Monitor.Check` | src/client.rs:194-236 | One probe changes the two ends' view of its own target as specified and of no other; `SuccessClears`, `OnlyProbesCount` and `ServerFollows` say how |
| `Health.Monitor.Play` | src/client.rs:181-248 | Any sequence of probes and clears does |
| `Health.AgreesIffInTime` | src/server.rs:776-793 | Under any lost, late or unacknowledged reports and clears, at every moment of the run a removed target has at least max_failed failures, if and only if no removal report is processed after the target has recovered |
| `Health.RemovedMeansFailed` | src/server.rs:776-793 | In particular whenever no report is processed late |
| `Health.LateRemovalOutlivesRecovery` | src/client.rs:252-275 | A run that ends with a target removed and no failures |
| `Health.RemovedIffFailed` | src/client.rs:194-236 | Without losses, delays or clears, it is removed exactly then |
| `Health.RemovedIffLastProbesFailed` | src/client.rs:194-236 | Without losses, delays or clears, a target is removed if and only if its last max_failed probes all failed |
| `Health.CounterIsTrailing` | src/client.rs:194-236 | In such a run the counter is the number of failed probes since the last success, capped |
| `Health.SuccessClears` | src/client.rs:199-214 | A success clears the counter exactly when it is acknowledged or comes below the threshold |
| `Health.OnlyProbesCount` | src/client.rs:215-217 | A failure counts whatever becomes of its report, and nothing but a probe touches the counter |
| `Health.ServerFollows` | src/server.rs:776-793 | What reaches the server takes effect there: restores, late reports and clears |
| `Health.StreakReports` | src/client.rs:215-236 | During a streak of failures, exactly when a target is removed and what the counter is |
| `Health.StreakRemovesIff` | src/client.rs:215-236 | max_failed consecutive failures remove a target if and only if it was removed, the counter is below its last reporting value, or it saturates on one |
| `Health.StreakRemoves` | src/client.rs:215-236 | Before saturation they always do |
| `Health.SaturatedIsSilent` | src/client.rs:216-217 | For every max_failed that does not divide the largest u32, a saturated counter never reports again |
| `RoundRobin.Balancer.SelectTarget` | src/server.rs:2540-2573 | Picks the item at the cursor modulo the healthy list and stores the next cursor; picks nothing, changing nothing, exactly when the list is empty |
| `RoundRobin.Balancer.SelectMany` | src/server.rs:2540-2546 | Successive picks follow the specified sequence |
| `RoundRobin.HealthyMembers` | src/server.rs:2561-2567 | A target can be picked exactly when it is listed, non-empty and not removed |
| `RoundRobin.HealthyArePicked` | src/server.rs:2561-2567 | The list picked from is the trimmed lines in their order, less the blank and the removed ones |
| `RoundRobin.NoneIffAllRemoved` | src/server.rs:2568-2570 | Nothing can be picked exactly when every listed target is removed |
| `RoundRobin.PickIsCyclic` | src/server.rs:2571-2572 | The j-th pick from cursor c is item (c + j) mod n |
| `RoundRobin.WindowIsFair` | src/server.rs:2540-2573 | In any window of picks two positions are used equally often, up to one |
| `Ports.ExpandPorts` | src/config.rs:215-232 | The loop computes the specified list of ports |
| `Ports.ParsePortIff` | src/config.rs:219-229 | A port is digits behind at most one plus sign with a number up to 65535, and nothing else is |
| `Ports.RangeIsListed` | src/config.rs:219-226 | Two ports joined by a dash stand for all from the smaller to the greater |
| `Ports.ListsJoin` | src/config.rs:217-230 | A list made of two lists names the ports of the first, then those of the second |
| `Ports.AllowedIffListed` | src/server.rs:2232-2255 | A port is allowed if and only if the expanded list contains it |
| `Ports.ExpandTunnels` | src/server.rs:795-824 | The loops compute the specified copies |
| `Ports.ExpansionListsPort` | src/server.rs:795-824 | An expanded tunnel listens on a port its own list names, unless the list names none |
| `Ports.ExpansionFollowsList` | src/server.rs:804-821 | A tunnel that names ports expands to one copy per port, in the order of its list |
| `Ports.CopyGoesTo` | src/server.rs:810-820 | The i-th copy listens on the i-th port, says so in its remark and goes to the i-th listed target or the tunnel's own; all else is the tunnel's |
| `Ports.TargetsAreEntries` | src/config.rs:234-251 | Target entries separated by commas or line breaks stand for one target each, in order, completed by the target address or 127.0.0.1 |
| `Ports.SecretStaysWhole` | src/server.rs:798-802 | A secret or p2p tunnel is neither expanded nor checked |
| `Ports.DecimalParses` | src/config.rs:215-232 | Decimal notation parses back, for exactly the numbers that are ports |
| `Ports.WrittenPortIsListed` | src/server.rs:2180-2188 | The list written for a chosen or given port names exactly that port |
| `Ports.ListeningPortIsAllowed` | src/server.rs:2160-2178 | With an allow list, every expanded tunnel with a port that passes the check, of any mode that is not secret when trimmed, has an allowed port |
| `Ports.EscapesCheckIffSecret` | src/server.rs:2160-2178 | A port outside the allow list passes the check exactly for modes that are secret when trimmed |
| `Ports.CheckMeans` | src/server.rs:2160-2178 | With an allow list, a tunnel that is not secret passes exactly when every port it names, or its own if none, is listed |
| `Ports.EmptyListRefusesNothing` | src/server.rs:2162-2164 | An empty allow list refuses nothing |
| `Listeners.PaddedModeEscapesCheck` | src/server.rs:846-879 | Whatever port is allowed, a tunnel with mode "secret " claims the listener key of any other |
| `Ports.TrimmedMode` | src/server.rs:846-848 | A mode that is recognised at start carries no surrounding white space |
| `Listeners.OneListenerPerKey` | src/server.rs:826-932 | After any interleaving of starts, spawns and exits, the claimed keys are exactly those of live listeners and no two live listeners share one |
| `Listeners.StartClaimsIff` | src/server.rs:826-879 | A start claims a key exactly when its tunnel is active, passes the check, is not secret, has a port and no live listener has the key |
| `Listeners.NothingToClaim` | src/server.rs:827-872 | Secret, inactive and portless tunnels claim nothing |
| `Listeners.ExitFreesKey` | src/server.rs:920-931 | A listener that ends frees its key for the next start |
| `Listeners.KeyIsInjective` | src/server.rs:1123-1132 | Listening tunnels share a key only if mode, address and port agree, so no other start is refused |
| `RenderEnv.Render` | src/config.rs:320-335 | The in-place loop terminates and equals the one-pass expansion |
| `RenderEnv.RenderingFillsTemplate` | src/config.rs:320-335 | Rendering a template replaces its placeholders and nothing else, whatever the values contain |
| `RenderEnv.EveryTextIsTemplate` | src/config.rs:320-335 | Every text is such a template |

## Left out

- Sockets, threads, sleeping, KCP and tokio (src/bridge_transport.rs): byte FIFOs and explicit actions stand for them. A cut shows as end of input; the error value a reader gets is not modelled.
- TLS, snappy, certificates, md5, base64, JSON and UTF-8 conversion: wrapped streams are transparent, record texts opaque, and heads are strings of characters.
- White space is the ASCII kind; trimming of other Unicode white space is not modelled.
- The web pages, JSON rows, dashboard, captcha, SOCKS5, PROXY header contents, UDP, file serving, argument parsing and logging: they would only add easy members.
- An id is opened at most once per mux session, by either side; the server's link ids provide this and the session itself does not check it.
- The ping loop appears only as a thread that may close the session at any time; its timing is not modelled.
- The vkey carried by a raw Data connection is ignored by the program and so is absent here.
- Clients terminated by the administrator, and a max_conn that changes while connections are open, are outside the slot model.
- Overflow of the u64 id counter is assumed not to happen.
- Rounding of f64, nanosecond truncation and overflow of the configured rate are idealised away.
- Records in the older field naming and files that hold a JSON array are decoded by code that is not modelled; the global settings file is written and read on its own.
- Keys are sorted before saving; the results hold for every order, so sorting is not modelled. write_atomic is not claimed to survive a crash.
- Registry.PreparedIsGood: an upload that is refused half-way may have advanced the counter less than the model does, which only the counter shows.
- Global uniqueness of tunnel ids is not claimed, because uploads carry their own and port expansion clones them.
- Health.Monitor: a client that restarts and the probe schedule are not modelled; late reports of one kind are interchangeable.
- RoundRobin.WindowIsFair: is about positions; a target listed twice has two positions.
- Listener shutdown flags, which are kept by tunnel id, carry no clean invariant and are not modelled.
- HttpRelay.ServeHttp: models the client-to-target direction; connecting to the target and the opposite direction are not part of it.
