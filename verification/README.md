# BitTorrent over SCION: a verified model

This project models the two cores of the BitTorrent client and the wire code beneath them, and proves
properties of them in Dafny. `dafny verify dfyconfig.toml` checks everything.

**The path allocator.** A seeder divides SCION paths among its leechers. A new leecher is offered its
available paths one by one; where a path conflicts with one that a richer peer uses, it takes that path
away. Maps are ranged over in any order and the sort breaks ties in any order, so every theorem is about
every working list these allow (`IsWorkingList`).

- `Paths`: conflicts and the greedy conflict-free selection.
- `Allocator`, `Fairness`, `Refiltering`: one call of `AddPeerEntry` as a function of the store and the
  working list, what it keeps, how much it can take, whom it can rob, and why.
- `Disjointness`: exactly when a call leaves the paths of different peers disjoint, and exactly when it
  takes nothing.
- `StoreRuns`, `TestScenario`: runs of adds and drops, and one that ends with peers that are not disjoint.
- `PathSelectionStore`: the store as the program has it: a map of slices over arrays, shifted in place.
  Its methods are proved to do what `Allocator` says for some order.
- `PathServer`: the server's list of peers and the slices it caches, over runs of connects and
  disconnects. Its ghost fields record the run, so the theorems of `StoreRuns` apply to the object.

**The download protocol.**

- `Bytes`, `Bitfield`, `Message`, `Handshake`: bytes, big-endian integers, framing, bit operations. A
  connection is a pair of byte streams.
- `Torrent`: piece geometry.
- `Pipeline`: one piece's request pipeline as a function of the messages that arrive. `Tiled` holds with
  any peer, `Sound` with an honest one.
- `Attempt`, `PieceDownload`, `WorkerLoop`: a whole attempt as a function of the bytes that arrive
  (`Drive`), and the client, the piece state and a worker's loop as the program has them, updated in
  place and proved to do just that.
- `WireFormat`: all messages in plain bytes, and what each parser makes of any payload.
- `Serving`, `Session`: the seeder's message loop and both ends of the opening handshake.
- `ClosedLoop`, `WholeSession`: both programs' finished transcripts on one connection fit, byte for byte.
- `Prefixes`, `Exchange`: both programs running against each other. Bytes arrive in pieces of any size, at
  any time; what a side has written is a function of what it has read so far. The exchange never stalls
  and always gets to the finished transcripts.
- `Swarm`, `SwarmSafety`, `SwarmDelivery`, `SwarmCompletion`, `Collector`: the whole download as a
  transition system. Workers over the shared bounded queue, retries, failing connections, the collector
  and the fatal exit are steps; an interleaving is any sequence of enabled steps. Safety is proved with
  any peers, and delivery of the seeder's content with honest ones; complete runs are proved to exist,
  and exactly when all of them are genuine; and the collector's own loop is proved to compute the buffer
  of the transition system.
- `WorkerSteps`: the byte-level worker of `Attempt` and `WorkerLoop` is one of the transition system's workers.

## Assumptions

- The torrent is well formed (`WellFormed`): as many hashes as pieces, lengths below 2^32, and the
  seeder's content has the torrent's length. The program relies on this without checking it. Where the
  bitfield is sent, there are at most 2^32 - 6 pieces.
- Workers, checking or not, and the retrying end of `startDownloadWorker` may start at any step, which
  allows more runs than the program has.
- An honest peer answers pending requests, each once, in any order, with the right bytes, mixed with
  messages that answer nothing (`Honest`, `HonestWire`). Results that do not mention honesty or a seeder
  of this program hold for any peer.
- In a run, `AddPeerEntry` gets entries without used paths, as the comment at its head asks and
  `updateDisjointPathselection` makes them; results about one call allow any. The server's connects and
  disconnects are atomic. `sock.Peer.String()` is the id of the peer.
- SHA-1 is an arbitrary function (`Hash`).

## Where code and documentation differ

The model follows the code.

- The comment on `sortPeerPathEntries` says descending; the sort is ascending. The lists also start with
  as many zero entries as the store has peers.
- Peers' paths are not always disjoint. `TestScenario.TestScenario` follows the run of
  `pathselection/pathselectionstore_test.go`: in every order the first peer keeps both paths and the
  second loses one, which is not what lines 122 to 130 expect, and the second keeps a path that conflicts.
  `Disjointness.DisjointIff` says exactly when a call leaves all peers disjoint, for any newcomer, in terms
  of what each round of the loop finds; `Disjointness.HarmfulIff` says which rounds do harm;
  `Disjointness.TakesNothingIff` tells before the call whether it takes anything.
- The seeder echoes the client's handshake, reserved bits and peer id included. So the client cannot see
  that a seeder has no DHT, and sends its port whenever it uses DHT itself (`Session.OpeningAgrees`).
- `Serialize` counts in 32 bits: framing round trips exactly up to 2^32 - 6 bytes of payload.
- The seeder's loop ends on a keep-alive (`Serving.KeepAliveEndsServing`), and its session goes on after
  a failed handshake (`Session.ServesAfterFailedHandshake`).
- Workers on later connections do not check hashes. `SwarmCompletion.CompleteRunsAreGenuineIff` says
  exactly when that matters: for every torrent, all complete downloads have its hashes if and only if no
  such worker runs, or no bytes of that length could fail them.

## Model

| member | source | states |
|---|---|---|
| `Paths.ConflictIsSymmetric` | pathselection/pathselectionstore.go:36-53 | conflict is symmetric although pairs of first and pairs of last interfaces are exempt |
| `Paths.ConflictIff` | pathselection/pathselectionstore.go:36-53 | two paths conflict exactly if some pair of positions, neither both first nor both last, holds interfaces with the same IA and the same id |
| `Paths.ConflictOfReversed` | pathselection/pathselectionstore.go:36-53 | reversing both paths changes no answer, so last interfaces are exempt as first ones are |
| `Paths.MeetingAtTheEndsOnly` | pathselection/pathselectionstore.go:40-45 | paths that only share their first or their last interfaces do not conflict |
| `Paths.PathsConflict` | pathselection/pathselectionstore.go:36-53 | the nested loops find a shared interface exactly when there is one at a position pair that is not exempt |
| `Paths.GetConflictFreePaths` | pathselection/pathselectionstore.go:66-82 | the loop computes the greedy selection |
| `Paths.GreedyIsConflictFreeSublist` | pathselection/pathselectionstore.go:66-82 | the selection is pairwise conflict-free, in both directions, and keeps the order |
| `Paths.GreedyIsMaximal` | pathselection/pathselectionstore.go:66-82 | every path left out conflicts with a kept path from before it |
| `Paths.GreedyIsIdempotent` | pathselection/pathselectionstore.go:66-82 | selecting twice is selecting once |
| `Paths.GreedyKeepsConflictFree` | pathselection/pathselectionstore.go:66-82 | a conflict-free list is kept whole |
| `Allocator.InitialCoherence` | pathselection/pathselectionstore.go:110-114 | for every map and sort order, the list the loop starts with agrees with the map, has each key once, and misses no peer |
| `Allocator.OfferCoherent` | pathselection/pathselectionstore.go:115-157 | one round keeps list and map in step, all keys and available paths, and takes from others only paths that conflict with a granted one |
| `Allocator.OfferAllCoherent` | pathselection/pathselectionstore.go:115-157 | the same for the whole loop |
| `Fairness.TheftBound` | pathselection/pathselectionstore.go:109-163 | every other peer keeps at least half of its used paths, rounded down, and all thefts together take no more than one of the others had |
| `Fairness.OthersKeepTheirPlace` | pathselection/pathselectionstore.go:97-163 | the keys are the old ones and the new peer's, each entry is under its own address, and no other peer's available paths change |
| `Fairness.FilteredOutIsFrozen` | pathselection/pathselectionstore.go:151-156 | a peer that dropped out of the list loses nothing more and never comes back |
| `Fairness.LossIsJustified` | pathselection/pathselectionstore.go:115-161 | what another peer loses conflicts with a path granted to the new peer, and that path is used in the end or conflicts with a used one; the rest keeps its order |
| `Fairness.DenialIsJustified` | pathselection/pathselectionstore.go:115-161 | an available path not used in the end conflicts with a path in use before, or with a path the new peer uses |
| `Fairness.BystanderUnchanged` | pathselection/pathselectionstore.go:115-157 | a peer without conflicting paths keeps its entry as it is |
| `Fairness.FirstVictimIsPoorest` | pathselection/pathselectionstore.go:84-91 | because the sort is ascending, of the peers the first offered path conflicts with, one that uses fewest paths decides |
| `Refiltering.ListHoldsTheRich` | pathselection/pathselectionstore.go:151-156 | at any point of the loop the list holds exactly the peers that use at least as many paths as the new peer did after the last theft |
| `Refiltering.FreeGrantIff` | pathselection/pathselectionstore.go:115-156 | a path is granted without theft if and only if every peer it conflicts with uses fewer paths than that |
| `Refiltering.NoConflictGrants` | pathselection/pathselectionstore.go:115-131 | a path that conflicts with nothing listed is granted, and nothing else changes |
| `Refiltering.FirstConflictDecides` | pathselection/pathselectionstore.go:117-147 | otherwise the first listed peer in conflict decides: if it uses more paths than the new peer it loses its first path in conflict, the others staying in order, and else nothing changes |
| `Refiltering.ListKeepsOrder` | pathselection/pathselectionstore.go:151-174 | after any offered paths the peers still listed stand in the order they started in |
| `Refiltering.DeciderStoodFirst` | pathselection/pathselectionstore.go:117-174 | in every round, the peer that is robbed or protects the others stood first at the start among those still listed and in conflict |
| `StoreRuns.InvariantOverRuns` | pathselection/pathselectionstore.go:109-163 | after any run of adds and drops, used paths are conflict-free and in the order of the available ones, entries sit under their own address, and the keys are the peers added and not dropped |
| `StoreRuns.EveryStepIsFair` | pathselection/pathselectionstore.go:109-163 | in every run, an add leaves every other peer in the store with its available paths and at least half of its used ones |
| `Disjointness.DisjointIff` | pathselection/pathselectionstore.go:109-163 | for every newcomer, store and order with the other peers disjoint: all are disjoint after the call if and only if from some round on, the start or a theft that takes the only conflict with what is kept, every round denies its path, or has it dropped in the end, or meets no conflict, or takes its only conflict |
| `Disjointness.RoundEndsClearIff` | pathselection/pathselectionstore.go:115-157 | exactly when one round ends with the kept paths clear of all others in use, from any state |
| `Disjointness.HarmfulIff` | pathselection/pathselectionstore.go:115-157 | a round does harm exactly when its path stays and conflicts, and either all it conflicts with use fewer paths than the new peer did after the last theft, or it takes one path while another conflict remains |
| `Disjointness.TakesNothingIff` | pathselection/pathselectionstore.go:115-157 | a call takes nothing if and only if each conflicting path conflicts with a peer that uses no more paths than the new one started with and was given for free before it: told from the store alone, for every order |
| `Disjointness.NoTheftKeepsDisjoint` | pathselection/pathselectionstore.go:115-161 | under that condition, told before the call, disjoint peers stay disjoint and unchanged if the new peer starts clear |
| `Disjointness.NoConflictGetsGreedy` | pathselection/pathselectionstore.go:115-161 | if no available path conflicts with one in use, the new peer gets the greedy selection and all others stay as they are |
| `Disjointness.RichConflictsKeepDisjoint` | pathselection/pathselectionstore.go:115-161 | a condition on the store alone for newcomers that steal several paths: if each path conflicts with at most one in use, of a peer that uses more than twice as many as the new one can by then, all stay disjoint, for every order |
| `Disjointness.SinglePathDisjointIff` | pathselection/pathselectionstore.go:115-161 | the exact condition for a newcomer with one path: at most one path in use conflicts with it |
| `TestScenario.ThirdPeerOverlaps` | pathselection/pathselectionstore_test.go:96-130 | in every run where a third peer's path conflicts with all of the second's paths and none of the first's, the first keeps all, the second loses one, and second and third are not disjoint |
| `TestScenario.TestScenario` | pathselection/pathselectionstore_test.go:96-130 | the same for the test's own paths, from the empty store |
| `TestScenario.ScenarioHappens` | pathselection/pathselectionstore_test.go:96-130 | that run exists |
| `PathSelectionStore.GetPeerConflictPaths` | pathselection/pathselectionstore.go:56-64 | the first used path in conflict, or -1 |
| `PathSelectionStore.RemovePathFromEntry` | pathselection/pathselectionstore.go:101-106 | the shorter slice has the path removed; a slice of the old length over the same array ends in a stale path |
| `PathSelectionStore.SortPeerPathEntries` | pathselection/pathselectionstore.go:84-91 | an ascending permutation |
| `PathSelectionStore.FilterByMinimumUsedPaths` | pathselection/pathselectionstore.go:165-174 | padding for each peer in the store, then the entries with enough used paths in order, each the same slice as before |
| `PathSelectionStore.PathSelectionStore.InitialWorkingList` | pathselection/pathselectionstore.go:110-114 | the copied and sorted list is one that some map and sort order allows |
| `PathSelectionStore.PathSelectionStore.TakePath` | pathselection/pathselectionstore.go:133-138 | shifting the victim's array in place and storing the shorter slice removes one path from one entry and keeps list and map in step |
| `PathSelectionStore.PathSelectionStore.OfferPath` | pathselection/pathselectionstore.go:117-156 | one round of the loop does what `Allocator.Offer` says |
| `PathSelectionStore.PathSelectionStore.AddPeerEntry` | pathselection/pathselectionstore.go:109-163 | the new contents are what the allocator leaves for some map and sort order; slices stay unshared |
| `PathSelectionStore.PathSelectionStore.Get` | pathselection/pathselectionstore.go:93-95 | the entry, or the zero entry where the key is missing |
| `PathSelectionStore.PathSelectionStore.Delete` | server/server.go:395 | removes one key and nothing else |
| `PathServer.Server.Connect` | server/server.go:328-335 | a connect keeps the server consistent and extends the recorded run by one add |
| `PathServer.Server.UpdateDisjointPathselection` | server/server.go:168-202 | afterwards the store's keys are the ids of the peers and every peer's cached slice is its store entry's |
| `PathServer.Server.Disconnect` | server/server.go:393-405 | a disconnect drops the entry and every list entry with that id, and keeps the server consistent |
| `PathServer.WithoutKeepsOrder` | server/server.go:396-404 | the peers that stay keep their order |
| `PathServer.Server.CachesAreSound` | server/server.go:181-201 | whatever connects and disconnects led here, each cached list is its store entry's, conflict-free and in order, and the connected peers are those in the store |
| `Bitfield.SetPiece` | bitfield/bitfield.go:19-28 | updates one byte in place, and none out of range |
| `Bitfield.PieceIsDigit` | bitfield/bitfield.go:9-16 | piece 8i + k is a member exactly if byte i divided by 2^(7-k) is odd: the highest bit comes first |
| `Bitfield.SetAddsWeight` | bitfield/bitfield.go:19-28 | setting a piece that is missing adds 2^(7-k) to byte i, and setting it again changes nothing |
| `Bitfield.TruncatedDivision` | bitfield/bitfield.go:10-11 | division rounds toward zero and the remainder has the sign of the dividend |
| `Bitfield.HasPieceOnlyInRange` | bitfield/bitfield.go:9-16 | with truncating division, no negative or too large index is ever a member |
| `Bitfield.HasPieceAfterSet` | bitfield/bitfield.go:9-28 | an update adds its own index if in range, and changes no other answer |
| `Bitfield.RunRefinesSet` | bitfield/bitfield.go:9-28 | over any run of updates with any integers, membership is the set of what was there and the in-range indices |
| `Bitfield.MembersDetermineBytes` | bitfield/bitfield.go:5-28 | bitfields of one length with the same members are the same bytes |
| `Bitfield.FillBitfield` | server/server.go:145-148 | the server's bitfield has one byte a piece and exactly the piece indices as members |
| `Message.Serialize` | message/message.go:132-142 | the frame's bytes with 32-bit sizes, or a panic where the buffer is too small for its header |
| `Message.Read` | message/message.go:145-173 | takes one frame off the stream and leaves the rest, or fails |
| `Message.FrameRoundTrip` | message/message.go:132-173 | a frame reads back as itself, leaving what follows, if and only if its payload has at most 2^32 - 6 bytes |
| `Message.ReadThenSerialize` | message/message.go:132-173 | serializing what was read in front of the rest gives the stream back, under the same exact condition |
| `Message.StreamRoundTrip` | message/message.go:132-173 | any list of messages and keep-alives reads back from its bytes |
| `Message.StreamIsWhatWasRead` | message/message.go:132-173 | whatever is read from a stream, serialized again with the unread rest, is the stream |
| `Message.RequestRoundTrip` | message/message.go:46-65 | a request survives format and parse if and only if its numbers fit in 32 bits |
| `Message.HaveRoundTrip` | message/message.go:68-72 | a have message survives format and parse if and only if its index fits |
| `Message.PortRoundTrip` | message/message.go:75-79 | a port survives format and parse |
| `Message.ParsePiece` | message/message.go:82-104 | writes the data into the caller's buffer on success only, with each check's error |
| `Message.PieceRoundTrip` | message/message.go:82-104 | a piece message that fits is written at its own offset and nowhere else |
| `WireFormat.FrameLayout` | message/message.go:132-142 | a keep-alive is four zero bytes; any other message is its length in four bytes, the most significant first, its id and its payload |
| `WireFormat.SizesWrap` | message/message.go:132-142 | the exact payload lengths at which serializing panics, and what is left of a message where the sizes wrap around without a panic |
| `WireFormat.ReadFailsIff` | message/message.go:145-163 | a read fails exactly if bytes of the length, or of what it counts, are missing |
| `WireFormat.ShortLayout` | message/message.go:16-24 | choke, unchoke, interested and not interested in bytes |
| `WireFormat.RequestLayout` | message/message.go:46-52 | a request in bytes: index, offset and length, big-endian |
| `WireFormat.HaveLayout` | client/client.go:309-313 | the have message sent for a piece in bytes: it names that piece |
| `WireFormat.PortLayout` | message/message.go:75-79 | a port message in bytes |
| `WireFormat.PieceLayout` | server/server.go:438-442 | a piece message: index and offset, big-endian, then the data |
| `WireFormat.WhatParsersRead` | message/message.go:54-65 | on any message, which error the request, have and port parsers return, or which numbers they read from where |
| `WireFormat.WhatPieceMessagesWrite` | message/message.go:82-104 | on any message, the first of five errors that applies, the index check among them, or where the data go |
| `Handshake.Serialize` | handshake/handshake.go:38-47 | the cursor loop lays out length, protocol string, reserved bytes, hash and id |
| `Handshake.GetReservedBytes` | handshake/handshake.go:49-55 | eight bytes, of which only the last bit can be set |
| `Handshake.Read` | handshake/handshake.go:58-94 | takes one handshake off the stream, or fails and leaves what a failed read leaves |
| `Handshake.RoundTrip` | handshake/handshake.go:38-94 | a handshake reads back as itself if and only if its protocol string has 1 to 255 bytes |
| `Handshake.ReadThenSerialize` | handshake/handshake.go:38-94 | reading and serializing is an idempotent normal form that keeps every byte but the reserved bits, and of those the DHT bit |
| `Handshake.FieldsByPosition` | handshake/handshake.go:58-94 | on any stream, which error a read returns, or the place of each field; of the reserved bits only the last counts |
| `Torrent.PieceInFile` | p2p/p2p.go:320-332 | every piece is a non-empty part of the file, full unless it is the last |
| `Torrent.PiecesInOrder` | p2p/p2p.go:320-327 | pieces do not overlap |
| `Torrent.PieceOfByte` | p2p/p2p.go:320-327 | every byte is in a piece |
| `Pipeline.BlocksTile` | p2p/p2p.go:139-151 | the blocks have 1 byte to 256 KiB and cover the piece without gap or overlap |
| `Pipeline.TurnTiles` | p2p/p2p.go:76-159 | with any peer, one round keeps the requests a prefix of the blocks, the backlog at most five, and the buffer's size |
| `Pipeline.AskFillsTheWindow` | p2p/p2p.go:137-153 | a choked client asks for nothing; an unchoked one has five requests pending before it reads, or has asked for everything, in blocks of 256 KiB but for the last |
| `Pipeline.WhatMessagesDo` | p2p/p2p.go:86-123 | choke sets the flag and unchoke clears it; a have of four bytes adds its piece and any other is an error; other messages but piece change nothing |
| `Pipeline.WhatPiecesDo` | p2p/p2p.go:98-104 | a piece message is accepted exactly if it names this piece and its data fit; then they land there, are counted, and one request less is pending |
| `Pipeline.AskIsSound` | p2p/p2p.go:137-153 | topping up keeps the backlog the number of outstanding requests and the bytes asked for accounted |
| `Pipeline.NeutralKeepsSound` | p2p/p2p.go:82-123 | choke, unchoke, have, port, keep-alive and unknown messages cost nothing |
| `Pipeline.AnswerKeepsSound` | p2p/p2p.go:98-104 | an answer to any pending request is accepted, keeps the invariant, and strictly shrinks what is missing |
| `Pipeline.NoStall` | p2p/p2p.go:136-159 | a client that blocks in a read unchoked with bytes missing has a request outstanding |
| `Pipeline.DoneIsWhole` | p2p/p2p.go:136-161 | at return the buffer is the piece and nothing is outstanding |
| `Attempt.RequestsTile` | p2p/p2p.go:125-162 | whatever bytes arrive, the requests for a piece are a prefix of its blocks |
| `Attempt.HonestPeerDelivers` | p2p/p2p.go:125-162 | with an honest stream the attempt returns the piece and has requested exactly its blocks |
| `Attempt.HonestAnswersAreCounted` | p2p/p2p.go:125-162 | over a whole honest stream the attempt reads exactly one answer for each outstanding request and each block not yet asked for, and returns |
| `Attempt.ChokedIsSilent` | p2p/p2p.go:87-138 | a choked client requests nothing until it is unchoked, whatever else arrives |
| `Attempt.ChokeStopsRequests` | p2p/p2p.go:90-138 | after a choke message, given in bytes, and until an unchoke, an unchoked client requests nothing beyond what it had asked for before it read it |
| `Attempt.BadMessageEndsAttempt` | p2p/p2p.go:155-158 | a message that cannot be accepted ends the attempt with its error; nothing more is read or requested |
| `Attempt.UnchokeReleases` | p2p/p2p.go:87-89 | an unchoked client goes on as if it had never been choked |
| `Attempt.HaveIsRemembered` | p2p/p2p.go:92-97 | a have message adds one in-range piece to what the peer is known to have |
| `PieceDownload.PeerClient.Handshake` | client/client.go:242-254 | the opening on the client's connection; a failed handshake leaves the bitfield, a failed read of it empties it |
| `PieceDownload.PeerClient.SendHave` | client/client.go:309-313 | writes one have message |
| `PieceDownload.PeerClient.SendRequest` | client/client.go:280-285 | writes one request message |
| `PieceDownload.PieceProgress.ReadMessage` | p2p/p2p.go:76-123 | reads one frame and changes the piece, the counters and the client as `Pipeline.Receive` says, or fails changing nothing but the stream |
| `PieceDownload.PieceProgress.FillPipeline` | p2p/p2p.go:138-153 | the inner loop does what `Pipeline.Refill` says and writes those requests |
| `PieceDownload.AttemptDownloadPiece` | p2p/p2p.go:125-162 | the imperative attempt has the result, output, client and unread bytes of `Attempt.Drive` |
| `WorkerLoop.DownloadOne` | p2p/p2p.go:270-297 | one round of a worker, in each of its four ends: piece lacking, attempt failed, wrong hash, delivered; with what was written, read and remembered |
| `WorkerLoop.RunWorker` | p2p/p2p.go:269-299 | the worker's loop on the pieces it is handed: what it delivers, puts back, writes and leaves unread, and why it stops |
| `WorkerLoop.NoPieceIsLost` | p2p/p2p.go:269-299 | whatever the peer sends, the pieces taken are those delivered and those put back, each once and in order |
| `WorkerLoop.LackingIsPutBack` | p2p/p2p.go:271-274 | pieces the peer is not known to have are all put back, and nothing is written or read for them |
| `WorkerLoop.AttemptDecides` | p2p/p2p.go:277-296 | for a piece the peer has: a failed attempt puts it back and stops the worker, a wrong hash stops a checking program, and otherwise the piece is delivered and announced and the worker goes on |
| `WorkerLoop.WorkAnnounces` | p2p/p2p.go:295-296 | read back from all bytes a worker writes, the have messages name exactly the pieces it delivered, in order |
| `Serving.HandleConnection` | server/server.go:416-471 | the seeder's loop ends, writes and leaves unread what `Serving.Serve` says |
| `Serving.AnswersWithThePiece` | server/server.go:433-446 | any request within a piece, after format and parse, is inside the content and answered with those bytes of the piece |
| `Serving.ServesRequests` | server/server.go:433-446 | a stream of requests gets the stream of replies, each once, in order |
| `Serving.InterestedIsUnchoked` | server/server.go:427-432 | anywhere in a stream of answered requests, the bytes of interested are answered with the bytes of unchoke |
| `Serving.AnswerUnchokes` | server/server.go:427-432 | whatever client reads that answer is unchoked by it, and nothing else changes |
| `Serving.OthersAreIgnored` | server/server.go:426-469 | messages other than interested and request are read and passed over |
| `Serving.WhatRequestsGet` | server/server.go:433-442 | on any payload: an error below 12 bytes, a panic outside the content, and else a piece message that repeats index and offset, with those bytes |
| `Serving.RequestsAreTaken` | server/server.go:433-446 | an error or a panic over a request ends the loop; an answer is written before the loop goes on |
| `Serving.AnyPeerRequestsAreServed` | server/server.go:433-441 | whatever a client was sent before, none of its requests makes a seeder slice out of bounds |
| `Serving.KeepAliveEndsServing` | server/server.go:416-424 | after the replies to the requests before it, a keep-alive ends the loop and leaves unread what follows |
| `Serving.CutStreamEndsServing` | server/server.go:416-420 | so does the end of the stream, or a message cut short |
| `Session.CompleteHandshake` | client/client.go:64-98 | writes the hello, accepts only the same info hash, and sends the port if the reply has the DHT bit and DHT is on |
| `Session.RecvBitfield` | client/client.go:100-118 | the payload of a bitfield message; anything else, a keep-alive included, is an error |
| `Session.HandleIncomingHandshake` | server/server.go:473-499 | echoes the handshake, then the bitfield, then maybe a port |
| `Session.HandleConnection` | server/server.go:411-471 | the handshake, if waited for, and then the message loop whatever its outcome |
| `Session.ServesAfterFailedHandshake` | server/server.go:411-420 | after any failed handshake what is left of the stream is served all the same: the rest after a zero length byte, nothing after a handshake cut short |
| `Session.ServesAtOnce` | server/server.go:411-432 | without a handshake to wait for, the first message is served |
| `Session.HelloLayout` | client/client.go:73-75 | the client opens with 68 bytes: 19, the protocol name, seven zeros and the DHT bit, the info hash, the peer id |
| `Session.OpenTakes` | client/client.go:82-118 | against any full reply: another info hash is an error that leaves the bitfield; else the port is sent exactly if both use DHT, and only a message with id 5 is taken as the bitfield |
| `Session.OpenFails` | client/client.go:82-107 | against a reply cut short: the error, what is left unread, and what happens to the bitfield |
| `Session.GreetAnswers` | server/server.go:473-499 | against any full hello: it comes back with the unused reserved bits cleared, then the bitfield message, then the port exactly if both use DHT, in bytes |
| `Session.OpeningAgrees` | server/server.go:473-499 | for any hash, id and DHT settings, the reply starts with the client's own bytes, is accepted, both sides take exactly what was sent, the bitfield arrives, and only a port message can be left |
| `ClosedLoop.FifoDelivers` | p2p/p2p.go:125-162 | replies in the order of the requests complete the piece from any state of the pipeline and leave unread what follows |
| `ClosedLoop.SeederDeliversPiece` | p2p/p2p.go:125-162 | the replies to a piece's blocks make the client send exactly these requests and return the piece |
| `ClosedLoop.SeederServesWorker` | p2p/p2p.go:269-299 | for any list of pieces, the complete transcripts of worker and seeder fit: on all replies the worker gets every piece from its own and writes all the requests that those replies answer |
| `WholeSession.PortDoesNotDisturb` | p2p/p2p.go:105-121 | a port message before an attempt changes nothing in it |
| `WholeSession.SessionDelivers` | server/server.go:411-499 | from hello to last piece, the complete transcripts fit: the opening succeeds with exactly the torrent's pieces, the worker gets all it takes, and at most an unread port message is left |
| `Exchange.PieceAhead` | p2p/p2p.go:136-159 | having read any proper part of a piece's replies, the leecher is blocked in a read and has already written requests that make the seeder write more |
| `Exchange.WorkAhead` | p2p/p2p.go:269-299 | the same for a worker and any list of pieces |
| `Exchange.SessionAhead` | server/server.go:411-499 | the same for the whole session, from the first byte of the opening |
| `Exchange.HistoryStaysOnCourse` | server/server.go:411-499 | in any history of arrivals, in pieces of any size, only bytes of the finished transcripts have arrived |
| `Exchange.ExchangeNeverStalls` | p2p/p2p.go:136-159 | until both transcripts have arrived whole, some bytes already written can arrive: no deadlock |
| `Exchange.ExchangeEnds` | p2p/p2p.go:136-159 | every arrival brings the exchange nearer its end, so histories are no longer than both transcripts together |
| `Exchange.ExchangeDelivers` | server/server.go:411-499 | when nothing more can arrive, the opening has succeeded and the worker has every piece it took, having put none back |
| `Prefixes.LeecherOutMore` | client/client.go:64-118 | a leecher that reads more has written what it had written before, and maybe more |
| `Prefixes.SessionMore` | server/server.go:411-471 | the same for the seeder, on any bytes |
| `WorkerSteps.DriveIsRun` | p2p/p2p.go:125-162 | an attempt on any bytes is a run of one worker's steps, with the attempt's buffer, client and requests, or ending with the piece about to be put back |
| `WorkerSteps.HonestDriveIsHonestRun` | p2p/p2p.go:125-162 | on an honest stream it is an honest run, and ends with the piece |
| `WorkerSteps.TryIsRun` | p2p/p2p.go:270-297 | a round of the byte-level worker on the head of the queue is a run in each of its four ends: piece put back, worker stopped, program stopped, piece delivered and copied |
| `WorkerSteps.WorkIsRun` | p2p/p2p.go:269-299 | the byte-level worker's loop on the next pieces of the queue is a run, with the loop's results at the collector in order and the pieces put back at the end of the queue |
| `Swarm.PoolIsKept` | p2p/p2p.go:269-317 | no step loses or duplicates a piece |
| `SwarmSafety.PiecesAreConserved` | p2p/p2p.go:234-317 | in every reachable state each piece is in exactly one place: queued, with one worker, or collected; the queue never overflows; once it is closed nobody holds a piece |
| `SwarmSafety.NoSendBlocksOrPanics` | p2p/p2p.go:271-317 | in every reachable state a worker that puts a piece back or delivers one can do so at once, without a panic |
| `SwarmSafety.HaltsIff` | p2p/p2p.go:288-293 | the program is stopped by exactly one kind of step: a checking worker finishes a piece with the wrong hash |
| `SwarmSafety.StopsIff` | p2p/p2p.go:269-317 | a worker stops only after it put back the piece of a failed attempt, or on an empty queue once it is closed; only the retrying end does not wait for that |
| `SwarmSafety.SupervisorPutsBack` | p2p/p2p.go:304-309 | the retrying end moves one piece to the end of the queue and changes nothing else |
| `SwarmSafety.RunIsSafe` | p2p/p2p.go:228-317 | with any peers, every run keeps requests tiled, backlogs bounded, results of the right size and in their place, and results already there |
| `SwarmSafety.CheckedPiecesAreGenuineAndFinal` | p2p/p2p.go:276-296 | a checked result hashes to its entry, and no result is ever overwritten |
| `SwarmSafety.CheckedDownloadIsGenuine` | p2p/p2p.go:171-177 | if checking workers delivered all results, every piece of a complete download has its hash |
| `SwarmCompletion.CompleteRunsAreGenuineIff` | p2p/p2p.go:228-297 | for every torrent and every set of kinds of workers: all complete downloads by such workers have every piece's hash if and only if the kind that skips the check is not among them, or no bytes of that length miss a hash |
| `SwarmCompletion.UncheckedWorkersMayCorrupt` | p2p/p2p.go:228-253 | a worker that does not check can complete any download with any bytes of its length |
| `SwarmCompletion.CompleteHonestRunExists` | p2p/p2p.go:269-384 | for every torrent and content, one worker can bring an honest run to its end, checking or not, as long as a checking one gets genuine content |
| `SwarmDelivery.HonestPeersNeverHalt` | p2p/p2p.go:276-297 | with honest peers no check fails, and an idle connection has nothing outstanding, so pieces never mix |
| `SwarmDelivery.CompleteIsContent` | p2p/p2p.go:335-384 | in every honest run, once there is a result for each piece the buffer is the content the peers serve |
| `SwarmDelivery.AnswerAlwaysPossible` | p2p/p2p.go:136-159 | an unchoked worker with bytes missing has a request whose answer brings it strictly nearer |
| `Collector.Collect` | p2p/p2p.go:351-366 | the loop copies each result into the buffer as the transition system does, or panics where that would |
| `Collector.RunIsCollected` | p2p/p2p.go:351-366 | in every run the buffer is what the loop makes of the results in the order they came |
| `Collector.CollectorAssemblesContent` | p2p/p2p.go:335-384 | on the results of a complete honest run the loop stays in bounds and ends with the content |

## Left out

- Sockets, QUIC, SCION dialling, connect-back and deadlines: a connection is two byte streams, and a write never fails. In the transition system a connection may fail at any step.
- The DHT node, tracker, bencode and address parsing; a port message only causes a ping, which has no effect here. Whether a server's node runs is part of its `Dht` setting.
- Path selection outside the store: `CustomPathSelectAlg`, `ForcePathSelection` and `GetConnections` depend on library state. A path is its list of interfaces, and the address field of an entry is dropped.
- Metrics, logs, flags, CSV export, the peer set and the splitting of piece hashes: only easy members.
- Unlocked data races: server steps and worker steps are atomic. A worker's bitfield and its piece buffer are distinct arrays, and workers do not share a bitfield.
- Liveness of the whole swarm: a worker whose peer lacks a piece can put it back for ever. Progress is stated for one worker at a time.
- Capacity of Go slices beyond their length, and the arrays a growing slice is copied to: used paths start in an array of their own.
- Overflow of `index * PieceLength` in 64 bits, which takes pieces of more than 2 GiB.
- SortPeerPathEntries: an insertion sort stands for the library's; its contract allows any ascending permutation, and the theorems hold for all of them.
- FirstVictimIsPoorest: only for the first offered path, as the list is not sorted again after a theft; for later ones `DeciderStoodFirst` says who decides.
- RunWorker: the shared queue itself is in `Swarm`; here the pieces it hands to one worker are any list, in which a piece put back may come again.
- AddPeerEntry: an entry whose used paths share an array with the store's; they come as values.
