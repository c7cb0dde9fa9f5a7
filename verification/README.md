# A verified model of the gumble Mumble client

This Dafny project models the stateful core of the gumble client and of two widgets of its terminal user interface, and
proves what they keep over all inputs and all runs. `dafny verify dfyconfig.toml` checks everything.

| files | what they model |
|---|---|
| `Blocks`, `BlockSums`, `Doubling`, `Ocb15`, `Ocb15Laws`, `Iv`, `Crypt15`, `Packets15`, `ChannelRun` | native UDP encryption: the OCB variant with the XEX* countermeasure on byte blocks in place and what its ciphertext and tag are, the 128-bit counter rebuilt from one byte, and one sender and one receiver over a bad network |
| `RpwMutex`, `AudioFanout`, `AudioDelivery` | the reader-preferred lock and the delivery of audio to listeners, as state machines over atomic steps of any number of threads |
| `ListenerList` | the doubly linked list of listeners |
| `Jitter`, `JitterStreams` | the jitter buffer of a playing stream, and what is heard of one |
| `ServerGraph`, `ServerRun`, `ServerLog`, `ServerState` | channels, links, users and permissions under server messages: the effect of a message on an object graph, whole runs, what they leave the client knowing, and the handlers updating heap objects |
| `Options`, `Numbers`, `Varint`, `LegacyVoice`, `UdpAudio`, `WireFormat`, `OcbCrypt`, `OcbLaws` | wire formats and the older OCB mode |
| `Textview`, `TextviewLaws`, `Tree`, `TreeLaws` | the incremental wrap cache and the bounded tree walk |

Each stateful part has a specification made of functions, which carries the theorems, and methods in the form of the
source (loops, arrays, objects), which are proved to compute it.

What the proofs assume:

- AES under a key is a pair of functions with `dec(enc(x)) == x`; nothing else about it is used.
- In run theorems of the native UDP channel the tag test is exact where it is made: if a datagram opens under the one
  counter it is tried under, it was sealed with that counter. For packets in the window this holds of every cipher
  (`ChannelRun.InWindowIsExact`). The sender's counters lie above the receiver's start, do not wrap, and do not come
  round to within 128 of that start.
- Threads call the lock as the client does: they unlock what they hold, and take the write lock holding no read lock.
  Lock-protected sections are atomic, and the client's write lock is taken only when no dispatcher is active, which is
  what `RpwMutex` proves of the lock.
- Objects a message may create are fresh.

What turned out false, or true only under a condition, with the exact condition proved:

- A packet delayed across a wrap of the low counter byte is lost (`ChannelRun.LateAcrossWrapIsLost`): after the low byte
  is set, `backupIV` subtracts one from the whole counter, where 256 would be needed.
- Playing order breaks exactly where a frame number overflows int64 (`Jitter.KeepsOrderExactly`), and recovery from a
  restart fails exactly for jumps beyond 2^63 + 3 (`Jitter.RecoversExactly`).
- A buffer that is full before it holds the playout delay does not start as long as the delay stays above what it
  holds (`Jitter.FullBufferStalls`, reached in `Jitter.StallIsReached`).
- The first packet to arrive sets the expected number, so an earlier one that arrives after it is thrown away even
  while the playout delay still holds everything back (`JitterStreams.ReorderedIsHeard`).
- The ancestor check looks at 1025 objects; a deeper move makes a cycle (`ServerRun.AlwaysForest`,
  `ServerRun.DeepMoveMakesCycle`).
- A UserState naming an unknown channel is rejected after it has taken the user out of its channel
  (`ServerGraph.UnknownChannelEvicts`); `ServerGraph.RejectedUserStateChanges` says exactly which rejected ones leave a
  change behind.
- The length field of a legacy voice packet shares bit 13 with the terminator (`LegacyVoice.VoiceRoundTrip`).

## Model

| member | source | states |
|---|---|---|
| `ChannelRun.TriesExactly` | gumble/gumble/udp15.go:267-317 | for every 128-bit counter D of the receiver and every sealed counter s, the byte branches try exactly s if and only if s is 1..127 ahead (mod 2^128), 128 ahead with a low byte below 128, or up to 29 behind without crossing a low-byte wrap; which branch restores and which skips the replay test |
| `ChannelRun.Delivery` | gumble/gumble/udp15.go:253-334 | what one datagram does: accepted (new counter, table entry, returned plaintext) exactly when its counter is in that window, the table does not speak against it and no XEX* pattern is reported; otherwise an error and no change |
| `ChannelRun.FailureChangesNothing` | gumble/gumble/udp15.go:306-331 | every failed call leaves counter and replay table as they were, for any bytes |
| `ChannelRun.RunIsSound` | gumble/gumble/udp15.go:253-334 | over any loss, reordering, duplication and injection, the counter is the largest accepted one and every accepted counter at most 29 behind is on record |
| `ChannelRun.CounterIsLargestAccepted` | gumble/gumble/udp15.go:253-334 | the counter never decreases along a run, bounds every accepted counter, and is itself accepted or the initial one |
| `ChannelRun.NeverTwice` | gumble/gumble/udp15.go:306-327 | a packet accepted twice in a run has zero in byte 1 of its counter |
| `ChannelRun.AcceptedExactly` | gumble/gumble/udp15.go:253-334 | from an empty table and within 65,536 counters, the answer to every delivery is determined: in the window, and not a late packet already taken whose byte 1 is nonzero |
| `ChannelRun.ForwardGetsThrough` | gumble/gumble/udp15.go:294-331 | every packet 1..127 ahead is accepted with its own plaintext and becomes the counter, whatever happened before |
| `ChannelRun.LateAcrossWrapIsLost` | gumble/gumble/udp15.go:289-293 | a packet up to 29 behind across a low-byte wrap is tried under its counter plus 255, fails, and changes nothing |
| `ChannelRun.LosslessRunArrives` | gumble/gumble/udp15.go:230-334 | for every cipher, every run of packets sealed in order with none lost, none showing the XEX* pattern, meets the assumptions of the run theorems, and every packet arrives with its own plaintext |
| `ChannelRun.InWindowIsExact` | gumble/gumble/udp15.go:267-325 | a packet in the window is tried under its own counter, so it meets the tag assumption for every cipher |
| `ChannelRun.OpenOwn` | gumble/gumble/udp15.go:318-325 | a sealed packet opened under its own counter gives its plaintext (with the XEX* bit flip, if any) or the XEX* report |
| `ChannelRun.TagDecides` | gumble/gumble/udp15.go:318-325 | for any three bytes put in place of the tag bytes of a sealed packet, opening it under its own counter gives the XEX* report, or the plaintext if they are the tag's own, or a refusal if they are not |
| `ChannelRun.AlteredTagRefused` | gumble/gumble/udp15.go:318-331 | a packet in the window with altered tag bytes is refused and leaves counter and table as they were |
| `Crypt15.MoveIV` | gumble/gumble/udp15.go:267-317 | the branch code on the 16 counter bytes computes the arithmetic of AttemptIV on the 128-bit value, and touches nothing when the byte is too far off |
| `Crypt15.CryptState15.Decrypt15` | gumble/gumble/udp15.go:253-334 | new counter, new table and answer are those of Receive |
| `Crypt15.CryptState15.Encrypt15` | gumble/gumble/udp15.go:230-249 | the counter goes up by one modulo 2^128 and the datagram is the one sealed under it |
| `Crypt15.CryptState15.Setup15` | gumble/gumble/udp15.go:210-226 | accepts exactly 16-byte key and nonces; on failure nothing changes; the replay table is never cleared |
| `Crypt15.OpenBytes` | gumble/gumble/udp15.go:318-325 | the answer and the three-byte tag test are those of OpenPacket |
| `Packets15.PacketParts` | gumble/gumble/udp15.go:230-249 | a packet is the low byte of its counter, three bytes of the tag, and a ciphertext as long as the plaintext |
| `Packets15.PacketTag` | gumble/gumble/udp15.go:238-247 | the tag bytes come from encrypting three times the last offset of this counter plus the checksum |
| `Packets15.PacketBody` | gumble/gumble/udp15.go:238-247 | each full block but the last is enciphered between two additions of its own offset, the encrypted counter doubled once more per block; the last block is under the pad for its length and offset |
| `Packets15.CountersDiffer` | gumble/gumble/udp15.go:378-389 | two packets share an offset, at any block, only if they have the same counter |
| `Iv.ValueInjective` | gumble/gumble/udp15.go:337-366 | equal values of equally long counters mean equal bytes |
| `Iv.AdvanceIV` | gumble/gumble/udp15.go:337-344 | the carry loop adds one modulo the counter range |
| `Iv.AdvanceIVHighBytes` | gumble/gumble/udp15.go:347-354 | the loop from byte 1 adds 256 modulo the range and keeps the low byte |
| `Iv.BackupIV` | gumble/gumble/udp15.go:357-366 | the borrow loop subtracts one modulo the range |
| `Ocb15.OpenAfterSeal` | gumble/gumble/udp15.go:375-520 | for every key, offset and plaintext of any length: the ciphertext has its length, and opening it reports the XEX* pattern exactly when the padded last block matches the offset, or else returns the tweaked plaintext and the very same tag |
| `Ocb15.TweakTouchesOneBit` | gumble/gumble/udp15.go:392-422 | the returned plaintext differs from the sent one at most in byte 0 of the second-to-last block, only if that block starts with 15 zero bytes, and there turns 0 into 1 |
| `Ocb15Laws.SealedBlock` | gumble/gumble/udp15.go:388-419 | block i of the ciphertext is block i of the plaintext, with the XEX* bit flip if any, encrypted between two additions of the encrypted nonce doubled i + 1 times |
| `Ocb15Laws.SealedEnd` | gumble/gumble/udp15.go:421-434 | the last block is plaintext under the encryption of its bit length plus its offset |
| `Ocb15Laws.LengthBlockIs` | gumble/gumble/udp15.go:424-426 | the block it is made from holds the number of bits, as a number |
| `Ocb15Laws.TagIs` | gumble/gumble/udp15.go:436-446 | the tag is the encryption of three times the last offset plus the sum of all plaintext blocks and the unused rest of the last pad |
| `Ocb15Laws.TagOpens` | gumble/gumble/udp15.go:442-446 | decrypting the tag gives that back |
| `Ocb15Laws.SameTagExactly` | gumble/gumble/udp15.go:402-446 | two messages of one length, sealed alike, have the same tag if and only if their blocks have the same sum |
| `Ocb15Laws.OneBlockChangesTag` | gumble/gumble/udp15.go:402-446 | messages of one length that differ in exactly one block have different tags |
| `Ocb15Laws.NonceChangesTag` | gumble/gumble/udp15.go:378-446 | a message of whole blocks has the same tag under two nonces if and only if they are equal |
| `Ocb15.Encrypt` | gumble/gumble/udp15.go:375-449 | the in-place block loop computes ciphertext and tag of Seal |
| `Ocb15.Decrypt` | gumble/gumble/udp15.go:453-520 | the in-place block loop computes plaintext and tag of Open, or its XEX* report |
| `Ocb15.Shift2InPlace` | gumble/gumble/udp15.go:526-532 | in-place doubling in GF(2^128) |
| `Ocb15.Shift3InPlace` | gumble/gumble/udp15.go:534-539 | in-place tripling |
| `Doubling.DoubleIs` | gumble/gumble/udp15.go:526-532 | on the block as a 128-bit number: twice the value modulo 2^128, with x^7 + x^2 + x + 1 added exactly when the top bit was set |
| `Doubling.ReductionValue` | gumble/gumble/udp15.go:526-532 | the constant added is that polynomial, 135 as a number |
| `Doubling.DoubleInjective` | gumble/gumble/udp15.go:526-532 | different blocks have different doubles |
| `Doubling.TripleInjective` | gumble/gumble/udp15.go:534-539 | and different triples |
| `Ocb15Laws.TripleIs` | gumble/gumble/udp15.go:534-539 | the triple with the block added again is the double |
| `RpwMutex.Exclusion` | gumble/gumble/rpwmutex.go:12-36 | in every state of every run of any number of threads, a writer overlaps no reader and no other writer |
| `RpwMutex.UnlocksOwnMutex` | gumble/gumble/rpwmutex.go:16-36 | no instruction unlocks a mutex that is free or held for another party |
| `RpwMutex.NeverStuck` | gumble/gumble/rpwmutex.go:12-36 | whenever a thread is inside the lock code, some such thread can move or some thread is in its critical section |
| `RpwMutex.ReadersDoNotWait` | gumble/gumble/rpwmutex.go:20-36 | while any thread holds the read lock, no thread inside RLock or RUnlock ever waits for w |
| `RpwMutex.Reentry` | gumble/gumble/udp15.go:724-732 | a thread holding the read lock gets it again within at most four instructions of the thread inside the counter section and five of its own, with writers waiting, as the nested acquisition on the voice path needs |
| `AudioFanout.NeverPanics` | gumble/gumble/handlers.go:262-307 | in every interleaving of dispatchers, Attach, Detach, user arrival and removal, no send on a closed stream and no second close |
| `AudioFanout.AnnouncedOnce` | gumble/gumble/handlers.go:285-291 | every stream is announced at most once, and exactly once when its dispatcher has finished |
| `AudioFanout.StreamsBelongToUsers` | gumble/gumble/handlers.go:617-634 | between user removals every stream of every listener is open, belongs to that listener and to a user still connected; a detached listener has none |
| `AudioFanout.StreamsCarryTheirUser` | gumble/gumble/handlers.go:292-305 | a stream holds only packets of its own user, at most the configured number |
| `AudioFanout.RunInv` | gumble/gumble/handlers.go:262-307 | the invariant of items, streams and dispatchers holds in every state of every run |
| `AudioFanout.DetachStepInv` | gumble/gumble/audiolisteners.go:13-35 | Detach keeps it, whichever order the stream map yields its users |
| `AudioDelivery.ListedAreAttached` | gumble/gumble/audiolisteners.go:13-65 | after any run the list names exactly the listeners not detached, each once, oldest first |
| `AudioDelivery.CollectsEveryListener` | gumble/gumble/handlers.go:264-283 | the pass under the lock makes one entry per attached listener, in list order, on the open stream that listener holds for the speaker, a new empty one if it held none; streams already there stay |
| `AudioDelivery.SendDelivers` | gumble/gumble/handlers.go:292-305 | a send appends the packet to the stream if the listener is attached, still holds that stream and has room, drops it otherwise, and changes no other stream |
| `AudioDelivery.EmptyStreamTakesIt` | gumble/gumble/handlers.go:272-303 | whatever the configured number of buffers, a listener that still holds the stream gets the packet if the stream is empty or holds fewer than that number |
| `AudioDelivery.EveryListenerIsServed` | gumble/gumble/handlers.go:262-307 | in every interleaving, for every listener attached when the pass begins there is a moment before the dispatcher is done at which the packet is sent to it, on the stream collected for it |
| `ListenerList.Listeners.Attach` | gumble/gumble/audiolisteners.go:45-65 | appends a fresh item; the chain read both ways is the old one with it at the end |
| `ListenerList.Item.Detach` | gumble/gumble/audiolisteners.go:13-35 | afterwards the list is exactly what was attached and never detached, in attach order, linked both ways with head and tail right; a second call changes nothing |
| `ListenerList.Listeners.Snapshot` | gumble/gumble/listeners.go:53-63 | the delivered listeners are the attached items in order |
| `ListenerList.Listeners.ReadsBackward` | gumble/gumble/listeners.go:34-51 | walking back from the tail visits the attached items in reverse and then ends |
| `ListenerList.KeptLess` | gumble/gumble/listeners.go:12-30 | one more detached item removes exactly that item from the list of kept ones |
| `ListenerList.KeptHas` | gumble/gumble/listeners.go:12-51 | an item is kept exactly when it was attached and not detached |
| `Jitter.Conservation` | gumble/gumbleopenal/stream.go:572-747 | over any run each packet is played, discarded, reset away or still buffered exactly as often as it arrived; the buffer is strictly sorted, at most 50 long, its duration is the sum of its packets, and it is empty once playback runs |
| `Jitter.OneFate` | gumble/gumbleopenal/stream.go:589-731 | a packet that arrived once meets one fate: never played and discarded, never disposed of and still buffered |
| `Jitter.PlaysInOrder` | gumble/gumbleopenal/stream.go:611-731 | in every stream without a number that overflows int64, frame numbers played between two resets or resyncs strictly increase |
| `Jitter.KeepsOrderExactly` | gumble/gumbleopenal/stream.go:611-731 | whatever the stream, the packet played next after p before any reset or resync has a higher number, if and only if the number of p plus its own length stays below 2^63 |
| `Jitter.OverflowBreaksOrder` | gumble/gumbleopenal/stream.go:624-641 | every packet whose number overflows is the first of a two-packet stream that plays a lower number second |
| `Jitter.RecoversExactly` | gumble/gumbleopenal/stream.go:676-731 | from every started state, every rising stream starting at s has a packet played among its first 104 if and only if the expected number is at most 2^63 + 3 above s |
| `Jitter.RecoversSoon` | gumble/gumbleopenal/stream.go:676-731 | at most 103 packets of a rising stream are discarded before one is played, from any started state, under that same condition |
| `Jitter.BoundIsReached` | gumble/gumbleopenal/stream.go:676-731 | 103 is tight: some rising stream loses 103 packets |
| `Jitter.FullBufferStalls` | gumble/gumbleopenal/stream.go:589-674 | until a terminator arrives, a buffer of 50 packets that has not started stays as it is, playing nothing, if and only if every packet finds it muted or shorter than the playout delay; otherwise it starts |
| `Jitter.StallIsReached` | gumble/gumbleopenal/stream.go:589-674 | 50 packets of 10 ms under a playout delay above half a second fill the buffer without starting it |
| `Jitter.CloseConserves` | gumble/gumbleopenal/stream.go:733-747 | closing plays all buffered packets, in order, once each |
| `JitterStreams.StepIsTime` | gumble/gumbleopenal/stream.go:624-632 | for stereo in whole 10 ms frames the expected number advances by one for every 10 ms of playing time |
| `JitterStreams.InOrderIsHeard` | gumble/gumbleopenal/stream.go:644-731 | from an empty buffer, an unmuted stream in which each number is at or beyond the end of the packet before is played whole, one packet after the other and nothing else, once it holds the playout delay, if it does so within 50 packets; until then nothing happens |
| `JitterStreams.PlayedAsItComes` | gumble/gumbleopenal/stream.go:644-731 | without a playout delay every such stream is played packet by packet |
| `JitterStreams.ReorderedIsHeard` | gumble/gumbleopenal/stream.go:589-731 | packets that arrive in any order while the playout delay lasts are all played in order if and only if the first to arrive is the first of the stream; otherwise that first one is discarded as late |
| `JitterStreams.FollowsAfterFourLate` | gumble/gumbleopenal/stream.go:676-722 | in any run a restart of the numbering is followed only after four packets were discarded as late with nothing played, reset or followed since |
| `JitterStreams.NextBurst` | gumble/gumbleopenal/stream.go:644-652 | after a terminator the next burst is heard as from an empty buffer |
| `JitterStreams.MutedIsSilent` | gumble/gumbleopenal/stream.go:654-657 | a packet that only arrives while its speaker is muted is never played |
| `Jitter.ReceiveInv` | gumble/gumbleopenal/stream.go:644-731 | one packet keeps the buffer invariant and balances the books |
| `Jitter.JitterBuffer.OnPacket` | gumble/gumbleopenal/stream.go:644-731 | the loop body does what Receive says and logs the same events |
| `Jitter.JitterBuffer.InsertSorted` | gumble/gumbleopenal/stream.go:589-607 | inserts in place, or refuses a full buffer or a duplicate |
| `Jitter.JitterBuffer.PopNext` | gumble/gumbleopenal/stream.go:611-642 | pops the packet with the expected number and advances by its own length |
| `Jitter.JitterBuffer.DrainReady` | gumble/gumbleopenal/stream.go:675-731 | the drain loop ends, under the measure Rank, with the result of Drain |
| `Jitter.JitterBuffer.CloseDrain` | gumble/gumbleopenal/stream.go:733-747 | the closing loop ends with the result of Close |
| `ServerRun.AlwaysInv` | gumble/gumble/handlers.go:408-735 | after any sequence of messages, rejected ones included: Parent and Children agree both ways, links of live channels are symmetric and lead to live channels, listed users have that channel and are connected, permission keys are live channels |
| `ServerRun.AlwaysForest` | gumble/gumble/handlers.go:452-515 | throughout a run the Parent pointers form no cycle if and only if no message moves a channel under one more than 1024 levels below it |
| `ServerRun.StepForest` | gumble/gumble/handlers.go:459-515 | the same for one message in any reachable graph |
| `ServerRun.DeepMoveMakesCycle` | gumble/gumble/handlers.go:452-467 | for every n above 1024, a run that builds n + 1 nested channels and moves the root under the leaf gets a cycle past the check |
| `ServerRun.ShortChains` | gumble/gumble/handlers.go:459-467 | a proposed parent with at most 1025 objects on its way up is never such a move |
| `ServerRun.WalkFinds` | gumble/gumble/handlers.go:459-467 | the bounded walk answers yes exactly when the channel is among the first objects from the candidate up |
| `ServerRun.ForestKept` | gumble/gumble/handlers.go:496-515 | a new parent keeps a forest a forest exactly when the channel is not above it |
| `ServerGraph.ChannelStateKeeps` | gumble/gumble/handlers.go:469-560 | ChannelState keeps the whole invariant, new and known channels alike |
| `ServerGraph.RelinkExactly` | gumble/gumble/handlers.go:523-549 | after the three link lists, a channel is linked to exactly the known channels kept or added and not removed; links between other channels are untouched |
| `ServerLog.ChannelStateStores` | gumble/gumble/handlers.go:487-521 | a ChannelState gives its channel the name it carries and the parent it names, unless the channel is among the first 1025 objects from that parent up; every other channel keeps name and parent |
| `ServerLog.NamesAreLastSaid` | gumble/gumble/handlers.go:408-560 | after any run the client knows exactly the channels announced and not removed since, each under the name last given |
| `ServerGraph.ReparentTree` | gumble/gumble/handlers.go:500-515 | moving a channel keeps Parent and Children in agreement |
| `ServerGraph.ClearLinksOk` | gumble/gumble/handlers.go:523-528 | a full replacement removes the far ends too, so links stay symmetric |
| `ServerGraph.ChannelRemoveKeeps` | gumble/gumble/handlers.go:418-438 | removal keeps the invariant: no live channel lists or links the removed one |
| `ServerLog.ChannelRemoveTakes` | gumble/gumble/handlers.go:418-438 | a known channel is taken out of the maps, of its parent's children and of the links of every channel left, and nothing else goes |
| `ServerGraph.UserStateKeeps` | gumble/gumble/handlers.go:660-735 | UserState keeps the invariant whatever its outcome, partial updates included |
| `ServerGraph.UserStatePlaces` | gumble/gumble/handlers.go:673-735 | a UserState that succeeds and creates the user or names a channel leaves the user in the map of its channel: the one named, or else the root |
| `ServerRun.NeverInTwoChannels` | gumble/gumble/handlers.go:660-735 | after any sequence of messages, no user is in two channels, live or removed; its channel is where it is listed and it is still connected under that session |
| `ServerGraph.UnknownChannelEvicts` | gumble/gumble/handlers.go:718-727 | a UserState naming an unknown channel fails and still takes a known user out of every channel |
| `ServerGraph.RejectedUserStateChanges` | gumble/gumble/handlers.go:673-727 | a rejected UserState changes the graph if and only if its session is new, or it reaches a channel field naming an unknown channel while the user is still listed in a channel |
| `ServerGraph.OthersStay` | gumble/gumble/handlers.go:673-735 | it moves no other user |
| `ServerLog.UserStateAccepted` | gumble/gumble/handlers.go:660-735 | a UserState is accepted if and only if it names a session that is known or finds a root channel, an actor known by then, and a known channel, as far as it names them |
| `ServerLog.UsersAreConnected` | gumble/gumble/handlers.go:585-735 | after any run the client knows exactly the sessions that came and were not removed since |
| `ServerGraph.UserRemoveKeeps` | gumble/gumble/handlers.go:599-615 | UserRemove keeps the invariant; on success the session is nowhere |
| `ServerLog.UserRemoveOthers` | gumble/gumble/handlers.go:599-615 | no other user moves or goes |
| `ServerGraph.PermissionQueryKeeps` | gumble/gumble/handlers.go:1178-1207 | PermissionQuery keeps the invariant |
| `ServerLog.PermissionStored` | gumble/gumble/handlers.go:1178-1207 | accepted if and only if the channel it gives bits for is known; then the bits are stored there and the other entries stay, or go if it flushes; rejected, it changes nothing |
| `ServerLog.BitsAreLastSaid` | gumble/gumble/handlers.go:1172-1219 | after any run the bits kept for a channel are those sent last since it was removed or everything flushed |
| `ServerGraph.ReportedAreLive` | gumble/gumble/handlers.go:1186-1207 | every reported channel ID, a flush included, is that of a live channel |
| `ServerState.Client.HandleChannelState` | gumble/gumble/handlers.go:469-560 | the handler on the heap objects does exactly what OnChannelState says of the object graph |
| `ServerState.Client.HandleChannelRemove` | gumble/gumble/handlers.go:408-438 | same for OnChannelRemove |
| `ServerState.Client.HandleUserState` | gumble/gumble/handlers.go:660-735 | same for OnUserState |
| `ServerState.Client.HandleUserRemove` | gumble/gumble/handlers.go:585-615 | same for OnUserRemove |
| `ServerState.Client.HandlePermissionQuery` | gumble/gumble/handlers.go:1172-1219 | same for OnPermissionQuery; the reported channels are exactly those of the reported IDs, none nil |
| `ServerState.IsChannelDescendant` | gumble/gumble/handlers.go:459-467 | the loop over Parent pointers answers as the bounded walk does |
| `ServerState.Client.ChannelPath` | gumble/gumbleutil/channel.go:9-18 | on a tree without cycles the walk ends, and its names are those from the root down to the channel |
| `Varint.RoundTrip` | gumble/gumble/varint/write.go:24-67 | decoding an encoded int64, MinInt64 included, followed by any bytes gives the number and the length of its code word, at most 10 |
| `Varint.PrefixFree` | gumble/gumble/varint/read.go:11-52 | no code word is a prefix of another |
| `WireFormat.FirstWords` | gumble/gumble/varint/write.go:40-67 | the first code word of each form, byte for byte |
| `WireFormat.NegativeWords` | gumble/gumble/varint/write.go:25-39 | the same for negative numbers, the smallest included |
| `Varint.Encoded` | gumble/gumble/varint/write.go:24-67 | a code word has 1 to 10 bytes, at most 9 for a nonnegative number |
| `Varint.Decode` | gumble/gumble/varint/read.go:11-52 | reads no byte past the end; an error is (0, 0) |
| `Varint.EncodeInto` | gumble/gumble/varint/write.go:24-67 | the recursive writer puts exactly the code word into the buffer and touches no other byte |
| `Varint.Encode` | gumble/gumble/varint/write.go:14-22 | writes the code word at the start of the buffer, or returns zero and writes nothing if it does not fit |
| `LegacyVoice.VoiceRoundTrip` | gumble/gumble/udp15.go:589-608 | a packet relayed with a session varint after its header byte parses back to session, sequence, data, terminator and position if and only if the target is below 32 and bit 13 of the data length is clear |
| `LegacyVoice.ShortVoice` | gumble/gumble/handlers.go:107-225 | in particular for every target below 32 and fewer than 8192 data bytes |
| `WireFormat.LegacyOnTheWire` | gumble/gumble/udp15.go:589-608 | a short packet byte for byte: header, sequence, length with the terminator in bit 13, data, position |
| `LegacyVoice.Build` | gumble/gumble/udp15.go:589-608 | the encoder through its fixed header buffer yields that payload |
| `UdpAudio.PbRoundTrip` | gumble/gumble/udp15.go:26-51 | every uint64 takes at most 10 bytes and is read back before any suffix |
| `UdpAudio.PbFits` | gumble/gumble/udp15.go:39-51 | on any bytes the value read fits 64 bits |
| `UdpAudio.RoundTrip` | gumble/gumble/udp15.go:66-184 | decoding an encoded message gives frame number, voice data, terminator and position; session, context and volume are zero |
| `WireFormat.TargetIsSent` | gumble/gumble/udp15.go:70-74 | the message starts with key 1 and, read back, the target |
| `WireFormat.MessagesDiffer` | gumble/gumble/udp15.go:66-106 | two messages are the same bytes only if target, frame number, data, terminator and position are the same |
| `WireFormat.OnTheWire` | gumble/gumble/udp15.go:66-106 | the whole message laid out, key bytes included; empty parts are left out |
| `WireFormat.PbDigit` | gumble/gumble/udp15.go:26-35 | byte k of a varint holds digit k to base 128, and its high bit says whether another follows |
| `UdpAudio.RelayedRoundTrip` | gumble/gumble/udp15.go:110-184 | with a context and a sender session in front, those are returned as well |
| `UdpAudio.UnpackedPosition` | gumble/gumble/udp15.go:147-171 | a position sent as three floats is read like a packed one |
| `WireFormat.VolumeRead` | gumble/gumble/udp15.go:164-175 | the volume adjustment is the 32-bit pattern under key 7 |
| `UdpAudio.SkipsUnknown` | gumble/gumble/udp15.go:121-176 | what the decoder does not know it passes over: other field numbers in each wire type, blocks of field 6 that are no position, and all 8-byte fields |
| `UdpAudio.PbEncode` | gumble/gumble/udp15.go:26-35 | the shift loop writes that encoding |
| `UdpAudio.PbDecode` | gumble/gumble/udp15.go:39-51 | the accumulating loop reads it, with the same overflow and truncation errors |
| `UdpAudio.Encode` | gumble/gumble/udp15.go:66-106 | the builder yields Message |
| `UdpAudio.Decode` | gumble/gumble/udp15.go:110-184 | the parser ends on all bytes, stays in bounds and yields the fields of Read |
| `Numbers.PositionBack` | gumble/gumble/udp15.go:92-99 | three float patterns survive their 12 bytes |
| `WireFormat.LittleEndianDigit` | gumble/gumble/udp15.go:92-99 | byte k is digit k to base 256, least significant first |
| `WireFormat.BigEndianDigit` | gumble/gumble/varint/read.go:31-38 | byte k from the end is digit k |
| `OcbCrypt.RoundTrip` | gumble/gumble/crypt.go:39-210 | for every nonce of 1 to 15 bytes, every plaintext and all associated data, decryption returns the plaintext; any other nonce is refused on both sides |
| `OcbCrypt.OpenAfterSeal` | gumble/gumble/crypt.go:102-160 | both data loops reach the same offset and checksum |
| `OcbCrypt.WrongTag` | gumble/gumble/crypt.go:201-209 | the right ciphertext under another tag is refused |
| `OcbLaws.SealedBlock` | gumble/gumble/crypt.go:120-133 | every block of ciphertext but the last is made from its own plaintext block and its own offset alone |
| `OcbLaws.SealedEnd` | gumble/gumble/crypt.go:108-119 | the last block is the plaintext under the encrypted offset |
| `OcbLaws.TagOfEncrypted` | gumble/gumble/crypt.go:192-203 | the last 16 bytes of the output are the tag the laws below speak of |
| `OcbLaws.SameTagExactly` | gumble/gumble/crypt.go:102-199 | two messages of one length under one nonce have the same tag if and only if their blocks have the same sum |
| `OcbLaws.OneBlockChangesTag` | gumble/gumble/crypt.go:102-199 | a change in one block of the plaintext changes the tag |
| `OcbLaws.AdSumIs` | gumble/gumble/crypt.go:162-190 | associated data contribute the sum of their blocks, each encrypted with its own offset, a short last block marked |
| `OcbLaws.OneAdBlockChangesTag` | gumble/gumble/crypt.go:162-199 | a change in one block of the associated data changes the tag |
| `OcbLaws.SameTagUnderNonces` | gumble/gumble/crypt.go:45-70 | the same message has the same tag under two nonces if and only if they start from the same offset |
| `OcbLaws.SameStartExactly` | gumble/gumble/crypt.go:45-70 | nonces of one length start from the same offset if and only if the kept part of their encryption is the same |
| `OcbCrypt.OffsetIsGray` | gumble/gumble/crypt.go:72-106 | the offset at block i is the initial one plus the Gray-code combination i ^ (i >> 1) of doublings of L* |
| `OcbCrypt.GrayStep` | gumble/gumble/crypt.go:72-88 | stepping to i changes the combination by the ntz(i)-th doubling, ntz as in section 2 of RFC 7253 |
| `OcbCrypt.NtzMeans` | gumble/gumble/crypt.go:77-82 | the number is two to its count of trailing zeros, times an odd number |
| `OcbCrypt.LastOffsetOf` | gumble/gumble/crypt.go:102-106 | the data loop ends on the offset of its last block |
| `OcbCrypt.Crypt` | gumble/gumble/crypt.go:39-210 | the loops on byte arrays, in both directions, compute Encrypted and Decrypted |
| `OcbCrypt.DoubleBlock` | gumble/gumble/crypt.go:213-221 | doubling in GF(2^128) |
| `OcbCrypt.Lntz` | gumble/gumble/crypt.go:73-88 | the two loops yield the ntz(i)-th doubling |
| `OcbCrypt.NoncesDiffer` | gumble/gumble/crypt.go:264-270 | different packet counters never share a nonce |
| `OcbCrypt.CryptState.Setup` | gumble/gumble/crypt.go:234-261 | accepts exactly 16-byte keys; the nonce starts with four bytes of the encrypted iv |
| `OcbCrypt.CryptState.Encrypt` | gumble/gumble/crypt.go:278-286 | encrypts under the nonce of the counter, or passes through before setup |
| `OcbCrypt.CryptState.Decrypt` | gumble/gumble/crypt.go:288-296 | decrypts under the nonce of the counter, or passes through before setup |
| `Textview.AlwaysConsistent` | uiterm/textview.go:25-157 | after every sequence of additions, resizes, timestamp toggles, scrolls and clears, the wrapped buffer is a full re-wrap of the stored lines (empty without a positive width), the scroll offset is in range and at most 10,000 lines are stored |
| `Textview.NewestLines` | uiterm/textview.go:134-150 | the stored lines are exactly the newest since the last clear: all up to 10,000, then a known number between 9,000 and 10,000 |
| `TextviewLaws.DisplayIs` | uiterm/textview.go:25-157 | after any operations the wrapped buffer is what wrapping those newest lines from scratch gives, in the width set last, with time stamps as toggled last |
| `Textview.FillCost` | uiterm/textview.go:134-150 | exactly how many lines n additions wrap at a fixed positive width |
| `Textview.AmortisedCost` | uiterm/textview.go:134-150 | at most ten wrapped lines per added line |
| `Textview.PiecesOf` | uiterm/textview.go:97-114 | wrapping loses and adds nothing; every piece but the last has the full width |
| `Textview.PieceCount` | uiterm/textview.go:97-114 | with as few pieces as possible |
| `Textview.WrapLine` | uiterm/textview.go:89-115 | the rune loop cuts a line into those pieces |
| `TextviewLaws.ShownIs` | uiterm/textview.go:90-96 | without time stamps a line is shown as the text after its first closing bracket, trimmed, or whole if it has none |
| `TextviewLaws.TrimmedIs` | uiterm/textview.go:94 | trimming takes off all white space at both ends and nothing else |
| `Textview.Widget.AddLine` | uiterm/textview.go:134-150 | the incremental update does what the model step says |
| `Textview.Widget.UpdateParsedLines` | uiterm/textview.go:117-132 | the rebuild loop re-wraps everything and clamps the offset |
| `Textview.Widget.VisibleStartLine` | uiterm/textview.go:186-200 | the first visible line exists, and unscrolled the newest lines are shown |
| `TextviewLaws.ScrollShows` | uiterm/textview.go:47-73 | up shows one older line until the oldest is on screen, down one newer, top the oldest, bottom the newest; the text stays |
| `TextviewLaws.ScrollBack` | uiterm/textview.go:47-59 | down takes back an up that moved, and up a down |
| `TextviewLaws.UpFromBottom` | uiterm/textview.go:47-52 | n times up from the newest shows lines n older, or the oldest |
| `TextviewLaws.TopIsSticky` | uiterm/textview.go:61-67 | after top, the first downs show no change: one fewer than the view is high, exactly |
| `Tree.RebuildRec` | uiterm/tree.go:128-143 | for any generator, even a cyclic one, the recursion ends and appends the preorder walk cut at depth 64, within 100,000 lines in all |
| `Tree.RebuildAll` | uiterm/tree.go:91-96 | the top loop yields the first 100,000 lines of that walk |
| `Tree.PreorderAllSound` | uiterm/tree.go:128-143 | every line of the walk is a root or hangs below an earlier line one level up, within the depth limit |
| `Tree.PreorderAllComplete` | uiterm/tree.go:128-143 | before the cut in length the walk misses nothing down to the depth limit |
| `TreeLaws.EveryBlock` | uiterm/tree.go:128-143 | under each line stands a block holding, on the next level, what its item generates, in order, and ending where the level falls back; this leaves one walk |
| `TreeLaws.RootsInOrder` | uiterm/tree.go:91-96 | the top lines are the top items, in order, without the nil ones |
| `Tree.Widget.Rebuild` | uiterm/tree.go:82-114 | lines are the cut walk, a nonempty tree has its active line in range: the first line, or the first one with the same item as before, or the one with the same number |
| `Tree.Widget.SetActiveLine` | uiterm/tree.go:203-209 | the active line is clamped to the lines |
| `Tree.Widget.SetActiveItem` | uiterm/tree.go:69-80 | selects the first line with the same item, or changes nothing if there is none |
| `Tree.Widget.OnKey` | uiterm/tree.go:218-244 | arrow keys move by one within the lines; other keys get the item on the active line, which is always in range |

## Left out

- AES, key schedules, and the probability that a wrong tag passes: AES is an abstract invertible function.
- `ChannelRun.AcceptedExactly`: runs that span more than 65,536 counters, because the two bytes the table distinguishes then repeat.
- `ChannelRun.FromOneSender`: counters that wrap past 2^128, or come round to within 128 of the start, because the window then reaches old packets again.
- `ChannelRun.NeverTwice`: counters whose byte 1 is zero, because the table uses zero for "no entry"; `ChannelRun.AcceptedExactly` says what happens to them.
- `OcbCrypt.RoundTrip`: agreement with RFC 7253, because L indexing, the last block and the checksum differ from it.
- Packet counters of the older cipher state are taken as their four big-endian bytes.
- Wire-level unmarshalling of protocol messages: handlers start from decoded messages with optional fields.
- Names, comments, mute flags and the other plain attributes of users and channels (channel names are kept for ChannelPath), and the event bits handlers report.
- Sockets, TLS, the negotiation that picks an audio format, and the packet counters kept for statistics.
- Opus decoding, loss concealment and sequence-gap handling in handleUDPTunnel: the model stops at the parsed packet.
- handleLegacyUDPVoice on arbitrary bytes.
- Users, codecs and decoders looked up while a legacy packet is parsed: only the fields are modelled.
- `RpwMutex` and `AudioFanout` are state machines on values, one step per atomic section, because what matters there is how threads interleave; the listener list itself is also modelled as objects in `ListenerList`.
- PermissionQuery looks its channel up before it takes the lock; the model takes both as one step, as messages are handled one at a time.
- Scheduling of goroutines and fairness: the lock and fan-out theorems are about safety and about who can move next.
- Rendering, volume, noise suppression, clocks and log lines: played packets become events in the order of playing.
- Float values are 32-bit patterns.
- Drawing of the text view and the tree, and vertical bounds; strings are sequences of characters, already decoded.
- `Tree.Widget.OnKey`: what listeners do with the key.
- Ban lists, access control lists, context actions, recording, configuration: simpler than what is modelled.
