# freastal, verified

A Dafny model of the parts of freastal that are state machines, protocols or fast forms of
something simple, with proofs of what they promise. `dafny verify dfyconfig.toml` checks all of it.

**A connection** (`Parsing`, `Decrypt`, `Connection`, `ConnectionInvariant`, `ConnectionRuns`,
`ConnectionFlow`, `ConnectionEndings`, `ConnectionWitnesses`, `CleanRuns`, `Client`). `client_t` keeps a bounded read buffer with a lazily consumed prefix, an
in-flight flag and, on TLS, plaintext decrypted in place behind the unread bytes, a fallback when
picotls outgrows the buffer, and a spill block. `Client` is that object, with its arrays, its flags
and one method per callback; each method is proved to do what a step of the state machine in
`Connection` does. The machine is then proved to be one unbounded byte queue that yields requests
in order: nothing is reordered however reads cut the stream, bytes are lost in exactly two named
cases, the request in flight never moves, the handle is closed once, `write_req` has one user at a time, and a connection on which
nothing fails serves exactly what is due, up to a request that asks it to close, and keeps reading
until then. How a connection is given up, refused, answered and closed is stated both ways: what
leads to a close_notify, a 400 or a bare close, and that nothing else does. Everything the environment decides (what a read brings,
when the application answers, which writes fail, whether a block can be had) is a parameter of the
event, so the theorems hold for every run.

The parser is any function obeying `Parsing.Lawful`: an accepted header block is nonempty, depends
on nothing behind it, a verdict survives further bytes, and the `last_len` hint never changes an
acceptance and can at most postpone a rejection (`LawsAreMet` gives such a parser). picotls is its receive contract: reserve the wire
length of a record, move to an allocation of its own when that does not fit, advance by the plaintext.

**The shared ticket ring** (`TicketRing`, `TicketRingInvariant`, `TicketRingTheorems`,
`TicketLifetime`, `LocalRing`, `Rotator`). One process publishes through a seqlock, any number read;
all of them interleave at the granularity of single fields, with `seq` a `uint32`. Proved: reads are
never torn and never go back, succeed when the writer leaves them alone and fail only when it does
not, the rotation hook returns exactly when a whole publication is over, the ring holds
exactly the last three generations, tickets live as long as promised and keys no longer than the
exposure bound. The rotator thread's kick and stop protocol is a second machine.

**Writing over TLS** (`TlsWrite`, `ThreadedLists`, `Ownership`, `PoolStore`, `PoolLinks`,
`PoolState`, `Pools`, `Slab`). Header and body are cut into maximal records and packed into chained
blocks; the packing is proved to follow a closed form, from which the block bound is read off. The
pools are modelled with every allocation having exactly one owner. An address given back to malloc
has none, so a second release would violate a precondition, and a lost one would be left without a
holder. The invariant is one quantifier over its parts (`Good`, `PartOk`), which each operation
re-establishes part by part.

**Fast forms** (`Decimal`, `HeaderChecks`, `HeaderText`, `Headers`, `HeaderFormat`, `HeaderCache`).
The integer writer, the token table, the header formatter and the header-name cache, each in place
and each proved equal to a plain definition; a formatted block is proved to come apart into exactly
what went in.

**The asyncio bridge** (`LoopBridge`). The ready-queue drain and the arming of libuv's handles,
with callbacks that may do anything to the queue.

## Where the code differs from what is said of it

- A non-empty spill is not always behind a response in flight or a closing handle: a TLS 400 whose
  final write is pending is neither. `ReadFlowInvariant` has the third case, `SpillBehindFinalWrite`
  a run that reaches it.
- Plaintext can be lost on a connection that stays open because a response is in flight: when a
  read overflows read_buf and no spill block can be had (`SurplusLost`), and when a record fails
  behind others of the same read that had already decrypted (`DecryptedLost`). `StreamConservation`
  shows that these are the only ways, and that the bytes in hand are always a prefix of what arrived.
- The rotation hook compares against `before + 2` in 32 bits. If it samples the last even value of
  seq, 2^32 - 2, the target wraps to 0 and it reports success at once: `HookAtWrap` has the run.
  With any other sample it keeps its promise (`HookWaitsForRotation`).
- `HDR_APPEND` keeps each length in an `int`. A string of 2 GiB or more can therefore be cut short
  or copied with a negative size instead of being refused; `LongValueVanishes` shows an acceptable
  response sent without its value. `HeaderRoundTrip` says exactly which responses are formatted as
  they should be.
- A ticket sealed after losing the race for the ring 64 times is sealed under a key that is in no
  ring and can never be opened; `TicketOutlivesPromise` has both cases.
- The sum that bounds the spill, taken without the framing of the records, is five bytes above the
  spill's size; it is the 22 bytes each record costs that make it fit (`SweepFitsSpill`).
- Setting up the header cache a second time reports success whenever the first attempt got as far
  as the first ASGI name, even if it then failed for want of memory (`SecondSetUpUnbuilt`).
  `SetUpTwice` says exactly when the cache is built then.
- An app that finishes inline is not followed by arming. `DispatchInline` says exactly when the
  handles still fit: when it scheduled nothing they were not armed for already.

## Model

| member | source | states |
|---|---|---|
| Parsing.RequestsOfFlat | freastal/src/server.c:175-278 | requests laid end to end are read back one by one, whatever follows them |
| Parsing.RequestsMonotone | freastal/src/server.c:175-278 | more input only adds requests at the end |
| Parsing.OnlyLastCloses | freastal/src/server.c:389-412 | what is due is the requests up to and including the first that asks to close |
| Parsing.FirstIsFramed | freastal/src/server.c:223-247 | a dispatched request parses, alone, as itself |
| Decrypt.SlackSuffices | freastal/src/server.h:96-111 | for any number of records, if no reservation grew the buffer the plaintext fits read_buf proper |
| Decrypt.ZeroCopyExact | freastal/src/server.h:112-118 | unpadded records leave read_buf if and only if their plaintext does not fit there |
| Decrypt.FramingCost | freastal/src/server.h:64-81 | every record costs at least 22 bytes on the wire beyond its plaintext |
| Decrypt.SweepFitsSpill | freastal/src/server.h:41-57 | fresh ciphertext behind one held partial record decrypts to no more than a spill block |
| ConnectionInvariant.DispatchNeedMore | freastal/src/server.c:188-247 | asking for more bytes means no whole request is buffered |
| ConnectionInvariant.DispatchStarted | freastal/src/server.c:246-278 | a started request is the first of the buffer, and every byte is still accounted for |
| ConnectionInvariant.ResetKeeps | freastal/src/server.c:96-120 | stepping over an answered request moves its bytes, and only those, to the answered ones |
| ConnectionInvariant.RefillKeeps | freastal/src/server.c:838-851 | draining keeps the byte order and leaves a rest only behind a full buffer |
| ConnectionInvariant.ReadFlowKeeps | freastal/src/server.c:888-915 | the arming decision is right for whatever the buffer and spill hold |
| ConnectionInvariant.SweepBounds | freastal/src/server.c:1004-1079 | neither the in-place guard nor the stash's size check can fire |
| ConnectionInvariant.StepKeeps | freastal/src/server.c:280-440 | every callback libuv may make, and an answer at any time, keeps the connection's invariant |
| ConnectionInvariant.RunKeeps | freastal/src/server.c:280-440 | so does every run |
| ConnectionRuns.StepExact | freastal/src/server.c:1023-1087 | a step loses bytes exactly when its read overflows read_buf with no spill block to be had, or a record of it fails behind others that had decrypted |
| ConnectionRuns.StreamConservation | freastal/src/server.c:805-851 | answered requests, unread bytes and spill are, in order, a prefix of all plaintext decrypted, and all of it if and only if no read lost some; the request in flight is the front of the buffer |
| ConnectionRuns.BlocksSuffice | freastal/src/server.c:828-836 | with a spill block for every read and no record failing behind one that decrypted, no run loses anything |
| ConnectionRuns.DispatchFollowsStream | freastal/src/server.c:317-322 | in every run the dispatched requests are a prefix of those due, up to the first that asks to close; all of them once nothing is in flight or that one is; and a connection is kept only as its request asks |
| ConnectionRuns.QuiescentRunsAgree | freastal/src/server.c:414-427 | in any two runs, failures included, the same bytes lead to the same requests whenever both connections are quiescent |
| CleanRuns.SegmentationIndependence | freastal/src/server.c:175-278 | the same well-formed bytes, cut or encrypted in any two ways: the same requests with the same bodies, exactly those due, and the same ending, once each connection has nothing in flight or has ended |
| ConnectionRuns.SingleCloseSingleWriter | freastal/src/server.c:283-306 | whenever the application answers and whatever has failed before, uv_close is called at most once, write_req never has two users, tls_wblock is never overwritten while it may hold a chain, and nothing can happen after the close |
| ConnectionRuns.ReadFlowInvariant | freastal/src/server.c:146-173 | an empty buffer is offered only when one unfinished request fills read_buf and nothing is in flight; a spill stands behind a full buffer and before a response, final write or close; an open connection reads, owes an answer or has a write pending |
| ConnectionRuns.InFlightPinned | freastal/src/server.c:260-270 | until its write completes, no callback moves or changes the bytes of the request in flight |
| ConnectionFlow.ReadsDuringResponse | freastal/src/server.c:249-270 | reading stays armed across a response: a connection that is kept reads during one exactly while read_buf has room |
| ConnectionEndings.LeavingRun | freastal/src/server.c:379-412 | behind a connection given up nothing is dispatched, one that does not read never does again, and once its response is written it closes or says goodbye |
| ConnectionEndings.PeerGone | freastal/src/server.c:283-306 | after EOF or an error the response in flight stands, nothing more is read or dispatched, and the connection ends behind that response, or at once if there is none |
| ConnectionEndings.BrokenIsLeft | freastal/src/server.c:853-880 | the same behind a broken record layer, with a bare close and never a close_notify |
| ConnectionEndings.WhatBreaks | freastal/src/server.c:1023-1087 | the record layer is broken exactly by a record that fails or a surplus without a block |
| ConnectionEndings.WrittenEnds | freastal/src/server.c:379-412 | a written response is followed by the next request exactly if the write succeeded and the connection is kept; else by a close_notify exactly if the write succeeded, the layer is sound and the final write was accepted; else by a bare close |
| ConnectionEndings.LateAnswer | freastal/src/server.c:344-361 | an answer is on the wire unless TLS could not put it there, which closes; it may end the connection but not keep it against the request |
| ConnectionEndings.DispatchBegun | freastal/src/server.c:223-278 | a request dispatched by any callback is answered exactly if the application did so at once, and keep_alive is what the request asks and the answer agrees to |
| ConnectionEndings.FirstRefused | freastal/src/server.c:190-221 | a malformed request read by an idle connection is refused with its 400, on TLS exactly if the final write was accepted |
| ConnectionEndings.NextRefused | freastal/src/server.c:425-427 | so is one that stands behind an answered request |
| ConnectionEndings.IdleEnds | freastal/src/server.c:888-904 | a connection that serves nothing stays open unless it refuses a request or, on TLS, one fills the buffer |
| ConnectionWitnesses.SpillBehindFinalWrite | freastal/src/server.c:816-821 | a run that ends with a spill, nothing in flight and the handle open |
| ConnectionWitnesses.SurplusLost | freastal/src/server.c:1084-1087 | a run that loses the surplus of a read on a connection that stays open |
| ConnectionWitnesses.DecryptedLost | freastal/src/server.c:1023-1030 | a run that loses what a failing read had decrypted, with every spill block to be had |
| CleanRuns.CleanRunServesStream | freastal/src/server.c:223-247 | on a stream well-formed up to its first request to close, with nothing failing, exactly what is due is dispatched; the connection ends only once the request in flight asked for it, and with nothing in flight it has room to read on |
| CleanRuns.CleanRunStaysOpen | freastal/src/server.c:379-412 | if every request of the stream leaves the connection open, it is never closed and all are dispatched |
| CleanRuns.CleanCloseIsAnnounced | freastal/src/server.c:384-409 | on a clean stream a TLS connection whose final writes are accepted is closed if and only if its close_notify is out |
| Client.Client.constructor | freastal/src/server.c:30-54 | a fresh connection is an initial state |
| Client.Client.Compact | freastal/src/server.c:87-94 | the unread bytes move to the front unchanged |
| Client.Client.Reset | freastal/src/server.c:96-120 | the answered request is stepped over without moving the rest |
| Client.Client.AllocCb | freastal/src/server.c:146-173 | the offered length is the room behind the unread bytes, after compacting if nothing is in flight |
| Client.Client.HttpDispatch | freastal/src/server.c:175-278 | the verdict and the new state are those of the dispatch step |
| Client.Client.Refuse | freastal/src/server.c:190-221 | a malformed request ends in a final write on TLS and a close either way |
| Client.Client.OnRead | freastal/src/server.c:280-339 | a read of either kind, or its failure, is the machine's read step |
| Client.Client.OpenChain | freastal/src/server.c:1214-1217 | tls_wblock holds no chain when it is assigned |
| Client.Client.WriteResponse | freastal/src/server.c:344-361 | an answer is the machine's step; an open handle, a free write_req and an empty tls_wblock are its precondition |
| Client.Client.OnRespond | freastal/src/server.c:344-361 | those terms hold whenever the application answers a request in flight for the first time |
| Client.Client.OnWrite | freastal/src/server.c:363-440 | a write completion is the machine's step, close_notify included |
| Client.Client.SpillStash | freastal/src/server.c:828-836 | surplus goes behind what is spilled, or nothing changes |
| Client.Client.SpillDrain | freastal/src/server.c:838-851 | the spill refills read_buf in order, and an empty block is given up |
| Client.Client.ReadFailed | freastal/src/server.c:865-880 | with a response in flight the close is left to its completion |
| Client.Client.ReadFlow | freastal/src/server.c:888-915 | compaction, the oversized close and the arming decision |
| Client.Client.DecryptSweep | freastal/src/server.c:1004-1058 | in place or moved out, the sweep's plaintext is whole and the unread bytes are untouched |
| Client.Client.KeepSweep | freastal/src/server.c:1035-1087 | what fits is kept behind the unread bytes and the surplus is stashed |
| Client.Client.ReadSweep | freastal/src/server.c:946-1098 | the whole encrypted read is the machine's step |
| Client.Client.OnFinalWrite | freastal/src/server.c:1280-1288 | the one close after a final write |
| Client.Client.SendFinal | freastal/src/server.c:1321-1359 | reading stops first and write_req is free when the final write takes it |
| Client.Drive | freastal/src/server.c:280-440 | any run on the real buffers ends in the state the machine predicts |
| TicketRingInvariant.AfterAll | freastal/src/tls.c:245-259 | a publication leaves one slot and two scalars new and every other slot as it was |
| TicketRingInvariant.PublishHolds | freastal/src/tls.c:747-763 | it moves the ring on by exactly one generation |
| TicketRingInvariant.InPlaceStep | freastal/src/tls.c:245-259 | at every store the ring is the last publication with the first stores of the next |
| TicketRingTheorems.StepInv | freastal/src/tls.c:245-296 | every step of every process keeps the ring's invariant |
| TicketRingTheorems.SeqlockCoherence | freastal/src/tls.c:273-296 | a successful read holds the fields of one publication, the latest complete at its check, and reads never go back |
| TicketRingTheorems.HookWaitsForRotation | freastal/src/tls.c:906-926 | success means a publication began and ended after seq was sampled, odd or even, if and only if the sample was not 2^32 - 2 |
| TicketRingTheorems.HookReturnsExactly | freastal/src/tls.c:919-922 | a poll ends the wait if and only if a whole publication began after the sample and is over, and none is under way |
| TicketRingTheorems.PublicationsReachable | freastal/src/tls.c:747-763 | there are runs with any number of publications |
| TicketRingTheorems.HookAtWrap | freastal/src/tls.c:915-921 | a run in which the hook, sampling after 2^31 - 1 publications, succeeds without one |
| TicketRingTheorems.LiveKeysExact | freastal/src/server.h:178-219 | after n rotations the live keys are exactly generations max(0, n-2)..n and generation n seals |
| TicketLifetime.PickByName | freastal/src/tls.c:395-404 | the first live slot of that name, and none exactly when no live slot has it |
| TicketLifetime.PickedKeyIsMinted | freastal/src/tls.c:378-408 | what is picked, to seal or to open, is one whole minted key |
| TicketLifetime.OpensUntilRetired | freastal/src/tls.c:378-408 | a ticket's key opens it if and only if fewer than three publications came between |
| TicketLifetime.RotationsTakeLong | freastal/src/server.h:213-219 | three rotations an hour apart take at least a ticket's lifetime |
| TicketLifetime.ForeignNeverOpens | freastal/src/tls.c:434-453 | a ticket under a one-shot key is never opened |
| TicketRingTheorems.UndisturbedReadSucceeds | freastal/src/tls.c:273-296 | once something is published, a read with no writer step among its own returns the ring as it stands |
| TicketRingTheorems.LostReadsTried | freastal/src/tls.c:273-296 | a read gives up only after all its attempts, each of which loaded seq during a publication or before the first, or had a writer step between its load and its check |
| TicketRingTheorems.RetiredIsGone | freastal/src/tls.c:238-253 | halfway through a publication the retired key is zeroized and its slot not live |
| TicketLifetime.TicketOutlivesPromise | freastal/src/server.h:178-219 | with rotations at least ROTATE apart a ticket is openable on every process for LIFETIME if and only if the read behind its seal succeeded; one that gave up had made all its attempts |
| TicketLifetime.StaleExactly | freastal/src/tls.c:314-327 | the ring is found stale if and only if the read succeeded and its publication is older than period and grace together |
| TicketLifetime.LateOwnerNotStale | freastal/src/tls.c:298-313 | an owner late by no more than the grace is never found stale |
| TicketLifetime.FreshMeansRecent | freastal/src/tls.c:314-327 | "fresh" from a stable read bounds the age of the sealing key by ROTATE + GRACE and of every live key by RING * ROTATE + GRACE |
| LocalRing.Ring.RotateOnce | freastal/src/tls.c:497-503 | each slot holds the newest minted key that falls to it, and never-filled slots stay dead |
| LocalRing.Ring.SealKey | freastal/src/tls.c:454-457 | the newest key seals, and is live |
| LocalRing.Ring.ByName | freastal/src/tls.c:414-422 | a name is found exactly while its key is one of the last three minted |
| Rotator.KickIsServed | freastal/__init__.py:228-249 | wherever a kick falls, a rotation starts after it within five steps of the thread, unless it was stopped or the ring is gone |
| Rotator.FiveStepsNeeded | freastal/__init__.py:236-249 | a kick during a rotation is not served by that rotation |
| Rotator.StopIsHonoured | freastal/__init__.py:232-245 | after stop() at most the rotation already decided on starts, and the thread returns |
| Rotator.PeriodIsServed | freastal/__init__.py:236-248 | a wait that runs out leads to a rotation |
| Rotator.RotationsHaveCauses | freastal/__init__.py:236-249 | there are no more rotations than kicks, stops and waits that ran out |
| Rotator.FailureEnds | freastal/__init__.py:246-249 | a rotation that fails ends the thread for good |
| Rotator.RunJustified | freastal/__init__.py:236-249 | the thread returns only when stopped or when its ring is gone, and always when that is gone |
| TlsWrite.Slice | freastal/src/server.c:1120-1134 | the cut is the next bytes of the stream, in at most one part per remaining vector, and the cursor stays in bounds |
| TlsWrite.EncryptedSizeCovers | freastal/src/server.c:1100-1112 | the reservation covers the real ciphertext, and exceeds it by one framing exactly at record boundaries |
| TlsWrite.BlockChainBound | freastal/src/server.c:1211-1262 | n records take n blocks, or n-1 when the last is at most 468 bytes; no block overflows and the cap is never passed |
| TlsWrite.PlanHoldsCiphertext | freastal/src/server.c:1238-1262 | the blocks hold every plaintext byte and every record's framing |
| TlsWrite.PlaceFollowsPlan | freastal/src/server.c:1238-1250 | greedy placement is the closed-form plan |
| TlsWrite.Place | freastal/src/server.c:1243-1250 | the unreachable cap test never decides; only a missing block fails |
| TlsWrite.WriteChained | freastal/src/server.c:1172-1262 | the records concatenate to header ++ body, all but the last are maximal, and it succeeds exactly when the plan's blocks can be had and no send fails |
| TlsWrite.WriteResponse | freastal/src/server.c:1211-1262 | past the block cap a response goes out in one piece from a buffer that holds its ciphertext, any other in a chain; each succeeds exactly when its memory can be had and no send fails |
| ThreadedLists.ThreadsUnique | freastal/src/tls.c:1099-1110 | a list threaded through its blocks ends and holds one definite sequence |
| Pools.Pools.constructor | freastal/src/server.h:617-628 | an empty pool is valid |
| Pools.Pools.Connect | freastal/src/tls.c:1284-1301 | a new connection holds nothing |
| Pools.Pools.WbufGet | freastal/src/tls.c:1111-1125 | the block is the head of the free list, else what malloc gives, and nobody else's |
| Pools.Pools.WbufPut | freastal/src/tls.c:1127-1136 | the block is back on the free list, or freed when that is full |
| Pools.Pools.BigbufGet | freastal/src/tls.c:1156-1172 | the buffer is the retained one if large enough, else what malloc gives; as large as asked for and nobody else's |
| Pools.Pools.BigbufPut | freastal/src/tls.c:1174-1184 | it is retained or freed, and a buffer it displaces is freed |
| Pools.Pools.OpenFirst | freastal/src/server.c:1214-1218 | a response starts with one block no other response has; an earlier chain is released by then, which `SingleCloseSingleWriter` proves of every run |
| Pools.Pools.OpenNext | freastal/src/server.c:1245-1249 | a further block is linked behind the last |
| Pools.Pools.OpenBig | freastal/src/server.c:1220-1229 | the oversized buffer of the response is large enough and its size is recorded |
| Pools.Pools.Swap | freastal/src/tls.c:1196-1201 | picotls may replace what a block points at at any time |
| Pools.Pools.ReleaseBase | freastal/src/tls.c:1231-1239 | the three cases of base, each given to its owner |
| Pools.Pools.Release | freastal/src/tls.c:1220-1253 | every block of the response, its oversized buffer and picotls's replacements go back once, to the pool up to its cap and to the slot if larger; the counters drop by what was held; a second call does nothing |
| Pools.Pools.Close | freastal/src/tls.c:1303-1324 | closing releases whatever the response still holds |
| Pools.PoolConservation | freastal/src/server.h:617-628 | no block in two places; live counters are what connections hold; mallocs = live + retained + freed |
| Pools.AllReturned | freastal/src/tls.c:1303-1324 | with all connections closed the heap is the free list and the retained buffer |
| Slab.ClientSlab.Alloc | freastal/src/server.c:30-54 | the free list, then the slab, then malloc; never a client in use |
| Slab.ClientSlab.Free | freastal/src/server.c:56-67 | a slab slot goes to the free list, anything else to malloc |
| Slab.SpillPool.Get | freastal/src/tls.c:1256-1264 | a spill block no other connection has |
| Slab.SpillPool.Release | freastal/src/tls.c:1266-1282 | the block goes back once, to a bounded list |
| Decimal.DigitsDecode | freastal/src/server.h:712-737 | the decimal form is digits, decodes to the number and has no leading zero |
| Decimal.NumDigits | freastal/src/server.h:699-709 | the count is the length of the decimal form |
| Decimal.PairsAreDigits | freastal/src/server.h:691-696 | the digit-pair table holds the two digits of each value below 100 |
| Decimal.WriteUint | freastal/src/server.h:716-737 | exactly the decimal form is written at its place and nothing else; -1 and no change if it does not fit |
| HeaderChecks.TableIsToken | freastal/src/hdrvalid.h:36-61 | the 256-entry table is the token production of section 5.6.2 of RFC 9110 |
| HeaderChecks.HdrNameOk | freastal/src/hdrvalid.h:64-69 | accepts exactly nonempty tokens |
| HeaderChecks.HdrValueOk | freastal/src/hdrvalid.h:77-84 | accepts exactly values without control characters other than HTAB |
| HeaderChecks.StatusLineOk | freastal/src/hdrvalid.h:91-97 | accepts exactly three digits, then nothing or a space and a clean reason |
| HeaderChecks.CheckResponse | freastal/src/wsgi.c:56-112 | accepted exactly when status and every header are; otherwise the first offender is named |
| HeaderText.BlockRoundTrip | freastal/src/wsgi.c:241-315 | splitting a block on CRLF and the first colon gives back status and fields in order, then the empty line |
| Headers.EmitExact | freastal/src/wsgi.c:249-255 | appending is right if and only if every piece is below 2 GiB or a prefix of the truncated lengths, none of them negative, overruns the buffer |
| Headers.LongValueVanishes | freastal/src/wsgi.c:286-289 | an acceptable response with a 4 GiB value is formatted with an empty one instead of being refused |
| Headers.PiecesText | freastal/src/wsgi.c:257-309 | the appended pieces are the block of the app's fields and the missing Content-Length and Connection |
| Headers.HeaderRoundTrip | freastal/src/wsgi.c:241-315 | for every accepted response formatting gives the block exactly when it fits, if and only if no string is 2 GiB long or the truncated lengths overrun anyway; the block parses back to the response, then a Content-Length that denotes the body's exactly if the app gave none, then the server's Connection exactly if the app gave none |
| HeaderFormat.Append | freastal/src/wsgi.c:249-255 | one bounded copy behind what is there |
| HeaderFormat.AppendFields | freastal/src/wsgi.c:265-289 | the fields are emitted and the two flags say which names occurred, letter case aside |
| HeaderFormat.AppendNumber | freastal/src/wsgi.c:295-297 | the number is appended in place |
| HeaderFormat.Format | freastal/src/wsgi.c:241-315 | the buffer holds the emitted pieces |
| HeaderFormat.Respond | freastal/src/wsgi.c:56-112 | from start_response to the buffer: refused, or as intended exactly for formattable responses, and then too large or a block that comes apart into the response |
| HeaderCache.LowerName | freastal/src/asgi.c:359-368 | the uncached ASGI name is the lowercased one |
| HeaderCache.WsgiHeaderKey | freastal/src/wsgi.c:558-573 | the uncached key is HTTP_ and the uppercased name with underscores |
| HeaderCache.KeyOfLower | freastal/src/hdrcache.c:93-100 | the key built from the table's lowercase name is the one built from the name as sent |
| HeaderCache.KeysApart | freastal/src/wsgi.c:545-573 | a key has no lowercase letter or hyphen, and two names share one exactly if equal but for case and '-' against '_' |
| HeaderCache.FlipIsLower | freastal/src/hdrcache.c:42-56 | the bit-5 shortcut behind a letter test is case-insensitive equality |
| HeaderCache.EqualNoCase | freastal/src/hdrcache.c:48-56 | true exactly for equal names, letter case aside |
| HeaderCache.SliceOf | freastal/src/hdrcache.c:38-40 | the index selects exactly the entries of one length |
| HeaderCache.Cache.BuildKey | freastal/src/hdrcache.c:93-100 | the table's own key loop builds, before its terminator, the key the uncached builder would |
| HeaderCache.Cache.FillEntry | freastal/src/hdrcache.c:102-108 | an entry is filled exactly when both its objects can be allocated |
| HeaderCache.Cache.Init | freastal/src/hdrcache.c:76-117 | succeeds exactly on names sorted by length with memory for two objects each, and then table and index are built; a table whose first entry is filled is left alone |
| HeaderCache.Cache.Lookup | freastal/src/hdrcache.c:58-74 | hits exactly when the lowercased name is in the table, and the hit is what the uncached builders make |
| HeaderCache.NamesFit | freastal/src/hdrcache.c:13-32 | the server's names are 41, lowercase and in order |
| HeaderCache.ServerCache | freastal/src/hdrcache.c:76-117 | setting up the server's cache fails exactly for want of memory |
| HeaderCache.SetUpTwice | freastal/src/hdrcache.c:76-77 | a second set-up that reports success has built the cache if and only if the first succeeded or did not reach the first ASGI name |
| HeaderCache.SecondSetUpUnbuilt | freastal/src/hdrcache.c:76-77 | if memory runs out behind the first object, the second set-up reports success over an unbuilt cache |
| LoopBridge.TurnIsFifo | freastal/src/asgi.c:41-98 | a turn runs, in order, exactly the positions whose handle was cancelled neither before the turn nor by what ran earlier in it: all of them, unless one raises, and then those behind it stay in front of what was added |
| LoopBridge.QuietRunsThrough | freastal/src/asgi.c:57-61 | without an escaping exception no position is left over |
| LoopBridge.TurnRunsAll | freastal/src/asgi.c:69-98 | with nothing cancelled it runs the whole snapshot |
| LoopBridge.Bridge.DrainReady | freastal/src/asgi.c:69-98 | popping the live queue is the turn over the snapshot, also when it ends early |
| LoopBridge.Bridge.ArmWakeups | freastal/src/asgi.c:127-166 | idle is active iff something is ready and the timer iff something is scheduled |
| LoopBridge.Bridge.TimerCb | freastal/src/asgi.c:168-178 | armed afterwards |
| LoopBridge.Bridge.CheckCb | freastal/src/asgi.c:186-201 | armed afterwards, having run the snapshot |
| LoopBridge.Bridge.PollCb | freastal/src/asgi.c:211-218 | armed afterwards |
| LoopBridge.Bridge.DispatchSuspended | freastal/src/asgi.c:714-722 | armed afterwards, so libuv does not block before the task is stepped |
| LoopBridge.Bridge.DispatchInline | freastal/src/asgi.c:705-712 | still armed exactly when the app scheduled nothing the handles were not armed for |
| LoopBridge.Drive | freastal/src/asgi.c:127-218 | in any run whose inline apps schedule nothing libuv never blocks with a callback ready |

## Left out

- The internals of picohttpparser, picotls, OpenSSL and libuv: they enter as the contracts named above.
- The TLS handshake and its output writes, which use their own write requests: the model starts once they are done.
- Memory fences: processes interleave under sequential consistency.
- The asyncio bridge's timer deadlines: they depend on libuv's cached loop time; only active and inactive are modelled.
- Ticket lifetime under early rotation by SIGUSR1, which the server gives up on purpose: `TicketOutlivesPromise` assumes rotations at least ROTATE apart.
- HeaderFormat.Respond: assumes that the header list is not changed between the check and the formatting.
- Headers.HeaderRoundTrip: the same assumption.
- TicketRingTheorems.HookWaitsForRotation: assumes, like every theorem about the shared ring, fewer than 2^31 publications, since seq is a uint32.
- Pools.Pools.Swap: picotls's own sizes and the contents of its buffers are not modelled, only who owns them.
- TlsWrite.WriteChained: encryption is not modelled; a record is its plaintext and its framed size, and the blocks that can be had are a number rather than the pool itself.
- HeaderCache.Cache.Lookup: names are bytes; decoding them as Latin-1 is not modelled.
- The ASGI formatter, request scope and environ construction, and header pairs that are not exact two-item tuples or lists: they add only easy members to the WSGI formatter.
- CPython object handling, the coroutine driver, process start, socket binding, shared-memory creation, attach checks other than the two ceilings, and the benchmark and build scripts.
