# Verified model of rdmalib2

rdmalib2 wraps libibverbs in C++ objects. This project models its five stateful parts in Dafny 4.11 and
proves what they guarantee, for every input, every history of calls and every behaviour of the device.
`dafny verify dfyconfig.toml` checks the whole project.

| file | what it models |
|---|---|
| `Memory.dfy` | slices of memory regions over 64-bit arithmetic (mem.h) |
| `VerbModel.dfy` | the work-request builder on values: source fields, two-level cache, from-scratch build (verb_pre.h) |
| `VerbObject.dfy` | the same builder as the object it is in the source; each method is proved to be one step of the model |
| `VerbHistory.dfy` | theorems about whole histories of calls on one verb |
| `LastWrites.dfy` | what a request holds and when `get_wr` returns, told from the calls alone (verb_pre.h) |
| `VerbReplay.dfy` | any calls on the object are a run of the model |
| `SendPath.dfy` | posting one verb, and a range chained in place through `wr.next` (qp.h) |
| `Completions.dfy` | the four polling loops, as relations between a device, a queue and an ending (cq.h) |
| `CompletionQueue.dfy` | the completion queue as the object it is in the source (cq.h) |
| `Delivery.dfy` | from setters through the send log to completions |
| `QueuePair.dfy` | the queue pair's states, those of section 10.3.1 of the InfiniBand Architecture Specification, Volume 1 (qp_pre.h) |
| `Handshake.dfy` | the connection protocol between any number of clients and a server, in all interleavings (cm.h) |
| `HandshakeProgress.dfy` | which calls of the handshake can still go through (cm.h) |
| `ConnectionManager.dfy` | the two sides of one call in the form of the source (cm.h) |
| `Ownership.dfy` | who holds which device handle (cq.h, qp_pre.h, mem.h) |
| `Words.dfy` | machine words and shared helpers |

## How to read it

A panic ends the process, so a call that panics is a `None`, an `ok == false` or an ending that nothing follows.
Each stateful class comes with a function on values that says what one call does; the class's methods are proved
against it, and the theorems about histories are proved about it.

The device is a parameter. Its send side walks a chain of requests and logs what it finds behind the pointers;
a list that the vector has given up, or a count beyond what the vector holds, is logged as `Wild`. It may refuse
any request of a chain, having taken those before. A poll returns whatever the device is willing to hand over, or
an error. A modify call succeeds or is refused. A refusal panics.

## What the code does differently from its intent

Each difference is kept in the model and comes with the exact condition under which it does not show.

- `set_sgl_entry` and `add_sgl_entry` clear `constructed_real_sgl` but not `constructed_wr`, so `sg_list` and
  `num_sge` can be out of date (`WrittenAgreesExactly`, `EveryGetAgreesExactly`, `StaleCountWitness`). With that
  flag cleared as well, the cache is invisible (`RepairedRefinesBuild`).
- The range form of `post_verb` calls `get_wr` on the head once more before it posts, which unchains the head
  (`PostRange`, `PostRangeTruncatesExactly`). Taking the head as the loop left it gives the intended meaning
  (`PostRangeIntended`). As it stands the range form cannot be instantiated because of const mismatches
  (verb_pre.h:81-82, qp.h:65); its evident intent is modelled.
- `try_poll` passes the whole request instead of the bounded one, and `try_poll_with_wc` bounds by the original
  request instead of the rest (`NeverOverrunsExactly`, `TryFormsAgreeExactly`).
- A negative answer of `ibv_poll_cq` is added to the count like any other (`BlockingConsumesErrorsToo`), which can
  send `poll_with_wc` out of its vector (`PollWithWcOverrunsExactly`, `NeverOverrunsExactly`). A negative count makes
  `poll` run on until errors make up for it (`BlockingEndsExactly`).
- `rdma_memory_slice::slice` checks against the parent but bases the child on the region (`CompositionExactly`,
  `CompositionWithoutWrapExactly`).
- A queue pair that the server's callback does not keep is destroyed while its number is on its way to the
  client, and the number can be given to another (`DestinationRepeatsExactly`).

## Model

The theorems come first, area by area, then the methods that are the code.

| member | source | states |
|---|---|---|
| `VerbHistory.EveryGetAgreesExactly` | include/rdmalib2/predeclare/verb_pre.h:365-441 | Over whole histories, with no mention of buffers: every `get_wr` agrees with a fresh build iff at each that does not rebuild, the list has the entry count of the last rebuild and an atomic still has a fit list |
| `VerbHistory.WrittenAgreesExactly` | include/rdmalib2/predeclare/verb_pre.h:66-150 | As written, after every history: the next `get_wr` agrees with a from-scratch build (panics included) iff the request is to be rebuilt, or a slice is too long, or the entry count, the list's buffer and the atomic check are still those of the last rebuild |
| `VerbHistory.RepairedRefinesBuild` | include/rdmalib2/predeclare/verb_pre.h:66-150 | If the list mutators also cleared `constructed_wr`: after every history of calls, `get_wr` panics, or returns the request, exactly as one pass over the source fields would |
| `LastWrites.RequestIsLastWritten` | include/rdmalib2/predeclare/verb_pre.h:93-441 | After any history, written or repaired: whenever `get_wr` returns, id, opcode, signal flag, immediate value, address, key and every operand and mask of the request are the arguments of the last call that writes them, stale as its list may be; with a current cache its entries are the slices given since the list was set, in order, each with address, whole length and key; a receive has its id and its list |
| `LastWrites.GetWrReturnsExactly` | include/rdmalib2/predeclare/verb_pre.h:66-76 | `get_wr` returns iff every slice fits in 32 bits and a send has a known opcode, with a remote if it is one-sided, and one aligned word if it is an atomic to be rebuilt |
| `LastWrites.CallPanicsExactly` | include/rdmalib2/predeclare/verb_pre.h:66-150 | No other call panics, but an append to a list of 16 |
| `VerbHistory.RequestStandsExactly` | include/rdmalib2/predeclare/verb_pre.h:93-213 | Which calls leave a built request standing: those that write the id, opcode, notification or absence of an immediate that is there already, and as written the two that change the list |
| `VerbReplay.Replay` | include/rdmalib2/predeclare/verb_pre.h:66-441 | Any calls on an object, to the end or the first panic, are the run of the model; on a new verb every `get_wr` on the way gave what the source fields described iff none found another entry count than at the last rebuild, or an atomic without a fit list; and the request that a last `get_wr` leaves has in each field what the last call that writes it said |
| `VerbHistory.LengthConserved` | include/rdmalib2/predeclare/verb_pre.h:124-152 | After every history the list has at most 16 entries, `length` is the sum of their sizes modulo 2^64, and the 32-bit lengths of a built list add up to `length` without wrap |
| `VerbHistory.WrittenAtomicsExactly` | include/rdmalib2/predeclare/verb_pre.h:399-412 | As written, after every history: an atomic that `get_wr` returns has one aligned 8-byte entry iff the first slice has, and the list was not reallocated since the rebuild |
| `VerbHistory.RepairedAtomicsWellFormed` | include/rdmalib2/predeclare/verb_pre.h:443-446 | Repaired: every atomic that `get_wr` returns, after every history, has a remote target and one aligned 8-byte entry |
| `SendPath.SendQueue.PostRangeIntended` | include/rdmalib2/qp.h:40-82 | With the head's request taken as linked: if every verb can be posted, the range form returns or panics as posting each verb alone does and leaves the same log, even at a refusal halfway; otherwise it panics before the device sees anything; every verb ends unchained |
| `SendPath.SendQueue.PostRange` | include/rdmalib2/qp.h:40-82 | As written: it returns or panics as posting the first verb alone would, and leaves that log |
| `SendPath.PostRangeTruncatesExactly` | include/rdmalib2/qp.h:61-69 | So the written range form equals posting one by one iff the range has one verb or the device refuses the very first request |
| `Completions.RunConsumesPrefix` | include/rdmalib2/cq.h:81-147 | All four loops, every device, counts of either sign: a loop consumes a prefix of the queue; one that stops has counted it, less the errors it was answered; one that panics has consumed a failed completion |
| `Completions.BlockingTakesExactly` | include/rdmalib2/cq.h:81-108 | However the device splits the queue, `poll(k)` and `poll_with_wc(k)` that meet no error consume exactly the first k completions, and panic iff one of these failed |
| `Completions.BlockingConsumesErrorsToo` | include/rdmalib2/cq.h:81-108 | A negative answer is not treated as an error: a blocking loop that stops has consumed exactly one completion more than asked for every unit of it, even from a negative count |
| `Completions.BlockingEndsExactly` | include/rdmalib2/cq.h:81-108 | On a device past its errors that always yields again, `poll(k)` ends iff k is not negative and the queue holds k completions or a failed one; for `poll_with_wc` a negative k asks for nothing |
| `Completions.PollWithWcOverrunsExactly` | include/rdmalib2/cq.h:90-108 | Run by run: `poll_with_wc` leaves its vector iff some poll hands over a good batch while fewer completions have been consumed than units of error answered |
| `Completions.NeverOverrunsExactly` | include/rdmalib2/cq.h:81-147 | The exact sizes that are safe on every device: all for `poll`; only k <= 0 for `poll_with_wc`; k <= 32 for `try_poll` as written; k <= 32 or a multiple of 32 for `try_poll_with_wc` as written; all once a trying form's request is bounded by what is still wanted |
| `Completions.TryingIsBlockingExactly` | include/rdmalib2/cq.h:81-147 | All four loops on one device and queue: a trying form at a safe size ends exactly as either blocking form does iff it does not come short |
| `Completions.TryFormsAgreeExactly` | include/rdmalib2/cq.h:110-147 | The two trying forms end alike on every device iff k <= 32 as written, and for all k once bounded |
| `Completions.BlockingFormsAgree` | include/rdmalib2/cq.h:81-108 | `poll` and `poll_with_wc` do the same on every device, unless the latter leaves its vector |
| `Completions.ShortOnlyIfAPollWas` | include/rdmalib2/cq.h:110-147 | A trying form at a safe size comes short only if the device offered fewer than 32 on the last poll of the run, or the queue is empty |
| `CompletionQueue.Cq.TryPollWithWcBounded` | include/rdmalib2/cq.h:124-147 | With the request bounded by what is still wanted: never out of bounds for any k, the vector has operation, id, byte length and immediate value of the first completions consumed, in order, and is shorter than k only if the last poll came back short |
| `Delivery.NotifiedPostsDrainExactly` | include/rdmalib2/cq.h:81-108 | Post any verbs after any histories; polling for as many completions as there were notified verbs drains the queue exactly, and what it consumes are the good completions of the notified verbs, by id, in posting order |
| `Delivery.PollNotified` | include/rdmalib2/cq.h:90-108 | The same on the queue object: without an error answered, the vector has one entry for each notified verb, in posting order, with its id and the operation, length and immediate value of its completion |
| `Delivery.LoggedIsLastWritten` | include/rdmalib2/qp.h:14-36 | A verb with any history, posted: the request that reaches the log has in each field what the last call that writes it said, and with a current cache the slices given, in order |
| `Delivery.WrittenLogIsFreshExactly` | include/rdmalib2/qp.h:14-36 | Any histories on any verbs, then posting them: as written, the log holds the requests their source fields describe iff the cache guard holds of each |
| `Delivery.RepairedLogIsFresh` | include/rdmalib2/qp.h:14-36 | Repaired, it always does |
| `Delivery.WrittenLogAtomicsExactly` | include/rdmalib2/predeclare/verb_pre.h:399-412 | As written, every atomic on the log is on an RC queue pair, and is well formed iff its verb's first slice is one aligned word and its list was not reallocated |
| `Delivery.RepairedLogAtomics` | include/rdmalib2/predeclare/qp_verb_compat.h:16-40 | Repaired, every atomic on the log is on an RC queue pair with a remote target and one aligned 8-byte entry |
| `Delivery.OneSidedOnlyOnRc` | include/rdmalib2/predeclare/verb_pre.h:387-431 | Every request on the log with a remote target is on an RC queue pair, and carries the address and key its verb was last given |
| `Delivery.SendPostableExactly` | include/rdmalib2/predeclare/qp_verb_compat.h:16-40 | For every opcode and queue pair type, after any history: with slices that fit, two-sided sends go through on RC, UD and raw packet; reads, writes and writes with immediate on RC alone, iff they have a remote; atomics on RC alone, iff they have a remote and one aligned word when to be rebuilt; nothing on UC |
| `Delivery.RecvPostableExactly` | include/rdmalib2/qp.h:27-29 | A receive goes through on every queue pair iff every slice fits |
| `Handshake.RtsMeansPaired` | include/rdmalib2/cm.h:33-70 | In every reachable state of any number of clients and calls, with any refusals: a client queue pair in RTS has as destination the server queue pair made for one of its own calls, which reached RTS with this client as destination, and each side expects the PSN the other sends |
| `Handshake.PairingIsInjective` | include/rdmalib2/cm.h:51-67 | No two connected calls share a client or a server queue pair; the destinations differ iff the numbers of these do, and so while neither is destroyed |
| `Handshake.DestinationRepeatsExactly` | include/rdmalib2/cm.h:66 | In every reachable state: another client can be connected to the destination of a connected one iff the number of that one's server queue pair is free, which it is only once the pair is released |
| `Handshake.HandlerPanicsExactly` | include/rdmalib2/predeclare/qp_pre.h:207-311 | In every reachable state the handler's next modify call ends the server's process iff the device refuses it: its assertions never fail |
| `Handshake.ClientPanicsExactly` | include/rdmalib2/predeclare/qp_pre.h:207-311 | A live client that has its answer can always make its next modify call, and panics iff the device refuses it, or it is about to start and another call has already taken the queue pair out of RESET |
| `HandshakeProgress.CallGoesThrough` | include/rdmalib2/cm.h:33-70 | From every reachable state, a call at any stage, however old and whatever else is in flight, can be brought to its end on any free number if its client is alive, the queue pair is in RESET or taken by this call, and the server is up or has answered; its client is then paired |
| `HandshakeProgress.CallCanConnectExactly` | include/rdmalib2/cm.h:33-70 | These are exactly the calls that ever can: from every other state no sequence of steps of anybody connects the call |
| `HandshakeProgress.AnswerGoesThrough` | include/rdmalib2/cm.h:49-70 | With the server up every request can be answered, on any free number, whether or not its client is still there |
| `HandshakeProgress.AskExactly` | include/rdmalib2/cm.h:33-37 | Any live client can ask at any time, whatever it has asked before, and sends its own address and PSN |
| `HandshakeProgress.ReleaseExactly` | include/rdmalib2/cm.h:66 | A call's server queue pair can be given up from the moment the callback has it and not before, or when the server is gone |
| `Handshake.HandshakeGoesThrough` | include/rdmalib2/cm.h:33-67 | From any state with both sides up, whatever else is in flight, a client in RESET can be connected, and nothing else changes |
| `QueuePair.RunClimbsLadder` | include/rdmalib2/predeclare/qp_pre.h:207-311 | Every run of calls, cut short by a panic or not, enters only the next states of RESET, INIT, RTR, RTS, one by one |
| `QueuePair.OneSetUpEver` | include/rdmalib2/predeclare/qp_pre.h:123-143 | A run of calls that all return holds at most one set-up call, and ends in RTS iff it holds one, else in RESET |
| `QueuePair.CallReturnsExactly` | include/rdmalib2/predeclare/qp_pre.h:123-143 | `connect` returns iff the queue pair is RC, in RESET and no move is refused; `bind_port` on UD and raw packet iff in RESET and no move is refused, and always on the connected types |
| `QueuePair.ConnectedToTheOneRemote` | include/rdmalib2/predeclare/qp_pre.h:135-143 | Whichever call connected an RC queue pair, its remote's address and PSN are the destination and receive PSN at the end of the run, with the call's port and the library's send PSN |
| `QueuePair.BoundToTheOnePort` | include/rdmalib2/predeclare/qp_pre.h:123-133 | Whichever call bound a new UD or raw packet queue pair, its port is the one at the end of the run; UD then has the library's key and send PSN, raw packet neither, and neither has a destination |
| `QueuePair.BoundNeverConnected` | include/rdmalib2/predeclare/qp_pre.h:273-275 | No run of calls gives a UD or raw packet queue pair a destination |
| `Ownership.HandlesHaveOneOwner` | include/rdmalib2/cq.h:57-77 | Over any run of creation, move construction, move assignment (to itself included) and destruction: each live handle is held by exactly one wrapper, none is destroyed twice, each created one is live or destroyed |
| `Ownership.NothingLeaks` | include/rdmalib2/predeclare/qp_pre.h:97-119 | When all wrappers have died, every handle ever created has been destroyed exactly once |
| `Ownership.HandlesGoWhereTheyAreMoved` | include/rdmalib2/predeclare/qp_pre.h:97-119 | Over any run: a handle is held by the wrapper that the creations, moves and assignments alone say, and by no other, and is destroyed iff they say nobody holds it any more |
| `Memory.ChainInsideExactly` | include/rdmalib2/mem.h:242-254 | For chains of slices of any depth that do not panic: all slices lie in the region iff no addition wraps |
| `Memory.CompositionExactly` | include/rdmalib2/mem.h:242-250 | As written, a chain of any depth, wrapping or not, composes iff the offsets before the last add up to 0 modulo 2^64 and the one slice passes the region's check |
| `Memory.CompositionWithoutWrapExactly` | include/rdmalib2/mem.h:242-250 | When no addition wraps, slicing composes iff every offset before the last is 0 |
| `Memory.WrittenChainIsLastCut` | include/rdmalib2/mem.h:242-250 | As written, a chain of any depth is the single slice of the region at the last offset |
| `Memory.IntendedChainIsOneSlice` | include/rdmalib2/mem.h:209-213 | With children based on their parents, a chain of any depth, wrapping or not, is the one slice at the sum of the offsets modulo 2^64 iff that call does not panic, and it never does when no addition wraps |
| `Memory.IntendedChainInside` | include/rdmalib2/mem.h:242-250 | And that slice lies in the region whenever no addition wraps |
| `Memory.RegionSliceInsideExactly` | include/rdmalib2/mem.h:290-299 | A slice that does not panic lies in its region iff offset + size does not wrap |
| `Memory.SliceMadeExactly` | include/rdmalib2/mem.h:242-299 | Each slicing call makes a slice iff offset + size fits or wraps to fit, and the slice has the size asked for, at that offset from its base modulo 2^64 |
| `Memory.SubSliceFromNeverPanics` | include/rdmalib2/mem.h:252-254 | The one-argument form on a slice never panics, reaches to the slice's end for offsets up to its size, and lies in the region iff the offset is at most that |
| `VerbModel.StepKeepsInv` | include/rdmalib2/predeclare/verb_pre.h:78-441 | Every call keeps the invariant of both forms: the list marked built is the list of the fields, and of the request marked built only list pointer, count and atomic check can be out of date |
| `VerbModel.StepKeepsRepairedInv` | include/rdmalib2/predeclare/verb_pre.h:124-150 | In the repaired form every call keeps more: a request marked built has a built list, the vector's buffer and its count |
| `VerbModel.CapableExactly` | include/rdmalib2/predeclare/verb_pre.h:443-446 | On every list that the setters make, `is_atomic_capable`, which looks only at the total length, is true iff the list is one aligned entry of 8 bytes |
| `VerbObject.Verb.GetWr` | include/rdmalib2/predeclare/verb_pre.h:66-76 | Panics iff `Fetch` does, otherwise leaves the fetched request, unchained |
| `VerbObject.Verb.FillRealSgl` | include/rdmalib2/predeclare/verb_pre.h:355-363 | The loop fills the list with one entry per slice, panics iff a slice is longer than 32 bits allow, and reallocates iff the list outgrows the capacity |
| `VerbObject.Verb.FillWr` | include/rdmalib2/predeclare/verb_pre.h:365-441 | Overwrites the request unless it is marked built; panics iff opcode, target or atomic check demand it |
| `VerbObject.Verb.SetSglEntry` | include/rdmalib2/predeclare/verb_pre.h:124-130 | Replaces the list and its length; the request's flag stays as it was |
| `VerbObject.Verb.AddSglEntry` | include/rdmalib2/predeclare/verb_pre.h:133-150 | Appends an entry and panics iff the list already holds 16; the request's flag stays as it was |
| `VerbObject.Verb.SetNext` | include/rdmalib2/predeclare/verb_pre.h:81-84 | Fetches the next verb, which clears its `next`, and points this one to it |
| `SendPath.SendQueue.PostVerb` | include/rdmalib2/qp.h:14-36 | Panics iff the opcode is missing or unfit for the queue pair, the build panics, or the device refuses; otherwise logs exactly this verb's request and leaves it unchained |
| `SendPath.SendQueue.LinkOne` | include/rdmalib2/qp.h:48-59 | One iteration on any two verbs with any old `next` pointers: fetches both, links the first to the second, leaves the chain before it as it was |
| `SendPath.SendQueue.Link` | include/rdmalib2/qp.h:47-59 | After the loop the walk from the first request visits exactly the range's requests in order and ends in null; it panics iff some verb could not be posted alone |
| `SendPath.SendQueue.Unlink` | include/rdmalib2/qp.h:78-81 | The cleanup leaves every `next` null and every request as it is |
| `SendPath.PostEachReturnsExactly` | include/rdmalib2/qp.h:14-36 | Posting any verbs one by one goes through iff each can be posted and the device takes every request |
| `SendPath.PostEachLogsRequests` | include/rdmalib2/qp.h:14-36 | If only the device can stop it, posting one by one leaves the log of a device that was handed all the requests at once |
| `CompletionQueue.Cq.DoPoll` | include/rdmalib2/cq.h:167-179 | Returns the batch, and panics iff a completion in it failed |
| `CompletionQueue.Cq.Poll` | include/rdmalib2/cq.h:81-88 | It returns having consumed as many completions as count and errors add up to, all of them good, or panics on a failed one; without errors it returns iff the first k completions succeeded |
| `CompletionQueue.Cq.PollWithWc` | include/rdmalib2/cq.h:90-108 | If no poll failed it returns iff the first k completions succeeded, and then its vector has for each of them, in order, its operation, id, byte length and immediate value; a negative k throws before any poll |
| `CompletionQueue.Cq.TryPoll` | include/rdmalib2/cq.h:110-122 | The code's loop is the written form of the relation; a k that is not positive polls nothing |
| `CompletionQueue.Cq.TryPollWithWc` | include/rdmalib2/cq.h:124-147 | As written: the vector has operation, id, byte length and immediate value of the first `tot` completions consumed, in order; a negative total makes the resize throw; no write is out of bounds if k <= 32 or k is a multiple of 32 |
| `QueuePair.RdmaQp.Connect` | include/rdmalib2/predeclare/qp_pre.h:135-143 | Ends as the call relation says, including where a refusal of the device leaves the record |
| `QueuePair.RdmaQp.BindPort` | include/rdmalib2/predeclare/qp_pre.h:123-133 | The same for `bind_port`, which on RC only stores the port |
| `ConnectionManager.Cm.Establish` | include/rdmalib2/cm.h:51-67 | The handler's code: a new queue pair connected to the caller, and a reply that describes it; panics iff the device refuses a move |
| `ConnectionManager.Cm.Connect` | include/rdmalib2/cm.h:33-47 | The client's code with no call in between: returns iff the queue pair was in RESET and no move is refused, and then both ends are paired |
| `Handshake.RunKeepsInv` | include/rdmalib2/cm.h:33-70 | So does every interleaving |
| `Ownership.Wrapper.MoveFrom` | include/rdmalib2/predeclare/qp_pre.h:100-102 | The new wrapper holds, in order, exactly what the other held, and the other is empty |
| `Ownership.Wrapper.GiveBack` | include/rdmalib2/mem.h:102-118 | Every handle held is destroyed once, in order, and the wrapper is empty |
| `Ownership.Wrapper.Assign` | include/rdmalib2/mem.h:94-100 | Self-assignment changes nothing; otherwise the old handles are destroyed, in order, the wrapper holds what the other held, and the other is empty |

## Behind the model

The setters, the parts of the methods above, and the steps and witnesses of the theorems.

| member | source | states |
|---|---|---|
| `VerbHistory.FetchIsFreshExactly` | include/rdmalib2/predeclare/verb_pre.h:355-441 | The same equivalence at any state that keeps the invariant, which is where the cases of the two dirty flags are worked out |
| `VerbHistory.StaleCountWitness` | include/rdmalib2/predeclare/verb_pre.h:132-150 | A concrete history on which the written form fails: set one entry, fetch, add another; the next request has one entry and a fresh one two |
| `VerbModel.FetchedIsStable` | include/rdmalib2/predeclare/verb_pre.h:66-76 | A second `get_wr` in a row changes nothing and returns the same request |
| `VerbObject.Verb.constructor` | include/rdmalib2/predeclare/verb_pre.h:448-466 | A new verb has nothing set and nothing cached |
| `VerbObject.Verb.SetId` | include/rdmalib2/predeclare/verb_pre.h:93-99 | Is the `SetId` step; the flag is cleared only if the id changes |
| `VerbObject.Verb.SetOp` | include/rdmalib2/predeclare/verb_pre.h:102-111 | Is the `SetOp` step; the flag is cleared only if the opcode changes |
| `VerbObject.Verb.SetRemoteMemory` | include/rdmalib2/predeclare/verb_pre.h:154-168 | Is the `SetRemote` step: the target changes and the request is to be rebuilt |
| `VerbObject.Verb.SetNotify` | include/rdmalib2/predeclare/verb_pre.h:170-178 | Is the `SetNotify` step, for both values |
| `VerbObject.Verb.SetImm` | include/rdmalib2/predeclare/verb_pre.h:191-203 | Is the `SetImm` step: the request will carry this immediate value |
| `VerbObject.Verb.ClearImm` | include/rdmalib2/predeclare/verb_pre.h:205-213 | Is the `ClearImm` step: the request will carry none |
| `VerbObject.Verb.SetCas` | include/rdmalib2/predeclare/verb_pre.h:215-227 | Sets opcode, compare and swap together |
| `VerbObject.Verb.SetFaa` | include/rdmalib2/predeclare/verb_pre.h:229-240 | Sets opcode and addend; the swap operand stays |
| `VerbObject.Verb.SetMaskedCas` | include/rdmalib2/predeclare/verb_pre.h:242-258 | Sets opcode and all four operands |
| `VerbObject.Verb.SetMaskedFaa` | include/rdmalib2/predeclare/verb_pre.h:260-273 | Sets opcode, addend and its mask; the swap operands stay |
| `VerbObject.Verb.SetCompare` | include/rdmalib2/predeclare/verb_pre.h:275-286 | Changes only the compare operand |
| `VerbObject.Verb.SetSwap` | include/rdmalib2/predeclare/verb_pre.h:288-299 | Changes only the swap operand |
| `VerbObject.Verb.SetCompareMask` | include/rdmalib2/predeclare/verb_pre.h:301-312 | Changes only the compare mask |
| `VerbObject.Verb.SetSwapMask` | include/rdmalib2/predeclare/verb_pre.h:314-325 | Changes only the swap mask |
| `VerbObject.Verb.SetAdd` | include/rdmalib2/predeclare/verb_pre.h:327-338 | Changes only the addend, which shares its field with compare |
| `VerbObject.Verb.SetAddMask` | include/rdmalib2/predeclare/verb_pre.h:340-350 | Changes only the addend's mask, which shares its field with the compare mask |
| `VerbObject.Verb.FillTarget` | include/rdmalib2/predeclare/verb_pre.h:387-436 | Fills the union member of the opcode, with the checks in the source's order |
| `VerbObject.Verb.CheckAtomicCapable` | include/rdmalib2/predeclare/verb_pre.h:443-446 | With a conserved length: true iff the only entry is an aligned word |
| `VerbObject.Verb.ClearNext` | include/rdmalib2/predeclare/verb_pre.h:87-90 | Leaves the request with no successor |
| `SendPath.SendQueue.Walk` | include/rdmalib2/qp.h:64-69 | A device that follows `next` from the head of such a chain logs its requests in order up to the first it refuses, and the post succeeds iff it refuses none |
| `SendPath.SendQueue.PostHead` | include/rdmalib2/qp.h:64-69 | The second `get_wr` on the head keeps its request and drops its successor, so the device is handed one request |
| `SendPath.LinkedOneMore` | include/rdmalib2/qp.h:48-59 | The loop invariant: iterations that go through extend the linked prefix, and one that panics shows that some verb could not be posted |
| `Completions.PollWithWcErrorWitness` | include/rdmalib2/cq.h:90-108 | A device whose first answer is -1 makes `poll_with_wc` write before the start of its vector |
| `Completions.FullDeviceIsDrained` | include/rdmalib2/cq.h:110-147 | If the device offers 32 on every poll of the run, the loop takes min(k, waiting) |
| `Completions.TryingFinishes` | include/rdmalib2/cq.h:110-147 | Every trying form ends on every device |
| `Completions.RunsAgree` | include/rdmalib2/cq.h:81-147 | The device and the queue determine how a loop ends; two forms that step alike end alike |
| `Completions.SilentDeviceIsAwaited` | include/rdmalib2/cq.h:81-108 | On a device that is silent for good a blocking form ends only if it wants nothing |
| `Completions.ShortExactly` | include/rdmalib2/cq.h:110-147 | It comes short iff the last poll handed over less than it was asked for |
| `Completions.TriesOnlyWhileFull` | include/rdmalib2/cq.h:110-147 | At a safe size a trying form polls again only after a poll that gave 32, or all that was still wanted |
| `CompletionQueue.Cq.PollAway` | include/rdmalib2/cq.h:81-88 | The code's loop is the `poll` form of the relation for counts of either sign, and ends on every patient device that has enough |
| `CompletionQueue.Cq.PollVector` | include/rdmalib2/cq.h:90-108 | The loop of `poll_with_wc` ends on every patient device; with no error answered its vector is the first k completions in order |
| `CompletionQueue.Cq.constructor` | include/rdmalib2/cq.h:39-55 | A new queue has all that the device will deliver before it |
| `CompletionQueue.Cq.TryVector` | include/rdmalib2/cq.h:124-147 | The loop of `try_poll_with_wc`, written or bounded, is that form of the relation, and its vector the completions it has counted |
| `Delivery.SignalledAreNotified` | include/rdmalib2/predeclare/verb_pre.h:369-380 | The signalled requests of a log are those of the notified verbs, with their ids, in order, out of date as their lists may be |
| `QueuePair.NoSetUpAfterReset` | include/rdmalib2/predeclare/qp_pre.h:209 | Once a queue pair has left RESET no further set-up call returns, and nothing changes it |
| `QueuePair.RdmaQp.constructor` | include/rdmalib2/predeclare/qp_pre.h:313-315 | A new queue pair is in RESET with nothing set, on port 1 |
| `QueuePair.RdmaQp.ModifyToInit` | include/rdmalib2/predeclare/qp_pre.h:207-241 | Moves RESET to INIT, or panics and changes nothing |
| `QueuePair.RdmaQp.ModifyToRtr` | include/rdmalib2/predeclare/qp_pre.h:243-283 | Moves INIT to RTR with the destination of connected types, or panics and changes nothing |
| `QueuePair.RdmaQp.ModifyToRts` | include/rdmalib2/predeclare/qp_pre.h:285-311 | Moves RTR to RTS with the send PSN except for raw packet, or panics and changes nothing |
| `Handshake.SameDestinationWitness` | include/rdmalib2/cm.h:66 | If a callback drops what it is given, two connected clients can end up addressing the same queue pair number |
| `Handshake.StepKeepsInv` | include/rdmalib2/cm.h:33-70 | Every step of every party, refusals included, keeps the two-sided invariant |
| `Handshake.ClientModifyKeepsClients` | include/rdmalib2/predeclare/qp_pre.h:135-143 | At most one call connects a client, through each of the client's modify calls and its panic |
| `Handshake.ServerModifyKeepsServers` | include/rdmalib2/cm.h:51-55 | A handler's modify call touches no other handler's queue pair |
| `Handshake.FollowerSharesExactly` | include/rdmalib2/cm.h:33-67 | A client that connects next reaches RTS, with the destination of a connected one iff it is given the same number |
| `Ownership.StepKeepsInv` | include/rdmalib2/mem.h:82-118 | Each operation keeps unique ownership and the account of handles |
| `Ownership.Wrapper.Create` | include/rdmalib2/cq.h:39-55 | The new wrapper, and no other, holds the new handles, in the order of creation |
| `Ownership.Wrapper.Die` | include/rdmalib2/cq.h:70-77 | The wrapper's handles are destroyed and it is gone |
| `Memory.RegionSliceFromNeverPanics` | include/rdmalib2/mem.h:301-303 | The one-argument form of the region never panics, reaches to the region's end for offsets up to its size, and lies in the region iff the offset is at most that |
| `Memory.WholeIsTheFullSlice` | include/rdmalib2/mem.h:209-216 | A region turned into a slice is what the slicing calls give for offset 0 and the full size |
| `Memory.SamePanics` | include/rdmalib2/mem.h:242-248 | Both bases panic on the same chains |

## Left out

- CompletionQueue.Cq.Poll: a call that never returns is outside its precondition, since a method has to end (`BlockingEndsExactly` and `SilentDeviceIsAwaited` say when that is); the overflow of the `int` counters, which needs 2^31 units of error, is not modelled.
- VerbObject.Verb.FillRealSgl: the capacity a vector reserves beyond its need is one arbitrary number per call, and the bytes left in a buffer the vector has given up are not modelled.
- SendPath.SendQueue.Link: the range is a sequence of distinct verbs, as the elements of a container are; the same verb twice in one range is not covered. A range of receives is rejected at compile time (verb_pre.h:114-116).
- Handshake.RtsMeansPaired: the record of a client whose process has ended stays as it was; the queue pairs of a server whose process has ended are released one by one, in any order and at any time.
- Copy and move of `rdma_verb`, which carry only the list and the notification: a verb keeps one identity.
- Slices hold their region by value, so a region moved or destroyed after slicing is not modelled; nor are `as`, `as_ptr` and the permission and feature masks.
- Variadic parameter packs: a call with several slices is a `SetSgl` followed by `AddSgl`s.
- One `Wrapper` stands for `rdma_cq`, `rdma_qp` and `rdma_memory_region`; the plain values they move along (port, pointer, size) and the order between objects of different classes are not modelled.
- Ports other than 1, device discovery, gid and port queries, resource domains, device memory allocation and zeroing, and the transfer of data are not part of this model.
- The remote procedure calls are reduced to their requests and replies; `stop` of `run_server_with_stop`, sockets, logging and exit codes are not part of this model.
- UC queue pairs appear only as a type that `connect` rejects; XRC and DC types are rejected at compile time in the source.
