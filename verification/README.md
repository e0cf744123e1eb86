# Block layer, cipher and user programs of an Android kernel tree, in Dafny

A model of the hard parts of this repository and proofs about them.

- `Basics`: what the models share.
- `Throttle`, `ThrottleQueue`: the token slices and the service tree of block/blk-throttle.c.
- `Flush`, `FlushQueue`: the FLUSH/FUA sequencer of block/blk-flush.c.
- `Completion`: partial completion of requests in block/blk-core.c.
- `Segments`: segment counting, merging and scatter-gather mapping of block/blk-merge.c.
- `KeyedLists`, `Deadline`: the deadline scheduler of block/deadline-iosched.c.
- `MergeHash`: the merge hash of block/elevator.c under the merges of block/blk-core.c and block/blk-merge.c.
- `AesField`, `AesCipher`, `AesGeneric`: the table-driven cipher of crypto/aes_generic.c.
- `Tags`: the tag allocator of block/blk-tag.c.
- `CashierQueue`, `BurgerBuddies`, `FairService`, `ShopRuns`: the cook, cashier and customer threads of Project 1/BBC.
- `ProcessTree`, `ProcessDisplay`: the process tree that Project 1/ptreemodule writes and Project 1/ptree prints.

Code that updates state in place is a class or a method on arrays, proved against functions on values; the properties
over whole runs are lemmas about those functions, or invariants that every method keeps. Time is a natural number that
does not decrease, and arithmetic does not overflow.

`dafny verify dfyconfig.toml` checks everything.

## Where the code and its own words differ

- The description of blk_update_request (block/blk-core.c:2089-2090) says that passing blk_rq_bytes() guarantees a
  finished request. `Completion.FullCompletion` shows when the code does that: a chain of several bios that ends in an
  empty one is not finished (`Completion.EmptyBioTrails`).
- The wait that tg_with_in_bps_limit computes can be one jiffy short (`Throttle.BpsWaitIsOneShort`).
  `Throttle.BpsWaitExact` says exactly when it is not, and one jiffy later always suffices.
- blk_queue_resize_tags copies the old arrays whole even when init_tag_map has cut the new depth below the old one, and
  then writes past the new arrays, whether or not a tag is in use (`Tags.OverrunExample`). `Tags.CopiesInside` gives the
  exact condition, and `Tags.ResizeInv` shows that every tag survives otherwise.
- The tags reserved for sync requests are not kept from async ones when max_depth is lowered under them
  (`Tags.ShrinkingBreaksTheReservation`); `Tags.ReservedIff` gives the exact condition over runs.
- ptreemodule.c:31 says that sibling links of last children are fixed while printing. display leaves those of the last
  record's ancestors as they were (`ProcessDisplay.Display`, `ProcessDisplay.UnrepairedExample`), and a link that
  happens to name the record after the subtree makes the printed depth wrong (`ProcessDisplay.StrayExample`).

## Where a simpler property fails

- When no cashier and no customer of BurgerBuddies.c can move, the counter need not be waiting for a burger on an empty
  rack: a cook who has checkRack can be in the way (`ShopRuns.HeldUpByCook`). `BurgerBuddies.AwaitsOnEmptyRack` says
  exactly when it is waiting, and `BurgerBuddies.NoLostWakeup` that a cook can move in both cases.
- rack does not stay within racksize (`ShopRuns.RackOverflows`), because rackFull is posted whether or not a cook waits.
  `ShopRuns.RackBoundIff` gives the exact condition over runs.
- A window that does not begin with a new slice can see more than the rate over its length and one slice
  (`Throttle.WindowBurst`). `Throttle.WindowBound` says how much.
- A bio without data can be ended with an error although no failed part holds a byte of it
  (`Completion.EmptyBioFails`); for bios with data `Completion.SplitErrors` is an equivalence.

## Model

| member | source | states |
|---|---|---|
| Throttle.RateBound | Project 2/kernel/goldfish/block/blk-throttle.c:488-582 | over every run of offers between limit changes, whatever trims, extensions and new slices happen, bytes charged times HZ is at most bps * (now - start + throtl_slice), and the same for iops |
| Throttle.WindowBound | Project 2/kernel/goldfish/block/blk-throttle.c:488-582 | over any window of such a run, from time t to the last offer, bytes charged times HZ is at most bps * (now - t + throtl_slice) plus what the slice open at t had allowed until then and was not used, and the same for iops |
| Throttle.WindowInv | Project 2/kernel/goldfish/block/blk-throttle.c:686-747 | everything charged since t is accounted for by the slice open at t or by one opened later |
| Throttle.WindowBurst | Project 2/kernel/goldfish/block/blk-throttle.c:584-747 | a run in which a bio that waited takes at one moment more than twice what the rate allows over one slice, so the last term is needed |
| Throttle.RunInv | Project 2/kernel/goldfish/block/blk-throttle.c:686-747 | the running slice always accounts for everything charged since the start of the run |
| Throttle.ChargeKeepsRate | Project 2/kernel/goldfish/block/blk-throttle.c:737-747 | charging a bio that the checks let through stays within one slice ahead of both rates |
| Throttle.TrimKeepsRate | Project 2/kernel/goldfish/block/blk-throttle.c:525-582 | trimming forgets no more bytes and requests than the trimmed slices allow |
| Throttle.RefusalKeepsRate | Project 2/kernel/goldfish/block/blk-throttle.c:686-735 | a refusal, with its new or extended slice, keeps the accounts sound |
| Throttle.DispatchKeepsRate | Project 2/kernel/goldfish/block/blk-throttle.c:782-800 | check, charge and trim together keep both rates |
| Throttle.MayDispatchAgain | Project 2/kernel/goldfish/block/blk-throttle.c:686-735 | asking again at the same jiffy gives the same answer and changes nothing |
| Throttle.RefusalWaits | Project 2/kernel/goldfish/block/blk-throttle.c:584-674 | a refusal asks for a wait of at least one jiffy |
| Throttle.IopsWaitSuffices | Project 2/kernel/goldfish/block/blk-throttle.c:584-632 | at the time an iops refusal advises, and after it, the check passes; the fallback wait of 1 is never reached |
| Throttle.BpsWaitSuffices | Project 2/kernel/goldfish/block/blk-throttle.c:634-674 | from one jiffy after the time a bps refusal advises, the check passes |
| Throttle.BpsWaitExact | Project 2/kernel/goldfish/block/blk-throttle.c:634-674 | the bps check passes at the advised time itself if and only if the excess does not take a positive number of whole slices, or the bytes of that time cover everything exactly |
| Throttle.BpsWaitIsOneShort | Project 2/kernel/goldfish/block/blk-throttle.c:634-674 | a concrete slice outside that condition: the check still fails at the advised time and passes one jiffy later |
| Throttle.OfferedInv | Project 2/kernel/goldfish/block/blk-throttle.c:686-735 | a bio offered again at each advised time is always tested against the slice of its first offer, which stays open that long |
| Throttle.ThreeRefusalsAtMost | Project 2/kernel/goldfish/block/blk-throttle.c:584-735 | with nothing else charged it is let through after at most three refusals, through all renewals and extensions |
| Throttle.ThreeRefusals | Project 2/kernel/goldfish/block/blk-throttle.c:584-735 | a concrete bio that is refused three times, so the bound is exact |
| ThrottleQueue.InsertSorted | Project 2/kernel/goldfish/block/blk-throttle.c:412-438 | adding a group keeps the service tree ordered by dispatch time and adds just that group |
| ThrottleQueue.RemoveSorted | Project 2/kernel/goldfish/block/blk-throttle.c:387-399 | removing a group keeps the order and removes just that group |
| ThrottleQueue.FirstIsEarliest | Project 2/kernel/goldfish/block/blk-throttle.c:372-385 | the first group on the tree has the earliest dispatch time of all groups with bios |
| ThrottleQueue.TreeNotEmpty | Project 2/kernel/goldfish/block/blk-throttle.c:467-485 | while td counts queued bios the tree is not empty, so BUG_ON(!st->count) cannot fire |
| ThrottleQueue.OnTreeIffBusy | Project 2/kernel/goldfish/block/blk-throttle.c:762-780 | a group is on the tree if and only if it has queued bios |
| ThrottleQueue.ServedDefined | Project 2/kernel/goldfish/block/blk-throttle.c:782-800 | the counters of the queue and of td are positive whenever they are decremented |
| ThrottleQueue.ThrotlData.constructor | Project 2/kernel/goldfish/block/blk-throttle.c:488-497 | groups with fresh slices and nothing queued satisfy the invariant |
| ThrottleQueue.ThrotlData.MayDispatchBio | Project 2/kernel/goldfish/block/blk-throttle.c:686-735 | the verdict and the new slice of the group, nothing else changed |
| ThrottleQueue.ThrotlData.DispatchOneBio | Project 2/kernel/goldfish/block/blk-throttle.c:782-800 | the head of one queue leaves, is charged, the slice is trimmed and all counters follow |
| ThrottleQueue.ThrotlData.DispatchDirection | Project 2/kernel/goldfish/block/blk-throttle.c:812-830 | a prefix of one queue leaves in order, at most its share; if none leaves, the head is refused |
| ThrottleQueue.ThrotlData.DispatchGroup | Project 2/kernel/goldfish/block/blk-throttle.c:802-833 | at most throtl_grp_quantum bios of the group leave; if none, both directions are refused or empty |
| ThrottleQueue.ThrotlData.HeadWait | Project 2/kernel/goldfish/block/blk-throttle.c:762-776 | the wait of the head bio of a direction, at least 1 when it is refused |
| ThrottleQueue.ThrotlData.UpdateDisptime | Project 2/kernel/goldfish/block/blk-throttle.c:762-780 | the group is back on the tree, with a dispatch time in the future when both directions are refused |
| ThrottleQueue.ThrotlData.ServeGroup | Project 2/kernel/goldfish/block/blk-throttle.c:850-857 | one turn of the loop: a turn that dispatches nothing leaves fewer groups due |
| ThrottleQueue.ThrotlData.SelectDispatch | Project 2/kernel/goldfish/block/blk-throttle.c:835-864 | with jiffies fixed the round ends, dispatches at most 39 bios, and stops only at the quantum or when no group is due |
| ThrottleQueue.ThrotlData.ScheduleNextDispatch | Project 2/kernel/goldfish/block/blk-throttle.c:467-485 | work is scheduled exactly when bios are queued, for the earliest dispatch time of any group |
| ThrottleQueue.ThrotlData.QueueBio | Project 2/kernel/goldfish/block/blk-throttle.c:1184-1198 | the bio joins the end of its queue, and its group is on the tree again |
| ThrottleQueue.ThrotlData.ThrotlBio | Project 2/kernel/goldfish/block/blk-throttle.c:1112-1204 | a bio of an unlimited group passes untouched; otherwise it passes and is charged only if nothing is queued before it, or joins the end of its queue |
| ThrottleQueue.InvRates | Project 2/kernel/goldfish/block/blk-throttle.c:737-747 | in every valid state what has left each limited direction of each group respects both rates |
| ThrottleQueue.RunThrottle | Project 2/kernel/goldfish/block/blk-throttle.c:835-864 | every run of submissions and dispatch rounds: exactly the bios submitted to a limited direction arrive there, in order; those that left it are a prefix of them, the rest is queued, both rates hold, and no limit changes |
| Flush.MachineInvariant | Project 2/kernel/goldfish/block/blk-flush.c:144-192 | the invariant of the flush machine holds after every run |
| Flush.FlushOrdering | Project 2/kernel/goldfish/block/blk-flush.c:144-347 | data of a request that needs a preflush is queued, and a request that needs a postflush ends well, only after a successful flush issued after it began to wait |
| Flush.NeverStalls | Project 2/kernel/goldfish/block/blk-flush.c:244-273 | while any request is in the machinery a flush or some data is in flight |
| Flush.OneList | Project 2/kernel/goldfish/block/blk-flush.c:144-192 | every sequenced request is on exactly one list, the one its current stage calls for |
| Flush.FlightMeans | Project 2/kernel/goldfish/block/blk-flush.c:194-273 | exactly when the two indexes differ one issued flush has not come back, and its running list is not empty; otherwise none is out and the other list is empty |
| Flush.StagesInOrder | Project 2/kernel/goldfish/block/blk-flush.c:94-192 | a finished request ran the stages of its policy in order up to the first failure, and its bio, if it has one, was ended once, with an error exactly if a stage or a part of its data failed |
| Flush.EndAllOnce | Project 2/kernel/goldfish/block/blk-core.c:151-177 | ending a restored request reports its bio, if it has one, exactly once |
| Flush.SingleUpdate | Project 2/kernel/goldfish/block/blk-core.c:2096-2206 | completing a part of a sequenced single-bio request reports nothing and is the last part exactly when the bytes suffice |
| Flush.InsertFlushOk | Project 2/kernel/goldfish/block/blk-flush.c:298-347 | inserting a request with no bio or one keeps the invariant, whatever its flags and the device's |
| Flush.FlushEndIoOk | Project 2/kernel/goldfish/block/blk-flush.c:194-229 | a flush coming back, with or without error, keeps the invariant |
| Flush.DataEndIoOk | Project 2/kernel/goldfish/block/blk-flush.c:275-285 | data coming back in any parts keeps the invariant |
| Flush.KickOk | Project 2/kernel/goldfish/block/blk-flush.c:244-273 | kicking a flush keeps the invariant and leaves the queue unable to stall |
| FlushQueue.RequestQueue.constructor | Project 2/kernel/goldfish/block/blk-flush.c:244-273 | an idle queue satisfies the invariant |
| FlushQueue.RequestQueue.KickFlushNow | Project 2/kernel/goldfish/block/blk-flush.c:244-273 | the in-place update computes the specified step and reports whether a flush was issued |
| FlushQueue.RequestQueue.UnlinkRequest | Project 2/kernel/goldfish/block/blk-flush.c:144-192 | the request leaves whatever list it is on |
| FlushQueue.RequestQueue.TransferRequest | Project 2/kernel/goldfish/block/blk-flush.c:168-172 | the request joins the data in flight, as specified |
| FlushQueue.RequestQueue.EndRequest | Project 2/kernel/goldfish/block/blk-flush.c:174-185 | the request leaves and its bio is ended, as specified |
| FlushQueue.RequestQueue.AwaitFlush | Project 2/kernel/goldfish/block/blk-flush.c:160-166 | the request joins the pending queue, as specified |
| FlushQueue.RequestQueue.CompleteSequence | Project 2/kernel/goldfish/block/blk-flush.c:144-192 | the in-place update moves the request to its next stage as specified, then kicks |
| FlushQueue.RequestQueue.FlushEnd | Project 2/kernel/goldfish/block/blk-flush.c:194-229 | every request on the running list goes on as specified, and the invariant holds again |
| FlushQueue.RequestQueue.DataEnd | Project 2/kernel/goldfish/block/blk-flush.c:275-285 | completed data moves the request on as specified |
| FlushQueue.RequestQueue.InsertRequest | Project 2/kernel/goldfish/block/blk-flush.c:298-347 | the policy's first stage, direct dispatch or immediate end, as specified |
| Completion.RemainingStream | Project 2/kernel/goldfish/block/blk-core.c:2143-2219 | completing n bytes leaves exactly the byte stream of the request without its first n bytes, in well-formed bios |
| Completion.RemainingLen | Project 2/kernel/goldfish/block/blk-core.c:2143-2206 | the bios left are the last ones of the chain in order, and only the first of them can differ |
| Completion.ReqOkUpdate | Project 2/kernel/goldfish/block/blk-core.c:2096-2244 | __data_len stays the sum of the bio sizes over any update |
| Completion.EndSectorFixed | Project 2/kernel/goldfish/block/blk-core.c:2218-2223 | the sector past the end stays fixed while whole sectors are completed |
| Completion.EndSectorOverSplit | Project 2/kernel/goldfish/block/blk-core.c:2218-2223 | and over any split into whole-sector completions, for as long as something is left |
| Completion.SplitCompletion | Project 2/kernel/goldfish/block/blk-core.c:2096-2244 | for any split into completions what is left is the unfinished suffix, and each bio is ended once, in order |
| Completion.SplitErrors | Project 2/kernel/goldfish/block/blk-core.c:151-177 | over any split a bio with data is ended with the error of the part that holds its last byte, or else with -EIO; and with an error if and only if it was bad before or a part that holds some of its bytes failed |
| Completion.EmptyBioFails | Project 2/kernel/goldfish/block/blk-core.c:151-177 | a bio without data that is ended with an error although no part holds a byte of it |
| Completion.FullCompletion | Project 2/kernel/goldfish/block/blk-core.c:2096-2244 | completing all bytes finishes the request if and only if the chain has at most one bio or its last bio is not empty |
| Completion.EmptyBioTrails | Project 2/kernel/goldfish/block/blk-core.c:2096-2206 | a concrete request of two well-formed bios that is reported unfinished with nothing left to transfer |
| Completion.CurrentFits | Project 2/kernel/goldfish/block/blk-core.c:2231-2238 | the current vector fits in the length that is left, so the request-botched branch is not reached |
| Completion.ScanInside | Project 2/kernel/goldfish/block/blk-core.c:2153-2161 | while bytes of a bio are missing its index is inside the vectors, so the bio-idx branch is not reached |
| Completion.Request.EndBio | Project 2/kernel/goldfish/block/blk-core.c:151-177 | a finished bio is reported with its error, unless the request is in a flush sequence |
| Completion.Request.ScanChain | Project 2/kernel/goldfish/block/blk-core.c:2143-2193 | the loop takes exactly the finished bios off the chain and stops at the right byte of the next one |
| Completion.Request.UpdateRequest | Project 2/kernel/goldfish/block/blk-core.c:2096-2244 | the in-place update agrees with the specification and returns whether anything is left |
| Segments.GreedyOptimal | Project 2/kernel/goldfish/block/blk-merge.c:128-169 | the mapping loop starts no more segments than any segmentation into segments the hardware takes has |
| Segments.OneStartPerSegment | Project 2/kernel/goldfish/block/blk-merge.c:128-169 | a segment that fits costs the loop at most one new entry, whatever is open before it |
| Segments.RecalcSegments | Project 2/kernel/goldfish/block/blk-merge.c:12-69 | the count and the two edge sizes stand for a real segmentation of all vectors; without high pages the count is what the mapping loop emits; nothing to count gives 0 |
| Segments.RecountBio | Project 2/kernel/goldfish/block/blk-merge.c:76-84 | one bio recounted: its cached count becomes valid and its edge sizes only grow |
| Segments.HoldsApart | Project 2/kernel/goldfish/block/blk-merge.c:202-226 | counts and edge sizes of two chains put one behind the other |
| Segments.MergedSizesOk | Project 2/kernel/goldfish/block/blk-merge.c:277-315 | the edge sizes and the total that a request merge computes stand for a segmentation of both chains, joined or not |
| Segments.Request.constructor | Project 2/kernel/goldfish/block/blk-core.c:2532-2547 | a request prepared from one bio satisfies the invariant |
| Segments.Request.RefreshBio | Project 2/kernel/goldfish/block/blk-merge.c:244-245 | the recount of an edge bio before a merge keeps the invariant and the vectors |
| Segments.Request.BackMerge | Project 2/kernel/goldfish/block/blk-merge.c:228-250 | the bio is appended exactly when sectors and segments allow, within both limits, and the count stays a bound |
| Segments.Request.FrontMerge | Project 2/kernel/goldfish/block/blk-merge.c:252-275 | the same at the front |
| Segments.Request.MergeRequests | Project 2/kernel/goldfish/block/blk-merge.c:277-315 | the chains are joined exactly when the limits allow, with the new total; otherwise both requests stay sound |
| Segments.Request.MapSg | Project 2/kernel/goldfish/block/blk-merge.c:117-169 | the entries emitted never exceed nr_phys_segments, are as many as the loop starts, and cover the same memory in order |
| Segments.RunMerges | Project 2/kernel/goldfish/block/blk-merge.c:202-315 | after any sequence of bio and request merges the request carries exactly the vectors of those admitted, in order, and all are admitted if both limits leave room for every vector |
| Segments.MergeAndMap | Project 2/kernel/goldfish/block/blk-merge.c:117-169 | after any such sequence the entries emitted never exceed nr_phys_segments and cover the memory of what was admitted, in order |
| CashierQueue.EnqueueAppends | Project 1/BBC/jni/BurgerBuddies.c:23-29 | with a slot to spare enqueue appends to the contents |
| CashierQueue.DequeueTakesFirst | Project 1/BBC/jni/BurgerBuddies.c:30-41 | dequeue returns the oldest id, or 0 when there is none |
| CashierQueue.SleepingQueue.constructor | Project 1/BBC/jni/BurgerBuddies.c:12-13 | the initial head, tail and buffer hold nothing |
| CashierQueue.SleepingQueue.QueueSize | Project 1/BBC/jni/BurgerBuddies.c:19-22 | the size is the number of waiting ids |
| CashierQueue.SleepingQueue.Enqueue | Project 1/BBC/jni/BurgerBuddies.c:23-29 | the array update appends the id |
| CashierQueue.SleepingQueue.Dequeue | Project 1/BBC/jni/BurgerBuddies.c:30-41 | the array update takes the oldest id |
| BurgerBuddies.CookMoves | Project 1/BBC/jni/BurgerBuddies.c:46-71 | what a cook's step does to the two mutexes it uses, and what it leaves alone |
| BurgerBuddies.CashierMoves | Project 1/BBC/jni/BurgerBuddies.c:78-120 | the same for a cashier and the four mutexes it uses |
| BurgerBuddies.CustomerMoves | Project 1/BBC/jni/BurgerBuddies.c:128-148 | the same for a customer |
| BurgerBuddies.Exclusion | Project 1/BBC/jni/BurgerBuddies.c:48-148 | no cashier is at the rack with the cook in the kitchen, none at the queue with the customer in front |
| BurgerBuddies.TokenEnqueue | Project 1/BBC/jni/BurgerBuddies.c:80-81 | a cashier who queues up is not in the queue already and there is room |
| BurgerBuddies.CashierStepCount | Project 1/BBC/jni/BurgerBuddies.c:115-119 | served customers and open orders together always equal the customers who called a cashier |
| BurgerBuddies.StepInv | Project 1/BBC/jni/BurgerBuddies.c:46-148 | every step of every thread keeps the invariant |
| BurgerBuddies.Safety | Project 1/BBC/jni/BurgerBuddies.c:19-148 | in every reachable state, for any numbers of threads: rack is not negative, the ring is a queue of distinct valid ids that never overflows, a dequeue finds a valid id, served never exceeds customers, finish is posted at most once and only when all are served |
| BurgerBuddies.NoLostWakeup | Project 1/BBC/jni/BurgerBuddies.c:46-148 | while somebody is to be served a cashier or customer can move, or a cook can and the counter waits for that cook to leave the rack or for a burger on an empty rack |
| BurgerBuddies.AwaitsOnEmptyRack | Project 1/BBC/jni/BurgerBuddies.c:46-120 | when only cooks can move, the counter waits for a burger on an empty rack if and only if a burger is wanted and no cook is about to call |
| BurgerBuddies.CookUnblocks | Project 1/BBC/jni/BurgerBuddies.c:46-71 | when only cooks can move, each cook step frees somebody or brings a bounded distance closer to doing so |
| BurgerBuddies.StepsBounded | Project 1/BBC/jni/BurgerBuddies.c:78-148 | over any run cashiers and customers take at most 4 * cashiers + 31 * customers steps |
| BurgerBuddies.EveryoneCanBeServed | Project 1/BBC/jni/BurgerBuddies.c:46-148 | from every reachable state some continuation serves all customers |
| FairService.EveryoneIsServed | Project 1/BBC/jni/BurgerBuddies.c:46-158 | under every endless schedule in which a thread that can move again and again does move again and again, everybody is served for good and the manager is told |
| FairService.ComesToRest | Project 1/BBC/jni/BurgerBuddies.c:78-148 | under any endless schedule cashiers and customers take a last step |
| FairService.NeverStuck | Project 1/BBC/jni/BurgerBuddies.c:46-148 | no fair schedule leaves cashiers and customers blocked for ever with somebody to be served |
| FairService.TurnsAreFair | Project 1/BBC/jni/BurgerBuddies.c:46-148 | every shop has a fair schedule: the threads in turn, always the first that is ready |
| ShopRuns.HeldUpByCook | Project 1/BBC/jni/BurgerBuddies.c:46-120 | a run after which no cashier or customer can move although no burger has been asked for, because a cook has the rack |
| ShopRuns.StepWithinRack | Project 1/BBC/jni/BurgerBuddies.c:51-61 | a step keeps the rack within racksize, with nobody about to add to a full one, if and only if it is not a cook coming back from waiting to a full rack |
| ShopRuns.RackBoundIff | Project 1/BBC/jni/BurgerBuddies.c:51-112 | over every run that bound holds throughout if and only if no cook ever comes back from waiting to a full rack |
| ShopRuns.RackOverflows | Project 1/BBC/jni/BurgerBuddies.c:51-112 | a run that puts two burgers on a rack for one: rackFull is posted although no cook waits |
| KeyedLists.PlaceOk | Project 2/kernel/goldfish/block/elevator.c:302-320 | inserting into the sort order keeps it sorted and adds one request |
| KeyedLists.InsertAfterOk | Project 2/kernel/goldfish/block/deadline-iosched.c:168-181 | taking over the place and the time of another entry keeps the fifo ordered |
| KeyedLists.LatterFollows | Project 2/kernel/goldfish/block/deadline-iosched.c:65-74 | the latter request is the next one in sector order |
| Deadline.IndexesAgree | Project 2/kernel/goldfish/block/deadline-iosched.c:76-220 | over every run sort list and fifo of a direction hold the same requests, both ordered, at most one next_rq is set and it is in its sort list |
| Deadline.HeadDecides | Project 2/kernel/goldfish/block/deadline-iosched.c:226-237 | the head of a fifo has expired if and only if anything in it has |
| Deadline.TreeNotEmpty | Project 2/kernel/goldfish/block/deadline-iosched.c:268-292 | a direction has a tree entry exactly when its fifo is not empty, so the BUG_ONs cannot fire |
| Deadline.ChooseOk | Project 2/kernel/goldfish/block/deadline-iosched.c:243-313 | nothing is chosen exactly when nothing is queued, and the choice is queued in the direction it is chosen for |
| Deadline.NewBatchStart | Project 2/kernel/goldfish/block/deadline-iosched.c:296-313 | a new batch starts with the earliest deadline when one has passed or there is nothing to go on with, and otherwise goes on in sector order |
| Deadline.AddInv | Project 2/kernel/goldfish/block/deadline-iosched.c:98-111 | adding a request keeps the indexes in agreement |
| Deadline.FrontMergedInv | Project 2/kernel/goldfish/block/deadline-iosched.c:154-166 | repositioning after a front merge keeps them |
| Deadline.MergedRequestsInv | Project 2/kernel/goldfish/block/deadline-iosched.c:168-187 | merging two requests keeps them and removes just the second |
| Deadline.DispatchInv | Project 2/kernel/goldfish/block/deadline-iosched.c:204-325 | a dispatch keeps them and moves one request to the dispatch queue |
| Deadline.WritesNotStarved | Project 2/kernel/goldfish/block/deadline-iosched.c:243-325 | in any run of dispatches that pass a waiting write, at most (writes_starved + 1) * max(1, fifo_batch) are reads |
| Deadline.ReadsNotStarved | Project 2/kernel/goldfish/block/deadline-iosched.c:243-325 | with writes_starved at least 1, at most max(1, fifo_batch) writes pass a waiting read |
| Deadline.ZeroStarvesReads | Project 2/kernel/goldfish/block/deadline-iosched.c:268-277 | with writes_starved 0 a waiting write always goes first outside a read batch |
| Deadline.WritesGoOn | Project 2/kernel/goldfish/block/deadline-iosched.c:268-325 | so as many dispatches in a row as there are writes pass a waiting read |
| Deadline.ReadsCanStarve | Project 2/kernel/goldfish/block/deadline-iosched.c:243-325 | with writes_starved 0 no bound holds: for every n a run after which n writes in a row pass a waiting read |
| Deadline.DeadlineData.constructor | Project 2/kernel/goldfish/block/deadline-iosched.c:340-358 | an empty scheduler satisfies the invariant |
| Deadline.DeadlineData.AddRequest | Project 2/kernel/goldfish/block/deadline-iosched.c:98-111 | the in-place update is the specified one |
| Deadline.DeadlineData.RemoveRequest | Project 2/kernel/goldfish/block/deadline-iosched.c:82-122 | the request leaves both lists and next_rq moves on if it pointed there |
| Deadline.DeadlineData.MergedRequest | Project 2/kernel/goldfish/block/deadline-iosched.c:154-166 | a front merge repositions, any other changes nothing |
| Deadline.DeadlineData.MergedRequests | Project 2/kernel/goldfish/block/deadline-iosched.c:168-187 | the in-place update is the specified one |
| Deadline.DeadlineData.MoveRequest | Project 2/kernel/goldfish/block/deadline-iosched.c:190-220 | both next_rq are cleared, the successor is noted, the request goes to the tail of the dispatch queue |
| Deadline.DeadlineData.CheckFifo | Project 2/kernel/goldfish/block/deadline-iosched.c:226-237 | true exactly when some request of the direction has expired |
| Deadline.DeadlineData.SelectRequest | Project 2/kernel/goldfish/block/deadline-iosched.c:243-319 | the choice and the counters are the specified ones |
| Deadline.DeadlineData.DispatchRequests | Project 2/kernel/goldfish/block/deadline-iosched.c:243-325 | returns false exactly when nothing is queued, and otherwise dispatches exactly one queued request |
| MergeHash.BucketSuffices | Project 2/kernel/goldfish/block/elevator.c:276-296 | one bucket holds a mergeable request with a given end if and only if there is one at all |
| MergeHash.AppendedOk | Project 2/kernel/goldfish/block/blk-core.c:1196-1217 | a back merge keeps the bios of a request sector-contiguous and of one kind (direction, disk, discard and secure flags) |
| MergeHash.PrependedOk | Project 2/kernel/goldfish/block/blk-core.c:1219-1246 | a front merge does too and does not move the end |
| MergeHash.JoinedOk | Project 2/kernel/goldfish/block/blk-merge.c:397-447 | joining two requests does too, and the end becomes that of the second |
| MergeHash.Elevator.constructor | Project 2/kernel/goldfish/block/elevator.c:155-172 | an empty hash is coherent |
| MergeHash.Elevator.RqhashReposition | Project 2/kernel/goldfish/block/elevator.c:251-274 | a request whose end has moved is put into the right bucket, whichever it was in |
| MergeHash.Elevator.RqhashFind | Project 2/kernel/goldfish/block/elevator.c:276-296 | finds a mergeable request ending at the offset if and only if a scan of all live requests would, and throws out only requests that are not mergeable |
| MergeHash.Elevator.DispatchAddTail | Project 2/kernel/goldfish/block/elevator.c:401-413 | the request leaves hash, one-hit cache and count |
| MergeHash.Elevator.RemoveSorted | Project 2/kernel/goldfish/block/elevator.c:518-521 | a request leaves the hash and the count |
| MergeHash.Elevator.InsertSort | Project 2/kernel/goldfish/block/elevator.c:636-645 | a new request is hashed if mergeable and cached if the cache is empty |
| MergeHash.Elevator.AttemptMergeNew | Project 2/kernel/goldfish/block/blk-merge.c:367-447 | a request that is not in the elevator is absorbed exactly when both are mergeable, of one kind, contiguous, not special, within the sector limit, and the segment test agrees |
| MergeHash.Elevator.AttemptMerge | Project 2/kernel/goldfish/block/elevator.c:507-524 | the same for two requests of the elevator, of which the second leaves it |
| MergeHash.Elevator.RefuseMerge | Project 2/kernel/goldfish/block/blk-merge.c:221-226 | a refused bio makes the request unmergeable and clears the cache of it, and the hash stays coherent |
| MergeHash.Elevator.BackMerge | Project 2/kernel/goldfish/block/blk-core.c:1345-1352 | a bio goes behind the request exactly when the sector limit and the segment test allow; the request may then absorb the next one, and ends up in the bucket of its new end; a refusal makes it unmergeable |
| MergeHash.Elevator.FrontMerge | Project 2/kernel/goldfish/block/blk-core.c:1353-1360 | a bio goes before the request under the same tests, and the request may then be absorbed by the one before |
| MergeHash.Elevator.ElvMerge | Project 2/kernel/goldfish/block/elevator.c:416-459 | every answer is a request that may take the bio and touches it on the right side; no answer means that no mergeable request ends there or one of another kind does |
| MergeHash.Elevator.AttemptInsertMerge | Project 2/kernel/goldfish/block/elevator.c:467-492 | a new request is absorbed by a request that ends where it starts and passes the merge tests; if it is not, none ends there or one that fails the tests does |
| MergeHash.Elevator.InsertSortMerge | Project 2/kernel/goldfish/block/elevator.c:628-646 | a new request is absorbed by one it can join or becomes a live request itself; its bios, and no others, are added to those of the live requests |
| MergeHash.Elevator.MergeBio | Project 2/kernel/goldfish/block/blk-core.c:1345-1360 | a bio that is merged is in a live request afterwards, one that is not leaves all bios as they were, and no other bio comes or goes |
| MergeHash.Elevator.Try | Project 2/kernel/goldfish/block/elevator.c:586-646 | one operation, with the bios it brings in or takes out |
| MergeHash.RunOps | Project 2/kernel/goldfish/block/elevator.c:586-646 | over any run of inserts, merges and dispatches no bio is lost or doubled: live and dispatched requests together carry exactly the bios of the operations that took effect, and an insertion of a well-formed request under a new number always does |
| MergeHash.RunAndFind | Project 2/kernel/goldfish/block/elevator.c:276-296 | a lookup after any such run finds a mergeable request ending at the offset if and only if a scan of all live requests would |
| AesField.InverseMultiplies | Project 2/kernel/goldfish/crypto/aes_generic.c:329-592 | the inverse that the S-box table is built from is the multiplicative inverse of the field |
| AesField.SBoxInverse | Project 2/kernel/goldfish/crypto/aes_generic.c:1141-1145 | the S-box and its inverse undo each other |
| AesField.MixColumnInverse | Project 2/kernel/goldfish/crypto/aes_generic.c:1128-1139 | InvMixColumns undoes MixColumns |
| AesField.ImixColIsInvMixColumn | Project 2/kernel/goldfish/crypto/aes_generic.c:1128-1139 | the word-parallel macro is the InvMixColumns matrix |
| AesField.ForwardTables | Project 2/kernel/goldfish/crypto/aes_generic.c:65-328 | four forward lookups are SubBytes and MixColumns |
| AesField.InverseTables | Project 2/kernel/goldfish/crypto/aes_generic.c:593-856 | four inverse lookups are InvSubBytes and InvMixColumns |
| AesField.LastRoundTables | Project 2/kernel/goldfish/crypto/aes_generic.c:329-592 | four last-round lookups are the S-box or its inverse on four bytes |
| AesCipher.InvRoundStep | Project 2/kernel/goldfish/crypto/aes_generic.c:1372-1385 | one inverse round with the transformed key undoes the core of one forward round |
| AesCipher.DecryptInvertsEncrypt | Project 2/kernel/goldfish/crypto/aes_generic.c:1401-1440 | the equivalent inverse cipher of section 5.3.5 of FIPS-197 inverts the cipher of section 5.1 for every block and every mirrored schedule |
| AesCipher.MirroredWords | Project 2/kernel/goldfish/crypto/aes_generic.c:1258-1266 | mirroring word by word gives the inverse schedule round key by round key |
| AesGeneric.RcoTabIsRcon | Project 2/kernel/goldfish/crypto/aes_generic.c:63-63 | the constants are the powers of x |
| AesGeneric.LsBoxIsSubWord | Project 2/kernel/goldfish/crypto/aes_generic.c:1141-1145 | ls_box is SubWord |
| AesGeneric.ForwardRound | Project 2/kernel/goldfish/crypto/aes_generic.c:1300-1313 | the array round is the cipher's round |
| AesGeneric.ForwardLastRound | Project 2/kernel/goldfish/crypto/aes_generic.c:1315-1327 | and so is the last one |
| AesGeneric.InverseRound | Project 2/kernel/goldfish/crypto/aes_generic.c:1372-1385 | the array inverse round is that of the equivalent inverse cipher |
| AesGeneric.InverseLastRound | Project 2/kernel/goldfish/crypto/aes_generic.c:1387-1399 | and so is the last one |
| AesGeneric.CryptoAesCtx.Loop4 | Project 2/kernel/goldfish/crypto/aes_generic.c:1147-1158 | four more words of the key schedule of section 5.2 of FIPS-197 |
| AesGeneric.CryptoAesCtx.Loop6 | Project 2/kernel/goldfish/crypto/aes_generic.c:1160-1175 | six more words |
| AesGeneric.CryptoAesCtx.Loop8TopHalf | Project 2/kernel/goldfish/crypto/aes_generic.c:1177-1188 | the first four of eight |
| AesGeneric.CryptoAesCtx.Loop8 | Project 2/kernel/goldfish/crypto/aes_generic.c:1190-1200 | eight more words |
| AesGeneric.CryptoAesCtx.ExpandEncryption | Project 2/kernel/goldfish/crypto/aes_generic.c:1216-1256 | the whole encryption schedule for every key length |
| AesGeneric.CryptoAesCtx.MirrorKeys | Project 2/kernel/goldfish/crypto/aes_generic.c:1258-1266 | the decryption schedule is the reversed, transformed encryption schedule |
| AesGeneric.CryptoAesCtx.ExpandKey | Project 2/kernel/goldfish/crypto/aes_generic.c:1216-1268 | both schedules for 16, 24 and 32 byte keys, -EINVAL and no change for any other length |
| AesGeneric.CryptoAesCtx.Encrypt | Project 2/kernel/goldfish/crypto/aes_generic.c:1329-1368 | the cipher with 10, 12 or 14 rounds on a block of bytes |
| AesGeneric.CryptoAesCtx.Decrypt | Project 2/kernel/goldfish/crypto/aes_generic.c:1401-1440 | the equivalent inverse cipher on a block of bytes |
| AesGeneric.RoundTrip | Project 2/kernel/goldfish/crypto/aes_generic.c:1329-1440 | decrypting an encrypted block gives it back |
| AesGeneric.EncryptThenDecrypt | Project 2/kernel/goldfish/crypto/aes_generic.c:1216-1440 | for every accepted key and every block, expand, encrypt and decrypt return the block |
| Tags.TagsAgree | Project 2/kernel/goldfish/block/blk-tag.c:220-377 | over every run of starts, ends and resizes that do not overrun, bit t is set exactly when entry t holds a request with tag t, and every tagged request is held |
| Tags.TagsDistinct | Project 2/kernel/goldfish/block/blk-tag.c:330-377 | no two tagged requests share a tag |
| Tags.StartInv | Project 2/kernel/goldfish/block/blk-tag.c:330-377 | a started request gets a tag nobody has, below its limit |
| Tags.RefusalMeansFull | Project 2/kernel/goldfish/block/blk-tag.c:351-365 | a refusal that is not about async work in flight means that every permitted tag is held |
| Tags.EndInv | Project 2/kernel/goldfish/block/blk-tag.c:282-309 | an ended tag was set and held by the request, so neither error branch is reached |
| Tags.EndUndoesStart | Project 2/kernel/goldfish/block/blk-tag.c:282-377 | ending restores the map as it was before starting |
| Tags.ResizeInv | Project 2/kernel/goldfish/block/blk-tag.c:220-265 | a resize that does not overrun keeps every request, tag, bit and entry |
| Tags.CopiesInside | Project 2/kernel/goldfish/block/blk-tag.c:251-260 | both copies stay inside the new arrays if and only if it is not the case that the arrays are replaced while nr_requests * 2 is below the depth in place |
| Tags.OverrunExample | Project 2/kernel/goldfish/block/blk-tag.c:251-260 | a map with no tag in use whose resize copies 64 entries into an array of 32 |
| Tags.ResizeKeepsTags | Project 2/kernel/goldfish/block/blk-tag.c:220-265 | in particular a resize keeps every tag whenever nr_requests * 2 is at least the new depth |
| Tags.TopTagsReserved | Project 2/kernel/goldfish/block/blk-tag.c:351-365 | as long as no resize lowers max_depth, async requests never hold the top two tags of a depth above 2 |
| Tags.DoReserved | Project 2/kernel/goldfish/block/blk-tag.c:220-377 | a step keeps the reservation if and only if it is not a resize to a depth whose async limit is at or below an async tag in flight |
| Tags.ReservedIff | Project 2/kernel/goldfish/block/blk-tag.c:220-377 | over every run the reservation holds throughout if and only if every resize keeps room for the async tags in flight |
| Tags.ShrinkingBreaksTheReservation | Project 2/kernel/goldfish/block/blk-tag.c:236-239 | a run in which lowering max_depth leaves an async request on a reserved tag |
| Tags.BlkQueueTag.constructor | Project 2/kernel/goldfish/block/blk-tag.c:107-138 | a fresh map is empty |
| Tags.BlkQueueTag.FindFirstZeroBit | Project 2/kernel/goldfish/block/blk-tag.c:360-363 | the lowest free tag below the limit |
| Tags.BlkQueueTag.SearchTag | Project 2/kernel/goldfish/block/blk-tag.c:351-363 | refuses exactly as specified and otherwise finds the lowest free permitted tag |
| Tags.BlkQueueTag.StartTag | Project 2/kernel/goldfish/block/blk-tag.c:330-377 | the in-place update is the specified one |
| Tags.BlkQueueTag.EndTag | Project 2/kernel/goldfish/block/blk-tag.c:282-309 | the in-place update is the specified one |
| Tags.BlkQueueTag.ResizeTags | Project 2/kernel/goldfish/block/blk-tag.c:220-265 | overruns exactly under that condition; otherwise the in-place update and the returned status are the specified ones |
| Tags.BlkQueueTag.ReplaceArrays | Project 2/kernel/goldfish/block/blk-tag.c:107-138 | new arrays with the old contents at their front |
| ProcessTree.TreeLayout | Project 1/ptreemodule/ptreemodule.c:41-52 | in the records dfs writes each one is the first child of the one before or the next sibling of a record on its path |
| ProcessTree.TreeQuiet | Project 1/ptreemodule/ptreemodule.c:29-32 | the condition on last-sibling links in terms of the tree is the condition on the records |
| ProcessTree.TreeSiblings | Project 1/ptreemodule/ptreemodule.c:41-52 | which record is the next sibling of which, in terms of the records |
| ProcessDisplay.Unwind | Project 1/ptree/jni/ptree.c:33-37 | the inner loop stops at the topmost entry that links to the record and clears the links of exactly those it pops |
| ProcessDisplay.PlaceRecord | Project 1/ptree/jni/ptree.c:25-40 | one round: the path of the record is within the stack again, exactly so unless a stray link interferes |
| ProcessDisplay.FindDepths | Project 1/ptree/jni/ptree.c:25-41 | the loop never pops an empty stack, and its depths are all right exactly when no stray link was met |
| ProcessDisplay.Display | Project 1/ptree/jni/ptree.c:16-41 | every record gets at least its depth; all depths are right if and only if no last sibling links to the record after its subtree; the links are then repaired if and only if those on the way down to the last record read 0 |
| ProcessDisplay.Dfs | Project 1/ptreemodule/ptreemodule.c:41-52 | the records of the subtree in preorder go behind the ones already there |
| ProcessDisplay.ShowTree | Project 1/ptree/jni/ptree.c:50-58 | writing a tree and displaying it |
| ProcessDisplay.StrayExample | Project 1/ptree/jni/ptree.c:33-38 | a tree within the limits of Display with a stray link, so that by Display a printed depth is wrong |
| ProcessDisplay.UnrepairedExample | Project 1/ptree/jni/ptree.c:23-28 | a tree with no stray link of which one link is still left unrepaired |

## Left out

- Throttle limit changes, blk_throtl_drain, REQ_THROTTLED re-entry, dead queues, reference counts and RCU: they reset or bypass the accounts that the rate bound is about.
- Wrap-around of jiffies and of 32- and 64-bit counters, except where a width is named in the code that is modelled.
- The red-black trees of blk-throttle.c and deadline-iosched.c are the sequences of their entries in order; groups and requests are records addressed by number, so pointer aliasing is not modelled.
- Requests with FUA and no data, which the header of block/blk-flush.c:13-14 rules out; blk_abort_flushes and blkdev_issue_flush.
- The order of the dispatch queue behind the flush machine and behind the elevator, elv_dispatch_sort, requeues and INSERT_BACK draining.
- Padding, the drain buffer, integrity segments, discard bios, `special` requests and mixed-merge flags in segment counting and merging.
- MergeHash.Elevator.AttemptMergeNew: the segment test of ll_merge_requests_fn is a parameter, because Segments.Request.MergeRequests proves it.
- MergeHash.Elevator.AttemptMerge: the segment test of ll_merge_requests_fn is a parameter, for the same reason.
- MergeHash.Elevator.BackMerge: the segment test of ll_new_hw_segment is a parameter, because Segments.Request.BackMerge proves it.
- MergeHash.Elevator.FrontMerge: the segment test of ll_new_hw_segment is a parameter, because Segments.Request.FrontMerge proves it.
- MergeHash.Elevator.ElvMerge: integrity and the scheduler's own elevator_allow_merge_fn are parameters, because they are code outside the elevator core.
- MergeHash.Elevator.AttemptInsertMerge: the segment tests are parameters, as in AttemptMergeNew.
- The 1 KB tables of aes_generic.c are given by the functions that generate them, not entry by entry.
- last_sector of the deadline scheduler, which is written and never read, and deadline_merge.
- Tags: another queue racing for a bit of a shared map (the retry of test_and_set_bit_lock), the list of busy requests, and negative depths.
- Tags.BlkQueueTag.ResizeTags: says nothing about the map after an overrun, because the source has then written memory that is not its own.
- Thread creation, signals, printing and sleeping in BurgerBuddies.c.
- Schedules of BurgerBuddies.c that are not fair: for those only `BurgerBuddies.StepsBounded` and `BurgerBuddies.EveryoneCanBeServed` hold.
- The printing loop of ptree.c, copying between kernel and user space, and task trees changing while dfs runs.
- cfq-iosched.c, blk-cgroup.c, blk-sysfs.c, genhd.c, the ioctl and bsg files: heuristics, configuration and plumbing.
- The page table, page replacement and memory monitor programs of Project 2: they rest on kernel functions that are not part of this model.
