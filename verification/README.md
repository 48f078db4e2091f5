# Protozoa, verified

A Dafny model of the two cores of protozoa, the CCTV transcoder and mixer for
pan/tilt/zoom cameras, with proofs of what it is meant to do.

* **The deferred-packet engine.** A top-down red-black tree without parent pointers
  (`RbShape` to `RbRuns`), its nodes in a free-list pool (`Pool`), holds the packets that
  wait to be sent (again), ordered by time. Above it stand the rate limit and the resend
  machine of the camera control writers and the routing from readers to writers
  (`Timeval`, `Defer*`, `Scheduler`, `Ccreader`).
* **The protocol codecs.** Readers frame messages in a compacting buffer (`Buffer`,
  `Framing`, `Readers`), decode them into packets (`Ccpacket`, `Codec`), and writers build
  them again and append them to a transmit buffer (`Writers`), for four protocols:
  `PelcoD`, `PelcoP` (what they share is in `Pelco`), `Vicon*` and `Manchester*`. The reader
  that all but manchester have in common is in `PacketReader`, whole streams of packets in
  `PacketStream`. The words on the wire are stated once more in plain numbers, apart from
  encoders and decoders, in `Framing` (shapes and checksums) and in `PelcoWire`, `PelcoDWire`,
  `PelcoPWire`, `ViconWire` and `ManchesterWire`.

Code that works in place is modelled in place: tree nodes, pool words, scheduler, packet
and buffer are objects whose methods are proved against functions on values (the sorted
list, the free list, the state machine of `Defer`, the framing function `Parse`, the
message and packet functions of the codecs). The theorems are about those functions and
about whole runs.

How the parts hang together:

| part | what the code does step by step | what it is proved to be |
|---|---|---|
| tree | `RbTree.RbTree`, over `RbInsert.Insert2` and `RbRemove.Remove2` | a sorted list (`SortedList`) over every run (`RbRuns`) |
| pool | `SlotPool.Pool` | free and live slots partition the slots of all blocks |
| scheduler | `Scheduler.Scheduler`, `Ccreader.Reader` | runs of the state machine of `Defer` (`Scheduler.Serve`) |
| runs | `DeferRate.Runs` | rate limit, slot coherence, wake-ups, stops, map update, what is written when (`DeferRate` to `DeferWrites`) |
| receive path | `PacketReader.Receive`, `ManchesterReceiver.Receive` | the framing of the whole stream, however it is cut |
| codecs | `DecodeMessage`, `DecodeContentInto`, `DoWriteTo` of each protocol | functions from packets to messages and back, with round trips, and the bytes in plain numbers (`*Wire`) |

Two proof devices recur. In the tree a ghost map mirrors the nodes in memory, and a
zipper (path and focus) follows the descent; `Phase` says which of the trailing pointers
`t` and `g` may be stale. In the scheduler every write is one step of a value-level state
machine with an explicit environment (`Env`): the clock readings, whether the channel took
the bytes, whether the tree found room.

## Where the code departs from its description

* Storing presets 77 to 79 is meant to turn into menu commands, but the flags saved before
  the menu bits are set are written back, so nothing is left of the command
  (`Ccpacket.MenuPresetLost`).
* Packets due at the same time compare as equal. Deferring one of two such packets can take
  the other out of the queue, whose command is then never sent: `DeferTie.TieReached` is a
  run from a new engine in which that happens, to two receivers written to at one clock
  reading. `DeferMap.DeferIsMapUpdate` says exactly when deferring is a map update,
  `DeferTie.RunsUntied` under which times that holds over a run. After a tie (`tied`) the
  tree holds keys that change under it; results that must survive that are proved with queue
  and timer left arbitrary from there on (`Upset`).
* A write that the channel refuses is not put off: that packet is lost, and an older one that
  waits for the same receiver stays queued and is sent again later. What is written for a
  receiver is therefore the packet last sent to it and not refused
  (`DeferWrites.LatestWritten`, `DeferWrites.SendOutcome`).
* No protocol has words for all commands of a packet. What there is no word for is lost, and
  for each protocol the exact condition is proved under which a packet arrives as it was
  sent: `PelcoD.CommandRoundTrip`, `PelcoP.CommandRoundTrip`, `ViconCodec.FormDelivered`,
  `ManchesterTrip.PacketRoundTrip`. pelco_d and pelco_p have no words for alarm
  acknowledgement and lens speed; a packet with nothing else goes without a message, as does
  a stop without pan or tilt mode (`PelcoD.SilentExactly`, `PelcoP.SilentExactly`). They
  have none for automatic focus and iris either, and send the command without them. In
  pelco_d one sense bit serves both camera and auto-pan, so camera off is lost during
  auto-pan, too. vicon has no words for camera power, automatic focus, wiper off and erasing
  a preset; manchester has a wiper command only without a camera command, and presets 1 to
  8.
* Presets beyond 255 are cut to a byte and arrive as another preset or none;
  `PelcoD.PresetRoundTrip` and `PelcoP.PresetRoundTrip` have the exact condition.
* A menu command is turned into a preset, iris or pan command in the packet that is written,
  so that writers after it, and a packet put off, see the changed packet
  (`PelcoD.DoWriteTo`). The round trips of streams say what a menu command arrives as.
* The vicon speed form transmits speeds without a direction, too: a packet with a speed but no
  pan or tilt mode gets a direction on its way (`ViconCodec.SpeedRoundTrip`).
* The vicon form for presets above 15, or with a speed, transmits seven bits of the speeds and
  no movement bits, so that what was sent to the right and up arrives to the left and down
  (`ViconCodec.PresetRoundTrip`).
* Manual pan is in no setter's list of legal modes, and the tilt speed is not limited when
  it is set. Both are modelled as they are.
* A manchester reader starts with an empty packet for the first address of the node added
  last (`Ccreader.Reader.AddWriter`). If the first message is for another receiver, that
  packet is handed on, a stop that nobody sent, and the node takes it
  (`ManchesterStream.StreamRoundTrip`).
* `buffer_append` does not compact, so a transmit buffer can refuse a message although
  there is room at its front. Messages are then lost whole (`Writers.OverflowDropsWhole`).

Run `dafny verify dfyconfig.toml` in this directory to check all of it.

## Model

| member | source | states |
|---|---|---|
| `SortedList.AddedSorted` | src/rbtree.c:163-220 | adding in any of the three duplicate modes keeps the list sorted; in REJECT and REPLACE mode no two equal values ever coexist |
| `SortedList.RemoveSorted` | src/rbtree.c:267-315 | removing by key keeps the list sorted (and unique) and shortens it by one exactly if an equal value was there |
| `RbRotate.RotateSingle` | src/rbtree.c:60-72 | the rotation of nodes in memory does to links and colours exactly what the rotation of a memory map says, and touches nothing else |
| `RbRotate.RotateSingleAt` | src/rbtree.c:60-72 | storing the rotated subtree back at the link it hung from turns the tree laid out in memory into the rotated tree, in-order sequence and nodes kept |
| `RbRotate.RotateDoubleAt` | src/rbtree.c:74-79 | storing the doubly rotated subtree back at its link turns the tree in memory into the doubly rotated tree, in-order sequence and nodes kept |
| `RbHeight.HeightBound` | src/rbtree.c:107-189 | a red-black tree of n values with a black root has 2^height <= (n + 1)^2, that is, height at most 2 log2(n + 1) |
| `RbHeight.RoundsTwiceWithin` | src/rbtree.c:107-153 | twice that height and one more is at most 4 log2(n + 1) + 1 rounds |
| `RbHeight.HeightByBh` | src/rbtree.c:107-153 | no red node below a red node: the height is at most twice the black height (one more with a red root) |
| `RbScan.FakeRoot` | src/rbtree.c:107-118 | the fake root on top of the tree starts a search whose invariant (colour, black height, order, separation) holds |
| `RbInsert.FixGood` | src/rbtree.c:131-138 | repairing a red violation by single or double rotation at the grandparent restores colours and black heights everywhere |
| `RbInsert.FixWhole` | src/rbtree.c:131-138 | repairing a red violation leaves the in-order sequence alone |
| `RbInsert.FixRed` | src/rbtree.c:131-138 | in memory: at a violation `g` and `t` are the true grandparent and its parent, never null or stale, and the code performs that repair |
| `RbInsert.MetViolation` | src/rbtree.c:119-145 | although `g` and `t` fall behind after a rotation, a red violation is only ever met when they are exact again |
| `RbInsert.TrailFixed` | src/rbtree.c:131-146 | after a repair the pointers that trail are known to be stale by one step in one of two ways, and the measure of the descent has gone down |
| `RbInsert.Visit` | src/rbtree.c:119-138 | one turn of the insertion loop, with colour flip, hanging the node and repair, keeps the whole invariant |
| `RbInsert.SearchAndLink` | src/rbtree.c:118-150 | the descent ends, after at most twice the height plus one rounds, with the node hung in front of all values not less than its own |
| `RbInsert.Insert2` | src/rbtree.c:107-153 | one top-down pass inserts: the result is laid out in memory as a red-black tree (but for the root's colour) whose sequence is the old one with the value before all values not less than it |
| `RbTree.Insert` | src/rbtree.c:155-161 | insertion into an empty or non-empty tree ends in a red-black tree with a black root and the value before all values not less than it |
| `RbRemove.Sibling` | src/rbtree.c:242-252 | where the removal loop repairs below the real root, the sibling exists and is black |
| `RbRemove.PrepareRotate` | src/rbtree.c:291-296 | case: a red child beside the way down is rotated up, and the focus stays fit for removal |
| `RbRemove.PrepareFlip` | src/rbtree.c:249-252 | case: no red children: the colours of parent, sibling and focus are flipped |
| `RbRemove.PrepareTurn` | src/rbtree.c:253-264 | case: the sibling has a red child: one rotation at the grandparent makes the focus red |
| `RbRemove.FixRemove` | src/rbtree.c:242-265 | in memory: the repair pushes a red into the focus and keeps colours, black heights and sequence |
| `RbRemove.PushDown` | src/rbtree.c:291-299 | one turn of the removal loop makes the focus, or the child on the way, red without changing the sequence |
| `RbRemove.Hunted` | src/rbtree.c:278-300 | moving down one link keeps the search invariant, including which node `f` has met the key first |
| `RbRemove.Hunt` | src/rbtree.c:278-300 | within height rounds the loop ends at an empty link below a node that is red or the lone root, `f` being the first equal value if there is one, with all invariants kept |
| `RbRemove.EmptiedWhole` | src/rbtree.c:302-308 | copying the last value over the found one and splicing the last node out removes exactly one value from the sequence |
| `RbRemove.EmptiedGood` | src/rbtree.c:302-308 | splicing out a childless node that is red or the lone root keeps colours and black heights |
| `RbRemove.Unlink` | src/rbtree.c:302-309 | releasing the node before its links are read is harmless: the free-list word lies over its colour only |
| `RbRemove.Remove2` | src/rbtree.c:267-315 | one top-down pass removes the first value equal to the key and returns it, or changes nothing; one node and its pool slot go; the tree stays red-black within height rounds |
| `RbTree.RemoveAndBlacken` | src/rbtree.c:267-315 | removal including its last step, painting the root black: the first equal value is returned and gone, with one node and its slot, and the tree is red-black with a black root |
| `RbTree.RbTree.constructor` | src/rbtree.c:85-97 | a new tree is valid and empty |
| `RbTree.RbTree.Count` | src/rbtree.c:103-105 | `n_items` is the number of values, and of live pool slots |
| `RbTree.RbTree.HeightByCount` | src/rbtree.c:39-105 | at all times the height of the tree is at most 2 log2(n_items + 1) |
| `RbTree.RbTree.FullWhen` | src/rbtree.c:163-172 | the free list of the pool is empty exactly if the nodes of the tree fill every slot of every block |
| `RbTree.RbTree.LookupNode` | src/rbtree.c:174-189 | finds the node that the functional search finds, within height rounds and 2 log2(n_items + 1) of them |
| `RbTree.LookupFinds` | src/rbtree.c:174-189 | that search finds a value equal to the key exactly if there is one |
| `RbTree.RbTree.AddDupAllow` | src/rbtree.c:163-172 | adds in front of all equals, or returns NULL exactly if the pool is out of slots and malloc fails; one block more exactly if malloc gave it; at most twice the height plus one rounds, and 4 log2(n_items + 1) + 1 |
| `RbTree.RbTree.AddValue` | src/rbtree.c:191-228 | in every duplicate mode the tree becomes, and answers, what the sorted list does; NULL exactly if a new node is needed, the pool is out of slots and malloc fails |
| `RbTree.RbTree.ReplaceValue` | src/rbtree.c:199-207 | overwriting the value of an equal node replaces it in the sequence |
| `RbTree.RbTree.Get` | src/rbtree.c:234-240 | returns some value equal to the key, exactly if there is one |
| `RbTree.RbTree.Peek` | src/rbtree.c:375-382 | returns the first value, within height rounds and 2 log2(n_items + 1) of them |
| `RbTree.RbTree.RemoveValue` | src/rbtree.c:321-326 | removes and returns the first value equal to the key; one slot and no block is released; within height rounds and 2 log2(n_items + 1) of them |
| `RbTree.RbTree.ForEach` | src/rbtree.c:351-369 | the callback sees all values in order |
| `RbTree.RbTree.Clear` | src/rbtree.c:344-349 | the callback sees all values in order, then the tree is empty and every block of the pool is given back |
| `RbTree.ClearNode` | src/rbtree.c:328-338 | clearing a subtree calls back in order and releases exactly the slots of its nodes |
| `RbTree.HousedCount` | src/rbtree.c:39-50 | live slots and reachable nodes are in one-to-one correspondence, so they are equally many |
| `RbRuns.Perform` | src/rbtree.c:99-382 | every operation on the tree is a step of the sorted list with the number of its blocks: an add fails exactly if it needs a new node, all blocks are full and malloc refuses |
| `RbRuns.Execute` | src/rbtree.c:85-382 | every run of operations from initialisation on, whatever malloc grants, answers as the sorted list does |
| `RbRuns.RunSorted` | src/rbtree.c:163-220 | along any run the list is sorted, has room in its blocks, and is unique unless duplicates are allowed |
| `RbRuns.PeekRemove` | src/rbtree.c:321-326 | removing by what peek returned takes that very entry, even under ties |
| `RbRuns.RunNewestFirst` | src/rbtree.c:107-153 | along any run, among equal values the one added last comes first |
| `RbRuns.RunConserves` | src/rbtree.c:163-326 | what is stored and what was handed back is what was added: nothing is lost or doubled over a run |
| `SlotPool.SlotsDisjoint` | src/pool.c:45-69 | two slots of the pool never share a byte, in one block or in two |
| `SlotPool.BlockFull` | src/pool.c:44-47 | a block of 4096 bytes takes its header and that many slots, and not one more |
| `SlotPool.LiveApart` | src/pool.c:107-128 | two live slots never share a byte, and each lies in one block past its header |
| `SlotPool.FullPool` | src/pool.c:107-116 | the free list is empty exactly if every slot of every block is live |
| `SlotPool.Pool.constructor` | src/pool.c:96-101 | a new pool is empty and valid |
| `SlotPool.Pool.InitBlock` | src/pool.c:60-69 | the slots of a block are threaded in order; the address of the last one is returned and nothing outside the block is touched |
| `SlotPool.Pool.AddBlock` | src/pool.c:76-89 | a new block adds its slots, each once, to the free list, and its header to the block list |
| `SlotPool.Pool.Alloc` | src/pool.c:107-116 | hands out a slot that was not live; NULL exactly if the free list is empty and malloc fails |
| `SlotPool.Pool.Release` | src/pool.c:123-128 | the slot goes to the front of the free list; one word of memory changes |
| `SlotPool.Pool.Store` | src/pool.c:107-128 | whatever the owner of a live slot writes into it, free list and block list stay intact |
| `SlotPool.Pool.ReleaseAll` | src/pool.c:135-146 | the free list is rebuilt with every slot of every block exactly once |
| `SlotPool.Pool.Destroy` | src/pool.c:153-163 | every block is given back, once and in order |
| `SlotPool.ReleaseBlock` | src/pool.c:135-146 | one round of that loop leaves the block list alone and extends the free list by one block |
| `Timeval.Adjust` | src/timeval.c:28-34 | the loop ends with the normal time that lies the step (milliseconds times 1000, modulo 2^32) later |
| `Timeval.StepSmall` | src/timeval.c:28-34 | the step is exact below 2^32 microseconds and never longer than asked for |
| `Timeval.ElapsedError` | src/timeval.c:39-42 | the millisecond difference is off by less than a millisecond, since seconds and microseconds are truncated apart |
| `Timeval.ElapsedErrsBothWays` | src/timeval.c:39-42 | two inputs for which the computed difference is above and below the true one |
| `Timeval.CompareIsMicros` | src/timeval.c:79-92 | on clock readings the comparison orders by microseconds |
| `Ccpacket.ModesSet` | src/ccpacket.c:85-492 | every field of the flag word reads back as it was set, and setting one changes no other |
| `Ccpacket.ModeFits` | src/ccpacket.c:85-478 | a field only ever reads as one of its own legal modes |
| `Ccpacket.MenuPresetLost` | src/ccpacket.c:260-306 | storing presets 77 to 79 leaves no trace: no preset mode, no number, and the menu bits as they were |
| `Ccpacket.StopExactly` | src/ccpacket.c:322-336 | a packet is a stop exactly if it has no speeds and no mode but a direction, a lens speed or that of a preset without a number |
| `Ccpacket.PacketBuffer.SetPreset` | src/ccpacket.c:296-306 | the setter, with its saved flags and its menu translation, does what the function on packets says |
| `Ccpacket.PacketBuffer.SetPan` | src/ccpacket.c:162-166 | sets the pan field and the limited speed |
| `Ccpacket.PacketBuffer.SetTilt` | src/ccpacket.c:208-212 | sets the tilt field and the speed, unlimited |
| `Ccpacket.PacketBuffer.SetTimeout` | src/ccpacket.c:243-246 | sets the expiry that many milliseconds from now |
| `Ccpacket.PacketBuffer.Clear` | src/ccpacket.c:60-66 | clears all but the expiry |
| `DeferRate.RunsHold` | src/defer.c:63-111 | along any run, after a tie as well, slots and receivers stay coherent, `n_cnt` is 0 or 1, and writes to one slot keep their distance |
| `DeferRate.AfterHolds` | src/ccwriter.c:156-217 | every event keeps that invariant, nested writes included, and so does any change of queue and timer after a tie |
| `DeferRate.RateLimit` | src/ccwriter.c:156-206 | in any run, two successful writes to the same receiver are at least gaptime * 1000 - 999 microseconds apart, whatever queue and timer do after a tie |
| `DeferRate.ResendReturns` | src/ccwriter.c:188-217 | every packet waiting in a slot is addressed to that slot's receiver and writer, so that a resend comes back to it in bounds, after a tie as well |
| `DeferMap.DeferIsMapUpdate` | src/defer.c:74-86 | deferring is a map update of (receiver, packet, time) exactly if the first entry with the slot's time is its own or there is none; otherwise another receiver loses its packet |
| `DeferMap.TieLosesCommand` | src/defer.c:23-28 | two receivers put off at the same clock reading: the next command for the earlier one loses that of the later one |
| `DeferMap.SoonQueued` | src/ccwriter.c:188-196 | a command that comes too soon is queued in front of those for the same time |
| `DeferTie.AloneTakesOwn` | src/defer.c:74-86 | if no other receiver's packet has the time of the slot, the removal takes the slot's own entry or none, so that deferring is a map update |
| `DeferTie.RunsUntied` | src/defer.c:74-111 | over any run up to any point, if no other receiver's packet waited for the time of the slot in hand before that, every removal took the entry meant and no wake-up was lost |
| `DeferTie.TieReached` | src/ccwriter.c:188-217 | a run from a new engine with one writer, for any two of its receivers: three commands at one clock reading, at whose end the second receiver's command is gone, never written |
| `DeferWake.DeferTracks` | src/defer.c:63-86 | defer_packet ends with the timer armed for the earliest packet, or off if none waits |
| `DeferWake.DeferNextTracks` | src/defer.c:101-111 | after defer_next, nested write included, the timer is off if nothing waits and otherwise armed for the earliest packet |
| `DeferWake.RunsWake` | src/defer.c:63-111 | no wake-up is lost over any run, until a removal takes an entry that was not meant |
| `DeferWake.ArmedClose` | src/timeval.c:47-58 | while the timer runs, it runs out less than a millisecond before or after the earliest packet is due |
| `DeferWake.ByteWhenDue` | src/defer.c:63-69 | arming puts a byte into the pipe when the earliest packet is due, none when it is due in a millisecond or later, and none without packets |
| `DeferStop.StopWrittenTwice` | src/ccwriter.c:165-183 | a stop sent to an idle receiver stays queued exactly until it has been written twice, and is never written a third time, whatever is written to other receivers, refused or not; only its own repeats must be accepted and find room |
| `DeferStop.HeldBeforeExpiry` | src/ccwriter.c:175-183 | a held command is queued for a time before its own expiry, plus at most what the clock advanced between the two readings |
| `DeferStop.ShortNotHeld` | src/ccwriter.c:175-183 | a command that does not outlive the timeout is not queued |
| `DeferWrites.SendOutcome` | src/ccwriter.c:165-206 | any packet sent in any run: it is written exactly once if the channel takes it and gaptime milliseconds have passed since the last write, in microseconds within one millisecond, and otherwise put off to exactly gaptime later; a first stop is queued again for exactly gaptime later, a packet that outlives the timeout for exactly the timeout later, nothing else stays queued; a refused write changes nothing but the clock |
| `DeferWrites.NextOutcome` | src/defer.c:91-111 | the same of the nested write of defer_next, for the packet that was first in the queue |
| `DeferWrites.LatestWaits` | src/defer.c:74-111 | over any run from an empty queue, before a tie: what waits for a receiver is the packet last sent to it and not refused |
| `DeferWrites.LatestWritten` | src/ccwriter.c:188-206 | over any such run, every write to a receiver is of the packet last sent to it and not refused, as it was sent |
| `Scheduler.Scheduler.constructor` | src/defer.c:46-51 | the engine starts empty, with the timer off |
| `Scheduler.Scheduler.Rearm` | src/defer.c:63-69 | arms the timer for the first packet of the tree, or disarms it |
| `Scheduler.Scheduler.TimerArm` | src/timer.c:113-126 | zero milliseconds put a byte into the pipe, anything else starts the interval timer |
| `Scheduler.Scheduler.DeferPacketFor` | src/defer.c:74-86 | on tree, slots and timer, defer_packet is the step of the state machine |
| `Scheduler.Scheduler.TooSoonFor` | src/ccwriter.c:156-160 | the gap test, at one clock reading, is that of the state machine, which `DeferWrites.SendOutcome` pins in microseconds |
| `Scheduler.Scheduler.CheckDeferredFor` | src/ccwriter.c:165-183 | after a write, the stop and hold branches are the step of the state machine, whose queue times `DeferWrites.SendOutcome` has |
| `Scheduler.Scheduler.WriteSlotFor` | src/ccwriter.c:188-206 | a write to a receiver, put off, refused or made, is that step |
| `Scheduler.Scheduler.CcwriterDoWrite` | src/ccwriter.c:211-217 | a packet for a receiver in range is one write step of that receiver's slot; others change nothing |
| `Scheduler.Scheduler.DeferPacketNow` | src/defer.c:91-96 | the first packet is taken out of the tree and written, which may queue it again; the log shows which packet was written (`DeferWrites.NextOutcome`) |
| `Scheduler.Scheduler.DeferNextReady` | src/defer.c:101-111 | defer_next is the step of the state machine |
| `Scheduler.Scheduler.TimerRead` | src/timer.c:85-94 | takes one byte out of the pipe |
| `Scheduler.Scheduler.TimerHandler` | src/timer.c:28-32 | the signal handler puts one in |
| `Scheduler.Scheduler.SetReceivers` | src/ccwriter.c:31-44 | a new writer gets idle slots of its own, one per receiver, and nothing else changes |
| `Scheduler.Scheduler.Send` | src/ccwriter.c:211-217 | a packet from a reader is an event of a run |
| `Scheduler.Scheduler.TimerReady` | src/defer.c:101-111 | a readable timer pipe is an event of a run |
| `Scheduler.GoesRunning` | src/defer.c:63-111 | every event keeps all invariants of the running engine together |
| `Scheduler.Serve` | src/defer.c:46-111 | whatever happens in whatever order, the engine goes through a run of the state machine; the code does so until a removal takes another entry than the one meant |
| `Ccreader.RoutedExactly` | src/ccreader.c:158-188 | what is handed on is the ordered subsequence of the nodes whose range holds the receiver, no other node, each once, with the receiver shifted and the rest of the packet as it came |
| `Ccreader.Reader.constructor` | src/ccreader.c:109-122 | a new reader has no nodes and a cleared packet for receiver 0 |
| `Ccreader.Reader.AddWriter` | src/ccreader.c:140-150 | the node goes to the front of the list, and the reader's packet gets the first address that it takes |
| `Ccreader.Reader.PassOn` | src/ccreader.c:173-188 | one turn of the loop hands the shifted packet to the writer of the node, or skips it |
| `Ccreader.Reader.DoWriters` | src/ccreader.c:173-188 | the loop sends to exactly those nodes and restores the true receiver |
| `Ccreader.Reader.ProcessPacket` | src/ccreader.c:196-215 | a packet is given its time to live, routed and cleared |
| `Buffers.Buffer.Compact` | src/buffer.c:97-102 | pending bytes move to the front, unchanged |
| `Buffers.Buffer.Read` | src/buffer.c:110-127 | some of the input goes behind the pending bytes; ENOBUFS exactly if the buffer is full of pending bytes |
| `Buffers.Buffer.Append` | src/buffer.c:156-162 | a message fits exactly if there is room behind the input position |
| `Buffers.Buffer.Consume` | src/buffer.c:187-192 | bytes leave at the front; appended bytes are consumed bytes followed by pending bytes at all times |
| `Framing.ParseMore` | src/pelco_d.c:292-319 | the framing of a stream goes on where it stopped: earlier bytes and later bytes can be framed apart |
| `Framing.ParseMessages` | src/pelco_d.c:314-319 | messages sent back to back are framed without a byte dropped |
| `Framing.Resync` | src/manchester.c:247-273 | from a tail of flagless bytes on, every later message is framed |
| `Framing.LeftOver` | src/vicon.c:279-284 | what a reader leaves is less than one message |
| `Framing.AgreesMore` | src/pelco_d.c:268-280 | garbage that a pelco reader has not dropped yet makes no difference to the messages found |
| `Framing.FramedShapes` | src/pelco_d.c:292-319 | whatever is received, every message framed has the start byte, the size, the end byte and the checksum (sum of bytes 1 to 5, exclusive or of bytes 0 to 6) of its protocol |
| `Framing.TakenExactly` | src/pelco_p.c:304-332 | a message is taken at the front exactly if the bytes there have that shape |
| `Framing.DroppedExactly` | src/pelco_d.c:268-302 | a byte is dropped exactly if no message can start with it, which vicon and manchester look at once two and three bytes are there, or it starts the bytes of a pelco message that is none |
| `Framing.FrontFramed` | src/vicon.c:259-284 | bytes of that shape at the front are framed, status messages of vicon as well, whatever follows |
| `Framing.OneByteChanged` | src/pelco_d.c:285-302 | a pelco message of which any one byte is changed is no message, and nothing of it is framed |
| `Readers.SumChecksum` | src/pelco_d.c:84-90 | the checksum loop, in byte arithmetic |
| `Readers.XorChecksum` | src/pelco_p.c:86-92 | the checksum loop, with exclusive or |
| `Readers.DiscardGarbage` | src/pelco_d.c:268-280 | drops one byte and everything up to a start byte or the end of the data |
| `Readers.PelcoRead` | src/pelco_d.c:292-319 | the loop of both pelco readers takes exactly the messages of the framing and leaves what agrees with its rest |
| `Readers.ViconRead` | src/vicon.c:259-284 | the loop over the three sizes of vicon messages takes exactly the messages of the framing and leaves its rest, less than ten bytes |
| `Readers.Receive` | src/channel.c:602-627 | however a stream is cut into reads, the messages found are those of the whole stream, and the 256-byte buffer never overflows |
| `Readers.ChunkingIndependence` | src/pelco_p.c:287-342 | two readers that got the same bytes in different pieces go on alike for all bytes to come |
| `Writers.FittingAll` | src/buffer.c:156-162 | all messages fit exactly if there is room for all their bytes |
| `Writers.AppendMessage` | src/ccwriter.c:139-150 | a message is appended whole or left out |
| `Writers.Write` | src/buffer.c:135-148 | some of the pending bytes go out at the front; ENOBUFS exactly if there are none |
| `Writers.OverflowDropsWhole` | src/ccwriter.c:139-150 | however full the transmit buffer, what is appended is framed at the other end without a byte dropped |
| `Writers.PartArrives` | src/buffer.c:135-148 | a part of a stream that has come through is framed as its first messages, none broken and none invented |
| `Codec.MotionModes` | src/vicon.c:95-132 | what movement and lens bits mean to a cleared packet, the first of two contrary bits winning |
| `Codec.MotionInto` | src/vicon.c:95-132 | the decoders on the packet in place do what the functions say |
| `Pelco.SpeedError` | src/pelco_d.c:332-351 | quantised speeds are off by at most 23 (pan) and 31 (tilt); zero arrives exactly for speeds below 16 |
| `Pelco.SpeedErrorReached` | src/pelco_d.c:332-351 | speeds at which the errors 23 and 31 occur, and full pan speed arrives in full |
| `Pelco.SpeedMonotone` | src/pelco_d.c:332-351 | a faster command is never sent as a slower one |
| `Pelco.SpeedIdempotent` | src/pelco_d.c:105-111 | relaying a decoded speed does not change it again |
| `Pelco.VelocityError` | src/pelco_d.c:356-383 | without deadzone signed velocities arrive with those errors and never with the opposite sign |
| `Pelco.DeadzoneSpeeds` | src/pelco_p.c:107-129 | with the deadzone, speeds are still monotone, full at level 64, and zero exactly below level 7 |
| `Pelco.DeadzoneError` | src/pelco_p.c:107-129 | at a reader with deadzone a speed arrives at most 207 slower and 11 faster than it was sent, and as zero exactly below 208 |
| `Pelco.MirrorsRelayed` | src/pelco_d.c:177-187 | a decoded command is the command sent, at quantised velocities and with or without deadzone, exactly if that had no automatic lens function, alarm acknowledgement, lens speed or menu command and its camera command survived |
| `Pelco.AdjustMenuCommands` | src/pelco_d.c:484-492 | a menu command turns the packet in place into storing preset 95, or iris open or close, and nothing else changes |
| `Pelco.TurnedAlike` | src/ccwriter.c:165-206 | a packet put off after its menu command has been turned is the same to the scheduler (receiver, stop or not, expiry), and turning it again when it is sent again changes nothing |
| `Pelco.EncodePan` | src/pelco_d.c:356-367 | sets the direction bit and the speed byte in place |
| `Pelco.EncodeTilt` | src/pelco_d.c:372-383 | sets the tilt direction bit and the speed byte in place |
| `Pelco.DecodeFunctionInto` | src/pelco_d.c:191-229 | extended functions decoded into the packet in place, as `PelcoDWire.ExtendedRead` has them in numbers |
| `PelcoWire.LevelsAre` | src/pelco_d.c:332-351 | the speed byte is the nearest multiple of 32, 63 from 2032 on and 64 for full pan speed |
| `PelcoWire.ReadSpeed` | src/pelco_p.c:107-129 | a speed byte is read as 32 times its level and 64 upwards as full speed; with the deadzone nothing below 7 and evenly from there |
| `PelcoD.CommandRoundTrip` | src/pelco_d.c:177-443 | for all packets: a command arrives as sent if and only if it has no automatic lens function, alarm acknowledgement, lens speed or menu command, and no camera off during auto-pan |
| `PelcoD.PresetRoundTrip` | src/pelco_d.c:206-463 | for all packets with a preset mode: the preset arrives if and only if its number is at most 255 and it is not the storing of 77 to 79 |
| `PelcoD.WiperRoundTrip` | src/pelco_d.c:191-479 | wiper commands arrive |
| `PelcoD.DoWriteIs` | src/pelco_d.c:481-519 | the messages of a packet are those of the packet with its menu command turned, and none says anything of the menu |
| `PelcoD.SilentExactly` | src/pelco_d.c:484-519 | nothing is written for a packet exactly if its receiver is out of range or it has no pan, tilt, zoom, focus, iris, camera, preset or wiper mode and no menu command |
| `PelcoD.EncodeCommand` | src/pelco_d.c:433-443 | the bit by bit encoder yields the message of the packet, checksum included |
| `PelcoD.EncodeExtended` | src/pelco_d.c:448-479 | the preset and wiper encoders yield the message of the function and its parameter, checksum included, as `PelcoDWire.PresetOnly` has them in numbers |
| `PelcoD.DoWriteTo` | src/pelco_d.c:497-519 | the menu command is turned into another one in the packet itself, and the messages of that packet are appended to the transmit buffer in order, each whole or not at all; a receiver out of range changes nothing |
| `PelcoD.DecodeMessage` | src/pelco_d.c:116-244 | decoding in place is the decoding function |
| `PelcoDWire.MessagesWritten` | src/pelco_d.c:324-519 | for every packet without a menu command, the bytes written in plain numbers: one message each for commands, preset and wiper, bit by bit |
| `PelcoDWire.MenuWritten` | src/pelco_d.c:484-519 | a menu command goes out as the storing of preset 95, or as iris open or close, with all else that the packet asks for |
| `PelcoDWire.PresetOnly` | src/pelco_d.c:448-463 | a packet with nothing but a preset: FF r 0 7 0 n for recall, 3 for store and 5 for erase, and the sum |
| `PelcoDWire.WiperOnly` | src/pelco_d.c:467-479 | a packet with nothing but the wiper: FF r 0 9 0 1 for on, 11 for off, and the sum |
| `PelcoDWire.MenuOpened` | src/pelco_d.c:25-27 | a packet with nothing but menu open: FF r 0 3 0 95 and the sum |
| `PelcoDWire.StopWritten` | src/pelco_d.c:433-519 | a stop with a direction is FF r 0 0 0 0 r, one without is no message |
| `PelcoDWire.StopRead` | src/pelco_d.c:177-187 | a message without any command bit is read as a stop |
| `PelcoDWire.CommandRead` | src/pelco_d.c:32-187 | any seven bytes of a command: which bit is which command, the first of two contrary ones winning |
| `PelcoDWire.SpeedsRead` | src/pelco_d.c:105-137 | and its speeds, where a direction bit is set |
| `PelcoDWire.ExtendedRead` | src/pelco_d.c:191-244 | any seven bytes of a function: 3 stores, 5 erases and 7 recalls the preset, 9 and 11 turn the wiper on and off, all else is ignored |
| `PelcoP.CommandRoundTrip` | src/pelco_p.c:196-460 | for all packets, to a reader with or without deadzone: a command arrives as sent, at the velocities that the reader makes of the levels sent, if and only if it has no automatic lens function, alarm acknowledgement, lens speed or menu command |
| `PelcoP.PresetRoundTrip` | src/pelco_p.c:225-480 | for all packets with a preset mode, deadzone or not: the preset arrives if and only if its number is at most 255 and it is not the storing of 77 to 79 |
| `PelcoP.WiperRoundTrip` | src/pelco_p.c:210-496 | wiper commands arrive, deadzone or not |
| `PelcoP.DoWriteIs` | src/pelco_p.c:498-529 | the messages of a packet are those of the packet with its menu command turned, and none says anything of the menu |
| `PelcoP.SilentExactly` | src/pelco_p.c:501-529 | nothing is written for a packet exactly if its receiver is out of range or it has no pan, tilt, zoom, focus, iris, camera, preset or wiper mode and no menu command |
| `PelcoP.EncodeCommand` | src/pelco_p.c:450-460 | the bit by bit encoder yields the message of the packet, checksum included |
| `PelcoP.EncodeExtended` | src/pelco_p.c:465-496 | the preset and wiper encoders yield the message of the function and its parameter, checksum included, as `PelcoPWire.PresetOnly` has them in numbers |
| `PelcoP.DoWriteTo` | src/pelco_p.c:514-529 | the menu command is turned into another one in the packet itself, and the messages of that packet are appended to the transmit buffer in order, each whole or not at all; a receiver out of range changes nothing |
| `PelcoP.DecodeMessage` | src/pelco_p.c:134-263 | decoding in place is the decoding function, with or without deadzone |
| `PelcoPWire.MessagesWritten` | src/pelco_p.c:347-529 | for every packet without a menu command, the bytes written in plain numbers: one message each for commands, preset and wiper, bit by bit |
| `PelcoPWire.MenuWritten` | src/pelco_p.c:501-529 | a menu command goes out as the storing of preset 95, or as iris open or close, with all else that the packet asks for |
| `PelcoPWire.PresetOnly` | src/pelco_p.c:465-480 | a packet with nothing but a preset: A0 r 0 7 0 n AF for recall, 3 for store and 5 for erase, and the exclusive or |
| `PelcoPWire.WiperOnly` | src/pelco_p.c:484-496 | a packet with nothing but the wiper: A0 r 0 9 0 1 AF for on, 11 for off, and the exclusive or |
| `PelcoPWire.MenuOpened` | src/pelco_p.c:27-29 | a packet with nothing but menu open: A0 r 0 3 0 95 AF and the exclusive or |
| `PelcoPWire.StopWritten` | src/pelco_p.c:450-529 | a stop with a direction is A0 r 0 0 0 0 AF and the exclusive or, one without is no message |
| `PelcoPWire.StopRead` | src/pelco_p.c:196-206 | a message without any command bit is read as a stop, deadzone or not |
| `PelcoPWire.CommandRead` | src/pelco_p.c:34-206 | any eight bytes of a command: which bit is which command, the first of two contrary ones winning |
| `PelcoPWire.SpeedsRead` | src/pelco_p.c:107-160 | and its speeds, where a direction bit is set, with or without deadzone |
| `PelcoPWire.ExtendedRead` | src/pelco_p.c:210-263 | any eight bytes of a function: 3 stores, 5 erases and 7 recalls the preset, 9 and 11 turn the wiper on and off, all else is ignored |
| `ViconCodec.CommandRoundTrip` | src/vicon.c:226-378 | a command in the short form arrives as it was sent |
| `ViconCodec.SpeedRoundTrip` | src/vicon.c:169-416 | every command of a speed message arrives, and its velocities are exact if and only if its speeds have a direction |
| `ViconCodec.PresetRoundTrip` | src/vicon.c:185-437 | extended presets up to 127 arrive, with the low seven bits of their speeds, which then go left and down whatever their direction was, or nowhere in auto-pan |
| `ViconCodec.FormExactly` | src/vicon.c:199-489 | for all packets: the commands arrive as sent if and only if there is no menu or camera command, automatic focus, wiper off or erase, and a preset is at most 127 and not the storing of 77 to 79 |
| `ViconCodec.FormDelivered` | src/vicon.c:199-489 | for all packets: commands, and velocities but for extended presets, arrive exactly if and only if the packet holds only such commands and, where its speeds are sent, they have a direction |
| `ViconCodec.FlagsFirst` | src/vicon.c:289-437 | only the first byte of a message has bit 7 set |
| `ViconCodec.FormUnsaid` | src/vicon.c:462-489 | no form of message says anything of the menu command |
| `ViconCodec.TurnedAlike` | src/vicon.c:465-489 | a packet put off after its menu command has been turned is the same to the scheduler, and turning it again changes nothing |
| `ViconCodec.StreamRoundTrip` | src/vicon.c:279-489 | any sequence of expressible packets is framed without a byte dropped, one message and one delivery each, a menu command as the command it is turned into |
| `ViconCodec.Resynchronises` | src/vicon.c:259-284 | a reader that joins in the middle of a message drops its rest, at most nine bytes, and frames every later one |
| `ViconReader.DecodeMessage` | src/vicon.c:199-241 | decoding in place is the decoding function |
| `ViconWire.MessageWritten` | src/vicon.c:289-489 | for every packet without a menu command, the bytes of its one message in plain numbers, in each of the three forms |
| `ViconWire.MenuWritten` | src/vicon.c:465-489 | a menu command goes out as the storing of preset 94, auto-pan or automatic iris, with all else that the packet asks for |
| `ViconWire.PresetOnly` | src/vicon.c:355-437 | a packet with nothing but the recall or storing of a preset: six bytes with 32 or 64 and the number up to 15, ten bytes with 16 or 17 and seven bits of the number above |
| `ViconWire.MenuOpened` | src/vicon.c:26-28 | a packet with nothing but menu open: the ten bytes that store preset 94 |
| `ViconWire.MenuEntered` | src/vicon.c:465-473 | a packet with nothing but menu enter: six bytes with the auto-pan bit |
| `ViconWire.MenuCancelled` | src/vicon.c:465-473 | a packet with nothing but menu cancel: six bytes with the automatic iris bit |
| `ViconWire.CommandRead` | src/vicon.c:95-241 | any six bytes: which bit is which command, and a preset with a number |
| `ViconWire.SpeedsRead` | src/vicon.c:169-222 | ten bytes without the request bit: the first six, and two speeds of eleven bits |
| `ViconWire.PresetsRead` | src/vicon.c:178-222 | ten bytes with it: the first six, and unless it is a status a preset to store or recall with two speeds of seven bits |
| `ViconWire.StatusRead` | src/vicon.c:245-255 | a status message of two bytes changes nothing |
| `PacketReader.DecodedAnew` | src/pelco_d.c:234-244 | decoding keeps the expiry, and what receiver the packet held before makes no difference |
| `PacketReader.ReceivedExactly` | src/vicon.c:245-275 | every message framed hands on one packet, in order, decoded from a cleared one, but for the two-byte status messages of vicon, which hand on none |
| `PacketReader.ReadPackets` | src/vicon.c:259-284 | one read of pelco_d, pelco_p or vicon hands on exactly the packets of the messages framed, each decoded from a cleared packet, none for status messages, from whatever receiver the reader starts with |
| `PacketReader.Receive` | src/channel.c:602-627 | however a stream is cut into reads, the packets handed on over each of the three protocols are those of the messages of the whole stream |
| `PacketStream.PacketDelivered` | src/pelco_d.c:481-519 | one packet written over pelco_d or pelco_p comes back as one packet each for its commands, its preset and its wiper, a menu command as the command it is turned into, deadzone or not |
| `PacketStream.StreamRoundTrip` | src/pelco_d.c:292-519 | any sequence of expressible packets, sent back to back over pelco_d or over pelco_p to a reader with or without deadzone, is framed without a byte dropped and delivered, one packet per message, in order |
| `PacketStream.ViconArrives` | src/vicon.c:259-489 | packets sent back to back over vicon come out of the reader one by one, in order, each delivered, and nothing else comes out |
| `ViconWriter.EncodeCommand` | src/vicon.c:367-378 | the bit by bit encoder yields the six-byte message |
| `ViconWriter.EncodeExtendedSpeed` | src/vicon.c:403-416 | the bit by bit encoder yields the ten-byte speed message |
| `ViconWriter.EncodeExtendedPreset` | src/vicon.c:421-437 | the bit by bit encoder yields the ten-byte preset message |
| `ViconWriter.AdjustMenuCommands` | src/vicon.c:465-473 | a menu command turns the packet in place into storing preset 94, auto-pan or automatic iris, and nothing else changes |
| `ViconWriter.DoWriteTo` | src/vicon.c:477-489 | turns the menu command into another one in the packet itself, chooses the form and appends the message whole or not at all; a receiver out of range changes nothing |
| `ManchesterCodec.FieldsRoundTrip` | src/manchester.c:87-104 | every address from 1 to 1024, command and extra survive the scattering of bits over three bytes |
| `ManchesterCodec.EncodeSpeed` | src/manchester.c:327-335 | the search loop finds the level |
| `ManchesterCodec.LevelIsNext` | src/manchester.c:327-335 | the level reached is not below the speed, and every lower one is |
| `ManchesterCodec.RoundedUp` | src/manchester.c:26-35 | speeds are rounded up by less than 256 and settle after one relay |
| `ManchesterWire.MessagesWritten` | src/manchester.c:278-472 | for every packet: the bytes written, in order and in plain numbers |
| `ManchesterWire.LevelIs` | src/manchester.c:26-335 | the level is the speed less one in steps of 256, and full speed from 1793 on |
| `ManchesterWire.MessageRead` | src/manchester.c:80-231 | what any three bytes change in the packet held: a movement at one of eight speeds, or one of 32 words |
| `ManchesterCodec.DecodeContentInto` | src/manchester.c:116-231 | decoding in place is the decoding function |
| `ManchesterRead.DecodePacket` | src/manchester.c:236-242 | another receiver hands the held packet on; the message is merged into the packet either way |
| `ManchesterRead.DoRead` | src/manchester.c:247-273 | one read takes exactly the messages of the framing, and the held packet is handed on if no partial message is left |
| `ManchesterRead.FoldIsGrouped` | src/manchester.c:236-242 | the packets handed on are the groups of messages, merged |
| `ManchesterRead.GroupsAreRuns` | src/manchester.c:236-273 | the groups of one read are the maximal runs of equal receiver, no message lost or doubled |
| `ManchesterRead.ReadsConserve` | src/manchester.c:265-273 | over any series of reads, partial tails or not, every message goes into exactly one packet, in order |
| `ManchesterReceiver.Receive` | src/channel.c:602-627 | from any starting receiver and however a stream is cut into reads, the packets handed on and the one held are those groups, made of all messages of the stream, each once; nothing is held when no partial message is left |
| `ManchesterTrip.ContentsMerged` | src/manchester.c:340-472 | what merging the messages of a packet makes of the packet held |
| `ManchesterTrip.PacketRoundTrip` | src/manchester.c:225-472 | for all packets in range: the messages written merge back into one packet with its receiver, its commands, and its velocities at the next level up, if and only if the packet has no automatic function, alarm, lens speed or menu command, no wiper command but on without a camera command, and no preset but to store or recall 1 to 8 |
| `ManchesterStream.GroupedPackets` | src/manchester.c:236-273 | packets for alternating receivers come back as one group each |
| `ManchesterStream.StreamRoundTrip` | src/manchester.c:265-472 | a stream of such packets, read at once, comes out one by one; before them goes an empty packet, a stop for the receiver that the reader starts with, if and only if the first packet is for another receiver |
| `ManchesterStream.Resynchronises` | src/manchester.c:247-273 | a reader that joins in the middle of a message drops its rest, at most two bytes, and frames every later one |
| `ManchesterWriter.EncodeMessage` | src/manchester.c:278-322 | address and content put together in place |
| `ManchesterWriter.DoWriteTo` | src/manchester.c:458-472 | the messages of a packet are appended in order, each whole or not at all |

## Left out

- DeferWake.RunsWake: holds of a run until a removal has taken another entry than the one meant (`tied`), because from then on a key can change inside the tree and the code gives no guarantee.
- DeferStop.StopWrittenTwice: supposes that the channel takes the bytes of the stop and the tree has room for it when it is repeated; a refused write is not repeated by the code.
- DeferStop.HeldBeforeExpiry: leaves room for the clock to advance between the two readings that the code makes.
- DeferWrites.SendOutcome: leaves open what happens in the millisecond around each threshold, where the truncation of seconds and microseconds apart decides; queue times are exact.
- DeferWrites.LatestWaits: holds until a removal has taken another entry than the one meant (`tied`), like `DeferWrites.LatestWritten`.
- RbTree.RbTree.Get: says that the value is one of the equal ones, not which; the search stops at the first it meets on its way down.
- ManchesterStream.StreamRoundTrip: is about a stream read at once, and about packets for alternating receivers, since packets for one receiver in a row are merged by design (`ManchesterRead.GroupsAreRuns` says how).
- Node memory: nodes are objects with an address in the pool, not bytes in its words. What the overlap of free-list word and node means is modelled by losing the colour on release; the layout for 32-bit and 64-bit words is not.
- Scheduler.Serve: the tree's values are snapshots of the keys, so that once `tied` is set (a packet's time changed while it was in the tree) the steps of the scheduler no longer follow the code. `DeferRate.RunsHold`, `DeferRate.RateLimit` and `DeferRate.ResendReturns` hold for any queue and timer from there on.
- malloc is known by its contract: a block of 4096 bytes apart from all others, or NULL. Its addresses are parameters.
- The interval timer and its pipe are abstract (armed since when for how long, bytes waiting); the pipe is unbounded. Signals, timer installation and file descriptors are left out.
- The clock is an answer of the surroundings that never runs backwards; integers are unbounded but for the unsigned product in timeval_adjust.
- Readers hand packets on as values; the expiry that ccreader_process_packet writes into them is modelled in `Ccreader` only.
- The number of writers that ccreader_do_writers returns, and the statistics and log lines.
- The wiring of `Scheduler` to the codecs: to the scheduler a do_write is accepted or refused; what it puts into the transmit buffer is modelled in the codecs.
- Messages are put together in an array of their own and then copied to the transmit buffer, instead of in the buffer itself.
- A packet whose menu command a writer has turned in place goes on as turned, to later writers of the reader and into the slot that holds it. `Scheduler` and `Ccreader` keep the packet as it came; to the scheduler the two are the same (`Pelco.TurnedAlike`, `ViconCodec.TurnedAlike`). Joystick menus.
- src/axis.c and src/infinova.c, which only write; src/joystick.c; src/config.c; src/log.c and src/stats.c.
- Sockets, poll, reconnection and the rest of src/channel.c, src/poller.c and src/main.c; of src/channel.c only the size of the receive buffer and the reading of some bytes at a time are used.
