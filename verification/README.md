# Lunatik in Dafny

A model of the core of Lunatik, the framework that runs Lua scripts in the Linux kernel, and proofs about it:

- **Shared objects** (`options`, `objects`, `object_runs`, `object_lifetime`, `object_contexts`, `object_calls`):
  reference-counted objects shared between Lua runtimes, rcu tables and C code, as a transition system over every
  interleaving of agents, what an interrupt runtime reaches in it, and the calls of the C core as methods that run whole
  release cascades on it.
- **Running and stopping** (`runtime_gate`, `thread_stop`): the gate in front of a runtime's Lua state, and the
  protocol between a kernel thread and the calls that stop it.
- **Tables** (`rcu_table`, `rcu_map`, `rcu_iteration`, `rcu_visits`, `rcu_key_visits`, `rcu_own_key`, `rcu_reachable`): the
  bucketed hash table, when it is a map, and iteration while callbacks change it.
- **Binary formats** (`bytes`, `optional`, `struct_layout`, `struct_codec`): formats derived from struct layouts, the second
  validator of the same layouts, and the round trip of packing and unpacking.
- **Netlink** (`netlink_message`, `netlink_codec`, `netlink_attributes`, `netlink_session`, `netlink_talk`): the
  record codec and the request/reply discipline over whole runs.
- **The script runner**: on finite maps (`runner_names`, `runner`, `runner_runs`), on the rcu tables it really uses
  (`runner_tables`, `runner_table_runs`, `runner_registry`), and what happens when its keys collide
  (`runner_collisions`).
- **String sets** (`string_set`, `string_set_build`), **mailboxes** (`mailbox`), the **buffered FILE** (`stdio_file`),
  **HKDF** (`hkdf`) and the **server-name filter** (`sni_filter`).

Code that updates state in place is modelled by classes whose methods are proved against pure functions;
concurrent protocols are transition systems whose runs are all sequences of enabled steps. Hash functions, callbacks,
the keyed hash, the order in which tables are traversed, the order that sorting leaves equal keys in, allocation
failures, kernel reads and the kernel's answers are parameters. `dafny verify dfyconfig.toml` checks everything.

## Where the code does not do what one would expect

Each of these is kept as the code has it, shown by a concrete input or run, and bounded by an exact condition:

- A table lookup compares only as many bytes as the key looked up has, so a stored key that extends it in the same
  bucket is found too: `RcuMap.CollisionShows`, `RcuMap.MapIffSeparate`.
- The runner's own per-CPU keys are such keys from eleven CPUs on: when "s:1" and "s:10" share a bucket, packets on CPU
  1 are given CPU 10's runtime, and stopping the script leaves CPU 1's runtime registered and running:
  `RunnerCollisions.ElevenCpus`, `RunnerCollisions.OwnRuntimesIff`, `RunnerCollisions.StopEmptiesIff`,
  `RunnerCollisions.SeparateForEveryHashIff`. Scripts of which one's name begins the other's meet the same fate:
  `RunnerCollisions.PrefixScript`.
- An iteration holds the address of the next node, which dangles if the callback deletes or replaces that node:
  `RcuVisits.DeletesTheNext`, `RcuVisits.BreaksIff`.
- `lunatik_run` reads `private` again to find the ready flag, and a failed load clears it without the lock, so a handler
  may look for the flag in a closed Lua state; if that reads as set, a third read finds nothing and the handler is called
  with a null pointer: `RuntimeGate.Caught`, `RuntimeGate.CalledOnNull`, `RuntimeGate.DeadReadIff`,
  `RuntimeGate.NullCallIff`, `RuntimeGate.NeverMisled`.
- `lunatik_stop` closes what it took even if that is null, as on a runtime already stopped: `RuntimeGate.SecondStop`,
  `RuntimeGate.StopsNullIff`.
- `message.encode` does not pad, so messages built one after the other parse back only when all but the last have
  payloads of whole words: `NetlinkCodec.ConcatParsesIffAligned`.
- A reply that ends in an earlier datagram than its last leaves the rest to the next call: `NetlinkTalk.StaleRun`,
  `NetlinkTalk.StaleReply`, `NetlinkTalk.RunInSyncIff`.
- `spawn` registers the thread under the untrimmed name, so stopping "a.lua" leaves its thread registered:
  `RunnerRuns.SpawnedUntrimmed`, `RunnerTableRuns.SpawnThreadsIff`.
- `shutdown` stops trimmed names, which `stop` trims again, so a script started as "a.luaxlua" survives it:
  `RunnerRuns.ShutdownMisses`, `RunnerTableRuns.ShutdownStopsIff`.
- A table write that fails for a later CPU is not rolled back: `RunnerTableRuns.RunGoodIff`.
- A table stored in itself is never freed: `ObjectLifetime.SelfContainedTableLeaks`,
  `ObjectLifetime.NothingLeaksIffAcyclic`.
- `lunatik_newobject` allocates before it checks the class, so each refused creation loses the memory of an object:
  `ObjectLifetime.RefusedCreationLeaks`, `ObjectLifetime.NothingLeaksIff`.
- A value put in a table is not checked for interrupt context, so an interrupt runtime may reach an object with a mutex
  through a table, even as the only one to hold it: `ObjectContexts.InterruptReachesMutex`, `ObjectContexts.CleanIff`,
  `ObjectContexts.StepSafeIff`.
- The XDP hook cuts a per-CPU key that is longer than its buffer, and may be left with the key of another script:
  `RunnerTableRuns.CutDispatchIff`.
- A string set cuts the length of a query to 32 bits: `StringSet.Set.Has`.
- `ftell` tells the position of the next kernel read: `StdioFile.File.Ftell`.
- The server-name walk ignores the total length of the extensions and goes on into what follows the message, which may
  even get the packet dropped: `SniFilter.DroppedForTrailer`, `SniFilter.MessageDecidesIff`.

## Model

| member | source | states |
|---|---|---|
| Options.InheritDecodes | lunatik.h:214-223 | The option bits of a new object, computed by masking, are option by option the union of its class's and its own, except that asking for SINGLE drops MONITOR; both interrupt options imply IRQ. |
| ObjectRuns.ReferencedIsLive | lunatik.h:237-238 | Whatever a handle, a table entry or C code refers to has a positive count and is live. |
| ObjectRuns.LastPutUnpinned | lunatik_obj.c:96-106 | When the last reference is put, no agent runs in or is releasing the object's private part, so the release that follows is the only one. |
| ObjectRuns.StepKeepsInv | lunatik_obj.c:19-118 | Every atomic step of every agent (create, share, get, table set, replace and delete, close, put, release, free) keeps counts equal to references, references inside unreleased private parts, releases counted and confinement. |
| ObjectRuns.MovesReferences | lib/luarcu.c:120-152 | What a table gives up when an entry is deleted or replaced, and what C code turns into a handle, is the same reference under another owner; no other reference changes. |
| ObjectRuns.MakesReferences | lunatik.h:237-252 | Every other step makes exactly one reference, takes exactly one away, or leaves all as they are. |
| ObjectLifetime.RunKeepsInv | lunatik_obj.c:19-118 | Every state of every interleaving satisfies that invariant. |
| ObjectLifetime.CountIsReferences | lunatik.h:237-238 | In every state of every run the count of an object is the number of its references, and it is live exactly while there is one. |
| ObjectLifetime.ReleasedExactlyOnce | lunatik_obj.c:80-106 | However explicit closes, finalizers and last puts interleave, a private part is released at most once, and exactly once by the time its object is freed if it had one. |
| ObjectLifetime.PrivateIsNotForgotten | lunatik_obj.c:80-93 | An object that once had a private part never goes back to having none without a release. |
| ObjectLifetime.FreedIsFinal | lunatik_obj.c:96-106 | After an object is freed no reference to it ever exists again and nothing about it changes. |
| ObjectLifetime.SingleStaysHome | lunatik_obj.c:54-67 | An object made SINGLE by its class or by its creator is never in a table and has handles only in the runtime that created it, in all later states. |
| ObjectLifetime.IrqRuntimeSeesSpinlocks | lunatik.h:37-50 | Every object that a handle in an interrupt runtime refers to directly is locked by a spinlock, never a mutex, and allocates atomically. |
| ObjectContexts.CleanIff | lunatik_val.c:20-24 | Everything an interrupt runtime reaches, through handles and table entries in any number of steps, is locked by a spinlock and allocates atomically if and only if no table it reaches holds an object made without the interrupt option. |
| ObjectContexts.PlainCleanIff | lunatik_val.c:20-24 | Of an object that is neither a runtime nor a table, its own option is all there is to check. |
| ObjectContexts.StepSafeIff | lunatik_obj.c:19-118 | While interrupt runtimes reach only such objects, a step keeps it so if and only if it does not put a handle or a table entry, where an interrupt runtime reaches it, that leads to an object without the interrupt option; creations, closes, puts, deletions and releases always keep it. |
| ObjectContexts.RunSafeIff | lunatik_obj.c:19-118 | Interrupt runtimes reach only such objects in every state of a run if and only if no step of the run is of that kind. |
| ObjectContexts.InterruptReachesMutex | lunatik_core.c:214-217 | A run after which the table that an interrupt runtime has a handle to holds the only reference to an object whose lock is a mutex. |
| ObjectLifetime.ReleaseProgress | lunatik_obj.c:70-106 | While anything is half released, some release step is possible. |
| ObjectLifetime.InternalDecreasesWork | lunatik_obj.c:70-106 | Every release step, whoever takes it, strictly decreases a bound, so a cascade ends in any order. |
| ObjectLifetime.CascadeTerminates | lunatik_obj.c:70-106 | From every reachable state the release steps can be continued, within that bound, until nothing is half released. |
| ObjectLifetime.NothingLeaksIffAcyclic | lunatik_obj.c:96-106 | When C code holds nothing and no release is under way, every object made is freed if and only if no objects hold each other in a cycle. |
| ObjectLifetime.MemoryIsObjects | lunatik_obj.c:19-33 | In every state of every run the memory not given back is that of the objects not freed and of one more for each refused creation. |
| ObjectLifetime.NothingLeaksIff | lunatik_obj.c:19-106 | When C code holds nothing and no release is under way, all memory has been given back if and only if no objects hold each other in a cycle and no creation was refused. |
| ObjectLifetime.RefusedCreationLeaks | lunatik_obj.c:22-25 | A run in which every object is freed and yet the memory of a refused one is not given back. |
| ObjectLifetime.SelfContainedTableLeaks | lib/luarcu.c:120-152 | A run in which a table stored in itself outlives its last handle: the acyclicity condition is needed. |
| ObjectCalls.Core.PutObject | lunatik.h:238 | One put removes one reference; if it was the last, the object and all that only it kept alive are released and freed before the call returns, and nothing else is touched. |
| ObjectCalls.Core.ReleaseObject | lunatik_obj.c:96-106 | Releases the private part if there is one, frees the object, and lets go of everything reached only through it. |
| ObjectCalls.Core.ReleasePrivate | lunatik_obj.c:70-78 | A table drops its entries and a Lua state its handles one by one; the references on the stack of the agent that closes it survive. |
| ObjectCalls.Core.DeleteObject | lunatik_obj.c:109-118 | The finalizer puts the object once; on an emptied handle it reports an invalid object and changes nothing. |
| ObjectCalls.Core.CloseObject | lunatik_obj.c:80-93 | Only the caller that finds the private part attached releases it; any other close changes nothing, and the object stays referenced. |
| ObjectCalls.Core.NewObject | lunatik_obj.c:19-33 | Refuses exactly a process-context class in an interrupt runtime, and then loses the memory it allocated and changes nothing else; otherwise the new object has one handle, its inherited options and its allocation flags, and no memory is lost. |
| ObjectCalls.FitsIffEnabled | lunatik_obj.c:54-67 | An object may be shared with a runtime, not being SINGLE and its class being an interrupt class if the runtime is, exactly when the step of the core that pushes it is possible. |
| ObjectCalls.Core.PushObject | lunatik.h:248-252 | Shares an object by one more handle if and only if it is not SINGLE and, in an interrupt runtime, its class is an interrupt class; refuses it as SINGLE if and only if it is, and otherwise for its context; a refusal changes nothing. |
| ObjectCalls.Core.PushValue | lunatik_val.c:39-60 | Under the same conditions the reference that a table lookup took becomes the handle; otherwise it is put again: it never leaks. |
| ObjectCalls.Core.CopyObjects | lunatik_core.c:101-115 | Copies resume arguments in order and stops at the first that is no object, is SINGLE, or is of a process class in an interrupt runtime, and says which; exactly the handles made up to there exist. |
| RuntimeGate.StepKeepsInv | lunatik.h:57-77 | Every step of the loader, of handlers (each of their reads of `private` and of the ready flag is one), of resumed bodies and of both ways to stop keeps the lock, the flag, the attached state and who may be where consistent. |
| RuntimeGate.RunKeepsInv | lunatik_core.c:228-270 | So does every interleaving of them. |
| RuntimeGate.RunKeepsGated | lunatik.h:57-77 | In every state of every interleaving, whoever runs does so in a published runtime with its Lua state attached, and a handler that saw the flag will, or finds no Lua state after a load that failed. |
| RuntimeGate.OneAtATime | lunatik.h:57-77 | At any moment at most one of the script, the handlers, the resumed bodies and the closers executes in the Lua state, and never in a closed one. |
| RuntimeGate.ClosedAtMostOnce | lunatik_core.c:83-94 | The Lua state is closed at most once, however stops, closes and a failed load interleave. |
| RuntimeGate.RunsOnlyWhenReady | lunatik.h:57-77 | Whoever runs holds the lock and runs in a published runtime with the Lua state attached, and in an interrupt runtime with atomic allocation. |
| RuntimeGate.NeverAfterStop | lunatik_core.c:83-94 | Once a stop section or a failed load cleared the Lua state it stays cleared, and no handler and no resumed body ever runs again. |
| RuntimeGate.ReadyMeansRun | lunatik.h:57-77 | However its reads interleave with other steps, a dispatch is run if and only if the runtime was published and not stopped when it got the lock; unless the load failed in between. |
| RuntimeGate.DispatchRunsIff | lunatik.h:69-77 | A dispatch or a resume that took the lock and released it has run in between if and only if the runtime was published and not stopped when it took the lock, whatever else happened. |
| RuntimeGate.StartRuns | lunatik.h:61-67 | A handler that saw the flag of a runtime that did not fail to load is called in its Lua state. |
| RuntimeGate.Dispatched | lunatik.h:57-77 | A run in which a script is loaded and published and a handler runs to its end and leaves the runtime free. |
| RuntimeGate.DeadReadIff | lunatik_core.c:253-256 | In a run that leaves no handler between its reads, some handler looks for the flag through a null pointer or in a closing or closed Lua state if and only if the load fails while a handler is between its reads. |
| RuntimeGate.NeverMisled | lunatik_core.c:253-256 | If no load fails between a handler's reads, no handler takes what it reads in a dead Lua state for the flag. |
| RuntimeGate.Caught | lunatik_core.c:253-256 | A run of five steps after which a handler is about to look for the flag in a Lua state that has been closed. |
| RuntimeGate.CalledOnNull | lunatik.h:57-77 | Two steps later, if what it read looked set, it is called with a null pointer. |
| RuntimeGate.NullCallIff | lunatik.h:57-77 | In a run that leaves no handler before its third read of `private`, some handler is called with a null pointer if and only if some handler looked for the flag in a dead Lua state and what it read looked set. |
| RuntimeGate.StopsNullIff | lunatik_core.c:83-94 | A stop takes the Lua state if it is the first; a later `lunatik_stop` takes and closes a null pointer, a later `lunatik_closeobject` nothing. |
| RuntimeGate.SecondStop | lunatik_core.c:83-94 | A run in which a second stop hands a null pointer to the closing of Lua states. |
| ThreadStop.RunKeepsInv | lib/luathread.c:29-113 | Every interleaving of the worker with any number of stop calls keeps the reference counts, its `task` field and the monitor lock consistent. |
| ThreadStop.DroppedAtMostOnce | lib/luathread.c:89-113 | The thread's reference to its own object and to its runtime are each dropped at most once, by the worker or a stopper, and nobody who still needs the object finds it freed. |
| ThreadStop.DroppedExactlyOnce | lib/luathread.c:42-62 | When the worker has exited and all calls are over, both were dropped exactly once. |
| ThreadStop.StopsALiveThread | lib/luathread.c:89-113 | The kernel stop is only asked for a thread that has not exited, and by one caller at a time. |
| ThreadStop.StopIsEffective | lib/luathread.c:89-113 | After a stop call the body has returned or never ran, and the thread has exited if the call waited for it. |
| ThreadStop.InterruptedMeansNeverRan | lib/luathread.c:89-113 | The interrupted return value appears only for a body that never ran, which is when the stopper drops the worker's references for it. |
| ThreadStop.BodyRunsIff | lib/luathread.c:42-62 | A thread that is scheduled runs its body if and only if no stop was asked for by then; otherwise it exits at once with the interrupted code. |
| ThreadStop.ExitsWithItsReturn | lib/luathread.c:42-62 | What the body returned is what the thread exits with and what every stop that waited is told. |
| ThreadStop.ExitHadReturn | lib/luathread.c:42-62 | A thread that exits with any other code than the interrupted one had a body that returned it. |
| ThreadStop.RunsAreBounded | lib/luathread.c:42-62 | A run with n stop calls takes at most 11n + 7 steps besides rounds of the polling loop. |
| ThreadStop.NeverStuck | lib/luathread.c:42-113 | No deadlock: until all is over, someone can take a real step now or after one look at the stop flag. |
| ThreadStop.CanFinish | lib/luathread.c:42-113 | From every reachable state with n stop calls the protocol can be brought to its end, worker exited and calls over, in at most 22n + 14 more steps, looks at the stop flag included. |
| RcuTable.Index | lib/luarcu.c:54-55 | Masking a hash with size - 1 is reduction modulo the size, hence always a bucket index. |
| RcuTable.MatchMeans | lib/luarcu.c:67-76 | For keys without NUL bytes, a node matches a lookup exactly when its key starts with the looked-up key. |
| RcuTable.Find | lib/luarcu.c:67-76 | A lookup gives the first node in its bucket whose key starts with the given bytes, or none. |
| RcuTable.Table.LookupNode | lib/luarcu.c:67-76 | The list walk finds exactly that node. |
| RcuTable.Table.GetValue | lib/luarcu.c:102-117 | Returns the value of that node, with exactly one reference taken for the caller if it is an object and none otherwise. |
| RcuTable.Table.SetValue | lib/luarcu.c:120-152 | Fails exactly when the key is too long or memory is short, and then changes nothing; otherwise inserts, replaces or deletes one node in one bucket, one more reference held to the new object and one less to the old; the references held to any object are as many as nodes have it. |
| RcuTable.HeldIsUsesInAll | lib/luarcu.c:78-98 | The references a table holds to an object, added up node by node, are as many as its nodes with that object. |
| RcuTable.SetUses | lib/luarcu.c:120-152 | Setting a key changes the number of nodes with an object by one more if it is the new value and one less if it was the old. |
| RcuMap.CollidesMeans | lib/luarcu.c:67-76 | Two keys collide exactly when they share a bucket and one is a proper prefix of the other, storable key. |
| RcuMap.StepKeepsRep | lib/luarcu.c:102-152 | For keys that do not collide, each get and set on the table answers and acts as on the map it represents, with one node per key in its own bucket. |
| RcuMap.SeparateAnswers | lib/luarcu.c:102-152 | So does every sequence of them. |
| RcuMap.CollisionShows | lib/luarcu.c:67-76 | Two colliding keys: storing under one makes a get of the other return the stored value, where a map has none. |
| RcuMap.MapIffSeparate | lib/luarcu.c:67-152 | Every sequence of sets, gets and deletions over a set of keys is answered as by a finite map if and only if no two of the keys collide. |
| RcuReachable.ReachableIsSound | lib/luarcu.c:78-152 | The nodes of every table that operations reach, whatever their keys, have distinct addresses, across all its buckets. |
| RcuReachable.ReachableIsIterable | lib/luarcu.c:78-152 | Every table reached by any operations over NUL-free keys that do not collide has, for each key, one node, in its bucket, found by its key. |
| RcuIteration.MapBucket | lib/luarcu.c:59-63 | The walk by saved next nodes makes exactly the specified visits, whatever keys the callbacks set, up to the end of the bucket, a callback that raises, or a next node that is gone. |
| RcuIteration.MapEntries | lib/luarcu.c:246-273 | Bucket after bucket, so does the whole iteration, with exactly the specified table after it, also when a callback raises. |
| RcuVisits.EachEntryOnce | lib/luarcu.c:246-273 | Whatever the callbacks insert, replace or delete: no node is visited twice, in one bucket or in two; a visited node was there from the start or is new; and if the iteration finishes, every entry that is in the table from the start to the end was visited. |
| RcuKeyVisits.EachKeyOnce | lib/luarcu.c:246-273 | Over NUL-free keys that do not collide, no key is visited twice, whatever of them the callbacks insert, replace or delete. |
| RcuVisits.DanglingIff | lib/luarcu.c:59-63 | The visits of a bucket come to a next node that is gone if and only if some callback deletes or replaces the node after the one it was given. |
| RcuVisits.BreaksIff | lib/luarcu.c:246-273 | So does the whole iteration. |
| RcuVisits.DeletesTheNext | lib/luarcu.c:59-63 | A callback that deletes the entry after its own: the iteration is left with the address of a node that is gone. |
| RcuVisits.QuietTable | lib/luarcu.c:246-273 | Callbacks that set nothing see every entry of every bucket, in order. |
| RcuOwnKey.OwnBucket | lib/luarcu.c:246-273 | Callbacks that set at most the key they are given: a bucket's entries are visited in order up to the first callback that raises, each visited entry, the raising one included, is deleted, replaced or kept as its callback says, and the others stay. |
| RcuOwnKey.EveryEntryInOrder | lib/luarcu.c:246-273 | So is the whole table, the buckets after the one with the raising callback untouched; the next node is never gone, and the table can be iterated again. |
| RcuIteration.Release | lib/luarcu.c:194-204 | Release empties every bucket and puts each object exactly as often as nodes held it. |
| StructLayout.BuildFormat | lib/struct.lua:28-39 | The loop derives, for fields in offset order, one integer per field with padding before gaps and at the end. |
| StructLayout.ExcessIsOverlap | lib/struct.lua:75-80 | The derived format is longer than the struct by exactly the total overlap of the fields. |
| StructLayout.ConstructsIffWellLaid | lib/struct.lua:75-80 | For any order that sorting may leave equal offsets in, the constructor accepts exactly the layouts whose fields are 1 to 16 bytes wide, do not overlap and fit the struct. |
| StructLayout.StructFacts | autogen.lua:250-271 | The generator's own check accepts exactly the layouts whose fields do not overlap and fit the struct, of any width. |
| StructLayout.VerdictsAgreeIff | autogen.lua:250-271 | The generator and the constructor give the same verdict if and only if the layout is one the generator refuses or has no field wider than 16 bytes. |
| StructCodec.DecodeEncode | lib/struct.lua:46-58 | Unpacking undoes packing of every in-range integer, signed or not, of every width, in both byte orders. |
| StructCodec.EncodedByte | lib/struct.lua:46-58 | Each byte of a packed integer is the digit of its weight of the two's complement, the least first in little-endian order and last in big-endian order. |
| StructCodec.UnpackPack | lib/struct.lua:46-58 | Unpacking what a format packed gives the values back, whatever bytes follow. |
| StructCodec.StructRoundTrip | lib/struct.lua:28-80 | For an accepted layout the packed struct has its declared size, each field is exactly at its declared bytes, all other bytes are zero, and unpacking gives the values back. |
| NetlinkMessage.Align | lib/netlink/message.lua:30-32 | The masked sum is the next multiple of four. |
| NetlinkMessage.Records | lib/netlink/message.lua:49-61 | On arbitrary bytes the iterator terminates, reads in bounds and yields the records up to the first truncated or malformed one. |
| NetlinkMessage.RecordsShift | lib/netlink/message.lua:49-61 | What it yields from a position depends only on the bytes from there on. |
| NetlinkMessage.TruncationParsesPrefix | lib/netlink/message.lua:49-74 | Parsing any truncation of a buffer gives a prefix of the full parse, for messages and for attributes. |
| NetlinkMessage.RecordsFitTheBuffer | lib/netlink/message.lua:49-61 | The records found do not overlap: with their padding they fit the buffer. |
| NetlinkCodec.HeaderFormats | lib/netlink/message.lua:20-23 | The codec constructor accepts the message and attribute headers and derives these formats. |
| NetlinkCodec.HeaderIsUnpacked | lib/netlink/message.lua:55 | Reading a message header in bounds never raises and reads length, type and flags at their offsets. |
| NetlinkCodec.AttributeIsUnpacked | lib/netlink/message.lua:55 | Likewise for an attribute header. |
| NetlinkCodec.EncodesIff | lib/netlink/message.lua:41-43 | Building a message raises exactly when its length, type, flags or sequence number is out of its field's range. |
| NetlinkCodec.ReadsBack | lib/netlink/message.lua:41-74 | A built message parses as the record it was built from, whatever follows it. |
| NetlinkCodec.SequenceOnWire | lib/netlink/message.lua:41-43 | A built message holds its sequence number at bytes 8 to 11. |
| NetlinkCodec.ConcatParsesIffAligned | lib/netlink/message.lua:41-74 | Messages built one after the other parse back to exactly themselves if and only if every one but the last has a payload of whole 4-byte words. |
| NetlinkAttributes.EncodesOneIff | lib/netlink/message.lua:76-86 | Building an attribute raises exactly when its type, its number or its length is out of range. |
| NetlinkAttributes.PayloadReadsBack | lib/netlink/message.lua:76-85 | A number is carried in four bytes from which it is read back, a string as it is. |
| NetlinkAttributes.OneReadsBack | lib/netlink/message.lua:76-94 | A built attribute reads back as its type and its value's bytes, and the next one starts right after its padding. |
| NetlinkAttributes.ParseAttrs | lib/netlink/message.lua:88-94 | On any bytes the table holds, for each type, the last record of that type. |
| NetlinkAttributes.AttrsRoundTrip | lib/netlink/message.lua:76-94 | Whatever order the table is traversed in and whatever header precedes the attributes, parsing gives the table back, numbers as their u32 bytes. |
| NetlinkAttributes.EncodeAttrs | lib/netlink/message.lua:76-86 | Encoding raises exactly when some attribute is out of range, and otherwise its bytes parse back to the table. |
| NetlinkSession.ErrorFormat | lib/netlink/session.lua:28-29 | The codec constructor accepts the error layout, whose one field is a signed 32-bit code. |
| NetlinkSession.ErrorCode | lib/netlink/session.lua:62-63 | Reading the code of a long enough error message never raises and gives a signed 32-bit number. |
| NetlinkSession.Checked | lib/netlink/session.lua:58-70 | The loop raises with the first error code and only when there is one. |
| NetlinkSession.FirstErrorMeans | lib/netlink/session.lua:58-70 | There is an error if and only if a message is of type 2, has at least 20 bytes and a code other than zero; it is the code of the first such message. |
| NetlinkSession.OversizedLosesTail | lib/netlink/session.lua:34-36 | A datagram larger than the buffer of 65536 bytes loses messages at its end and nothing else; any other loses nothing. |
| NetlinkSession.DrainMeans | lib/netlink/session.lua:74-86 | A drain stops exactly after the first datagram that is empty or holds an ending message, and has the messages of the datagrams up to there. |
| NetlinkSession.DrainComplete | lib/netlink/session.lua:74-86 | A complete reply is drained to its end, and nothing of what follows it. |
| NetlinkTalk.Session.Request | lib/netlink/session.lua:109-112 | Uses up one sequence number even when the message cannot be built; otherwise the bytes sent carry the type, flags, payload and that number, and the kernel's answer joins the queue. |
| NetlinkTalk.Session.Receive | lib/netlink/session.lua:74-86 | The receive loop computes exactly that drain of the queue. |
| NetlinkTalk.Session.Transact | lib/netlink/session.lua:89-92 | A call is a request, a drain and a check, with exactly that outcome and queue. |
| NetlinkTalk.CallInSyncIff | lib/netlink/session.lua:115-134 | From an empty queue a talk or dump ends with an empty queue if and only if the last datagram of its answer, and no other, closes the reply; then, even when it raises, it yields exactly its own answer or error. |
| NetlinkTalk.StaleReply | lib/netlink/session.lua:74-86 | Out of sync, a call is answered by what an earlier one left behind, and its own answer plays no part. |
| NetlinkTalk.StaleRun | lib/netlink/session.lua:109-134 | Two calls from a new session: an answer with one datagram too many, an error, makes the second call raise that error although its own request was acknowledged. |
| NetlinkTalk.RunInSyncIff | lib/netlink/session.lua:109-134 | A whole run of talk and dump calls stays in sync if and only if every request sent is answered by a complete reply; then every call yields exactly its own reply or error. |
| NetlinkTalk.ReplyDelivered | lib/netlink/session.lua:60-134 | Down to the bytes: a reply of built, padded messages that fit the buffer and end in the last datagram is returned exactly, or its first error code is raised, and nothing is left behind. |
| NetlinkTalk.BuiltReplyIff | lib/netlink/session.lua:50-87 | Down to types and flags on the wire: answered by datagrams the kernel built, a dump leaves nothing behind if and only if its last datagram and no other has a message of type 3 or without the multipart flag, a talk if and only if its last and no other has one of type 2; it then yields exactly the messages built or the first error. |
| NetlinkTalk.DumpReturnsAll | lib/netlink/session.lua:120-122 | A dump of multipart messages without errors, ended in its last datagram, or of one message that is not multipart, returns every message built and leaves nothing behind. |
| NetlinkTalk.AskedMeans | lib/netlink/session.lua:109-134 | A dump is sent with flags 0x301; a talk with the request and acknowledgment bits and those its caller gave, and no others. |
| StringSet.KeyCmpEqual | lib/luaset.c:48-53 | The comparison is zero exactly for equal keys. |
| StringSet.KeyCmpSwap | lib/luaset.c:48-53 | Swapping the keys swaps less and greater. |
| StringSet.KeyCmpTrans | lib/luaset.c:48-53 | The comparison is transitive, strictly if either step is. |
| StringSet.KeyCmpMeans | lib/luaset.c:48-53 | A key is less than another exactly when at their first difference it ends or has the smaller byte. |
| StringSet.MemberAt | lib/luaset.c:60-63 | The bytes of the blob between two consecutive offsets are exactly that member. |
| StringSet.Set.Member | lib/luaset.c:60-63 | The bytes the search compares with are the member's. |
| StringSet.Set.Find | lib/luaset.c:55-73 | The search gives an index of the key if it is a member and -1 otherwise, in at most floor(log2 n) + 1 comparisons. |
| StringSet.Set.Has | lib/luaset.c:106-114 | True exactly when the query, its length cut to 32 bits, is a member. |
| StringSet.QueryCuts | lib/luaset.c:106-114 | What is searched for is as much of the query as its length modulo 2^32 tells. |
| StringSet.LevelsMean | lib/luaset.c:207-222 | The walk tries exactly the name and what follows each of its separators. |
| StringSet.Set.Walk | lib/luaset.c:207-222 | The loop computes the union of the labels of those levels. |
| StringSet.MatchIsUnion | lib/luaset.c:207-246 | For names below 4 GiB, a bit is in the result exactly when it is in the label of a member that is the name or what follows one of its separators. |
| StringSet.MatchZeroIff | lib/luaset.c:225-237 | The result is zero exactly when no level is a member. |
| StringSet.MatchFront | lib/luaset.c:207-222 | A dot-free part in front adds exactly the whole name's own label to the match of the rest. |
| StringSet.MatchGrows | lib/luaset.c:207-222 | Anything in front, separated by a dot, keeps every bit that the rest matches. |
| StringSetBuild.Measure | lib/luaset.c:125-139 | The offsets are the running sums of the lengths, none truncated to 32 bits; fails exactly when the members exceed 4 GiB. |
| StringSetBuild.PackBlob | lib/luaset.c:141-154 | The blob is the sorted members, one after the other. |
| StringSetBuild.New | lib/luaset.c:192-205 | Raises exactly when the strings exceed 4 GiB; otherwise the set has exactly the strings given, each as often as given. |
| StringSetBuild.Count | lib/luaset.c:262-280 | Raises exactly on a label outside [1, 2^32) or members over 4 GiB, and otherwise totals the lengths. |
| StringSetBuild.Store | lib/luaset.c:297-309 | Offsets, bytes and labels are those of the sorted members. |
| StringSetBuild.NewLabeled | lib/luaset.c:324-356 | Raises under exactly those conditions; otherwise the set holds exactly the table, each member with its label. |
| Mailbox.Fifo.Push | lib/luafifo.c:33-42 | All or nothing: raises exactly when there is no room for all the bytes. |
| Mailbox.Fifo.Pop | lib/luafifo.c:59-70 | Takes at most the given number of bytes from the front and leaves the rest. |
| Mailbox.Completion.Complete | lib/luacompletion.c:44-50 | Adds one signal, up to the saturation of the counter. |
| Mailbox.Completion.Wait | lib/luacompletion.c:77-104 | Consumes one signal if there is one. |
| Mailbox.MailBox.Send | lib/mailbox.lua:120-123 | A send is a push step and, unless that raises, a complete step. |
| Mailbox.MailBox.Receive | lib/mailbox.lua:98-112 | A receive is a wait step and, unless that fails, the pops, with exactly their result. |
| Mailbox.StepKeepsInv | lib/mailbox.lua:98-123 | Every step of any producer or of the consumer keeps the queue equal to the unread part plus the frames of the queued messages, and signals equal to messages announced. |
| Mailbox.PushSendsIff | lib/mailbox.lua:120-123 | A message is sent if and only if its frame, 8 bytes longer, fits what is free of the queue. |
| Mailbox.RunKeepsInv | lib/mailbox.lua:98-123 | So does every interleaving from an empty mailbox. |
| Mailbox.EveryRun | lib/mailbox.lua:98-123 | Over every run with full queues and failed waits: received is a prefix of sent; sent is received plus the one in progress plus the queued, byte for byte; no receive whose wait succeeded sees an empty or short header; the counter never saturates. |
| Mailbox.NoLostWakeup | lib/mailbox.lua:98-123 | With no send and no receive under way, the counter is the number of queued messages. |
| Mailbox.DrainDelivers | lib/mailbox.lua:98-112 | Then receiving until the counter is zero delivers every message sent, in order, and empties the queue. |
| RunnerNames.TrimShortens | lib/lunatik/runner.lua:28-30 | Trimming never lengthens a name and keeps its length only when it leaves the name alone. |
| RunnerNames.TrimChangesIff | lib/lunatik/runner.lua:28-30 | Trimming changes a name if and only if somewhere in it a digit or an ASCII letter and one more byte precede "lua". |
| RunnerNames.TrimFile | lib/lunatik/runner.lua:28-30 | "name.lua", directories included, where the name does not contain "lua": it is trimmed to the name if that ends in a digit or a letter, and left alone otherwise. |
| RunnerNames.KeyText | lib/lunatik/runner.lua:32-34 | A key is the name, a colon and the number of the CPU in decimal. |
| RunnerNames.KeyInjective | lib/lunatik/runner.lua:32-34 | Different scripts or CPUs never share a key, even when names hold colons. |
| RunnerNames.CpuKeyPrefix | lib/lunatik/runner.lua:32-34 | The key of one CPU of a script begins the key of another exactly when its decimal number begins the other's. |
| RunnerNames.OtherScriptsApart | lib/lunatik/runner.lua:32-34 | Keys of different scripts without colons in their names never begin one another. |
| RunnerNames.JoinedUnique | lib/lunatik/runner.lua:128-140 | Different non-empty lists of names without commas never give the same text. |
| RunnerNames.NameOfKey | lib/lunatik/runner.lua:52-54 | A per-CPU script is named by its key for CPU 0 and by no other key. |
| Runner.RollbackIsExact | lib/lunatik/runner.lua:56-71 | On finite maps: a per-CPU run that fails to create a runtime at any CPU leaves all tables exactly as they were and every runtime it had created stopped. |
| Runner.RunKeepsInvIff | lib/lunatik/runner.lua:83-94 | On finite maps: running a script keeps all-or-nothing per CPU, one registry per script and every runtime accounted for, if and only if no table write fails for a CPU after the first; it refuses exactly a running script. |
| Runner.RunMeans | lib/lunatik/runner.lua:83-94 | On finite maps: a run is done if and only if the script was not running and nothing fails; then exactly the scripts that were running and this one are, this one on every CPU or in one runtime as was asked. |
| Runner.StopMeans | lib/lunatik/runner.lua:117-122 | On finite maps: stopping removes the trimmed name from all tables and nothing else, stopping its runtimes. |
| RunnerRuns.LookupIff | lib/luaxdp.c:110-137 | On finite maps: the hook finds a runtime for a script and CPU exactly when the script is running, and it is a live one of that script, that CPU's own if it runs per CPU. |
| RunnerRuns.ShutdownEmptiesIff | lib/lunatik/runner.lua:146-160 | On finite maps: shutting down stops everything if and only if trimming leaves every running name alone and no script with an empty name runs per CPU. |
| RunnerRuns.ShutdownClears | lib/lunatik/runner.lua:146-160 | On finite maps: then all three tables are empty, threads included. |
| RunnerRuns.ShutdownMisses | lib/lunatik/runner.lua:146-160 | A name that shutting down misses, because stop trims the trimmed name once more. |
| RunnerRuns.SpawnThreadsIff | lib/lunatik/runner.lua:103-112 | On finite maps: a spawn keeps every thread under the name of a runtime if and only if its name needs no trimming or is a running name already. |
| RunnerRuns.SpawnedUntrimmed | lib/lunatik/runner.lua:103-122 | Spawning "a.lua" registers its thread under a name no runtime has, and stopping it leaves the thread registered. |
| RunnerRuns.EveryRun | lib/lunatik/runner.lua:56-160 | On finite maps: after every operation of every run: all CPU instances or none, never both registries, every runtime ever created registered once, stopped or dropped, and threads within runtimes when spawned names need no trimming. |
| RunnerTables.RunActs | lib/lunatik/runner.lua:56-94 | On rcu tables over keys that do not collide, a run has the effect and the outcome it has on finite maps, keys too long for a table being writes that fail. |
| RunnerTables.SpawnActs | lib/lunatik/runner.lua:103-112 | So has a spawn. |
| RunnerTables.StopActs | lib/lunatik/runner.lua:43-71 | So has a stop, which stops the object that one lookup finds and removes the entry that another finds. |
| RunnerTableRuns.RunGoodIff | lib/lunatik/runner.lua:56-94 | On the tables: running a script keeps all-or-nothing per CPU, one registry per script and every runtime accounted for, if and only if no table write fails, for want of memory or a key too long, for a CPU after the first; it refuses exactly a running script. |
| RunnerTableRuns.RunMeans | lib/lunatik/runner.lua:83-94 | On the tables: a run is done if and only if the script was not running, no runtime fails to be created and every key fits; then exactly the scripts that were running and this one are. |
| RunnerTableRuns.FileIsScript | lib/lunatik/runner.lua:28-122 | Running "name.lua" for such a name makes exactly that name running, is refused exactly if it is running, and stopping "name.lua" is stopping the name. |
| RunnerTableRuns.RollbackIsExact | lib/lunatik/runner.lua:56-71 | On the tables: a per-CPU run that fails to create a runtime at any CPU leaves every lookup as it was and every runtime it had created stopped. |
| RunnerTableRuns.StopMeans | lib/lunatik/runner.lua:117-122 | On the tables: stopping makes exactly the trimmed name, and its key for each CPU, not to be found any more, and changes no other lookup. |
| RunnerTableRuns.SpawnThreadsIff | lib/lunatik/runner.lua:103-112 | On the tables: a spawn keeps every thread under the name of a running script if and only if its name needs no trimming or is a running name already. |
| RunnerTableRuns.NamesList | lib/lunatik/runner.lua:128-140 | The names gathered in the order of the two tables are those of all running scripts, each once, save a script that runs per CPU under an empty name. |
| RunnerTableRuns.ShutdownStopsIff | lib/lunatik/runner.lua:146-160 | On the tables: shutting down stops everything if and only if trimming leaves every running name alone and no script with an empty name runs per CPU. |
| RunnerTableRuns.ShutdownLeavesNothing | lib/lunatik/runner.lua:146-160 | Then no entry is left in any bucket of the three tables. |
| RunnerTableRuns.DispatchIff | lib/luaxdp.c:110-137 | On the tables: the hook finds a runtime exactly when the script is running, and it is that script's, that CPU's own if it runs per CPU; for a key that fits the hook's buffer. |
| RunnerTableRuns.CutDispatchIff | lib/luaxdp.c:122-127 | For a longer key: the script does not run per CPU, and the hook finds a runtime if and only if what is left of the key is the key of another script that does, whose runtime it then is. |
| RunnerTableRuns.EveryRun | lib/lunatik/runner.lua:56-160 | After every operation of every run over names whose keys do not collide, the tables act as finite maps: all CPU instances or none, never both registries, every runtime ever created found under one key, stopped or dropped, and threads within runtimes when spawned names need no trimming. |
| RunnerCollisions.SeparateIff | lib/lunatik/runner.lua:32-34 | The keys of a script do not collide if and only if no CPU's key shares a bucket with a storable key that extends it. |
| RunnerCollisions.SeparateForEveryHashIff | lib/luarcu.c:54-76 | For a table of any size that is so whatever the hash if and only if there are at most ten CPUs or the key of CPU 10 is too long to be stored. |
| RunnerCollisions.OwnRuntimesIff | lib/lunatik/runner.lua:56-65 | After a per-CPU run on empty tables every CPU's lookup finds its own runtime if and only if the script's keys do not collide. |
| RunnerCollisions.StopEmptiesIff | lib/lunatik/runner.lua:43-71 | Stopping it then empties the table if and only if they do not collide. |
| RunnerCollisions.Survivor | lib/lunatik/runner.lua:43-71 | Otherwise the first CPU whose key is extended by another in its bucket stays registered, and its runtime is not stopped. |
| RunnerCollisions.ElevenCpus | lib/luaxdp.c:122-127 | Eleven CPUs with the keys of CPUs 1 and 10 in one bucket: packets on CPU 1 are given CPU 10's runtime, and a stop leaves CPU 1's registered and running. |
| RunnerCollisions.ScriptsApartIff | lib/lunatik/runner.lua:32-34 | The per-CPU keys of scripts without colons in their names do not collide if and only if those of each script do not. |
| RunnerCollisions.PrefixScript | lib/lunatik/runner.lua:83-94 | A script whose name begins the name of a running one in its bucket is refused as already running, and the hook gives its packets to the other's runtime. |
| RunnerRegistry.Read | lib/luarcu.c:102-117 | Indexing a registry is the lookup of the table. |
| RunnerRegistry.Write | lib/luarcu.c:120-152 | Assigning to a registry is the set of the table, and says whether it was stored. |
| RunnerRegistry.Registry.StopPercpu | lib/lunatik/runner.lua:43-48 | Stops what the lookup finds and removes what the removal finds. |
| RunnerRegistry.Registry.PercpuRun | lib/lunatik/runner.lua:56-65 | The loop over CPUs on the tables, with its rollback, has exactly that effect, whatever the keys. |
| RunnerRegistry.Registry.PercpuStop | lib/lunatik/runner.lua:67-71 | Stops the key of every CPU in turn, on the tables. |
| RunnerRegistry.Registry.Run | lib/lunatik/runner.lua:83-94 | Updates the tables exactly as the run stated above, whatever the keys. |
| RunnerRegistry.Registry.Spawn | lib/lunatik/runner.lua:103-112 | Runs, then registers the thread under the name as given. |
| RunnerRegistry.Registry.Stop | lib/lunatik/runner.lua:117-122 | Stops the thread, the runtime and the per-CPU runtimes of the trimmed name. |
| RunnerRegistry.Registry.List | lib/lunatik/runner.lua:128-140 | Changes nothing and tells, joined by commas, the names of the entries that the two iterations visit, in order, per-CPU scripts by their key for CPU 0. |
| RunnerRegistry.Registry.Shutdown | lib/lunatik/runner.lua:146-160 | Lists the scripts first, then stops each name. |
| RunnerRegistry.Registry.Lookup | lib/luaxdp.c:122-127 | A script's own runtime first, then what a lookup of the key printed for this CPU finds. |
| StdioFile.File.Fill | include/stdio.h:85-99 | A refill skips nothing, and fails only at the end of the file or on an error, with the flags telling which. |
| StdioFile.File.Getc | include/stdio.h:101-110 | The byte at the cursor, which moves on by one; end of file only at the end or when a kernel read of this very call fails, and then the cursor stays. |
| StdioFile.File.Ungetc | include/stdio.h:112-119 | Any byte may be pushed back, but the cursor moves back by one over the same content if and only if it is the byte just read and nothing was pushed back before. |
| StdioFile.File.Fread | include/stdio.h:121-145 | The bytes from the cursor on, as many as asked for unless the file ends or a kernel read of this very call fails, and the cursor moves by exactly those. |
| StdioFile.File.Seek | include/stdio.h:162-176 | An absolute seek sets the cursor and forgets buffer and pushback; a refused one changes only the error flag. |
| StdioFile.File.Ftell | include/stdio.h:29 | The told position is the cursor if and only if the buffer is drained and nothing is pushed back. |
| StdioFile.Exec | include/stdio.h:85-176 | Any program of reads, pushbacks and absolute seeks, over any pattern of short and failing kernel reads, sees exactly what a plain cursor over the content shows: an operation comes short only at the end of the file or when one of its own kernel reads fails, and no more operations do than kernel reads fail. |
| StdioFile.ReadsAreContiguous | include/stdio.h:101-145 | Reads in a row, of any sizes, deliver one contiguous piece of the file: nothing lost, nothing repeated. |
| Hkdf.BlockCountMeans | lib/crypto/hkdf.lua:74-75 | The computed number of blocks is the least that holds the length, and is at most 255 exactly when the length is at most 255 digests. |
| Hkdf.Expand | lib/crypto/hkdf.lua:71-83 | For any keyed hash, the first length bytes of the blocks T(1), T(2), ... in a row, and an error exactly beyond 255 digests. |
| Hkdf.OkmMeans | lib/crypto/hkdf.lua:71-83 | Any sufficient number of blocks gives the same output, and shorter outputs are prefixes of longer ones. |
| Hkdf.Derive | lib/crypto/hkdf.lua:92-94 | Extract, with a digest's length of zeros when there is no salt, then expand. |
| SniFilter.Filter | examples/filter/sni.lua:51-76 | On any packet the loop looks at no more than 17 extensions and raises on the first read out of bounds, as the recursive walk does; what is no handshake record or no ClientHello passes. |
| SniFilter.ExtractsServerName | examples/filter/sni.lua:51-76 | For every ClientHello laid out as the standards say, anywhere in the packet with a non-empty server name among its first 17 extensions, exactly that name is extracted and the packet is dropped if and only if it is blacklisted. |
| SniFilter.UnnamedGoesOn | examples/filter/sni.lua:60-75 | Without a server name among the extensions: with 17 or more the packet passes; with fewer the walk goes on, for the rest of its 17, into whatever follows the message. |
| SniFilter.MessageDecidesIff | examples/filter/sni.lua:51-76 | The outcome depends on the message alone, wherever it is and whatever surrounds it, if and only if a server name among the first 17 extensions lies within the message, or the first 17 extensions are no server names. |
| SniFilter.UncontainedDiffers | examples/filter/sni.lua:60-73 | Otherwise the message alone raises, and followed by some bytes it does not. |
| SniFilter.DroppedForTrailer | examples/filter/sni.lua:60-73 | A packet whose ClientHello names no server is dropped for a blacklisted name that follows the message. |

## Left out

- ThreadStop.RunKeepsInv: creating the kernel thread and setting its `task` field are one step that succeeds, and a script asked to stop is taken to return.
- ObjectCalls.Core.CopyObjects: only the arguments passed in by a resume are modelled, not the values it returns.
- ObjectLifetime.ReleasedExactlyOnce: Lua finalizers that run during the closing of a Lua state are the dropping of its handles; code they might run is not modelled.
- RuntimeGate.ReadyMeansRun: what a read of a cleared or closed Lua state yields is arbitrary, and a crash it may cause is not modelled.
- RuntimeGate.NullCallIff: what a handler does with a null pointer is not modelled, nor is a compiler that merges two reads of `private` into one.
- ObjectLifetime.IrqRuntimeSeesSpinlocks: objects that a handle refers to; `ObjectContexts.CleanIff` covers those behind tables.
- ObjectLifetime.NothingLeaksIffAcyclic: objects that were made; `ObjectLifetime.NothingLeaksIff` covers the memory of refused ones.
- RcuIteration.MapEntries: after a next node that is gone nothing is said about what the code does.
- RcuOwnKey.EveryEntryInOrder: callbacks that set their own key more than once are covered by `RcuVisits.EachEntryOnce` only.
- Runner.RollbackIsExact: the registries are finite maps; `RunnerTableRuns.RollbackIsExact` is the same on the tables.
- Runner.RunKeepsInvIff: the registries are finite maps; `RunnerTableRuns.RunGoodIff` is the same on the tables.
- Runner.RunMeans: the registries are finite maps; `RunnerTableRuns.RunMeans` is the same on the tables.
- Runner.StopMeans: the registries are finite maps; `RunnerTableRuns.StopMeans` is the same on the tables.
- RunnerRuns.LookupIff: the registries are finite maps; `RunnerTableRuns.DispatchIff` is the same on the tables.
- RunnerRuns.ShutdownEmptiesIff: the registries are finite maps; `RunnerTableRuns.ShutdownStopsIff` is the same on the tables.
- RunnerRuns.ShutdownClears: the registries are finite maps; `RunnerTableRuns.ShutdownLeavesNothing` is the same on the tables.
- RunnerRuns.SpawnThreadsIff: the registries are finite maps; `RunnerTableRuns.SpawnThreadsIff` is the same on the tables.
- RunnerRuns.EveryRun: the registries are finite maps; `RunnerTableRuns.EveryRun` is the same on the tables.
- RunnerTableRuns.EveryRun: names hold no NUL bytes, and the keys of names in use do not collide; `RunnerCollisions` says when they do.
- RunnerTableRuns.DispatchIff: for a script that runs per CPU, names whose key for the CPU fits the hook's buffer; `RunnerTableRuns.CutDispatchIff` covers the others.
- RunnerCollisions.OwnRuntimesIff: the tables are empty before the run and all the script's keys fit.
- RunnerNames.TrimShortens: letters and digits are the ASCII ones.
- RunnerRegistry.Registry.List: omits a per-CPU script with an empty name, as the code does.
- Mailbox.EveryRun: one consumer, because header and body are popped in two steps.
- StdioFile.Exec: relative seeks, append mode and writes are not modelled, nor are writers of the same file.
- StringSetBuild.New: members are byte strings, so the error for other values is not modelled; Lua's string order is taken to be the byte order that the search uses.
- RCU grace periods, memory ordering and the variants of spinlocks beyond "mutex or spinlock".
- The Lua virtual machine, `table.sort`, the kernel's `sort`, `string.pack` with alignment and the size limit of `string.packsize`.
- Notifier, netfilter, kprobe and HID bindings, sockets, devices, crypto transforms, signals and CPUs: thin wrappers of kernel facilities.
- `linux.random`, `lunatik_alloc`, `data` accessors and resizing, hex and address conversions, `class.lua` and the bpf map proxy: they would only add easy members.
- The caching of the two tables by the XDP hook, and what its handler does with a packet.
