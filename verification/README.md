# Verified model of the LuaTT cores

This project models the stateful cores under the game-engine glue of LuaTT and proves what they are for.
Where the C or C++ code updates objects in place, the model is a class whose methods run the same steps;
each method is tied to a function on plain values, and the laws are lemmas about those functions.

* **Lua stack** (`LuaState.dfy`): a state with an array of slots and the shift loops of `lua_insert`,
  `lua_remove`, `lua_settop`, `lua_xmove` and `lua_concat`, against deletion, rotation, resizing and joining of a
  sequence. A heap of tables stands for what the API functions reach through table values.
* **String buffer** (`Buffer.dfy`): `luaL_Buffer` as pieces on that stack followed by a character array. A pure
  machine (`BufferSpec`) says what each operation does to pieces and characters; the class runs the C steps on
  the stack, including the merge loop of `adjuststack`, and refines it.
* **Substitution** (`Gsub.dfy`) and **dotted tables** (`FindTable.dfy`), clients of the stack and the buffer.
* **References** (`RefTable.dfy`): `luaL_ref`/`luaL_unref` with the free list threaded through the value table and
  the length taken from `luaH_getn`'s two searches, against a finite map from live references to values.
* **SQLite binding** (`SqliteEngine.dfy`, `SqliteObjects.dfy`, `SqliteStatements.dfy`, `SqliteReferences.dfy`,
  `Sqlite.dfy`, `SqlitePrograms.dfy`): ownership of prepared statements and of registry references. SQLite is an
  engine whose answers are chosen freely and kept in a log; `SqliteAnswers.dfy` says which call follows which answer
  and what comes of it. The registry is the verified reference table. `Sqlite.Lsqlite` has the
  Lua-visible operations, each of which keeps one invariant of both kinds of ownership together and says what becomes
  of the statements; `SqlitePrograms.RunProgram` runs every sequence of them.
* **Lua threads** (`Messages.dfy`, `Channels.dfy`, `Threads.dfy`, `LockCheck.dfy`): the message serializer, the
  channels as a monitor stepped over all interleavings with spurious wakeups, the thread table, and the lock
  handshake with the game thread.
* **Module list** (`ModuleList.dfy`), **traceback** (`Traceback.dfy`), **dialogue script** (`Dialogue.dfy`, and
  `Sentences.dfy`, which says what every event does by sentence, flag and timer) and **weighted choice**
  (`WeightedChoice.dfy`).

Some expected properties do not hold of the code; the model keeps the code and gives the exact condition:

* `luaL_unref` keeps the table usable exactly for negative, live, or next-past-the-end references (`UnrefIsSafeIff`).
* lua_insert(i), lua_pushvalue(i), lua_remove(i) is the identity for positive i; for a negative i only if the slot
  already held the top value (`InsertPushRemoveIff`).
* Piece lengths stay ordered under `luaL_addvalue`'s two-piece push only under a stated condition
  (`StaysDescendingIff`, and an input for every array size in `OrderCanBeLost`).
* Three schema changes in a row use up the tries of a step: the rows of a lasting statement then end without an error,
  though SQLite was never done (`ThreeChangesEndTheRows`; exactly when rows end is `FetchedIff`).
* A message survives conversion exactly when, after normalisation, no key is a NaN and no two entries collide
  (`RoundTripIff`). The key "nan" can be sent and raises an error on the way back (`NanKeyRaises`); such a message
  blocks its channel for ever (`BadHeadBlocks`), and behind good messages it makes a get-all lose them
  (`ReceivedIsRemovedIff`). Of the keys 1 and "1" one is lost (`CollisionLosesAnEntry`).
* A failed thread keeps its entry and error exactly if its error object is a string or a number
  (`FailureIsKeptIff`); after `error(nil)` it counts as successful (`SilentFailure`).
* Thread ids are unique up to 2^32 threads and increase below 2^31 (`IdsAreUniqueIff`, `IdsIncreaseIff`).
* The game thread excludes workers exactly while it holds the mutex inside `Lock_Check` (`GameExcludesIff`); the
  ordinary race past it is `GameOvertakesTheWorker`.
* The acting flag can stay set for ever: one kill every two seconds does it (`ActingCanStick`). It is set throughout
  exactly if every timer 2 finds a kill noted and answered and every kill cries (`ActingThroughoutIff`).
* A run keeps the rule of one sentence at a time, each ended by its own timer 2, exactly if no kill interrupts one
  (`OneAtATimeIff`). An interrupting kill always breaks that rule, because the old timer stays; the sentences
  themselves come less than two seconds apart only if the owner does cry before the old one is over
  (`FirstInterruption`, `KillOverlapsIff`, `DeathCryInterrupts`).
* `Lua_Peek_Data` leaves every queue as it was, but a first peek does create the (empty) channel (`PeekShowsGet`).

## Model

| member | source | states |
|---|---|---|
| `StackSpec.AbsIndexNamesTheSameSlot` | LuaLib/lauxlib.c:31-33 | A valid index and its absolute form name the same slot, and still do after pushes |
| `StackSpec.SlotHasTwoNames` | LuaLib/lapi.c:164-233 | Exactly two indices name a slot: its place from 1 at the bottom and from -1 at the top |
| `StackSpec.InsertPushRemoveIff` | LuaLib/lapi.c:180-233 | With i naming a slot at each height, the three calls give the same stack exactly if i > 0 or the slot held the top value |
| `StackSpec.NegativeIndexMoves` | LuaLib/lapi.c:180-233 | An input on which they do not: 1, 2, 3 with i = -2 |
| `StackSpec.InsertKeepsValues` | LuaLib/lapi.c:191-200 | lua_insert loses and doubles no value |
| `StackSpec.InsertIsRotation` | LuaLib/lapi.c:191-200 | k calls of lua_insert rotate the part above the index by k |
| `StackSpec.FullRotationIsIdentity` | LuaLib/lapi.c:191-200 | As many inserts as there are values above the index restore the stack |
| `StackSpec.DropEmptyText` | LuaLib/lvm.c:278-310 | Turning the lower operand into a string and dropping an empty upper one changes no text |
| `StackSpec.NumbersJoinAsText` | LuaLib/lvm.c:278-310 | A string and a number concatenate, in either order, to the string and the text of the number |
| `LuaStates.LuaState.SetTop` | LuaLib/lapi.c:164-177 | lua_settop truncates or pads with nil, for positive and negative indices |
| `LuaStates.LuaState.Remove` | LuaLib/lapi.c:180-188 | The shift loop deletes exactly the named slot |
| `LuaStates.LuaState.Insert` | LuaLib/lapi.c:191-200 | The shift loop moves the top value to the named slot and keeps the order of the rest |
| `LuaStates.LuaState.Replace` | LuaLib/lapi.c:203-225 | The top value replaces the named slot and is popped; nothing else changes |
| `LuaStates.LuaState.Concat` | LuaLib/lapi.c:990-1004 | lua_concat(n) makes the top n values one string, their texts in order, or raises an error exactly if one of several is no text; 0 and 1 are special |
| `LuaStates.LuaState.JoinCells` | LuaLib/lvm.c:278-310 | The pairwise and batched joins give the text of all cells in order, or raise exactly if a cell is no text |
| `LuaStates.LuaState.XMove` | LuaLib/lapi.c:110-122 | lua_xmove carries the top n values over in order; between a state and itself it does nothing |
| `LuaStates.LuaState.CheckStack` | LuaLib/lapi.c:92-107 | lua_checkstack succeeds exactly within LUAI_MAXCSTACK, then the slots asked for are usable, and never shrinks the stack |
| `BufferSpec.RunHoldsEverythingAdded` | LuaLib/lauxlib.c:398-469 | After any run of adds the pieces followed by the characters are everything added, in fewer than LIMIT pieces |
| `BufferSpec.WhatFitsIsCopied` | LuaLib/lauxlib.c:398-469 | What fits into the array goes there and changes no piece |
| `BufferSpec.WhatDoesNotFitIsPushed` | LuaLib/lauxlib.c:410-469 | A full array is emptied into the pieces: a character starts it anew, a value becomes part of them |
| `BufferSpec.CollapseKeepsText` | LuaLib/lauxlib.c:410-426 | adjuststack loses no text and leaves fewer than LIMIT pieces |
| `BufferSpec.StaysDescendingIff` | LuaLib/lauxlib.c:410-469 | An operation keeps piece lengths non-increasing unless it pushes two pieces, and then exactly under the stated condition |
| `BufferSpec.OrderCanBeLost` | LuaLib/lauxlib.c:454-469 | An input on which the order is lost, for every array size above 1 |
| `BufferSpec.RunDescends` | LuaLib/lauxlib.c:410-469 | On runs that never push two pieces the piece lengths never increase from bottom to top |
| `PieceStacks.LoopIsCollapse` | LuaLib/lauxlib.c:410-426 | The counting loop of adjuststack followed by one lua_concat is the repeated merge of the top two pieces |
| `Buffers.Buffer.AdjustStack` | LuaLib/lauxlib.c:410-426 | On the stack: the pieces become their collapse, with LIMIT+1 slots enough |
| `Buffers.Buffer.PrepBuffer` | LuaLib/lauxlib.c:429-433 | Flushes the characters as a piece and merges; the array is free again |
| `Buffers.Buffer.AddChar` | LuaLib/lauxlib.h:131-133 | The macro flushes a full array before it stores the character |
| `Buffers.Buffer.AddString` | LuaLib/lauxlib.c:436-439 | Adds every character in order |
| `Buffers.Buffer.AddValue` | LuaLib/lauxlib.c:454-469 | Takes the value above the pieces: copied if it fits, else pushed below a flushed piece, never above LIMIT+1 slots |
| `Buffers.Buffer.PushResult` | LuaLib/lauxlib.c:447-451 | Leaves exactly one string above what lay below the buffer: everything added, or the empty string |
| `SubstitutionSpec.LengthLaw` | LuaLib/lauxlib.c:340-354 | The result has length len(s) + k(len(r) - len(p)) for k matches |
| `SubstitutionSpec.ReplacingByItselfIsIdentity` | LuaLib/lauxlib.c:340-354 | Replacing p by p changes nothing |
| `SubstitutionSpec.ReplaceAbsent` | LuaLib/lauxlib.c:340-354 | A text has no match exactly if the pattern is nowhere in it, and then stays as it is |
| `SubstitutionSpec.AdvancesIff` | LuaLib/lauxlib.c:340-354 | The scan gets shorter after a match exactly for a non-empty pattern |
| `Substitution.Gsub` | LuaLib/lauxlib.c:340-354 | Through the buffer, terminates with the recursive leftmost replacement left on the stack |
| `TablePaths.FoundIsResolved` | LuaLib/lauxlib.c:357-381 | On success the dotted path leads to the table found and every earlier binding survives |
| `TablePaths.ConflictChangesNothing` | LuaLib/lauxlib.c:357-381 | On a name conflict the heap is unchanged: a conflict cannot follow a creation |
| `TablePaths.ConflictIffBlocked` | LuaLib/lauxlib.c:357-381 | A call conflicts exactly if some name on the way holds a non-table, and reports the rest of the path from there |
| `TablePaths.FindIsIdempotent` | LuaLib/lauxlib.c:357-381 | A second call finds the same table and creates nothing |
| `TablePaths.OnlyThePathIsCreated` | LuaLib/lauxlib.c:357-381 | The only new bindings of old tables are new tables under names of the path |
| `TablePaths.DottedComponents` | LuaLib/lauxlib.c:357-381 | Splitting a path at its dots and joining it again gives the path |
| `FindTables.FindTable` | LuaLib/lauxlib.c:357-381 | The walk over the stack does what the path function says, leaves the table or restores the height |
| `LuaTables.BorderIsUnique` | LuaLib/ltable.c:556-576 | A table whose slots 1..n are filled and no others has one border, n |
| `LuaTables.GetN` | LuaLib/ltable.c:532-576 | Binary and unbound search both end in a border of the table |
| `RefTables.RefKeeps` | LuaLib/lauxlib.c:481-501 | luaL_ref takes the first free slot or the next one; the representation stays sound and the map gains one entry |
| `RefTables.UnrefKeeps` | LuaLib/lauxlib.c:504-511 | luaL_unref puts a live slot in front of the free list; the map loses that entry only |
| `RefTables.NoLinkedCycle` | LuaLib/lauxlib.c:481-511 | A free list that returns to its own start is never the free list of a sound table |
| `RefTables.UnrefIsSafeIff` | LuaLib/lauxlib.c:504-511 | Freeing a reference leaves a representable table exactly if it is negative, live, or one past the end |
| `RefTables.UnrefBreaks` | LuaLib/lauxlib.c:504-511 | Freeing slot 0, a free slot or a slot farther out leaves no sound representation |
| `RefTables.EveryRunRefines` | LuaLib/lauxlib.c:481-511 | After every disciplined run the table represents exactly the finite map; no returned reference was live |
| `RefTables.RefTable.Ref` | LuaLib/lauxlib.c:481-501 | On the object: nil yields LUA_REFNIL, any other value a fresh live reference to it |
| `RefTables.RefTable.Unref` | LuaLib/lauxlib.c:504-511 | On the object: the table stays usable exactly for a negative, live or next-past-the-end reference, and then only that reference dies |
| `SqliteAnswers.FirstAnswerDecides` | lsqlite3.c:210-239 | A first answer that is no error and no changed schema is the only one asked for, and the result |
| `SqliteAnswers.ErrorIsReset` | lsqlite3.c:215-219 | An error is looked into by one reset, whose answer takes its place |
| `SqliteAnswers.ReplacedOncePerRenewal` | lsqlite3.c:219-232 | A new prepare follows exactly a changed schema, and the statement is replaced once for each that succeeds |
| `SqliteAnswers.AnswerIsLast` | lsqlite3.c:210-239 | The result is the last code SQLite gave, or SQLITE_OK once three changes have used up the tries |
| `SqliteStatements.FetchedIff` | lsqlite3.c:1681-1734 | There is a row exactly if that code is SQLITE_ROW; exactly when the rows of a temporary and of a lasting statement end without an error |
| `SqliteStatements.RowIsDelivered` | lsqlite3.c:1681-1734 | A row answered at once is delivered with its column count, after no other call |
| `SqliteStatements.ThreeChangesEndTheRows` | lsqlite3.c:210-239 | An input on which the rows of a lasting statement end although SQLite was never done: three schema changes in a row |
| `StatementOwnership.NothingTrackedNothingLive` | lsqlite3.c:636-682 | If a database tracks nothing, no live statement is on its connection |
| `StatementOwnership.SwapKeeps` | lsqlite3.c:210-239 | Exchanging the statement of a userdata keeps the one-to-one ownership |
| `SqliteStatements.Statements.NewVm` | lsqlite3.c:168-189 | A new userdata is tracked under its text before anything is prepared |
| `SqliteStatements.Statements.CleanupVm` | lsqlite3.c:191-208 | Untracks the userdata and finalizes its statement if it has one, exactly once |
| `SqliteStatements.Statements.StepVm` | lsqlite3.c:210-239 | The calls of SQLite follow its answers, at most three tries; the result is the last code; the statement is the very same one, or a replacement of the same text and bindings for each renewal |
| `SqliteStatements.Statements.DbPrepare` | lsqlite3.c:1659-1679 | Fails exactly if sqlite3_prepare does, with its code, and then adds nothing; a prepared userdata is fresh, tracked and owns the statement; earlier ones stay |
| `SqliteStatements.Statements.DoNextRow` | lsqlite3.c:1681-1734 | The result is the one SQLite gave for these calls; a row keeps the statement; the end or an error finalizes a temporary and keeps any other |
| `SqliteStatements.Statements.VmStep` | lsqlite3.c:277-287 | The code and the column count are those SQLite gave; stepping keeps one owned statement and says whether it has values |
| `SqliteStatements.Statements.VmClose` | lsqlite3.c:289-292 | Finalizes an open statement once and hands back the code, and leaves a closed userdata alone |
| `SqliteStatements.Statements.DbCloseVm` | lsqlite3.c:1819-1843 | Finalizes exactly the tracked (or the temporary) statements; the tracking entries stay |
| `SqliteStatements.Statements.CloseStatements` | lsqlite3.c:636-655 | The loop ends with nothing tracked for the database and other statements untouched |
| `SqliteStatements.Statements.Disconnect` | lsqlite3.c:657-682 | sqlite3_close is reached with no live statement on the connection and succeeds |
| `ReferenceOwnership.FieldsAreDistinct` | lsqlite3.c:603-634 | Two fields of any open databases hold the same non-negative reference only if they are the same field |
| `ReferenceOwnership.ReleaseKeeps` | lsqlite3.c:657-696 | Giving back the reference of one field keeps all other fields live and distinct |
| `ReferenceOwnership.TakeKeeps` | lsqlite3.c:1222-1252 | A fresh reference stored in an empty field keeps all fields live and distinct |
| `SqliteReferences.References.SetCallback` | lsqlite3.c:1222-1252 | Nil clears the field, a function is installed and resolves with its user data, anything else is refused; the old references die, all others keep owner and value |
| `SqliteReferences.References.SetProgress` | lsqlite3.c:1463-1494 | The opcode count decides between clearing and installing; a count that is no number or a nil function raises |
| `SqliteReferences.References.BusyTimeout` | lsqlite3.c:1563-1576 | A busy timeout clears the busy handler |
| `SqliteReferences.References.Install` | lsqlite3.c:1532-1561 | The installing branch of a callback setter |
| `SqliteReferences.References.Clear` | lsqlite3.c:1532-1576 | The clearing branch |
| `SqliteReferences.References.CreateFunction` | lsqlite3.c:1076-1145 | Done exactly if the arguments are functions and sqlite3_create_function accepts; then the new head of the list resolves to its values; otherwise nothing is held |
| `SqliteReferences.References.ReleaseFuncs` | lsqlite3.c:684-696 | The loop gives back the references of every registered function exactly once |
| `ReferenceOwnership.HookSetShows` | lsqlite3.c:1222-1252 | Setting one callback changes what that field stands for and no other field of any database |
| `ReferenceOwnership.FunctionAddedShows` | lsqlite3.c:1104-1127 | A new function shows its values and changes no other field |
| `ReferenceOwnership.PutSays` | lsqlite3.c:1222-1252 | A setter makes its two fields stand for the values given, or for nil, and no other field of any database for anything else |
| `ReferenceOwnership.PutFuncSays` | lsqlite3.c:1104-1127 | The same for the three fields of a new function |
| `Sqlite.Lsqlite.EveryHandle` | lsqlite3.c:168-239 | At any time a handle ever prepared is live and owned by exactly one tracked userdata, or was finalized once |
| `Sqlite.Lsqlite.EveryCallback` | lsqlite3.c:1222-1252 | At any time every callback of an open database resolves to the latest value installed, or to nil |
| `Sqlite.Lsqlite.Prepare` | lsqlite3.c:1659-1679 | A closed database or a failed prepare leaves every statement as it was; otherwise one fresh userdata is added, owning one new live statement if the text holds any |
| `Sqlite.Lsqlite.SetCallback` | lsqlite3.c:1222-1252 | Keeps both ownerships; the callback resolves to the function and user data given, or to nil |
| `Sqlite.Lsqlite.CreateFunction` | lsqlite3.c:1076-1145 | Keeps both ownerships and records the values the new function stands for |
| `Sqlite.Lsqlite.NextRow` | lsqlite3.c:1681-1734 | A row or a kept userdata goes on with one live statement; the end or an error of a temporary drops it from table and engine; a closed one changes nothing |
| `Sqlite.Lsqlite.Step` | lsqlite3.c:277-287 | A closed userdata changes nothing; an open one keeps one owned live statement of the same text and bindings |
| `Sqlite.Lsqlite.Finalize` | lsqlite3.c:289-292 | The userdata is closed, its statement untracked and finalized once; both ownerships are kept |
| `Sqlite.Lsqlite.CloseVms` | lsqlite3.c:1819-1843 | Exactly the selected userdata of this database are emptied and their statements finalized; all others and the tracking entries stay |
| `Sqlite.Lsqlite.CleanupDb` | lsqlite3.c:636-696 | Terminates with the connection closed; exactly the statements and references of this database are gone, all others untouched |
| `Sqlite.Lsqlite.Open` | lsqlite3.c:1890-1908 | The code is the one sqlite3_open gave; a fresh database with nothing tracked, or, if it fails, every statement, connection, tracking entry and reference as it was |
| `SqlitePrograms.RunProgram` | lsqlite3.c:168-239 | Every sequence of calls, with any answers of SQLite: each handle ever prepared is live with one owner or was finalized once, and each callback of an open database shows its latest value |
| `MessageSpec.CTextStopsAtNul` | LuaThread.cpp:323-326 | The text of a message is the part of the string before its first NUL character |
| `MessageSpec.ScalarArrives` | LuaThread.cpp:316-357 | A scalar arrives unchanged exactly if it is no numeric string and holds no NUL; numeric strings arrive as numbers, others up to the NUL |
| `MessageSpec.RoundTripIff` | LuaThread.cpp:316-357 | For any iteration order, the value comes back as its normal form exactly if no key becomes a NaN and no entries collide |
| `MessageSpec.RoundTrip` | LuaThread.cpp:510-544 | Values without such keys come back normalised |
| `MessageSpec.StorableIff` | LuaThread.cpp:510-544 | ReturnDataLua gets through without an error exactly if no kept key at any depth becomes a NaN |
| `MessageSpec.NanKeyRaises` | LuaThread.cpp:316-357 | An input with one entry, key "nan": it is converted, and raises on the way back |
| `MessageSpec.CollisionLosesAnEntry` | LuaThread.cpp:316-357 | An input with keys 1 and "1": the normal form does not come back |
| `MessageSpec.NormalValuesComeBack` | LuaThread.cpp:316-357 | A value of any depth without NUL characters and numeric strings comes back as it was, less the entries that cannot be sent |
| `MessageSpec.MeaningDetermines` | LuaThread.cpp:510-544 | Two values have the same meaning exactly if they agree in everything that can be sent |
| `MessageSpec.LastEntryWins` | LuaThread.cpp:527-535 | Of the entries of a message with one key the last is the one that stays |
| `Messages.Worker.ConvertData` | LuaThread.cpp:316-357 | Converts the value at a stack index and leaves the stack as it was |
| `Messages.Worker.ReturnData` | LuaThread.cpp:510-544 | Raises the stack by exactly the rebuilt value, or raises an error exactly on a NaN key |
| `ChannelSpec.PeekShowsGet` | LuaThread.cpp:426-468 | A peek changes no queue and shows what the same get then returns and takes out |
| `ChannelSpec.EveryInterleavingIsSafe` | LuaThread.cpp:359-489 | In every interleaving: removed so far + queue = sent, in order, per channel; mutual exclusion; no lost wakeup |
| `ChannelSpec.SendIs` | LuaThread.cpp:359-379 | A send puts its message at the end of its channel and changes no other |
| `ChannelSpec.GetIs` | LuaThread.cpp:381-400 | A get hands over and takes out the first message only, or fails on a bad one that stays; a demand does the same and waits exactly on an empty channel |
| `ChannelSpec.GetAllIs` | LuaThread.cpp:402-424 | A get-all hands over and empties the channel, or fails at the first bad message, and those before it are gone |
| `ChannelSpec.DemandsHandOverOne` | LuaThread.cpp:470-489 | In every run each demand has handed over the first message of its channel, or failed on it |
| `ChannelSpec.NothingIsLostIff` | LuaThread.cpp:381-424 | An operation hands over what it takes out, unless it is a get-all that meets a bad message behind good ones |
| `ChannelSpec.ReceivedIsRemovedIff` | LuaThread.cpp:381-489 | Over a run the messages received are those removed exactly if no get-all lost messages |
| `ChannelSpec.ReceivedIsPrefixOfSent` | LuaThread.cpp:359-489 | In every interleaving, without a lossy get-all, the messages received on a channel are a prefix of those sent on it |
| `Channels.ValuesArrive` | LuaThread.cpp:316-489 | End to end: without a lossy get-all each message received is, in order, the one sent, can be rebuilt, and gives the normal form of the value sent exactly if no entries of that value collide |
| `Channels.ListHoldsMessages` | LuaThread.cpp:402-468 | The table of a get-all or peek-all has exactly the keys 1 to n, and the i-th message under i |
| `Channels.ListsArrive` | LuaThread.cpp:316-489 | Inside a run, field k of the table of a get-all holds the k-th value sent after those received before, in its normal form exactly if none of its entries collide |
| `ChannelSpec.BadHeadBlocks` | LuaThread.cpp:394-397 | A message that cannot be rebuilt stays at the head of its channel and every later get fails on it |
| `ChannelSpec.SendUnblocks` | LuaThread.cpp:359-379 | After a send every waiter of that channel can take the lock in the very next step and finds a message |
| `ChannelSpec.WaiterIsNeverStuck` | LuaThread.cpp:470-489 | A waiter whose channel has a message can take the lock and get it, or the holder can move on |
| `Channels.ChannelTable.SendData` | LuaThread.cpp:359-379 | The converted value goes to the end of its channel |
| `Channels.ChannelTable.GetData` | LuaThread.cpp:381-400 | The first message leaves its channel once it has been rebuilt; on an error it stays |
| `Channels.ChannelTable.GetAllData` | LuaThread.cpp:402-424 | Leaves a table with the messages of the channel at 1, 2, ... and the channel empty; raises exactly if one cannot be rebuilt, and those before it are gone |
| `Channels.ChannelTable.PeekData` | LuaThread.cpp:426-445 | The first message is shown and its channel left as it was, except that a missing channel is created |
| `Channels.ChannelTable.PeekAllData` | LuaThread.cpp:448-468 | The same table with the channel left as it was |
| `ThreadSpec.IdsAreUniqueIff` | LuaThread.cpp:196-200 | The first N ids are pairwise different exactly while N <= 2^32 |
| `ThreadSpec.IdsIncreaseIff` | LuaThread.cpp:196-200 | The first N ids increase exactly while N < 2^31 |
| `ThreadSpec.ExitFindsOwnEntry` | LuaThread.cpp:571-589 | A reporting worker finds its own entry |
| `ThreadSpec.EveryEntryTellsTheTruth` | LuaThread.cpp:100-115 | In every interleaving each entry agrees with its worker, though the worker may run before the constructor ends |
| `ThreadSpec.DoneIsFinal` | LuaThread.cpp:144-184 | A worker that has reported stays reported |
| `ThreadSpec.AfterTheReport` | LuaThread.cpp:546-589 | After exit the entry never says running again; it outlives the next sweep exactly if an error was reported |
| `ThreadSpec.FailureIsKeptIff` | LuaThread.cpp:144-184 | A failed thread keeps its entry and error exactly if its error object is a string or a number |
| `ThreadSpec.SilentFailure` | LuaThread.cpp:144-184 | A run in which a thread fails with any other error object and is gone without an error |
| `Threads.ThreadTable.ReportExit` | LuaThread.cpp:153-179 | The end of executeThread: lua_tostring of the error object decides between error and success |
| `Threads.ThreadTable.CheckDeleteLater` | LuaThread.cpp:546-559 | The sweep in place removes exactly the marked entries |
| `Threads.ThreadTable.SetThreadExit` | LuaThread.cpp:571-589 | Marks the first entry of the id and no other |
| `Threads.ThreadTable.NewThread` | LuaThread.cpp:202-219 | Sweeps, then appends one entry under the next id, running only if the thread could be set up |
| `Threads.ThreadTable.IsThreadRunning` | LuaThread.cpp:242-260 | Sweeps, then answers for the first entry with the id, or not at all |
| `LockCheck.WorkersExclude` | LuaThread.cpp:591-608 | No two workers are past Lock at once, as long as each unlocks only what it locked |
| `LockCheck.LockCheckWaitsForWorkers` | LuaThread.cpp:620-629 | Lock_Check cannot return while a worker is past Lock |
| `LockCheck.GameExcludesIff` | LuaThread.cpp:591-629 | In all runs the game thread excludes the workers exactly while it holds the mutex inside Lock_Check |
| `LockCheck.GameOvertakesTheWorker` | LuaThread.cpp:591-629 | The race, without a spurious wakeup, that leaves a worker past Lock while the game plays, notifies and blocks |
| `OpenCounts.AfterAll` | LoadLib/dlfcn.c:93-218 | After any disciplined run a path is in the map exactly if its opens exceed its closes, with that difference |
| `ModuleLists.Loader.DlOpen` | LoadLib/dlfcn.c:93-218 | A handle comes back exactly if the main module is found and the path is open or every call of the system on the way succeeds; a failure restores the list; a reopened path returns its module; a new one goes first |
| `ModuleLists.Loader.DlClose` | LoadLib/dlfcn.c:287-336 | A module is unlinked and unloaded exactly when its count reaches zero; the result is then the answer of unload |
| `ModuleLists.Loader.Terminate` | LoadLib/dlfcn.c:338-342 | Ends with the list empty and nothing loaded |
| `Tracebacks.GetStack` | LuaLib/ldebug.c:84-104 | A level exists exactly if it is below the depth, lost tail calls included, and names the right call |
| `TracebackSpec.CallStandsAt` | LuaLib/ldebug.c:84-104 | A call stands right after all levels of the calls above it, its lost tail calls right after it; only Lua functions lose any |
| `TracebackSpec.TraceAppend` | LuaLib/ldebug.c:84-104 | The levels of later calls come before those of earlier ones |
| `Tracebacks.PlaceIs` | LuaLib/ldblib.c:355-366 | Which text names the place of a call: by name, main chunk, question mark, or where it is defined |
| `Tracebacks.LineIs` | LuaLib/ldblib.c:350-366 | The line of a level, with its line number if it has one; the line of a lost tail call |
| `Tracebacks.ArgumentsSplit` | LuaLib/ldblib.c:324-332 | When an argument is taken as the start level, and which arguments make the message |
| `Tracebacks.HeadingReads` | LuaLib/ldblib.c:333-337 | The heading stands alone, or on the line after the message |
| `LuaValues.ToIntegerTruncates` | LuaLib/Backup/luaconf.h:578-581 | A number becomes the integer next to it towards zero |
| `TracebackSpec.ShownLevels` | LuaLib/ldblib.c:318-371 | Exactly which levels are listed, and that the ellipsis stands for at least two levels |
| `TracebackSpec.ShownInOrder` | LuaLib/ldblib.c:318-371 | No level is listed twice, levels only increase, and the ellipsis comes once at most |
| `Tracebacks.ListLevels` | LuaLib/ldblib.c:338-369 | The loop with its retry and skip lists those levels in order, for every start level and depth |
| `Tracebacks.DbErrorFb` | LuaLib/ldblib.c:321-371 | The whole text: message, heading and lines; a message that is no text comes back unchanged |
| `DialogueSpec.NextKeepsInv` | ConversationControl.cpp:150-286 | Every event keeps: one timer 1, a timer 2 while acting or an enemy killed is noted, flags 3 and 4 iff their one timer |
| `DialogueSpec.EveryRunKeepsInv` | ConversationControl.cpp:85-286 | The invariant in every reachable state |
| `DialogueSentences.SaysIff` | ConversationControl.cpp:106-286 | Each of the 18 sentences is spoken exactly on its own occasion, by an owner that may speak, if a conversation is drawn |
| `DialogueSentences.FlagsAndTimersAre` | ConversationControl.cpp:106-286 | The four flags, the clock and the timers after any event, from what it makes the owner notice and say |
| `DialogueSentences.LastStateIs` | ConversationControl.cpp:222-226 | The stored state is what the last timer 1 met, hibernation or not; no other event changes it |
| `DialogueSentences.StoredUntilTheNextTick` | ConversationControl.cpp:150-226 | In a run the state met by a tick stays stored until the next one |
| `DialogueSentences.TransitionNeedsAChange` | ConversationControl.cpp:222-244 | In a run a sentence about a change of state is spoken by a tick that meets just that change |
| `DialogueSentences.SameStateSaysNothing` | ConversationControl.cpp:222-244 | Between two ticks in a row that meet the same state no such sentence is spoken |
| `DialogueSentences.Beginning` | ConversationControl.cpp:85-104 | The script starts silent, with the state of its owner stored and the first tick after one second |
| `DialogueSpec.TimersAreDelivered` | ConversationControl.cpp:150-193 | A pending timer is delivered before time runs past it |
| `DialogueSpec.NotedFlagsDoNotStick` | ConversationControl.cpp:175-192 | A noted kill and the two seen flags are cleared within two and three seconds |
| `DialogueSpec.ActingThroughoutIff` | ConversationControl.cpp:255-286 | The acting flag is set throughout a run exactly if every timer 2 renews it and every kill cries |
| `DialogueSpec.ActingEndsOrIsRenewed` | ConversationControl.cpp:175-183 | The acting flag is cleared within two seconds unless a noted kill renews it in that time |
| `DialogueSpec.ActingCanStick` | ConversationControl.cpp:175-183 | Runs of any length in which the acting flag stays set |
| `DialogueSpec.NobodyTalksOverHimself` | ConversationControl.cpp:255-286 | As long as no kill interrupts a sentence, sentences are at least two seconds apart |
| `DialogueSpec.OneAtATimeIff` | ConversationControl.cpp:123-135 | A run keeps the one-at-a-time rule in every state exactly if no kill in it interrupts a sentence |
| `DialogueSpec.KillSpeaksAloneIff` | ConversationControl.cpp:123-135 | A kill breaks the rule that a timer 2 marks the end of the one sentence exactly if it is by somebody, out of hibernation, and while acting |
| `DialogueSpec.KillOverlapsIff` | ConversationControl.cpp:123-135 | The death cry comes too early exactly if it interrupts a sentence that is not over |
| `DialogueSpec.FirstInterruption` | ConversationControl.cpp:123-135 | The first interrupting kill of a run breaks the rule, and spoils the two-second distance exactly if the owner cries before the sentence is over |
| `DialogueSpec.DeathCryInterrupts` | ConversationControl.cpp:123-135 | A kill while speaking starts a second sentence at once |
| `Dialogues.AiDialogue.Speak` | ConversationControl.cpp:255-286 | Act: the guards, the flag and its timer, the sentence and its timer |
| `Dialogues.AiDialogue.OnTimerExpired` | ConversationControl.cpp:150-193 | The timer handler, with its search for a visible friend |
| `Dialogues.AiDialogue.OnStateChanged` | ConversationControl.cpp:222-244 | The new state is stored in any case, and the six transitions make a soldier speak |
| `Dialogues.AiDialogue.OnCustom` | ConversationControl.cpp:195-210 | Custom events speak, or note the killed enemy while acting |
| `Dialogues.AiDialogue.OnDamaged` | ConversationControl.cpp:106-121 | Speaks and answers the damager, unless the damage kills or comes from nobody |
| `Dialogues.AiDialogue.OnKilled` | ConversationControl.cpp:123-135 | Interrupts the sentence and cries |
| `Dialogues.AiDialogue.OnPoked` | ConversationControl.cpp:137-148 | Answers a poke by the last state stored, not the current one |
| `Dialogues.AiDialogue.OnEnemySeen` | ConversationControl.cpp:212-220 | Speaks about an enemy seen unless it has lately |
| `Dialogues.AiDialogue.Deliver` | ConversationControl.cpp:150-193 | A due timer leaves the pending ones and runs the handler; the invariant is kept whatever is drawn |
| `ChoiceSpec.IntervalsAreDisjoint` | ConversationControl.cpp:316-329 | No draw belongs to two options |
| `ChoiceSpec.IntervalsCover` | ConversationControl.cpp:316-329 | Every draw from the silence weight up belongs to an option |
| `ChoiceSpec.SilenceIff` | ConversationControl.cpp:316-331 | A draw means silence exactly below the silence weight, or if there is no option |
| `ChoiceSpec.DrawableIff` | ConversationControl.cpp:316-329 | An option can be drawn exactly if it has weight or comes first |
| `WeightedChoice.DrawnSelects` | ConversationControl.cpp:295-332 | With non-negative weights the result is the option whose interval holds the draw |
| `WeightedChoice.GetRandomConversation` | ConversationControl.cpp:295-332 | The two loops draw from [0, silence + total] and return the first option whose running weight reaches the draw |

## Left out

- Substitution.Gsub: requires a non-empty pattern, because the C loop never ends on an empty one (AdvancesIff).
- Messages.Worker.ConvertData: keys that are tables are outside the key type; the C code converts such a key from the wrong slot. Cyclic tables are not values of the model; they make the C code recurse without end.
- Dialogue: timers are taken to be delivered exactly when due; the engine's ticks may add a delay to each.
- ThreadSpec.EveryEntryTellsTheTruth: `m_delete` is taken to start as false; the constructor never sets it.
- LockCheck.WorkersExclude: a worker calls Unlock only after its own Lock; unlocking a mutex that the thread does not hold (LuaThread.cpp:602-607) has no defined behaviour in C++ and is not a step of the model.
- LuaStates.LuaState.JoinCells: as Concat, without the call of a concatenation metamethod before the error.
- DialogueSpec.NobodyTalksOverHimself: holds up to the first kill that interrupts a sentence; OneAtATimeIff shows that it must.
- LuaStates.LuaState.Replace: only for stack slots; replacing the globals table, the environment or an upvalue is not modelled.
- LuaStates.LuaState.Concat: a value that is no text raises an error; metamethods for concatenation are not modelled.
- Channels.ChannelTable.GetData: the lock is taken to be released when an error leaves the function; whether that happens depends on how LuaJIT unwinds C++ frames.
- Dialogue: the lookup of a conversation by its id; an id that names none counts as no conversation found. Custom events sent to another object arrive as events of their own.
- Dialogues.AiDialogue.constructor: covers owners that are soldiers; on any other object the script destroys itself and receives no event.
- ChoiceSpec: weights are reals; rounding of float sums is not modelled.
- SqliteReferences.References.Install: stores the sentinel between releasing and taking, which the C code does not; nothing can observe the fields in between.
- LuaValues.ToIntegerTruncates: the portable conversion; on x86 LuaLib/Backup/luaconf.h:560-573 rounds to the nearest integer instead, which differs for a start level with a fraction only, since references are whole numbers.
- Callbacks that call back into the same database while sqlite3_step runs, aggregate contexts, and create_collation's heap records.
- SQLite itself: the codes of step, reset, prepare, finalize, create_function and open are free; close succeeds exactly when no statement is live. Column access, binding of single values and last_insert_rowid-like getters are one-call wrappers.
- Garbage collection: objects persist; the finalizers are the same operations as the explicit close functions.
- Metamethods, string interning, luaD_ stack reallocation and error unwinding. Stack overflow is a precondition where the C code relies on LUA_MINSTACK.
- Pseudo-indices other than the registry and the globals (environments and upvalues).
- Lua_Wait_Thread, Lua_Remove_Thread and Lua_Get_All_Channels; creation and destruction of operating-system threads.
- dlsym, export tables, error texts and initialiser or finaliser functions of modules; the outcomes of system calls are free.
- luaL_loadfile, base-library functions, hooks dispatch and the game-engine bindings: thin wrappers.
- The content of lua_getinfo beyond the fields a traceback prints; numbers are turned into text by a function parameter.
