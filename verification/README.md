# L-W: verified model

L-W is a real-time room server. Players join rooms over TCP, the rooms run a small grid game in
ticks, a player who loses the connection can resume until a deadline, and the whole business state
is written to a checkpoint file from which a restarted server continues. This project models its
hard parts in Dafny and proves what they are for.

`dafny verify dfyconfig.toml` checks everything.

## How the model is built

Objects that change in place are classes with the source's fields (`Buffer`, `Gamestate`, `Room`,
`Session`, `SessionManager`, `RoomManager`, `RoomService`, the codec's `Reader`). Their methods keep
the source's branches, loops and rollbacks. Each is proved against a value-level function
(`AfterJoin`, `AfterHandleResume`, `Encoding`, `Decoding`, ...), and the theorems are about those
functions. Parts that run on several threads (`CheckpointStores`, `PersistenceServices`,
`ConnectionDebt`, `EventLoops`, `TcpServers`) are state machines: one step per critical section,
atomic operation or system call, any interleaving, any answer of the operating system.

| file | models |
|---|---|
| `Ordering` | walking hash maps in any order and sorting afterwards; tables and their rows |
| `ByteBuffer`, `FrameCodec`, `Endian` | the connection buffer and the length-prefixed frames over it |
| `GameState`, `Tick` | positions, hit points, and one tick of commands |
| `RoomModel`, `Room` | one room: members, phases, commands, its checkpoint |
| `SessionModel`, `Session`, `SessionManager` | sessions by token, bindings by connection |
| `RoomManager` | the table of rooms |
| `ServiceModel`, `ServiceProofs`, `ServiceCheckpoint`, `ServiceGuarantees` | the room service as a transaction system over three tables, and its theorems |
| `ServiceExamples`, `RoomCapacity`, `HitPoints` | runs of the service; rooms too big to start or to describe; which checkpoints keep hit points above zero |
| `RoomService` | the handlers, step by step |
| `Checkpoint`, `Checksum`, `CheckpointFormat`, `CheckpointCodec` | the checkpoint file |
| `CheckpointStore`, `CheckpointFile`, `PersistenceService`, `Restart` | the background writer, what it does to the file, the numbering on top of it, and the server started over the file |
| `ConnectionDebt` | the write debt of a connection and what reaches its socket |
| `EventLoop`, `TcpServer`, `LateFrame` | the task queue with its wake-up, the close handshake between two loops, and the frames that come too late |
| `Arrival` | how what the network reports meets what the room service assumes |

## What is assumed of the environment

- Tokens, clock readings and connections are arbitrary inputs; generated tokens may collide with existing ones.
- A connection stays alive while it is bound, until its close notice has been handled (the server's table
  holds it: `TcpServers.CloseHandshake`), and no frame of a connection is handled after that notice.
  The second half has an exception in the code: a heartbeat reply whose write fails in the middle of
  decoding closes the connection, and the frames behind it are still posted. The frames handled too late are
  exactly those posted after that moment (`LateFrames.LateIffPostedAfterClose`). As long as there is none, every
  event is one the service allows for (`Arrivals.HeardIsPossible`); a join that comes too late seats a player that
  no notice ever detaches (`Arrivals.LateJoinIsForGood`).
- `rename` replaces a file at once; every other file operation may fail, and writes may be partial. The checkpoint
  file is changed by nobody but the store.
- The kernel hands out only descriptors that are not open, and reports an eventfd edge for every write that succeeds.
- Memory allocation succeeds.

## What does not hold as one might expect

- A restore accepts any hp in 0..100 while an attack always takes 10, so hp is kept in -9..100 in general, and a
  server's own checkpoint is accepted again exactly when nobody is below zero (`ServiceCheckpoint.ServerRoundTrip`).
  Five hit points and one attack are enough to lose that (`ServiceExamples.FiveHitPointsAreLost`). Exactly the fair
  states are safe, those in which no living player whose hp is not a multiple of ten has a living companion: for one
  game and any commands (`Tick.NeverBelowZeroIff`), and for the running rooms of a loaded checkpoint over every run up
  to the next load (`HitPoints.LoadedStaysAboveZeroIff`, `HitPoints.LoadedStaysRestorableIff`). What servers of one
  line write is always fair (`ServiceGuarantees.WrittenIsRestorable`, `Restarts.FileStaysFair`).
- The comment on `RoomService::restore_checkpoint` says that a failure leaves the objects alone. Rooms are replaced
  before the session keys are judged, so on every server this is true exactly of the checkpoints refused before that
  point and of those whose session keys are valid (`ServiceGuarantees.RestoreIsAlwaysAtomicIff`); checkpoints
  that came out of the decoder are among them (`ServiceGuarantees.DecodedRestoreIsAtomic`), others need not be
  (`ServiceGuarantees.HandmadeRestoreIsPartial`).
- `CheckpointStore::start` does not ask for a load. A store started over a file it has not read can put an older
  checkpoint in its place (`CheckpointFiles.UnloadedFileGoesBack`). The file never goes back exactly when its
  generation is at most one above the last number the store knows of, as after a load or when there is no file
  (`CheckpointFiles.FileOnlyAdvancesIff`); the persistence service always loads first, so its file never goes
  back (`PersistenceServices.FileNeverGoesBack`).
- `flush` and `stop` can answer false although the file is the newest submission: the rename has happened and the
  sync of its directory has failed (`CheckpointFiles.FlushDoubtsANewFile`). At rest the file is the newest
  submission exactly when it is committed or its directory sync failed (`CheckpointFiles.NewestInPlaceIffPlaced`),
  or when nothing could be put in place and the file held those bytes to begin with (`CheckpointFiles.NewestInPlaceIff`).
- Generations do not increase over the whole life of a store: a load takes its number from the file, so a number that
  was submitted and failed can be used again (`CheckpointFiles.NumberIsUsedTwice`). Once something has been put in
  place, a load goes back exactly when the newest submission never got to the file (`CheckpointFiles.LoadForgetsIff`).
- A room whose capacity is above 101 never starts: the join that would fill it is rolled back every time
  (`RoomCapacity.LastJoinStartsIff`, `RoomCapacity.FilledRoomStartsIff`). Only a checkpoint from elsewhere can bring
  such a room in started (`RoomCapacity.LoadedBigWaitingIff`).
- An offline session is swept exactly when its resume is refused, except in a room of more than 65535 members, whose
  list does not fit the reply: there a session whose deadline has not come is neither taken back nor swept
  (`RoomCapacity.NeitherResumedNorSwept`; the exact condition is the second promise of `ServiceGuarantees.ResumeOrSweep`).

## Model

| member | source | states |
|---|---|---|
| ByteBuffer.Buffer.SlideDown | src/buffer.cpp:79-82 | the forward copy onto itself leaves the readable bytes unchanged, moved to the front |
| ByteBuffer.Buffer.MakeSpace | src/buffer.cpp:71-84 | growing or compacting keeps the readable bytes and leaves room for what is asked |
| ByteBuffer.Buffer.Append | src/buffer.cpp:96-107 | the readable bytes become the old ones followed by the new ones |
| ByteBuffer.Buffer.Retrieve | src/buffer.cpp:42-53 | exactly the first bytes go; both positions return to 0 when nothing is left, otherwise only the read position moves |
| ByteBuffer.Buffer.RetrieveAllAsString | src/buffer.cpp:63-68 | hands out everything readable and leaves nothing |
| FrameCodec.Encode | src/codec.cpp:6-21 | a frame that fits becomes length, type and payload in network order; a longer one is refused |
| FrameCodec.Decode | src/codec.cpp:24-58 | the loop over the buffer delivers the frames, the leftover and the verdict of the stream specification |
| FrameCodec.Receive | src/connection.cpp:157-183 | however the stream is cut into chunks, frames and verdict are those of decoding it at once, and so is the leftover when it is accepted |
| FrameCodec.DecodeAppend | src/codec.cpp:24-58 | decoding a stream and then its continuation equals decoding both together; a refusal is final |
| FrameCodec.DecodeOfEncoded | src/codec.cpp:6-58 | any encoded frames followed by an unfinished one decode to exactly those frames, the unfinished one kept |
| FrameCodec.DeliveredIsWire | src/codec.cpp:24-58 | conversely, what the decoder consumed is the wire form of what it delivered |
| FrameCodec.ScanPartial | src/codec.cpp:32-46 | a proper prefix of an encoded frame is waited for, never refused |
| Ordering.WalkAndSort | src/game_state.cpp:123-136 | whatever order the hash map is walked in, sorting gives one and the same sequence |
| Ordering.EnumerationIsUnique | src/room_manager.cpp:414-426 | a key set has only one sorted enumeration |
| Ordering.LexTotal | src/session_manager.cpp:294-297 | the token order decides every pair of different tokens |
| Ordering.TableOfRows | src/session_manager.cpp:306-335 | a table is recovered exactly from its rows |
| GameState.Gamestate.Initialize | src/game_state.cpp:28-64 | all or nothing; on success everybody stands on the bottom row at the rank of their id with full health, otherwise the status names the size or the first bad id |
| GameState.Gamestate.CheckIds | src/game_state.cpp:30-50 | passes exactly the lists of 1 to 101 distinct nonzero ids; otherwise the status is that of the size or of the first id that is zero or repeated |
| GameState.RankInListing | src/game_state.cpp:51-62 | the place in the sorted list is the number of smaller ids |
| GameState.Gamestate.RemovePlayer | src/game_state.cpp:67-79 | takes out exactly that player, or reports why not |
| GameState.Gamestate.MovePlayer | src/game_state.cpp:82-108 | moves by one step inside the field and otherwise changes nothing, with the source's error in each case |
| GameState.Gamestate.AttackPlayer | src/game_state.cpp:171-222 | takes 10 from a living neighbour and otherwise changes nothing, with the source's error in each case |
| GameState.Gamestate.Snapshot | src/game_state.cpp:123-136 | one row for each player in increasing id order |
| GameState.Gamestate.Restore | src/game_state.cpp:139-168 | accepts exactly the rows within limits and without repetition; a refusal changes nothing |
| Tick.SettleKeepsPlayers | src/room.cpp:275-297 | a tick neither adds nor removes a player |
| Tick.SettleKeepsWellFormed | src/game_state.cpp:82-222 | positions stay in 0..100 and hp in -9..100 through any batch |
| Tick.SettleKeepsTenfold | src/game_state.cpp:171-222 | hp stays a multiple of ten in 0..100 through any batch |
| Tick.SettleNeverHeals | src/room.cpp:275-297 | nobody's hp ever rises |
| Tick.DepartedCommandsAreInert | src/room.cpp:275-297 | a tick equals the tick without the commands of players who have left |
| Tick.NeverBelowZeroIff | src/game_state.cpp:171-222 | no batch of commands drives anybody below zero exactly when every living player with a living companion has a multiple of ten |
| Tick.Hunt | src/game_state.cpp:82-222 | otherwise one living player, alone and whatever the distance, can drive the other below zero |
| Tick.HitsAccountForHp | src/room.cpp:275-297 | total hp drops by exactly ten for each attack that landed |
| Rooms.Room.Start | src/room.cpp:35-61 | starts a waiting room of 1 to 101 members on the starting line, or says why not and changes nothing |
| Rooms.Room.Finish | src/room.cpp:64-80 | only a running room can be finished, and its queue is emptied |
| Rooms.Room.Join | src/room.cpp:111-161 | seats the next id exactly when name, phase, capacity and id allow, and lists those already there |
| Rooms.Room.Leave | src/room.cpp:164-180 | takes out the member and its game state together |
| Rooms.Room.Submit | src/room.cpp:216-251 | queues at most one command for each member of a running room |
| Rooms.Room.Tick | src/room.cpp:275-297 | takes the whole queue, settles it in submission order, and reports what that did |
| Rooms.Room.SettleAll | src/room.cpp:284-294 | the command loop equals the fold of the commands, successes counted |
| Rooms.Room.BindConnection | src/room.cpp:314-331 | only a member without a connection gets one |
| Rooms.Room.DetachConnection | src/room.cpp:334-356 | only the member's current connection can be taken off |
| Rooms.Room.MakeCheckpoint | src/room.cpp:359-380 | the sorted record of the room |
| Rooms.Room.RestoreCheckpoint | src/room.cpp:383-486 | accepts exactly the acceptable records of this room and otherwise changes nothing |
| RoomModel.StepKeepsConsistent | src/room.cpp:35-356 | every operation keeps a room consistent: waiting means empty game and tick 0, otherwise game ids are member ids, members within capacity, one command per player |
| RoomModel.IssuedIdsIncrease | src/room.cpp:142-157 | ids strictly increase along every run, so none is reused, the wrap to 0 included |
| RoomModel.SameIds | src/room.cpp:461-474 | equal counts, inclusion and no repetition force game ids and member ids to agree |
| RoomModel.RestoredIsConsistent | src/room.cpp:383-486 | whatever a restore accepts is a consistent room |
| RoomModel.RoomRoundTrip | src/room.cpp:359-486 | a room's own record is accepted exactly when nobody is below zero, gives the room back unplugged, and is made again from it |
| Sessions.Session.Bind | src/session.cpp:66-83 | an offline session goes online before its deadline, and the deadline is kept |
| Sessions.Session.Detach | src/session.cpp:86-104 | only the current connection can put a session offline |
| Sessions.Session.HasExpired | src/session.cpp:107-114 | expired means offline at or past the deadline |
| SessionManagers.GenerateToken | src/session_manager.cpp:15-42 | a token is 32 lower-case hexadecimal digits, the bytes' digits in order |
| SessionManagers.SessionManager.Create | src/session_manager.cpp:45-82 | binds a fresh token, or leaves both tables alone |
| SessionManagers.SessionManager.Lookup | src/session_manager.cpp:85-111 | a bound connection always finds its session, by token, room and player |
| SessionManagers.SessionManager.Resume | src/session_manager.cpp:114-155 | the source's verdict in each case, and both tables changed together or not at all |
| SessionManagers.SessionManager.RollbackResume | src/session_manager.cpp:158-182 | offline again with the deadline the session had |
| SessionManagers.SessionManager.Detach | src/session_manager.cpp:185-218 | offline until now plus the timeout, binding gone |
| SessionManagers.SessionManager.EraseByConnection | src/session_manager.cpp:221-241 | session and binding go together |
| SessionManagers.SessionManager.ExpiredSessions | src/session_manager.cpp:244-261 | exactly the expired sessions, each once, whatever the walk order |
| SessionManagers.SessionManager.EraseExpired | src/session_manager.cpp:264-282 | erases only an expired session |
| SessionManagers.SessionManager.MakeCheckpoint | src/session_manager.cpp:285-300 | one row for each session in token order |
| SessionManagers.SessionManager.RestoreCheckpoint | src/session_manager.cpp:303-338 | accepts exactly the valid keys; then every session is offline until one deadline and nothing is bound, otherwise nothing changes |
| SessionModel.TableOpsConsistent | src/session_manager.cpp:114-282 | every operation keeps bindings and online sessions a bijection |
| SessionModel.RollbackUndoesResume | src/session_manager.cpp:114-182 | rolling back restores the tables exactly, the original deadline included |
| RoomManagers.RoomManager.AddRoom | src/room_manager.cpp:7-16 | a new id gets a new room, a known id changes nothing |
| RoomManagers.RoomManager.Join | src/room_manager.cpp:31-89 | the join of that room and of no other, listing those already there |
| RoomManagers.RoomManager.StartIfFull | src/room_manager.cpp:92-119 | starts the room when exactly full |
| RoomManagers.RoomManager.Leave | src/room_manager.cpp:122-147 | the leave of that room and of no other |
| RoomManagers.RoomManager.Submit | src/room_manager.cpp:179-265 | queues in that room and in no other |
| RoomManagers.RoomManager.TickRooms | src/room_manager.cpp:269-294 | every running room ticks once whatever the walk order, is reported exactly once, and each report is what that tick did |
| RoomManagers.RoomManager.BindConnection | src/room_manager.cpp:296-354 | binds the member and describes the room it is back in: phase, tick, members and game |
| RoomManagers.RoomManager.DetachConnection | src/room_manager.cpp:356-407 | detaches in that room and in no other |
| RoomManagers.RoomManager.MakeCheckpoint | src/room_manager.cpp:410-429 | one record for each room in id order |
| RoomManagers.RoomManager.RestoreCheckpoint | src/room_manager.cpp:432-454 | replaces the whole table exactly when every record is acceptable and no id repeats |
| RoomServices.RoomService.HandleJoin | src/room_service.cpp:245-308 | with its rollbacks the join is one transaction: refused, rolled back with only a player id used, or done in all tables |
| RoomServices.RoomService.HandleResume | src/room_service.cpp:311-344 | with its rollbacks the resume is one transaction: done in all tables or nothing changed |
| RoomServices.RoomService.HandleLeave | src/room_service.cpp:364-400 | member, game state, session and binding go together |
| RoomServices.RoomService.HandleOrder | src/room_service.cpp:565-616 | a bound connection's command reaches its own player's room |
| RoomServices.RoomService.HandleTick | src/room_service.cpp:495-523 | one tick for every running room, however many periods have elapsed |
| RoomServices.RoomService.HandleClosed | src/room_service.cpp:158-182 | a bound connection is taken off member and session together, an unbound one changes nothing |
| RoomServices.RoomService.HandleTimeouts | src/room_service.cpp:526-551 | the sweep, one session at a time in any order, comes to removing all expired ones at once, and no step of it fails |
| RoomServices.RoomService.CompareIdentities | src/room_service.cpp:71-87 | true exactly when members and sessions name the same (room, player) pairs |
| RoomServices.RoomService.MakeCheckpoint | src/room_service.cpp:672-698 | never fails for a nonzero generation in a state the server can reach |
| RoomServices.RoomService.RestoreCheckpoint | src/room_service.cpp:701-724 | the verdict and the state it leaves, rooms before sessions |
| RoomServices.JoinStepsAre | src/room_service.cpp:245-308 | the steps of a join, its two rollbacks included, compose to the transaction |
| RoomServices.ResumeStepsAre | src/room_service.cpp:319-342 | the steps of a resume, its rollback included, compose to the transaction |
| RoomServices.SweepOneMore | src/room_service.cpp:533-543 | removing one more expired session, member first, always succeeds and touches nothing else |
| ServiceProofs.EventKeeps | src/room_service.cpp:158-724 | every transaction keeps members, sessions and bindings in agreement |
| ServiceProofs.RunKeepsSound | src/room_service.cpp:158-724 | after any run members and sessions are the same (room, player) set without duplicates, bindings and online sessions a bijection, and only open connections bound |
| ServiceProofs.KnownCanDetach | src/room_service.cpp:170-179 | after a successful lookup the room detach cannot fail |
| ServiceProofs.ResumedCanBind | src/room_service.cpp:319-335 | after a successful resume the room bind cannot fail |
| ServiceProofs.JoinKeeps | src/room_service.cpp:245-308 | a join, whatever its verdict, keeps the three tables in agreement |
| ServiceProofs.SweepKeeps | src/room_service.cpp:526-551 | the timeout sweep keeps the three tables in agreement |
| ServiceProofs.RestoreKeeps | src/room_service.cpp:701-724 | a restore with valid session keys leaves tables that agree |
| ServiceProofs.LeaveIsRemoval | src/room_service.cpp:364-387 | a leave removes exactly one session with its member |
| ServiceCheckpoint.OwnCheckpointIsSound | src/room_service.cpp:672-698 | a reachable server's checkpoint passes the identity check and has keys fit for the file |
| ServiceCheckpoint.OwnCheckpointEncodes | src/checkpoint_codec.cpp:266-350 | it encodes exactly when it is within the size limits |
| ServiceCheckpoint.ServerRoundTrip | src/room_service.cpp:672-724 | restoring it succeeds exactly when nobody is below zero and gives the same server asleep; its checkpoint is the same again |
| ServiceCheckpoint.ServerThroughFile | src/checkpoint_codec.cpp:266-504 | the same through the bytes of the file |
| ServiceGuarantees.RunKeepsTenfold | src/game_state.cpp:171-222 | over whole runs hp stays a multiple of ten in 0..100 if every loaded checkpoint has it so |
| HitPoints.EventKeepsFair | src/room_service.cpp:158-724 | every event keeps all rooms fair, a load if the checkpoint is fair |
| HitPoints.RestoredAllFairIff | src/room.cpp:383-486 | the rooms a checkpoint restores to are fair exactly when its rows are |
| HitPoints.LoadedStaysAboveZeroIff | src/room_service.cpp:701-724 | of the checkpoints a server takes, exactly the fair ones keep everybody at zero or above over every run to the next load |
| HitPoints.LoadedStaysRestorableIff | src/room_service.cpp:672-724 | and exactly those keep all the checkpoints it writes acceptable to every server |
| ServiceGuarantees.WrittenIsRestorable | src/room_service.cpp:672-724 | no line of servers ever writes a checkpoint a server would refuse |
| ServiceExamples.FiveHitPointsAreLost | src/game_state.cpp:160-217 | a checkpoint with five hit points is loaded, its player resumes, attacks, a tick passes, and every server refuses the checkpoint written then |
| ServiceExamples.AJoinSeatsAPlayer | src/room_service.cpp:245-308 | from an empty server a room, a connection and a join lead to a player seated on that connection |
| ServiceGuarantees.DecodedRestoreIsAtomic | src/room_service.cpp:701-724 | a decoded checkpoint replaces rooms and sessions or changes neither, and which of the two |
| ServiceGuarantees.RestoreIsAtomicIff | src/room_service.cpp:701-724 | on a given server a restore is all or nothing exactly when it is refused before the rooms, the session keys are valid, or the rooms happen to be the same |
| ServiceGuarantees.RestoreIsAlwaysAtomicIff | src/room_service.cpp:701-724 | on every server exactly when it is refused before the rooms or the session keys are valid |
| ServiceGuarantees.HandmadeRestoreIsPartial | src/room_service.cpp:715-722 | a checkpoint with a bad token leaves the rooms replaced and the sessions not |
| ServiceGuarantees.CloseTouchesOnlyItsOwn | src/room_service.cpp:158-182 | a close notice changes the session on that very connection and no other, so a stale one never disturbs a resumed session |
| ServiceGuarantees.SweepIsExact | src/room_service.cpp:526-551 | a member is swept exactly when its session is offline with its deadline reached, together with that session and its game state; everybody else stays as they were |
| ServiceGuarantees.ResumeOrSweep | src/session_manager.cpp:114-282 | at any moment an offline session is swept exactly when the resume by a connection without a session is refused, except that a room of more than 65535 members also refuses the resume |
| RoomCapacity.LastJoinStartsIff | src/room_manager.cpp:92-119 | the join that fills a room is accepted and starts it exactly when its capacity is at most 101; otherwise only a player id is used up |
| RoomCapacity.EventKeepsBigWaiting | src/room_service.cpp:158-724 | every event but the load of a checkpoint with a started big room keeps all rooms for more than 101 players waiting |
| RoomCapacity.BigRoomsNeverStart | src/room_service.cpp:291-302 | in a line of servers that load only their own checkpoints, no run starts a room for more than 101 players |
| RoomCapacity.LoadedBigWaitingIff | src/room.cpp:383-486 | a checkpoint that is taken brings in a started big room exactly when it holds one |
| RoomCapacity.FilledRoomStartsIff | src/room_service.cpp:245-308 | for every capacity up to 65537, as far as joins are answered, a run leads to one player short of full; the next join starts the room up to 101 and is rolled back from 102 on |
| RoomCapacity.NeitherResumedNorSwept | src/room_service.cpp:311-344 | a run of 65536 joins and one close leads to an offline session before its deadline that is neither resumed nor swept |
| ServiceGuarantees.RefusedResumeChangesNothing | src/room_service.cpp:329-342 | undoing a resume restores room and session tables exactly |
| ServiceGuarantees.RefusedJoinCostsOneId | src/room_service.cpp:273-290 | undoing a seat restores the room except for the id |
| Checksum.Checksum | src/checkpoint_codec.cpp:174-184 | the loop computes the FNV-1a fold (section 2 of draft-eastlake-fnv) |
| Checksum.MultiplyInjective | src/checkpoint_codec.cpp:181-181 | multiplying by the prime modulo 2^64 is injective |
| Checksum.MixInjective | src/checkpoint_codec.cpp:179-181 | one step is injective in the hash and in the byte |
| Checksum.OneByteChange | src/checkpoint_codec.cpp:174-184 | changing any one byte changes the checksum |
| CheckpointCodec.ValidCheckpointKeys | src/checkpoint_codec.cpp:30-67 | passes exactly the checkpoints without repeated room, token or identity and with well-formed tokens |
| CheckpointCodec.Encode | src/checkpoint_codec.cpp:266-350 | writes the format, or fails with the source's status in each case |
| CheckpointCodec.EncodePayload | src/checkpoint_codec.cpp:282-331 | appending under the limit succeeds exactly when the payload fits |
| CheckpointCodec.Decode | src/checkpoint_codec.cpp:353-504 | with all its guards it accepts what the unguarded parser accepts, and with the same verdict |
| CheckpointCodec.MemberGuard | src/checkpoint_codec.cpp:419-426 | the member count guard never refuses a body that parses |
| CheckpointCodec.PlayerGuard | src/checkpoint_codec.cpp:443-446 | the game state count guard never refuses what parses |
| CheckpointCodec.RoomGuard | src/checkpoint_codec.cpp:399-402 | the room count guard never refuses what parses |
| CheckpointCodec.SessionGuard | src/checkpoint_codec.cpp:465-468 | the session count guard never refuses what parses |
| CheckpointFormat.DecodeUndoesEncode | src/checkpoint_codec.cpp:266-504 | decoding an encoding gives the checkpoint back |
| CheckpointFormat.EncodeUndoesDecode | src/checkpoint_codec.cpp:266-504 | every accepted byte string is exactly the encoding of what it decodes to |
| CheckpointFormat.CutOrExtendedIsRefused | src/checkpoint_codec.cpp:353-397 | every proper prefix or extension of an encoding is refused |
| CheckpointFormat.CorruptedByteIsNoticed | src/checkpoint_codec.cpp:393-397 | one changed payload byte always gives a checksum mismatch |
| CheckpointFormat.SignedRoundTrip | src/checkpoint_codec.cpp:160-172 | the bit pattern of a signed integer and back |
| CheckpointStores.NextKeeps | src/checkpoint_store.cpp:192-353 | every step of either thread keeps the invariant: growing generations, the slot holding the newest, what is in flight older, the file whole, sleepers with nothing to do |
| CheckpointStores.RunKeeps | src/checkpoint_store.cpp:84-353 | so does every interleaving |
| CheckpointStores.TrueMeansOnDisk | src/checkpoint_store.cpp:209-249 | true from flush or stop after a submission means the file is exactly the last submitted checkpoint |
| CheckpointStores.FalseMeansFailed | src/checkpoint_store.cpp:209-249 | false means the last submission was tried and failed |
| CheckpointStores.AnswersComeWhenIdle | src/checkpoint_store.cpp:216-245 | flush returns and stop joins only with an empty slot and nothing in flight |
| CheckpointStores.CrashLeavesAWholeFile | src/checkpoint_store.cpp:316-353 | wherever the process dies the file is untouched or a whole submitted checkpoint |
| CheckpointFiles.FileOnlyAdvancesIff | src/checkpoint_store.cpp:171-353 | before a stopped store is started: no run ever lowers the generation in the file exactly when that is at most one above the last number the store knows |
| CheckpointFiles.LoadedOrAbsentIsEnough | src/checkpoint_store.cpp:85-168 | which holds after a load, and when there is no file |
| CheckpointFiles.UnloadedFileGoesBack | src/checkpoint_store.cpp:171-206 | without a load a run puts generation 1 in place of generation 9 |
| CheckpointFiles.AheadStaysAhead | src/checkpoint_store.cpp:192-353 | every step of a store that is ahead of its file keeps it so and never lowers the generation in the file |
| CheckpointFiles.NewestInPlaceIff | src/checkpoint_store.cpp:316-353 | at rest the file is the newest submission exactly when that is committed, or its directory sync failed, or nothing was put in place and the file had those bytes from the beginning |
| CheckpointFiles.NewestInPlaceIffPlaced | src/checkpoint_store.cpp:316-353 | once something has been put in place or there was no file, exactly when committed or the directory sync failed |
| CheckpointFiles.FlushDoubtsANewFile | src/checkpoint_store.cpp:209-221 | for every checkpoint that fits, a run ends with flush answering false while the file is that checkpoint |
| CheckpointFiles.LoadForgetsIff | src/checkpoint_store.cpp:85-168 | after a load the last number is smaller than before exactly when the newest submission is neither committed nor in place with its directory unsynced |
| CheckpointFiles.NumberIsUsedTwice | src/checkpoint_store.cpp:85-206 | a run in which number 2 fails, the store is stopped, loaded and started, and number 2 is accepted again |
| CheckpointStores.WriterMakesProgress | src/checkpoint_store.cpp:270-353 | every step of the writer leaves less to do, whatever the system calls answer |
| CheckpointStores.BlockedControllerIsServed | src/checkpoint_store.cpp:209-238 | a controller blocked in flush or stop always has a writer that can step, or is about to be released |
| PersistenceServices.RunAllKeeps | src/persistence_service.cpp:26-157 | every run keeps the next number above everything submitted |
| PersistenceServices.SaveIsNeverRefused | src/persistence_service.cpp:103-124 | the store never refuses a save for its number |
| PersistenceServices.GreatestNumberIsNeverUsed | src/persistence_service.cpp:62-112 | the greatest u64 is neither submitted nor on disk |
| PersistenceServices.CleanStopIsRestorable | src/persistence_service.cpp:128-157 | a stop that answers true leaves a file that decodes to the state at stop, and loading it restores that state |
| PersistenceServices.FileNeverGoesBack | src/persistence_service.cpp:26-157 | over every run of a new persistence service the generation in the file never decreases |
| PersistenceServices.EveryRunIsSafe | src/persistence_service.cpp:7-157 | after every run of a new persistence service: saves are not refused for their number, the next number is above all others, the greatest unused, the file whole |
| PersistenceServices.EveryCleanStopIsRestorable | src/persistence_service.cpp:128-157 | so is every stop of such a run that answers true: its file gives the server back |
| Restarts.FileStaysFair | src/persistence_service.cpp:26-157 | over a fair file or none, in every state of every run nobody is below zero and what the file decodes to is fair |
| Restarts.CleanStopComesBack | src/persistence_service.cpp:128-157 | and every stop that answers true leaves a file that gives the same server back, without condition |
| Restarts.WrittenFileIsFair | src/room_service.cpp:672-698 | a file a line of servers has written is fair, and so is an empty server |
| PersistenceServices.LoadIsAllOrNothing | src/persistence_service.cpp:26-76 | a load either restores the file's state and takes the next number, or leaves the service alone and says why |
| ConnectionDebt.NextKeeps | src/connection.cpp:212-318 | every step of any thread keeps the counter an exact ledger within the hard limit |
| ConnectionDebt.OverReleaseIsUnreachable | src/connection.cpp:233-252 | the over-release branch is never taken and the counter never exceeds 1 MiB |
| ConnectionDebt.RefusalIsHonest | src/connection.cpp:212-230 | a refused reservation had no room at some moment of the call, an accepted one had it at that step |
| ConnectionDebt.NothingOwedAfterClose | src/connection.cpp:290-301 | once closed with all tasks run the counter is zero |
| ConnectionDebt.OutputIsAPrefix | src/connection.cpp:290-452 | the socket has been given a prefix of the sends in the order they ran, and while open the buffer holds the rest |
| EventLoops.NextKeeps | src/event_loop.cpp:37-121 | every step keeps order, edges, pending wake-ups and the quit wake-up |
| EventLoops.NoLostWakeup | src/event_loop.cpp:37-121 | a waiting loop with tasks or a quit, and nobody between push and wake-up, is woken |
| EventLoops.TasksRunInOrder | src/event_loop.cpp:96-121 | executed, batch and pending are the queued sequence, each task once and in order |
| EventLoops.WokenLoopTakesThePending | src/event_loop.cpp:228-276 | a woken loop that nobody disturbs reaches its swap and takes exactly what was pending |
| EventLoops.NextSwapTakesThePending | src/event_loop.cpp:228-276 | whoever steps between a wake-up and the next swap, that swap takes all that was pending, in order, and empties the queue |
| TcpServers.NextKeeps | src/tcp_server.cpp:142-272 | every step of either loop keeps table, descriptors and task order in agreement |
| TcpServers.CloseHandshake | src/tcp_server.cpp:223-272 | one notice at most, the table holds a connection exactly until then, and its descriptor is closed only afterwards |
| TcpServers.AcceptMeetsNoOldEntry | src/tcp_server.cpp:190-194 | accept never meets a descriptor still in the table |
| TcpServers.NoFrameAfterNotice | src/connection.cpp:137-183 | no frame is posted behind its connection's removal unless a reply failed mid-decode |
| TcpServers.TornConnectionCanBeLate | src/connection.cpp:303-307 | and then it can be |
| LateFrames.LateIsPostedAfterClose | src/connection.cpp:137-183 | in every reachable state the frames handled late and those that will be are as many as were posted after their connection stopped being alive |
| LateFrames.LateIffPostedAfterClose | src/connection.cpp:137-183 | from every reachable state, when the base queue has been worked off, a connection has late frames exactly when it posted some after it stopped being alive, and then a reply failed mid-decode |
| Arrivals.InOrderIffNothingLate | src/tcp_server.cpp:142-272 | whatever the interleaving, the base loop reports opening, frames and close of each connection in this order exactly as long as no frame is handled late |
| Arrivals.TornFreeIsInOrder | src/connection.cpp:137-183 | in particular when no reply has failed mid-decode |
| Arrivals.HeardIsPossible | src/room_service.cpp:141-182 | then every event the room service is given is one its theorems allow for |
| Arrivals.LateJoinIsForGood | src/room_service.cpp:245-308 | a join handled after its connection's notice leaves a session that until the next load stays online, cannot be resumed and is never swept |

## Left out

- src/http.cpp, src/router.cpp, src/logger.cpp, www/, benchmarks/: not used by the room server, or pure input and output.
- src/thread_pool.cpp, src/event_loop_thread.cpp, src/event_loop_thread_pool.cpp, src/tick_timer.cpp, src/shutdown_signal.cpp: lifecycle wrappers.
- src/protocol.cpp beyond the limits the handlers rely on (name size, at most 65535 listed members): fixed layouts with no inverse on the server side.
- The read loop of a load and the `fcntl` failures of accept: a file is read whole or not at all, and a descriptor that cannot be configured is closed again at once.
- Replies, broadcasts, chat and back-pressure: they do not change rooms or sessions; who is notified is not modelled.
- Null-pointer, empty-functor and wrong-thread guards, and the error-code tables: single-branch facts.
- Allocation failure and the `catch` blocks around it: allocation is taken to succeed.
- The server's and the event loop's destructors, and `callbacks_` of the event loop: only the task queue and its wake-up are modelled.
- A TCP server without I/O threads: the pool then hands out the base loop (src/event_loop_thread_pool.cpp:63-66) and tasks between the loops run at once; in the model the I/O loop and the base loop are different.
- Several threads in place: the store, the connection, the event loop and the TCP server are state machines over values, so mutexes and atomics appear as the atomicity of steps and not as objects.
- Connection addresses in the TCP model are never reused, although the allocator may reuse one after the object is gone.
- The weak pointer of a session is an optional connection, which is exact under the first assumption about connections.
- `std::sort` is insertion into a sorted list; only its result matters.
- `Roomstatemachine` is the `Phase` of a room, its transitions the branches of `Start` and `Finish`.
- The guard of a capacity against `size_t` when rooms are restored: on 64-bit targets it never fires.
- Clock arithmetic is unbounded: the overflow of a time point plus the timeout is not modelled.
- The branches of the service that its invariant rules out (a bound connection without a session, a room that refuses to detach after a lookup) end in a proof that they are dead, not in the source's early returns.
- External removal of the checkpoint file between two loads: after a failed restore the store would remember a generation that a fresh start does not.
