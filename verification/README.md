# Netcode of the multiplayer Bomberman, in Dafny

The repository is a Bomberman game with a dedicated server. The server owns the round: it reads each client's
buttons from a lossy input channel, moves players on a tile grid, lets bombs go off, and reports what happened over
a reliable channel and over snapshots. The client predicts its own player ahead of the server and replays its
unacknowledged inputs whenever a correction arrives. Around the rounds a session flow admits players, counts down a
lobby, bootstraps a match, collects load acknowledgements and ends the match with a result.

This project models those parts and proves what they promise each other. Code that changes state in place is a class
or a method over arrays (`Input.MatchPlayerInput`, `PredictionRings.ClientPrediction`, `MatchWorld.MatchWorld`,
`FlowServer.ServerState`, `ClientPackets.NetClient`, the A* search, the serializers), each proved equal to a function
on values. The theorems are lemmas about whole runs of those functions.

| module | what it holds |
|---|---|
| Tiles, Movement, Blast | the arena, the movement step with collision, the footprint of a detonation against line of sight |
| Ring, Input, InputAgreement | the client's batches, the server's 32-slot input ring, agreement over an adversarial network |
| Prediction, PredictionRings, PredictionRuns | prediction as an unbounded fold, its two 128-slot rings, whole runs of it |
| Netcode, SeatStreams | client, network and server together: prediction is exact where it can be; every seat of a round is such a stream |
| World, ExplosionOrder, Detonations, WorldRuns, Rounds, Effects, Collecting, MatchWorld | the round world, order-independence of explosions and what they do on the grid, round invariants, effects and collections, the in-place server code |
| BrickStream, LostBrick | the client's tile map rebuilt from the event stream, its stale-event guard, and a round on which the guard loses a brick |
| Flow, FlowInv, FlowProgress, FlowResults, FlowBounds, FlowLinks, FlowServer, ClientFlow, ClientViews | sessions, lobby and match flow with failing sends, what every event leads to, results, deadlines, the clients' views, the in-place code |
| WholeServer, ServerRuns | flow and round world as one machine, and what its broadcasts promise at every moment |
| ClientPackets | the receiving client on raw packets: handshake, match caches, event queue, and the way from the server's queue to its state |
| Bytes, WireExplosion, WireSnapshot, WireEvents, WireControl, Snapshot | wire formats, round trips, and every message of every run on the wire |
| Pathfinding | the A* search of the enemies |
| Config, Utils, Sorting, Wrappers | shared constants, minimum, maximum and distinctness, a sort by key, an option type |

Ticks, sequence numbers and match ids are natural numbers; the code states its own assumption of no wrap-around
(Server/ServerState.h:45-46). Random draws are arbitrary choices. A send either queues its message or fails, as an
arbitrary function of the peer and the attempt decides; what is queued on the control channel arrives in order.

## Where the code and its own words differ

- Simultaneous explosions: the client's stale-event guard (MultiplayerLevelScene.Authority.cpp:192-206) compares with
  `<=` and is raised by both kinds of event (MultiplayerLevelScene.WorldPresentation.cpp:259 and 306). An explosion
  that follows another gameplay event of its own tick is dropped, with the bricks it broke.
  `LostBrick.SameTickExplosionIsLost` is a possible round on which it happens; `BrickStream.GatedClientMatchesIff` is
  the exact condition.
- Sim/Movement.h:102 promises a position that never overlaps a solid tile. The four corners divide toward zero, so
  just left of or above an open edge they miss the outside. `Movement.CornerTestIsExactIffClosed` is the exact
  condition; every map of a round meets it.
- Server/ServerSimulation.cpp:51-57 realigns the consume timeline for a late first input. The commit has always armed
  the timeline by then (Server/ServerLobbyFlow.cpp:247-255), so `InputAgreement.OneSequencePerDeadline` shows the
  branch is never taken in a match.
- Const.h:47-95 lists eleven rows for a map of thirteen; the last two are zero-initialised, which is Stone, and the
  model follows that.

## Model

| member | source | states |
|---|---|---|
| WholeServer.EveryHistoryHolds | Server/ServerSimulation.cpp:273-305 | over every history of connections, Hellos, acknowledgements, inputs, disconnects and ticks, with every send free to fail and every order of simultaneous explosions: the session and flow invariant holds, the round world is the end of a possible round, and the two agree on phase, tick and every seat |
| WholeServer.WorldOfAMatch | Server/ServerSimulation.cpp:240-305 | while a match is on at least two players are alive in the world; the locked opening and the end of a match hold no bomb and nobody who can act; match state exists for exactly the accepted ids |
| WholeServer.MatchTickMovesSeats | Server/ServerSimulation.cpp:282-298 | over a whole gameplay tick a seat changes only by its player dying and being locked |
| ServerRuns.EventsOfAMatch | Server/ServerBombs.cpp:26-52 | at every moment of every history of the whole server the events of the match are valid on the wire and rebuild its map, and a client that was sent any part of them shows the map if and only if every explosion that broke a brick reached it as the first event of its tick |
| ServerRuns.SnapshotOfAMatch | Server/ServerSnapshot.cpp:31-131 | at every moment of every history of the whole server the snapshot decodes to itself and shows every player, bomb and revealed powerup of the world, field by field, and nothing else |
| ServerRuns.EffectsOfAMatch | Server/ServerPowerups.cpp:27-32 | at every moment of every history of the whole server no effect has more than its full duration left |
| SeatStreams.EverySeatIsAStream | Server/ServerSimulation.cpp:175-202 | every seat of every possible round, its client pressing and the network delivering it only batches that client built: the events it sees are a possible input stream, the player stands where the stream stands, and its input state is the stream's, with the buttons dropped once it is dead |
| SeatStreams.EveryDriveIsATick | Server/ServerSimulation.cpp:187-200 | every consumed sequence was simulated by one tick of the round, on the map and at the speed of that tick |
| SeatStreams.SeatUsesItsOwnInputs | Server/ServerSimulation.cpp:59-91 | a player in a round stands at the fold of the inputs it acknowledged, and every covered one was its own client's button |
| SeatStreams.CorrectionIsThePlayer | Server/ServerSimulation.cpp:25-35 | the corrections of the joint client and server runs are those the round would send: sequence and position of the seat's own player |
| Netcode.PredictionIsExact | Net/Client/ClientPrediction.cpp:109-177 | end to end: take a correction from any earlier moment, newer than the last acknowledgement and not older than the 128 newest inputs; if the kept inputs join that acknowledgement, the server missed no input since and both sides saw the same maps and speed, the client still holds a prediction for it, the correction equals it and applying it changes nothing the player sees |
| Netcode.JoinIsExact | Net/Client/ClientPrediction.cpp:45-89 | over every joint run, the kept inputs begin right after the acknowledged one if and only if the acknowledgement was not ahead of what the client had recorded or, with nothing recorded since a restart, the first recorded input is the next one |
| Netcode.CorrectionsAreFolds | Server/ServerSimulation.cpp:25-35 | every correction states the fold of the movement step over exactly the inputs it acknowledges |
| Netcode.JointInvHolds | Net/Client/ClientPrediction.cpp:45-89 | over every joint run the client's unacknowledged inputs are the newest of its own log and its active baseline is the server's position after the acknowledged input |
| Input.InputSender.SendInput | Net/Client/NetClient.Runtime.cpp:250-311 | logs one button and builds the batch of the newest sixteen |
| Input.InputSender.BuildBatch | Net/Client/NetClient.Runtime.cpp:265-279 | the sixteen-slot ring yields exactly the newest entries of the log |
| Input.InputSender.ResetLocalInputStream | Net/Client/NetClient.Connection.cpp:144-153 | a new match restarts the stream at sequence one |
| Input.NewestBatchEchoes | Net/Client/NetClient.Runtime.cpp:265-279 | a batch repeats the client's own log and carries exactly its newest sixteen sequences |
| Input.MatchPlayerInput.OnInput | Server/ServerInputHandlers.cpp:235-268 | receiving a batch is the map update of the specification; a batch wholly in the past changes nothing |
| Input.MatchPlayerInput.BufferInputBatch | Server/ServerInputHandlers.cpp:113-169 | the 32-slot ring, entry by entry, refines a finite map from sequence to buttons |
| Input.BatchInClosedForm | Server/ServerInputHandlers.cpp:120-166 | a batch overwrites exactly its sequences inside the window (processed, processed + 31] and loses no other pending input |
| Input.RingPut | Server/ServerInputHandlers.cpp:151-160 | writing a window sequence into its slot is a map update: no different sequence is overwritten |
| Input.RingAdvance | Server/ServerSimulation.cpp:61-89 | a gap finds its slot empty, and moving on removes exactly the next sequence from the map |
| Input.MatchPlayerInput.ResolveInputForTick | Server/ServerSimulation.cpp:38-111 | at its deadline the next sequence is consumed, with its own buttons or the previous ones, and never twice |
| InputAgreement.InputsAgree | Server/ServerSimulation.cpp:59-91 | for every loss, repetition and reordering of batches the server simulated the client's own button for s exactly when some batch carrying s arrived inside the window, else a repeat of s - 1, else none |
| InputAgreement.AuthorityIsAFold | Server/ServerSimulation.cpp:187-200 | the authoritative position is the fold of the collision step over the buttons consumed for sequences 1 to the acknowledged one |
| InputAgreement.ServeEvent | Server/ServerSimulation.cpp:175-202 | the server's ring and position, driven by any next event of a possible stream (a batch, the commit, a tick played or sat out), stay those of the stream |
| InputAgreement.OneSequencePerDeadline | Server/ServerSimulation.cpp:42-66 | an active tick consumes exactly one sequence once an input was received and its deadline passed, and moves nobody otherwise; the timeline is always armed by then |
| InputAgreement.AnyOfSixteenBatchesSuffices | Net/Client/NetClient.Runtime.cpp:265-279 | any one of the sixteen batches carrying s, arriving inside the window, is enough |
| InputAgreement.NoGapsMeansOwnInputs | Server/ServerSimulation.cpp:59-91 | a span whose sequences all arrived in time is simulated with exactly the client's inputs |
| PredictionRings.ClientPrediction.ApplyLocalInput | Net/Client/ClientPrediction.cpp:45-89 | recording an input on two 128-slot rings refines the unbounded specification; out-of-order sequences are rejected |
| PredictionRings.ClientPrediction.ReconcileAndReplay | Net/Client/ClientPrediction.cpp:109-177 | a correction in any of the three phases refines the unbounded specification and reports exactly what it says |
| PredictionRings.ClientPrediction.ReplayFromAuthoritativeBaseline | Net/Client/ClientPrediction.cpp:222-245 | a replay succeeds exactly when every input after the acknowledgement is retained |
| PredictionRings.ClientPrediction.CountRetainedInputSuffixAfter | Net/Client/ClientPrediction.cpp:422-431 | counts the retained inputs newer than a sequence |
| PredictionRings.ClientPrediction.MeasureCorrectionAtAck | Net/Client/ClientPrediction.cpp:337-364 | measures a correction against the prediction retained at its sequence, if there is one |
| PredictionRings.ClientPrediction.Suspend | Net/Client/ClientPrediction.cpp:31-39 | suspension forgets the history and waits for a baseline |
| Ring.Store | Net/Client/ClientPrediction.cpp:376-390 | storing the next sequence keeps one contiguous run of the newest at most 128 |
| Ring.CountNewer | Net/Client/ClientPrediction.cpp:422-431 | the slots newer than k are as many as the run holds |
| PredictionRuns.EveryRunHolds | Net/Client/ClientPrediction.cpp:45-177 | over every run of inputs, corrections and restarts, the kept inputs are a suffix of the outstanding ones, contiguous and ending at the last recorded |
| PredictionRuns.PresentedIsTheFold | Net/Client/ClientPrediction.cpp:433-463 | on an unchanged map the presented state while active is the last accepted baseline advanced by every outstanding accepted input |
| PredictionRuns.ReplayIsAllOrNothing | Net/Client/ClientPrediction.cpp:404-463 | a replay after k fails exactly when more than 128 inputs are outstanding or k + 1 precedes the first recorded; a failure replays nothing and reports exactly the missing count |
| PredictionRuns.RecoveryResolvesOnceCaughtUp | Net/Client/ClientPrediction.cpp:279-313 | recovery ends with the first accepted correction that reaches the catch-up sequence |
| PredictionRuns.MatchingCorrectionChangesNothing | Net/Client/ClientPrediction.cpp:315-335 | a correction that matches the retained position and flags leaves the presented state unchanged |
| PredictionRuns.PredictionMatchesAuthority | Net/Client/ClientPrediction.cpp:487-503 | equal buttons, maps and speed give the server's position at the acknowledged input |
| Prediction.FoldSuffix | Net/Client/ClientPrediction.cpp:433-463 | replaying a suffix from an intermediate state is the same as replaying everything |
| ExplosionOrder.OrderDoesNotMatter | Server/ServerBombs.cpp:510-570 | two resolution orders of the same due bombs end in the same tiles, players, powerups, bombs and counts |
| ExplosionOrder.ExplodeAllIsClosed | Server/ServerBombs.cpp:295-366 | after any set of bombs went off, in any order, the world is one closed form over the union of their blasts on the pre-explosion map |
| ExplosionOrder.ClosedFormIsUnique | Server/ServerBombs.cpp:295-366 | the closed form leaves nothing open but the order of the messages |
| Detonations.ExplosionsOnTheGrid | Server/ServerBombs.cpp:510-570 | the explosions of a tick by columns, rows and hitboxes, for every order: bombs whose fuse is up are gone, the bricks of their footprints are grass, the powerups under those are revealed, the unprotected players whose hitbox reaches a footprint cell are dead, locked and without buttons, expired bombs return to their owners; nothing else changes |
| Detonations.EveryDetonationTells | Server/ServerBombs.cpp:295-366 | every detonation is reported once, in order, with its bomb, its footprint, exactly the bricks it turned to grass and exactly the players alive before it and dead after it |
| Blast.BlastIsLineOfSight | Server/ServerBombs.cpp:180-210 | a cell burns exactly if it is the origin or in sight along one of four directions within the radius |
| Blast.BlastIsTheFootprint | Server/ServerBombs.cpp:162-212 | a cell burns if and only if it is the bomb's own, or in its row or column at distance one to the radius, on the map and not stone, with every cell strictly between on the map and neither stone nor brick |
| Blast.BrokenOnTheGrid | Server/ServerBombs.cpp:204-209 | the destroyed bricks are exactly the bricks of that footprint, the bomb's own cell aside |
| Blast.BrokenBricksAreTheBurnedOnes | Server/ServerBombs.cpp:204-209 | the destroyed bricks are exactly the burned bricks other than the origin |
| Blast.BlastIsWellFormed | Server/ServerBombs.cpp:147-211 | no cell is listed twice, the origin comes first, and neither buffer bound is ever reached |
| Blast.ComputeBlastCellsAndCollectDestroyedBricks | Server/ServerBombs.cpp:162-212 | the four ray loops produce the specified footprint and bricks in order |
| Blast.AppendUniqueBlastCell | Server/ServerBombs.cpp:147-159 | appends a cell exactly if it is new and there is room |
| MatchWorld.MatchWorld.ResolveBombExplosion | Server/ServerBombs.cpp:295-366 | one detonation, in place, is the specified step, its message included |
| MatchWorld.MatchWorld.RetainCurrentlyIntactBricks | Server/ServerBombs.cpp:214-229 | keeps the bricks no earlier explosion of the tick has broken |
| MatchWorld.MatchWorld.ApplyDestroyedBricks | Server/ServerBombs.cpp:231-240 | turns the listed cells into grass and touches nothing else |
| MatchWorld.MatchWorld.KillPlayersInBlast | Server/ServerBombs.cpp:242-293 | kills exactly the living, unprotected players whose hitbox overlaps a blast cell |
| MatchWorld.MatchWorld.ReleaseBombOwnership | Server/ServerBombs.cpp:138-145 | gives the bomb back to its owner if that player is still present |
| MatchWorld.MatchWorld.ResolveExplodingBombs | Server/ServerBombs.cpp:510-570 | detonates exactly the due bombs, each once, in row, column, owner, index order, all traced on the map before the first |
| MatchWorld.KeyOrderIsResolutionOrder | Server/ServerBombs.cpp:543-555 | the sort key orders bombs exactly as the comparison does |
| MatchWorld.MatchWorld.TryPlaceBomb | Server/ServerBombs.cpp:397-508 | a fresh press becomes a bomb exactly when no rejection applies |
| MatchWorld.MatchWorld.IsBombCellUnoccupied | Server/ServerBombs.cpp:83-95 | true exactly if no live bomb is on the cell |
| MatchWorld.MatchWorld.FindFreeBombSlot | Server/ServerBombs.cpp:98-107 | the first empty slot, or none |
| MatchWorld.MatchWorld.ClearBombsAndReleaseOwnership | Server/ServerBombs.cpp:369-395 | no bomb and no held count remain |
| MatchWorld.MatchWorld.LeaveRound | Server/ServerMatchFlow.cpp:107-118 | the end of a round clears the bombs and locks everybody |
| MatchWorld.MatchWorld.SimulateAcceptedMatchPlayer | Server/ServerSimulation.cpp:175-202 | one player's tick, in place, is the specified step |
| MatchWorld.MatchWorld.SimulateServerTick | Server/ServerSimulation.cpp:282-297 | a gameplay tick of a match, in place, is players in id order, then the due bombs, then powerups |
| MatchWorld.MatchWorld.RevealPowerupsUnderDestroyedBricks | Server/ServerPowerups.cpp:170-195 | reveals exactly the hidden powerups under the listed bricks |
| MatchWorld.MatchWorld.CollectRevealedPowerups | Server/ServerPowerups.cpp:197-294 | each powerup revealed before this tick goes to the lowest id standing on it |
| MatchWorld.MatchWorld.FindCollector | Server/ServerPowerups.cpp:213-233 | the lowest living, unlocked player whose centre is on the cell |
| MatchWorld.MatchWorld.PlaceRoundPowerups | Server/ServerPowerups.cpp:123-168 | for every shuffle: all four powerups under distinct bricks, or none when powers are off or bricks are too few |
| MatchWorld.ShuffledBricks | Server/ServerPowerups.cpp:133-151 | whatever the shuffle, the candidates stay distinct bricks |
| WorldRuns.MatchTickKeepsInv | Server/ServerSimulation.cpp:273-305 | one gameplay tick keeps the whole-world invariant, for every resolution order |
| WorldRuns.PlaceBombKeepsInv | Server/ServerBombs.cpp:451-462 | a placement keeps every count equal to the bombs owned, two at most, and no two bombs on a cell |
| WorldRuns.ExplosionsKeepInv | Server/ServerBombs.cpp:510-570 | after the explosions every remaining bomb still has time on its fuse, and the bomb, count, player and powerup invariants stand |
| Rounds.EveryRoundHolds | Server/ServerSimulation.cpp:175-305 | every state of every round: no player in a wall, counts equal bombs owned, no id with more than two bombs, one bomb a cell, placed <= now < explode = placed + 90, a powerup hidden exactly while its cell is brick |
| Rounds.AtMostEightBombs | Server/ServerSnapshot.cpp:78-86 | at most eight bombs are ever live |
| Rounds.AFreeSlotExists | Server/ServerBombs.cpp:451-458 | the bomb table is never exhausted |
| Rounds.WhatDecidesAPlacement | Server/ServerBombs.cpp:397-458 | the off-map, solid-tile and table-full rejections are unreachable; edge, state, bomb cap and occupied cell decide |
| Rounds.QuietTick | Server/ServerSimulation.cpp:175-186 | a locked, bomb-free tick moves nobody and changes nothing but the clock and input bookkeeping |
| Effects.EveryEffectIsBounded | Server/ServerPowerups.cpp:27-32 | in every state of every round no effect has more than its full duration left |
| Effects.CollectionGivesItsEffect | Server/ServerPowerups.cpp:197-294 | a collection gives exactly its kind of effect, for exactly one duration, to the lowest id on the cell, never on the tick of the reveal, and leaves everything else alone |
| Collecting.CollectionOutright | Server/ServerPowerups.cpp:197-294 | the whole collection: a slot is emptied if and only if it was revealed before this tick and a living, unlocked player's centre is on its cell; the lowest such id has that effect for 600 ticks from now; every other slot, effect and player is as before |
| Collecting.PowerupsOfATick | Server/ServerSimulation.cpp:282-298 | powerups over a whole gameplay tick: one that lay open is picked up exactly if after the moves and explosions somebody free stands on it, a hidden one is bared exactly if its brick was shattered, and every effect that was not picked up keeps its end |
| Effects.FreePlayersTurn | Server/ServerSimulation.cpp:175-202 | a free player's turn outright: a bomb exactly when newly pressed, on a free cell and under the cap its effects grant at that tick, where the player stood before moving, with the range they grant, ninety ticks of fuse and its announcement; then one move by the same buttons; nothing else changes |
| Effects.InvincibleSurvives | Server/ServerBombs.cpp:255-263 | no explosion kills an invincible player |
| BrickStream.StreamRebuildsTheWorld | Scenes/MultiplayerLevelScene/MultiplayerLevelScene.Authority.cpp:208-220 | at every point of every round, applying every reported brick to the generated map gives the server's map |
| BrickStream.EveryStreamHolds | Server/ServerBombs.cpp:308-318 | a brick is gone exactly when the stream reported it, each is reported once, ticks never decrease, and every event is well formed |
| BrickStream.GatedClientMatchesIff | Scenes/MultiplayerLevelScene/MultiplayerLevelScene.Authority.cpp:92-112 | whichever of the messages the server managed to queue to a client, that client with its stale-event guard shows the server's map if and only if every explosion that broke a brick was queued to it and was the first gameplay event of its tick to be |
| LostBrick.SameTickExplosionIsLost | Scenes/MultiplayerLevelScene/MultiplayerLevelScene.Authority.cpp:192-206 | a possible round, from its start over real button presses, in which every message is queued and the guard still drops the second of two explosions of a tick, so that the client keeps a brick the server has removed |
| BrickStream.GateInClosedForm | Scenes/MultiplayerLevelScene/MultiplayerLevelScene.WorldPresentation.cpp:251-307 | both kinds of event raise the guard tick, so exactly the explosions that open their tick pass |
| BrickStream.ApplyExplosionResolvedTiles | Scenes/MultiplayerLevelScene/MultiplayerLevelScene.Authority.cpp:208-220 | the client's loop turns exactly the listed bricks into grass, skipping cells off the map or without a brick |
| Movement.RunIsSafe | Sim/Movement.h:105-128 | over every run at either speed on maps that only lose bricks, no player is ever in a wall and no step tunnels |
| Movement.StepIsSafe | Sim/Movement.h:105-128 | one step from a clear position ends clear, and everything swept on the way is clear |
| Movement.StepGoesWhereTheButtonsSay | Sim/Movement.h:105-128 | where one step goes, by the bits of the buttons: right and left by the speed along x unless the hitbox would meet a wall there, then down and up along y from the x reached; both or neither of a pair leave the axis alone |
| Movement.WallIsOnTheGrid | Sim/Movement.h:39-75 | meeting a wall means that some cell the hitbox reaches into is off the map, stone or brick |
| Movement.CornerTestIsExactIffClosed | Sim/Movement.h:63-75 | the four-corner test is the geometric overlap at every position if and only if the first column and row hold no walkable cell |
| Movement.CornerTestIsExactOnArenas | Sim/Movement.h:63-75 | on every map of a round the four-corner test is the full hitbox overlap |
| Movement.OpenEdgeIsMissed | Sim/Movement.h:66-69 | a concrete position beside an open edge where division toward zero misses the outside |
| Movement.ClearIsInside | Server/ServerSimulation.cpp:32-33 | a clear player stands well inside the 16-bit range, over a walkable cell |
| Movement.SpawnIsClear | Sim/SpawnSlots.h:50-70 | every spawn position is clear on every map of a round |
| Movement.SpawnsAreTheCorners | Sim/SpawnSlots.h:50-70 | the four spawn positions |
| Tiles.GenerateTileMap | Sim/TileMapGen.h:31-49 | for every outcome of the draws only Grass becomes Brick and nothing else changes |
| Tiles.BaseIsTheTable | Const.h:47-95 | the layout rule gives the table cell by cell |
| Tiles.ClearingBricksKeepsArena | Const.h:47-95 | maps that only lose bricks stay maps of a round |
| Pathfinding.FindBestCell | Util/Pathfinding.cpp:57-172 | returns the error exactly when an input is rejected or no free path exists, otherwise the first cell of a shortest free path |
| Pathfinding.Search | Util/Pathfinding.cpp:80-171 | the search terminates despite stale open entries and is optimal |
| Pathfinding.GetFirstCell | Util/Pathfinding.cpp:38-55 | following parents from the goal gives the first cell of the recorded route |
| Pathfinding.StraightLineIsConsistent | Util/Pathfinding.cpp:31-35 | the straight-line distance, as any real-valued function satisfying its defining equation, is a consistent heuristic, zero at the goal and one beside it |
| Pathfinding.FirstEntryIsCheapest | Util/Pathfinding.cpp:116-123 | the first open entry of a settled cell has the length of a shortest path |
| Pathfinding.GoalTestIsShortest | Util/Pathfinding.cpp:135-142 | stopping at the first neighbour that is the goal is safe |
| Pathfinding.ExhaustedMeansUnreachable | Util/Pathfinding.cpp:114-171 | an empty open list means no free path exists |
| Pathfinding.StaleCellChangesNothing | Util/Pathfinding.cpp:144-164 | expanding a cell a second time changes no details |
| Pathfinding.ParentChain | Util/Pathfinding.cpp:45-52 | parent chains are acyclic, end at the source and are as long as the cost recorded |
| Pathfinding.AdjacentIsOneStep | Util/Pathfinding.cpp:126-133 | neighbours are exactly the cells one column or one row away |
| FlowInv.EveryRunHolds | Server/ServerLobbyFlow.cpp:271-489 | every reachable server state, whatever the events and failed sends: pool and bound ids partition the four ids, seats match bound ids, and in a round match state, match mask and accepted ids coincide |
| FlowProgress.EveryEventLeads | Server/ServerLobbyFlow.cpp:190-489 | what every event leads to in every reachable state and for every pattern of failed sends: the countdown starts exactly when a ready message makes all of at least two members ready and ends exactly at its deadline, a match loads if every level info is queued, begins with the last acknowledgement if every start is queued, goes on with two survivors and ends otherwise; admissions, disconnects, cancellations and returns to the lobby likewise |
| FlowProgress.CountdownStartsTheMatch | Server/ServerFlow.cpp:40-93 | a countdown left alone starts its match after exactly the ticks left |
| FlowProgress.MatchGoesOn | Server/ServerSimulation.cpp:240-305 | a match in which nobody dies goes on for ever and unlocks at its tick |
| FlowProgress.EndReturns | Server/ServerFlow.cpp:40-93 | the end of a match left alone returns to the lobby at exactly its return tick |
| FlowProgress.AMatchIsPlayed | Server/ServerLobbyFlow.cpp:286-430 | a run through every phase: connect, hello, ready, countdown, loading, match, unlock, one death, result, lobby |
| FlowProgress.EveryEndIsTold | Server/ServerMatchFlow.cpp:40-86 | over every run without failed sends, the end of a match sends every member one result, with the winner and its name |
| FlowProgress.LobbyShowsTheMembers | Server/ServerControlHandlers.cpp:239-276 | in every reachable state the lobby message shows exactly the members with their names, readiness and wins, and the seconds left rounded up |
| FlowInv.BootstrapRecheckNeverFails | Server/ServerLobbyFlow.cpp:329-406 | at the countdown deadline the ready conditions always still hold |
| FlowInv.EndIfDecidedHolds | Server/ServerSimulation.cpp:240-270 | after a tick or a disconnect a match in progress has at least two living players, or has ended |
| FlowInv.DisconnectHolds | Server/ServerSession.cpp:266-299 | a disconnect in any phase keeps the invariant |
| FlowInv.HelloHolds | Server/ServerControlHandlers.cpp:354-443 | a Hello in any phase, with any send lost, keeps the invariant |
| FlowInv.ReservedIsFree | Server/ServerControlHandlers.cpp:130-174 | the reserved id is free, and a reclaim record that carries the name always succeeds |
| FlowInv.RefusedOnlyWhenFull | Server/ServerControlHandlers.cpp:130-174 | a seat is refused exactly when all four are taken |
| FlowInv.ReleaseUndoesRemove | Server/ServerSession.cpp:165-183 | taking an id and giving it back leaves the pool as it was |
| FlowResults.EveryResultIsFair | Server/ServerSimulation.cpp:240-270 | over every run: a result is a win for the sole survivor or a draw when none survive, each match has one at most, in match order, and no win exists without its result |
| FlowResults.EveryWinIsEarned | Server/ServerMatchFlow.cpp:88-135 | in every reachable state and on every event: with a new result its winner's own seat gains exactly one win and every other id keeps what it had; without one every id keeps its wins |
| FlowResults.EndIfDecidedEnds | Server/ServerMatchFlow.cpp:88-135 | ending a round appends one fair result and credits at most one win |
| FlowResults.DisconnectConserves | Server/ServerSession.cpp:266-299 | a disconnect moves the wins of the seat to its reclaim record |
| FlowBounds.PhasesAreBounded | Server/ServerFlow.cpp:40-93 | no run stays in the countdown, the match start, the locked opening or the end of a match for as many ticks as that phase is long |
| FlowBounds.StepKeepsTimer | Server/ServerFlow.cpp:40-93 | a step that stays in a timed phase leaves its deadline alone |
| FlowLinks.EveryClientIsInStep | Net/Client/NetClient.Protocol.cpp:171-480 | over every run and every pattern of failed sends, a client that has drained its queue is connected under its own id and in step with the server's match, unless it had been rejected before |
| ClientViews.EveryClientShowsTheLobby | Net/Client/NetClient.Protocol.cpp:314-337 | over every run in which no send to a peer fails: while the server is in the lobby or counts down, that peer's connected client shows exactly the server's current lobby, its seconds included, and is in no match |
| ClientViews.EveryClientShowsTheResult | Net/Client/NetClient.Protocol.cpp:428-480 | over every run without failed sends: after a match the connected client of every accepted peer holds its result |
| FlowLinks.HandshakeNeverFailsOnOrder | Net/Client/NetClient.Runtime.cpp:60-72 | the first control message any peer sees is a Welcome or a Reject |
| FlowLinks.LevelInfoIsFresh | Net/Client/NetClient.Protocol.cpp:264-312 | a level info is newer than anything the client has, so it is never dropped as stale |
| FlowLinks.CancelReachesTheClient | Server/ServerLobbyFlow.cpp:190-197 | a client whose cancel message was not lost reports exactly that match as cancelled, whether or not the lobby state behind it arrives |
| FlowLinks.CountdownShowsOneToThree | Server/ServerLobbyFlow.cpp:54-66 | a broadcast countdown always has one to three seconds left |
| FlowLinks.MaskSends | Server/ServerLobbyFlow.cpp:120-150 | a send to a mask reaches every bound session of it once, in the closed form of the per-peer losses |
| ClientFlow.CancelStaysReported | Net/Client/NetClient.Protocol.cpp:387-426 | a cancellation stays reported through every lobby state, and the next level info ends it |
| ClientPackets.NetClient.HandleReceiveEvent | Net/Client/NetClient.Runtime.cpp:19-104 | any bytes on any channel, in place: the header check, the channel check, the handshake rules and the handler of the type are the specified reception, caches and input stream included |
| ClientPackets.EveryPacketRunHolds | Net/Client/NetClient.Protocol.cpp:264-652 | over every run of arbitrary packets, everything a client holds belongs to its active match: snapshot, correction, start, result and queued events; outside a match or a session it holds nothing |
| ClientPackets.ControlPacketIsReceived | Net/Client/NetClient.Runtime.cpp:19-104 | the packet of a control message is received as the match flow receives the message |
| ClientPackets.OtherChannelsLeaveTheFlow | Net/Client/NetClient.Runtime.cpp:40-72 | a packet on one of the gameplay channels never touches session or match flow |
| ClientPackets.ClientIsInStepOverTheWire | Net/Client/NetClient.Runtime.cpp:19-104 | from the server's queue through the bytes to the client: whatever gameplay packets are mixed in, an accepted client is connected under its own id and in step with the server, unless it had been rejected before |
| ClientPackets.EventsComeOutInOrder | Net/Client/NetClient.Protocol.cpp:632-652 | over every run the events the game loop took in a match are the first of those that reached the client, in order and each once; the stream is reported broken exactly if more than 128 were ever waiting |
| ClientPackets.NewestIsKept | Net/Client/NetClient.Protocol.cpp:482-563 | within a match the snapshot and the correction held are only ever replaced by newer ones |
| ClientPackets.NewerSnapshotIsTaken | Net/Client/NetClient.Protocol.cpp:482-521 | the packet of a valid snapshot is the one held afterwards if and only if it is of the active match and newer than the one held, or the first; otherwise nothing changes |
| ClientPackets.NewerCorrectionIsTaken | Net/Client/NetClient.Protocol.cpp:523-563 | the same for a correction |
| ClientPackets.NetClient.TryDequeueGameplayEvent | Net/Client/NetClient.Protocol.cpp:90-103 | takes the oldest waiting event of an intact stream, or nothing |
| ClientPackets.NetClient.ConsumePendingLevelInfo | Net/Client/NetClient.Protocol.cpp:78-88 | hands out the level info and the map seed of a new match once |
| ClientPackets.NetClient.SendInput | Net/Client/NetClient.Runtime.cpp:250-282 | a connected client logs the button and sends the newest batch of its current match; any other client sends nothing |
| FlowServer.ServerState.AcquirePlayerId | Server/ServerSession.cpp:134-146 | takes the lowest free id |
| FlowServer.ServerState.AcquireSpecificPlayerId | Server/ServerSession.cpp:148-163 | takes exactly the asked id, if it is free |
| FlowServer.ServerState.ReleasePlayerId | Server/ServerSession.cpp:165-183 | puts an id back in its sorted place, at most once |
| FlowServer.ReleaseIsSane | Server/ServerSession.cpp:165-183 | the pool never outgrows its array, and a full pool already holds every id |
| FlowServer.ServerState.FindPeerSessionByPlayerId | Server/ServerSession.cpp:216-228 | the first session bound to the id |
| FlowServer.ServerState.BuildLobby | Server/ServerControlHandlers.cpp:239-276 | the lobby seat by seat, in id order |
| FlowServer.ServerState.BroadcastLobby | Server/ServerControlHandlers.cpp:531-551 | every accepted session is sent the current lobby state |
| FlowServer.ServerState.CollectAcceptedReadyParticipants | Server/ServerLobbyFlow.cpp:88-118 | the accepted ids and whether all are ready; a seat without a slot fails both |
| FlowServer.ServerState.MaybeCommitMatchStart | Server/ServerLobbyFlow.cpp:199-264 | the match starts when all have loaded; one failed send takes it back |
| FlowServer.ServerState.BeginMatchBootstrapNow | Server/ServerLobbyFlow.cpp:329-406 | each participant's match state stands only if its level info was queued; one failure cancels |
| FlowServer.ServerState.HandleLobbyReadyStateChanged | Server/ServerLobbyFlow.cpp:286-317 | readiness starts, keeps or cancels the countdown |
| FlowServer.ServerState.HandleAcceptedPlayerReleased | Server/ServerLobbyFlow.cpp:432-490 | a disconnect unreadies the lobby, cancels a start, resets an empty round or ends a decided one |
| FlowServer.ServerState.CancelStartingMatch | Server/ServerLobbyFlow.cpp:190-197 | tells the participants, resets the round and returns to the lobby |
| FlowServer.ServerState.ResetRoundRuntimeToLobby | Server/ServerLobbyFlow.cpp:271-284 | leaves no round state behind |
| FlowServer.ServerState.MarkPlayerLoadedForCurrentMatch | Server/ServerLobbyFlow.cpp:408-430 | records one acknowledgement and commits with the last |
| FlowServer.ServerState.BeginEnd | Server/ServerMatchFlow.cpp:88-135 | records the result, credits the winner, locks everybody and tells them |
| FlowServer.ServerState.EvaluateRoundEnd | Server/ServerSimulation.cpp:240-270 | ends the round once at most one player is left |
| FlowServer.ServerState.OnHello | Server/ServerControlHandlers.cpp:354-443 | replays a Welcome, rejects, or reserves, welcomes and binds an id, giving it back if the Welcome fails |
| FlowServer.ServerState.ReserveHelloPlayerId | Server/ServerControlHandlers.cpp:130-174 | a matching reclaim record first, the lowest free id otherwise |
| FlowServer.ServerState.OnLobbyReady | Server/ServerControlHandlers.cpp:445-486 | a change of readiness outside the lobby, or no change, is ignored |
| FlowServer.ServerState.OnMatchLoaded | Server/ServerControlHandlers.cpp:488-529 | an acknowledgement counts only for the current match and a participant |
| FlowServer.ServerState.ReleasePeerSession | Server/ServerSession.cpp:266-299 | frees seat, match state and id, remembers name and wins, then applies the flow consequences |
| FlowServer.ServerState.AdvanceServerFlow | Server/ServerFlow.cpp:40-93 | deadlines and phase exits |
| FlowServer.ServerState.SimulateServerTick | Server/ServerSimulation.cpp:273-305 | the flow half of a tick: the clock, the deadlines, the deaths of the tick and the end of a decided round |
| FlowServer.ServerState.HandleServerEvent | Server/ServerEvents.cpp:85-104 | every event of the service loop, in place, is one step of the flow, for every pattern of failed sends |
| WireExplosion.ExplosionRoundTrip | Net/NetCommon.h:1664-1802 | an ExplosionResolved payload survives the wire unchanged exactly if it is well formed |
| WireExplosion.DeserializeMsgExplosionResolved | Net/NetCommon.h:1697-1802 | the two seen-cell tables accept exactly the well-formed payloads |
| WireExplosion.SerializeMsgExplosionResolved | Net/NetCommon.h:1664-1693 | writes the 497 bytes of the layout and nothing else |
| Bytes.LowestByteFirst | Net/NetCommon.h:804-826 | integers are written lowest byte first |
| WireSnapshot.SnapshotRoundTrip | Net/NetCommon.h:1401-1585 | a snapshot survives the wire unchanged exactly if it is well formed |
| WireSnapshot.DeserializeMsgSnapshot | Net/NetCommon.h:1444-1585 | comparing neighbours accepts exactly the strictly ascending entries |
| WireSnapshot.SerializeMsgSnapshot | Net/NetCommon.h:1401-1440 | writes the 111 bytes of the layout |
| WireControl.LobbyStateRoundTrip | Net/NetCommon.h:1255-1341 | a LobbyState survives the wire unchanged exactly if it is well formed |
| WireControl.DeserializeMsgLobbyState | Net/NetCommon.h:1276-1341 | accepts exactly known phases, a countdown with seconds left, and admissible seats, cleaning names |
| WireControl.MatchResultRoundTrip | Net/NetCommon.h:1212-1252 | a MatchResult survives exactly if it is a draw without a winner or a win of a known, named player |
| WireControl.MatchStartRoundTrip | Net/NetCommon.h:1165-1188 | a MatchStart survives exactly if ids and ticks are set and go does not come after unlock |
| WireControl.HelloRoundTrip | Net/NetCommon.h:1001-1027 | the receiver reads a Hello as its version and its name up to the terminator, fifteen bytes at most |
| WireControl.WelcomeRoundTrip | Net/NetCommon.h:1030-1053 | a Welcome survives exactly if its id exists and its tick rate is set |
| WireControl.RejectRoundTrip | Net/NetCommon.h:1056-1089 | a Reject survives exactly if it carries a version for a version mismatch only |
| WireControl.LevelInfoRoundTrip | Net/NetCommon.h:1092-1113 | a LevelInfo brings over match and map seed exactly if the match id is set |
| WireControl.MatchCancelledRoundTrip | Net/NetCommon.h:1191-1209 | a MatchCancelled survives exactly if the match id is set |
| WireControl.EveryControlMessageArrives | Server/ServerControlHandlers.cpp:239-276 | every control message of all seven kinds the server queues in any run, as long as its numbers fit their fields, passes the header check and its deserializer and is taken over as the message that was sent, names and map seed included |
| WireEvents.EveryEventPasses | Server/ServerBombs.cpp:325-344 | every gameplay event of every round passes the client's validators and brings its bricks and its killed players over unchanged |
| WireEvents.MaskIsTheKilled | Server/ServerBombs.cpp:242-293 | a player is among the killed exactly if its bit of the mask is set, and the mask reads back as the killed set |
| WireEvents.BombPlacedRoundTrip | Net/NetCommon.h:1619-1661 | a BombPlaced payload survives exactly if it is well formed |
| WireEvents.CorrectionRoundTrip | Net/NetCommon.h:1588-1616 | a correction always arrives as it was sent |
| WireEvents.InputRoundTrip | Net/NetCommon.h:1350-1392 | an input batch survives exactly if it is well formed |
| WireEvents.HeaderRoundTrip | Net/NetCommon.h:954-996 | the header admits a packet exactly if its payload has the size its type demands |
| Snapshot.BuildSnapshot | Server/ServerSnapshot.cpp:31-131 | packs players in seat order, bombs and revealed powerups in cell order |
| Snapshot.SnapshotPasses | Server/ServerSnapshot.cpp:31-131 | every snapshot built in a reachable state passes the client's validator and decodes to itself |
| Snapshot.SnapshotIsComplete | Server/ServerSnapshot.cpp:31-131 | the snapshot shows every player where it stands with its flags bit by bit, every live bomb and every revealed powerup field by field, and nothing else |
| Snapshot.ClampLosesNothing | Server/ServerSnapshot.cpp:48-49 | the 16-bit clamps change no reachable position |
| Snapshot.FlagsSayTheState | Server/ServerPowerups.cpp:84-115 | the six flag bits are alive, invincible now, locked, longer range now, more bombs now, faster now |
| Snapshot.ClientSpeedIsServerSpeed | Net/Client/ClientPrediction.cpp:487-503 | the speed the client reads off the replicated flags is the speed the server moves the player by: 23 while boosted, 17 otherwise |

## Left out

- Wrap-around of 32-bit ticks, sequences and match ids and of the 8-bit win counter: numbers are unbounded, and the wire theorems speak of messages that still fit their fields.
- WireControl.EveryControlMessageArrives: stated for messages whose ids, ticks and wins fit the wire's integer widths, because the model's numbers are unbounded.
- WireEvents.EveryEventPasses: the byte-level part is stated for ticks below 2^32, because the model's numbers are unbounded.
- Input packets of an earlier match that arrive in a later one: a batch carries no match id, so a stream belongs to one match.
- The input half of a match player inside MatchWorld is the finite map that Input.MatchPlayerInput refines, not the ring itself.
- std::sort is modelled by a sort function with the same comparison (Sorting), std::set and std::stack of the path search by a set and a sequence, and player masks by sets of ids.
- mt19937, its distributions and std::shuffle: every draw and every permutation is allowed; that both sides generate the same map from one seed is not modelled.
- The floating point of the path heuristic: it is any real-valued function that satisfies the defining equation of the distance.
- ENet itself: connection timeouts, packet fragmentation, flushes and the delayed disconnect behind a rejection.
- ClientPackets models a client from its Hello on: the states before it, a graceful disconnect, timeouts, which kind of failure is reported and the reason of a rejection are left out.
- The gameplay event stream after a client has given it up for more than 128 waiting events (NetClient.Protocol.cpp:632-658): ClientPackets says exactly when that happens, and BrickStream then counts the later messages as not received; the scene's reaction is not modelled.
- The client scene's merging of snapshots with events, sprites, sounds, menus, camera and remote smoothing.
- MatchWorld.MatchWorld.LeaveRound: the bomb clearing and the locking of the cited lines; the result and the winner's credit are in FlowServer.
- MatchWorld.MatchWorld.SimulateServerTick: the gameplay of a match tick; deadlines, the end of the round and the phase gate are in FlowServer and WholeServer, the snapshot in Snapshot.
- FlowServer.ServerState.SimulateServerTick: who dies in the tick is a parameter; WholeServer supplies the players the explosions of the round kill.
- FlowServer.ServerState.MaybeCommitMatchStart: the input timelines it arms are in Input and Rounds, joined by WholeServer.
- FlowServer.ServerState.BeginMatchBootstrapNow: the generated map, bombs and powerups are not flow state; Tiles and MatchWorld model them, and WholeServer begins a fresh round there.
- FlowServer.ServerState.ResetRoundRuntimeToLobby: bombs, powerups and the seed of the next map are not flow state.
- FlowServer.ServerState.BeginEnd: bombs are not flow state; MatchWorld.MatchWorld.LeaveRound clears them.
- FlowServer.ServerState.HandleServerEvent: events arrive decoded; the server's own channel and payload checks before them, and its input packets, which go to Input, are not part of it.
- ServerRuns.EventsOfAMatch: its byte-level part is stated for ticks below 2^32, because the model's numbers are unbounded.
- ServerRuns.SnapshotOfAMatch: stated for ticks below 2^32, because the model's numbers are unbounded.
- ClientPackets.ClientIsInStepOverTheWire: stated for messages that fit the wire's integer widths, because the model's numbers are unbounded.
- The map seed of a level info is carried over the wire but is not tied to the map of the round.
- Diagnostics, log throttles and the prediction statistics, which no gameplay state depends on.
- Singleplayer collision and enemy behaviour other than the path search.
- The playing part of a match has no time limit in the code, so FlowBounds gives none.
