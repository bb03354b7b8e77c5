# Gyeongdo server: a verified model

The server runs a game of cops and robbers in rooms of two to eight players. This project models its
core in Dafny - the 50 ms game tick, the life of a room, movement and placement, the lobby, and the
certificate cache of the login - and proves what these promise over whole runs.

Each part comes twice. The code that works by changing things is a class or a method with the same
fields, branches and loops as the original, proved against a specification on plain values. About the
specification the theorems are proved: for every run, every player order, every random draw and every
interleaving.

| files | what they model |
|---|---|
| `GameTypes`, `TickSpec`, `ItemSpec`, `GameSpec` | the tick on plain values; what chance decides in it |
| `Players`, `Mechanics`, `ItemManager`, `Tick` | players, mechanics and item managers as objects, with the original's loops |
| `TickRules`, `ItemRules`, `LobbyRules` | each phase and step in plain numbers, for every state |
| `History`, `Scenes`, `ItemRuns`, `GameRuns` | whole games: gauges, gaps, respawns, effects |
| `Crew`, `Room`, `Lifecycle` | the room object, and the room under interleaved hub steps and game loops |
| `Geometry`, `Movement`, `Placement` | distances, the speed check, rejection sampling |
| `LobbySpec`, `LobbyRuns`, `LobbyScenes`, `Orphans` | the lobby as a transition system on plain values, and its runs |
| `LobbyWorlds`, `Sessions`, `GameStarts`, `Replays` | lobby, moves and the game loops of all rooms as one transition system, and runs of it |
| `Codes`, `Lobby`, `Handlers` | room codes, the room manager, the router's map and the handlers as objects |
| `CertCache` | the certificate cache |

## What is proved

**A tick.** The pair loop adds to gauges while it runs down a snapshot of (police, thief) pairs, and the
rescue loop releases every prisoner from inside a loop over candidates, both in the order of Go's map
iteration. Both come to the same players in every order, and to what a per-player rule says. A pair
that comes after the arresting one still adds to the gauge, so an arrested thief may be left with a
gauge above zero; the model keeps that and gives the exact amount.

**Whole games.** Two games with the same moves, roles, joins and leaves agree after every tick on every
player's state and gauges and on the verdict, whatever the orders, spawns and pickups were. Every
gauge is a function of who was near whom: an arrest comes exactly when the cops in range, summed over
the free ticks since a player joined, was reset or was released, come to 30; a mass release exactly
when somebody's streak at the jail comes to 40. Collected items come back in order, exactly 160 or 200
updates later, so a full game gives out at most 93 booster ids and 56 stone ids.

**The whole server.** Hub steps, accepted moves and the steps of every room's game loops form one transition
system. In each of its runs lobby, mechanics and loops agree on rooms, players, roles and states, and the
ticks of any room, over all its games and the breaks between them, are a run of the mechanics with at
most two police. So, with nothing assumed of the players, an arrest takes at least 15 ticks from an empty
count, and at least 74 from a release unless the player has started over in between;
`Scenes.BoundsAreSharp` gives a run that meets both. Each handler is one hub step of this system, in what
it does to the lobby and in what it does to the players.

**In plain numbers.** Every phase of a tick, every lobby step, the speed check, the rejection loops and the
cache are also stated without the names of their definitions, for every state: in pixels of Euclidean
distance, in milliseconds, in counts of players and in the names that the messages carry. These are
`TickRules`, `ItemRules`, `LobbyRules` and the lemmas called `...Rule` beside the other parts.

**A room.** With no game prepared while one is played, the stop channel is open, and one loop alive,
exactly while the room plays; no loop ticks after the end, each game is announced over once, and a game
ends within 3600 ticks even when everyone has left. In a run of the server a room keeps all this if and only
if no game is prepared in it while one is played (`GameStarts.LoopsSoundIff`).

**Movement and placement.** Any two positions of one game are at most 780 px apart for each second
between the moves, by induction with a triangle inequality in the plane; no assumption on the clock is
needed, because a move that would go back in time is refused. Spawns, map objects and items always have
a legal place left, by counting discs against a grid; only bad draws lead to a fallback, and every
single draw that did not fall back is legal. Police and thieves start 400 px apart in any case.

**The lobby.** In every run with fresh player ids and room codes each client has at most one player, each
such player sits in exactly one room under that client, no room is empty or over its limits, and a
game is only prepared for two to eight ready players in one or two police and some thieves.

## What turns out false, and exactly when

- *A game starts from empty gauges.* Preparing a game resets nobody, and the ready handler does not look
  at the room's state: after a game two toggles prepare the next one without a return to the lobby
  (`LobbyScenes.Rematch`, `Lifecycle.Rematch`). The ticks of a game are a run from empty gauges if and
  only if everyone was fresh when it was prepared (`GameStarts.GamePreparedIff`). Otherwise what was left
  counts: a thief left at 1450 ms is arrested on the first tick with a cop in range
  (`GameStarts.LeftoverGauge`, with a run of the server that gets there in `Replays.LeftoverRematch`), and
  after a police win the next game is a police win on its first tick (`GameStarts.RematchIsDecided`,
  `Replays.DecidedRematch`).
- *A game prepared in a waiting room does, at least.* It does in every run that prepares no game there while
  one is played (`GameStarts.GameFromWaiting`). One that does leaves two loops on the room; the second
  may outlive the return to the lobby and tick the waiting room, where everyone stands together at the
  origin, and the thieves' gauges fill (`Replays.StaleLoopTicks`).
- *A released thief is safe for 74 ticks.* A return to the lobby cuts that short: released on the last tick of
  a game and reset, a thief may be arrested in the next game 15 ticks after its release
  (`Scenes.ResetCutsShort`). A rearrest within 74 ticks always has such a start in between, 14 ticks before
  it or more (`History.SeventyFourTicks`).
- *The first move of a game goes 39 px at most.* It does if and only if the player has not moved since it
  joined or was last reset (`Movement.FirstMoveIff`): preparing a game does not clear the time of the last
  move, so after a game without a return a player may go from its spawn to anywhere on the field at once
  (`Movement.FieldWideMove`).
- *One loop per room.* The same toggles in a playing room prepare a second game
  (`LobbyRuns.TogglingTwiceRestarts`, with a run that gets there in `LobbyScenes.OpeningRuns`). A run of a
  room is sound throughout if and only if that never happens (`Lifecycle.SoundIffOrderly`).
- *The rescue gauge is continuous.* A tick as police does not clear it
  (`Scenes.StreakOutlivesARoleChange`). A streak means as many ticks in a row at the jail if and only if
  the player was a thief on each of them (`History.StreakIsUnbroken`).
- *Players are on the field.* Someone who joins during a game starts at (0, 0) and never gets onto the
  field: the clamped target is always more than 70 px away, and a first move may be 39 px
  (`Movement.LateIsStuck`). A player is on the field if and only if it began there (`Movement.OnFieldIff`).
- *The thieves win with a free thief at the end.* The loop announces them on an expired timer without
  asking. What it announces is what the two checks say if and only if the room has a thief
  (`GameSpec.ExpiredWinner`); the only thief may leave during a game (`LobbyScenes.ThiefLeaves`).
- *Every player has a client.* Create and join do not ask whether the client already has a player. A step
  leaves every player with a client if and only if it does not give a client a second one
  (`Orphans.MannedStep`). A player left behind keeps its seat for ever, and if it was not ready its room
  never plays again (`Orphans.LeftBehindBlocks`).
- *Generated codes avoid duplicates.* After a hundred used ones a used code may come, and the new room
  takes the old one's place. The registry survives that if and only if no other client had its player
  there (`Orphans.UsedCodeIff`).
- *The eviction removes the oldest certificate.* It removes any: in a full cache of live entries
  whichever falls is an oldest one if and only if all expire together (`CertCache.EvictsOldestIff`), and
  `CertCache.AYoungerOneFalls` is a run that loses a younger one.
- *Spawns keep their distance.* Each does unless its own 100 draws all failed (`Spawning.DrawnSpaced`).

## Reading the model

Times and gauges are whole milliseconds (a tick is 50), positions and the clock of the movement check are
reals, and distances are compared as squares; `Geometry.WithinIsDistance` is the bridge. What Go leaves
to chance - map order, random draws, new ids - is an arbitrary choice: a ghost result of the method that
makes it, or a part of the step. A hub message is one atomic step, as `Hub.Run` handles them one at a
time; each game loop contributes its locked mechanics and its unlocked win check as separate steps. The
runs of `Sessions` let a player make any move, and a win check find for the police at any time, so they
include all that the speed check and the win check let through. Player ids and room codes are assumed
fresh where a theorem says so (`LobbySpec.FreshIds`).

Clients are known by their ids, and every theorem about a client is about its id. The server numbers a new
connection by how many are open (cmd/server/main.go:101), so two live connections may share an id. For
the lobby they are then one client: they have one player between them, and when either disconnects that
player leaves its room.

## Model

| member | source | states |
|---|---|---|
| `TickSpec.PairLoopOrderFree` | internal/room/room.go:369-380 | the pair loop over the stale snapshot gives each thief, independently of the order and of all others, one arrest step per cop in range |
| `TickSpec.ArrestStepsClosed` | internal/room/room.go:372-380 | n pairs take a free thief at m ticks to m + n ticks if that is below 30, else to jail with a gauge of (m + n) mod 30 ticks |
| `TickSpec.RescueLoopOrderFree` | internal/room/room.go:384-405 | the candidate loop with its mass release, then the clearing of the others' gauges, give each player what its own state and "some rescue completes" determine, in every order |
| `Mechanics.FindArrestPairs` | internal/game/collision.go:44-68 | the result lists every pair of a police player and a free thief at most 100 px apart exactly once |
| `Mechanics.FindJailRescueCandidates` | internal/game/collision.go:71-79 | the result lists every free thief at most 150 px from (1620, 4608) exactly once |
| `Mechanics.UpdateInvincibility` | internal/room/room.go:343-352 | every invincible player loses a tick and is free at zero; nobody else changes |
| `Mechanics.UpdateArrests` | internal/room/room.go:368-380 | the players end as the pair loop over the snapshot of the start leaves them, which is as the order-free arrest phase leaves them |
| `Mechanics.UpdateRescues` | internal/room/room.go:383-405 | the players end as the candidate loop and the clearing pass leave them, which is as the order-free rescue phase leaves them |
| `Mechanics.CheckPoliceWin` | internal/game/logic.go:4-16 | true exactly when there is a thief and every thief is arrested |
| `Mechanics.CheckThiefWin` | internal/game/logic.go:19-29 | true exactly on an expired timer with some thief not arrested |
| `Mechanics.ChecksAreVerdicts` | internal/room/room.go:446-454 | on a list of all players both checks are order-free properties of the room |
| `TickRules.ChaseRule` | internal/game/collision.go:32-68 | for every world: an arrest pair is a police player, in any state, and a free thief at most 100 px apart |
| `TickRules.RescuerRule` | internal/game/collision.go:37-79 | for every world: a rescue candidate is a free thief at most 150 px from (1620, 4608) |
| `TickRules.FiringRule` | internal/room/room.go:384-399 | a rescue fires if and only if a free thief there has 1950 ms or more on its gauge |
| `TickRules.WakeRule` | internal/room/room.go:343-352 | invincibility loses 50 ms a tick and ends at zero; nobody else changes |
| `TickRules.ArrestRule` | internal/room/room.go:368-380 | each cop within 100 px puts 50 ms on a free thief's gauge; from 1500 on it is arrested, with the rest on its gauge; nobody else changes |
| `TickRules.RescueRule` | internal/room/room.go:383-405 | a free thief gains 50 ms at the jail, starts over on completing and loses its gauge elsewhere; when somebody completes, each arrested thief is invincible for 3000 ms with empty gauges, where it stands; nobody else changes |
| `TickRules.TickKeepsPlaces` | internal/room/room.go:333-405 | a tick moves nobody and changes no role |
| `TickRules.AtJailRule` | internal/room/room.go:383-386 | what the histories count as a tick at the jail: a thief, free after the arrests of the tick, at most 150 px from (1620, 4608) |
| `TickRules.SixtyTicksInvincible` | internal/game/player.go:143-148 | over every run a released thief is invincible for the next 59 ticks and free on the 60th |
| `Players.Player.Release` | internal/game/player.go:143-148 | invincible for 3 s with both gauges empty |
| `Players.Player.Reset` | internal/game/player.go:166-179 | everything but the role is as in a new player |
| `GameSpec.TickOwesNothingToChance` | internal/room/room.go:333-405 | whatever the player order, pair order, candidate order and items, a tick changes states, gauges and timers in one way |
| `GameSpec.ChanceNeverDecides` | internal/room/room.go:333-454 | two games with the same start and the same moves, roles, joins and leaves agree after every tick on all players' states and gauges and on the verdict |
| `History.ArrestIsHistory` | internal/room/room.go:368-381 | in every run a player's arrest gauge and jail state are those of the sum of cops in range over its free ticks as a thief since it joined or was last released |
| `History.ArrestTick` | internal/room/room.go:375-379 | a thief is arrested on a tick if and only if that sum crosses 30 on it |
| `History.RescueIsHistory` | internal/room/room.go:383-405 | in every run a player's rescue gauge is its current streak of ticks at the jail |
| `History.ReleaseTick` | internal/room/room.go:388-399 | a mass release fires on a tick if and only if some free thief at the jail brings its streak to 40 |
| `History.StreakIsUnbroken` | internal/room/room.go:400-405 | a streak of m ticks means m ticks in a row at the jail if and only if the player was a thief on each of them |
| `Scenes.StreakOutlivesARoleChange` | internal/room/room.go:400-405 | a run in which a thief at the jail is police for one tick and goes on with its streak |
| `History.ReleaseNeedsFortyTicks` | internal/room/room.go:383-405 | behind every mass release is a player whose streak comes to 40, spent in a row at the jail exactly if it was a thief throughout |
| `History.LapseClears` | internal/room/room.go:400-405 | a tick away from the jail clears a streak if and only if the player is then a free thief or is being released |
| `History.FortyTicksRelease` | internal/room/room.go:384-399 | 40 ticks in a row at the jail force a mass release within them |
| `History.FifteenTicks` | internal/room/room.go:368-380 | with at most two police an arrest takes the ticks that two cops need to fill what is missing from the count: 15 from an empty one, and fewer by just what the gauge already holds |
| `History.SeventyFourTicks` | internal/game/player.go:143-148 | with at most two police, a thief released on tick r is arrested again on tick r + 74 at the earliest, unless it has started over in between, by a reset or a new join, and then 14 ticks after that at the earliest |
| `History.TwoCopsSum` | internal/room/room.go:372-380 | with two cops in range on every tick the count of a thief grows by two a tick |
| `Scenes.BoundsAreSharp` | internal/room/room.go:368-399 | a run of two cops, their prey and a friend at the jail: arrested on the 15th tick, released on tick 39 and arrested again on tick 39 + 74 |
| `Scenes.ResetCutsShort` | internal/room/room.go:216-224 | a run with two police in which a thief is released on tick 39, starts over on tick 40 and is arrested on tick 54 |
| `History.PlayersStayWellFormed` | internal/room/room.go:343-405 | in every run: invincible exactly while that timer runs, both gauges below their thresholds, empty while invincible, and an arrested thief's arrest gauge at most one tick per further cop |
| `GameSpec.ExpiredWinner` | internal/room/room.go:446-454 | on an expired timer the loop announces the police exactly if they have won, and announces the thieves exactly when their check says so if and only if the room has a thief |
| `GameSpec.GoesOn` | internal/room/room.go:446-454 | a tick does not end the game if and only if time is left and some thief is not arrested or there is no thief |
| `History.RescueTickIsNoPoliceWin` | internal/room/room.go:388-399 | a tick that completes a rescue is never a police win |
| `ItemManagers.ItemManager.constructor` | internal/game/booster.go:25-40 | a new manager has its full number of items under the first ids, each out of draws of its own against the map and the earlier ones, and an empty queue |
| `ItemManagers.ItemManager.Spawn` | internal/game/booster.go:42-79 | one more item under the next id, at the first clear draw of 100 or at the last |
| `ItemManagers.ItemManager.CountDown` | internal/game/booster.go:84-93 | the filter that writes back into the array it reads, with spawns in its loop, is the functional countdown, and spawns one item per finished timer, out of draws of its own |
| `ItemManagers.ItemManager.Update` | internal/game/stumble_stone.go:82-93 | the queue counted down, the due items respawned under consecutive ids, each at the first clear of its 100 draws or at the last, the others untouched |
| `ItemSpec.DrawnClear` | internal/game/booster.go:58-76 | each item that needed fewer than 100 draws is 150 from all map objects and from all items there before it, and 300 from the middle of the map |
| `ItemManagers.ItemManager.CheckPickup` | internal/game/booster.go:97-128 | an item is gone if and only if some listed player is not in jail and at most 60 px from it; the first such player of the list has the full effect, 5000 ms of boost or 3000 of slowness, everybody else keeps theirs, and one respawn of 8000 or 10000 ms is queued for each item gone |
| `ItemRules.ReachRule` | internal/game/booster.go:104-107 | who can take an item: anyone not in jail, free or invincible, at most 60 px away |
| `ItemRules.TakerRule` | internal/game/booster.go:103-117 | an item is left exactly if nobody of the list can reach it, and else goes to the first who can |
| `ItemRules.GoneRule` | internal/game/booster.go:101-125 | an item is gone after a pickup if and only if somebody not in jail is at most 60 px from it; each one gone queues a respawn of 8000 or 10000 ms |
| `ItemRules.EffectRule` | internal/game/stumble_stone.go:102-113 | whoever is the first in reach of an item has 5000 ms of boost or 3000 of slowness, and keeps its other effect; nobody else changes |
| `ItemRules.TickPickupRule` | internal/room/room.go:354-366 | in a tick an item goes by where everyone stands and who is in jail when the tick begins: pickups come before arrests and releases |
| `ItemRules.TickEffectRule` | internal/room/room.go:354-366 | in a tick each effect loses 50 ms and ends at zero, unless its player takes an item of the kind and has the full time again |
| `ItemRules.BoostLasts` | internal/game/booster.go:131-141 | in every play a boost taken on one tick is on after each of the next 99 and off after the 100th, if its player stays and takes no other |
| `ItemRules.SlownessLasts` | internal/game/stumble_stone.go:130-140 | in every play a slowness lasts 60 ticks in the same sense |
| `ItemRules.OnMapRule` | internal/game/booster.go:53-60 | every item lies 40 px clear of the edges of the map |
| `ItemRules.StartRule` | internal/game/booster.go:35-37 | a new manager has four boosters or three stones, ids 1 to 4 or 3, and an empty queue |
| `ItemRules.ClearRule` | internal/game/booster.go:62-75 | a spot is clear at 300 px or more from the middle of the map and 150 or more from each occupied place |
| `ItemRules.RefusedRule` | internal/game/booster.go:58-76 | every draw before an item's last was closer than that to the middle, to an object of the map or to an item there before it |
| `ItemSpec.ItemTickKeeps` | internal/game/booster.go:82-128 | active and queued items always add up to the cap, ids ascend and have been given out, the queue is sorted |
| `ItemRuns.QueueIsHistory` | internal/game/booster.go:82-128 | after every run the queue is the pickup history in order, and every collected item has been replaced exactly 160 (boosters) or 200 (stones) updates later |
| `ItemRuns.RespawnRule` | internal/game/booster.go:82-125 | on every tick of a run as many boosters come back as were taken exactly 160 ticks before, and as many stones as 200 ticks before |
| `ItemRuns.PotentialBound` | internal/game/stumble_stone.go:82-127 | respawn time times extra ids plus the waiting time in the queue is at most the cap times the time since the first tick |
| `ItemRuns.SpawnBound` | internal/game/constants.go:59-75 | a manager gives out at most 93 booster or 56 stone ids in 3600 ticks |
| `GameRuns.PlayIsRun` | internal/room/room.go:324-457 | the ticks of every play are ticks of the mechanics, and the play is a run from empty gauges if and only if everyone is fresh when its first tick starts |
| `GameRuns.PlayIsItemRun` | internal/room/room.go:354-366 | each item manager of every whole game makes a run in the sense of the item theorems |
| `GameRuns.GameSpawnBound` | internal/room/room.go:354-366 | the id bounds hold in every whole game of at most 3600 ticks |
| `GameRuns.EffectsStayOk` | internal/game/booster.go:131-141 | in every whole game a player is boosted (slowed) exactly while time is left on it, and never more than 5 s (3 s) |
| `Ticks.RunTick` | internal/room/room.go:338-405 | the loops over player objects and both managers make one tick of the specification |
| `Rooms.Room.LockedTick` | internal/room/room.go:333-435 | the locked half of a tick takes 50 ms off the clock and does one tick of the specification to the room's players and items |
| `Rooms.Room.WinCheck` | internal/room/room.go:446-454 | ends the game for the police exactly if the players of the tick's list say so now, else for the thieves on an expired timer, else not at all |
| `Rooms.Room.StopGame` | internal/room/room.go:264-291 | only a playing room ends: its channel is closed and one result announced |
| `Rooms.Room.PrepareGame` | internal/room/room.go:228-256 | a full clock, an open channel, a newly drawn map, full sets of new items drawn clear of it, everyone moved into the zone of its team by draws against the earlier ones; roles, gauges, effects, readiness and the times of the last moves unchanged |
| `Rooms.BegunRule` | internal/room/room.go:228-253 | when a game begins every player has a new place within 200 px margins of its half of the map and nothing else new, effects included; four boosters and three stones are out |
| `Rooms.Room.AddPlayer` | internal/room/room.go:49-64 | refused exactly in a full room; else the player is in and the first one is host |
| `Rooms.Room.RemovePlayer` | internal/room/room.go:67-81 | the player is out, and if it was host and others remain, one of them is host |
| `Rooms.Room.CanSelectRole` | internal/room/room.go:104-123 | only police can be full, at two |
| `Rooms.Room.TogglePlayerReady` | internal/room/room.go:139-172 | one player's readiness flips; true exactly when at least two players are all ready in teams and both teams are there |
| `Rooms.Room.Reset` | internal/room/room.go:216-224 | a waiting room with every player reset but for its role |
| `Lifecycle.OrderlyIsSound` | internal/room/room.go:324-457 | in every interleaving with no game prepared while one is played: one loop and an open channel exactly while playing, clock plus ticks is 180 s, at most 3600 ticks, as many results as finished games |
| `Lifecycle.SoundIffOrderly` | internal/room/room.go:228-291 | a whole run keeps that if and only if no game is prepared while one is played |
| `Lifecycle.PrepareIsSafeIff` | internal/room/room.go:228-261 | preparing a game keeps that if and only if the room is not playing |
| `Lifecycle.NoTickAfterEnd` | internal/room/room.go:264-291 | every tick runs in a playing room with time on the clock |
| `Lifecycle.EndAnnouncesOnce` | internal/room/room.go:264-291 | a room stops playing exactly when a result is announced, one per game, by a win check |
| `Lifecycle.TwoLoops` | internal/handler/lobby.go:184-212 | a run that prepares a game while playing and then ticks after the end |
| `Lifecycle.Rematch` | internal/handler/lobby.go:184-212 | an orderly run that prepares a game in an ended room, without a return |
| `Lifecycle.GameEnds` | internal/room/room.go:331-455 | while a room plays, every step of it is a tick or a win check of its loop, and fewer than 7200 of them fit into a game, even with no players |
| `Movement.ClampPosition` | internal/game/collision.go:6-23 | the nearest point of the field, coordinate by coordinate |
| `Movement.MovePlayer` | internal/handler/gameplay.go:71-95 | with e seconds since the last move, or a twentieth of one before the first, the move is taken, with its time, exactly if e >= 0 and its length is at most 600 e, boosted 780 e, slowed 420 e, both 546 e; else nothing changes |
| `Movement.MoveRule` | internal/handler/gameplay.go:71-95 | the same of the step that the run theorems take, in Euclidean distance, for all four combinations of effects |
| `Movement.FirstMoveRule` | internal/handler/gameplay.go:74-91 | the first move is held to 30 px, boosted to 39, slowed to 21, with both to 27.3 |
| `Movement.SpeedBound` | internal/handler/gameplay.go:71-95 | any two positions accepted at t1 and t2 of one game are at most 780 (t2 - t1) apart |
| `Movement.SpawnBound` | internal/handler/gameplay.go:71-95 | how far a player is from its spawn: 39 + 780 (t - t1) with its first move at t1 if it had none since its last reset, else 780 (t - t0) with t0 the time of the one it had |
| `Movement.FirstMoveIff` | internal/handler/gameplay.go:71-78 | the first move from the spawn is held to 39 px if and only if the player has no earlier move since it was made or reset |
| `Movement.FieldWideMove` | internal/handler/gameplay.go:71-91 | half a minute after its last move a player may go from any point of the field to any other at once |
| `Movement.StaysOnField` | internal/handler/gameplay.go:43-95 | a player is on the field if and only if it began there or has had a move accepted |
| `Movement.LateIsStuck` | internal/handler/gameplay.go:71-91 | a player that joins during a game stays at the origin: every one of its moves is refused |
| `Movement.OnFieldIff` | internal/handler/gameplay.go:43-95 | present from the start or late, a player is on the field if and only if it began there |
| `Geometry.WithinIsDistance` | internal/game/collision.go:26-40 | comparing squares is comparing Euclidean distances |
| `Geometry.OneIsFree` | internal/game/spawn.go:70-77 | of n points spaced 2d some point is at least d away from any fewer than n taken ones |
| `Spawning.IsFarEnough` | internal/game/spawn.go:70-77 | true exactly if no taken position is closer than 200 |
| `Spawning.GeneratePosition` | internal/game/spawn.go:44-67 | the first acceptable of 100 draws, or the fallback draw after 100 refused ones |
| `Spawning.GenerateSpawnPositions` | internal/game/spawn.go:14-34 | one position for every player, in the zone of its team, each out of a rejection loop of its own against the earlier ones |
| `Spawning.DrawnSpaced` | internal/game/spawn.go:12-34 | each position that did not need its fallback is 200 from all earlier ones; if none did, all are 200 apart |
| `Spawning.DrawnRule` | internal/game/spawn.go:42-67 | a position with at most 100 draws is 200 px or more from all before it, and every draw before its last was closer to one of them |
| `Spawning.ZoneRule` | internal/game/spawn.go:18-28 | police spawn in the upper half of the map, everyone else in the lower, 200 px clear of its edges |
| `Spawning.SpawnSatisfiable` | internal/game/spawn.go:44-67 | with fewer than 56 taken positions each zone has an acceptable place |
| `Draws.DrawReaches` | internal/game/spawn.go:55-56 | every point of the box can come out of a draw |
| `Crews.NoChaseAtSpawn` | internal/game/spawn.go:11-34 | after a spawn, fallbacks included, police and others are 400 apart and no arrest pair exists |
| `Crews.SpawnedOnField` | internal/room/room.go:236-244 | everyone present when a game is prepared starts on the field |
| `Crews.SamePolice` | internal/room/room.go:91-101 | the police that the lobby counts are the police that the mechanics see |
| `Sessions.AgreeAfter` | internal/handler/lobby.go:36-266 | every hub step, move, tick and win check keeps lobby, mechanics and loops agreed on the rooms, their players and roles, and their states |
| `Sessions.RunsAgree` | internal/handler/lobby.go:36-266 | they agree throughout every run from the empty server |
| `Sessions.TicksMakeARun` | internal/room/room.go:324-405 | in every run of the server the ticks of a room, over all its games, are a run of the mechanics: everyone is carried over or fresh |
| `Sessions.TicksAreCapped` | internal/handler/lobby.go:172-177 | in every run of the server no tick of a room finds more than two police |
| `Sessions.NoEarlyArrest` | internal/room/room.go:368-380 | in every run of the server an arrest takes 15 ticks from an empty count, and otherwise what two cops need to fill the gauge up |
| `Sessions.NoEarlyRearrest` | internal/game/player.go:143-148 | in every run of the server a released thief is arrested again 74 ticks later at the earliest, unless it has started over in between, and then 14 ticks after that at the earliest |
| `GameStarts.LoopsSoundIff` | internal/room/room.go:228-291 | in a run of the server the loops of a room keep what the lifecycle promises if and only if no game is prepared there while one is played |
| `GameStarts.WaitingIsFresh` | internal/room/room.go:216-224 | if no game is prepared in a room while one is played, all its players are free with empty gauges whenever it waits |
| `GameStarts.GameFromWaiting` | internal/room/room.go:228-256 | if no game is prepared in a room while one is played, the ticks of every game prepared in it while it waits are a run of their own, from empty gauges |
| `GameStarts.GamePreparedIff` | internal/handler/lobby.go:192-210 | the ticks of any prepared game are a run of their own if and only if everyone was fresh when it was prepared |
| `GameStarts.LeftoverGauge` | internal/room/room.go:372-380 | a gauge left at 1450 ms fills on the first tick with a cop in range |
| `GameStarts.RematchIsDecided` | internal/room/room.go:446-454 | if nobody moves between spawn and first tick, that tick is a police win if and only if the room was one before; then not everyone was fresh |
| `Replays.DecidedRematch` | internal/handler/lobby.go:184-212 | a run of the server, with no game prepared during another, in which the police win, two toggles prepare the next game and its first tick is a police win |
| `Replays.LeftoverRematch` | internal/room/room.go:228-256 | a run of that kind in which a thief escapes with 1450 ms on its gauge and the first tick of the next game arrests it |
| `Replays.StaleLoopTicks` | internal/room/room.go:324-335 | a run that prepares a second game during the first, and in which the second loop ticks the room after its return to the lobby and starts to fill a gauge |
| `Replays.WalksAccepted` | internal/handler/gameplay.go:71-91 | the moves of these runs pass the speed check |
| `MapObjects.PlaceObject` | internal/game/map_objects.go:55-89 | never a failure: with at most 100 draws the object is 300 px or more from all placed ones and 400 (jail), 500 (lake) or 340 (tree) from the middle; all draws before the last were illegal |
| `MapObjects.GenerateMapObjects` | internal/game/map_objects.go:21-49 | a jail, two lakes and ten trees within their margins, each out of a rejection loop of its own against the earlier ones |
| `MapObjects.PlannedLegal` | internal/game/map_objects.go:55-89 | each object that did not need its fallback is legal among the earlier ones; one that did had 100 illegal draws |
| `MapObjects.PlannedRule` | internal/game/map_objects.go:55-89 | object i with at most 100 draws is 300 px or more from every earlier one and 400, 500 or 340 from the middle of the map by its type; every draw before its last was closer than that to one of them |
| `MapObjects.MarginsRule` | internal/game/map_objects.go:56-63 | every object lies on the map with its whole size |
| `MapObjects.PlacementSatisfiable` | internal/game/map_objects.go:55-89 | with fewer than 40 placed objects there is a legal place for one more of any type |
| `MapObjects.ItemSatisfiable` | internal/game/booster.go:58-76 | with fewer than 40 places taken there is a clear spot for one more booster or stumble stone |
| `LobbyRuns.SoundStep` | internal/handler/lobby.go:36-266 | every handler keeps the registry: no empty or overfull room, at most two police, a host among the players, clients and players with the same keys, rooms without common players, every mapped player in a room under its client |
| `LobbyRuns.RunsAreSound` | internal/handler/lobby.go:36-266 | the registry holds throughout every run with fresh ids and codes |
| `LobbySpec.OneClientOneRoom` | internal/handler/router.go:37-55 | in a sound registry no two clients have the same player and every mapped player is in exactly one room |
| `LobbyRuns.StartGate` | internal/handler/lobby.go:184-212 | in every run a game is only prepared for 2 to 8 players, all ready in a team, 1 or 2 of them police and at least one a thief |
| `LobbyRuns.StateChanges` | internal/handler/lobby.go:216-236 | a room starts to play only by a completed team, ends only by its game loop and waits again only on a return |
| `LobbyRules.CreateRule` | internal/handler/lobby.go:43-46 | a client that creates a room sits in it alone, as its host, without a role and not ready |
| `LobbyRules.JoinRule` | internal/handler/lobby.go:70-81 | a client gets into a room in any state if and only if fewer than eight are in it; else nothing changes |
| `LobbyRules.RandomJoinRule` | internal/room/manager.go:66-93 | a random join finds none exactly if no room is waiting with fewer than eight, and for police a room with fewer than two of them if any such room has so few |
| `LobbyRules.SelectRule` | internal/handler/lobby.go:154-177 | a player becomes police if and only if fewer than two are, a thief always; nothing else changes |
| `LobbyRules.ReadyRule` | internal/room/room.go:139-172 | a game is prepared if and only if the client's player is the last to get ready in a room of two or more, of any size, with police and thieves; else its readiness flips |
| `LobbyRules.ReturnRule` | internal/handler/lobby.go:216-236 | a return brings an ended room, and no other, back to waiting with nobody ready; roles, host and seats stay |
| `LobbyRules.LeaveRule` | internal/handler/lobby.go:248-266 | a leaving client's player is out of its room and off the map; the room goes with its last player, else the host stays or one of the others is host |
| `LobbyRules.RoomRule` | internal/handler/lobby.go:172-177 | in a sound registry each room has one to eight players, its host among them, and at most two police |
| `LobbyRules.SelectWorldRule` | internal/game/player.go:129-131 | a team choice changes one role in the mechanics and nothing else; lobby and mechanics then both have it |
| `LobbyRules.JoinWorldRule` | internal/handler/lobby.go:76-81 | a new player is free at (0, 0) with empty gauges; nobody else changes |
| `LobbyRules.ReturnWorldRule` | internal/game/player.go:166-179 | after a return everyone of an ended room is free at (0, 0) with empty gauges, in its role; nobody else changes |
| `LobbyRules.LeaveWorldRule` | internal/handler/lobby.go:254-264 | a player that leaves is gone, and its room with it if it was alone there; nobody else changes |
| `LobbyRules.ChangeRule` | internal/handler/gameplay.go:93-94 | what reaches a game between two ticks is what team choices, moves, joins and leaves do |
| `LobbyRuns.TogglingTwiceRestarts` | internal/handler/lobby.go:184-212 | in every room with a complete team, playing, ended or waiting, a client that toggles twice prepares a game |
| `LobbyScenes.OpeningRuns` | internal/handler/lobby.go:36-213 | a run from an empty server to a playing room with a complete team |
| `LobbyScenes.ThiefLeaves` | internal/handler/lobby.go:248-266 | a run to a playing room without a thief |
| `LobbyScenes.Rematch` | internal/handler/lobby.go:184-212 | a run that prepares a game in an ended room |
| `LobbyRuns.RandomJoinSeats` | internal/handler/lobby.go:117-129 | a random join fails only when no room is open; otherwise the client's new player is seated |
| `LobbyRuns.PreferredRoleGranted` | internal/room/manager.go:66-93 | if any open room has the preferred role left, picking it right after the random join is accepted |
| `LobbyRuns.LeaveUndoesJoin` | internal/handler/lobby.go:248-266 | joining and leaving at once restores the whole server, host included |
| `LobbyRuns.LeaveUndoesCreate` | internal/handler/lobby.go:248-266 | creating a room and leaving at once restores the whole server |
| `Orphans.MannedStep` | internal/handler/lobby.go:43-46 | a step leaves every player with a client if and only if it does not give a second player to a client that has one |
| `Orphans.PoliteRunsLeaveNoRooms` | internal/room/manager.go:50-55 | where no client asks for a second player, no room outlives the last client |
| `Orphans.LeftBehindBlocks` | internal/handler/lobby.go:76-81 | a player that no client speaks for keeps its seat for ever, and while it is not ready its room never plays again |
| `Orphans.UsedCodeIff` | internal/room/room_code.go:14-23 | a room created under a code in use leaves the registry sound if and only if no other client had its player there |
| `Codes.GenerateCode` | internal/room/room_code.go:14-31 | four capital letters, the last of its draws, in use only after 100 used ones |
| `Lobby.Manager.CreateRoom` | internal/room/manager.go:25-40 | a new empty room is filed under the drawn code, in place of any other, which happens only after 100 used draws |
| `Lobby.Manager.FindAvailableRoom` | internal/room/manager.go:66-93 | none exactly when no room is waiting with space; else such a room, with the preferred role left if any of them has it |
| `Lobby.Manager.FindRoomByPlayerID` | internal/room/manager.go:96-108 | a room with that player, or none exactly when no room has it |
| `Handlers.LobbyHandler.HandleCreateRoom` | internal/handler/lobby.go:36-55 | with a nickname, the create step, under a code in use only after 100 used draws, for the lobby and for the mechanics: a new player, free at the origin with empty gauges, alone in a new room; without, nothing |
| `Handlers.LobbyHandler.HandleJoinRoom` | internal/handler/lobby.go:63-92 | the join step for lobby and mechanics: a new player with empty gauges at the origin, nobody else changed; nothing without code and nickname, without that room or in a full one |
| `Handlers.LobbyHandler.HandleRandomJoin` | internal/handler/lobby.go:100-140 | the random join step for lobby and mechanics, into a room that the search may offer; for "police" a waiting room with fewer than eight players and fewer than two police, if there is one |
| `Handlers.LobbyHandler.HandleSelectTeam` | internal/handler/lobby.go:147-181 | the team step for lobby and mechanics: with "police" the client's player is police in both if fewer than two are, with "thief" it is a thief in both, and else nothing changes |
| `Handlers.PicksByName` | internal/handler/lobby.go:161-177 | the team step for the role of a name, in the names "police" and "thief" and in the players of lobby and mechanics |
| `Handlers.LobbyHandler.HandlePlayerReady` | internal/handler/lobby.go:184-213 | the ready step for lobby and mechanics; exactly if it completes the team, the client's room has new spawn positions, items, map and clock, else its players, items and clock are untouched; no player of another room changes |
| `Handlers.LobbyHandler.HandleReturnToLobby` | internal/handler/lobby.go:216-236 | the return step for lobby and mechanics: every player of an ended room starts over but for its role, any other room and its players stay as they are |
| `Handlers.LobbyHandler.RemovePlayer` | internal/handler/lobby.go:248-266 | the leave step for lobby and mechanics: out of the room, the empty room off the map, the client unmapped |
| `Handlers.LobbyHandler.HandlePlayerMove` | internal/handler/gameplay.go:36-105 | only the client's own player in a playing room may move, to the clamped position, by the speed check; its gauges and state, all other players and the lobby stay |
| `Handlers.LobbyHandler.HandleMessage` | internal/handler/router.go:58-103 | every message is one step of its own kind for its client, of the lobby and of the mechanics, with the names "police" and "thief" read as above; a move takes the client's player to the nearest point of the field by the speed check and leaves the lobby and every gauge and state alone; without authentication nothing changes |
| `CertCache.Verifier.FetchCertificate` | internal/auth/gamecenter.go:152-199 | a hit answers without a change; a miss answers what was served and, if it was served, keeps it for 24 h in the cache trimmed as the eviction may |
| `CertCache.Verifier.EvictExpired` | internal/auth/gamecenter.go:201-215 | all expired entries go, and one arbitrary entry if the cache is still full |
| `CertCache.NeverOverfull` | internal/auth/gamecenter.go:185-196 | over all interleaved fetches the cache never holds more than 100 certificates |
| `CertCache.HitsAreFresh` | internal/auth/gamecenter.go:152-159 | over all interleaved fetches a cached URL hits if and only if less than 24 h have passed since its latest store, and gives that store's certificate |
| `CertCache.HitRule` | internal/auth/gamecenter.go:155-158 | in every run a URL has a certificate exactly while less than 24 hours have passed since its latest store, if it is still cached |
| `CertCache.ExpiryRule` | internal/auth/gamecenter.go:201-207 | in every run an entry counts as expired exactly when its latest store is more than 24 hours back |
| `CertCache.EvictionRule` | internal/auth/gamecenter.go:187-215 | in every run a store drops the entry of another URL if and only if the cache holds a hundred and either that entry is more than 24 hours old, or none is and it is the one that falls |
| `CertCache.StoreDropsLittle` | internal/auth/gamecenter.go:201-215 | a store drops another entry only from a full cache, and one that has not expired only if none has |
| `CertCache.EvictsOldestIff` | internal/auth/gamecenter.go:208-214 | in a full cache of live entries every entry that may fall is an oldest one if and only if all expire together |
| `CertCache.AYoungerOneFalls` | internal/auth/gamecenter.go:208-214 | a run of 101 stores from the empty cache whose last one drops a younger entry and keeps the oldest |

## Left out

- Floating point: gauges, timers and positions are exact. Adding 0.05 s twenty times in floating point may
  move a threshold by one tick.
- The order in which fields of one player change inside a tick: the fields are grouped in two values,
  one for arrests and rescues and one for item effects, each updated as a whole.
- The two item managers as two classes: their code is the same but for constants, so one class carries
  the kind. A room that has not played has managers without items where the code has nil.
- The growth of the respawn queue's backing array: the queue is a sequence, and only the update's filter
  works in place on an array.
- Data races: unlocked reads and writes of roles, positions and room state are part of their step.
- Hub registration and its channels: only the one-at-a-time handling of messages is used.
- JSON, WebSocket pumps, logging, configuration, HTTP, the account store and the auth timeout: plumbing.
- Message contents and delivery: only the game-over results are recorded.
- Signature checking, payload building, and the URL, bundle and timestamp checks of the login: foreign
  cryptography and one-line comparisons.
- The loops of a room that has been removed from the server's map: they run on over an empty room until its
  time is up, and `Sessions` drops them with the room.
- SetInvincible, Broadcast and SetPlayerReady: nothing calls them on these paths.
- Probabilities: the placement theorems hold for all draws and say nothing about how likely a fallback is.
