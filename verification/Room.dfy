/** The room: its players, its item managers, its clock and its stop channel. */
module Rooms {
  import opened GameTypes
  import opened TickSpec
  import opened ItemSpec
  import opened GameSpec
  import opened Geometry
  import opened LobbySpec
  import opened Players
  import opened Crews
  import opened ItemManagers
  import opened Ticks
  import Lifecycle
  import LobbyWorlds
  import MapObjects
  import Mechanics

  /** Where the map objects stand, for the items to keep clear of. */
  function Obstacles(objects: seq<MapObjects.MapObject>): (places: seq<(real, real)>)
    ensures |places| == |objects|
    ensures forall i :: 0 <= i < |objects| ==> places[i] == (objects[i].at.x, objects[i].at.y)
  {
    seq(|objects|, i requires 0 <= i < |objects| => (objects[i].at.x, objects[i].at.y))
  }

  type Draws = seq<seq<(real, real)>>

  /** The draws of a new game: the players' order and, one after the other, their, the objects' and the items' draws. */
  datatype Luck = Luck(order: seq<Id>, spawns: seq<seq<Position>>, objects: seq<seq<Position>>,
                       boosters: Draws, stones: Draws)

  const NO_LUCK: Luck := Luck([], [], [], [], [])

  /** h is g at the start of a new game: everyone moved into its zone, all items new, the rest as it was. */
  ghost predicate Begun(g: Game, h: Game) {
    && Spawned(g.world, h.world) && h.effects == g.effects
    && Start(Boost, h.boosters) && Start(Stumble, h.stones)
  }

  method ResetListed(ps: seq<Player>, ghost m: map<Id, Player>)
    requires Roster(ps, m)
    modifies m.Values
    ensures WorldOf(m) == ResetWorld(old(WorldOf(m)))
    ensures MembersOf(m) == map id | id in old(MembersOf(m)) :: old(MembersOf(m))[id].(ready := false)
    ensures forall id :: id in m ==> m[id].effects == NO_EFFECTS && m[id].lastMoveTime == None
  {
    ResetPlayers(ps);
    assert forall id :: id in m ==> m[id] in ps;
  }

  /** Where a player stands when a game begins, in plain numbers; nothing else of it changes. */
  lemma BegunRule(g: Game, h: Game, id: Id)
    requires Begun(g, h) && id in g.world && SameKeys(g)
    ensures id in h.world && h.world[id] == g.world[id].(x := h.world[id].x, y := h.world[id].y)
    ensures 200.0 <= h.world[id].x < 3040.0
    ensures if g.world[id].role == Police then 200.0 <= h.world[id].y < 2680.0 else 3080.0 <= h.world[id].y < 5560.0
    ensures h.effects == g.effects
    ensures |h.boosters.active| == 4 && |h.stones.active| == 3 && h.boosters.queue == h.stones.queue == []
  {
  }

  class Room {
    const code: string
    var state: RoomState
    var players: map<Id, Player>
    var hostID: Id
    var boosters: ItemManager
    var stones: ItemManager
    var remainingTime: int
    var clients: map<Id, Id>
    var mapObjects: seq<MapObjects.MapObject>
    var stopCh: Option<bool>               // whether the channel of the latest game is closed
    ghost var gameOvers: seq<WinResult>    // the game_over messages sent

    constructor (code: string)
      ensures this.code == code && Valid() && players == map[]
      ensures Party() == NOBODY && Life() == Lifecycle.START.life
      ensures fresh(boosters) && fresh(stones)
    {
      this.code := code;
      state, players, hostID, remainingTime := Waiting, map[], "", 0;
      clients, mapObjects, stopCh, gameOvers := map[], [], None, [];
      var b := new ItemManager.Missing(Boost);
      var s := new ItemManager.Missing(Stumble);
      boosters, stones := b, s;
    }

    ghost predicate Valid()
      reads this
    {
      Registered(players) && Apart(boosters, stones) && (state == Playing ==> stopCh.Some?)
    }

    /** The room as the lobby sees it. */
    ghost function Party(): Party
      reads `state, `players, `clients, `hostID, players.Values`core, players.Values`ready
    {
      LobbySpec.Party(state, MembersOf(players), clients, hostID)
    }

    /** The room as its game loops see it. */
    ghost function Life(): Lifecycle.Life
      reads `state, `stopCh, `remainingTime, `gameOvers
    {
      Lifecycle.Life(state, stopCh, remainingTime, gameOvers)
    }

    ghost function View(): Game
      reads this, players.Values`core, players.Values`effects
      reads boosters`active, boosters`queue, boosters`nextID, stones`active, stones`queue, stones`nextID
    {
      GameOf(players, boosters, stones)
    }

    /** The part of a tick that runs under the room's lock. */
    method LockedTick() returns (ps: seq<Player>, timerExpired: bool, ghost chance: Chance)
      requires Valid()
      modifies `remainingTime, players.Values`core, players.Values`effects
      modifies boosters`active, boosters`queue, boosters`nextID, stones`active, stones`queue, stones`nextID
      ensures Roster(ps, players)
      ensures remainingTime == old(remainingTime) - 50 && timerExpired == (remainingTime <= 0)
      ensures Possible(old(View()), chance)
      ensures View() == GameTick(old(View()), chance)
    {
      ghost var g := View();
      remainingTime := remainingTime - TICK;
      timerExpired := remainingTime <= 0;
      ps := ListPlayers(players);
      assert GameOf(players, boosters, stones) == g;
      hide Possible, GameTick, GameOf;
      chance := RunTick(boosters, stones, ps, players);
    }

    method JudgePolice(ps: seq<Player>) returns (win: bool)
      ensures win == Mechanics.AllJailed(ps)
      ensures Roster(ps, players) ==> win == PoliceWin(WorldOf(players))
    {
      win := Mechanics.CheckPoliceWin(ps);
      if Roster(ps, players) {
        Mechanics.ChecksAreVerdicts(ps, players);
      }
    }

    /**
     The win check after a tick, outside the lock, on that tick's player list: all thieves arrested, or
     time is up.
     */
    method WinCheck(ps: seq<Player>, timerExpired: bool) returns (over: bool, ghost policeWin: bool)
      requires Valid()
      modifies `state, `stopCh, `gameOvers
      ensures Valid() && over == (policeWin || timerExpired) && Party() == old(Party()).(state := state)
      ensures Life() == if policeWin then Lifecycle.Stopped(old(Life()), WinPolice)
                        else if timerExpired then Lifecycle.Stopped(old(Life()), WinThief)
                        else old(Life())
      ensures policeWin == old(Mechanics.AllJailed(ps))
      ensures Roster(ps, players) ==> policeWin == PoliceWin(old(WorldOf(players)))
    {
      hide Mechanics.AllJailed, Roster, WorldOf, MembersOf, PoliceWin, Registered;
      var win := JudgePolice(ps);
      policeWin := win;
      if win {
        StopGame(WinPolice);
      } else if timerExpired {
        StopGame(WinThief);
      }
      over := win || timerExpired;
    }

    method StopGame(result: WinResult)
      requires Valid()
      modifies `state, `stopCh, `gameOvers
      ensures Valid() && Life() == Lifecycle.Stopped(old(Life()), result)
      ensures Party() == old(Party()).(state := state)
    {
      if state != Playing {
        return;
      }
      state := Ended;
      if !stopCh.value {
        stopCh := Some(true);
      }
      gameOvers := gameOvers + [result];
    }

    method AddPlayer(player: Player, client: Id) returns (added: bool)
      requires Valid()
      modifies `players, `clients, `hostID
      ensures Valid() && added == !Full(old(Party()))
      ensures players == if added then old(players)[player.id := player] else old(players)
      ensures Party() ==
              if added then Added(old(Party()), player.id, old(Member(player.core.role, player.ready)), client)
              else old(Party())
      ensures WorldOf(players) ==
              if added then old(WorldOf(players)[player.id := player.core]) else old(WorldOf(players))
    {
      hide MembersOf, WorldOf, Registered, Apart;
      MembersCounted(players);
      if |players| >= MAX_PLAYERS {
        return false;
      }
      Seat(player, client);
      MembersCounted(players);
      if |players| == 1 {
        MakeHost(player.id);
      }
      return true;
    }

    method Seat(player: Player, client: Id)
      requires Registered(players)
      modifies `players, `clients
      ensures Registered(players) && players == old(players)[player.id := player]
      ensures clients == old(clients)[player.id := client]
      ensures MembersOf(players) == old(MembersOf(players))[player.id := Member(player.core.role, player.ready)]
      ensures WorldOf(players) == old(WorldOf(players))[player.id := player.core]
    {
      hide MembersOf, WorldOf, Registered;
      ghost var before := players;
      players := players[player.id := player];
      clients := clients[player.id := client];
      MembersAdded(before, player);
    }

    method MakeHost(id: Id)
      modifies `hostID
      ensures hostID == id
      ensures MembersOf(players) == old(MembersOf(players)) && WorldOf(players) == old(WorldOf(players))
    {
      hostID := id;
    }

    method RemovePlayer(id: Id)
      requires Valid()
      modifies `players, `clients, `hostID
      ensures Valid() && players == old(players) - {id}
      ensures Heir(old(Party()), id, hostID) && Party() == Removed(old(Party()), id, hostID)
      ensures WorldOf(players) == old(WorldOf(players)) - {id}
    {
      hide *;
      ghost var p := Party();
      Unseat(id);
      PassOn(id);
      Bequeathed(p, id);
    }

    /** A host that has left passes the role on to anyone who stays. */
    method PassOn(id: Id)
      requires Valid()
      modifies `hostID
      ensures Valid() && players == old(players) && Party() == old(Party()).(host := hostID)
      ensures if old(hostID) == id && |players| > 0 then hostID in players else hostID == old(hostID)
      ensures WorldOf(players) == old(WorldOf(players))
    {
      hide MembersOf, WorldOf, Registered, Apart;
      if hostID == id && |players| > 0 {
        hostID := AnyKey(players);
      }
    }

    lemma Bequeathed(p: LobbySpec.Party, id: Id)
      requires Party() == p.(members := p.members - {id}, clients := p.clients - {id}, host := hostID)
      requires if p.host == id && |players| > 0 then hostID in players else hostID == p.host
      ensures Heir(p, id, hostID) && Party() == Removed(p, id, hostID)
    {
      NoMembers(players);
      hide MembersOf;
    }

    method Unseat(id: Id)
      requires Valid()
      modifies `players, `clients
      ensures Valid() && players == old(players) - {id} && hostID == old(hostID)
      ensures Party() == old(Party()).(members := old(Party()).members - {id}, clients := old(Party()).clients - {id})
      ensures Party().host == hostID && WorldOf(players) == old(WorldOf(players)) - {id}
    {
      hide MembersOf, WorldOf, Registered, Apart;
      ghost var before := players;
      players := players - {id};
      clients := clients - {id};
      MembersRemoved(before, id);
    }

    method HasSpace() returns (space: bool)
      ensures space <==> !Full(Party())
    {
      MembersCounted(players);
      space := |players| < MAX_PLAYERS;
    }

    method CanSelectRole(role: Role) returns (can: bool)
      requires Valid()
      ensures can <==> CanSelect(Party(), role)
    {
      if role == Police {
        var ps := ListPlayers(players);
        PoliceAreMembers(ps, players);
        var count := CountPolice(ps);
        return count < MAX_POLICE;
      }
      return true;
    }

    method SetRole(id: Id, role: Role)
      requires Valid() && id in players
      modifies players.Values`core
      ensures Party() == Selected(old(Party()), id, role)
      ensures WorldOf(players) == LobbyWorlds.Recast(old(WorldOf(players)), id, role)
    {
      players[id].SetRole(role);
      assert MembersOf(players) == Selected(old(Party()), id, role).members;
      assert WorldOf(players) == LobbyWorlds.Recast(old(WorldOf(players)), id, role);
    }

    method TogglePlayerReady(id: Id) returns (ready: bool)
      requires Valid()
      modifies players.Values`ready
      ensures Party() == Toggled(old(Party()), id)
      ensures ready <==> AllReady(Party().members)
    {
      hide AllReady;
      if id in players {
        players[id].ready := !players[id].ready;
      }
      assert MembersOf(players) == Toggled(old(Party()), id).members;
      ready := IsAllReady();
    }

    method IsAllReady() returns (ready: bool)
      requires Valid()
      ensures ready <==> AllReady(MembersOf(players))
    {
      var ps := ListPlayers(players);
      TeamsAreMembers(ps, players);
      hide MembersOf, AllReady, Roster, Complete;
      if |players| < MIN_PLAYERS {
        return false;
      }
      ready := CheckTeams(ps);
    }

    /** Back to waiting: every player starts over but keeps its role. */
    method Reset()
      requires Valid()
      modifies `state, players.Values
      ensures Valid() && Party() == Rested(old(Party()))
      ensures StartedOver(old(WorldOf(players)))
    {
      hide MembersOf, WorldOf, ResetWorld, Registered, Apart, Rested;
      ghost var p := Party();
      state := Waiting;
      ResetAll();
      RestedParty(p);
    }

    method ResetAll()
      requires Registered(players)
      modifies players.Values
      ensures players == old(players) && clients == old(clients) && hostID == old(hostID) && state == old(state)
      ensures boosters == old(boosters) && stones == old(stones) && stopCh == old(stopCh)
      ensures WorldOf(players) == ResetWorld(old(WorldOf(players)))
      ensures MembersOf(players) ==
              map id | id in old(MembersOf(players)) :: old(MembersOf(players))[id].(ready := false)
      ensures forall id :: id in players ==> players[id].effects == NO_EFFECTS && players[id].lastMoveTime == None
    {
      hide MembersOf, WorldOf, ResetWorld, Registered;
      var ps := ListPlayers(players);
      ResetListed(ps, players);
    }

    lemma RestedParty(p: LobbySpec.Party)
      requires state == Waiting && clients == p.clients && hostID == p.host
      requires MembersOf(players) == map id | id in p.members :: p.members[id].(ready := false)
      ensures Party() == Rested(p)
    {
      hide MembersOf;
    }

    /** Every player has kept its role and nothing else of what it was on w. */
    ghost predicate StartedOver(w: World)
      reads `players, players.Values
    {
      && WorldOf(players) == ResetWorld(w)
      && forall id :: id in players ==> players[id].effects == NO_EFFECTS && players[id].lastMoveTime == None
    }

    /** Spawn positions, map and items came out of these draws, the items clear of the map. */
    ghost predicate LaidOut(luck: Luck)
      reads `players, `mapObjects, `boosters, `stones, players.Values`core, boosters`active, stones`active
    {
      && SpawnedBy(WorldOf(players), luck.order, luck.spawns)
      && |mapObjects| == 13 && MapObjects.Planned(mapObjects, luck.objects)
      && boosters.placed == stones.placed == Obstacles(mapObjects)
      && ItemDraws(boosters.placed, [], boosters.active, luck.boosters)
      && ItemDraws(stones.placed, [], stones.active, luck.stones)
    }

    /**
     The room that was g and l goes on as it was or, if a game has been prepared, from new positions, items
     and clock.
     */
    ghost predicate GoesOn(g: Game, l: Lifecycle.Life, started: bool, luck: Luck)
      reads this, players.Values`core, players.Values`effects
      reads boosters`active, boosters`queue, boosters`nextID, stones`active, stones`queue, stones`nextID
    {
      if started then Begun(g, View()) && LaidOut(luck) && Life() == Lifecycle.Prepared(l)
      else View() == g && Life() == l
    }

    /** A new game: a full clock, an open stop channel, new items and map, and everyone at a spawn position. */
    method PrepareGame() returns (ghost luck: Luck)
      requires Valid()
      modifies `state, `remainingTime, `stopCh, `mapObjects, `boosters, `stones, players.Values`core
      ensures Valid() && fresh(boosters) && fresh(stones)
      ensures Party() == old(Party()).(state := Playing) && players == old(players)
      ensures forall p :: p in players.Values ==> p.lastMoveTime == old(p.lastMoveTime)
      ensures GoesOn(old(View()), old(Life()), true, luck)
    {
      hide MembersOf, WorldOf, EffectsOf, Spawned, SpawnedBy, Start, Registered, MapObjects.Planned, Obstacles,
        ItemDraws;
      StartClock();
      ghost var order, spawns := SpawnPlayers(players);
      ghost var objects, boosts, rocks := LayOutMap();
      luck := Luck(order, spawns, objects, boosts, rocks);
    }

    method StartClock()
      modifies `state, `remainingTime, `stopCh
      ensures Life() == Lifecycle.Prepared(old(Life()))
      ensures WorldOf(players) == old(WorldOf(players)) && EffectsOf(players) == old(EffectsOf(players))
      ensures MembersOf(players) == old(MembersOf(players))
    {
      state := Playing;
      remainingTime := GAME_DURATION;
      stopCh := Some(false);
    }

    /** Fresh map objects, and boosters and stumble stones clear of them. */
    method LayOutMap() returns (ghost draws: seq<seq<Position>>, ghost boosts: Draws, ghost rocks: Draws)
      modifies `mapObjects, `boosters, `stones
      ensures |mapObjects| == 13 && MapObjects.Planned(mapObjects, draws)
      ensures fresh(boosters) && fresh(stones) && Apart(boosters, stones)
      ensures boosters.placed == stones.placed == Obstacles(mapObjects)
      ensures ItemDraws(boosters.placed, [], boosters.active, boosts)
      ensures ItemDraws(stones.placed, [], stones.active, rocks)
      ensures Start(Boost, boosters.View()) && Start(Stumble, stones.View())
      ensures WorldOf(players) == old(WorldOf(players)) && EffectsOf(players) == old(EffectsOf(players))
      ensures MembersOf(players) == old(MembersOf(players))
    {
      hide MembersOf, WorldOf, EffectsOf, Start, ItemDraws;
      mapObjects, draws := MapObjects.GenerateMapObjects();
      var placed := Obstacles(mapObjects);
      var b, s;
      b, s, boosts, rocks := MakeItems(placed);
      boosters, stones := b, s;
    }

    static method MakeItems(placed: seq<(real, real)>)
      returns (boosters: ItemManager, stones: ItemManager, ghost boosts: Draws, ghost rocks: Draws)
      ensures fresh(boosters) && fresh(stones) && Apart(boosters, stones)
      ensures boosters.placed == stones.placed == placed
      ensures ItemDraws(placed, [], boosters.active, boosts) && ItemDraws(placed, [], stones.active, rocks)
      ensures Start(Boost, boosters.View()) && Start(Stumble, stones.View())
    {
      hide Start, ItemDraws;
      boosters := new ItemManager(Boost, placed);
      boosts :| ItemDraws(placed, [], boosters.active, boosts);
      stones := new ItemManager(Stumble, placed);
      rocks :| ItemDraws(placed, [], stones.active, rocks);
    }
  }
}
