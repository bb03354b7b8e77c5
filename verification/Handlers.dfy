/** The lobby handlers: each message or disconnect is one step of the lobby. */
module Handlers {
  import opened GameTypes
  import GameSpec
  import opened LobbySpec
  import opened LobbyRules
  import opened LobbyWorlds
  import Lifecycle
  import Codes
  import opened Players
  import opened Crews
  import opened Geometry
  import opened Movement
  import opened Rooms
  import opened Lobby

  function RoleOf(name: string): Role {
    if name == "police" then Police else if name == "thief" then Thief else NoRole
  }

  /** What the router tells apart; the contents that the lobby reads. */
  datatype Message =
    | Authenticate
    | CreateRoom(nickname: string)
    | JoinRoom(code: Code, nickname: string)
    | RandomJoinRoom(nickname: string, preferred: string)
    | LeaveRoom
    | PickTeam(roleName: string)
    | PlayerReady
    | ReturnToLobby
    | PlayerMove(x: real, y: real, now: real)  // now: the clock when it is handled
    | Unknown

  /** The step that the lobby takes on a message, or None if the message asks nothing of it. */
  predicate Answers(m: Message, step: Option<Step>) {
    match m
    case Authenticate => step == None
    case CreateRoom(nickname) => if nickname == "" then step == None else step.Some? && step.value.Create?
    case JoinRoom(code, nickname) =>
      if code == "" || nickname == "" then step == None
      else step.Some? && step.value.Join? && step.value.code == code
    case RandomJoinRoom(nickname, preferred) =>
      if nickname == "" then step == None
      else
        && step.Some? && step.value.RandomJoin?
        && step.value.preferred ==
           if preferred == "police" then Police else if preferred == "thief" then Thief else NoRole
    case LeaveRoom => step.Some? && step.value.Leave?
    case PickTeam(roleName) =>
      && step.Some? && step.value.SelectTeam?
      && step.value.role == if roleName == "police" then Police else if roleName == "thief" then Thief else NoRole
    case PlayerReady => step.Some? && step.value.Ready?
    case ReturnToLobby => step.Some? && step.value.Return?
    case PlayerMove(_, _, _) => step == None
    case Unknown => step == None
  }

  /**
   What a team choice by that name comes to, for a player in that room: police while fewer than two are, a
   thief always, and for any other name, or a player in no room, nothing.
   */
  ghost predicate Picked(s: Server, worlds: map<Code, World>, t: Server, after: map<Code, World>, client: Id,
                         at: Option<Code>, roleName: string) {
    && (at != None && at.value in s.rooms ==>
          && (roleName == "police" && |WithRole(s.rooms[at.value], Police)| < 2 ==>
                HasRole(t, after, at.value, PlayerOf(s, client), Police))
          && (roleName == "police" && |WithRole(s.rooms[at.value], Police)| >= 2 ==> t == s && after == worlds)
          && (roleName == "thief" ==> HasRole(t, after, at.value, PlayerOf(s, client), Thief)))
    && (at == None || (roleName != "police" && roleName != "thief") ==> t == s && after == worlds)
  }

  lemma PicksByName(s: Server, worlds: map<Code, World>, client: Id, at: Option<Code>, roleName: string)
    requires Finds(s, PlayerOf(s, client), at)
    requires at != None ==> at.value in worlds && PlayerOf(s, client) in worlds[at.value]
    ensures var step := SelectTeam(client, at, RoleOf(roleName));
            Picked(s, worlds, Next(s, step), HubWorlds(s, worlds, step, map[]), client, at, roleName)
  {
    if at != None {
      SelectRule(s, client, at.value, RoleOf(roleName));
      SelectWorldRule(s, worlds, client, at.value, RoleOf(roleName), map[]);
    }
    hide WithRole, HasRole, Recast, CanSelect;
  }

  function ClientOf(step: Step): Option<Id> {
    if step.GameOver? then None else Some(step.client)
  }

  class LobbyHandler {
    const rm: Manager
    const router: Router
    ghost var owner: map<Player, Code>  // the room of every player object ever seated

    constructor ()
      ensures Valid() && View() == EMPTY && Worlds() == map[]
    {
      rm := new Manager();
      router := new Router();
      owner := map[];
    }

    ghost predicate Valid()
      reads this, rm, rm.rooms.Values
    {
      Housed(rm.rooms, owner)
    }

    ghost function View(): Server
      reads rm, router, rm.rooms.Values, CrewOf(rm.rooms)
    {
      Server(PictureOf(rm.rooms).parties, router.playerMap)
    }

    /** The players of every room as the mechanics see them. */
    ghost function Worlds(): map<Code, World>
      reads rm, rm.rooms.Values, CrewOf(rm.rooms)
    {
      PictureOf(rm.rooms).worlds
    }

    /** The room's players, items and clock are those. */
    static ghost predicate Untouched(r: Room, g: GameSpec.Game, l: Lifecycle.Life)
      reads r, r.players.Values`core, r.players.Values`effects
      reads r.boosters`active, r.boosters`queue, r.boosters`nextID
      reads r.stones`active, r.stones`queue, r.stones`nextID
    {
      r.View() == g && r.Life() == l
    }

    ghost predicate Holds(r: Room)
      reads this, rm, rm.rooms.Values
    {
      r.code in rm.rooms && rm.rooms[r.code] == r
    }

    lemma FoundInView(id: Id, at: Option<Code>)
      requires match at
               case Some(c) => c in rm.rooms && id in rm.rooms[c].players
               case None => forall c :: c in rm.rooms ==> id !in rm.rooms[c].players
      ensures Finds(View(), id, at)
    {
    }

    /** The room of the client's player. */
    method Locate(client: Id) returns (at: Option<Code>)
      requires Valid()
      ensures Valid() && View() == old(View()) && Worlds() == old(Worlds())
      ensures Finds(View(), PlayerOf(View(), client), at)
      ensures at.Some? ==> at.value in rm.rooms && PlayerOf(View(), client) in rm.rooms[at.value].players
    {
      AllStand(rm.rooms, owner, {});
      hide Finds, Stand, Housed, PictureOf;
      ghost var before := PictureOf(rm.rooms);
      at := FindAmong(rm.rooms, owner, before, rm, router.GetPlayerID(client));
      SameEntries(rm.rooms, owner, before);
      FoundInView(router.GetPlayerID(client), at);
    }

    /** The room itself; r is null if there is none. */
    method LocateRoom(client: Id) returns (r: Room?, ghost at: Option<Code>)
      requires Valid()
      ensures Valid() && View() == old(View()) && Worlds() == old(Worlds())
      ensures Finds(View(), PlayerOf(View(), client), at) && (r == null <==> at == None)
      ensures r != null ==> Holds(r) && at == Some(r.code) && PlayerOf(View(), client) in r.players
      ensures r != null ==> Untouched(r, old(r.View()), old(r.Life()))
    {
      hide Finds, Housed, PictureOf;
      var found := Locate(client);
      at, r := found, null;
      if found.Some? {
        UnderItsCode(found.value);
        r := rm.rooms[found.value];
      }
    }

    lemma UnderItsCode(code: Code)
      requires Valid() && code in rm.rooms
      ensures rm.rooms[code].code == code
    {
    }

    lemma InPicture(r: Room)
      requires Valid() && Holds(r)
      ensures Filed(rm.rooms, owner, r) && r.code in rm.rooms && rm.rooms[r.code] == r
      ensures View() == Server(PictureOf(rm.rooms).parties, router.playerMap) && Worlds() == PictureOf(rm.rooms).worlds
      ensures View().rooms[r.code] == r.Party() && r.Party().state == r.state
      ensures Worlds()[r.code] == RoomOf(Worlds(), r.code) == WorldOf(r.players) == r.View().world
    {
      hide MembersOf, WorldOf, EffectsOf, Home;
    }

    /** A change of one room's entry as a change of the server. */
    lemma Changed(before: Picture, s: Server, code: Code, party: Party, w: World)
      requires s == Server(before.parties, router.playerMap)
      requires PictureOf(rm.rooms) == before.Put(code, party, w) && Housed(rm.rooms, owner)
      ensures Valid() && View() == Put(s, code, party) && Worlds() == before.worlds[code := w]
    {
      hide PictureOf, Housed;
    }

    /** In every room lobby and mechanics have the same players. */
    lemma SameIds(at: Option<Code>)
      requires Valid() && (at != None ==> at.value in rm.rooms)
      ensures at != None ==>
                && at.value in View().rooms && at.value in Worlds()
                && View().rooms[at.value].members.Keys == Worlds()[at.value].Keys
    {
      if at != None {
        UnderItsCode(at.value);
        InPicture(rm.rooms[at.value]);
      }
    }

    lemma AsPictured(r: Room)
      requires Valid() && Holds(r)
      ensures Put(View(), r.code, r.Party()) == View() && Worlds()[r.code := WorldOf(r.players)] == Worlds()
    {
      InPicture(r);
      hide MembersOf, WorldOf, PictureOf, Room.Party;
      assert View().rooms[r.code := r.Party()] == View().rooms;
    }

    method MaySelect(code: Code, role: Role) returns (can: bool)
      requires Valid() && code in rm.rooms
      ensures Valid() && View() == old(View()) && Worlds() == old(Worlds())
      ensures can <==> CanSelect(View().rooms[code], role)
    {
      AllStand(rm.rooms, owner, {});
      assert rm.rooms[code].Valid();
      hide Home, CanSelect, MembersOf, WorldOf, Registered, Stand, Housed;
      ghost var before := PictureOf(rm.rooms);
      can := CanSelectAmong(rm.rooms, owner, before, rm.rooms[code], role);
      SameEntries(rm.rooms, owner, before);
    }

    method Select(code: Code, id: Id, role: Role)
      requires Valid() && code in rm.rooms && id in rm.rooms[code].players
      modifies CrewOf(rm.rooms)`core
      ensures Valid() && View() == Put(old(View()), code, Selected(old(View()).rooms[code], id, role))
      ensures Worlds() == old(Worlds())[code := Recast(old(Worlds())[code], id, role)]
    {
      UnderItsCode(code);
      var r := rm.rooms[code];
      InPicture(r);
      InCrew(rm.rooms, r);
      hide *;
      ghost var before, s := PictureOf(rm.rooms), View();
      SelectIn(rm.rooms, owner, before, rm, router, r, id, role);
      Changed(before, s, r.code, Selected(before.parties[r.code], id, role), Recast(before.worlds[r.code], id, role));
    }

    method HandleSelectTeam(client: Id, roleName: string) returns (ghost at: Option<Code>)
      requires Valid()
      modifies CrewOf(rm.rooms)`core
      ensures Valid()
      ensures Enabled(old(View()), SelectTeam(client, at, RoleOf(roleName)))
      ensures View() == Next(old(View()), SelectTeam(client, at, RoleOf(roleName)))
      ensures Worlds() == HubWorlds(old(View()), old(Worlds()), SelectTeam(client, at, RoleOf(roleName)), map[])
      ensures at == None ==> forall code :: !Seated(old(View()), code, PlayerOf(old(View()), client))
      ensures at != None ==> Seated(old(View()), at.value, PlayerOf(old(View()), client))
      ensures Picked(old(View()), old(Worlds()), View(), Worlds(), client, at, roleName)
    {
      hide CanSelect, Selected, Recast, PictureOf, Housed, Picked;
      var id := router.GetPlayerID(client);
      var found := Locate(client);
      at := found;
      SameIds(at);
      PicksByName(View(), Worlds(), client, at, roleName);
      if found == None {
        return;
      }
      var role := RoleOf(roleName);
      if role == NoRole {
        return;
      }
      var can := MaySelect(found.value, role);
      if !can {
        return;
      }
      Select(found.value, id, role);
    }

    method ReadyHere(ghost before: Picture, r: Room, id: Id) returns (started: bool, ghost luck: Luck)
      requires Filed(rm.rooms, owner, r) && before == PictureOf(rm.rooms)
      modifies r, r.players.Values`core, r.players.Values`ready
      ensures owner == old(owner) && router.playerMap == old(router.playerMap) && Housed(rm.rooms, owner)
      ensures PictureOf(rm.rooms) == before.Put(r.code, Readied(before.parties[r.code], id), WorldOf(r.players))
      ensures started <==> AllReady(Toggled(before.parties[r.code], id).members)
      ensures r.GoesOn(old(r.View()), old(r.Life()), started, luck)
    {
      hide *;
      started, luck := ReadyIn(rm.rooms, owner, before, rm, router, r, id);
    }

    method ToggleReady(r: Room, id: Id) returns (started: bool, ghost luck: Luck)
      requires Valid() && Holds(r)
      modifies r, r.players.Values`core, r.players.Values`ready
      ensures Valid() && View() == Put(old(View()), r.code, Readied(old(View()).rooms[r.code], id))
      ensures Worlds() == old(Worlds())[r.code := WorldOf(r.players)]
      ensures old(Worlds())[r.code] == old(r.View()).world
      ensures started <==> AllReady(Toggled(old(View()).rooms[r.code], id).members)
      ensures r.GoesOn(old(r.View()), old(r.Life()), started, luck)
    {
      InPicture(r);
      hide *;
      ghost var before, s := PictureOf(rm.rooms), View();
      started, luck := ReadyHere(before, r, id);
      Changed(before, s, r.code, Readied(before.parties[r.code], id), WorldOf(r.players));
    }

    /** Where a game that has just been prepared has put everyone. */
    ghost function SpawnAt(at: Option<Code>): World
      reads rm, rm.rooms.Values, CrewOf(rm.rooms)
    {
      if at.Some? then RoomOf(Worlds(), at.value) else map[]
    }

    /** started tells whether this toggle prepared a game in the client's room r; its game loop is then started. */
    method HandlePlayerReady(client: Id) returns (started: bool, r: Room?, ghost at: Option<Code>, ghost luck: Luck)
      requires Valid()
      modifies rm.rooms.Values, CrewOf(rm.rooms)`core, CrewOf(rm.rooms)`ready
      ensures Valid()
      ensures Enabled(old(View()), Ready(client, at))
      ensures View() == Next(old(View()), Ready(client, at))
      ensures Worlds() == HubWorlds(old(View()), old(Worlds()), Ready(client, at), SpawnAt(at))
      ensures started <==> at.Some? && Prepares(old(View()), Ready(client, at), at.value)
      ensures started ==> Spawned(old(Worlds())[at.value], SpawnAt(at))
      ensures if r == null then at == None else Holds(r) && at == Some(r.code)
      ensures r != null ==> r.GoesOn(old(r.View()), old(r.Life()), started, luck)
    {
      hide Finds, Enabled, Next, HubWorlds, Prepares, View, Worlds, Readied, Toggled, AllReady, PictureOf, Housed, Put,
        Room.GoesOn, Room.View, Room.Life, Spawned;
      started, luck := false, NO_LUCK;
      var id := router.GetPlayerID(client);
      r, at := LocateRoom(client);
      ghost var s, worlds := View(), Worlds();
      ReadyIs(s, worlds, client, at, map[]);
      if r == null {
        return;
      }
      InPicture(r);
      InCrew(rm.rooms, r);
      hide CrewOf;
      ghost var g, l := r.View(), r.Life();
      started, luck := ToggleReady(r, id);
      InPicture(r);
      WorldGoesOn(r, g, l, started, luck, worlds);
      ReadyIs(s, worlds, client, at, SpawnAt(at));
    }

    static lemma ReadyIs(s: Server, worlds: map<Code, World>, client: Id, at: Option<Code>, spawn: World)
      requires Finds(s, PlayerOf(s, client), at)
      ensures var step := Ready(client, at);
              && Enabled(s, step)
              && (at.None? ==> Next(s, step) == s && HubWorlds(s, worlds, step, spawn) == worlds)
              && (at.Some? ==>
                    var room := s.rooms[at.value];
                    && Next(s, step) == Put(s, at.value, Readied(room, PlayerOf(s, client)))
                    && (Prepares(s, step, at.value) <==> AllReady(Toggled(room, PlayerOf(s, client)).members))
                    && HubWorlds(s, worlds, step, spawn) ==
                       if Prepares(s, step, at.value) then worlds[at.value := spawn] else worlds)
    {
      hide Readied, Toggled, AllReady;
    }

    lemma WorldGoesOn(r: Room, g: GameSpec.Game, l: Lifecycle.Life, started: bool, luck: Luck, worlds: map<Code, World>)
      requires r.GoesOn(g, l, started, luck) && r.code in worlds && worlds[r.code] == g.world
      ensures if started then Spawned(g.world, WorldOf(r.players))
              else worlds[r.code := WorldOf(r.players)] == worlds
    {
      hide WorldOf, EffectsOf, Spawned;
    }

    lemma ResetWorlds(r: Room, w: World)
      requires r.StartedOver(w)
      ensures WorldOf(r.players) == GameSpec.ResetWorld(w)
    {
    }

    method ResetHere(ghost before: Picture, r: Room)
      requires Filed(rm.rooms, owner, r) && before == PictureOf(rm.rooms)
      modifies r`state, r.players.Values
      ensures owner == old(owner) && router.playerMap == old(router.playerMap) && Housed(rm.rooms, owner)
      ensures PictureOf(rm.rooms) == before.Put(r.code, Rested(before.parties[r.code]), WorldOf(r.players))
      ensures r.StartedOver(old(r.View()).world)
    {
      hide *;
      ResetIn(rm.rooms, owner, before, rm, router, r);
    }

    method RestEnded(r: Room)
      requires Valid() && Holds(r)
      modifies r`state, r.players.Values
      ensures Valid() && View() == Put(old(View()), r.code, Rested(old(View()).rooms[r.code]))
      ensures Worlds() == old(Worlds())[r.code := GameSpec.ResetWorld(old(Worlds())[r.code])]
      ensures r.StartedOver(old(r.View()).world)
    {
      InPicture(r);
      ghost var before, s, w := PictureOf(rm.rooms), View(), r.View().world;
      hide *;
      ResetHere(before, r);
      ResetWorlds(r, w);
      Changed(before, s, r.code, Rested(before.parties[r.code]), WorldOf(r.players));
    }

    method RestRoom(r: Room)
      requires Valid() && Holds(r)
      modifies r`state, r.players.Values
      ensures Valid()
      ensures var room := old(View()).rooms[r.code];
              if room.state == Ended then
                && View() == Put(old(View()), r.code, Rested(room))
                && Worlds() == old(Worlds())[r.code := GameSpec.ResetWorld(old(Worlds())[r.code])]
              else View() == old(View()) && Worlds() == old(Worlds())
      ensures if old(r.state) == Ended then r.StartedOver(old(r.View()).world)
              else Untouched(r, old(r.View()), old(r.Life()))
    {
      InPicture(r);
      hide Rested, MembersOf, WorldOf, EffectsOf, Housed, PictureOf, GameSpec.ResetWorld, Room.StartedOver;
      hide Room.View, Room.Life, View, Worlds, Put;
      if r.state == Ended {
        RestEnded(r);
      }
    }

    /** An ended room r of the client starts over; any other stays as it is. */
    method HandleReturnToLobby(client: Id) returns (r: Room?, ghost at: Option<Code>)
      requires Valid()
      modifies rm.rooms.Values`state, CrewOf(rm.rooms)
      ensures Valid()
      ensures Enabled(old(View()), Return(client, at))
      ensures View() == Next(old(View()), Return(client, at))
      ensures Worlds() == HubWorlds(old(View()), old(Worlds()), Return(client, at), map[])
      ensures if r == null then at == None else Holds(r) && at == Some(r.code)
      ensures r != null ==>
                if old(r.state) == Ended then r.StartedOver(old(r.View()).world)
                else Untouched(r, old(r.View()), old(r.Life()))
    {
      hide Finds, Enabled, Next, HubWorlds, View, Worlds, Housed, PictureOf, Rested, Room.StartedOver, Put,
        GameSpec.ResetWorld;
      r, at := LocateRoom(client);
      ReturnIs(View(), Worlds(), client, at);
      if r == null {
        return;
      }
      InPicture(r);
      InCrew(rm.rooms, r);
      RestRoom(r);
    }

    static lemma ReturnIs(s: Server, worlds: map<Code, World>, client: Id, at: Option<Code>)
      requires Finds(s, PlayerOf(s, client), at)
      ensures Enabled(s, Return(client, at))
      ensures at.None? ==> Next(s, Return(client, at)) == s && HubWorlds(s, worlds, Return(client, at), map[]) == worlds
      ensures at.Some? ==>
                var room, w := s.rooms[at.value], GameSpec.ResetWorld(RoomOf(worlds, at.value));
                && (room.state == Ended ==>
                      && Next(s, Return(client, at)) == Put(s, at.value, Rested(room))
                      && HubWorlds(s, worlds, Return(client, at), map[]) == worlds[at.value := w])
                && (room.state != Ended ==>
                      Next(s, Return(client, at)) == s && HubWorlds(s, worlds, Return(client, at), map[]) == worlds)
    {
      hide Rested, GameSpec.ResetWorld;
    }

    method Oust(r: Room, id: Id) returns (ghost heir: Id)
      requires Valid() && Holds(r)
      modifies r`players, r`clients, r`hostID
      ensures Valid() && Heir(old(View()).rooms[r.code], id, heir)
      ensures View() == Put(old(View()), r.code, Removed(old(View()).rooms[r.code], id, heir))
      ensures Worlds() == old(Worlds())[r.code := old(Worlds())[r.code] - {id}]
    {
      InPicture(r);
      hide *;
      ghost var before, s := PictureOf(rm.rooms), View();
      RemoveIn(rm.rooms, owner, before, rm, router, r, id);
      heir := r.hostID;
      Changed(before, s, r.code, Removed(before.parties[r.code], id, heir), before.worlds[r.code] - {id});
    }

    lemma EmptyRoom(r: Room)
      requires Valid() && Holds(r)
      ensures |r.players| == 0 <==> View().rooms[r.code].members == map[]
      ensures |r.players| == 0 <==> Worlds()[r.code] == map[]
    {
      InPicture(r);
      NoMembers(r.players);
      hide MembersOf, WorldOf, EffectsOf, PictureOf;
      assert WorldOf(r.players).Keys == r.players.Keys == MembersOf(r.players).Keys;
    }

    method Unseat(code: Code, id: Id) returns (empty: bool, ghost heir: Id)
      requires Valid() && code in rm.rooms
      modifies rm.rooms.Values`players, rm.rooms.Values`clients, rm.rooms.Values`hostID
      ensures Valid() && Heir(old(View()).rooms[code], id, heir)
      ensures View() == Put(old(View()), code, Removed(old(View()).rooms[code], id, heir))
      ensures Worlds() == old(Worlds())[code := old(Worlds())[code] - {id}]
      ensures empty <==> View().rooms[code].members == map[]
      ensures empty <==> Worlds()[code] == map[]
    {
      UnderItsCode(code);
      var r := rm.rooms[code];
      InCrew(rm.rooms, r);
      hide Heir, Removed, Housed, PictureOf, CrewOf;
      heir := Oust(r, id);
      EmptyRoom(r);
      empty := |r.players| == 0;
    }

    method DropRoom(code: Code)
      requires Valid()
      modifies rm`rooms
      ensures Valid() && View() == old(View()).(rooms := old(View()).rooms - {code})
      ensures Worlds() == old(Worlds()) - {code}
    {
      AllStand(rm.rooms, owner, {});
      hide Stand, Housed, PictureOf;
      ghost var rooms, before := rm.rooms, PictureOf(rm.rooms);
      RemoveRoomAmong(rooms, owner, before, rm, code);
      SameEntries(rooms, owner, before);
      HousedDrop(rooms, owner, code);
      PictureDrop(rooms, code);
    }

    /** Takes the player out of its room, and the room off the map when that leaves it empty. */
    method Vacate(code: Code, id: Id) returns (ghost heir: Id)
      requires Valid() && code in rm.rooms
      modifies rm`rooms, rm.rooms.Values`players, rm.rooms.Values`clients, rm.rooms.Values`hostID
      ensures Valid() && Heir(old(View()).rooms[code], id, heir)
      ensures var s, room := old(View()), Removed(old(View()).rooms[code], id, heir);
              View() == if room.members == map[] then s.(rooms := s.rooms - {code}) else Put(s, code, room)
      ensures Worlds() == Left(old(Worlds()), code, id)
    {
      hide Heir, Removed, Housed, PictureOf;
      ghost var s, worlds := View(), Worlds();
      assert code in worlds by { UnderItsCode(code); InPicture(rm.rooms[code]); }
      var empty;
      empty, heir := Unseat(code, id);
      if empty {
        assert s.rooms[code := Removed(s.rooms[code], id, heir)] - {code} == s.rooms - {code};
        assert worlds[code := worlds[code] - {id}] - {code} == worlds - {code};
        DropRoom(code);
      }
    }

    method Unmap(client: Id)
      requires Valid()
      modifies router
      ensures Valid() && View() == old(View()).(playerMap := old(View()).playerMap - {client})
      ensures Worlds() == old(Worlds())
    {
      AllStand(rm.rooms, owner, {});
      hide Stand, Housed, PictureOf;
      ghost var before := PictureOf(rm.rooms);
      UnregisterAmong(rm.rooms, owner, before, router, client);
      SameEntries(rm.rooms, owner, before);
    }

    /** Leaving a room and losing the connection come to the same. */
    method RemovePlayer(client: Id) returns (ghost at: Option<Code>, ghost heir: Id)
      requires Valid()
      modifies rm`rooms, router, rm.rooms.Values`players, rm.rooms.Values`clients, rm.rooms.Values`hostID
      ensures Valid()
      ensures Enabled(old(View()), Leave(client, at, heir))
      ensures View() == Next(old(View()), Leave(client, at, heir))
      ensures Worlds() == HubWorlds(old(View()), old(Worlds()), Leave(client, at, heir), map[])
    {
      hide Finds, Enabled, Next, HubWorlds, View, Worlds, Heir, Removed, Left, PictureOf, Housed;
      at, heir := None, "";
      ghost var s, worlds := View(), Worlds();
      var id := router.GetPlayerID(client);
      IsPlayer(client);
      if id == "" {
        LeaveIs(s, worlds, client, at, heir);
        return;
      }
      var found := Locate(client);
      at := found;
      if found.Some? {
        heir := Vacate(found.value, id);
      }
      LeaveIs(s, worlds, client, at, heir);
      Unmap(client);
    }

    lemma IsPlayer(client: Id)
      ensures router.GetPlayerID(client) == PlayerOf(View(), client)
    {
    }

    static lemma LeaveIs(s: Server, worlds: map<Code, World>, client: Id, at: Option<Code>, heir: Id)
      requires PlayerOf(s, client) == "" ||
               (Finds(s, PlayerOf(s, client), at) &&
                (at.Some? ==> Heir(s.rooms[at.value], PlayerOf(s, client), heir)))
      ensures var step, id := Leave(client, at, heir), PlayerOf(s, client);
              && Enabled(s, step)
              && (id == "" ==> Next(s, step) == s && HubWorlds(s, worlds, step, map[]) == worlds)
              && (id != "" && at.None? ==>
                    && Next(s, step) == s.(playerMap := s.playerMap - {client})
                    && HubWorlds(s, worlds, step, map[]) == worlds)
              && (id != "" && at.Some? ==>
                    var room := Removed(s.rooms[at.value], id, heir);
                    && Next(s, step) ==
                       (if room.members == map[] then s.(rooms := s.rooms - {at.value}) else Put(s, at.value, room))
                         .(playerMap := s.playerMap - {client})
                    && HubWorlds(s, worlds, step, map[]) == Left(worlds, at.value, id))
    {
      hide Heir, Removed, Left;
    }

    /** Files a new, empty room under its code. */
    method OpenRoom() returns (r: Room, ghost draws: seq<Code>)
      requires Valid()
      modifies rm`rooms
      ensures Valid() && Holds(r) && fresh(r) && Codes.CodeDraw(r.code, draws, old(View()).rooms.Keys)
      ensures View() == Put(old(View()), r.code, NOBODY) && Worlds() == old(Worlds())[r.code := map[]]
    {
      AllStand(rm.rooms, owner, {});
      hide Stand, Housed, PictureOf, MembersOf;
      ghost var rooms, before := rm.rooms, PictureOf(rm.rooms);
      r, draws := CreateAmong(rooms, owner, before, rm);
      SameEntries(rooms, owner, before);
      HousedPut(rooms, owner, r);
      PicturePut(rooms, r);
      assert WorldOf(r.players) == map[];
    }

    method NewPlayer(id: Id) returns (player: Player)
      requires Valid()
      ensures Valid() && View() == old(View()) && Worlds() == old(Worlds())
      ensures fresh(player) && player !in owner && player.id == id && player.core == NEWCOMER && !player.ready
    {
      AllStand(rm.rooms, owner, {});
      hide Stand, Housed, PictureOf;
      ghost var before := PictureOf(rm.rooms);
      player := NewPlayerAmong(rm.rooms, owner, before, id);
      SameEntries(rm.rooms, owner, before);
    }

    ghost method Own(rooms: map<Code, Room>, owner: map<Player, Code>, before: Picture)
      requires Stand(rooms, owner, before, {})
      modifies `owner
      ensures this.owner == owner && Stand(rooms, owner, before, {})
    {
      hide Stands;
      this.owner := owner;
    }

    method SeatPlayer(client: Id, r: Room, player: Player) returns (added: bool)
      requires Valid() && Holds(r)
      requires player !in owner && player.core == NEWCOMER && !player.ready
      modifies `owner, r`players, r`clients, r`hostID
      ensures Valid() && added == !Full(old(View()).rooms[r.code])
      ensures var room := old(View()).rooms[r.code];
              View() == if added then Put(old(View()), r.code, Added(room, player.id, NEW_MEMBER, client))
                        else old(View())
      ensures Worlds() == if added then old(Worlds())[r.code := old(Worlds())[r.code][player.id := NEWCOMER]]
                          else old(Worlds())
    {
      InPicture(r);
      hide Added, Full, MembersOf, WorldOf, Home, Housed, PictureOf, Stand, Room.Party, Room.View;
      ghost var before, now := PictureOf(rm.rooms), owner;
      added, now := AddIn(rm.rooms, owner, before, rm, router, r, player, client);
      AllStand(rm.rooms, now, {});
      before := PictureOf(rm.rooms);
      Own(rm.rooms, now, before);
      SameEntries(rm.rooms, now, before);
    }

    /** Gives the client a new player in that room, if there is space. */
    method SeatNewPlayer(client: Id, r: Room) returns (added: bool, id: Id)
      requires Valid() && Holds(r)
      modifies `owner, router, r`players, r`clients, r`hostID
      ensures Valid() && added == !Full(old(View()).rooms[r.code])
      ensures View() == if added then Seat(old(View()), client, r.code, old(View()).rooms[r.code], id) else old(View())
      ensures Worlds() == if added then old(Worlds())[r.code := old(Worlds())[r.code][id := NEWCOMER]]
                          else old(Worlds())
    {
      hide Added, Full, Housed, PictureOf;
      id := *;
      var player := NewPlayer(id);
      added := SeatPlayer(client, r, player);
      if added {
        Remap(client, id);
      }
    }

    method Remap(client: Id, player: Id)
      requires Valid()
      modifies router
      ensures Valid() && View() == old(View()).(playerMap := old(View()).playerMap[client := player])
      ensures Worlds() == old(Worlds())
    {
      AllStand(rm.rooms, owner, {});
      hide Stand, Housed, PictureOf;
      ghost var before := PictureOf(rm.rooms);
      RegisterAmong(rm.rooms, owner, before, router, client, player);
      SameEntries(rm.rooms, owner, before);
    }

    /** A room that the client's new player has for itself. */
    method SettleIn(client: Id, r: Room) returns (player: Id)
      requires Valid() && Holds(r) && View().rooms[r.code] == NOBODY && Worlds()[r.code] == map[]
      modifies `owner, router, r`players, r`clients, r`hostID
      ensures Valid() && View() == Seat(old(View()), client, r.code, NOBODY, player)
      ensures Worlds() == old(Worlds())[r.code := map[player := NEWCOMER]]
    {
      hide Added, Housed, PictureOf;
      var added;
      added, player := SeatNewPlayer(client, r);
    }

    method HandleCreateRoom(client: Id, nickname: string) returns (ghost step: Option<Step>, ghost draws: seq<Code>)
      requires Valid()
      modifies `owner, rm`rooms, router
      ensures Valid() && (step.None? <==> nickname == "")
      ensures match step
              case None => View() == old(View()) && Worlds() == old(Worlds())
              case Some(s) =>
                && s.Create? && s.client == client && Codes.CodeDraw(s.code, draws, old(View()).rooms.Keys)
                && Enabled(old(View()), s) && View() == Next(old(View()), s)
                && Worlds() == HubWorlds(old(View()), old(Worlds()), s, map[])
    {
      hide Added, PictureOf, Housed, Codes.CodeDraw, View, Worlds, Next, HubWorlds, Seat, Put;
      step, draws := None, [];
      if nickname == "" {
        return;
      }
      ghost var s, worlds := View(), Worlds();
      var r;
      r, draws := OpenRoom();
      OpensEmpty(s, r.code);
      var player := SettleIn(client, r);
      step := Some(Create(client, r.code, player));
      SettledIs(s, worlds, client, r.code, player);
    }

    static lemma OpensEmpty(s: Server, code: Code)
      ensures code in Put(s, code, NOBODY).rooms && Put(s, code, NOBODY).rooms[code] == NOBODY
    {
    }

    static lemma SettledIs(s: Server, worlds: map<Code, World>, client: Id, code: Code, player: Id)
      ensures Next(s, Create(client, code, player)) == Seat(Put(s, code, NOBODY), client, code, NOBODY, player)
      ensures HubWorlds(s, worlds, Create(client, code, player), map[]) ==
              worlds[code := map[]][code := map[player := NEWCOMER]]
    {
      hide Added;
      assert s.rooms[code := NOBODY][code := Added(NOBODY, player, NEW_MEMBER, client)] ==
             s.rooms[code := Added(NOBODY, player, NEW_MEMBER, client)];
      assert worlds[code := map[]][code := map[player := NEWCOMER]] == worlds[code := map[player := NEWCOMER]];
    }

    method HandleJoinRoom(client: Id, code: Code, nickname: string) returns (ghost step: Option<Step>)
      requires Valid()
      modifies `owner, router, rm.rooms.Values`players, rm.rooms.Values`clients, rm.rooms.Values`hostID
      ensures Valid() && (step.None? <==> code == "" || nickname == "")
      ensures match step
              case None => View() == old(View()) && Worlds() == old(Worlds())
              case Some(s) =>
                && s.Join? && s.client == client && s.code == code
                && Enabled(old(View()), s) && View() == Next(old(View()), s)
                && Worlds() == HubWorlds(old(View()), old(Worlds()), s, map[])
    {
      step := None;
      if code == "" || nickname == "" {
        return;
      }
      step := Some(Join(client, code, ""));
      SameRooms();
      hide Added, Full, PictureOf, Housed;
      if code !in rm.rooms {
        return;
      }
      UnderItsCode(code);
      var added, player := SeatNewPlayer(client, rm.rooms[code]);
      step := Some(Join(client, code, player));
    }

    lemma SameRooms()
      ensures View().rooms.Keys == Worlds().Keys == rm.rooms.Keys
    {
    }

    method FindOpenRoom(preferred: Role) returns (found: Option<Code>)
      requires Valid()
      ensures Valid() && View() == old(View()) && Worlds() == old(Worlds())
      ensures Offers(View().rooms, preferred, found)
    {
      AllStand(rm.rooms, owner, {});
      hide Stand, Housed, PictureOf, Offers;
      ghost var before := PictureOf(rm.rooms);
      found := FindOpenAmong(rm.rooms, owner, before, rm, preferred);
      SameEntries(rm.rooms, owner, before);
    }

    method HandleRandomJoin(client: Id, nickname: string, preferredName: string) returns (ghost step: Option<Step>)
      requires Valid()
      modifies `owner, router, rm.rooms.Values`players, rm.rooms.Values`clients, rm.rooms.Values`hostID
      ensures Valid() && (step.None? <==> nickname == "")
      ensures match step
              case None => View() == old(View()) && Worlds() == old(Worlds())
              case Some(s) =>
                && s.RandomJoin? && s.client == client && s.preferred == RoleOf(preferredName)
                && Enabled(old(View()), s) && View() == Next(old(View()), s)
                && Worlds() == HubWorlds(old(View()), old(Worlds()), s, map[])
      ensures step != None && preferredName == "police" && RoomForPolice(old(View())) ==>
                var found := step.value.found;
                && found != None && found.value in old(View()).rooms
                && old(View()).rooms[found.value].state == Waiting && |old(View()).rooms[found.value].members| < 8
                && |WithRole(old(View()).rooms[found.value], Police)| < 2
    {
      step := None;
      if nickname == "" {
        return;
      }
      var preferred := RoleOf(preferredName);
      SameRooms();
      hide Added, Full, CanSelect, PictureOf, Housed, WithRole, RoomForPolice;
      var found := FindOpenRoom(preferred);
      RandomJoinRule(View(), client, preferred, found, "");
      step := Some(RandomJoin(client, preferred, found, ""));
      if found == None {
        return;
      }
      UnderItsCode(found.value);
      var added, player := SeatNewPlayer(client, rm.rooms[found.value]);
      step := Some(RandomJoin(client, preferred, found, player));
    }

    method Shift(ghost code: Code, p: Player, to: Position, now: real) returns (accepted: bool)
      requires Valid() && code in rm.rooms && p.id in rm.rooms[code].players && rm.rooms[code].players[p.id] == p
      modifies p`core, p`lastMoveTime
      ensures Valid() && View() == old(View())
      ensures Worlds() == if accepted then old(Worlds())[code := Moved(old(Worlds())[code], p.id, to)]
                          else old(Worlds())
      ensures accepted <==> Accepted(old(TrackOf(p)), Request(to, now, p.effects))
      ensures TrackOf(p) == Advance(old(TrackOf(p)), Request(to, now, p.effects))
      ensures p.core == old(p.core).(x := p.core.x, y := p.core.y)
    {
      UnderItsCode(code);
      ghost var r := rm.rooms[code];
      InPicture(r);
      AsPictured(r);
      hide MembersOf, WorldOf, Home, Housed, PictureOf, Accepted, Advance, Moved, Room.Party, Room.View, Put;
      ghost var before := PictureOf(rm.rooms);
      accepted := MoveIn(rm.rooms, owner, before, rm, router, r, p, to, now);
    }

    /** The player to move, if the client has one in a room that plays. */
    method FindMover(client: Id) returns (mover: Player?, ghost at: Option<Code>)
      requires Valid()
      ensures Valid() && View() == old(View()) && Worlds() == old(Worlds())
      ensures PlayerOf(View(), client) != "" ==> Finds(View(), PlayerOf(View(), client), at)
      ensures mover != null <==> PlayerOf(View(), client) != "" && at.Some? && View().rooms[at.value].state == Playing
      ensures mover != null ==>
                at.value in rm.rooms && Seated(View(), at.value, PlayerOf(View(), client))
                && mover == rm.rooms[at.value].players[PlayerOf(View(), client)] && mover in CrewOf(rm.rooms)
                && mover.id == PlayerOf(View(), client) && PlayerOf(View(), client) in rm.rooms[at.value].players
    {
      var id := router.GetPlayerID(client);
      mover, at := null, None;
      if id == "" {
        return;
      }
      var found := Locate(client);
      at := found;
      if found == None || rm.rooms[found.value].state != Playing {
        return;
      }
      UnderItsCode(found.value);
      InCrew(rm.rooms, rm.rooms[found.value]);
      mover := rm.rooms[found.value].players[id];
    }

    /**
     A player's move: to is the requested position clamped to the field. Nothing of the lobby changes,
     and no player but the mover, and of it only where it stands and when it moved.
     */
    method HandlePlayerMove(client: Id, x: real, y: real, now: real)
      returns (accepted: bool, mover: Player?, ghost at: Option<Code>, ghost to: Position)
      requires Valid()
      modifies CrewOf(rm.rooms)`core, CrewOf(rm.rooms)`lastMoveTime
      ensures Valid() && View() == old(View())
      ensures Worlds() ==
              if accepted && at.Some? then
                old(Worlds())[at.value := Moved(RoomOf(old(Worlds()), at.value), PlayerOf(View(), client), to)]
              else old(Worlds())
      ensures Clamps(Position(x, y), to) && to == Nearest(x, y) && rm.rooms == old(rm.rooms)
      ensures PlayerOf(View(), client) != "" ==> Finds(View(), PlayerOf(View(), client), at)
      ensures mover != null <==> PlayerOf(View(), client) != "" && at.Some? && View().rooms[at.value].state == Playing
      ensures if mover == null then !accepted
              else && at.value in rm.rooms && Seated(View(), at.value, PlayerOf(View(), client))
                   && mover == rm.rooms[at.value].players[PlayerOf(View(), client)]
                   && (accepted <==> Accepted(old(TrackOf(mover)), Request(to, now, mover.effects)))
                   && TrackOf(mover) == Advance(old(TrackOf(mover)), Request(to, now, mover.effects))
                   && mover.core == old(mover.core).(x := mover.core.x, y := mover.core.y)
                   && mover in old(CrewOf(rm.rooms)) && mover.id == PlayerOf(View(), client)
      ensures forall p :: p in old(CrewOf(rm.rooms)) && p != mover ==>
                p.core == old(p.core) && p.lastMoveTime == old(p.lastMoveTime)
    {
      hide Finds, Housed, PictureOf, Clamps, Accepted, Advance;
      var goal := ClampPosition(Position(x, y));
      accepted, to := false, goal;
      mover, at := FindMover(client);
      if mover != null {
        accepted := Shift(at.value, mover, goal, now);
      }
    }

    /**
     The router's dispatch: whatever a client sends, the lobby makes one of its steps for that client or
     stays as it is, and it stays as it is for a client that has not authenticated. A move goes to the
     gameplay handler and changes nothing but positions; authentication does not concern the lobby. spawn is
     where a game that the message prepares puts everyone, and mover the player that a move is for, with its room.
     */
    method HandleMessage(client: Id, authenticated: bool, m: Message)
      returns (ghost step: Option<Step>, ghost spawn: World, ghost at: Option<Code>, mover: Player?)
      requires Valid()
      modifies `owner, rm`rooms, router, rm.rooms.Values, CrewOf(rm.rooms)
      ensures Valid() && (step.Some? ==> authenticated && ClientOf(step.value) == Some(client))
      ensures if authenticated then Answers(m, step) else step == None
      ensures match step
              case None => View() == old(View()) && (!m.PlayerMove? ==> Worlds() == old(Worlds()))
              case Some(s) =>
                && Enabled(old(View()), s) && View() == Next(old(View()), s)
                && Worlds() == HubWorlds(old(View()), old(Worlds()), s, spawn)
                && forall code :: code in old(Worlds()) && Prepares(old(View()), s, code) ==>
                                    Spawned(old(Worlds())[code], spawn)
      ensures authenticated && m.PickTeam? && step != None && step.value.SelectTeam? ==>
                && (match step.value.at
                    case None => forall code :: !Seated(old(View()), code, PlayerOf(old(View()), client))
                    case Some(code) => Seated(old(View()), code, PlayerOf(old(View()), client)))
                && Picked(old(View()), old(Worlds()), View(), Worlds(), client, step.value.at, m.roleName)
      ensures authenticated && m.PlayerMove? ==>
                && (PlayerOf(View(), client) != "" ==> Finds(View(), PlayerOf(View(), client), at))
                && (mover != null <==>
                      PlayerOf(View(), client) != "" && at.Some? && View().rooms[at.value].state == Playing)
                && if mover == null then Worlds() == old(Worlds())
                   else mover in old(CrewOf(rm.rooms)) && mover.id == PlayerOf(View(), client)
                        && TrackOf(mover) ==
                           Advance(old(TrackOf(mover)), Request(Nearest(m.x, m.y), m.now, mover.effects))
      ensures !authenticated || m.PlayerMove? ==>
                step.None? && forall p :: p in old(CrewOf(rm.rooms)) ==>
                                p.core == old(p.core).(x := p.core.x, y := p.core.y)
      ensures !authenticated ==> forall p :: p in old(CrewOf(rm.rooms)) ==> p.core == old(p.core)
    {
      hide Housed, PictureOf, Enabled, Next, HubWorlds, Spawned, Picked, RoomForPolice, View, Worlds;
      hide CrewOf, Finds, Seated, PlayerOf, TrackOf, Advance, Accepted, Clamps, Nearest, Moved, WithRole, HasRole;
      step, spawn, at, mover := None, map[], None, null;
      if m.Authenticate? || !authenticated {
        return;
      }
      match m
      case CreateRoom(nickname) =>
        ghost var draws;
        step, draws := HandleCreateRoom(client, nickname);
      case JoinRoom(code, nickname) =>
        step := HandleJoinRoom(client, code, nickname);
      case RandomJoinRoom(nickname, preferred) =>
        step := HandleRandomJoin(client, nickname, preferred);
      case LeaveRoom =>
        ghost var heir;
        at, heir := RemovePlayer(client);
        step := Some(Leave(client, at, heir));
      case PickTeam(roleName) =>
        at := HandleSelectTeam(client, roleName);
        step := Some(SelectTeam(client, at, RoleOf(roleName)));
      case PlayerReady =>
        var started, r;
        ghost var luck;
        started, r, at, luck := HandlePlayerReady(client);
        step, spawn := Some(Ready(client, at)), SpawnAt(at);
      case ReturnToLobby =>
        var r;
        r, at := HandleReturnToLobby(client);
        step := Some(Return(client, at));
      case Authenticate =>
      case PlayerMove(x, y, now) =>
        var accepted;
        ghost var to;
        accepted, mover, at, to := HandlePlayerMove(client, x, y, now);
      case Unknown =>
    }
  }
}
