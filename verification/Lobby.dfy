/** The room manager and the router's player map, and every operation on one room among all the others. */
module Lobby {
  import opened GameTypes
  import opened LobbySpec
  import opened LobbyWorlds
  import Codes
  import opened Players
  import opened Crews
  import opened Geometry
  import opened Movement
  import opened Rooms
  import opened Ticks

  ghost function CrewOf(rooms: map<Code, Room>): set<Player>
    reads rooms.Values`players
  {
    set c, id | c in rooms && id in rooms[c].players :: rooms[c].players[id]
  }

  /** All these player objects belong to that room. */
  ghost predicate Owned(players: map<Id, Player>, owner: map<Player, Code>, code: Code) {
    forall id :: id in players ==> players[id] in owner && owner[players[id]] == code
  }

  /** The room bears that code, and its player objects belong to it. */
  ghost predicate Home(r: Room, code: Code, owner: map<Player, Code>)
    reads r
  {
    r.code == code && r.Valid() && Owned(r.players, owner, code)
  }

  /** Every room is filed under its code, and every player object belongs to one room. */
  ghost predicate Housed(rooms: map<Code, Room>, owner: map<Player, Code>)
    reads rooms.Values
  {
    forall c :: c in rooms ==> Home(rooms[c], c, owner)
  }

  ghost function PartiesOf(rooms: map<Code, Room>): (parties: map<Code, Party>)
    reads rooms.Values, CrewOf(rooms)
    ensures parties.Keys == rooms.Keys
  {
    map c | c in rooms :: rooms[c].Party()
  }

  ghost function WorldsOf(rooms: map<Code, Room>): (worlds: map<Code, World>)
    reads rooms.Values, CrewOf(rooms)
    ensures worlds.Keys == rooms.Keys
  {
    map c | c in rooms :: WorldOf(rooms[c].players)
  }

  /** The rooms as the lobby and as the mechanics see them. */
  datatype Picture = Picture(parties: map<Code, Party>, worlds: map<Code, World>)
  {
    function Put(code: Code, party: Party, w: World): Picture {
      Picture(parties[code := party], worlds[code := w])
    }

    function Drop(code: Code): Picture {
      Picture(parties - {code}, worlds - {code})
    }
  }

  ghost function PictureOf(rooms: map<Code, Room>): (p: Picture)
    reads rooms.Values, CrewOf(rooms)
    ensures p.parties.Keys == p.worlds.Keys == rooms.Keys
  {
    Picture(PartiesOf(rooms), WorldsOf(rooms))
  }

  /** The room is in order and looks like that. */
  ghost predicate Stands(r: Room, code: Code, owner: map<Player, Code>, party: Party, w: World)
    reads r, r.players.Values
  {
    Home(r, code, owner) && r.Party() == party && WorldOf(r.players) == w
  }

  /** Every room but those is in order and looks as in the picture. */
  ghost predicate Stand(rooms: map<Code, Room>, owner: map<Player, Code>, before: Picture, but: set<Code>)
    reads rooms.Values, CrewOf(rooms)
  {
    && rooms.Keys == before.parties.Keys == before.worlds.Keys
    && forall c :: c in rooms && c !in but ==> Stands(rooms[c], c, owner, before.parties[c], before.worlds[c])
  }

  lemma PartiesEntry(rooms: map<Code, Room>, owner: map<Player, Code>, before: Picture, code: Code)
    requires code in rooms && Stand(rooms, owner, before, {code})
    ensures PartiesOf(rooms) == before.parties[code := rooms[code].Party()]
  {
    hide MembersOf, WorldOf, Home;
  }

  lemma WorldsEntry(rooms: map<Code, Room>, owner: map<Player, Code>, before: Picture, code: Code)
    requires code in rooms && Stand(rooms, owner, before, {code})
    ensures WorldsOf(rooms) == before.worlds[code := WorldOf(rooms[code].players)]
  {
    hide MembersOf, WorldOf, Home;
  }

  lemma HousedEntry(rooms: map<Code, Room>, owner: map<Player, Code>, before: Picture, code: Code)
    requires code in rooms && Stand(rooms, owner, before, {code}) && Home(rooms[code], code, owner)
    ensures Housed(rooms, owner)
  {
    hide MembersOf, WorldOf, Home;
  }

  /** If every other room looks as before and is in order, only that room's entry has changed. */
  lemma OneEntry(rooms: map<Code, Room>, owner: map<Player, Code>, before: Picture, r: Room)
    requires r.code in rooms && rooms[r.code] == r && Home(r, r.code, owner)
    requires Stand(rooms, owner, before, {r.code})
    ensures PictureOf(rooms) == before.Put(r.code, r.Party(), WorldOf(r.players)) && Housed(rooms, owner)
  {
    hide MembersOf, WorldOf, Home, Stand, PartiesOf, WorldsOf, Housed;
    PartiesEntry(rooms, owner, before, r.code);
    WorldsEntry(rooms, owner, before, r.code);
    HousedEntry(rooms, owner, before, r.code);
  }

  /** The room shares no object with the others. */
  ghost predicate Detached(rooms: map<Code, Room>, r: Room)
    reads rooms.Values, r
  {
    forall c :: c in rooms && c != r.code ==>
      rooms[c] != r && (forall p :: p in rooms[c].players.Values ==> p !in r.players.Values)
  }

  lemma FiledDetached(rooms: map<Code, Room>, owner: map<Player, Code>, r: Room)
    requires Filed(rooms, owner, r)
    ensures Detached(rooms, r)
  {
    forall c | c in rooms && c != r.code
      ensures rooms[c] != r && (forall p :: p in rooms[c].players.Values ==> p !in r.players.Values)
    {
      assert Home(rooms[c], c, owner) && Home(r, r.code, owner);
    }
  }

  lemma AllStand(rooms: map<Code, Room>, owner: map<Player, Code>, but: set<Code>)
    requires Housed(rooms, owner)
    ensures Stand(rooms, owner, PictureOf(rooms), but)
  {
    hide MembersOf, WorldOf, Home;
  }

  /** What an operation on one of the rooms starts from. */
  lemma Files(rooms: map<Code, Room>, owner: map<Player, Code>, r: Room)
    requires Filed(rooms, owner, r)
    ensures r.code in rooms && rooms[r.code] == r && Home(r, r.code, owner)
    ensures Detached(rooms, r) && Stand(rooms, owner, PictureOf(rooms), {r.code})
    ensures PictureOf(rooms).parties[r.code] == r.Party() && PictureOf(rooms).worlds[r.code] == WorldOf(r.players)
    ensures PictureOf(rooms) == PictureOf(rooms).Put(r.code, r.Party(), WorldOf(r.players))
  {
    FiledDetached(rooms, owner, r);
    AllStand(rooms, owner, {r.code});
    AllStand(rooms, owner, {});
    hide MembersOf, WorldOf, Detached, Stand, Housed;
    var before := PictureOf(rooms);
    assert before.Put(r.code, r.Party(), WorldOf(r.players)).parties == before.parties;
    assert before.Put(r.code, r.Party(), WorldOf(r.players)).worlds == before.worlds;
  }

  lemma PartiesPut(rooms: map<Code, Room>, r: Room)
    ensures PartiesOf(rooms[r.code := r]) == PartiesOf(rooms)[r.code := r.Party()]
  {
    hide MembersOf;
  }

  lemma WorldsPut(rooms: map<Code, Room>, r: Room)
    ensures WorldsOf(rooms[r.code := r]) == WorldsOf(rooms)[r.code := WorldOf(r.players)]
  {
    hide WorldOf;
  }

  lemma PicturePut(rooms: map<Code, Room>, r: Room)
    ensures PictureOf(rooms[r.code := r]) == PictureOf(rooms).Put(r.code, r.Party(), WorldOf(r.players))
  {
    hide PartiesOf, WorldsOf;
    PartiesPut(rooms, r);
    WorldsPut(rooms, r);
  }

  lemma PictureDrop(rooms: map<Code, Room>, code: Code)
    ensures PictureOf(rooms - {code}) == PictureOf(rooms).Drop(code)
  {
    hide MembersOf, WorldOf;
  }

  lemma HousedPut(rooms: map<Code, Room>, owner: map<Player, Code>, r: Room)
    requires Housed(rooms, owner) && r.Valid() && r.players == map[]
    ensures Housed(rooms[r.code := r], owner)
  {
  }

  lemma HousedDrop(rooms: map<Code, Room>, owner: map<Player, Code>, code: Code)
    requires Housed(rooms, owner)
    ensures Housed(rooms - {code}, owner)
  {
  }

  lemma InCrew(rooms: map<Code, Room>, r: Room)
    requires r.code in rooms && rooms[r.code] == r
    ensures r in rooms.Values && r.players.Values <= CrewOf(rooms)
  {
  }

  // ----- One room of many -----

  ghost predicate Filed(rooms: map<Code, Room>, owner: map<Player, Code>, r: Room)
    reads rooms.Values
  {
    Housed(rooms, owner) && r.code in rooms && rooms[r.code] == r
  }

  // Each operation comes twice: here on a room with the others untouched, below on the registry as a whole.

  method SelectAmong(ghost rooms: map<Code, Room>, ghost owner: map<Player, Code>, ghost before: Picture,
      r: Room, id: Id, role: Role)
    requires Home(r, r.code, owner) && Detached(rooms, r)
    requires Stand(rooms, owner, before, {r.code}) && id in r.players
    modifies r.players.Values`core
    ensures Stand(rooms, owner, before, {r.code}) && Home(r, r.code, owner)
    ensures r.Party() == Selected(old(r.Party()), id, role)
    ensures WorldOf(r.players) == Recast(old(WorldOf(r.players)), id, role)
  {
    hide MembersOf, WorldOf, Registered, Apart, Stands, Selected, Recast;
    r.SetRole(id, role);
  }

  /** Toggles a player and, when that completes the team, prepares the game. */
  method ReadyRoom(r: Room, id: Id) returns (started: bool, ghost luck: Luck)
    requires r.Valid()
    modifies r, r.players.Values`core, r.players.Values`ready
    ensures r.Valid() && r.players == old(r.players)
    ensures r.Party() == Readied(old(r.Party()), id)
    ensures started <==> AllReady(Toggled(old(r.Party()), id).members)
    ensures r.GoesOn(old(r.View()), old(r.Life()), started, luck)
  {
    luck := NO_LUCK;
    started := ToggleIdle(r, id);
    hide MembersOf, WorldOf, Registered, Apart, Toggled, AllReady, Begun;
    if started {
      luck := r.PrepareGame();
    }
  }

  method ToggleIdle(r: Room, id: Id) returns (ready: bool)
    requires r.Valid()
    modifies r.players.Values`ready
    ensures r.Valid() && r.View() == old(r.View()) && r.Life() == old(r.Life())
    ensures r.Party() == Toggled(old(r.Party()), id) && (ready <==> AllReady(r.Party().members))
  {
    hide MembersOf, WorldOf, Registered, Apart, Toggled, AllReady;
    ready := r.TogglePlayerReady(id);
  }

  method ReadyAmong(ghost rooms: map<Code, Room>, ghost owner: map<Player, Code>, ghost before: Picture,
      r: Room, id: Id)
    returns (started: bool, ghost luck: Luck)
    requires Home(r, r.code, owner) && Detached(rooms, r)
    requires Stand(rooms, owner, before, {r.code})
    modifies r, r.players.Values`core, r.players.Values`ready
    ensures Stand(rooms, owner, before, {r.code}) && Home(r, r.code, owner)
    ensures r.players == old(r.players)
    ensures r.Party() == Readied(old(r.Party()), id)
    ensures started <==> AllReady(Toggled(old(r.Party()), id).members)
    ensures r.GoesOn(old(r.View()), old(r.Life()), started, luck)
  {
    hide MembersOf, WorldOf, Registered, Apart, Stands, Toggled, AllReady;
    started, luck := ReadyRoom(r, id);
  }

  method ResetAmong(ghost rooms: map<Code, Room>, ghost owner: map<Player, Code>, ghost before: Picture,
      r: Room)
    requires Home(r, r.code, owner) && Detached(rooms, r)
    requires Stand(rooms, owner, before, {r.code})
    modifies r`state, r.players.Values
    ensures Stand(rooms, owner, before, {r.code}) && Home(r, r.code, owner)
    ensures r.Party() == Rested(old(r.Party()))
    ensures r.StartedOver(old(r.View()).world)
  {
    hide MembersOf, WorldOf, Registered, Apart, Stands, Rested;
    r.Reset();
  }

  method AddAmong(ghost rooms: map<Code, Room>, ghost owner: map<Player, Code>, ghost before: Picture,
      r: Room, player: Player, client: Id)
    returns (added: bool)
    requires Home(r, r.code, owner) && Detached(rooms, r) && player.core == NEWCOMER && !player.ready
    requires Stand(rooms, owner, before, {r.code})
    modifies r`players, r`clients, r`hostID
    ensures Stand(rooms, owner, before, {r.code})
    ensures r.Valid() && (!added ==> Home(r, r.code, owner)) && added == !Full(old(r.Party()))
    ensures r.players == if added then old(r.players)[player.id := player] else old(r.players)
    ensures r.Party() == if added then Added(old(r.Party()), player.id, NEW_MEMBER, client) else old(r.Party())
    ensures WorldOf(r.players) ==
            if added then old(WorldOf(r.players))[player.id := NEWCOMER] else old(WorldOf(r.players))
  {
    hide MembersOf, WorldOf, Registered, Apart, Stands, Added, Full;
    added := r.AddPlayer(player, client);
  }

  /** A new player object belongs to the room that takes it in. */
  lemma Adopts(rooms: map<Code, Room>, owner: map<Player, Code>, before: Picture, r: Room,
               player: Player, players: map<Id, Player>)
    requires player !in owner && r.Valid() && r.players == players[player.id := player]
    requires Owned(players, owner, r.code) && Stand(rooms, owner, before, {r.code})
    ensures Home(r, r.code, owner[player := r.code])
    ensures Stand(rooms, owner[player := r.code], before, {r.code})
  {
    hide MembersOf, WorldOf, Registered, Apart;
    forall c | c in rooms && c != r.code
      ensures Stands(rooms[c], c, owner[player := r.code], before.parties[c], before.worlds[c])
    {
      assert Stands(rooms[c], c, owner, before.parties[c], before.worlds[c]);
    }
  }

  method SeatAmong(ghost rooms: map<Code, Room>, ghost owner: map<Player, Code>, ghost before: Picture,
      r: Room, player: Player, client: Id)
    returns (added: bool, ghost now: map<Player, Code>)
    requires Home(r, r.code, owner) && Detached(rooms, r) && player !in owner
    requires player.core == NEWCOMER && !player.ready
    requires Stand(rooms, owner, before, {r.code})
    modifies r`players, r`clients, r`hostID
    ensures now == if added then owner[player := r.code] else owner
    ensures Stand(rooms, now, before, {r.code}) && Home(r, r.code, now)
    ensures added == !Full(old(r.Party()))
    ensures r.Party() == if added then Added(old(r.Party()), player.id, NEW_MEMBER, client) else old(r.Party())
    ensures WorldOf(r.players) ==
            if added then old(WorldOf(r.players))[player.id := NEWCOMER] else old(WorldOf(r.players))
  {
    ghost var players := r.players;
    assert Owned(players, owner, r.code);
    hide MembersOf, WorldOf, Registered, Apart, Detached, Home, Owned, Stand, Added, Full;
    added := AddAmong(rooms, owner, before, r, player, client);
    now := owner;
    if added {
      Adopts(rooms, owner, before, r, player, players);
      now := owner[player := r.code];
    }
  }

  method RemoveAmong(ghost rooms: map<Code, Room>, ghost owner: map<Player, Code>, ghost before: Picture,
      r: Room, id: Id)
    requires Home(r, r.code, owner) && Detached(rooms, r)
    requires Stand(rooms, owner, before, {r.code})
    modifies r`players, r`clients, r`hostID
    ensures Stand(rooms, owner, before, {r.code}) && Home(r, r.code, owner)
    ensures r.players == old(r.players) - {id}
    ensures Heir(old(r.Party()), id, r.hostID) && r.Party() == Removed(old(r.Party()), id, r.hostID)
    ensures WorldOf(r.players) == old(WorldOf(r.players)) - {id}
  {
    hide MembersOf, WorldOf, Registered, Apart, Stands, Removed, Heir;
    r.RemovePlayer(id);
  }

  // ----- The manager, the router and the handlers -----

  class Manager {
    var rooms: map<Code, Room>

    constructor ()
      ensures rooms == map[]
    {
      rooms := map[];
    }

    /** A new room under a drawn code, in the place of any room that already has it. */
    method CreateRoom() returns (r: Room, ghost draws: seq<Code>)
      modifies `rooms
      ensures fresh(r) && r.Valid() && r.Party() == NOBODY && r.players == map[]
      ensures rooms == old(rooms)[r.code := r] && Codes.CodeDraw(r.code, draws, old(rooms).Keys)
    {
      var code;
      code, draws := Codes.GenerateCode(rooms.Keys);
      r := new Room(code);
      rooms := rooms[code := r];
    }

    method RemoveRoom(code: Code)
      modifies `rooms
      ensures rooms == old(rooms) - {code}
    {
      rooms := rooms - {code};
    }

    method FindRoomByPlayerID(id: Id) returns (code: Option<Code>)
      ensures match code
              case Some(c) => c in rooms && id in rooms[c].players
              case None => forall c :: c in rooms ==> id !in rooms[c].players
    {
      var left := rooms.Keys;
      while left != {}
        invariant left <= rooms.Keys
        invariant forall c :: c in rooms && c !in left ==> id !in rooms[c].players
      {
        var c :| c in left;
        if id in rooms[c].players {
          return Some(c);
        }
        left := left - {c};
      }
      return None;
    }

    method Survey(r: Room, preferredRole: Role) returns (open: bool, canSelect: bool)
      requires r.Valid()
      ensures open <==> Open(r.Party())
      ensures canSelect <==> CanSelect(r.Party(), preferredRole)
    {
      hide MembersOf, Registered, Apart;
      var space := r.HasSpace();
      canSelect := r.CanSelectRole(preferredRole);
      open := r.state == Waiting && space;
    }

    /** parties is what the rooms look like. */
    ghost predicate Look(parties: map<Code, Party>)
      reads this, rooms.Values, CrewOf(rooms)
    {
      parties.Keys == rooms.Keys && forall c :: c in rooms ==> rooms[c].Valid() && rooms[c].Party() == parties[c]
    }

    method SurveyAt(code: Code, preferredRole: Role, ghost parties: map<Code, Party>)
      returns (open: bool, canSelect: bool)
      requires Look(parties) && code in parties
      ensures Look(parties)
      ensures open <==> Open(parties[code])
      ensures canSelect <==> CanSelect(parties[code], preferredRole)
    {
      hide Open, CanSelect, MembersOf, Registered, Apart;
      open, canSelect := Survey(rooms[code], preferredRole);
    }

    /** The open rooms, and those of them with the preferred role left. */
    method Candidates(preferredRole: Role, ghost parties: map<Code, Party>)
      returns (available: seq<Code>, preferred: seq<Code>)
      requires Look(parties) && parties.Keys == rooms.Keys
      ensures Look(parties)
      ensures forall c :: c in available <==> c in parties && Open(parties[c])
      ensures forall c :: c in preferred <==> c in available && CanSelect(parties[c], preferredRole)
    {
      available, preferred := [], [];
      var left := rooms.Keys;
      hide Open, CanSelect, Look;
      while left != {}
        invariant left <= parties.Keys && Look(parties)
        invariant forall c :: c in available <==> c in parties && c !in left && Open(parties[c])
        invariant forall c :: c in preferred <==> c in available && CanSelect(parties[c], preferredRole)
      {
        var c :| c in left;
        var open, canSelect := SurveyAt(c, preferredRole, parties);
        if open {
          available := available + [c];
          if canSelect {
            preferred := preferred + [c];
          }
        }
        left := left - {c};
      }
    }

    /** An open room, at random, with the preferred role left if any open room has it. */
    method FindAvailableRoom(preferredRole: Role) returns (code: Option<Code>)
      requires forall c :: c in rooms ==> rooms[c].Valid()
      ensures Offers(PartiesOf(rooms), preferredRole, code)
    {
      ghost var parties := PartiesOf(rooms);
      Looks(parties);
      hide Open, CanSelect, PartiesOf, Offers, Look;
      var available, preferred := Candidates(preferredRole, parties);
      code := Pick(available, preferred);
      Looked(parties);
      PickOffers(parties, preferredRole, available, preferred, code);
    }

    lemma Looks(parties: map<Code, Party>)
      requires forall c :: c in rooms ==> rooms[c].Valid()
      ensures Look(parties) <==> PartiesOf(rooms) == parties
    {
    }

    lemma Looked(parties: map<Code, Party>)
      requires Look(parties)
      ensures PartiesOf(rooms) == parties
    {
    }

    static lemma PickOffers(parties: map<Code, Party>, role: Role, available: seq<Code>, preferred: seq<Code>,
                            code: Option<Code>)
      requires forall c :: c in available <==> c in parties && Open(parties[c])
      requires forall c :: c in preferred <==> c in available && CanSelect(parties[c], role)
      requires match code
               case Some(c) => if preferred != [] then c in preferred else c in available
               case None => preferred == [] && available == []
      ensures Offers(parties, role, code)
    {
      hide Open, CanSelect;
      if preferred != [] {
        assert preferred[0] in preferred;
      }
    }

    method Pick(available: seq<Code>, preferred: seq<Code>) returns (code: Option<Code>)
      ensures match code
              case Some(c) => if preferred != [] then c in preferred else c in available
              case None => preferred == [] && available == []
    {
      if |preferred| > 0 {
        var n :| 0 <= n < |preferred|;
        return Some(preferred[n]);
      }
      if |available| == 0 {
        return None;
      }
      var n :| 0 <= n < |available|;
      return Some(available[n]);
    }
  }

  class Router {
    var playerMap: map<Id, Id>

    constructor ()
      ensures playerMap == map[]
    {
      playerMap := map[];
    }

    method RegisterPlayer(client: Id, player: Id)
      modifies this
      ensures playerMap == old(playerMap)[client := player]
    {
      playerMap := playerMap[client := player];
    }

    method UnregisterPlayer(client: Id)
      modifies this
      ensures playerMap == old(playerMap) - {client}
    {
      playerMap := playerMap - {client};
    }

    function GetPlayerID(client: Id): Id
      reads this
    {
      if client in playerMap then playerMap[client] else ""
    }
  }

  // ----- One room of the manager's, with the rest of the registry -----

  method SelectIn(ghost rooms: map<Code, Room>, ghost owner: map<Player, Code>, ghost before: Picture,
      ghost rm: Manager, ghost router: Router, r: Room, id: Id, role: Role)
    requires Filed(rooms, owner, r) && before == PictureOf(rooms) && id in r.players
    modifies r.players.Values`core
    ensures rm.rooms == old(rm.rooms) && router.playerMap == old(router.playerMap)
    ensures Housed(rooms, owner)
    ensures PictureOf(rooms) ==
            before.Put(r.code, Selected(before.parties[r.code], id, role), Recast(before.worlds[r.code], id, role))
  {
    hide *;
    Files(rooms, owner, r);
    SelectAmong(rooms, owner, before, r, id, role);
    OneEntry(rooms, owner, before, r);
  }

  method ReadyIn(ghost rooms: map<Code, Room>, ghost owner: map<Player, Code>, ghost before: Picture,
      ghost rm: Manager, ghost router: Router, r: Room, id: Id)
    returns (started: bool, ghost luck: Luck)
    requires Filed(rooms, owner, r) && before == PictureOf(rooms)
    modifies r, r.players.Values`core, r.players.Values`ready
    ensures rm.rooms == old(rm.rooms) && router.playerMap == old(router.playerMap)
    ensures Housed(rooms, owner)
    ensures PictureOf(rooms) == before.Put(r.code, Readied(before.parties[r.code], id), WorldOf(r.players))
    ensures started <==> AllReady(Toggled(before.parties[r.code], id).members)
    ensures r.GoesOn(old(r.View()), old(r.Life()), started, luck)
  {
    hide *;
    Files(rooms, owner, r);
    started, luck := ReadyAmong(rooms, owner, before, r, id);
    OneEntry(rooms, owner, before, r);
  }

  method ResetIn(ghost rooms: map<Code, Room>, ghost owner: map<Player, Code>, ghost before: Picture,
      ghost rm: Manager, ghost router: Router, r: Room)
    requires Filed(rooms, owner, r) && before == PictureOf(rooms)
    modifies r`state, r.players.Values
    ensures rm.rooms == old(rm.rooms) && router.playerMap == old(router.playerMap)
    ensures Housed(rooms, owner)
    ensures PictureOf(rooms) == before.Put(r.code, Rested(before.parties[r.code]), WorldOf(r.players))
    ensures r.StartedOver(old(r.View()).world)
  {
    hide *;
    Files(rooms, owner, r);
    ResetAmong(rooms, owner, before, r);
    OneEntry(rooms, owner, before, r);
  }

  method AddIn(ghost rooms: map<Code, Room>, ghost owner: map<Player, Code>, ghost before: Picture,
      ghost rm: Manager, ghost router: Router, r: Room, player: Player, client: Id)
    returns (added: bool, ghost now: map<Player, Code>)
    requires Filed(rooms, owner, r) && before == PictureOf(rooms) && player !in owner
    requires player.core == NEWCOMER && !player.ready
    modifies r`players, r`clients, r`hostID
    ensures now == if added then owner[player := r.code] else owner
    ensures rm.rooms == old(rm.rooms) && router.playerMap == old(router.playerMap)
    ensures Housed(rooms, now) && added == !Full(before.parties[r.code])
    ensures PictureOf(rooms) ==
            if added then
              before.Put(r.code, Added(before.parties[r.code], player.id, NEW_MEMBER, client),
                         before.worlds[r.code][player.id := NEWCOMER])
            else before
  {
    hide *;
    Files(rooms, owner, r);
    added, now := SeatAmong(rooms, owner, before, r, player, client);
    OneEntry(rooms, now, before, r);
  }

  method RemoveIn(ghost rooms: map<Code, Room>, ghost owner: map<Player, Code>, ghost before: Picture,
      ghost rm: Manager, ghost router: Router, r: Room, id: Id)
    requires Filed(rooms, owner, r) && before == PictureOf(rooms)
    modifies r`players, r`clients, r`hostID
    ensures rm.rooms == old(rm.rooms) && router.playerMap == old(router.playerMap)
    ensures Housed(rooms, owner) && Heir(before.parties[r.code], id, r.hostID)
    ensures PictureOf(rooms) ==
            before.Put(r.code, Removed(before.parties[r.code], id, r.hostID), before.worlds[r.code] - {id})
  {
    hide *;
    Files(rooms, owner, r);
    RemoveAmong(rooms, owner, before, r, id);
    OneEntry(rooms, owner, before, r);
  }

  /** Only the mover's place changes. */
  method MoveIn(ghost rooms: map<Code, Room>, ghost owner: map<Player, Code>, ghost before: Picture,
      ghost rm: Manager, ghost router: Router, ghost r: Room, p: Player, to: Position, now: real)
    returns (accepted: bool)
    requires Filed(rooms, owner, r) && before == PictureOf(rooms) && p.id in r.players && r.players[p.id] == p
    modifies p`core, p`lastMoveTime
    ensures accepted <==> Accepted(old(TrackOf(p)), Request(to, now, p.effects))
    ensures TrackOf(p) == Advance(old(TrackOf(p)), Request(to, now, p.effects))
    ensures p.core == old(p.core).(x := p.core.x, y := p.core.y)
    ensures rm.rooms == old(rm.rooms) && router.playerMap == old(router.playerMap)
    ensures Housed(rooms, owner)
    ensures PictureOf(rooms) ==
            if accepted then before.Put(r.code, before.parties[r.code], Moved(before.worlds[r.code], p.id, to))
            else before
  {
    hide *;
    Files(rooms, owner, r);
    accepted := MoveAmong(rooms, owner, before, r, p, to, now);
    OneEntry(rooms, owner, before, r);
  }

  // ----- Operations that leave every room as it was -----

  /** If every room looks as before and is in order, so do all of them together. */
  lemma SameEntries(rooms: map<Code, Room>, owner: map<Player, Code>, before: Picture)
    requires Stand(rooms, owner, before, {})
    ensures PictureOf(rooms) == before && Housed(rooms, owner)
  {
    hide MembersOf, WorldOf, Home;
  }

  method CanSelectAmong(ghost rooms: map<Code, Room>, ghost owner: map<Player, Code>, ghost before: Picture,
      r: Room, role: Role)
    returns (can: bool)
    requires r.Valid()
    requires Stand(rooms, owner, before, {})
    ensures can <==> CanSelect(r.Party(), role)
    ensures Stand(rooms, owner, before, {})
  {
    hide MembersOf, WorldOf, Registered, Apart, Stands, CanSelect;
    can := r.CanSelectRole(role);
  }

  method RegisterAmong(ghost rooms: map<Code, Room>, ghost owner: map<Player, Code>, ghost before: Picture,
      router: Router, client: Id, player: Id)
    requires Stand(rooms, owner, before, {})
    modifies router
    ensures router.playerMap == old(router.playerMap)[client := player]
    ensures Stand(rooms, owner, before, {})
  {
    hide MembersOf, WorldOf, Stands;
    router.RegisterPlayer(client, player);
  }

  method UnregisterAmong(ghost rooms: map<Code, Room>, ghost owner: map<Player, Code>, ghost before: Picture,
      router: Router, client: Id)
    requires Stand(rooms, owner, before, {})
    modifies router
    ensures router.playerMap == old(router.playerMap) - {client}
    ensures Stand(rooms, owner, before, {})
  {
    hide MembersOf, WorldOf, Stands;
    router.UnregisterPlayer(client);
  }

  method FindAmong(ghost rooms: map<Code, Room>, ghost owner: map<Player, Code>, ghost before: Picture,
      rm: Manager, id: Id)
    returns (code: Option<Code>)
    requires Stand(rooms, owner, before, {})
    ensures match code
            case Some(c) => c in rm.rooms && id in rm.rooms[c].players
            case None => forall c :: c in rm.rooms ==> id !in rm.rooms[c].players
    ensures Stand(rooms, owner, before, {})
  {
    hide MembersOf, WorldOf, Stands;
    code := rm.FindRoomByPlayerID(id);
  }

  method FindOpenAmong(ghost rooms: map<Code, Room>, ghost owner: map<Player, Code>, ghost before: Picture,
      rm: Manager, preferred: Role)
    returns (code: Option<Code>)
    requires rooms == rm.rooms && Stand(rooms, owner, before, {})
    ensures Offers(before.parties, preferred, code)
    ensures Stand(rooms, owner, before, {})
  {
    hide Stands, Offers, Housed, PictureOf, PartiesOf, WorldsOf, MembersOf, WorldOf, Home, Room.Valid;
    SameEntries(rooms, owner, before);
    Standing(rooms, owner);
    code := rm.FindAvailableRoom(preferred);
    SameEntries(rooms, owner, before);
    Standing(rooms, owner);
  }

  lemma Standing(rooms: map<Code, Room>, owner: map<Player, Code>)
    requires Housed(rooms, owner)
    ensures PictureOf(rooms).parties == PartiesOf(rooms)
    ensures forall c :: c in rooms ==> rooms[c].Valid()
  {
    assert forall c :: c in rooms ==> Home(rooms[c], c, owner);
  }

  method CreateAmong(ghost rooms: map<Code, Room>, ghost owner: map<Player, Code>, ghost before: Picture,
      rm: Manager) returns (r: Room, ghost draws: seq<Code>)
    requires Stand(rooms, owner, before, {})
    modifies rm`rooms
    ensures fresh(r) && r.Valid() && r.Party() == NOBODY && r.players == map[]
    ensures rm.rooms == old(rm.rooms)[r.code := r] && Codes.CodeDraw(r.code, draws, old(rm.rooms).Keys)
    ensures Stand(rooms, owner, before, {})
  {
    hide MembersOf, WorldOf, Stands;
    r, draws := rm.CreateRoom();
  }

  method RemoveRoomAmong(ghost rooms: map<Code, Room>, ghost owner: map<Player, Code>, ghost before: Picture,
      rm: Manager, code: Code)
    requires Stand(rooms, owner, before, {})
    modifies rm`rooms
    ensures rm.rooms == old(rm.rooms) - {code}
    ensures Stand(rooms, owner, before, {})
  {
    hide MembersOf, WorldOf, Stands;
    rm.RemoveRoom(code);
  }

  method NewPlayerAmong(ghost rooms: map<Code, Room>, ghost owner: map<Player, Code>, ghost before: Picture,
      id: Id) returns (player: Player)
    requires Stand(rooms, owner, before, {})
    ensures fresh(player) && player !in owner
    ensures player.id == id && player.core == NEWCOMER && !player.ready
    ensures Stand(rooms, owner, before, {})
  {
    hide MembersOf, WorldOf, Stands;
    player := new Player(id);
  }

  method MoveAmong(ghost rooms: map<Code, Room>, ghost owner: map<Player, Code>, ghost before: Picture,
      ghost r: Room, p: Player, to: Position, now: real)
    returns (accepted: bool)
    requires Home(r, r.code, owner) && Detached(rooms, r) && p.id in r.players && r.players[p.id] == p
    requires Stand(rooms, owner, before, {r.code})
    modifies p`core, p`lastMoveTime
    ensures accepted <==> Accepted(old(TrackOf(p)), Request(to, now, p.effects))
    ensures TrackOf(p) == Advance(old(TrackOf(p)), Request(to, now, p.effects))
    ensures p.core == old(p.core).(x := p.core.x, y := p.core.y)
    ensures Stand(rooms, owner, before, {r.code}) && Home(r, r.code, owner)
    ensures r.Party() == old(r.Party())
    ensures WorldOf(r.players) ==
            if accepted then Moved(old(WorldOf(r.players)), p.id, to) else old(WorldOf(r.players))
  {
    hide Stands, Accepted, Apart;
    assert p in r.players.Values;
    accepted := MovePlayer(p, to, now);
    assert MembersOf(r.players) == old(MembersOf(r.players));
    assert p.core == if accepted then old(p.core).(x := to.x, y := to.y) else old(p.core);
    assert WorldOf(r.players) == if accepted then Moved(old(WorldOf(r.players)), p.id, to) else old(WorldOf(r.players));
  }
}
