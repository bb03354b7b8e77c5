/** The rules of the lobby in plain numbers, step by step: who gets in, who may pick what, and when a game starts. */
module LobbyRules {
  import opened GameTypes
  import opened Geometry
  import opened LobbySpec
  import opened LobbyWorlds
  import GameSpec

  /** The players of a room with that role. */
  function WithRole(p: Party, role: Role): set<Id> {
    set id | id in p.members && p.members[id].role == role
  }

  /** s with another entry for that room. */
  function Except(s: Server, code: Code, p: Party): Server {
    Server(s.rooms[code := p], s.playerMap)
  }

  /** A client that creates a room sits in it alone, as its host, with no role and not ready, while it waits. */
  lemma CreateRule(s: Server, client: Id, code: Code, player: Id)
    ensures Next(s, Create(client, code, player)) ==
            Server(s.rooms[code := Party(Waiting, map[player := Member(NoRole, false)], map[player := client], player)],
                   s.playerMap[client := player])
  {
  }

  /**
   Whatever a room is doing, a client that joins it gets a new player there, with no role and not ready, if and only
   if fewer than eight are in it; otherwise nothing changes.
   */
  lemma JoinRule(s: Server, client: Id, code: Code, player: Id)
    ensures var t := Next(s, Join(client, code, player));
            if code in s.rooms && |s.rooms[code].members| < 8 then
              var p := s.rooms[code];
              && t.playerMap == s.playerMap[client := player]
              && t.rooms.Keys == s.rooms.Keys
              && (forall c :: c in s.rooms && c != code ==> t.rooms[c] == s.rooms[c])
              && t.rooms[code].state == p.state
              && t.rooms[code].members == p.members[player := Member(NoRole, false)]
              && t.rooms[code].clients == p.clients[player := client]
              && t.rooms[code].host == (if p.members.Keys <= {player} then player else p.host)
            else t == s
  {
    if code in s.rooms && |s.rooms[code].members| < 8 {
      var p := s.rooms[code];
      OneMember(p.members, player, Member(NoRole, false));
    }
  }

  lemma OneMember(members: map<Id, Member>, id: Id, m: Member)
    ensures |members[id := m]| == 1 <==> members.Keys <= {id}
  {
    var keys := members.Keys + {id};
    assert members[id := m].Keys == keys;
    assert |members[id := m]| == |keys|;
    if members.Keys <= {id} {
      assert keys == {id};
    }
    if |keys| == 1 {
      assert |keys - {id}| == 0;
      assert members.Keys <= {id};
    }
  }

  /** Some room is waiting with fewer than eight players, fewer than two of them police. */
  ghost predicate RoomForPolice(s: Server) {
    exists c :: c in s.rooms && s.rooms[c].state == Waiting && |s.rooms[c].members| < 8
                && |WithRole(s.rooms[c], Police)| < 2
  }

  /**
   A random join finds no room exactly if none is waiting with fewer than eight players; else it finds such a
   room, and one with fewer than two police if the client would be police and any of them has so few.
   */
  lemma RandomJoinRule(s: Server, client: Id, preferred: Role, found: Option<Code>, player: Id)
    requires Enabled(s, RandomJoin(client, preferred, found, player))
    ensures found == None <==> forall c :: c in s.rooms ==> !(s.rooms[c].state == Waiting && |s.rooms[c].members| < 8)
    ensures found != None ==>
              && found.value in s.rooms && s.rooms[found.value].state == Waiting && |s.rooms[found.value].members| < 8
              && Next(s, RandomJoin(client, preferred, found, player)) == Next(s, Join(client, found.value, player))
    ensures preferred == Police && RoomForPolice(s) ==> found != None && |WithRole(s.rooms[found.value], Police)| < 2
  {
    forall c | c in s.rooms
      ensures Open(s.rooms[c]) <==> s.rooms[c].state == Waiting && |s.rooms[c].members| < 8
      ensures CanSelect(s.rooms[c], Police) <==> |WithRole(s.rooms[c], Police)| < 2
    {
      assert PoliceOf(s.rooms[c].members) == WithRole(s.rooms[c], Police);
    }
    hide CanSelect, Open, WithRole;
  }

  /**
   In a room in any state a player becomes police if and only if fewer than two are, and a thief always; nothing
   else about the server changes.
   */
  lemma SelectRule(s: Server, client: Id, code: Code, role: Role)
    requires code in s.rooms && PlayerOf(s, client) in s.rooms[code].members
    ensures var id, p := PlayerOf(s, client), s.rooms[code];
            Next(s, SelectTeam(client, Some(code), role)) ==
            if role == Thief || (role == Police && |WithRole(p, Police)| < 2) then
              Except(s, code, p.(members := p.members[id := Member(role, p.members[id].ready)]))
            else s
  {
    assert PoliceOf(s.rooms[code].members) == WithRole(s.rooms[code], Police);
  }

  // ----- Getting ready -----

  /** The player can complete the team: it has a role and is not ready, and all others have one and are. */
  predicate LastToGetReady(p: Party, id: Id) {
    && id in p.members && !p.members[id].ready && p.members[id].role != NoRole
    && forall other :: other in p.members && other != id ==> p.members[other].ready && p.members[other].role != NoRole
  }

  /**
   A game is prepared if and only if a client's player is the last to get ready in a room of two or more, of
   any size, that has police and thieves. Otherwise its readiness flips and the room goes on as it was.
   */
  lemma ReadyRule(s: Server, client: Id, code: Code)
    requires code in s.rooms && PlayerOf(s, client) in s.rooms[code].members
    ensures var id, p, step := PlayerOf(s, client), s.rooms[code], Ready(client, Some(code));
            var starts := && LastToGetReady(p, id) && |p.members| >= 2
                          && (exists cop :: cop in p.members && p.members[cop].role == Police)
                          && (exists thief :: thief in p.members && p.members[thief].role == Thief);
            && (Prepares(s, step, code) <==> starts)
            && Next(s, step) ==
               Except(s, code, p.(members := p.members[id := Member(p.members[id].role, !p.members[id].ready)],
                                  state := if starts then Playing else p.state))
  {
    var id, p := PlayerOf(s, client), s.rooms[code];
    var m := Toggled(p, id).members;
    assert m == p.members[id := Member(p.members[id].role, !p.members[id].ready)];
    assert m.Keys == p.members.Keys;
    assert |m| == |m.Keys| == |p.members.Keys| == |p.members|;
    assert forall i :: i in m ==> m[i].role == p.members[i].role;
    ToggledReady(p, id);
    hide Toggled, LastToGetReady;
  }

  lemma ToggledReady(p: Party, id: Id)
    requires id in p.members
    ensures (forall i :: i in Toggled(p, id).members ==>
              Toggled(p, id).members[i].ready && Toggled(p, id).members[i].role != NoRole) <==> LastToGetReady(p, id)
  {
    var m := Toggled(p, id).members;
    assert forall i :: i in p.members ==> i in m && m[i].role == p.members[i].role;
    assert m[id].ready == !p.members[id].ready;
  }

  // ----- Coming back and leaving -----

  /** A return brings an ended room, and no other, back to waiting with nobody ready; roles, host and seats stay. */
  lemma ReturnRule(s: Server, client: Id, code: Code)
    requires Enabled(s, Return(client, Some(code)))
    ensures var t, p := Next(s, Return(client, Some(code))), s.rooms[code];
            if p.state == Ended then
              && code in t.rooms
              && t == Except(s, code, t.rooms[code])
              && t.rooms[code].state == Waiting && t.rooms[code].clients == p.clients && t.rooms[code].host == p.host
              && t.rooms[code].members.Keys == p.members.Keys
              && forall id :: id in p.members ==> t.rooms[code].members[id] == Member(p.members[id].role, false)
            else t == s
  {
  }

  /**
   A client that leaves takes its player out of its room and off the map. The room goes with its last player; else
   the host stays, or one of those who stay becomes host.
   */
  lemma LeaveRule(s: Server, client: Id, code: Code, heir: Id)
    requires Enabled(s, Leave(client, Some(code), heir)) && PlayerOf(s, client) != ""
    ensures var t, p, id := Next(s, Leave(client, Some(code), heir)), s.rooms[code], PlayerOf(s, client);
            && t.playerMap == s.playerMap - {client}
            && (p.members.Keys == {id} ==> t.rooms == s.rooms - {code})
            && (p.members.Keys != {id} ==>
                  && t.rooms == s.rooms[code := Party(p.state, p.members - {id}, p.clients - {id}, heir)]
                  && (if p.host == id then heir in p.members && heir != id else heir == p.host))
  {
    var p, id := s.rooms[code], PlayerOf(s, client);
    assert id in p.members;
    assert (p.members - {id}).Keys == p.members.Keys - {id};
    if p.members.Keys != {id} {
      var other :| other in p.members && other != id;
      assert other in p.members - {id};
    }
  }

  /** In a sound registry every room has one to eight players, its host among them, and at most two police. */
  lemma RoomRule(s: Server, code: Code)
    requires Sound(s) && code in s.rooms
    ensures 1 <= |s.rooms[code].members| <= 8 && s.rooms[code].host in s.rooms[code].members
    ensures |WithRole(s.rooms[code], Police)| <= 2
  {
    assert PartyOk(s.rooms[code]);
    assert PoliceOf(s.rooms[code].members) == WithRole(s.rooms[code], Police);
  }

  // ----- What the steps do to the players -----

  /** The lobby and the mechanics both have that player in that room with that role. */
  predicate HasRole(s: Server, worlds: map<Code, World>, code: Code, id: Id, role: Role) {
    && code in s.rooms && id in s.rooms[code].members && s.rooms[code].members[id].role == role
    && code in worlds && id in worlds[code] && worlds[code][id].role == role
  }

  /** A team choice changes one role and nothing else of any player. */
  lemma SelectWorldRule(s: Server, worlds: map<Code, World>, client: Id, code: Code, role: Role, spawn: World)
    requires code in s.rooms && PlayerOf(s, client) in s.rooms[code].members
    requires code in worlds && PlayerOf(s, client) in worlds[code]
    ensures var id, w := PlayerOf(s, client), worlds[code];
            HubWorlds(s, worlds, SelectTeam(client, Some(code), role), spawn) ==
            if role == Thief || (role == Police && |WithRole(s.rooms[code], Police)| < 2) then
              worlds[code := w[id := Core(role, w[id].state, w[id].x, w[id].y,
                                          w[id].arrestGauge, w[id].rescueGauge, w[id].invincibleTimer)]]
            else worlds
    ensures role == Thief || (role == Police && |WithRole(s.rooms[code], Police)| < 2) ==>
              var step := SelectTeam(client, Some(code), role);
              HasRole(Next(s, step), HubWorlds(s, worlds, step, spawn), code, PlayerOf(s, client), role)
  {
    SelectRule(s, client, code, role);
    assert PoliceOf(s.rooms[code].members) == WithRole(s.rooms[code], Police);
    hide WithRole, PoliceOf;
  }

  /** A new player is free at (0, 0) with empty gauges; nobody else changes. */
  lemma JoinWorldRule(s: Server, worlds: map<Code, World>, client: Id, code: Code, player: Id, spawn: World)
    requires worlds.Keys == s.rooms.Keys
    ensures HubWorlds(s, worlds, Create(client, code, player), spawn) ==
            worlds[code := map[player := Core(NoRole, Free, 0.0, 0.0, 0, 0, 0)]]
    ensures HubWorlds(s, worlds, Join(client, code, player), spawn) ==
            if code in s.rooms && |s.rooms[code].members| < 8 then
              worlds[code := worlds[code][player := Core(NoRole, Free, 0.0, 0.0, 0, 0, 0)]]
            else worlds
  {
  }

  /** After a return everyone of an ended room is free at (0, 0) with empty gauges, in its role. */
  lemma ReturnWorldRule(s: Server, worlds: map<Code, World>, client: Id, code: Code, spawn: World, id: Id)
    requires Enabled(s, Return(client, Some(code))) && code in worlds && id in worlds[code]
    ensures var ws := HubWorlds(s, worlds, Return(client, Some(code)), spawn);
            if s.rooms[code].state == Ended then
              && ws.Keys == worlds.Keys && (forall c :: c in worlds && c != code ==> ws[c] == worlds[c])
              && ws[code].Keys == worlds[code].Keys
              && ws[code][id] == Core(worlds[code][id].role, Free, 0.0, 0.0, 0, 0, 0)
            else ws == worlds
  {
  }

  /** A player that leaves is gone, and its room with it if it was alone there; nobody else changes. */
  lemma LeaveWorldRule(s: Server, worlds: map<Code, World>, client: Id, code: Code, heir: Id, spawn: World)
    requires Enabled(s, Leave(client, Some(code), heir)) && PlayerOf(s, client) != "" && code in worlds
    ensures var ws, id := HubWorlds(s, worlds, Leave(client, Some(code), heir), spawn), PlayerOf(s, client);
            if worlds[code].Keys <= {id} then ws == worlds - {code} else ws == worlds[code := worlds[code] - {id}]
  {
    var id := PlayerOf(s, client);
    assert (worlds[code] - {id}).Keys == worlds[code].Keys - {id};
    if !(worlds[code].Keys <= {id}) {
      var other :| other in worlds[code] && other != id;
      assert other in worlds[code] - {id};
    }
  }

  /** A game meets between its ticks what team choices, moves, joins and leaves do to the players of its room. */
  lemma ChangeRule(w: World, id: Id, role: Role, x: real, y: real)
    ensures GameSpec.ChangeWorld(w, GameSpec.Change.SetRole(id, role)) == Recast(w, id, role)
    ensures GameSpec.ChangeWorld(w, GameSpec.Change.Move(id, x, y)) == Moved(w, id, Position(x, y))
    ensures GameSpec.ChangeWorld(w, GameSpec.Change.Join(id)) == w[id := Core(NoRole, Free, 0.0, 0.0, 0, 0, 0)]
    ensures GameSpec.ChangeWorld(w, GameSpec.Change.Leave(id)) == w - {id}
    ensures id in w ==>
              && Recast(w, id, role) == w[id := w[id].(role := role)]
              && Moved(w, id, Position(x, y)) == w[id := w[id].(x := x, y := y)]
  {
  }
}
