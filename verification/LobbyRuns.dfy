/** What every run of lobby steps keeps, and the exact conditions where the code asks for too little. */
module LobbyRuns {
  import opened GameTypes
  import opened LobbySpec

  // ----- Each operation keeps a room in order -----

  /** q is p after a change that seats and unseats nobody. */
  ghost predicate Alters(p: Party, q: Party) {
    PartyOk(p) ==> PartyOk(q) && q.members.Keys == p.members.Keys && q.clients == p.clients
  }

  lemma AddedOk(p: Party, id: Id, client: Id)
    requires (PartyOk(p) && !Full(p)) || p == NOBODY
    requires id !in p.members && id != ""
    ensures PartyOk(Added(p, id, NEW_MEMBER, client))
  {
    var q := Added(p, id, NEW_MEMBER, client);
    assert PoliceOf(q.members) == PoliceOf(p.members);
    if p == NOBODY {
      assert q.members == map[id := NEW_MEMBER];
    }
  }

  lemma RemovedOk(p: Party, id: Id, heir: Id)
    requires PartyOk(p) && id in p.members && Heir(p, id, heir) && Removed(p, id, heir).members != map[]
    ensures PartyOk(Removed(p, id, heir))
  {
    var q := Removed(p, id, heir);
    SubsetSize(q.members.Keys, p.members.Keys);
    SubsetSize(PoliceOf(q.members), PoliceOf(p.members));
  }

  lemma SelectedOk(p: Party, id: Id, role: Role)
    requires id in p.members && CanSelect(p, role)
    ensures Alters(p, Selected(p, id, role))
  {
    var q := Selected(p, id, role);
    assert q.members.Keys == p.members.Keys;
    SubsetSize(PoliceOf(q.members), PoliceOf(p.members) + if role == Police then {id} else {});
  }

  lemma ReadiedOk(p: Party, id: Id)
    requires id in p.members
    ensures Alters(p, Readied(p, id))
  {
    assert Readied(p, id).members.Keys == p.members.Keys;
    assert PoliceOf(Readied(p, id).members) == PoliceOf(p.members);
  }

  lemma RestedOk(p: Party)
    ensures Alters(p, Rested(p))
  {
    assert Rested(p).members.Keys == p.members.Keys;
    assert PoliceOf(Rested(p).members) == PoliceOf(p.members);
  }

  // ----- Each step keeps the registry -----

  /** Every player of t sits where it sat in s. */
  ghost predicate Stays(s: Server, t: Server) {
    forall c, id :: Seated(t, c, id) ==> Seated(s, c, id)
  }

  lemma PartedStays(s: Server, t: Server)
    requires Parted(s) && Stays(s, t)
    ensures Parted(t)
  {
    hide Seated;
  }

  lemma RoomsOkPut(s: Server, code: Code, room: Party)
    requires RoomsOk(s) && PartyOk(room)
    ensures RoomsOk(Put(s, code, room))
  {
    hide PartyOk;
  }

  lemma SoundPut(s: Server, code: Code, room: Party)
    requires Sound(s) && code in s.rooms && Alters(s.rooms[code], room)
    ensures Sound(Put(s, code, room))
  {
    hide PoliceOf;
    var t := Put(s, code, room);
    assert PartyOk(s.rooms[code]);
    hide PartyOk;
    RoomsOkPut(s, code, room);
    PartedStays(s, t);
    hide RoomsOk, Parted, Served;
    forall c | c in t.playerMap
      ensures Served(t, c)
    {
      PutServes(s, code, room, c);
    }
  }

  lemma PutServes(s: Server, code: Code, room: Party, c: Id)
    requires code in s.rooms && Served(s, c)
    requires room.members.Keys == s.rooms[code].members.Keys && room.clients == s.rooms[code].clients
    ensures Served(Put(s, code, room), c)
  {
    var at :| Serves(s, at, c, s.playerMap[c]);
    assert Serves(Put(s, code, room), at, c, s.playerMap[c]);
  }

  lemma SeatServes(s: Server, client: Id, code: Code, room: Party, player: Id, c: Id)
    requires FreshPlayer(s, player) && (code in s.rooms ==> room == s.rooms[code])
    requires c == client || Served(s, c)
    ensures Served(Seat(s, client, code, room, player), c)
  {
    hide PoliceOf;
    var t := Seat(s, client, code, room, player);
    if c == client {
      assert Serves(t, code, client, player);
    } else {
      var at :| Serves(s, at, c, s.playerMap[c]);
      assert Seated(s, at, s.playerMap[c]);
      assert Serves(t, at, c, t.playerMap[c]);
    }
  }

  lemma SeatParts(s: Server, client: Id, code: Code, room: Party, player: Id)
    requires Parted(s) && FreshPlayer(s, player)
    requires if code in s.rooms then room == s.rooms[code] else room == NOBODY
    ensures Parted(Seat(s, client, code, room, player))
  {
    hide PoliceOf;
    var t := Seat(s, client, code, room, player);
    forall c, id
      ensures Seated(t, c, id) <==> Seated(s, c, id) || (c == code && id == player)
    {
    }
    hide Seated, Seat;
  }

  lemma SoundSeat(s: Server, client: Id, code: Code, room: Party, player: Id)
    requires Sound(s) && FreshPlayer(s, player)
    requires if code in s.rooms then room == s.rooms[code] && !Full(room) else room == NOBODY
    ensures Sound(Seat(s, client, code, room, player))
  {
    hide Added, PartyOk;
    var t := Seat(s, client, code, room, player);
    assert !Seated(s, code, player);
    AddedOk(room, player, client);
    RoomsOkPut(s, code, Added(room, player, NEW_MEMBER, client));
    SeatParts(s, client, code, room, player);
    forall c | c in t.playerMap
      ensures Served(t, c)
    {
      SeatServes(s, client, code, room, player, c);
    }
  }

  /** Where the departing client's player sits. */
  lemma Home(s: Server, client: Id, at: Option<Code>)
    requires Sound(s) && client in s.playerMap && Finds(s, s.playerMap[client], at)
    ensures at.Some? && Serves(s, at.value, client, s.playerMap[client])
    ensures PartyOk(s.rooms[at.value]) && s.playerMap[client] != ""
  {
    assert Served(s, client);
    var home :| Serves(s, home, client, s.playerMap[client]);
    assert Seated(s, home, s.playerMap[client]);
  }

  lemma DepartServes(s: Server, client: Id, home: Code, heir: Id, c: Id)
    requires Parted(s) && Served(s, client) && Serves(s, home, client, s.playerMap[client])
    requires s.playerMap[client] != "" && c != client && Served(s, c)
    ensures Served(Departed(s, client, Some(home), heir), c)
  {
    Alone(s, c, client);
    hide Parted;
    var t := Departed(s, client, Some(home), heir);
    var b :| Serves(s, b, c, s.playerMap[c]);
    if b == home {
      assert s.playerMap[c] in Removed(s.rooms[home], s.playerMap[client], heir).members;
    }
    assert Serves(t, b, c, t.playerMap[c]);
  }

  lemma SoundDepart(s: Server, client: Id, at: Option<Code>, heir: Id)
    requires Sound(s) && PlayerOf(s, client) != "" && Enabled(s, Leave(client, at, heir))
    ensures Sound(Departed(s, client, at, heir))
  {
    Home(s, client, at);
    var id, t := s.playerMap[client], Departed(s, client, at, heir);
    if Removed(s.rooms[at.value], id, heir).members != map[] {
      RemovedOk(s.rooms[at.value], id, heir);
    }
    hide PartyOk, Served;
    PartedStays(s, t);
    forall c | c in t.playerMap
      ensures Served(t, c)
    {
      DepartServes(s, client, at.value, heir, c);
    }
  }

  /** Every step with fresh ids keeps the registry sound. */
  lemma SoundStep(s: Server, step: Step)
    requires Sound(s) && Enabled(s, step) && FreshIds(s, step)
    ensures Sound(Next(s, step))
  {
    hide Sound, PartyOk, PoliceOf, Added, Removed, Rested, Readied, Selected;
    match step
    case Create(client, code, player) =>
      SoundSeat(s, client, code, NOBODY, player);
    case Join(client, code, player) =>
      if code in s.rooms && !Full(s.rooms[code]) {
        SoundSeat(s, client, code, s.rooms[code], player);
      }
    case RandomJoin(client, _, found, player) =>
      if found.Some? {
        SoundSeat(s, client, found.value, s.rooms[found.value], player);
      }
    case Leave(client, at, heir) =>
      if PlayerOf(s, client) != "" {
        SoundDepart(s, client, at, heir);
      }
    case SelectTeam(client, at, role) =>
      if at.Some? && CanSelect(s.rooms[at.value], role) {
        SelectedOk(s.rooms[at.value], PlayerOf(s, client), role);
        SoundPut(s, at.value, Selected(s.rooms[at.value], PlayerOf(s, client), role));
      }
    case Ready(client, at) =>
      if at.Some? {
        ReadiedOk(s.rooms[at.value], PlayerOf(s, client));
        SoundPut(s, at.value, Readied(s.rooms[at.value], PlayerOf(s, client)));
      }
    case Return(client, at) =>
      if at.Some? {
        RestedOk(s.rooms[at.value]);
        SoundPut(s, at.value, Rested(s.rooms[at.value]));
      }
    case GameOver(code) =>
      EndedOk(s.rooms[code]);
      SoundPut(s, code, s.rooms[code].(state := Ended));
  }

  lemma EndedOk(p: Party)
    ensures Alters(p, p.(state := Ended))
  {
    assert PoliceOf(p.(state := Ended).members) == PoliceOf(p.members);
  }

  // ----- Whole runs -----

  /** run is what the server goes through on these steps, all ids and codes drawn fresh. */
  ghost predicate Runs(run: seq<Server>, steps: seq<Step>) {
    && |run| == |steps| + 1
    && run[0] == EMPTY
    && (forall k {:trigger steps[k]} :: 0 <= k < |steps| ==> Moves(run[k], steps[k], run[k + 1]))
  }

  ghost predicate Moves(s: Server, step: Step, t: Server) {
    Enabled(s, step) && FreshIds(s, step) && t == Next(s, step)
  }

  /** In every run the registry is sound throughout. */
  lemma {:induction false} RunsAreSound(run: seq<Server>, steps: seq<Step>, k: nat)
    requires Runs(run, steps) && k <= |steps|
    ensures Sound(run[k])
    decreases k
  {
    if k > 0 {
      RunsAreSound(run, steps, k - 1);
      assert Moves(run[k - 1], steps[k - 1], run[k]);
      hide Sound, Enabled, FreshIds, Next;
      SoundStep(run[k - 1], steps[k - 1]);
    }
  }

  /** Whenever a game is prepared the room has 2 to 8 players, all ready, in 1 or 2 police and some thieves. */
  lemma StartGate(run: seq<Server>, steps: seq<Step>, k: nat, code: Code)
    requires Runs(run, steps) && k < |steps| && Prepares(run[k], steps[k], code)
    ensures code in run[k + 1].rooms && run[k + 1].rooms[code].state == Playing
    ensures var p := run[k + 1].rooms[code];
            && 2 <= |p.members| <= 8
            && (forall id :: id in p.members ==> p.members[id].ready && p.members[id].role != NoRole)
            && 1 <= |PoliceOf(p.members)| <= 2
            && exists id :: id in p.members && p.members[id].role == Thief
  {
    RunsAreSound(run, steps, k + 1);
    assert Moves(run[k], steps[k], run[k + 1]);
    var p := run[k + 1].rooms[code];
    var id :| id in p.members && p.members[id].role == Police;
    assert id in PoliceOf(p.members);
  }

  /** A room starts to play in no other way, ends only by its game loop, and waits again only on a return. */
  lemma StateChanges(s: Server, step: Step, code: Code)
    requires Sound(s) && Enabled(s, step) && FreshIds(s, step) && code in s.rooms && code in Next(s, step).rooms
    ensures var before, after := s.rooms[code].state, Next(s, step).rooms[code].state;
            if Prepares(s, step, code) then after == Playing
            else if step.GameOver? && step.code == code && before == Playing then after == Ended
            else if step.Return? && step.at == Some(code) && before == Ended then after == Waiting
            else after == before
  {
    hide Sound, PoliceOf, PartyOk;
  }

  lemma TogglesBack(p: Party, id: Id)
    requires id in p.members
    ensures Toggled(Toggled(p, id), id) == p && Toggled(p, id).state == p.state
    ensures id in Toggled(p, id).members
    ensures AllReady(p.members) ==> !AllReady(Toggled(p, id).members)
  {
    assert Toggled(Toggled(p, id), id).members == p.members;
    assert Toggled(p, id).members[id].ready != p.members[id].ready;
  }

  /**
   The ready handler does not ask what the room is doing: wherever the team is complete, one of its
   clients toggling twice prepares a game. A room that plays ends up as it was, with a second game; one
   that has ended plays again without a return.
   */
  lemma TogglingTwiceRestarts(s: Server, client: Id, code: Code)
    requires Sound(s) && client in s.playerMap && Seated(s, code, s.playerMap[client])
    requires AllReady(s.rooms[code].members)
    ensures var off := Ready(client, Some(code));
            && Enabled(s, off) && !Prepares(s, off, code)
            && Enabled(Next(s, off), off) && Prepares(Next(s, off), off, code)
            && Next(s, off).rooms[code].state == s.rooms[code].state
            && Next(Next(s, off), off) == Put(s, code, s.rooms[code].(state := Playing))
            && (s.rooms[code].state == Playing ==> Next(Next(s, off), off) == s)
  {
    var off, id, p := Ready(client, Some(code)), s.playerMap[client], s.rooms[code];
    TogglesBack(p, id);
    assert Seated(Next(s, off), code, id);
    hide AllReady, Toggled, Sound;
    assert s.rooms[code := p] == s.rooms;
    assert Next(Next(s, off), off).rooms == s.rooms[code := p.(state := Playing)];
  }

  // ----- Joining, random or not, and leaving again -----

  /** The search comes back empty-handed exactly when no room is open; otherwise the join goes through. */
  lemma RandomJoinSeats(s: Server, client: Id, preferred: Role, found: Option<Code>, player: Id)
    requires Enabled(s, RandomJoin(client, preferred, found, player)) && FreshPlayer(s, player)
    ensures found.None? <==> forall c :: c in s.rooms ==> !Open(s.rooms[c])
    ensures found.Some? ==>
              && Serves(Next(s, RandomJoin(client, preferred, found, player)), found.value, client, player)
              && PlayerOf(Next(s, RandomJoin(client, preferred, found, player)), client) == player
  {
    hide PoliceOf;
  }

  /** If any open room had the preferred role left, picking that role right after the join is accepted. */
  lemma PreferredRoleGranted(s: Server, client: Id, preferred: Role, found: Option<Code>, player: Id,
                             at: Option<Code>, c: Code)
    requires Enabled(s, RandomJoin(client, preferred, found, player)) && FreshPlayer(s, player)
    requires preferred != NoRole && c in s.rooms && Open(s.rooms[c]) && CanSelect(s.rooms[c], preferred)
    requires Enabled(Next(s, RandomJoin(client, preferred, found, player)), SelectTeam(client, at, preferred))
    ensures var t := Next(s, RandomJoin(client, preferred, found, player));
            && at == found && found.Some?
            && Seated(Next(t, SelectTeam(client, at, preferred)), found.value, player)
            && Next(t, SelectTeam(client, at, preferred)).rooms[found.value].members[player].role == preferred
  {
    var room := s.rooms[found.value];
    assert !Seated(s, found.value, player);
    var t := Next(s, RandomJoin(client, preferred, found, player));
    assert PoliceOf(Added(room, player, NEW_MEMBER, client).members) == PoliceOf(room.members);
    hide PoliceOf;
    assert Seated(t, found.value, player);
    forall c
      ensures Seated(t, c, player) ==> c == found.value
    {
      assert !Seated(s, c, player);
    }
  }

  lemma AddedRemoved(p: Party, id: Id, client: Id, heir: Id)
    requires id !in p.members && id !in p.clients && p.host != id && p.members != map[]
    requires Heir(Added(p, id, NEW_MEMBER, client), id, heir)
    ensures Removed(Added(p, id, NEW_MEMBER, client), id, heir) == p
  {
    PutBack(p.members, id, NEW_MEMBER);
    PutBack(p.clients, id, client);
    assert |p.members[id := NEW_MEMBER]| == |p.members| + 1;
  }

  /** A player that has just entered is found where it entered. */
  lemma FoundWhereSeated(s: Server, client: Id, code: Code, room: Party, player: Id, at: Option<Code>)
    requires FreshPlayer(s, player) && Finds(Seat(s, client, code, room, player), player, at)
    ensures at == Some(code)
  {
    hide PoliceOf;
    var t := Seat(s, client, code, room, player);
    assert Seated(t, code, player);
    forall c
      ensures Seated(t, c, player) ==> c == code
    {
      assert !Seated(s, c, player);
    }
  }

  /** A client without a player that joins a room and leaves at once changes nothing. */
  lemma LeaveUndoesJoin(s: Server, client: Id, code: Code, player: Id, at: Option<Code>, heir: Id)
    requires Sound(s) && client !in s.playerMap && FreshPlayer(s, player)
    requires code in s.rooms && !Full(s.rooms[code])
    requires Enabled(Next(s, Join(client, code, player)), Leave(client, at, heir))
    ensures Next(Next(s, Join(client, code, player)), Leave(client, at, heir)) == s
  {
    FoundWhereSeated(s, client, code, s.rooms[code], player, at);
    NotYetIn(s, code, player);
    hide Sound, FreshPlayer, Finds, Added, Removed, Heir, Departed;
    SeatUndone(s, client, code, player, heir);
  }

  lemma SeatUndone(s: Server, client: Id, code: Code, player: Id, heir: Id)
    requires code in s.rooms && client !in s.playerMap && player != ""
    requires var p := s.rooms[code];
             && player !in p.members && player !in p.clients && p.host != player && p.members != map[]
             && Heir(Added(p, player, NEW_MEMBER, client), player, heir)
    ensures Departed(Seat(s, client, code, s.rooms[code], player), client, Some(code), heir) == s
  {
    AddedRemoved(s.rooms[code], player, client, heir);
    hide Heir, Added, Removed;
    PutBack(s.playerMap, client, player);
    assert s.rooms[code := Added(s.rooms[code], player, NEW_MEMBER, client)][code := s.rooms[code]] == s.rooms;
  }

  lemma NotYetIn(s: Server, code: Code, player: Id)
    requires Sound(s) && FreshPlayer(s, player) && code in s.rooms
    ensures var p := s.rooms[code];
            player !in p.members && player !in p.clients && p.host != player && p.members != map[]
  {
    hide PoliceOf;
    assert !Seated(s, code, player) && PartyOk(s.rooms[code]);
  }

  lemma PutBack<K, V>(m: map<K, V>, k: K, v: V)
    requires k !in m
    ensures m[k := v] - {k} == m
  {
  }

  /** A client without a player that creates a room and leaves at once changes nothing. */
  lemma LeaveUndoesCreate(s: Server, client: Id, code: Code, player: Id, at: Option<Code>, heir: Id)
    requires client !in s.playerMap && code !in s.rooms && FreshPlayer(s, player)
    requires Enabled(Next(s, Create(client, code, player)), Leave(client, at, heir))
    ensures Next(Next(s, Create(client, code, player)), Leave(client, at, heir)) == s
  {
    FoundWhereSeated(s, client, code, NOBODY, player, at);
    assert Removed(Added(NOBODY, player, NEW_MEMBER, client), player, heir).members == map[];
    hide Added, Removed, Seated, Heir, FreshPlayer;
    PutBack(s.playerMap, client, player);
    PutBack(s.rooms, code, Added(NOBODY, player, NEW_MEMBER, client));
  }
}
