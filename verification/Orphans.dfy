/** Players whose client is gone, and rooms whose code is drawn twice: when the lobby leaves either behind. */
module Orphans {
  import opened GameTypes
  import opened LobbySpec
  import opened LobbyRuns

  /** Some client speaks for the player. */
  ghost predicate Manned(s: Server, id: Id) {
    exists c :: c in s.playerMap && s.playerMap[c] == id
  }

  ghost predicate AllManned(s: Server) {
    forall code, id :: Seated(s, code, id) ==> Manned(s, id)
  }

  /** The step gives its client a new player. */
  ghost predicate Enters(s: Server, step: Step) {
    match step
    case Create(_, _, _) => true
    case Join(_, code, _) => code in s.rooms && !Full(s.rooms[code])
    case RandomJoin(_, _, found, _) => found.Some?
    case _ => false
  }

  lemma MannedSeat(s: Server, client: Id, code: Code, room: Party, player: Id)
    requires Sound(s) && AllManned(s) && FreshPlayer(s, player)
    requires if code in s.rooms then room == s.rooms[code] else room == NOBODY
    ensures AllManned(Seat(s, client, code, room, player)) <==> client !in s.playerMap
  {
    hide PartyOk, RoomsOk, Parted;
    var t := Seat(s, client, code, room, player);
    if client in s.playerMap {
      LosesItsPlayer(s, client, code, room, player);
    } else {
      hide Sound, FreshPlayer, Manned, Seat;
      forall c, id | Seated(t, c, id)
        ensures Manned(t, id)
      {
        StaysManned(s, client, code, room, player, c, id);
      }
    }
  }

  lemma StaysManned(s: Server, client: Id, code: Code, room: Party, player: Id, c: Code, id: Id)
    requires AllManned(s) && client !in s.playerMap && Seated(Seat(s, client, code, room, player), c, id)
    requires if code in s.rooms then room == s.rooms[code] else room == NOBODY
    ensures Manned(Seat(s, client, code, room, player), id)
  {
    var t := Seat(s, client, code, room, player);
    if id == player {
      assert t.playerMap[client] == id;
    } else {
      assert Seated(s, c, id) && Manned(s, id);
      var d :| d in s.playerMap && s.playerMap[d] == id;
      assert t.playerMap[d] == id;
    }
  }

  /** The player that a client had before it got another stays behind in its room. */
  lemma LosesItsPlayer(s: Server, client: Id, code: Code, room: Party, player: Id)
    requires Sound(s) && client in s.playerMap && FreshPlayer(s, player)
    requires code in s.rooms ==> room == s.rooms[code]
    ensures var t := Seat(s, client, code, room, player);
            exists c :: Seated(t, c, s.playerMap[client]) && !Manned(t, s.playerMap[client])
  {
    hide PartyOk, RoomsOk;
    var id, t := s.playerMap[client], Seat(s, client, code, room, player);
    assert Served(s, client);
    var home :| Serves(s, home, client, id);
    assert Seated(s, home, id);
    assert Seated(t, home, id);
    forall c | c in t.playerMap
      ensures t.playerMap[c] != id
    {
      if c != client {
        assert Served(s, c);
        Alone(s, c, client);
      }
    }
  }

  lemma DepartUnseats(s: Server, client: Id, home: Code, heir: Id, c: Code, id: Id)
    requires Parted(s) && client in s.playerMap && s.playerMap[client] != "" && Seated(s, home, s.playerMap[client])
    requires Seated(Departed(s, client, Some(home), heir), c, id)
    ensures Seated(s, c, id) && id != s.playerMap[client]
  {
    assert Seated(s, c, id);
  }

  lemma MannedDepart(s: Server, client: Id, at: Option<Code>, heir: Id)
    requires Sound(s) && AllManned(s) && PlayerOf(s, client) != "" && Enabled(s, Leave(client, at, heir))
    ensures AllManned(Departed(s, client, at, heir))
  {
    var t := Departed(s, client, at, heir);
    Home(s, client, at);
    forall c, id | Seated(t, c, id)
      ensures Manned(t, id)
    {
      DepartUnseats(s, client, at.value, heir, c, id);
      hide Seated, PartyOk;
      assert Manned(s, id);
      var d :| d in s.playerMap && s.playerMap[d] == id;
      assert d in t.playerMap && t.playerMap[d] == id;
    }
  }

  lemma MannedPut(s: Server, code: Code, room: Party)
    requires AllManned(s) && code in s.rooms && room.members.Keys == s.rooms[code].members.Keys
    ensures AllManned(Put(s, code, room))
  {
    var t := Put(s, code, room);
    forall c, id | Seated(t, c, id)
      ensures Manned(t, id)
    {
      assert Seated(s, c, id) && Manned(s, id);
      var d :| d in s.playerMap && s.playerMap[d] == id;
      assert t.playerMap[d] == id;
    }
  }

  /**
   Create, join and random join do not ask whether the client already has a player. A step leaves every
   player with a client if and only if it does not give a second player to a client that has one.
   */
  lemma MannedStep(s: Server, step: Step)
    requires Sound(s) && AllManned(s) && Enabled(s, step) && FreshIds(s, step)
    ensures AllManned(Next(s, step)) <==> !(Enters(s, step) && step.client in s.playerMap)
  {
    hide Sound, AllManned, PartyOk, PoliceOf, Added, Removed;
    match step
    case Create(client, code, player) =>
      MannedSeat(s, client, code, NOBODY, player);
    case Join(client, code, player) =>
      if code in s.rooms && !Full(s.rooms[code]) {
        MannedSeat(s, client, code, s.rooms[code], player);
      }
    case RandomJoin(client, _, found, player) =>
      if found.Some? {
        MannedSeat(s, client, found.value, s.rooms[found.value], player);
      }
    case Leave(client, at, heir) =>
      if PlayerOf(s, client) != "" {
        MannedDepart(s, client, at, heir);
      }
    case SelectTeam(client, at, role) =>
      if at.Some? {
        MannedPut(s, at.value, Selected(s.rooms[at.value], PlayerOf(s, client), role));
      }
    case Ready(client, at) =>
      if at.Some? {
        MannedPut(s, at.value, Readied(s.rooms[at.value], PlayerOf(s, client)));
      }
    case Return(client, at) =>
      if at.Some? {
        MannedPut(s, at.value, Rested(s.rooms[at.value]));
      }
    case GameOver(code) =>
      MannedPut(s, code, s.rooms[code].(state := Ended));
  }

  lemma MannedMoves(s: Server, step: Step, t: Server)
    requires Sound(s) && AllManned(s) && Moves(s, step, t) && !(Enters(s, step) && step.client in s.playerMap)
    ensures AllManned(t)
  {
    hide Sound, AllManned, Enabled, FreshIds, Next, Enters;
    MannedStep(s, step);
  }

  lemma NobodyToMan()
    ensures AllManned(EMPTY)
  {
  }

  /** No client that has a player asks for another. */
  ghost predicate Polite(run: seq<Server>, steps: seq<Step>)
    requires |run| == |steps| + 1
  {
    forall k {:trigger steps[k]} :: 0 <= k < |steps| ==>
      !(Enters(run[k], steps[k]) && steps[k].client in run[k].playerMap)
  }

  /** In a polite run every player has its client, so no room outlives the last client. */
  lemma {:induction false} PoliteRunsLeaveNoRooms(run: seq<Server>, steps: seq<Step>, k: nat)
    requires Runs(run, steps) && Polite(run, steps) && k <= |steps|
    ensures AllManned(run[k])
    ensures run[k].playerMap == map[] ==> run[k].rooms == map[]
    decreases k
  {
    hide Sound, AllManned, Moves, Enters;
    RunsAreSound(run, steps, k);
    if k > 0 {
      PoliteRunsLeaveNoRooms(run, steps, k - 1);
      RunsAreSound(run, steps, k - 1);
      MannedMoves(run[k - 1], steps[k - 1], run[k]);
    } else {
      NobodyToMan();
    }
    NoClientsNoRooms(run[k]);
  }

  lemma NoClientsNoRooms(s: Server)
    requires Sound(s) && AllManned(s)
    ensures s.playerMap == map[] ==> s.rooms == map[]
  {
    if s.playerMap == map[] && s.rooms != map[] {
      var code :| code in s.rooms;
      assert PartyOk(s.rooms[code]) && Seated(s, code, s.rooms[code].host);
    }
  }

  // ----- Players left behind -----

  /** A player that no client speaks for. */
  ghost predicate LeftBehind(s: Server, code: Code, id: Id) {
    Seated(s, code, id) && !Manned(s, id) && id != ""
  }

  /** In t it still sits there, with its old role and no readier than it was. */
  ghost predicate Lingers(s: Server, t: Server, code: Code, id: Id)
    requires Seated(s, code, id)
  {
    && LeftBehind(t, code, id)
    && t.rooms[code].members[id].role == s.rooms[code].members[id].role
    && (t.rooms[code].members[id].ready ==> s.rooms[code].members[id].ready)
  }

  lemma LingersSeat(s: Server, client: Id, at: Code, room: Party, player: Id, code: Code, id: Id)
    requires FreshPlayer(s, player) && LeftBehind(s, code, id)
    requires if at in s.rooms then room == s.rooms[at] else room == NOBODY
    ensures Lingers(s, Seat(s, client, at, room, player), code, id)
  {
    var t := Seat(s, client, at, room, player);
    assert !Seated(s, code, player);
    forall c | c in t.playerMap
      ensures t.playerMap[c] != id
    {
      assert c in s.playerMap ==> s.playerMap[c] != id;
    }
  }

  lemma LingersDepart(s: Server, client: Id, at: Option<Code>, heir: Id, code: Code, id: Id)
    requires PlayerOf(s, client) != "" && Enabled(s, Leave(client, at, heir)) && LeftBehind(s, code, id)
    ensures Lingers(s, Departed(s, client, at, heir), code, id)
  {
    assert PlayerOf(s, client) != id;
    var t := Departed(s, client, at, heir);
    forall c | c in t.playerMap
      ensures t.playerMap[c] != id
    {
      assert c in s.playerMap ==> s.playerMap[c] != id;
    }
    if at == Some(code) {
      assert id in Removed(s.rooms[code], PlayerOf(s, client), heir).members;
    }
  }

  lemma LingersPut(s: Server, at: Code, room: Party, code: Code, id: Id)
    requires LeftBehind(s, code, id)
    requires at == code ==>
      && id in room.members && room.members[id].role == s.rooms[code].members[id].role
      && (room.members[id].ready ==> s.rooms[code].members[id].ready)
    ensures Lingers(s, Put(s, at, room), code, id)
  {
    assert Put(s, at, room).playerMap == s.playerMap;
  }

  /** Nothing that a client does moves it, readies it or changes its role. */
  lemma LeftBehindStep(s: Server, step: Step, code: Code, id: Id)
    requires Enabled(s, step) && FreshIds(s, step) && LeftBehind(s, code, id)
    ensures Lingers(s, Next(s, step), code, id)
  {
    hide Manned, AllReady, Full, CanSelect, Heir, Offers, Lingers;
    LingersHere(s, code, id);
    match step
    case Create(client, at, player) =>
      LingersSeat(s, client, at, NOBODY, player, code, id);
    case Join(client, at, player) =>
      if at in s.rooms && !Full(s.rooms[at]) {
        LingersSeat(s, client, at, s.rooms[at], player, code, id);
      }
    case RandomJoin(client, _, found, player) =>
      if found.Some? && found.value in s.rooms {
        LingersSeat(s, client, found.value, s.rooms[found.value], player, code, id);
      }
    case Leave(client, at, heir) =>
      if PlayerOf(s, client) != "" {
        LingersDepart(s, client, at, heir, code, id);
      }
    case SelectTeam(client, at, role) =>
      NotMine(s, client, code, id);
      if at.Some? {
        LingersPut(s, at.value, Selected(s.rooms[at.value], PlayerOf(s, client), role), code, id);
      }
    case Ready(client, at) =>
      NotMine(s, client, code, id);
      if at.Some? {
        LingersPut(s, at.value, Readied(s.rooms[at.value], PlayerOf(s, client)), code, id);
      }
    case Return(client, at) =>
      if at.Some? {
        LingersPut(s, at.value, Rested(s.rooms[at.value]), code, id);
      }
    case GameOver(at) =>
      LingersPut(s, at, s.rooms[at].(state := Ended), code, id);
  }

  lemma LingersHere(s: Server, code: Code, id: Id)
    requires LeftBehind(s, code, id)
    ensures Lingers(s, s, code, id)
  {
  }

  lemma NotMine(s: Server, client: Id, code: Code, id: Id)
    requires LeftBehind(s, code, id)
    ensures PlayerOf(s, client) != id
  {
  }

  /** A player left behind keeps its seat for ever, and as long as it is not ready its room never plays again. */
  lemma {:induction false} LeftBehindBlocks(run: seq<Server>, steps: seq<Step>, i: nat, k: nat, code: Code, id: Id)
    requires Runs(run, steps) && i <= k <= |steps|
    requires LeftBehind(run[i], code, id) && !run[i].rooms[code].members[id].ready
    ensures LeftBehind(run[k], code, id) && !run[k].rooms[code].members[id].ready
    ensures k < |steps| ==> !Prepares(run[k], steps[k], code)
    decreases k
  {
    if i < k {
      LeftBehindBlocks(run, steps, i, k - 1, code, id);
      assert Moves(run[k - 1], steps[k - 1], run[k]);
      LeftBehindStep(run[k - 1], steps[k - 1], code, id);
    }
    if k < |steps| {
      NeverReadied(run[k], steps[k], code, id);
    }
  }

  lemma NeverReadied(s: Server, step: Step, code: Code, id: Id)
    requires LeftBehind(s, code, id) && !s.rooms[code].members[id].ready
    ensures !Prepares(s, step, code)
  {
    if step.Ready? && step.at == Some(code) {
      var t := Toggled(s.rooms[code], PlayerOf(s, step.client));
      NotMine(s, step.client, code, id);
      assert id in t.members && !t.members[id].ready;
    }
  }

  // ----- Used codes -----

  /** A client whose player sat in the replaced room points nowhere afterwards. */
  lemma UsedCodeStrands(s: Server, client: Id, code: Code, player: Id, c: Id)
    requires FreshPlayer(s, player) && Parted(s)
    requires c in s.playerMap && c != client && Seated(s, code, s.playerMap[c])
    ensures !Served(Next(s, Create(client, code, player)), c)
  {
    var t, id := Next(s, Create(client, code, player)), s.playerMap[c];
    forall at
      ensures !Serves(t, at, c, id)
    {
      if at != code {
        assert Seated(t, at, id) ==> Seated(s, at, id);
      }
    }
  }

  /** Dropping a room and a client is harmless if no other client has its player there. */
  lemma DropSound(s: Server, client: Id, code: Code)
    requires Sound(s) && forall c :: c in s.playerMap && c != client ==> !Seated(s, code, s.playerMap[c])
    ensures Sound(Server(s.rooms - {code}, s.playerMap - {client}))
  {
    hide PartyOk;
    var u := Server(s.rooms - {code}, s.playerMap - {client});
    PartedStays(s, u);
    forall c | c in u.playerMap
      ensures Served(u, c)
    {
      assert Served(s, c);
      var at :| Serves(s, at, c, s.playerMap[c]);
      assert Serves(u, at, c, s.playerMap[c]);
    }
  }

  lemma Overwritten<K, V>(m: map<K, V>, k: K, v: V)
    ensures (m - {k})[k := v] == m[k := v]
  {
  }

  lemma FreshWithout(s: Server, client: Id, code: Code, player: Id)
    requires FreshPlayer(s, player)
    ensures FreshPlayer(Server(s.rooms - {code}, s.playerMap - {client}), player)
  {
    forall c
      ensures !Seated(Server(s.rooms - {code}, s.playerMap - {client}), c, player)
    {
      assert !Seated(s, c, player);
    }
  }

  lemma UnusedCodeLeft(s: Server, client: Id, code: Code, player: Id)
    requires Sound(s) && FreshPlayer(s, player)
    requires forall c :: c in s.playerMap && c != client ==> !Seated(s, code, s.playerMap[c])
    ensures Sound(Seat(s, client, code, NOBODY, player))
  {
    hide Sound, Added, Seated, FreshPlayer;
    DropSound(s, client, code);
    FreshWithout(s, client, code, player);
    SoundSeat(Server(s.rooms - {code}, s.playerMap - {client}), client, code, NOBODY, player);
    Overwritten(s.rooms, code, Added(NOBODY, player, NEW_MEMBER, client));
    Overwritten(s.playerMap, client, player);
  }

  /**
   After 100 used codes in a row, the code of a new room may be one in use, and the new room takes its
   place. The registry stays sound if and only if no other client had its player in the old room.
   */
  lemma UsedCodeIff(s: Server, client: Id, code: Code, player: Id)
    requires Sound(s) && FreshPlayer(s, player)
    ensures Sound(Next(s, Create(client, code, player))) <==>
            forall c :: c in s.playerMap && c != client ==> !Seated(s, code, s.playerMap[c])
  {
    hide PartyOk, RoomsOk, Served, Added, Seated;
    var t := Next(s, Create(client, code, player));
    if c :| c in s.playerMap && c != client && Seated(s, code, s.playerMap[c]) {
      UsedCodeStrands(s, client, code, player, c);
      assert c in t.playerMap;
    } else {
      UnusedCodeLeft(s, client, code, player);
    }
  }
}
