/**
 The whole server on plain values: hub steps, accepted moves and the steps of every room's game loops, in
 any interleaving. Its runs discharge what the history theorems ask of a game.
 */
module Sessions {
  import opened GameTypes
  import opened Geometry
  import opened TickSpec
  import opened LobbySpec
  import opened LobbyRuns
  import opened LobbyWorlds
  import Crews
  import GameSpec
  import History
  import Lifecycle
  import TickRules

  /** The lobby, the players of every room as the mechanics see them, and the game loops of every room. */
  datatype Site = Site(server: Server, worlds: map<Code, World>, lives: map<Code, Lifecycle.System>)

  datatype Act =
    | Hub(step: Step, spawn: World)                      // spawn: where a prepared game puts everyone
    | Move(client: Id, at: Option<Code>, to: Position)   // a move that passes the speed check
    | Beat(code: Code, beat: Lifecycle.Step)             // a step of one of the room's game loops

  const NOTHING: Site := Site(EMPTY, map[], map[])

  /** The lobby and the mechanics know the same players with the same roles. */
  ghost predicate Mirrors(members: map<Id, Member>, w: World) {
    w.Keys == members.Keys && forall id :: id in w ==> w[id].role == members[id].role
  }

  ghost predicate WorldsAgree(s: Server, worlds: map<Code, World>) {
    && worlds.Keys == s.rooms.Keys
    && forall code :: code in worlds ==> Mirrors(s.rooms[code].members, worlds[code])
  }

  ghost predicate LivesAgree(s: Server, lives: map<Code, Lifecycle.System>) {
    && lives.Keys == s.rooms.Keys
    && forall code :: code in lives ==> lives[code].life.state == s.rooms[code].state
  }

  /** Lobby, mechanics and game loops know the same rooms, with the same players, roles and states. */
  ghost predicate Agree(s: Site) {
    WorldsAgree(s.server, s.worlds) && LivesAgree(s.server, s.lives)
  }

  ghost predicate Allowed(s: Site, a: Act) {
    match a
    case Hub(step, spawn) =>
      && !step.GameOver? && Enabled(s.server, step) && FreshIds(s.server, step)
      && forall code :: code in s.worlds && Prepares(s.server, step, code) ==> Crews.Spawned(s.worlds[code], spawn)
    case Move(client, at, _) =>
      && PlayerOf(s.server, client) != "" && at.Some?
      && Finds(s.server, PlayerOf(s.server, client), at)
      && s.server.rooms[at.value].state == Playing
    case Beat(code, beat) =>
      && !beat.Prepare? && !beat.Return?
      && code in s.server.rooms && code in s.lives && Lifecycle.Enabled(s.lives[code], beat)
  }

  /** A tick of that room. */
  predicate Ticks(a: Act, code: Code) {
    a.Beat? && a.code == code && a.beat.Tick?
  }

  // ----- What an act does -----

  /** The room's loops after a step, if it can happen. */
  function Onward(lives: map<Code, Lifecycle.System>, code: Code, beat: Lifecycle.Step): map<Code, Lifecycle.System> {
    if code in lives && Lifecycle.Enabled(lives[code], beat) then lives[code := Lifecycle.Next(lives[code], beat)]
    else lives
  }

  /** Preparing a game starts a loop, a return makes the room wait, and a room that is gone has no loops here. */
  ghost function HubLives(s: Server, lives: map<Code, Lifecycle.System>, step: Step): map<Code, Lifecycle.System>
    requires Enabled(s, step)
  {
    match step
    case Create(_, code, _) => lives[code := Lifecycle.START]
    case Ready(_, at) =>
      if at.Some? && Prepares(s, step, at.value) then Onward(lives, at.value, Lifecycle.Prepare) else lives
    case Return(_, at) => if at.None? then lives else Onward(lives, at.value, Lifecycle.Return)
    case Leave(client, at, _) =>
      if at.Some? && at.value !in Next(s, step).rooms then lives - {at.value} else lives
    case _ => lives
  }

  /** A win check that ends the game ends it for the lobby too. */
  ghost function BeatServer(s: Server, lives: map<Code, Lifecycle.System>, code: Code, beat: Lifecycle.Step): Server
    requires code in s.rooms && code in lives && Lifecycle.Enabled(lives[code], beat)
  {
    if Lifecycle.Next(lives[code], beat).life.state == Ended then Next(s, GameOver(code)) else s
  }

  ghost function After(s: Site, a: Act): Site
    requires Allowed(s, a)
  {
    match a
    case Hub(step, spawn) =>
      Site(Next(s.server, step), HubWorlds(s.server, s.worlds, step, spawn), HubLives(s.server, s.lives, step))
    case Move(client, at, to) =>
      s.(worlds := s.worlds[at.value := Moved(RoomOf(s.worlds, at.value), PlayerOf(s.server, client), to)])
    case Beat(code, beat) =>
      Site(BeatServer(s.server, s.lives, code, beat),
           if beat.Tick? then s.worlds[code := CoreTick(RoomOf(s.worlds, code))] else s.worlds,
           Onward(s.lives, code, beat))
  }

  // ----- Lobby, mechanics and loops stay in step -----

  lemma WorldsPut(s: Server, worlds: map<Code, World>, code: Code, t: Server, p: Party, w: World)
    requires WorldsAgree(s, worlds) && Mirrors(p.members, w)
    requires t.rooms == s.rooms[code := p]
    ensures WorldsAgree(t, worlds[code := w])
  {
    hide Mirrors;
  }

  lemma WorldsSame(s: Server, worlds: map<Code, World>, code: Code, t: Server, p: Party)
    requires WorldsAgree(s, worlds) && code in worlds && p.members.Keys == s.rooms[code].members.Keys
    requires forall id :: id in p.members ==> p.members[id].role == s.rooms[code].members[id].role
    requires t.rooms == s.rooms[code := p]
    ensures WorldsAgree(t, worlds)
  {
    assert Mirrors(s.rooms[code].members, worlds[code]);
    assert Mirrors(p.members, worlds[code]);
    hide Mirrors;
  }

  lemma WorldsDrop(s: Server, worlds: map<Code, World>, code: Code, t: Server)
    requires WorldsAgree(s, worlds) && t.rooms == s.rooms - {code}
    ensures WorldsAgree(t, worlds - {code})
  {
    hide Mirrors;
  }

  lemma WorldsEnter(s: Server, worlds: map<Code, World>, client: Id, code: Code, player: Id)
    requires WorldsAgree(s, worlds) && code in s.rooms && !Full(s.rooms[code])
    ensures WorldsAgree(Enter(s, client, code, player), Entered(s, worlds, code, player))
  {
    var p := Added(s.rooms[code], player, NEW_MEMBER, client);
    assert Mirrors(s.rooms[code].members, worlds[code]);
    WorldsPut(s, worlds, code, Enter(s, client, code, player), p, worlds[code][player := NEWCOMER]);
  }

  lemma WorldsSelect(s: Server, worlds: map<Code, World>, code: Code, id: Id, role: Role)
    requires WorldsAgree(s, worlds) && code in s.rooms && id in s.rooms[code].members
    ensures WorldsAgree(Put(s, code, Selected(s.rooms[code], id, role)),
                        worlds[code := Recast(RoomOf(worlds, code), id, role)])
  {
    assert Mirrors(s.rooms[code].members, worlds[code]);
    var p := Selected(s.rooms[code], id, role);
    WorldsPut(s, worlds, code, Put(s, code, p), p, Recast(worlds[code], id, role));
  }

  lemma WorldsReady(s: Server, worlds: map<Code, World>, code: Code, id: Id, spawn: World)
    requires WorldsAgree(s, worlds) && code in s.rooms && Crews.Spawned(worlds[code], spawn)
    ensures WorldsAgree(Put(s, code, Readied(s.rooms[code], id)), worlds[code := spawn])
  {
    assert Mirrors(s.rooms[code].members, worlds[code]);
    var p := Readied(s.rooms[code], id);
    WorldsPut(s, worlds, code, Put(s, code, p), p, spawn);
  }

  lemma WorldsRest(s: Server, worlds: map<Code, World>, code: Code)
    requires WorldsAgree(s, worlds) && code in s.rooms
    ensures WorldsAgree(Put(s, code, Rested(s.rooms[code])),
                        worlds[code := GameSpec.ResetWorld(RoomOf(worlds, code))])
  {
    assert Mirrors(s.rooms[code].members, worlds[code]);
    var p, w := Rested(s.rooms[code]), GameSpec.ResetWorld(worlds[code]);
    WorldsPut(s, worlds, code, Put(s, code, p), p, w);
  }

  lemma WorldsLeave(s: Server, worlds: map<Code, World>, client: Id, code: Code, heir: Id)
    requires WorldsAgree(s, worlds) && code in s.rooms
    ensures WorldsAgree(Departed(s, client, Some(code), heir), Left(worlds, code, PlayerOf(s, client)))
  {
    assert Mirrors(s.rooms[code].members, worlds[code]);
    var id := PlayerOf(s, client);
    var p, w := Removed(s.rooms[code], id, heir), worlds[code] - {id};
    assert Mirrors(p.members, w);
    assert p.members == map[] <==> w == map[];
    hide Removed, Mirrors;
    var t := Departed(s, client, Some(code), heir);
    if w == map[] {
      WorldsDrop(s, worlds, code, t);
    } else {
      WorldsPut(s, worlds, code, t, p, w);
    }
  }

  lemma NewRoom(player: Id, client: Id)
    ensures Mirrors(Added(NOBODY, player, NEW_MEMBER, client).members, map[player := NEWCOMER])
  {
  }

  lemma ReadiedKeepsRoles(p: Party, id: Id)
    ensures var q := Readied(p, id);
            q.members.Keys == p.members.Keys && forall i :: i in q.members ==> q.members[i].role == p.members[i].role
  {
  }

  lemma WorldsHub(s: Server, worlds: map<Code, World>, step: Step, spawn: World)
    requires WorldsAgree(s, worlds) && Enabled(s, step)
    requires forall code :: code in worlds && Prepares(s, step, code) ==> Crews.Spawned(worlds[code], spawn)
    ensures WorldsAgree(Next(s, step), HubWorlds(s, worlds, step, spawn))
  {
    hide Mirrors, Added, Removed, Rested, Selected, Crews.Spawned, Heir, CanSelect, Full, Toggled, AllReady, Recast;
    match step
    case Create(client, code, player) =>
      NewRoom(player, client);
      WorldsPut(s, worlds, code, Next(s, step), Added(NOBODY, player, NEW_MEMBER, client), map[player := NEWCOMER]);
    case Join(client, code, player) =>
      if code in s.rooms && !Full(s.rooms[code]) {
        WorldsEnter(s, worlds, client, code, player);
      }
    case RandomJoin(client, _, found, player) =>
      if found.Some? && !Full(s.rooms[found.value]) {
        WorldsEnter(s, worlds, client, found.value, player);
      }
    case SelectTeam(client, at, role) =>
      if at.Some? {
        WorldsSelect(s, worlds, at.value, PlayerOf(s, client), role);
      }
    case Ready(client, at) =>
      if at.Some? {
        if Prepares(s, step, at.value) {
          WorldsReady(s, worlds, at.value, PlayerOf(s, client), spawn);
        } else {
          ReadiedKeepsRoles(s.rooms[at.value], PlayerOf(s, client));
          WorldsSame(s, worlds, at.value, Next(s, step), Readied(s.rooms[at.value], PlayerOf(s, client)));
        }
      }
    case Return(client, at) =>
      if at.Some? && s.rooms[at.value].state == Ended {
        WorldsRest(s, worlds, at.value);
      }
    case Leave(client, at, heir) =>
      if PlayerOf(s, client) != "" && at.Some? {
        WorldsLeave(s, worlds, client, at.value, heir);
      }
    case GameOver(code) =>
      WorldsSame(s, worlds, code, Put(s, code, s.rooms[code].(state := Ended)), s.rooms[code].(state := Ended));
  }

  lemma LivesPut(s: Server, lives: map<Code, Lifecycle.System>, code: Code, t: Server, p: Party,
                 life: Lifecycle.System)
    requires LivesAgree(s, lives) && t.rooms == s.rooms[code := p] && life.life.state == p.state
    ensures LivesAgree(t, lives[code := life])
  {
  }

  lemma LivesSame(s: Server, lives: map<Code, Lifecycle.System>, code: Code, t: Server, p: Party)
    requires LivesAgree(s, lives) && code in s.rooms && t.rooms == s.rooms[code := p] && p.state == s.rooms[code].state
    ensures LivesAgree(t, lives)
  {
  }

  lemma LivesHub(s: Server, lives: map<Code, Lifecycle.System>, step: Step)
    requires LivesAgree(s, lives) && Enabled(s, step) && !step.GameOver?
    ensures LivesAgree(Next(s, step), HubLives(s, lives, step))
  {
    hide Heir, CanSelect, Full, AllReady, Toggled, PoliceOf;
    match step
    case Create(client, code, player) =>
      LivesPut(s, lives, code, Next(s, step), Added(NOBODY, player, NEW_MEMBER, client), Lifecycle.START);
    case Join(_, _, _) =>
    case RandomJoin(_, _, _, _) =>
    case SelectTeam(_, _, _) =>
    case Ready(client, at) =>
      if at.Some? {
        ToggledStays(s.rooms[at.value], PlayerOf(s, client));
        var p := Readied(s.rooms[at.value], PlayerOf(s, client));
        if Prepares(s, step, at.value) {
          LivesPut(s, lives, at.value, Next(s, step), p, Lifecycle.Next(lives[at.value], Lifecycle.Prepare));
        } else {
          LivesSame(s, lives, at.value, Next(s, step), p);
        }
      }
    case Return(_, at) =>
      if at.Some? && s.rooms[at.value].state == Ended {
        LivesPut(s, lives, at.value, Next(s, step), Rested(s.rooms[at.value]),
                 Lifecycle.Next(lives[at.value], Lifecycle.Return));
      }
    case Leave(client, at, heir) =>
      if PlayerOf(s, client) != "" && at.Some? {
        LivesLeave(s, lives, client, at.value, heir);
      }
  }

  lemma ToggledStays(p: Party, id: Id)
    ensures Toggled(p, id).state == p.state
  {
  }

  lemma LivesLeave(s: Server, lives: map<Code, Lifecycle.System>, client: Id, code: Code, heir: Id)
    requires LivesAgree(s, lives) && code in s.rooms
    ensures var t := Departed(s, client, Some(code), heir);
            LivesAgree(t, if code in t.rooms then lives else lives - {code})
  {
  }

  lemma BeatAgrees(s: Site, code: Code, beat: Lifecycle.Step)
    requires Agree(s) && Allowed(s, Beat(code, beat))
    ensures LivesAgree(BeatServer(s.server, s.lives, code, beat), Onward(s.lives, code, beat))
    ensures WorldsAgree(BeatServer(s.server, s.lives, code, beat), s.worlds)
  {
    hide Mirrors, WorldsAgree;
    var p, life := s.server.rooms[code], Lifecycle.Next(s.lives[code], beat);
    var t := BeatServer(s.server, s.lives, code, beat);
    assert s.server.rooms[code := p] == s.server.rooms;
    assert t.rooms == s.server.rooms[code := p.(state := life.life.state)];
    LivesPut(s.server, s.lives, code, t, p.(state := life.life.state), life);
    assert code in s.worlds by { SameRooms(s); }
    WorldsSame(s.server, s.worlds, code, t, p.(state := life.life.state));
  }

  lemma SameRooms(s: Site)
    requires Agree(s)
    ensures s.worlds.Keys == s.server.rooms.Keys == s.lives.Keys
  {
    hide Mirrors;
  }

  lemma TickMirrors(members: map<Id, Member>, w: World)
    requires Mirrors(members, w)
    ensures Mirrors(members, CoreTick(w))
  {
    hide CoreTick;
    forall id | id in w
      ensures CoreTick(w)[id].role == w[id].role
    {
      TickRules.TickKeepsPlaces(w, id);
    }
  }

  /** Every act keeps lobby, mechanics and game loops in step. */
  lemma AgreeAfter(s: Site, a: Act)
    requires Agree(s) && Allowed(s, a)
    ensures Agree(After(s, a))
  {
    match a
    case Hub(step, spawn) =>
      hide HubWorlds, HubLives, Next, Mirrors;
      WorldsHub(s.server, s.worlds, step, spawn);
      LivesHub(s.server, s.lives, step);
    case Move(client, at, to) =>
      var code := at.value;
      assert Mirrors(s.server.rooms[code].members, s.worlds[code]);
      WorldsPut(s.server, s.worlds, code, s.server, s.server.rooms[code],
                Moved(s.worlds[code], PlayerOf(s.server, client), to));
    case Beat(code, beat) =>
      hide CoreTick, Mirrors, Onward;
      BeatAgrees(s, code, beat);
      if beat.Tick? {
        var t := After(s, a).server;
        assert Mirrors(t.rooms[code].members, s.worlds[code]);
        TickMirrors(t.rooms[code].members, s.worlds[code]);
        WorldsPut(t, s.worlds, code, t, t.rooms[code], CoreTick(s.worlds[code]));
      }
  }

  // ----- Runs -----

  ghost predicate Goes(s: Site, a: Act, t: Site) {
    Allowed(s, a) && t == After(s, a)
  }

  ghost predicate Runs(run: seq<Site>, acts: seq<Act>) {
    && |run| == |acts| + 1
    && run[0] == NOTHING
    && (forall k {:trigger acts[k]} :: 0 <= k < |acts| ==> Goes(run[k], acts[k], run[k + 1]))
  }

  lemma NothingAgrees()
    ensures Agree(NOTHING)
  {
  }

  /** In every run of the server lobby, mechanics and loops agree throughout. */
  lemma {:induction false} RunsAgree(run: seq<Site>, acts: seq<Act>, n: nat)
    requires Runs(run, acts) && n <= |acts|
    ensures Agree(run[n])
    decreases n
  {
    hide Agree, Allowed, After;
    if n == 0 {
      NothingAgrees();
    } else {
      RunsAgree(run, acts, n - 1);
      AgreeAfter(run[n - 1], acts[n - 1]);
    }
  }

  // ----- The ticks of one room are a run of the mechanics -----

  ghost predicate AllFresh(w: World) {
    forall id :: id in w ==> History.Fresh(w[id])
  }

  /** Every player of v is fresh, or as on w but for its position and role. */
  ghost predicate Evolves(w: World, v: World) {
    forall id :: id in v ==> History.Fresh(v[id]) || History.Kept(w, v, id)
  }

  lemma SpawnEvolves(w: World, v: World)
    requires Crews.Spawned(w, v)
    ensures Evolves(w, v)
    ensures forall id :: id in v ==> id in w && (History.Fresh(v[id]) <==> History.Fresh(w[id]))
  {
  }

  lemma SameEvolves(w: World)
    ensures Evolves(w, w)
  {
  }

  lemma HubEvolves(s: Server, worlds: map<Code, World>, step: Step, spawn: World, code: Code)
    requires Enabled(s, step)
    requires code in worlds && Prepares(s, step, code) ==> Crews.Spawned(worlds[code], spawn)
    requires worlds.Keys == s.rooms.Keys
    ensures Evolves(RoomOf(worlds, code), RoomOf(HubWorlds(s, worlds, step, spawn), code))
  {
    hide Crews.Spawned, Finds, Heir, CanSelect, Full, Toggled, AllReady, Evolves, Recast, GameSpec.ResetWorld;
    var w := RoomOf(worlds, code);
    SameEvolves(w);
    match step
    case Create(_, at, player) => EntersEvolves(w, player);
    case Join(_, at, player) => EntersEvolves(w, player);
    case RandomJoin(_, _, found, player) => EntersEvolves(w, player);
    case SelectTeam(client, _, role) => RoleEvolves(w, PlayerOf(s, client), role);
    case Ready(_, at) =>
      if at == Some(code) && Prepares(s, step, code) {
        SpawnEvolves(w, spawn);
      }
    case Return(_, _) => ResetEvolves(w);
    case Leave(client, _, _) => LeaveEvolves(w, PlayerOf(s, client));
    case GameOver(_) =>
  }

  lemma EntersEvolves(w: World, player: Id)
    ensures Evolves(w, w[player := NEWCOMER]) && Evolves(map[], map[player := NEWCOMER])
    ensures Evolves(w, map[player := NEWCOMER])
  {
  }

  lemma MoveEvolves(w: World, id: Id, to: Position)
    ensures Evolves(w, Moved(w, id, to))
  {
  }

  lemma RoleEvolves(w: World, id: Id, role: Role)
    ensures Evolves(w, Recast(w, id, role))
  {
  }

  lemma ResetEvolves(w: World)
    ensures Evolves(w, GameSpec.ResetWorld(w)) && AllFresh(GameSpec.ResetWorld(w))
  {
  }

  lemma LeaveEvolves(w: World, id: Id)
    ensures Evolves(w, w - {id}) && Evolves(w, map[])
  {
  }

  /** Between two ticks of a room everyone in it is carried over or fresh. */
  lemma ActEvolves(s: Site, a: Act, code: Code)
    requires Agree(s) && Allowed(s, a) && !Ticks(a, code)
    ensures Evolves(RoomOf(s.worlds, code), RoomOf(After(s, a).worlds, code))
  {
    hide CoreTick, Mirrors, HubWorlds, HubLives, Next, Evolves, Finds, Moved, BeatServer, Onward;
    SameEvolves(RoomOf(s.worlds, code));
    match a
    case Hub(step, spawn) => HubEvolves(s.server, s.worlds, step, spawn, code);
    case Move(client, at, to) => MoveEvolves(RoomOf(s.worlds, code), PlayerOf(s.server, client), to);
    case Beat(_, _) =>
  }

  /** The worlds that the ticks of a room start from, among the first n acts. */
  function TickWorlds(run: seq<Site>, acts: seq<Act>, code: Code, n: nat): seq<World>
    requires |run| == |acts| + 1 && n <= |acts|
    decreases n
  {
    if n == 0 then []
    else
      TickWorlds(run, acts, code, n - 1)
      + if Ticks(acts[n - 1], code) then [RoomOf(run[n - 1].worlds, code)] else []
  }

  /** Everyone on w is fresh or comes from the last of these ticks. */
  ghost predicate Follows(pres: seq<World>, w: World) {
    forall id :: id in w ==>
      History.Fresh(w[id]) || (pres != [] && History.Kept(History.After(pres, |pres| - 1), w, id))
  }

  lemma FollowsOn(pres: seq<World>, w: World, v: World)
    requires Follows(pres, w) && Evolves(w, v)
    ensures Follows(pres, v)
  {
    hide History.After;
  }

  lemma TickFollows(pres: seq<World>, w: World)
    requires History.Run(pres) && Follows(pres, w)
    ensures History.Run(pres + [w]) && Follows(pres + [w], CoreTick(w))
  {
    hide CoreTick;
    var all := pres + [w];
    forall k, id | 0 <= k < |all| && id in all[k]
      ensures History.Reached(all, k, id)
    {
      if k < |pres| {
        assert History.Reached(pres, k, id);
      }
    }
    assert History.After(all, |pres|) == CoreTick(w);
  }

  lemma GoesFollows(s: Site, a: Act, t: Site, code: Code, pres: seq<World>)
    requires Agree(s) && Goes(s, a, t) && History.Run(pres) && Follows(pres, RoomOf(s.worlds, code))
    ensures var all := pres + if Ticks(a, code) then [RoomOf(s.worlds, code)] else [];
            History.Run(all) && Follows(all, RoomOf(t.worlds, code))
  {
    hide History.Run, Follows, CoreTick, Evolves, Agree, HubWorlds, HubLives, Next, BeatServer, Onward;
    if Ticks(a, code) {
      TickFollows(pres, RoomOf(s.worlds, code));
    } else {
      ActEvolves(s, a, code);
      FollowsOn(pres, RoomOf(s.worlds, code), RoomOf(t.worlds, code));
      assert pres + [] == pres;
    }
  }

  /**
   In every run of the server the ticks of a room, over all the games it plays and the breaks between
   them, make a run in the sense of the history theorems.
   */
  lemma {:induction false} TicksMakeARun(run: seq<Site>, acts: seq<Act>, code: Code, n: nat)
    requires Runs(run, acts) && n <= |acts|
    ensures History.Run(TickWorlds(run, acts, code, n))
    ensures Follows(TickWorlds(run, acts, code, n), RoomOf(run[n].worlds, code))
    decreases n
  {
    hide Goes, History.Run, Follows, Agree;
    if n == 0 {
      NothingYet(code);
    } else {
      TicksMakeARun(run, acts, code, n - 1);
      RunsAgree(run, acts, n - 1);
      GoesFollows(run[n - 1], acts[n - 1], run[n], code, TickWorlds(run, acts, code, n - 1));
    }
  }

  lemma NothingYet(code: Code)
    ensures History.Run([]) && Follows([], RoomOf(NOTHING.worlds, code))
  {
  }

  // ----- The cap on the police -----

  lemma ServerMoves(s: Site, a: Act, t: Site)
    requires Goes(s, a, t) && Sound(s.server)
    ensures Sound(t.server)
  {
    hide Sound, HubWorlds, HubLives, Next, Onward;
    match a
    case Hub(step, _) => SoundStep(s.server, step);
    case Move(_, _, _) =>
    case Beat(code, _) => SoundStep(s.server, GameOver(code));
  }

  lemma {:induction false} ServerSound(run: seq<Site>, acts: seq<Act>, n: nat)
    requires Runs(run, acts) && n <= |acts|
    ensures Sound(run[n].server)
    decreases n
  {
    hide Goes, Sound;
    if n == 0 {
      assert Sound(EMPTY) by { EmptySound(); }
    } else {
      ServerSound(run, acts, n - 1);
      ServerMoves(run[n - 1], acts[n - 1], run[n]);
    }
  }

  lemma EmptySound()
    ensures Sound(EMPTY)
  {
  }

  lemma CappedRoom(s: Site, code: Code)
    requires Agree(s) && Sound(s.server)
    ensures |PoliceIn(RoomOf(s.worlds, code))| <= MAX_POLICE
  {
    if code in s.worlds {
      assert Mirrors(s.server.rooms[code].members, s.worlds[code]) && PartyOk(s.server.rooms[code]);
      assert PoliceIn(s.worlds[code]) == PoliceOf(s.server.rooms[code].members);
    } else {
      assert PoliceIn(map[]) == {};
    }
  }

  /** In every run of the server no tick of any room finds more than two police. */
  lemma {:induction false} TicksAreCapped(run: seq<Site>, acts: seq<Act>, code: Code, n: nat)
    requires Runs(run, acts) && n <= |acts|
    ensures History.PoliceCapped(TickWorlds(run, acts, code, n), MAX_POLICE)
    decreases n
  {
    hide PoliceIn, Goes, Sound, Agree;
    if n > 0 {
      TicksAreCapped(run, acts, code, n - 1);
      ServerSound(run, acts, n - 1);
      RunsAgree(run, acts, n - 1);
      CappedRoom(run[n - 1], code);
    }
  }

  /**
   So with nothing assumed about the players: in every run of the server an arrest takes 15 ticks of its
   room from an empty count, and otherwise what two cops need to fill the gauge up.
   */
  lemma NoEarlyArrest(run: seq<Site>, acts: seq<Act>, code: Code, n: nat, from: nat, k: nat, id: Id)
    requires Runs(run, acts) && n <= |acts|
    requires var pres := TickWorlds(run, acts, code, n);
             from <= k < |pres| && id in pres[k] && History.ArrestedAt(pres, k, id)
    ensures var pres := TickWorlds(run, acts, code, n);
            && (History.CopSumBefore(pres, from, id) == 0 ==> k >= from + 14)
            && (id in pres[from] && pres[from][id].state != Arrested ==>
                  pres[from][id].arrestGauge + 2 * TICK * (k - from + 1) >= ARREST_DURATION)
  {
    hide History.Run, History.PoliceCapped, History.ArrestedAt, History.CopSumBefore, TickWorlds;
    TicksMakeARun(run, acts, code, n);
    TicksAreCapped(run, acts, code, n);
    History.FifteenTicks(TickWorlds(run, acts, code, n), from, k, id);
  }

  /**
   And in every run of the server a released thief is arrested again 74 ticks later at the earliest, unless
   it has started over in between, as in a return to the lobby, and then 14 ticks after that at the earliest.
   */
  lemma NoEarlyRearrest(run: seq<Site>, acts: seq<Act>, code: Code, n: nat, r: nat, k: nat, id: Id)
    requires Runs(run, acts) && n <= |acts|
    requires var pres := TickWorlds(run, acts, code, n);
             r < k < |pres| && History.ReleasedAt(pres, r, id) && History.ArrestedAt(pres, k, id)
    ensures k >= r + 74 || exists j :: r < j <= k - 14 && History.StartsOver(TickWorlds(run, acts, code, n), j, id)
  {
    hide History.Run, History.PoliceCapped, History.ArrestedAt, History.ReleasedAt, History.StartsOver, TickWorlds;
    TicksMakeARun(run, acts, code, n);
    TicksAreCapped(run, acts, code, n);
    History.SeventyFourTicks(TickWorlds(run, acts, code, n), r, k, id);
  }
}
