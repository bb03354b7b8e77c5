/** What a game of the server starts from: empty gauges after a return to the lobby, else what the last one left. */
module GameStarts {
  import opened GameTypes
  import opened TickSpec
  import opened LobbySpec
  import LobbyRuns
  import opened LobbyWorlds
  import opened Sessions
  import Crews
  import GameSpec
  import History
  import Lifecycle

  ghost predicate Plays(s: Site, code: Code) {
    code in s.server.rooms && s.server.rooms[code].state == Playing
  }

  ghost predicate Waits(s: Site, code: Code) {
    code in s.server.rooms && s.server.rooms[code].state == Waiting
  }

  ghost predicate PreparesIn(s: Site, a: Act, code: Code) {
    a.Hub? && Prepares(s.server, a.step, code)
  }

  /** No game is prepared in that room while one is played there. */
  ghost predicate Orderly(run: seq<Site>, acts: seq<Act>, code: Code)
    requires |run| == |acts| + 1
  {
    forall k {:trigger acts[k]} :: 0 <= k < |acts| && PreparesIn(run[k], acts[k], code) ==> !Plays(run[k], code)
  }

  // ----- The game loops of a room of the server -----

  ghost predicate LoopsSound(s: Site, code: Code) {
    code in s.lives ==> Lifecycle.Sound(s.lives[code])
  }

  lemma LoopsStep(s: Site, a: Act, t: Site, code: Code)
    requires Agree(s) && Goes(s, a, t) && LoopsSound(s, code)
    requires PreparesIn(s, a, code) ==> !Plays(s, code)
    ensures LoopsSound(t, code)
  {
    hide Lifecycle.Sound, HubWorlds, BeatServer, Lifecycle.Enabled, Lifecycle.Next, WorldsAgree, FreshIds,
      AllReady, Toggled, Heir, Crews.Spawned;
    StartIsSound();
    if code in s.lives {
      match a
      case Hub(step, _) =>
        LoopStep(s.lives[code], Lifecycle.Prepare);
        LoopStep(s.lives[code], Lifecycle.Return);
      case Move(_, _, _) =>
      case Beat(_, beat) =>
        LoopStep(s.lives[code], beat);
    }
  }

  lemma StartIsSound()
    ensures Lifecycle.Sound(Lifecycle.START)
  {
  }

  lemma LoopStep(life: Lifecycle.System, step: Lifecycle.Step)
    ensures Lifecycle.Sound(life) && Lifecycle.Enabled(life, step) && (step.Prepare? ==> life.life.state != Playing) ==>
              Lifecycle.Sound(Lifecycle.Next(life, step))
  {
    if Lifecycle.Sound(life) && Lifecycle.Enabled(life, step) && (step.Prepare? ==> life.life.state != Playing) {
      Lifecycle.SoundStep(life, step);
    }
  }

  lemma {:induction false} LoopsStaySound(run: seq<Site>, acts: seq<Act>, code: Code, n: nat)
    requires Runs(run, acts) && Orderly(run, acts, code) && n <= |acts|
    ensures LoopsSound(run[n], code)
    decreases n
  {
    hide Goes, Agree, LoopsSound, Plays, PreparesIn;
    if n == 0 {
      NothingIsSound(code);
    } else {
      LoopsStaySound(run, acts, code, n - 1);
      RunsAgree(run, acts, n - 1);
      LoopsStep(run[n - 1], acts[n - 1], run[n], code);
    }
  }

  lemma NothingIsSound(code: Code)
    ensures LoopsSound(NOTHING, code)
  {
  }

  lemma PreparedWhilePlaying(s: Site, a: Act, t: Site, code: Code)
    requires Agree(s) && Goes(s, a, t) && PreparesIn(s, a, code) && Plays(s, code)
    ensures !LoopsSound(s, code) || !LoopsSound(t, code)
  {
    hide Lifecycle.Sound, HubWorlds, WorldsAgree, AllReady, Toggled, Crews.Spawned;
    assert t.lives[code] == Lifecycle.Next(s.lives[code], Lifecycle.Prepare);
    if LoopsSound(s, code) {
      Lifecycle.PrepareIsSafeIff(s.lives[code]);
    }
  }

  /**
   In a run of the server the game loops of a room are sound throughout - one loop at most, alive and with
   an open stop channel exactly while the room plays - if and only if no game is prepared there while
   one is played.
   */
  lemma LoopsSoundIff(run: seq<Site>, acts: seq<Act>, code: Code)
    requires Runs(run, acts)
    ensures (forall n :: 0 <= n <= |acts| ==> LoopsSound(run[n], code)) <==> Orderly(run, acts, code)
  {
    hide Goes, Agree, LoopsSound, Plays, PreparesIn;
    if Orderly(run, acts, code) {
      forall n | 0 <= n <= |acts|
        ensures LoopsSound(run[n], code)
      {
        LoopsStaySound(run, acts, code, n);
      }
    } else {
      var k :| 0 <= k < |acts| && PreparesIn(run[k], acts[k], code) && Plays(run[k], code);
      RunsAgree(run, acts, k);
      PreparedWhilePlaying(run[k], acts[k], run[k + 1], code);
    }
  }

  lemma TickFindsGame(s: Site, a: Act, code: Code)
    requires Agree(s) && Allowed(s, a) && Ticks(a, code) && LoopsSound(s, code)
    ensures Plays(s, code) && s.lives[code].life.remaining > 0
  {
    hide WorldsAgree;
  }

  lemma FreshEvolves(w: World, v: World)
    requires AllFresh(w) && Evolves(w, v)
    ensures AllFresh(v)
  {
  }

  /** A room comes to wait only by being created or by a return, which resets everyone. */
  lemma WaitsSince(s: Site, a: Act, t: Site, code: Code)
    requires Agree(s) && Goes(s, a, t) && Sound(s.server) && Waits(t, code)
    ensures Waits(s, code) || AllFresh(RoomOf(t.worlds, code))
  {
    hide CoreTick, Crews.Spawned, Mirrors, Added, Removed, AllReady, CanSelect, Full, Heir, Sound, HubLives, Onward;
    if a.Hub? && !Waits(s, code) && code in s.server.rooms {
      LobbyRuns.StateChanges(s.server, a.step, code);
      ResetEvolves(RoomOf(s.worlds, code));
    }
  }

  lemma WaitingStep(s: Site, a: Act, t: Site, code: Code)
    requires Agree(s) && Goes(s, a, t) && Sound(s.server) && LoopsSound(s, code)
    requires Waits(s, code) ==> AllFresh(RoomOf(s.worlds, code))
    ensures Waits(t, code) ==> AllFresh(RoomOf(t.worlds, code))
  {
    hide Agree, Allowed, After, AllFresh, Sound, LoopsSound;
    if Waits(t, code) {
      WaitsSince(s, a, t, code);
      if Waits(s, code) {
        if Ticks(a, code) {
          TickFindsGame(s, a, code);
        }
        ActEvolves(s, a, code);
        FreshEvolves(RoomOf(s.worlds, code), RoomOf(t.worlds, code));
      }
    }
  }

  /** If no game is prepared in a room while one is played, all its players are fresh whenever it waits. */
  lemma {:induction false} WaitingIsFresh(run: seq<Site>, acts: seq<Act>, n: nat, code: Code)
    requires Runs(run, acts) && Orderly(run, acts, code) && n <= |acts|
    ensures Waits(run[n], code) ==> AllFresh(RoomOf(run[n].worlds, code))
    decreases n
  {
    hide Goes, Sound, AllFresh, Plays, Agree, LoopsSound, PreparesIn;
    if n > 0 {
      WaitingIsFresh(run, acts, n - 1, code);
      ServerSound(run, acts, n - 1);
      RunsAgree(run, acts, n - 1);
      LoopsStaySound(run, acts, code, n - 1);
      WaitingStep(run[n - 1], acts[n - 1], run[n], code);
    }
  }

  /** No tick of the room from act i up to act j. */
  predicate NoTick(acts: seq<Act>, code: Code, i: nat, j: nat)
    requires j <= |acts|
  {
    forall m :: i <= m < j ==> !Ticks(acts[m], code)
  }

  lemma {:induction false} FreshUntilTick(run: seq<Site>, acts: seq<Act>, code: Code, i: nat, j: nat)
    requires Runs(run, acts) && i <= j <= |acts| && NoTick(acts, code, i, j)
    requires AllFresh(RoomOf(run[i].worlds, code))
    ensures AllFresh(RoomOf(run[j].worlds, code))
    decreases j
  {
    hide AllFresh, Evolves, Agree, Allowed, After;
    if i < j {
      FreshUntilTick(run, acts, code, i, j - 1);
      assert Goes(run[j - 1], acts[j - 1], run[j]);
      RunsAgree(run, acts, j - 1);
      ActEvolves(run[j - 1], acts[j - 1], code);
      FreshEvolves(RoomOf(run[j - 1].worlds, code), RoomOf(run[j].worlds, code));
    }
  }

  lemma {:induction false} TicksBetween(run: seq<Site>, acts: seq<Act>, code: Code, i: nat, n: nat)
    requires |run| == |acts| + 1 && i <= n <= |acts|
    ensures TickWorlds(run, acts, code, i) <= TickWorlds(run, acts, code, n)
    ensures NoTick(acts, code, i, n) ==> TickWorlds(run, acts, code, n) == TickWorlds(run, acts, code, i)
    decreases n
  {
    if i < n {
      TicksBetween(run, acts, code, i, n - 1);
    }
  }

  /** The ticks since act i as a run of their own. */
  function TicksSince(run: seq<Site>, acts: seq<Act>, code: Code, i: nat, n: nat): seq<World>
    requires |run| == |acts| + 1 && i <= n <= |acts|
  {
    TicksBetween(run, acts, code, i, n);
    TickWorlds(run, acts, code, n)[|TickWorlds(run, acts, code, i)|..]
  }

  /** A rest of a run is a run of its own if and only if it starts with fresh players. */
  lemma RestIsRun(pres: seq<World>, a: nat)
    requires History.Run(pres) && a < |pres|
    ensures History.Run(pres[a..]) <==> AllFresh(pres[a])
  {
    var rest := pres[a..];
    forall k, id | 0 < k < |rest| && id in rest[k]
      ensures History.Reached(rest, k, id)
    {
      assert History.Reached(pres, a + k, id);
    }
    if History.Run(rest) {
      assert forall id :: id in rest[0] ==> History.Reached(rest, 0, id);
    }
  }

  lemma FirstTick(run: seq<Site>, acts: seq<Act>, code: Code, i: nat, j: nat, n: nat)
    requires |run| == |acts| + 1 && i <= j < n <= |acts| && NoTick(acts, code, i, j) && Ticks(acts[j], code)
    ensures TicksSince(run, acts, code, i, n) != []
    ensures TicksSince(run, acts, code, i, n)[0] == RoomOf(run[j].worlds, code)
  {
    TicksBetween(run, acts, code, i, j);
    TicksBetween(run, acts, code, j + 1, n);
  }

  /** The ticks since act i are a run of their own if and only if the first of them finds fresh players. */
  lemma GameIsRunIff(run: seq<Site>, acts: seq<Act>, code: Code, i: nat, j: nat, n: nat)
    requires Runs(run, acts) && i <= j < n <= |acts| && NoTick(acts, code, i, j) && Ticks(acts[j], code)
    ensures History.Run(TicksSince(run, acts, code, i, n)) <==> AllFresh(RoomOf(run[j].worlds, code))
  {
    hide History.Run, AllFresh, TickWorlds;
    TicksMakeARun(run, acts, code, n);
    TicksBetween(run, acts, code, i, n);
    FirstTick(run, acts, code, i, j, n);
    RestIsRun(TickWorlds(run, acts, code, n), |TickWorlds(run, acts, code, i)|);
  }

  /**
   If no game is prepared in a room while one is played, every game prepared in it while it waits starts
   from empty gauges: its ticks are a run of their own.
   */
  lemma GameFromWaiting(run: seq<Site>, acts: seq<Act>, code: Code, i: nat, j: nat, n: nat)
    requires Runs(run, acts) && i <= j < n <= |acts| && NoTick(acts, code, i, j) && Ticks(acts[j], code)
    requires Orderly(run, acts, code) && Waits(run[i], code)
    ensures History.Run(TicksSince(run, acts, code, i, n))
  {
    hide History.Run, AllFresh, TicksSince, Waits, Goes;
    WaitingIsFresh(run, acts, i, code);
    FreshUntilTick(run, acts, code, i, j);
    GameIsRunIff(run, acts, code, i, j, n);
  }

  // ----- A game prepared right after another -----

  /** Act i prepares a game in the room, and up to its first tick, act j, the lobby leaves the room alone. */
  ghost predicate StartsAt(run: seq<Site>, acts: seq<Act>, code: Code, i: nat, j: nat)
    requires |run| == |acts| + 1
  {
    && i < j < |acts|
    && PreparesIn(run[i], acts[i], code)
    && Ticks(acts[j], code)
    && (forall m :: i < m < j ==> !Ticks(acts[m], code))
    && (forall m :: i < m <= j ==> SameRoom(run[i + 1], run[m], code))
  }

  predicate SameRoom(s: Site, t: Site, code: Code) {
    && code in s.server.rooms && code in t.server.rooms
    && t.server.rooms[code] == s.server.rooms[code]
  }

  /** Nobody's freshness changes by a change of place. */
  ghost predicate AsFresh(w: World, v: World) {
    v.Keys == w.Keys && forall id :: id in w ==> (History.Fresh(v[id]) <==> History.Fresh(w[id]))
  }

  lemma SpawnAsFresh(w: World, v: World)
    requires Crews.Spawned(w, v)
    ensures AsFresh(w, v)
  {
    SpawnEvolves(w, v);
  }

  lemma PreparedAsFresh(s: Site, a: Act, t: Site, code: Code)
    requires Agree(s) && Goes(s, a, t) && PreparesIn(s, a, code)
    ensures AsFresh(RoomOf(s.worlds, code), RoomOf(t.worlds, code))
    ensures Plays(t, code)
  {
    hide Mirrors, AllReady;
    SpawnEvolves(s.worlds[code], a.spawn);
  }

  lemma QuietKeys(s: Site, t: Site, code: Code)
    requires Agree(s) && Agree(t) && SameRoom(s, t, code)
    ensures RoomOf(s.worlds, code).Keys == RoomOf(t.worlds, code).Keys
  {
    assert Mirrors(s.server.rooms[code].members, s.worlds[code]);
    assert Mirrors(t.server.rooms[code].members, t.worlds[code]);
  }

  lemma NoEntry(s: Server, worlds: map<Code, World>, player: Id, code: Code)
    requires WorldsAgree(s, worlds) && FreshPlayer(s, player) && code in worlds
    ensures player !in worlds[code]
  {
    assert Mirrors(s.rooms[code].members, worlds[code]);
    assert !Seated(s, code, player);
  }

  lemma EntryAsFresh(s: Server, worlds: map<Code, World>, at: Code, player: Id, code: Code)
    requires WorldsAgree(s, worlds) && code in worlds
    requires at in s.rooms && !Full(s.rooms[at]) ==> FreshPlayer(s, player)
    requires RoomOf(Entered(s, worlds, at, player), code).Keys == worlds[code].Keys
    ensures AsFresh(worlds[code], RoomOf(Entered(s, worlds, at, player), code))
  {
    hide FreshPlayer, Mirrors, Full;
    if at == code && !Full(s.rooms[code]) {
      NoEntry(s, worlds, player, code);
    }
  }

  lemma StaysAsFresh(w: World, id: Id, role: Role)
    ensures AsFresh(w, w) && AsFresh(w, Recast(w, id, role))
  {
  }

  lemma LeftAsFresh(worlds: map<Code, World>, at: Code, id: Id, code: Code)
    requires code in worlds && RoomOf(Left(worlds, at, id), code).Keys == worlds[code].Keys
    ensures AsFresh(worlds[code], RoomOf(Left(worlds, at, id), code))
  {
  }

  lemma QuietHub(s: Server, worlds: map<Code, World>, step: Step, spawn: World, code: Code)
    requires WorldsAgree(s, worlds) && Enabled(s, step) && FreshIds(s, step)
    requires code in worlds && s.rooms[code].state == Playing
    requires Prepares(s, step, code) ==> Crews.Spawned(worlds[code], spawn)
    requires RoomOf(HubWorlds(s, worlds, step, spawn), code).Keys == worlds[code].Keys
    ensures AsFresh(worlds[code], RoomOf(HubWorlds(s, worlds, step, spawn), code))
  {
    SameKeys(s, worlds);
    hide WorldsAgree, Crews.Spawned, Heir, CanSelect, AllReady, Toggled, Finds, FreshPlayer, Full, AsFresh, Recast,
      Entered, Left, GameSpec.ResetWorld;
    var w := worlds[code];
    StaysAsFresh(w, "", NoRole);
    match step
    case Create(_, at, player) =>
    case Join(_, at, player) => EntryAsFresh(s, worlds, at, player, code);
    case RandomJoin(_, _, found, player) =>
      if found.Some? {
        EntryAsFresh(s, worlds, found.value, player, code);
      }
    case SelectTeam(client, _, role) => StaysAsFresh(w, PlayerOf(s, client), role);
    case Ready(_, at) =>
      if at == Some(code) && Prepares(s, step, code) {
        SpawnAsFresh(w, spawn);
      }
    case Return(_, _) =>
    case Leave(client, at, _) =>
      if PlayerOf(s, client) != "" && at.Some? {
        LeftAsFresh(worlds, at.value, PlayerOf(s, client), code);
      }
    case GameOver(_) =>
  }

  lemma SameKeys(s: Server, worlds: map<Code, World>)
    requires WorldsAgree(s, worlds)
    ensures worlds.Keys == s.rooms.Keys
  {
    hide Mirrors;
  }

  lemma QuietAct(s: Site, a: Act, t: Site, code: Code)
    requires Agree(s) && Goes(s, a, t) && !Ticks(a, code) && Plays(s, code) && SameRoom(s, t, code) && Agree(t)
    ensures AsFresh(RoomOf(s.worlds, code), RoomOf(t.worlds, code))
  {
    QuietKeys(s, t, code);
    SameKeys(s.server, s.worlds);
    hide CoreTick, WorldsAgree, LivesAgree, HubWorlds, HubLives, BeatServer, Onward, Next, Crews.Spawned;
    if a.Hub? {
      QuietHub(s.server, s.worlds, a.step, a.spawn, code);
    }
  }

  lemma {:induction false} QuietUntil(run: seq<Site>, acts: seq<Act>, code: Code, i: nat, j: nat, m: nat)
    requires Runs(run, acts) && StartsAt(run, acts, code, i, j) && i < m <= j
    ensures AsFresh(RoomOf(run[i].worlds, code), RoomOf(run[m].worlds, code)) && Plays(run[m], code)
    decreases m
  {
    hide Agree, Allowed, After, RoomOf, PreparesIn;
    assert Goes(run[m - 1], acts[m - 1], run[m]);
    RunsAgree(run, acts, m - 1);
    RunsAgree(run, acts, m);
    if m == i + 1 {
      PreparedAsFresh(run[i], acts[i], run[m], code);
    } else {
      QuietUntil(run, acts, code, i, j, m - 1);
      assert SameRoom(run[i + 1], run[m - 1], code) && SameRoom(run[i + 1], run[m], code);
      QuietAct(run[m - 1], acts[m - 1], run[m], code);
    }
  }

  /**
   Preparing a game resets nobody, and the ready handler does not ask for a return in between: a game's
   ticks are a run from empty gauges if and only if everyone was fresh when it was prepared. After a
   game without a return they are not, as soon as a gauge or a jailed thief is left.
   */
  lemma GamePreparedIff(run: seq<Site>, acts: seq<Act>, code: Code, i: nat, j: nat, n: nat)
    requires Runs(run, acts) && StartsAt(run, acts, code, i, j) && j < n <= |acts|
    ensures History.Run(TicksSince(run, acts, code, i, n)) <==> AllFresh(RoomOf(run[i].worlds, code))
  {
    hide History.Run, TicksSince, Goes;
    QuietUntil(run, acts, code, i, j, j);
    GameIsRunIff(run, acts, code, i, j, n);
  }

  /** A gauge left at 1450 ms: the first tick with a cop in range arrests. */
  lemma LeftoverGauge(w: World, thief: Id)
    requires thief in w && w[thief].role == Thief && w[thief].state == Free
    requires w[thief].arrestGauge == ARREST_DURATION - TICK && Chasers(AwakeAll(w), thief) != {}
    ensures ArrestPhase(AwakeAll(w))[thief].state == Arrested
  {
    var n := |Chasers(AwakeAll(w), thief)|;
    assert n > 0;
    ArrestStepsClosed(w[thief], ARREST_TICKS - 1, n);
  }

  lemma NobodyChased(w: World, v: World, id: Id)
    requires Crews.Spawned(w, v) && id in v
    ensures Chasers(AwakeAll(v), id) == {}
  {
    hide Crews.Spawned, InArrestRange;
    forall cop | cop in v && Chases(AwakeAll(v), cop, id)
      ensures false
    {
      NoChaseAwake(w, v, cop, id);
    }
  }

  lemma NoChaseAwake(w: World, v: World, cop: Id, id: Id)
    requires Crews.Spawned(w, v) && cop in v && id in v
    ensures !Chases(AwakeAll(v), cop, id)
  {
    if v[cop].role == Police && v[id].role != Police {
      Crews.NoChaseAtSpawn(w, v, cop, id);
      hide Within;
      assert !InArrestRange(Awake(v[cop]), Awake(v[id]));
    }
  }

  /** Right after a spawn the first tick arrests nobody. */
  lemma FirstTickAt(w: World, v: World, id: Id)
    requires Crews.Spawned(w, v) && id in w
    ensures CoreTick(v)[id] == AfterRescue(Awake(v[id]), RescueFires(AwakeAll(v)))
    ensures CoreTick(v)[id].role == w[id].role
  {
    NoFirstArrest(w, v);
  }

  lemma NoFirstArrest(w: World, v: World)
    requires Crews.Spawned(w, v)
    ensures ArrestPhase(AwakeAll(v)) == AwakeAll(v)
  {
    hide Chasers, Awake, Crews.Spawned;
    forall id | id in v
      ensures ArrestPhase(AwakeAll(v))[id] == AwakeAll(v)[id]
    {
      NobodyChased(w, v, id);
    }
  }

  /**
   The verdict after the first tick, if nobody has moved since the spawn, is the one that stood before:
   after a police win the next game is over in one tick, unless the room returns to the lobby first.
   */
  lemma RematchIsDecided(w: World, v: World)
    requires Crews.Spawned(w, v)
    ensures PoliceWin(CoreTick(v)) <==> PoliceWin(w)
    ensures PoliceWin(w) ==> !AllFresh(w)
  {
    hide RescueFires, Crews.Spawned, CoreTick, AwakeAll;
    var fires := RescueFires(AwakeAll(v));
    forall id | id in w
      ensures id in v && w[id].role == CoreTick(v)[id].role
      ensures w[id].role == Thief ==> (CoreTick(v)[id].state == Arrested <==> w[id].state == Arrested && !fires)
    {
      SpawnKeeps(w, v);
      FirstTickAt(w, v, id);
    }
    SpawnKeeps(w, v);
    assert CoreTick(v).Keys == w.Keys;
    if PoliceWin(w) {
      NobodyCompletes(w, v);
    }
  }

  lemma SpawnKeeps(w: World, v: World)
    requires Crews.Spawned(w, v)
    ensures v.Keys == w.Keys && forall id :: id in w ==> v[id].role == w[id].role && v[id].state == w[id].state
  {
  }

  lemma NobodyCompletes(w: World, v: World)
    requires Crews.Spawned(w, v) && PoliceWin(w)
    ensures !RescueFires(AwakeAll(v))
  {
  }
}
