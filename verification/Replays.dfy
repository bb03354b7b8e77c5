/** Runs of the whole server: a game of two to its end, and what a game prepared right after it starts from. */
module Replays {
  import opened GameTypes
  import opened Geometry
  import opened TickSpec
  import opened LobbySpec
  import opened LobbyScenes
  import LobbyRuns
  import opened LobbyWorlds
  import opened Sessions
  import opened GameStarts
  import Crews
  import GameSpec
  import History
  import ItemSpec
  import Lifecycle
  import Movement

  // ----- One room with a cop and a thief -----

  /** Where they spawn, 500 px apart. */
  const POST: Position := Position(1000.0, 2600.0)
  const HIDEOUT: Position := Position(1000.0, 3100.0)

  function Cop(at: Position): Core {
    NEWCOMER.(role := Police, x := at.x, y := at.y)
  }

  function Prey(gauge: int): Core {
    NEWCOMER.(role := Thief, x := HIDEOUT.x, y := HIDEOUT.y, arrestGauge := gauge)
  }

  const JAILED: Core := Prey(0).(state := Arrested)

  function Crew(q: Cast, cop: Core, thief: Core): World {
    map[q.cop := cop, q.thief := thief]
  }

  function At(q: Cast, server: Server, w: World, life: Lifecycle.System): Site {
    Site(server, map[q.code := w], map[q.code := life])
  }

  /** The room in that state, the cop ready or not. */
  function In(q: Cast, state: RoomState, ready: bool, w: World, life: Lifecycle.System): Site {
    At(q, Pair(q, state, Member(Police, ready), Member(Thief, true)), w, life)
  }

  function Play(q: Cast, w: World, life: Lifecycle.System): Site {
    In(q, Playing, true, w, life)
  }

  lemma HubGoes(q: Cast, server: Server, w: World, life: Lifecycle.System, step: Step, spawn: World,
                next: Server, v: World, after: Lifecycle.System)
    requires LobbyRuns.Moves(server, step, next) && !step.GameOver?
    requires HubWorlds(server, map[q.code := w], step, spawn) == map[q.code := v]
    requires HubLives(server, map[q.code := life], step) == map[q.code := after]
    requires Prepares(server, step, q.code) ==> Crews.Spawned(w, spawn)
    ensures Goes(At(q, server, w, life), Hub(step, spawn), At(q, next, v, after))
  {
    hide Enabled, FreshIds, Next, HubWorlds, HubLives, Crews.Spawned, Prepares;
  }

  // ----- The opening -----

  function OpeningWorld(q: Cast, k: nat): World {
    if k == 2 then Crew(q, NEWCOMER, NEWCOMER)
    else if k == 3 then Crew(q, NEWCOMER.(role := Police), NEWCOMER)
    else if k <= 5 then Crew(q, NEWCOMER.(role := Police), NEWCOMER.(role := Thief))
    else Crew(q, Cop(POST), Prey(0))
  }

  function OpeningSite(q: Cast, k: nat): Site
    requires k <= OPENING
  {
    if k == 0 then NOTHING
    else if k == 1 then At(q, Opening(q, 1), map[q.cop := NEWCOMER], Lifecycle.START)
    else
      At(q, Opening(q, k), OpeningWorld(q, k),
         if k < OPENING then Lifecycle.START else Lifecycle.Next(Lifecycle.START, Lifecycle.Prepare))
  }

  lemma CreateGoes(q: Cast, spawn: World)
    requires q.Distinct()
    ensures Goes(OpeningSite(q, 0), Hub(OpeningStep(q, 0), spawn), OpeningSite(q, 1))
  {
    CreateScene(q);
  }

  lemma JoinGoes(q: Cast, spawn: World)
    requires q.Distinct()
    ensures Goes(OpeningSite(q, 1), Hub(OpeningStep(q, 1), spawn), OpeningSite(q, 2))
  {
    JoinScene(q);
    var s, w := Opening(q, 1), OpeningWorld(q, 2);
    assert s.rooms[q.code].members.Keys == {q.cop};
    assert |s.rooms[q.code].members| == 1;
    hide LobbyRuns.Moves;
    HubGoes(q, s, map[q.cop := NEWCOMER], Lifecycle.START, OpeningStep(q, 1), spawn, Opening(q, 2), w, Lifecycle.START);
  }

  lemma PickGoes(q: Cast, k: nat, spawn: World)
    requires q.Distinct() && 2 <= k <= 3
    ensures Goes(OpeningSite(q, k), Hub(OpeningStep(q, k), spawn), OpeningSite(q, k + 1))
  {
    PickScene(q, k);
    PairSeats(q, Waiting, NEW_MEMBER, NEW_MEMBER);
    PairSeats(q, Waiting, Member(Police, false), NEW_MEMBER);
    assert Recast(OpeningWorld(q, 2), q.cop, Police) == OpeningWorld(q, 3);
    assert Recast(OpeningWorld(q, 3), q.thief, Thief) == OpeningWorld(q, 4);
    hide LobbyRuns.Moves, PoliceOf, Finds, Recast;
    HubGoes(q, Opening(q, k), OpeningWorld(q, k), Lifecycle.START, OpeningStep(q, k), spawn,
            Opening(q, k + 1), OpeningWorld(q, k + 1), Lifecycle.START);
  }

  /** A toggle of the cop or the thief prepares a game exactly if it makes both ready. */
  lemma PreparesIff(q: Cast, state: RoomState, cop: Member, thief: Member)
    requires q.Distinct() && cop.role == Police && thief.role == Thief
    ensures var s := Pair(q, state, cop, thief);
            && (Prepares(s, Ready(q.copClient, Some(q.code)), q.code) <==> !cop.ready && thief.ready)
            && (Prepares(s, Ready(q.thiefClient, Some(q.code)), q.code) <==> cop.ready && !thief.ready)
  {
    PairSeats(q, state, cop, thief);
    PairToggles(q, state, cop, thief);
    PairTeams(q, state, cop.(ready := !cop.ready), thief);
    PairTeams(q, state, cop, thief.(ready := !thief.ready));
    hide AllReady, Toggled, PoliceOf;
  }

  lemma CopReadies(q: Cast, w: World, life: Lifecycle.System, spawn: World)
    requires q.Distinct()
    ensures var s, step := Pair(q, Waiting, Member(Police, false), Member(Thief, false)), OpeningStep(q, 4);
            && Enabled(s, step) && !Prepares(s, step, q.code)
            && HubWorlds(s, map[q.code := w], step, spawn) == map[q.code := w]
            && HubLives(s, map[q.code := life], step) == map[q.code := life]
  {
    PairSeats(q, Waiting, Member(Police, false), Member(Thief, false));
    PreparesIff(q, Waiting, Member(Police, false), Member(Thief, false));
    hide Prepares, PoliceOf, Finds;
  }

  lemma ThiefReadies(q: Cast, w: World, life: Lifecycle.System, spawn: World)
    requires q.Distinct()
    ensures var s, step := Pair(q, Waiting, Member(Police, true), Member(Thief, false)), OpeningStep(q, 5);
            && Enabled(s, step) && Prepares(s, step, q.code)
            && HubWorlds(s, map[q.code := w], step, spawn) == map[q.code := spawn]
            && HubLives(s, map[q.code := life], step) == map[q.code := Lifecycle.Next(life, Lifecycle.Prepare)]
  {
    PairSeats(q, Waiting, Member(Police, true), Member(Thief, false));
    PreparesIff(q, Waiting, Member(Police, true), Member(Thief, false));
    hide Prepares, PoliceOf, Finds, Lifecycle.Next;
  }

  lemma ReadyGoes(q: Cast, k: nat, spawn: World)
    requires q.Distinct() && 4 <= k <= 5 && spawn == OpeningWorld(q, OPENING)
    ensures Goes(OpeningSite(q, k), Hub(OpeningStep(q, k), spawn), OpeningSite(q, k + 1))
  {
    ReadyScene(q, k);
    CopReadies(q, OpeningWorld(q, 4), Lifecycle.START, spawn);
    ThiefReadies(q, OpeningWorld(q, 5), Lifecycle.START, spawn);
    SpawnedPair(q, NEWCOMER.(role := Police), NEWCOMER.(role := Thief));
    hide LobbyRuns.Moves, Prepares, HubWorlds, HubLives, Crews.Spawned, Pair, Crew;
    HubGoes(q, Opening(q, k), OpeningWorld(q, k), Lifecycle.START, OpeningStep(q, k), spawn,
            Opening(q, k + 1), OpeningWorld(q, k + 1), OpeningSite(q, k + 1).lives[q.code]);
  }

  lemma SpawnedPair(q: Cast, cop: Core, thief: Core)
    requires q.Distinct() && cop.role == Police && thief.role == Thief
    ensures Crews.Spawned(Crew(q, cop, thief),
                          Crew(q, cop.(x := POST.x, y := POST.y), thief.(x := HIDEOUT.x, y := HIDEOUT.y)))
  {
  }

  /** The first game begins. */
  lemma Begins(q: Cast) returns (run: seq<Site>, acts: seq<Act>)
    requires q.Distinct()
    ensures Runs(run, acts) && Orderly(run, acts, q.code) && run[|acts|] == OpeningSite(q, OPENING)
  {
    hide Goes, OpeningStep, OpeningSite, PreparesIn, Plays;
    var spawn := OpeningWorld(q, OPENING);
    CreateGoes(q, spawn);
    JoinGoes(q, spawn);
    PickGoes(q, 2, spawn);
    PickGoes(q, 3, spawn);
    ReadyGoes(q, 4, spawn);
    ReadyGoes(q, 5, spawn);
    run := seq(OPENING + 1, k requires 0 <= k <= OPENING => OpeningSite(q, k));
    acts := seq(OPENING, k requires 0 <= k < OPENING => Hub(OpeningStep(q, k), spawn));
    NotPlayingYet(q);
  }

  lemma NotPlayingYet(q: Cast)
    ensures OpeningSite(q, 0) == NOTHING
    ensures forall k :: 0 <= k < OPENING ==> !Plays(OpeningSite(q, k), q.code)
  {
  }

  // ----- Moves, ticks and checks -----

  lemma MoveGoes(q: Cast, from: Position, to: Position, thief: Core, life: Lifecycle.System)
    requires q.Distinct()
    ensures Goes(Play(q, Crew(q, Cop(from), thief), life), Move(q.copClient, Some(q.code), to),
                 Play(q, Crew(q, Cop(to), thief), life))
  {
    PairSeats(q, Playing, Member(Police, true), Member(Thief, true));
    hide PoliceOf, Finds;
    assert Moved(Crew(q, Cop(from), thief), q.cop, to) == Crew(q, Cop(to), thief);
  }

  lemma TickGoes(q: Cast, server: Server, w: World, life: Lifecycle.System)
    requires q.code in server.rooms && life.loops != [] && life.loops[0].Selecting? && life.life.state != Ended
    ensures Goes(At(q, server, w, life), Beat(q.code, Lifecycle.Tick(0)),
                 At(q, server, CoreTick(w), Lifecycle.Next(life, Lifecycle.Tick(0))))
  {
    hide CoreTick;
  }

  /** A win check that lets the game go on, or one that ends it. */
  lemma CheckGoes(q: Cast, w: World, life: Lifecycle.System, policeWin: bool)
    requires life.loops != [] && life.loops[0].Checking? && life.life.state == Playing
    ensures var check := Lifecycle.Check(0, policeWin);
            Goes(Play(q, w, life), Beat(q.code, check),
                 if policeWin || life.loops[0].expired then In(q, Ended, true, w, Lifecycle.Next(life, check))
                 else Play(q, w, Lifecycle.Next(life, check)))
  {
  }

  /** The room's loops k ticks into its game, the first loop as given. */
  function Clock(k: nat, first: Lifecycle.Loop, rest: seq<Lifecycle.Loop>): Lifecycle.System {
    Lifecycle.System(Lifecycle.Life(Playing, Some(false), GAME_DURATION - TICK * k, []), [first] + rest, 1 + |rest|, k)
  }

  /** Cop and thief k ticks into the game. */
  function During(q: Cast, at: Position, thief: Core, k: nat, rest: seq<Lifecycle.Loop>): Site {
    Play(q, Crew(q, Cop(at), thief), Clock(k, Lifecycle.Selecting, rest))
  }

  lemma ClockTicks(k: nat, rest: seq<Lifecycle.Loop>)
    ensures var checking := Lifecycle.Checking(GAME_DURATION - TICK * (k + 1) <= 0);
            && Lifecycle.Next(Clock(k, Lifecycle.Selecting, rest), Lifecycle.Tick(0)) == Clock(k + 1, checking, rest)
            && (!checking.expired ==>
                  Lifecycle.Next(Clock(k + 1, checking, rest), Lifecycle.Check(0, false)) ==
                  Clock(k + 1, Lifecycle.Selecting, rest))
  {
    var checking := Lifecycle.Checking(GAME_DURATION - TICK * (k + 1) <= 0);
    assert ([Lifecycle.Selecting] + rest)[0 := checking] == [checking] + rest;
    assert ([checking] + rest)[0 := Lifecycle.Selecting] == [Lifecycle.Selecting] + rest;
  }

  /** One tick and a win check that changes nothing. */
  lemma BeatOn(run: seq<Site>, acts: seq<Act>, q: Cast, at: Position, thief: Core, k: nat,
               rest: seq<Lifecycle.Loop>, next: Core)
      returns (longer: seq<Site>, more: seq<Act>)
    requires Runs(run, acts) && run[|acts|] == During(q, at, thief, k, rest)
    requires CoreTick(Crew(q, Cop(at), thief)) == Crew(q, Cop(at), next) && TICK * (k + 1) < GAME_DURATION
    ensures Runs(longer, more) && longer[|more|] == During(q, at, next, k + 1, rest)
    ensures Orderly(longer, more, q.code) <==> Orderly(run, acts, q.code)
  {
    hide Goes, CoreTick, Orderly, Crew, Lifecycle.Next;
    var checking := Lifecycle.Checking(false);
    ClockTicks(k, rest);
    TickGoes(q, run[|acts|].server, Crew(q, Cop(at), thief), Clock(k, Lifecycle.Selecting, rest));
    CheckGoes(q, Crew(q, Cop(at), next), Clock(k + 1, checking, rest), false);
    var t := Play(q, Crew(q, Cop(at), next), Clock(k + 1, checking, rest));
    var u := During(q, at, next, k + 1, rest);
    longer, more := Extend(run, acts, q, Beat(q.code, Lifecycle.Tick(0)), t);
    longer, more := Extend(longer, more, q, Beat(q.code, Lifecycle.Check(0, false)), u);
  }

  /** One act more; only an act that prepares a game bears on the order of the run. */
  lemma Extend(run: seq<Site>, acts: seq<Act>, q: Cast, a: Act, t: Site)
      returns (longer: seq<Site>, more: seq<Act>)
    requires Runs(run, acts) && Goes(run[|acts|], a, t)
    ensures longer == run + [t] && more == acts + [a]
    ensures Runs(longer, more) && longer[|more|] == t
    ensures Orderly(longer, more, q.code) <==>
            Orderly(run, acts, q.code) && (a.Hub? && PreparesIn(run[|acts|], a, q.code) ==> !Plays(run[|acts|], q.code))
  {
    hide Goes, Plays, Prepares;
    longer, more := run + [t], acts + [a];
    if Orderly(longer, more, q.code) {
      assert more[|acts|] == a;
      forall k | 0 <= k < |acts| && PreparesIn(run[k], acts[k], q.code)
        ensures !Plays(run[k], q.code)
      {
        assert more[k] == acts[k];
      }
    }
  }

  // ----- The chase -----

  lemma Distances()
    ensures Within(HIDEOUT.x, HIDEOUT.y, HIDEOUT.x, HIDEOUT.y, ARREST_RANGE)
    ensures !Within(POST.x, POST.y, HIDEOUT.x, HIDEOUT.y, ARREST_RANGE)
    ensures !Within(HIDEOUT.x, HIDEOUT.y, JAIL_X, JAIL_Y, JAIL_RANGE)
  {
  }

  /** The speed check lets the cop walk: a first move, then from its post to the hideout and back in a second each. */
  lemma WalksAccepted(last: real, now: real)
    requires last + 1.0 <= now
    ensures Movement.Accepted(Movement.Track(POST, None), Movement.Request(POST, now, ItemSpec.NO_EFFECTS))
    ensures Movement.Accepted(Movement.Track(POST, Some(last)), Movement.Request(HIDEOUT, now, ItemSpec.NO_EFFECTS))
    ensures Movement.Accepted(Movement.Track(HIDEOUT, Some(last)), Movement.Request(POST, now, ItemSpec.NO_EFFECTS))
  {
    var d := 400.0 * (now - last) * 1.5;
    assert 600.0 <= d;
    assert 500.0 * 500.0 <= d * d;
  }

  lemma PairChasers(q: Cast, at: Position, thief: Core)
    requires q.Distinct() && thief.role == Thief && thief.state == Free
    ensures var w := Crew(q, Cop(at), thief);
            && AwakeAll(w) == w && Chasers(w, q.cop) == {}
            && Chasers(w, q.thief) == if Within(at.x, at.y, thief.x, thief.y, ARREST_RANGE) then {q.cop} else {}
  {
    hide Within;
  }

  lemma PairPhase(q: Cast, at: Position, thief: Core)
    requires q.Distinct() && thief.role == Thief && thief.state == Free
    ensures var w := Crew(q, Cop(at), thief);
            ArrestPhase(AwakeAll(w)) ==
            Crew(q, Cop(at), if Within(at.x, at.y, thief.x, thief.y, ARREST_RANGE) then ArrestStep(thief) else thief)
  {
    PairChasers(q, at, thief);
    assert ArrestSteps(thief, 0) == thief && ArrestSteps(thief, 1) == ArrestStep(thief);
    assert ArrestSteps(Cop(at), 0) == Cop(at);
    assert |{q.cop}| == 1;
    hide Within, ArrestStep, Chasers;
  }

  lemma QuietJail(q: Cast, at: Position, thief: Core)
    requires q.Distinct() && thief.role == Thief && thief.state != Invincible && thief.rescueGauge == 0
    requires !InJailRange(thief)
    ensures RescuePhase(Crew(q, Cop(at), thief)) == Crew(q, Cop(at), thief)
  {
    hide InJailRange;
    assert !RescueFires(Crew(q, Cop(at), thief));
  }

  /** A tick of the two: the gauge grows, the thief goes to jail, or nothing happens. */
  lemma PairTicks(q: Cast, at: Position, gauge: int)
    requires q.Distinct() && 0 <= gauge < ARREST_DURATION && (at == POST || at == HIDEOUT)
    ensures CoreTick(Crew(q, Cop(at), Prey(gauge))) ==
            Crew(q, Cop(at), if at == POST then Prey(gauge)
                             else if gauge + TICK >= ARREST_DURATION then JAILED else Prey(gauge + TICK))
  {
    Distances();
    PreySteps(gauge);
    hide Within, ArrestStep;
    PairPhase(q, at, Prey(gauge));
    var thief := if at == POST then Prey(gauge) else ArrestStep(Prey(gauge));
    hide ArrestPhase, AwakeAll, RescuePhase, Crew;
    QuietJail(q, at, thief);
  }

  lemma PreySteps(gauge: int)
    ensures ArrestStep(Prey(gauge)) == if gauge + TICK >= ARREST_DURATION then JAILED else Prey(gauge + TICK)
  {
  }

  /** From the first game on, with one loop or with two, the cop walks to the thief. */
  lemma Walks(q: Cast, run: seq<Site>, acts: seq<Act>, rest: seq<Lifecycle.Loop>)
      returns (longer: seq<Site>, more: seq<Act>)
    requires q.Distinct() && Runs(run, acts) && run[|acts|] == During(q, POST, Prey(0), 0, rest)
    ensures Runs(longer, more) && longer[|more|] == During(q, HIDEOUT, Prey(0), 0, rest)
    ensures Orderly(longer, more, q.code) <==> Orderly(run, acts, q.code)
  {
    hide Goes, Orderly, Crew, Clock;
    var life := Clock(0, Lifecycle.Selecting, rest);
    MoveGoes(q, POST, POST, Prey(0), life);
    MoveGoes(q, POST, HIDEOUT, Prey(0), life);
    longer, more := Extend(run, acts, q, Move(q.copClient, Some(q.code), POST), run[|acts|]);
    longer, more := Extend(longer, more, q, Move(q.copClient, Some(q.code), HIDEOUT),
                           During(q, HIDEOUT, Prey(0), 0, rest));
  }

  /** k ticks next to the thief. */
  lemma {:induction false} Chase(q: Cast, run: seq<Site>, acts: seq<Act>, rest: seq<Lifecycle.Loop>, k: nat)
      returns (longer: seq<Site>, more: seq<Act>)
    requires q.Distinct() && Runs(run, acts) && run[|acts|] == During(q, POST, Prey(0), 0, rest) && k <= 29
    ensures Runs(longer, more) && longer[|more|] == During(q, HIDEOUT, Prey(TICK * k), k, rest)
    ensures Orderly(longer, more, q.code) <==> Orderly(run, acts, q.code)
    decreases k
  {
    hide Runs, Orderly, During, CoreTick, Crew;
    if k == 0 {
      longer, more := Walks(q, run, acts, rest);
    } else {
      longer, more := Chase(q, run, acts, rest, k - 1);
      PairTicks(q, HIDEOUT, TICK * (k - 1));
      longer, more := BeatOn(longer, more, q, HIDEOUT, Prey(TICK * (k - 1)), k - 1, rest, Prey(TICK * k));
    }
  }

  /** The room after a police win on the 30th tick. */
  function Won(rest: seq<Lifecycle.Loop>): Lifecycle.System {
    Lifecycle.System(Lifecycle.Life(Ended, Some(true), GAME_DURATION - TICK * 30, [WinPolice]), rest, 1 + |rest|, 30)
  }

  /** 30 ticks next to the thief and the win check: the police win. */
  lemma Wins(q: Cast, run: seq<Site>, acts: seq<Act>, rest: seq<Lifecycle.Loop>)
      returns (longer: seq<Site>, more: seq<Act>)
    requires q.Distinct() && Runs(run, acts) && run[|acts|] == During(q, POST, Prey(0), 0, rest)
    ensures Runs(longer, more) && longer[|more|] == In(q, Ended, true, Crew(q, Cop(HIDEOUT), JAILED), Won(rest))
    ensures Orderly(longer, more, q.code) <==> Orderly(run, acts, q.code)
  {
    longer, more := Chase(q, run, acts, rest, 29);
    PairTicks(q, HIDEOUT, TICK * 29);
    hide Goes, CoreTick, Orderly, Crew, Lifecycle.Next;
    var checking := Lifecycle.Checking(false);
    ClockTicks(29, rest);
    TickGoes(q, longer[|more|].server, Crew(q, Cop(HIDEOUT), Prey(TICK * 29)), Clock(29, Lifecycle.Selecting, rest));
    CheckGoes(q, Crew(q, Cop(HIDEOUT), JAILED), Clock(30, checking, rest), true);
    ClockWins(rest);
    longer, more := Extend(longer, more, q, Beat(q.code, Lifecycle.Tick(0)),
                           Play(q, Crew(q, Cop(HIDEOUT), JAILED), Clock(30, checking, rest)));
    longer, more := Extend(longer, more, q, Beat(q.code, Lifecycle.Check(0, true)),
                           In(q, Ended, true, Crew(q, Cop(HIDEOUT), JAILED), Won(rest)));
  }

  lemma ClockWins(rest: seq<Lifecycle.Loop>)
    ensures Lifecycle.Next(Clock(30, Lifecycle.Checking(false), rest), Lifecycle.Check(0, true)) == Won(rest)
  {
    assert Lifecycle.Without([Lifecycle.Checking(false)] + rest, 0) == rest;
  }

  /** After a chase of 29 ticks the cop goes back to its post; k ticks into the game the gauge is where it was. */
  lemma {:induction false} Idles(q: Cast, run: seq<Site>, acts: seq<Act>, k: nat)
      returns (longer: seq<Site>, more: seq<Act>)
    requires q.Distinct() && Runs(run, acts) && run[|acts|] == During(q, POST, Prey(0), 0, [])
    requires 29 <= k < GAME_DURATION / TICK
    ensures Runs(longer, more) && longer[|more|] == During(q, POST, Prey(ARREST_DURATION - TICK), k, [])
    ensures Orderly(longer, more, q.code) <==> Orderly(run, acts, q.code)
    decreases k
  {
    hide Runs, Orderly, During, CoreTick, Crew;
    var gauge := ARREST_DURATION - TICK;
    if k == 29 {
      longer, more := Chase(q, run, acts, [], 29);
      longer, more := GoesHome(q, longer, more);
    } else {
      longer, more := Idles(q, run, acts, k - 1);
      PairTicks(q, POST, gauge);
      longer, more := BeatOn(longer, more, q, POST, Prey(gauge), k - 1, [], Prey(gauge));
    }
  }

  lemma GoesHome(q: Cast, run: seq<Site>, acts: seq<Act>) returns (longer: seq<Site>, more: seq<Act>)
    requires q.Distinct() && Runs(run, acts)
    requires run[|acts|] == During(q, HIDEOUT, Prey(ARREST_DURATION - TICK), 29, [])
    ensures Runs(longer, more) && longer[|more|] == During(q, POST, Prey(ARREST_DURATION - TICK), 29, [])
    ensures Orderly(longer, more, q.code) <==> Orderly(run, acts, q.code)
  {
    hide Goes, Orderly, Crew, Clock;
    MoveGoes(q, HIDEOUT, POST, Prey(ARREST_DURATION - TICK), Clock(29, Lifecycle.Selecting, []));
    longer, more := Extend(run, acts, q, Move(q.copClient, Some(q.code), POST),
                           During(q, POST, Prey(ARREST_DURATION - TICK), 29, []));
  }

  /** The room after its time has run out. */
  const EXPIRED: Lifecycle.System :=
    Lifecycle.System(Lifecycle.Life(Ended, Some(true), 0, [WinThief]), [], 1, 3600)

  /** The thief gets away with a gauge one tick short of its arrest. */
  lemma Escapes(q: Cast, run: seq<Site>, acts: seq<Act>) returns (longer: seq<Site>, more: seq<Act>)
    requires q.Distinct() && Runs(run, acts) && run[|acts|] == During(q, POST, Prey(0), 0, [])
    ensures Runs(longer, more)
    ensures longer[|more|] == In(q, Ended, true, Crew(q, Cop(POST), Prey(ARREST_DURATION - TICK)), EXPIRED)
    ensures Orderly(longer, more, q.code) <==> Orderly(run, acts, q.code)
  {
    var gauge := ARREST_DURATION - TICK;
    longer, more := Idles(q, run, acts, 3599);
    PairTicks(q, POST, gauge);
    hide Goes, CoreTick, Orderly, Crew, Lifecycle.Next;
    ClockTicks(3599, []);
    var checking, w := Lifecycle.Checking(true), Crew(q, Cop(POST), Prey(gauge));
    TickGoes(q, longer[|more|].server, w, Clock(3599, Lifecycle.Selecting, []));
    CheckGoes(q, w, Clock(3600, checking, []), false);
    ClockExpires();
    longer, more := Extend(longer, more, q, Beat(q.code, Lifecycle.Tick(0)), Play(q, w, Clock(3600, checking, [])));
    longer, more := Extend(longer, more, q, Beat(q.code, Lifecycle.Check(0, false)), In(q, Ended, true, w, EXPIRED));
  }

  lemma ClockExpires()
    ensures Lifecycle.Next(Clock(3600, Lifecycle.Checking(true), []), Lifecycle.Check(0, false)) == EXPIRED
  {
  }

  // ----- The next game, with no return in between -----

  lemma UnreadyGoes(q: Cast, state: RoomState, w: World, life: Lifecycle.System, spawn: World)
    requires q.Distinct()
    ensures var s, a := In(q, state, true, w, life), Hub(Ready(q.copClient, Some(q.code)), spawn);
            Goes(s, a, In(q, state, false, w, life)) && !PreparesIn(s, a, q.code)
  {
    CopToggles(q, state, true);
    var s := In(q, state, true, w, life);
    hide LobbyRuns.Moves, Prepares, Crews.Spawned, Pair;
    HubGoes(q, s.server, w, life, Ready(q.copClient, Some(q.code)), spawn, In(q, state, false, w, life).server, w,
            life);
  }

  /** Everyone at the spawn positions, otherwise as before. */
  function Respawn(q: Cast, cop: Core, thief: Core): World {
    Crew(q, cop.(x := POST.x, y := POST.y), thief.(x := HIDEOUT.x, y := HIDEOUT.y))
  }

  lemma RematchMakes(q: Cast, state: RoomState, w: World, v: World, life: Lifecycle.System)
    requires q.Distinct()
    ensures var s, step := Pair(q, state, Member(Police, false), Member(Thief, true)), Ready(q.copClient, Some(q.code));
            && Enabled(s, step)
            && HubWorlds(s, map[q.code := w], step, v) == map[q.code := v]
            && HubLives(s, map[q.code := life], step) == map[q.code := Lifecycle.Next(life, Lifecycle.Prepare)]
  {
    CopToggles(q, state, false);
    hide Prepares, Lifecycle.Next;
  }

  lemma RematchGoes(q: Cast, state: RoomState, cop: Core, thief: Core, life: Lifecycle.System)
    requires q.Distinct() && cop.role == Police && thief.role == Thief
    ensures var s, a := In(q, state, false, Crew(q, cop, thief), life),
                        Hub(Ready(q.copClient, Some(q.code)), Respawn(q, cop, thief));
            && Goes(s, a, Play(q, Respawn(q, cop, thief), Lifecycle.Next(life, Lifecycle.Prepare)))
            && PreparesIn(s, a, q.code)
  {
    CopToggles(q, state, false);
    SpawnedPair(q, cop, thief);
    RematchMakes(q, state, Crew(q, cop, thief), Respawn(q, cop, thief), life);
    var s := In(q, state, false, Crew(q, cop, thief), life);
    hide LobbyRuns.Moves, Prepares, HubWorlds, HubLives, Crews.Spawned, Pair, Lifecycle.Next;
    HubGoes(q, s.server, Crew(q, cop, thief), life, Ready(q.copClient, Some(q.code)), Respawn(q, cop, thief),
            Play(q, Respawn(q, cop, thief), life).server, Respawn(q, cop, thief),
            Lifecycle.Next(life, Lifecycle.Prepare));
  }

  lemma PlaysIff(q: Cast, state: RoomState, ready: bool, w: World, life: Lifecycle.System)
    ensures Plays(In(q, state, ready, w, life), q.code) <==> state == Playing
  {
  }

  /** Two toggles of the cop, whatever the room is doing: the second prepares a game. */
  lemma Rematches(q: Cast, run: seq<Site>, acts: seq<Act>, state: RoomState, at: Position, thief: Core,
                  life: Lifecycle.System)
      returns (longer: seq<Site>, more: seq<Act>)
    requires q.Distinct() && Runs(run, acts) && thief.role == Thief
    requires run[|acts|] == In(q, state, true, Crew(q, Cop(at), thief), life)
    ensures Runs(longer, more) && |more| == |acts| + 2
    ensures Orderly(longer, more, q.code) <==> Orderly(run, acts, q.code) && state != Playing
    ensures longer[|more|] == Play(q, Respawn(q, Cop(at), thief), Lifecycle.Next(life, Lifecycle.Prepare))
    ensures longer[|more| - 1] == In(q, state, false, Crew(q, Cop(at), thief), life)
    ensures PreparesIn(longer[|more| - 1], more[|more| - 1], q.code)
  {
    hide Goes, Orderly, Crew, Respawn, PreparesIn, Plays, Lifecycle.Next;
    var off, spawn, w := Ready(q.copClient, Some(q.code)), Respawn(q, Cop(at), thief), Crew(q, Cop(at), thief);
    UnreadyGoes(q, state, w, life, spawn);
    RematchGoes(q, state, Cop(at), thief, life);
    PlaysIff(q, state, false, w, life);
    longer, more := Extend(run, acts, q, Hub(off, spawn), In(q, state, false, w, life));
    longer, more := Extend(longer, more, q, Hub(off, spawn), Play(q, spawn, Lifecycle.Next(life, Lifecycle.Prepare)));
  }

  lemma FirstGame(q: Cast) returns (run: seq<Site>, acts: seq<Act>)
    requires q.Distinct()
    ensures Runs(run, acts) && Orderly(run, acts, q.code) && run[|acts|] == During(q, POST, Prey(0), 0, [])
  {
    hide Runs, Orderly;
    run, acts := Begins(q);
    OpensTheGame(q);
  }

  lemma OpensTheGame(q: Cast)
    ensures OpeningSite(q, OPENING) == During(q, POST, Prey(0), 0, [])
  {
    assert [Lifecycle.Selecting] + [] == [] + [Lifecycle.Selecting];
    assert Lifecycle.Next(Lifecycle.START, Lifecycle.Prepare) == Clock(0, Lifecycle.Selecting, []);
  }

  /**
   A run without a game prepared during another: the police win, the cop toggles twice, and the first tick of
   the next game is a police win again.
   */
  lemma DecidedRematch(q: Cast) returns (run: seq<Site>, acts: seq<Act>, i: nat)
    requires q.Distinct()
    ensures Runs(run, acts) && Orderly(run, acts, q.code) && |acts| == i + 2
    ensures PreparesIn(run[i], acts[i], q.code) && run[i].server.rooms[q.code].state == Ended
    ensures PoliceWin(RoomOf(run[i].worlds, q.code)) && !AllFresh(RoomOf(run[i].worlds, q.code))
    ensures Ticks(acts[i + 1], q.code) && PoliceWin(RoomOf(run[i + 2].worlds, q.code))
  {
    hide Goes, Orderly, PreparesIn, Plays, Respawn, CoreTick, AllFresh, Crews.Spawned;
    run, acts := FirstGame(q);
    run, acts := Wins(q, run, acts, []);
    run, acts := Rematches(q, run, acts, Ended, HIDEOUT, JAILED, Won([]));
    i := |acts| - 1;
    var w, v := Crew(q, Cop(HIDEOUT), JAILED), Respawn(q, Cop(HIDEOUT), JAILED);
    var life := Lifecycle.Next(Won([]), Lifecycle.Prepare);
    TickGoes(q, run[|acts|].server, v, life);
    run, acts := Extend(run, acts, q, Beat(q.code, Lifecycle.Tick(0)),
                        Play(q, CoreTick(v), Lifecycle.Next(life, Lifecycle.Tick(0))));
    SpawnedPair(q, Cop(HIDEOUT), JAILED);
    JailedPair(q);
    assert Crews.Spawned(w, v) by { RespawnIs(q, Cop(HIDEOUT), JAILED); }
    RematchIsDecided(w, v);
  }

  lemma JailedPair(q: Cast)
    requires q.Distinct()
    ensures PoliceWin(Crew(q, Cop(HIDEOUT), JAILED))
  {
    assert Crew(q, Cop(HIDEOUT), JAILED)[q.thief].role == Thief;
  }

  lemma RespawnIs(q: Cast, cop: Core, thief: Core)
    ensures Respawn(q, cop, thief) ==
            Crew(q, cop.(x := POST.x, y := POST.y), thief.(x := HIDEOUT.x, y := HIDEOUT.y))
  {
  }

  /**
   Another such run: the first game leaves the thief free at 1450 ms, and in the next one the first tick,
   with the cop next to it, arrests it.
   */
  lemma LeftoverRematch(q: Cast) returns (run: seq<Site>, acts: seq<Act>, i: nat)
    requires q.Distinct()
    ensures Runs(run, acts) && Orderly(run, acts, q.code) && |acts| == i + 3
    ensures PreparesIn(run[i], acts[i], q.code) && run[i].server.rooms[q.code].state == Ended
    ensures q.thief in RoomOf(run[i].worlds, q.code) && q.thief in RoomOf(run[i + 3].worlds, q.code)
    ensures RoomOf(run[i].worlds, q.code)[q.thief] == Prey(ARREST_DURATION - TICK)
    ensures acts[i + 1] == Move(q.copClient, Some(q.code), HIDEOUT) && Ticks(acts[i + 2], q.code)
    ensures RoomOf(run[i + 3].worlds, q.code)[q.thief] == JAILED
  {
    hide Goes, Orderly, PreparesIn, Plays, CoreTick;
    var gauge := ARREST_DURATION - TICK;
    run, acts := FirstGame(q);
    run, acts := Escapes(q, run, acts);
    run, acts := Rematches(q, run, acts, Ended, POST, Prey(gauge), EXPIRED);
    i := |acts| - 1;
    var life := Lifecycle.Next(EXPIRED, Lifecycle.Prepare);
    assert run[|acts|] == Play(q, Crew(q, Cop(POST), Prey(gauge)), life);
    MoveGoes(q, POST, HIDEOUT, Prey(gauge), life);
    run, acts := Extend(run, acts, q, Move(q.copClient, Some(q.code), HIDEOUT),
                        Play(q, Crew(q, Cop(HIDEOUT), Prey(gauge)), life));
    PairTicks(q, HIDEOUT, gauge);
    TickGoes(q, run[|acts|].server, Crew(q, Cop(HIDEOUT), Prey(gauge)), life);
    run, acts := Extend(run, acts, q, Beat(q.code, Lifecycle.Tick(0)),
                        Play(q, Crew(q, Cop(HIDEOUT), JAILED), Lifecycle.Next(life, Lifecycle.Tick(0))));
  }

  // ----- A second loop outlives its game -----

  /** The room waits after a return. */
  function Returned(q: Cast, w: World, life: Lifecycle.System): Site {
    At(q, Pair(q, Waiting, Member(Police, false), Member(Thief, false)), w, life)
  }

  lemma RestScene(q: Cast)
    requires q.Distinct()
    ensures LobbyRuns.Moves(Pair(q, Ended, Member(Police, true), Member(Thief, true)),
                            Return(q.copClient, Some(q.code)),
                            Pair(q, Waiting, Member(Police, false), Member(Thief, false)))
  {
    PairSeats(q, Ended, Member(Police, true), Member(Thief, true));
    hide PoliceOf, Finds;
    var s := Pair(q, Ended, Member(Police, true), Member(Thief, true));
    assert Rested(s.rooms[q.code]).members == map[q.cop := Member(Police, false), q.thief := Member(Thief, false)];
  }

  lemma ReturnMakes(q: Cast, w: World, v: World, life: Lifecycle.System, spawn: World)
    requires q.Distinct() && life.life.state == Ended && GameSpec.ResetWorld(w) == v
    ensures var s, step := Pair(q, Ended, Member(Police, true), Member(Thief, true)), Return(q.copClient, Some(q.code));
            && Enabled(s, step)
            && HubWorlds(s, map[q.code := w], step, spawn) == map[q.code := v]
            && HubLives(s, map[q.code := life], step) == map[q.code := Lifecycle.Next(life, Lifecycle.Return)]
            && !Prepares(s, step, q.code)
  {
    PairSeats(q, Ended, Member(Police, true), Member(Thief, true));
    hide PoliceOf, Finds, GameSpec.ResetWorld;
  }

  lemma ReturnGoes(q: Cast, at: Position, thief: Core, life: Lifecycle.System, spawn: World)
    requires q.Distinct() && thief.role == Thief && life.life.state == Ended
    ensures Goes(In(q, Ended, true, Crew(q, Cop(at), thief), life), Hub(Return(q.copClient, Some(q.code)), spawn),
                 Returned(q, Crew(q, NEWCOMER.(role := Police), NEWCOMER.(role := Thief)),
                          Lifecycle.Next(life, Lifecycle.Return)))
  {
    RestScene(q);
    var w, v := Crew(q, Cop(at), thief), Crew(q, NEWCOMER.(role := Police), NEWCOMER.(role := Thief));
    ReturnMakes(q, w, v, life, spawn) by {
      assert GameSpec.ResetWorld(w) == v;
    }
    hide LobbyRuns.Moves, HubWorlds, HubLives, Prepares, Crews.Spawned, Crew, Pair;
    HubGoes(q, In(q, Ended, true, w, life).server, w, life, Return(q.copClient, Some(q.code)), spawn,
            Returned(q, v, life).server, v, Lifecycle.Next(life, Lifecycle.Return));
  }

  /** Cop and thief both wait at the origin, and a tick comes. */
  lemma OriginTicks(q: Cast)
    requires q.Distinct()
    ensures var w := Crew(q, NEWCOMER.(role := Police), NEWCOMER.(role := Thief));
            && AllFresh(w)
            && CoreTick(w) == Crew(q, NEWCOMER.(role := Police), NEWCOMER.(role := Thief, arrestGauge := TICK))
            && !AllFresh(CoreTick(w))
  {
    var cop, thief := Cop(Position(0.0, 0.0)), NEWCOMER.(role := Thief);
    assert Within(0.0, 0.0, 0.0, 0.0, ARREST_RANGE) && !Within(0.0, 0.0, JAIL_X, JAIL_Y, JAIL_RANGE);
    hide Within;
    PairPhase(q, Position(0.0, 0.0), thief);
    hide ArrestPhase, AwakeAll, RescuePhase;
    QuietJail(q, Position(0.0, 0.0), ArrestStep(thief));
    var v := Crew(q, cop, ArrestStep(thief));
    assert CoreTick(Crew(q, cop, thief)) == v;
    assert !History.Fresh(v[q.thief]);
  }

  lemma RoomWaits(q: Cast, w: World, life: Lifecycle.System)
    ensures Waits(Returned(q, w, life), q.code) && RoomOf(Returned(q, w, life).worlds, q.code) == w
    ensures q.code in Returned(q, w, life).server.rooms
    ensures var back := Lifecycle.Next(Won([Lifecycle.Selecting]), Lifecycle.Return);
            back.loops == [Lifecycle.Selecting] && back.life.state == Waiting
  {
  }

  /** The first game, and a second one prepared during it. */
  lemma SecondGame(q: Cast) returns (run: seq<Site>, acts: seq<Act>)
    requires q.Distinct()
    ensures Runs(run, acts) && !Orderly(run, acts, q.code)
    ensures run[|acts|] == During(q, POST, Prey(0), 0, [Lifecycle.Selecting])
  {
    hide Goes, Runs, Orderly, PreparesIn, Pair;
    run, acts := FirstGame(q);
    run, acts := Rematches(q, run, acts, Playing, POST, Prey(0), Clock(0, Lifecycle.Selecting, []));
    assert [Lifecycle.Selecting] + [] + [Lifecycle.Selecting] == [Lifecycle.Selecting] + [Lifecycle.Selecting];
  }

  /**
   A game prepared during a game leaves two loops on one clock. The first ends the game and the room returns to
   the lobby, which resets everyone; then the second ticks the waiting room, where all stand together at
   the origin, and the thief's gauge starts to fill.
   */
  lemma StaleLoopTicks(q: Cast) returns (run: seq<Site>, acts: seq<Act>, n: nat)
    requires q.Distinct()
    ensures Runs(run, acts) && |acts| == n + 1 && !Orderly(run, acts, q.code)
    ensures Waits(run[n], q.code) && AllFresh(RoomOf(run[n].worlds, q.code))
    ensures Ticks(acts[n], q.code)
    ensures Waits(run[n + 1], q.code) && !AllFresh(RoomOf(run[n + 1].worlds, q.code))
  {
    hide Goes, Runs, Orderly, PreparesIn, CoreTick, AllFresh, Crew, Pair, Respawn, Waits, Lifecycle.Next;
    run, acts := SecondGame(q);
    run, acts := Wins(q, run, acts, [Lifecycle.Selecting]);
    var spawn, life := map[], Won([Lifecycle.Selecting]);
    var back := Lifecycle.Next(life, Lifecycle.Return);
    ReturnGoes(q, HIDEOUT, JAILED, life, spawn);
    var w := Crew(q, NEWCOMER.(role := Police), NEWCOMER.(role := Thief));
    run, acts := Extend(run, acts, q, Hub(Return(q.copClient, Some(q.code)), spawn), Returned(q, w, back));
    n := |acts|;
    OriginTicks(q);
    RoomWaits(q, w, back);
    TickGoes(q, Returned(q, w, back).server, w, back);
    RoomWaits(q, CoreTick(w), Lifecycle.Next(back, Lifecycle.Tick(0)));
    run, acts := Extend(run, acts, q, Beat(q.code, Lifecycle.Tick(0)),
                        Returned(q, CoreTick(w), Lifecycle.Next(back, Lifecycle.Tick(0))));
  }
}
