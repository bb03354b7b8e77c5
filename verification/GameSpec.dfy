/**
 The whole state a tick changes, players and items together, and the tick as the game loop
 performs it: with the player order, the pair list, the candidate list and the respawned items
 all left to chance.
 */
module GameSpec {
  import opened GameTypes
  import opened TickSpec
  import opened ItemSpec

  datatype Game = Game(world: World, effects: map<Id, Effects>, boosters: Items, stones: Items)

  /** What chance decides in one tick. */
  datatype Chance = Chance(order: seq<Id>, pairs: seq<(Id, Id)>, rescuers: seq<Id>,
                           boosters: Items, stones: Items)

  ghost predicate SameKeys(g: Game) {
    g.effects.Keys == g.world.Keys
  }

  function Awaken(g: Game): Game {
    g.(world := AwakeAll(g.world))
  }

  /** c is a way the tick can go once the invincibility timers have run. */
  ghost predicate PossibleAwake(g: Game, c: Chance) {
    && SameKeys(g)
    && Lists(c.order, g.world.Keys)
    && Respawned(g.boosters, c.boosters)
    && Respawned(g.stones, c.stones)
    && ListsChases(c.pairs, g.world)
    && Lists(c.rescuers, Rescuers(RunPairs(c.pairs, g.world)))
  }

  /** The tick from there: items in the order of the players, then the pairs, then the candidates. */
  ghost function AwakeTick(g: Game, c: Chance): (h: Game)
    requires PossibleAwake(g, c)
    ensures SameKeys(h) && h.world.Keys == g.world.Keys
  {
    var w := g.world;
    var chased := RunPairs(c.pairs, w);
    var boosted := PickedEffects(Boost, c.boosters.active, c.order, w, TickEffects(Boost, g.effects));
    Game(ResetStragglers(RunRescuers(c.rescuers, chased), set id | id in c.rescuers),
         PickedEffects(Stumble, c.stones.active, c.order, w, TickEffects(Stumble, boosted)),
         Pickup(Boost, c.boosters, c.order, w),
         Pickup(Stumble, c.stones, c.order, w))
  }

  ghost predicate Possible(g: Game, c: Chance) {
    PossibleAwake(Awaken(g), c)
  }

  ghost function GameTick(g: Game, c: Chance): (h: Game)
    requires Possible(g, c)
    ensures SameKeys(h) && h.world.Keys == g.world.Keys
  {
    AwakeTick(Awaken(g), c)
  }

  /** Arrests, rescues and invincibility owe nothing to chance or to the items. */
  lemma TickOwesNothingToChance(g: Game, c: Chance)
    requires Possible(g, c)
    ensures GameTick(g, c).world == CoreTick(g.world)
  {
    PairLoopOrderFree(c.pairs, AwakeAll(g.world));
    var w := ArrestPhase(AwakeAll(g.world));
    RescueLoopOrderFree(c.rescuers, w);
    assert (set id | id in c.rescuers) == Rescuers(w);
  }

  // ----- What reaches the players between two ticks -----

  datatype Change = Move(id: Id, x: real, y: real) | SetRole(id: Id, role: Role) | Join(id: Id) | Leave(id: Id)

  function ChangeWorld(w: World, c: Change): World {
    match c
    case Move(id, x, y) => if id in w then w[id := w[id].(x := x, y := y)] else w
    case SetRole(id, role) => if id in w then w[id := w[id].(role := role)] else w
    case Join(id) => w[id := NEWCOMER]
    case Leave(id) => w - {id}
  }

  function ChangeEffects(fx: map<Id, Effects>, c: Change): map<Id, Effects> {
    match c
    case Move(_, _, _) => fx
    case SetRole(_, _) => fx
    case Join(id) => fx[id := NO_EFFECTS]
    case Leave(id) => fx - {id}
  }

  function ChangeGame(g: Game, c: Change): Game {
    g.(world := ChangeWorld(g.world, c), effects := ChangeEffects(g.effects, c))
  }

  function ChangesGame(g: Game, cs: seq<Change>): (h: Game)
    ensures h.world == ChangesWorld(g.world, cs)
    decreases |cs|
  {
    if cs == [] then g else ChangeGame(ChangesGame(g, cs[..|cs| - 1]), cs[|cs| - 1])
  }

  function ChangesWorld(w: World, cs: seq<Change>): World
    decreases |cs|
  {
    if cs == [] then w else ChangeWorld(ChangesWorld(w, cs[..|cs| - 1]), cs[|cs| - 1])
  }

  /** A return to the lobby: everyone starts over but keeps its role. */
  function ResetWorld(w: World): World {
    map id | id in w :: NEWCOMER.(role := w[id].role)
  }

  // ----- Whole games -----

  /** states is a play from g: before tick k the changes trace[k] arrive, then chance[k] is drawn. */
  ghost predicate Play(g: Game, trace: seq<seq<Change>>, chance: seq<Chance>, states: seq<Game>) {
    && |states| == |trace| + 1 == |chance| + 1
    && states[0] == g
    && (forall k {:trigger chance[k]} :: 0 <= k < |trace| ==>
          PlayNext(states[k], trace[k], chance[k], states[k + 1]))
  }

  ghost predicate PlayNext(g: Game, changes: seq<Change>, c: Chance, h: Game) {
    Possible(ChangesGame(g, changes), c) && h == GameTick(ChangesGame(g, changes), c)
  }

  /** The players' cores after the trace, from the first cores and the trace alone. */
  function WorldAfter(w: World, trace: seq<seq<Change>>): World
    decreases |trace|
  {
    if trace == [] then w
    else CoreTick(ChangesWorld(WorldAfter(w, trace[..|trace| - 1]), trace[|trace| - 1]))
  }

  lemma {:induction false} PlayFollowsTrace(g: Game, trace: seq<seq<Change>>, chance: seq<Chance>,
                                           states: seq<Game>, k: nat)
    requires Play(g, trace, chance, states) && k <= |trace|
    ensures states[k].world == WorldAfter(g.world, trace[..k])
    decreases k
  {
    if k > 0 {
      PlayFollowsTrace(g, trace, chance, states, k - 1);
      assert trace[..k][..k - 1] == trace[..k - 1];
      TickOwesNothingToChance(ChangesGame(states[k - 1], trace[k - 1]), chance[k - 1]);
    }
  }

  /** The loop's verdict after a tick. */
  function Verdict(w: World, timerExpired: bool): Option<WinResult> {
    if PoliceWin(w) then Some(WinPolice)
    else if timerExpired then Some(WinThief)
    else None
  }

  /**
   On an expired timer the loop announces what the two checks say - the police if they have won, else the
   thieves if one of them is not arrested - if and only if the room has a thief. Without one it
   announces the thieves all the same.
   */
  lemma ExpiredWinner(w: World)
    ensures Verdict(w, true) == Some(WinPolice) <==> PoliceWin(w)
    ensures (Verdict(w, true) == Some(WinThief) <==> ThiefWin(w, true)) <==> exists id :: id in w && w[id].role == Thief
    ensures (PoliceWin(w) != ThiefWin(w, true)) <==> exists id :: id in w && w[id].role == Thief
  {
  }

  /** The game goes on exactly while time is left and some thief is not arrested, or there is no thief at all. */
  lemma GoesOn(w: World, timerExpired: bool)
    ensures Verdict(w, timerExpired) == None <==>
            !timerExpired && ((exists id :: id in w && w[id].role == Thief && w[id].state != Arrested)
                              || (forall id :: id in w ==> w[id].role != Thief))
  {
  }

  /**
   Two games that start with the same players and see the same moves, roles, joins and leaves agree
   after every tick on every player's state, gauges and invincibility, and on the verdict, whatever
   the player orders, the items and their positions were in each.
   */
  lemma ChanceNeverDecides(g: Game, h: Game, trace: seq<seq<Change>>,
                           chanceG: seq<Chance>, chanceH: seq<Chance>, gs: seq<Game>, hs: seq<Game>)
    requires g.world == h.world
    requires Play(g, trace, chanceG, gs) && Play(h, trace, chanceH, hs)
    ensures forall k :: 0 <= k <= |trace| ==> gs[k].world == hs[k].world
    ensures forall k, expired :: 0 <= k <= |trace| ==>
              Verdict(gs[k].world, expired) == Verdict(hs[k].world, expired)
  {
    forall k | 0 <= k <= |trace|
      ensures gs[k].world == hs[k].world
    {
      PlayFollowsTrace(g, trace, chanceG, gs, k);
      PlayFollowsTrace(h, trace, chanceH, hs, k);
    }
  }
}
