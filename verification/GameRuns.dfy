/** Plays of whole games are runs of the mechanics and of both item managers. */
module GameRuns {
  import opened GameTypes
  import opened TickSpec
  import opened ItemSpec
  import opened GameSpec
  import History
  import ItemRuns

  /** The worlds the ticks of a play start from. */
  ghost function Starts(states: seq<Game>, trace: seq<seq<Change>>): (pres: seq<World>)
    requires |states| == |trace| + 1
    ensures |pres| == |trace|
    ensures forall k :: 0 <= k < |pres| ==> pres[k] == ChangesWorld(states[k].world, trace[k])
  {
    seq(|trace|, k requires 0 <= k < |trace| => ChangesWorld(states[k].world, trace[k]))
  }

  /** Moves, roles, joins and leaves keep every player's gauges or bring a fresh player. */
  lemma {:induction false} ChangesKeep(w: World, cs: seq<Change>, id: Id)
    requires id in ChangesWorld(w, cs)
    ensures History.Kept(w, ChangesWorld(w, cs), id) || History.Fresh(ChangesWorld(w, cs)[id])
    decreases |cs|
  {
    if cs != [] {
      var before, c := cs[..|cs| - 1], cs[|cs| - 1];
      if !(c.Join? && c.id == id) {
        ChangesKeep(w, before, id);
      }
    }
  }

  lemma PlayStep(g: Game, trace: seq<seq<Change>>, chance: seq<Chance>, states: seq<Game>, k: nat)
    requires Play(g, trace, chance, states) && k < |trace|
    ensures PlayNext(states[k], trace[k], chance[k], states[k + 1])
  {
  }

  lemma TickOfPlay(g: Game, cs: seq<Change>, c: Chance, h: Game)
    requires PlayNext(g, cs, c, h)
    ensures h.world == CoreTick(ChangesWorld(g.world, cs))
  {
    TickOwesNothingToChance(ChangesGame(g, cs), c);
  }

  lemma CarriedOn(w: World, cs: seq<Change>, pres: seq<World>, k: nat, id: Id)
    requires 0 < k < |pres| && pres[k] == ChangesWorld(w, cs) && id in pres[k] && w == CoreTick(pres[k - 1])
    ensures History.Reached(pres, k, id)
  {
    ChangesKeep(w, cs, id);
    hide CoreTick;
  }

  /**
   The ticks of a play are ticks of the arrest and rescue mechanics, and the play is a run of them from
   empty gauges if and only if every player is fresh when the first tick starts.
   */
  lemma PlayIsRun(g: Game, trace: seq<seq<Change>>, chance: seq<Chance>, states: seq<Game>)
    requires Play(g, trace, chance, states)
    ensures var pres := Starts(states, trace);
            && (forall k :: 0 <= k < |trace| ==> states[k + 1].world == History.After(pres, k))
            && (History.Run(pres) <==> (pres != [] ==> forall id :: id in pres[0] ==> History.Fresh(pres[0][id])))
  {
    hide PlayNext, CoreTick, ChangesWorld;
    var pres := Starts(states, trace);
    forall k | 0 <= k < |trace|
      ensures states[k + 1].world == CoreTick(pres[k])
    {
      PlayStep(g, trace, chance, states, k);
      TickOfPlay(states[k], trace[k], chance[k], states[k + 1]);
    }
    forall k, id | 0 < k < |pres| && id in pres[k]
      ensures History.Reached(pres, k, id)
    {
      assert states[k - 1 + 1].world == CoreTick(pres[k - 1]);
      CarriedOn(states[k].world, trace[k], pres, k, id);
    }
    RunFromFresh(pres);
  }

  lemma RunFromFresh(pres: seq<World>)
    requires forall k, id :: 0 < k < |pres| && id in pres[k] ==> History.Reached(pres, k, id)
    ensures History.Run(pres) <==> (pres != [] ==> forall id :: id in pres[0] ==> History.Fresh(pres[0][id]))
  {
    if pres != [] && History.Run(pres) {
      assert forall id :: id in pres[0] ==> History.Reached(pres, 0, id);
    }
  }

  function ItemsIn(kind: Kind, g: Game): Items {
    if kind.Boost? then g.boosters else g.stones
  }

  ghost function ManagerRun(kind: Kind, states: seq<Game>): (run: seq<Items>)
    ensures |run| == |states| && forall k :: 0 <= k < |run| ==> run[k] == ItemsIn(kind, states[k])
  {
    seq(|states|, k requires 0 <= k < |states| => ItemsIn(kind, states[k]))
  }

  /** The manager's part of tick k. */
  ghost function ManagerStep(kind: Kind, pre: World, c: Chance): ItemRuns.ItemStep {
    ItemRuns.ItemStep(if kind.Boost? then c.boosters else c.stones, c.order, AwakeAll(pre))
  }

  ghost function ManagerSteps(kind: Kind, pres: seq<World>, chance: seq<Chance>): (steps: seq<ItemRuns.ItemStep>)
    requires |pres| == |chance|
    ensures |steps| == |chance| && forall k :: 0 <= k < |steps| ==> steps[k] == ManagerStep(kind, pres[k], chance[k])
  {
    seq(|chance|, k requires 0 <= k < |chance| => ManagerStep(kind, pres[k], chance[k]))
  }

  lemma TickOfManagers(kind: Kind, g: Game, c: Chance)
    requires Possible(g, c)
    ensures ItemRuns.ItemNext(kind, ItemsIn(kind, g), ManagerStep(kind, g.world, c), ItemsIn(kind, GameTick(g, c)))
  {
  }

  lemma PlayItemNext(kind: Kind, g: Game, cs: seq<Change>, c: Chance, h: Game)
    requires PlayNext(g, cs, c, h)
    ensures ItemRuns.ItemNext(kind, ItemsIn(kind, g), ManagerStep(kind, ChangesWorld(g.world, cs), c), ItemsIn(kind, h))
  {
    hide ItemRuns.ItemNext, Possible, GameTick;
    ChangesKeepItems(g, cs);
    TickOfManagers(kind, ChangesGame(g, cs), c);
  }

  /** In a play each manager makes a run of its own. */
  lemma PlayIsItemRun(kind: Kind, g: Game, trace: seq<seq<Change>>, chance: seq<Chance>, states: seq<Game>)
    requires Play(g, trace, chance, states)
    requires Start(kind, ItemsIn(kind, g))
    ensures ItemRuns.ItemRun(kind, ManagerRun(kind, states), ManagerSteps(kind, Starts(states, trace), chance))
  {
    hide ManagerRun, ManagerSteps, ManagerStep, Starts, PlayNext, ItemRuns.ItemNext, ItemsIn;
    var run, steps := ManagerRun(kind, states), ManagerSteps(kind, Starts(states, trace), chance);
    forall k | 0 <= k < |steps|
      ensures ItemRuns.ItemNext(kind, run[k], steps[k], run[k + 1])
    {
      PlayStep(g, trace, chance, states, k);
      PlayItemNext(kind, states[k], trace[k], chance[k], states[k + 1]);
    }
  }

  lemma {:induction false} ChangesKeepItems(g: Game, cs: seq<Change>)
    ensures ChangesGame(g, cs).boosters == g.boosters && ChangesGame(g, cs).stones == g.stones
    decreases |cs|
  {
    if cs != [] {
      ChangesKeepItems(g, cs[..|cs| - 1]);
    }
  }

  /** In a full game at most 93 booster ids and 56 stone ids are ever given out. */
  lemma GameSpawnBound(g: Game, trace: seq<seq<Change>>, chance: seq<Chance>, states: seq<Game>)
    requires Play(g, trace, chance, states) && |trace| <= 3600
    requires Start(Boost, g.boosters) && Start(Stumble, g.stones)
    ensures states[|trace|].boosters.nextID <= 93 && states[|trace|].stones.nextID <= 56
  {
    PlayIsItemRun(Boost, g, trace, chance, states);
    PlayIsItemRun(Stumble, g, trace, chance, states);
    var pres := Starts(states, trace);
    ItemRuns.SpawnBound(Boost, ManagerRun(Boost, states), ManagerSteps(Boost, pres, chance));
    ItemRuns.SpawnBound(Stumble, ManagerRun(Stumble, states), ManagerSteps(Stumble, pres, chance));
  }

  // ----- Effects -----

  /** An effect is on exactly while time is left on it, and never for longer than its full time. */
  predicate TimerOk(kind: Kind, t: Timer) {
    (t.on <==> 0 < t.left) && 0 <= t.left <= EffectTime(kind)
  }

  predicate EffectsOk(e: Effects) {
    TimerOk(Boost, e.boost) && TimerOk(Stumble, e.slow)
  }

  ghost predicate AllEffectsOk(fx: map<Id, Effects>) {
    forall id :: id in fx ==> EffectsOk(fx[id])
  }

  lemma {:induction false} ChangesKeepEffects(g: Game, cs: seq<Change>)
    requires AllEffectsOk(g.effects)
    ensures AllEffectsOk(ChangesGame(g, cs).effects)
    decreases |cs|
  {
    if cs != [] {
      ChangesKeepEffects(g, cs[..|cs| - 1]);
    }
  }

  lemma PickupKeepsEffects(kind: Kind, active: seq<Item>, order: seq<Id>, w: World, fx: map<Id, Effects>)
    requires AllEffectsOk(fx)
    ensures AllEffectsOk(PickedEffects(kind, active, order, w, TickEffects(kind, fx)))
  {
    hide Takes;
  }

  lemma TickKeepsEffects(g: Game, c: Chance)
    requires Possible(g, c) && AllEffectsOk(g.effects)
    ensures AllEffectsOk(GameTick(g, c).effects)
  {
    hide AllEffectsOk, TickEffects, PickedEffects, Pickup, RunPairs, RunRescuers, ResetStragglers, PossibleAwake;
    var w := AwakeAll(g.world);
    var boosted := PickedEffects(Boost, c.boosters.active, c.order, w, TickEffects(Boost, g.effects));
    PickupKeepsEffects(Boost, c.boosters.active, c.order, w, g.effects);
    PickupKeepsEffects(Stumble, c.stones.active, c.order, w, boosted);
  }

  /** Boosts and slowdowns stay well-formed through every play. */
  lemma {:induction false} EffectsStayOk(g: Game, trace: seq<seq<Change>>, chance: seq<Chance>,
                                        states: seq<Game>, k: nat)
    requires Play(g, trace, chance, states) && k <= |trace|
    requires AllEffectsOk(g.effects)
    ensures AllEffectsOk(states[k].effects)
    decreases k
  {
    if k > 0 {
      EffectsStayOk(g, trace, chance, states, k - 1);
      PlayStep(g, trace, chance, states, k - 1);
      hide AllEffectsOk, ChangesGame, GameTick, Possible, Play;
      ChangesKeepEffects(states[k - 1], trace[k - 1]);
      TickKeepsEffects(ChangesGame(states[k - 1], trace[k - 1]), chance[k - 1]);
    }
  }
}
