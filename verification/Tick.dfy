/** What a tick does to the players and the items of a room. */
module Ticks {
  import opened GameTypes
  import opened TickSpec
  import opened ItemSpec
  import opened GameSpec
  import opened Players
  import opened ItemManagers
  import Mechanics

  /** Respawns; no player is touched. */
  method Respawn(manager: ItemManager, ps: seq<Player>, ghost m: map<Id, Player>) returns (ghost updated: Items)
    requires Roster(ps, m)
    modifies manager`active, manager`queue, manager`nextID
    ensures WorldOf(m) == old(WorldOf(m)) && EffectsOf(m) == old(EffectsOf(m)) && Sees(ps, WorldOf(m))
    ensures updated == manager.View() && Respawned(old(manager.View()), updated)
  {
    hide WorldOf, EffectsOf, Sees, Respawned, ItemDraws;
    ghost var draws := manager.Update();
    updated := manager.View();
    RosterSees(ps, m);
  }

  method PickListed(manager: ItemManager, ps: seq<Player>, ghost m: map<Id, Player>, ghost w: World)
    requires Roster(ps, m) && WorldOf(m) == w && Sees(ps, w)
    modifies ps`effects, manager`active, manager`queue
    ensures WorldOf(m) == w
    ensures manager.View() == Pickup(manager.kind, old(manager.View()), IdsOf(ps), w)
    ensures forall p :: p in ps ==>
              p.effects == Given(manager.kind, Takes(old(manager.active), IdsOf(ps), w, p.id), old(p.effects))
  {
    hide *;
    var picked := manager.CheckPickup(ps, w);
  }

  /** Pickups; only effects change. */
  method PickUp(manager: ItemManager, ps: seq<Player>, ghost m: map<Id, Player>)
    requires Roster(ps, m) && Sees(ps, WorldOf(m))
    modifies m.Values`effects, manager`active, manager`queue
    ensures WorldOf(m) == old(WorldOf(m))
    ensures manager.View() == Pickup(manager.kind, old(manager.View()), IdsOf(ps), old(WorldOf(m)))
    ensures EffectsOf(m) ==
            PickedEffects(manager.kind, old(manager.active), IdsOf(ps), old(WorldOf(m)), old(EffectsOf(m)))
  {
    ghost var fx, w, active := EffectsOf(m), WorldOf(m), manager.active;
    assert forall p :: p in ps ==> p.id in fx && fx[p.id] == p.effects;
    hide WorldOf, Pickup, PickedEffects, Takes, Given, IdsOf, Sees;
    PickListed(manager, ps, m, w);
    EffectsFromList(ps, m, manager.kind, active, w, fx);
  }

  /** Respawns, then pickups. */
  method RunManager(manager: ItemManager, ps: seq<Player>, ghost m: map<Id, Player>) returns (ghost updated: Items)
    requires Roster(ps, m)
    modifies m.Values`effects, manager`active, manager`queue, manager`nextID
    ensures WorldOf(m) == old(WorldOf(m))
    ensures Respawned(old(manager.View()), updated)
    ensures manager.View() == Pickup(manager.kind, updated, IdsOf(ps), old(WorldOf(m)))
    ensures EffectsOf(m) == PickedEffects(manager.kind, updated.active, IdsOf(ps), old(WorldOf(m)), old(EffectsOf(m)))
  {
    hide Roster, WorldOf, EffectsOf, Sees, Respawned, Pickup, PickedEffects, IdsOf;
    updated := Respawn(manager, ps, m);
    PickUp(manager, ps, m);
  }

  /** Timers of one kind, then that manager. */
  method UpdateItems(manager: ItemManager, ps: seq<Player>, ghost m: map<Id, Player>) returns (ghost updated: Items)
    requires Roster(ps, m)
    modifies m.Values`effects, manager`active, manager`queue, manager`nextID
    ensures WorldOf(m) == old(WorldOf(m))
    ensures Respawned(old(manager.View()), updated)
    ensures manager.View() == Pickup(manager.kind, updated, IdsOf(ps), old(WorldOf(m)))
    ensures EffectsOf(m) == PickedEffects(manager.kind, updated.active, IdsOf(ps), old(WorldOf(m)),
                                          TickEffects(manager.kind, old(EffectsOf(m))))
  {
    hide Roster, WorldOf, EffectsOf, IdsOf, Respawned, PickedEffects, TickEffects, Pickup;
    TickAllEffects(manager.kind, ps, m);
    updated := RunManager(manager, ps, m);
  }

  lemma EffectsFromList(ps: seq<Player>, m: map<Id, Player>, kind: Kind, active: seq<Item>, w: World,
                        fx: map<Id, Effects>)
    requires Roster(ps, m) && fx.Keys == m.Keys
    requires forall p :: p in ps ==> p.effects == Given(kind, Takes(active, IdsOf(ps), w, p.id), fx[p.id])
    ensures EffectsOf(m) == PickedEffects(kind, active, IdsOf(ps), w, fx)
  {
    hide Takes, IdsOf;
    assert forall id :: id in m ==> m[id] in ps;
  }

  method TickAllEffects(kind: Kind, ps: seq<Player>, ghost m: map<Id, Player>)
    requires Roster(ps, m)
    modifies m.Values`effects
    ensures EffectsOf(m) == TickEffects(kind, old(EffectsOf(m)))
    ensures WorldOf(m) == old(WorldOf(m))
  {
    for i := 0 to |ps|
      invariant forall k :: 0 <= k < i ==>
        ps[k].effects == old(ps[k].effects).Set(kind, TickTimer(old(ps[k].effects).Get(kind)))
      invariant forall k :: i <= k < |ps| ==> ps[k].effects == old(ps[k].effects)
    {
      ps[i].TickEffect(kind);
    }
    assert forall id :: id in m ==> m[id] in ps;
  }

  lemma RosterSees(ps: seq<Player>, m: map<Id, Player>)
    requires Roster(ps, m)
    ensures Sees(ps, WorldOf(m))
  {
  }

  ghost predicate Apart(boosters: ItemManager, stones: ItemManager) {
    boosters != stones && boosters.kind == Boost && stones.kind == Stumble
  }

  ghost function GameOf(m: map<Id, Player>, boosters: ItemManager, stones: ItemManager): Game
    reads m.Values`core, m.Values`effects
    reads boosters`active, boosters`queue, boosters`nextID, stones`active, stones`queue, stones`nextID
  {
    Game(WorldOf(m), EffectsOf(m), boosters.View(), stones.View())
  }

  /** Boosters first, then stones, on the same awake players. */
  method UpdateBoth(boosters: ItemManager, stones: ItemManager, ps: seq<Player>, ghost m: map<Id, Player>)
    returns (ghost b: Items, ghost s: Items)
    requires Roster(ps, m) && Apart(boosters, stones)
    modifies m.Values`effects
    modifies boosters`active, boosters`queue, boosters`nextID, stones`active, stones`queue, stones`nextID
    ensures WorldOf(m) == old(WorldOf(m))
    ensures Respawned(old(boosters.View()), b) && Respawned(old(stones.View()), s)
    ensures boosters.View() == Pickup(Boost, b, IdsOf(ps), old(WorldOf(m)))
    ensures stones.View() == Pickup(Stumble, s, IdsOf(ps), old(WorldOf(m)))
    ensures var ids, w := IdsOf(ps), old(WorldOf(m));
            var boosted := PickedEffects(Boost, b.active, ids, w, TickEffects(Boost, old(EffectsOf(m))));
            EffectsOf(m) == PickedEffects(Stumble, s.active, ids, w, TickEffects(Stumble, boosted))
  {
    hide Roster, WorldOf, EffectsOf, IdsOf, Respawned, PickedEffects, TickEffects, Pickup;
    b := UpdateItems(boosters, ps, m);
    s := UpdateItems(stones, ps, m);
  }

  method ChaseAndRescue(ps: seq<Player>, ghost m: map<Id, Player>)
    returns (ghost pairs: seq<(Id, Id)>, ghost rescuers: seq<Id>)
    requires Roster(ps, m)
    modifies m.Values`core
    ensures EffectsOf(m) == old(EffectsOf(m))
    ensures ListsChases(pairs, old(WorldOf(m)))
    ensures var chased := RunPairs(pairs, old(WorldOf(m)));
            && Lists(rescuers, Rescuers(chased))
            && WorldOf(m) == ResetStragglers(RunRescuers(rescuers, chased), set id | id in rescuers)
  {
    pairs := Mechanics.UpdateArrests(ps, m);
    rescuers := Mechanics.UpdateRescues(ps, m);
  }

  /** What a tick does once the invincibility timers have run. */
  method RunAwakeTick(boosters: ItemManager, stones: ItemManager, ps: seq<Player>, ghost m: map<Id, Player>)
    returns (ghost chance: Chance)
    requires Roster(ps, m) && Apart(boosters, stones)
    modifies m.Values`core, m.Values`effects
    modifies boosters`active, boosters`queue, boosters`nextID, stones`active, stones`queue, stones`nextID
    ensures PossibleAwake(old(GameOf(m, boosters, stones)), chance)
    ensures GameOf(m, boosters, stones) == AwakeTick(old(GameOf(m, boosters, stones)), chance)
  {
    RosterLists(ps, m);
    ghost var g := GameOf(m, boosters, stones);
    hide Roster, WorldOf, EffectsOf, IdsOf, Respawned, ListsChases, Lists, Rescuers, RunPairs, RunRescuers,
      PickedEffects, TickEffects, Pickup, ResetStragglers, PossibleAwake, AwakeTick;
    ghost var b, s := UpdateBoth(boosters, stones, ps, m);
    ghost var pairs, rescuers := ChaseAndRescue(ps, m);
    chance := Chance(IdsOf(ps), pairs, rescuers, b, s);
    AwakeTickMakes(g, chance, GameOf(m, boosters, stones));
  }

  /** Items first, then arrests and rescues: the pieces of an awake tick make the whole. */
  lemma AwakeTickMakes(g: Game, c: Chance, h: Game)
    requires SameKeys(g) && Lists(c.order, g.world.Keys)
    requires Respawned(g.boosters, c.boosters) && Respawned(g.stones, c.stones)
    requires ListsChases(c.pairs, g.world) && Lists(c.rescuers, Rescuers(RunPairs(c.pairs, g.world)))
    requires h.world == ResetStragglers(RunRescuers(c.rescuers, RunPairs(c.pairs, g.world)), set id | id in c.rescuers)
    requires h.boosters == Pickup(Boost, c.boosters, c.order, g.world)
    requires h.stones == Pickup(Stumble, c.stones, c.order, g.world)
    requires var boosted := PickedEffects(Boost, c.boosters.active, c.order, g.world, TickEffects(Boost, g.effects));
             h.effects == PickedEffects(Stumble, c.stones.active, c.order, g.world, TickEffects(Stumble, boosted))
    ensures PossibleAwake(g, c) && h == AwakeTick(g, c)
  {
  }

  /** Everything a tick does to players and items. */
  method RunTick(boosters: ItemManager, stones: ItemManager, ps: seq<Player>, ghost m: map<Id, Player>)
    returns (ghost chance: Chance)
    requires Roster(ps, m) && Apart(boosters, stones)
    modifies m.Values`core, m.Values`effects
    modifies boosters`active, boosters`queue, boosters`nextID, stones`active, stones`queue, stones`nextID
    ensures Possible(old(GameOf(m, boosters, stones)), chance)
    ensures GameOf(m, boosters, stones) == GameTick(old(GameOf(m, boosters, stones)), chance)
  {
    hide WorldOf, EffectsOf, AwakeAll, PossibleAwake, AwakeTick;
    Mechanics.UpdateInvincibility(ps, m);
    chance := RunAwakeTick(boosters, stones, ps, m);
  }
}
