/** The booster and stumble-stone managers: active items, the respawn queue in its array, and ids. */
module ItemManagers {
  import opened GameTypes
  import opened ItemSpec
  import opened Players
  import opened Draws
  import opened Geometry
  import ItemRules

  class ItemManager {
    const kind: Kind
    const placed: seq<(real, real)>
    var active: seq<Item>
    var queue: seq<int>
    var nextID: nat

    ghost function View(): Items
      reads `active, `queue, `nextID
    {
      Items(active, queue, nextID)
    }

    constructor (kind: Kind, placed: seq<(real, real)>)
      ensures this.kind == kind && this.placed == placed
      ensures Start(kind, View())
      ensures exists draws :: ItemDraws(placed, [], active, draws)
    {
      this.kind := kind;
      this.placed := placed;
      active := [];
      queue := [];
      nextID := 0;
      new;
      ghost var draws: seq<seq<(real, real)>> := [];
      for i := 0 to Cap(kind)
        invariant queue == [] && |active| == nextID == i
        invariant Extends([], active, 0) && ItemDraws(placed, [], active, draws)
      {
        ghost var before := active;
        ghost var drawn := Spawn();
        DrawsByOne(placed, [], before, draws, active[i], drawn);
        draws := draws + [drawn];
        ExtendsByOne(before, active, nextID - 1);
        ExtendsChain([], before, active, 0);
      }
    }

    /** Stands for the missing manager of a room that has not played yet: no items at all. */
    constructor Missing(kind: Kind)
      ensures this.kind == kind && View() == Items([], [], 0)
    {
      this.kind := kind;
      placed, active, queue, nextID := [], [], [], 0;
    }

    function Occupied(): seq<(real, real)>
      reads `active
    {
      placed + Places(active)
    }

    /** Adds one item under the next id, at the first clear spot of 100 draws or else at the last one. */
    method Spawn() returns (ghost draws: seq<(real, real)>)
      modifies `active, `nextID
      ensures nextID == old(nextID) + 1 && |active| == |old(active)| + 1
      ensures var item := active[|old(active)|];
              && active == old(active) + [item] && item.id == nextID && OnMap(item)
              && ItemDraw(draws, old(Occupied()), item)
    {
      nextID := nextID + 1;
      var occupied := Occupied();
      var x, y := 40.0, 40.0;
      draws := [];
      for attempts := 0 to 100
        invariant active == old(active) && nextID == old(nextID) + 1
        invariant |draws| == attempts && (attempts > 0 ==> draws[attempts - 1] == (x, y))
        invariant forall i :: 0 <= i < attempts ==> !Clear(draws[i], occupied)
        invariant OnMap(Item(nextID, x, y))
      {
        x := DrawIn(40.0, MAP_WIDTH - 2.0 * 40.0);
        y := DrawIn(40.0, MAP_HEIGHT - 2.0 * 40.0);
        draws := draws + [(x, y)];
        if Closer(x, y, MAP_WIDTH / 2.0, MAP_HEIGHT / 2.0, 300.0) {
          continue;
        }
        var tooClose := IsTooClose(x, y, occupied);
        if !tooClose {
          break;
        }
      }
      active := active + [Item(nextID, x, y)];
    }

    method IsTooClose(x: real, y: real, occupied: seq<(real, real)>) returns (tooClose: bool)
      ensures tooClose <==> exists i :: 0 <= i < |occupied| && Closer(x, y, occupied[i].0, occupied[i].1, 150.0)
    {
      for i := 0 to |occupied|
        invariant forall k :: 0 <= k < i ==> !Closer(x, y, occupied[k].0, occupied[k].1, 150.0)
      {
        if Closer(x, y, occupied[i].0, occupied[i].1, 150.0) {
          return true;
        }
      }
      return false;
    }

    /** Counts every waiting item down and respawns those that are due. */
    method Update() returns (ghost draws: seq<seq<(real, real)>>)
      modifies `active, `queue, `nextID
      ensures Respawned(old(View()), View()) && ItemDraws(placed, old(active), active, draws)
    {
      var timers := new int[|queue|](i requires 0 <= i < |queue| reads this => queue[i]);
      assert timers[..] == queue;
      var kept;
      kept, draws := CountDown(timers);
      queue := timers[..kept];
    }

    /** The filter: unfinished countdowns are written back into the array they are read from. */
    method CountDown(timers: array<int>) returns (kept: nat, ghost draws: seq<seq<(real, real)>>)
      modifies timers, `active, `nextID
      ensures kept <= timers.Length && timers[..kept] == Countdown(old(timers[..]))
      ensures |active| - |old(active)| == nextID - old(nextID) == timers.Length - kept
      ensures Extends(old(active), active, old(nextID)) && ItemDraws(placed, old(active), active, draws)
    {
      ghost var q := timers[..];
      assert Extends(active, active, nextID);
      assert q[..0] == [] && Countdown([]) == [];
      assert ItemDraws(placed, active, active, []);
      hide Extends, Countdown, ItemDraws, ItemDraw;
      kept, draws := 0, [];
      for i := 0 to timers.Length
        invariant kept <= i
        invariant timers[..kept] == Countdown(q[..i])
        invariant forall k :: i <= k < timers.Length ==> timers[k] == q[k]
        invariant nextID == old(nextID) + (i - kept)
        invariant |active| == |old(active)| + (i - kept)
        invariant Extends(old(active), active, old(nextID)) && ItemDraws(placed, old(active), active, draws)
      {
        CountdownStep(q, i);
        var t := timers[i] - TICK;
        if t <= 0 {
          ghost var before := active;
          ghost var drawn := Spawn();
          DrawsByOne(placed, old(active), before, draws, active[|before|], drawn);
          draws := draws + [drawn];
          ExtendsByOne(before, active, nextID - 1);
          ExtendsChain(old(active), before, active, old(nextID));
        } else {
          timers[kept] := t;
          kept := kept + 1;
        }
      }
      assert q[..timers.Length] == q;
    }

    /** The first player of the list who is not in jail and in range of the item. */
    static method FindTaker(item: Item, ps: seq<Player>, ghost w: World) returns (taker: Option<Player>)
      requires Sees(ps, w)
      ensures taker.None? <==> Taker(item, IdsOf(ps), w).None?
      ensures taker.Some? ==> taker.value in ps && Taker(item, IdsOf(ps), w) == Some(taker.value.id)
    {
      ghost var ids := IdsOf(ps);
      for i := 0 to |ps|
        invariant Taker(item, ids, w) == Taker(item, ids[i..], w)
      {
        var p := ps[i];
        assert ids[i..][0] == p.id && ids[i..][1..] == ids[i + 1..];
        if p.core.state == Arrested {
          continue;
        }
        if Within(p.core.x, p.core.y, item.x, item.y, PICKUP_RANGE) {
          return Some(p);
        }
      }
      return None;
    }

    method TryCollect(item: Item, ps: seq<Player>, ghost w: World) returns (collected: bool)
      requires Sees(ps, w)
      modifies ps`effects
      ensures collected <==> Taker(item, IdsOf(ps), w).Some?
      ensures forall p :: p in ps ==> p.effects == Given(kind, Taker(item, IdsOf(ps), w) == Some(p.id), old(p.effects))
    {
      var taker := FindTaker(item, ps, w);
      hide Taker, IdsOf;
      if taker.Some? {
        var t := taker.value;
        t.effects := t.effects.Set(kind, Timer(true, EffectTime(kind)));
        return true;
      }
      return false;
    }

    /** Hands every item in reach of someone to its taker. */
    method Collect(ps: seq<Player>, ghost w: World) returns (picked: seq<nat>, remaining: seq<Item>)
      requires Sees(ps, w)
      modifies ps`effects
      ensures remaining == Left(active, IdsOf(ps), w) && |picked| == |active| - |remaining|
      ensures forall p :: p in ps ==> p.effects == Given(kind, Takes(active, IdsOf(ps), w, p.id), old(p.effects))
    {
      ghost var ids := IdsOf(ps);
      assert active[..0] == [];
      assert Left([], ids, w) == [] && forall id :: !Takes([], ids, w, id);
      picked, remaining := [], [];
      for i := 0 to |active|
        invariant remaining == Left(active[..i], ids, w)
        invariant |picked| == i - |remaining|
        invariant forall p :: p in ps ==> p.effects == Given(kind, Takes(active[..i], ids, w, p.id), old(p.effects))
      {
        CollectStep(active, i, ids, w);
        var collected := TryCollect(active[i], ps, w);
        if collected {
          picked := picked + [active[i].id];
        } else {
          remaining := remaining + [active[i]];
        }
      }
      assert active[..|active|] == active;
    }

    lemma GoneListed(ps: seq<Player>, w: World, items: seq<Item>)
      requires Sees(ps, w)
      ensures forall item :: item in Left(items, IdsOf(ps), w) <==>
                item in items &&
                forall p :: p in ps ==>
                  p.core.state == Arrested
                  || !Near(Position(p.core.x, p.core.y), Position(item.x, item.y), 60.0)
    {
      forall item
        ensures item in Left(items, IdsOf(ps), w) <==>
                item in items &&
                forall p :: p in ps ==>
                  p.core.state == Arrested
                  || !Near(Position(p.core.x, p.core.y), Position(item.x, item.y), 60.0)
      {
        LeftMembers(items, IdsOf(ps), w);
        ItemRules.TakerRule(item, IdsOf(ps), w, "");
        hide Taker, Left, Near;
      }
    }

    /** Some item has that player as the first of the list who is not in jail and at most 60 px away. */
    static ghost predicate Earns(items: seq<Item>, ps: seq<Player>, p: Player)
      reads p`core, ps`core
    {
      exists i, j :: 0 <= i < |items| && 0 <= j < |ps| && ps[j] == p && FirstListed(items[i], ps, j)
    }

    static ghost predicate FirstListed(item: Item, ps: seq<Player>, j: nat)
      requires j < |ps|
      reads ps`core
    {
      && ItemRules.CanReach(ps[j].core, item)
      && forall k :: 0 <= k < j ==> !ItemRules.CanReach(ps[k].core, item)
    }

    lemma EarnedListed(ps: seq<Player>, w: World, items: seq<Item>)
      requires Sees(ps, w)
      ensures forall p :: p in ps ==> (Takes(items, IdsOf(ps), w, p.id) <==> Earns(items, ps, p))
    {
      forall p | p in ps
        ensures Takes(items, IdsOf(ps), w, p.id) <==> Earns(items, ps, p)
      {
        EarnsIffTakes(ps, w, items, p);
      }
    }

    lemma FirstOfBoth(ps: seq<Player>, w: World, item: Item, j: nat)
      requires Sees(ps, w) && j < |ps|
      ensures FirstListed(item, ps, j) <==> ItemRules.FirstInReach(item, IdsOf(ps), w, j)
    {
      hide ItemRules.CanReach;
      assert forall k :: 0 <= k < |ps| ==> ps[k] in ps && w[IdsOf(ps)[k]] == ps[k].core;
    }

    lemma EarnsIffTakes(ps: seq<Player>, w: World, items: seq<Item>, p: Player)
      requires Sees(ps, w) && p in ps
      ensures Takes(items, IdsOf(ps), w, p.id) <==> Earns(items, ps, p)
    {
      var ids := IdsOf(ps);
      ItemRules.TakesIsGets(items, ids, w, p.id);
      hide Takes, FirstListed, ItemRules.FirstInReach;
      if ItemRules.Gets(items, ids, w, p.id) {
        var i, j: nat :| 0 <= i < |items| && j < |ids| && ids[j] == p.id && ItemRules.FirstInReach(items[i], ids, w, j);
        assert ps[j] in ps;
        FirstOfBoth(ps, w, items[i], j);
      }
      if Earns(items, ps, p) {
        var i, j: nat :| 0 <= i < |items| && j < |ps| && ps[j] == p && FirstListed(items[i], ps, j);
        FirstOfBoth(ps, w, items[i], j);
        assert ids[j] == p.id;
      }
    }

    /** Collects what is in reach, then queues one respawn for each item collected. */
    method TakeAll(ps: seq<Player>, ghost w: World) returns (picked: seq<nat>)
      requires Sees(ps, w)
      modifies `active, `queue, ps`effects
      ensures View() == Pickup(kind, old(View()), IdsOf(ps), w)
      ensures forall p :: p in ps ==> p.effects == Given(kind, Takes(old(active), IdsOf(ps), w, p.id), old(p.effects))
    {
      ghost var q, left := queue, Left(active, IdsOf(ps), w);
      var remaining;
      picked, remaining := Collect(ps, w);
      active := remaining;
      for i := 0 to |picked|
        modifies `queue
        invariant queue == q + Repeat(RespawnTime(kind), i)
      {
        queue := queue + [RespawnTime(kind)];
      }
      assert View() == Items(left, q + Repeat(RespawnTime(kind), |old(active)| - |left|), old(nextID));
    }

    lemma EarnsFully(ps: seq<Player>, w: World, items: seq<Item>, p: Player, e: Effects)
      requires Sees(ps, w) && p in ps
      ensures Given(kind, Takes(items, IdsOf(ps), w, p.id), e) ==
              if !Earns(items, ps, p) then e
              else if kind == Boost then Effects(Timer(true, 5000), e.slow)
              else Effects(e.boost, Timer(true, 3000))
    {
      hide Takes, Earns;
      EarnedListed(ps, w, items);
    }

    lemma PickedUp(s: Items, ids: seq<Id>, w: World)
      ensures var v := Pickup(kind, s, ids, w);
              && v.active == Left(s.active, ids, w)
              && v.queue == s.queue + seq(|s.active| - |v.active|, _ => if kind == Boost then 8000 else 10000)
    {
      hide Left;
      ItemRules.GoneRule(kind, s, ids, w, Item(0, 0.0, 0.0));
    }

    /** What a pickup comes to, in the terms of the specification and in plain numbers. */
    method CheckPickup(ps: seq<Player>, ghost w: World) returns (picked: seq<nat>)
      requires Sees(ps, w)
      modifies `active, `queue, ps`effects
      ensures View() == Pickup(kind, old(View()), IdsOf(ps), w)
      ensures forall p :: p in ps ==> p.effects == Given(kind, Takes(old(active), IdsOf(ps), w, p.id), old(p.effects))
      ensures forall item :: item in active <==>
                item in old(active) &&
                forall p :: p in ps ==>
                  p.core.state == Arrested
                  || !Near(Position(p.core.x, p.core.y), Position(item.x, item.y), 60.0)
      ensures queue == old(queue) + seq(|old(active)| - |active|, _ => if kind == Boost then 8000 else 10000)
      ensures forall p :: p in ps ==>
                p.effects == if !Earns(old(active), ps, p) then old(p.effects)
                             else if kind == Boost then Effects(Timer(true, 5000), old(p.effects).slow)
                             else Effects(old(p.effects).boost, Timer(true, 3000))
    {
      ghost var s := View();
      hide Takes, Given, Pickup, Left, Earns, IdsOf, Near, Sees;
      picked := TakeAll(ps, w);
      PickedUp(s, IdsOf(ps), w);
      GoneListed(ps, w, s.active);
      forall p | p in ps
        ensures Given(kind, Takes(s.active, IdsOf(ps), w, p.id), old(p.effects)) ==
                if !Earns(s.active, ps, p) then old(p.effects)
                else if kind == Boost then Effects(Timer(true, 5000), old(p.effects).slow)
                else Effects(old(p.effects).boost, Timer(true, 3000))
      {
        EarnsFully(ps, w, s.active, p, old(p.effects));
      }
    }
  }
}
