/** The rules of items in plain numbers: who takes what, what it does, and for how long. */
module ItemRules {
  import opened GameTypes
  import opened Geometry
  import opened TickSpec
  import opened ItemSpec
  import opened GameSpec

  // ----- One pickup -----

  /** Not in jail and at most 60 px away. */
  predicate CanReach(c: Core, item: Item) {
    c.state != Arrested && Near(Position(c.x, c.y), Position(item.x, item.y), 60.0)
  }

  /** Reaching is a matter of distance, for free and invincible players of any role. */
  lemma ReachRule(c: Core, item: Item, d: real)
    requires IsDistance(Position(c.x, c.y), Position(item.x, item.y), d)
    ensures CanReach(c, item) <==> c.state != Arrested && d <= 60.0
  {
    WithinIsDistance(Position(c.x, c.y), Position(item.x, item.y), d, 60.0);
  }

  /** The j-th player of the order is the first one who can reach the item. */
  predicate FirstInReach(item: Item, order: seq<Id>, w: World, j: nat) {
    && j < |order| && order[j] in w && CanReach(w[order[j]], item)
    && forall k :: 0 <= k < j && order[k] in w ==> !CanReach(w[order[k]], item)
  }

  predicate OutOfReach(item: Item, order: seq<Id>, w: World) {
    forall k :: 0 <= k < |order| && order[k] in w ==> !CanReach(w[order[k]], item)
  }

  lemma {:induction false} FirstTakes(item: Item, order: seq<Id>, w: World, j: nat)
    requires FirstInReach(item, order, w, j)
    ensures Taker(item, order, w) == Some(order[j])
  {
    if j > 0 {
      var rest := order[1..];
      assert forall k :: 0 <= k < j ==> rest[k] == order[k + 1];
      assert order[0] in w ==> !CanReach(w[order[0]], item);
      FirstTakes(item, rest, w, j - 1);
    }
  }

  lemma {:induction false} SomeoneIsFirst(item: Item, order: seq<Id>, w: World) returns (j: nat)
    requires !OutOfReach(item, order, w)
    ensures FirstInReach(item, order, w, j)
  {
    if order[0] in w && CanReach(w[order[0]], item) {
      j := 0;
    } else {
      var rest := order[1..];
      var k :| 0 <= k < |order| && order[k] in w && CanReach(w[order[k]], item);
      assert rest[k - 1] == order[k];
      j := SomeoneIsFirst(item, rest, w);
      assert forall k :: 0 <= k <= j ==> rest[k] == order[k + 1];
      j := j + 1;
    }
  }

  lemma {:induction false} NobodyTakes(item: Item, order: seq<Id>, w: World)
    requires OutOfReach(item, order, w)
    ensures Taker(item, order, w) == None
  {
    if order != [] {
      assert order[0] in w ==> !CanReach(w[order[0]], item);
      assert forall k :: 0 <= k < |order[1..]| ==> order[1..][k] == order[k + 1];
      NobodyTakes(item, order[1..], w);
    }
  }

  /** An item is left exactly if nobody of the order can reach it; else it goes to the first who can. */
  lemma TakerRule(item: Item, order: seq<Id>, w: World, id: Id)
    ensures Taker(item, order, w) == None <==> OutOfReach(item, order, w)
    ensures Taker(item, order, w) == Some(id) <==>
            exists j: nat :: j < |order| && FirstInReach(item, order, w, j) && order[j] == id
  {
    hide Taker, FirstInReach, OutOfReach;
    if OutOfReach(item, order, w) {
      NobodyTakes(item, order, w);
      forall j: nat | FirstInReach(item, order, w, j)
        ensures false
      {
        FirstTakes(item, order, w, j);
      }
    } else {
      var j := SomeoneIsFirst(item, order, w);
      FirstTakes(item, order, w, j);
      forall k: nat | FirstInReach(item, order, w, k)
        ensures k < |order| && Taker(item, order, w) == Some(order[k])
      {
        FirstTakes(item, order, w, k);
        OneFirst(item, order, w, k);
      }
    }
  }

  lemma OneFirst(item: Item, order: seq<Id>, w: World, j: nat)
    requires FirstInReach(item, order, w, j)
    ensures j < |order|
  {
  }

  lemma {:induction false} TakesOneOf(items: seq<Item>, order: seq<Id>, w: World, id: Id)
    ensures Takes(items, order, w, id) <==> exists i :: 0 <= i < |items| && Taker(items[i], order, w) == Some(id)
  {
    hide Taker;
    if items != [] {
      var front := items[..|items| - 1];
      TakesOneOf(front, order, w, id);
      assert forall i :: 0 <= i < |front| ==> front[i] == items[i];
    }
  }

  /**
   After a pickup an item is gone if and only if some player of the order is not in jail and at most 60 px
   from it. For each item gone one respawn is queued, 8000 ms for boosters and 10000 for stones.
   */
  lemma GoneRule(kind: Kind, s: Items, order: seq<Id>, w: World, item: Item)
    ensures var v := Pickup(kind, s, order, w);
            && (item in v.active <==>
                  item in s.active &&
                  forall k :: 0 <= k < |order| && order[k] in w ==>
                    w[order[k]].state == Arrested
                    || !Near(Position(w[order[k]].x, w[order[k]].y), Position(item.x, item.y), 60.0))
            && |v.active| <= |s.active| && v.nextID == s.nextID
            && v.queue == s.queue + seq(|s.active| - |v.active|, _ => if kind == Boost then 8000 else 10000)
  {
    LeftMembers(s.active, order, w);
    TakerRule(item, order, w, "");
    hide Taker, Left;
    var n := |s.active| - |Left(s.active, order, w)|;
    assert Repeat(RespawnTime(kind), n) == seq(n, _ => if kind == Boost then 8000 else 10000);
  }

  /** Some item has that player as the first of the order who is not in jail and at most 60 px away. */
  ghost predicate Gets(items: seq<Item>, order: seq<Id>, w: World, id: Id) {
    exists i, j: nat :: 0 <= i < |items| && j < |order| && order[j] == id && FirstInReach(items[i], order, w, j)
  }

  lemma TakesIsGets(items: seq<Item>, order: seq<Id>, w: World, id: Id)
    ensures Takes(items, order, w, id) <==> Gets(items, order, w, id)
  {
    hide Taker, Takes, FirstInReach, OutOfReach;
    TakesOneOf(items, order, w, id);
    if Takes(items, order, w, id) {
      var i :| 0 <= i < |items| && Taker(items[i], order, w) == Some(id);
      TakerRule(items[i], order, w, id);
      var j: nat :| j < |order| && FirstInReach(items[i], order, w, j) && order[j] == id;
      assert Gets(items, order, w, id);
    }
    if Gets(items, order, w, id) {
      var i, j: nat :| 0 <= i < |items| && j < |order| && order[j] == id && FirstInReach(items[i], order, w, j);
      TakerRule(items[i], order, w, id);
    }
  }

  /** Whoever gets an item has the full effect of it, 5000 ms of boost or 3000 of slowness; nobody else changes. */
  lemma EffectRule(kind: Kind, items: seq<Item>, order: seq<Id>, w: World, fx: map<Id, Effects>, id: Id)
    requires id in fx
    ensures PickedEffects(kind, items, order, w, fx)[id] ==
            if !Gets(items, order, w, id) then fx[id]
            else if kind == Boost then Effects(Timer(true, 5000), fx[id].slow)
            else Effects(fx[id].boost, Timer(true, 3000))
  {
    hide Takes, Gets;
    TakesIsGets(items, order, w, id);
  }

  // ----- One tick -----

  lemma AwakeReaches(w: World, id: Id, item: Item)
    requires id in w
    ensures CanReach(AwakeAll(w)[id], item) == CanReach(w[id], item)
  {
    hide Near;
  }

  lemma AwakeGets(items: seq<Item>, order: seq<Id>, w: World, id: Id)
    ensures Gets(items, order, AwakeAll(w), id) <==> Gets(items, order, w, id)
  {
    hide CanReach;
    forall item, j: nat
      ensures FirstInReach(item, order, AwakeAll(w), j) <==> FirstInReach(item, order, w, j)
    {
      FirstAwake(item, order, w, j);
    }
    hide FirstInReach, AwakeAll;
  }

  lemma FirstAwake(item: Item, order: seq<Id>, w: World, j: nat)
    ensures FirstInReach(item, order, AwakeAll(w), j) <==> FirstInReach(item, order, w, j)
  {
    hide CanReach;
    forall id | id in w
      ensures CanReach(AwakeAll(w)[id], item) == CanReach(w[id], item)
    {
      AwakeReaches(w, id, item);
    }
    hide AwakeAll;
  }

  /**
   In a tick an item is taken by where everyone stands when the tick begins, and by who is in jail then:
   pickups come before arrests and releases.
   */
  lemma TickPickupRule(g: Game, c: Chance, item: Item)
    requires Possible(g, c)
    ensures var gone := exists id :: id in g.world && g.world[id].state != Arrested &&
                          Near(Position(g.world[id].x, g.world[id].y), Position(item.x, item.y), 60.0);
            && (item in GameTick(g, c).boosters.active <==> item in c.boosters.active && !gone)
            && (item in GameTick(g, c).stones.active <==> item in c.stones.active && !gone)
  {
    var w := AwakeAll(g.world);
    GoneRule(Boost, c.boosters, c.order, w, item);
    GoneRule(Stumble, c.stones, c.order, w, item);
    GoneForAll(g.world, c.order, item);
    hide Near, Pickup, RunPairs, RunRescuers, ResetStragglers, PickedEffects, TickEffects;
    hide Respawned, ListsChases, Lists;
  }

  lemma GoneForAll(w: World, order: seq<Id>, item: Item)
    requires Lists(order, w.Keys)
    ensures (forall k :: 0 <= k < |order| && order[k] in AwakeAll(w) ==>
               var c := AwakeAll(w)[order[k]];
               c.state == Arrested || !Near(Position(c.x, c.y), Position(item.x, item.y), 60.0)) <==>
            !exists id :: id in w && w[id].state != Arrested &&
                          Near(Position(w[id].x, w[id].y), Position(item.x, item.y), 60.0)
  {
    hide Near;
  }

  /** Boost and slowness each lose 50 ms a tick and end at zero; taking an item in the tick sets the full time. */
  lemma TickEffectRule(g: Game, c: Chance, id: Id)
    requires Possible(g, c) && id in g.effects
    ensures var b, s := g.effects[id].boost, g.effects[id].slow;
            GameTick(g, c).effects[id] == Effects(
              if Gets(c.boosters.active, c.order, g.world, id) then Timer(true, 5000)
              else if b.on && b.left <= 50 then Timer(false, 0)
              else if b.on then Timer(true, b.left - 50)
              else b,
              if Gets(c.stones.active, c.order, g.world, id) then Timer(true, 3000)
              else if s.on && s.left <= 50 then Timer(false, 0)
              else if s.on then Timer(true, s.left - 50)
              else s)
  {
    var w := AwakeAll(g.world);
    var boosted := PickedEffects(Boost, c.boosters.active, c.order, w, TickEffects(Boost, g.effects));
    hide Gets, PickedEffects;
    AwakeGets(c.boosters.active, c.order, g.world, id);
    AwakeGets(c.stones.active, c.order, g.world, id);
    EffectRule(Boost, c.boosters.active, c.order, w, TickEffects(Boost, g.effects), id);
    EffectRule(Stumble, c.stones.active, c.order, w, TickEffects(Stumble, boosted), id);
    hide Pickup, RunPairs, RunRescuers, ResetStragglers, Respawned, ListsChases, Lists;
  }

  // ----- How long an effect lasts -----

  /** The player neither joins nor leaves before that tick of the play. */
  predicate Stays(changes: seq<Change>, id: Id) {
    forall i :: 0 <= i < |changes| ==> changes[i] != Change.Join(id) && changes[i] != Change.Leave(id)
  }

  lemma {:induction false} StayingKeepsEffects(g: Game, changes: seq<Change>, id: Id)
    requires Stays(changes, id) && id in g.effects
    ensures id in ChangesGame(g, changes).effects && ChangesGame(g, changes).effects[id] == g.effects[id]
    decreases |changes|
  {
    if changes != [] {
      StayingKeepsEffects(g, changes[..|changes| - 1], id);
    }
  }

  /** From tick k up to tick n of the play the player stays and gets none of these items. */
  ghost predicate Abstains(trace: seq<seq<Change>>, chance: seq<Chance>, states: seq<Game>, kind: Kind, id: Id,
                           k: nat, n: nat)
    requires n <= |trace| && |trace| == |chance| && |states| == |trace| + 1
  {
    forall t {:trigger trace[t]} :: k <= t < n ==>
      && Stays(trace[t], id)
      && !Gets(if kind == Boost then chance[t].boosters.active else chance[t].stones.active, chance[t].order,
               ChangesGame(states[t], trace[t]).world, id)
  }

  lemma PlayEffectStep(g: Game, changes: seq<Change>, c: Chance, h: Game, id: Id)
    requires PlayNext(g, changes, c, h) && id in g.effects && Stays(changes, id)
    ensures id in h.effects
    ensures var w, b, s := ChangesGame(g, changes).world, g.effects[id].boost, g.effects[id].slow;
            && (!Gets(c.boosters.active, c.order, w, id) ==>
                  h.effects[id].boost == if b.on && b.left <= 50 then Timer(false, 0)
                                         else if b.on then Timer(true, b.left - 50) else b)
            && (!Gets(c.stones.active, c.order, w, id) ==>
                  h.effects[id].slow == if s.on && s.left <= 50 then Timer(false, 0)
                                        else if s.on then Timer(true, s.left - 50) else s)
  {
    StayingKeepsEffects(g, changes, id);
    hide Gets, GameTick;
    TickEffectRule(ChangesGame(g, changes), c, id);
  }

  /**
   A boost taken on a tick is on for exactly the next 100 ticks, counting 5000 ms down, unless another booster
   is taken in between.
   */
  lemma {:induction false} BoostLasts(g: Game, trace: seq<seq<Change>>, chance: seq<Chance>, states: seq<Game>,
                                     k: nat, n: nat, id: Id)
    requires Play(g, trace, chance, states) && k <= n <= |trace|
    requires id in states[k].effects && states[k].effects[id].boost == Timer(true, 5000)
    requires Abstains(trace, chance, states, Boost, id, k, n)
    ensures id in states[n].effects
    ensures states[n].effects[id].boost == if n < k + 100 then Timer(true, 5000 - 50 * (n - k)) else Timer(false, 0)
    decreases n
  {
    hide PlayNext, Gets, Stays, ChangesGame;
    if k < n {
      BoostLasts(g, trace, chance, states, k, n - 1, id);
      assert Stays(trace[n - 1], id);
      PlayEffectStep(states[n - 1], trace[n - 1], chance[n - 1], states[n], id);
    }
  }

  /** And slowness for exactly 60 ticks, counting 3000 ms down. */
  lemma {:induction false} SlownessLasts(g: Game, trace: seq<seq<Change>>, chance: seq<Chance>, states: seq<Game>,
                                        k: nat, n: nat, id: Id)
    requires Play(g, trace, chance, states) && k <= n <= |trace|
    requires id in states[k].effects && states[k].effects[id].slow == Timer(true, 3000)
    requires Abstains(trace, chance, states, Stumble, id, k, n)
    ensures id in states[n].effects
    ensures states[n].effects[id].slow == if n < k + 60 then Timer(true, 3000 - 50 * (n - k)) else Timer(false, 0)
    decreases n
  {
    hide PlayNext, Gets, Stays, ChangesGame;
    if k < n {
      SlownessLasts(g, trace, chance, states, k, n - 1, id);
      assert Stays(trace[n - 1], id);
      PlayEffectStep(states[n - 1], trace[n - 1], chance[n - 1], states[n], id);
    }
  }

  // ----- Where items are, and how many -----

  /** Boosters and stumble stones lie at least 40 px from the edges of the map. */
  lemma OnMapRule(item: Item)
    ensures OnMap(item) <==> 40.0 <= item.x < 3200.0 && 40.0 <= item.y < 5720.0
  {
  }

  /** A game starts with 4 boosters or 3 stones, under the first ids. */
  lemma StartRule(kind: Kind, s: Items)
    requires Start(kind, s)
    ensures |s.active| == s.nextID == (if kind == Boost then 4 else 3) && s.queue == []
    ensures forall i :: 0 <= i < |s.active| ==>
              && s.active[i].id == i + 1
              && 40.0 <= s.active[i].x < 3200.0 && 40.0 <= s.active[i].y < 5720.0
  {
  }

  /**
   A spot for an item is clear exactly if it is 300 px or more from the middle of the map and 150 or more from
   everything that is there.
   */
  lemma ClearRule(at: (real, real), occupied: seq<(real, real)>)
    ensures Clear(at, occupied) <==>
            && !TooClose(Position(at.0, at.1), Position(1620.0, 2880.0), 300.0)
            && forall i :: 0 <= i < |occupied| ==>
                 !TooClose(Position(at.0, at.1), Position(occupied[i].0, occupied[i].1), 150.0)
  {
  }

  /** Every draw before an item's last was too close: to the middle, to the map's objects, or to an earlier item. */
  lemma RefusedRule(placed: seq<(real, real)>, a: seq<Item>, b: seq<Item>, draws: seq<seq<(real, real)>>,
                    i: nat, k: nat)
    requires ItemDraws(placed, a, b, draws) && |a| <= i < |b|
    ensures 1 <= |draws[i - |a|]| <= 100 && draws[i - |a|][|draws[i - |a|]| - 1] == (b[i].x, b[i].y)
    ensures k < |draws[i - |a|]| - 1 ==>
              var at := Position(draws[i - |a|][k].0, draws[i - |a|][k].1);
              || TooClose(at, Position(1620.0, 2880.0), 300.0)
              || (exists m :: 0 <= m < |placed| && TooClose(at, Position(placed[m].0, placed[m].1), 150.0))
              || (exists m :: 0 <= m < i && TooClose(at, Position(b[m].x, b[m].y), 150.0))
  {
    var drawn, occupied := draws[i - |a|], placed + Places(b[..i]);
    assert ItemDraw(drawn, occupied, b[|a| + (i - |a|)]);
    if k < |drawn| - 1 {
      ClearRule(drawn[k], occupied);
      var m :| TooClose(Position(drawn[k].0, drawn[k].1), Position(1620.0, 2880.0), 300.0) ||
               (0 <= m < |occupied|
                && TooClose(Position(drawn[k].0, drawn[k].1), Position(occupied[m].0, occupied[m].1), 150.0));
      hide TooClose;
      if 0 <= m < |placed| {
        assert occupied[m] == placed[m];
      } else if |placed| <= m < |occupied| {
        assert occupied[m] == (b[m - |placed|].x, b[m - |placed|].y);
      }
    }
  }
}
