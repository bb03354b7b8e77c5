/**
 Boosters and stumble stones. The two managers of the game are twins, so one description serves
 both, with the kind supplying the cap and the times.
 */
module ItemSpec {
  import opened GameTypes

  datatype Kind = Boost | Stumble
  datatype Item = Item(id: nat, x: real, y: real)
  datatype Items = Items(active: seq<Item>, queue: seq<int>, nextID: nat)

  /** A player's effect of one kind: whether it is on, and the milliseconds left. */
  datatype Timer = Timer(on: bool, left: int)

  datatype Effects = Effects(boost: Timer, slow: Timer)
  {
    function Get(kind: Kind): Timer { if kind.Boost? then boost else slow }
    function Set(kind: Kind, t: Timer): Effects { if kind.Boost? then this.(boost := t) else this.(slow := t) }
  }

  const NO_EFFECTS: Effects := Effects(Timer(false, 0), Timer(false, 0))

  function Cap(kind: Kind): nat { if kind.Boost? then 4 else 3 }
  function RespawnTime(kind: Kind): int { if kind.Boost? then 8000 else 10000 }
  function EffectTime(kind: Kind): int { if kind.Boost? then 5000 else 3000 }

  /** Updates between a pickup and its replacement. */
  function RespawnTicks(kind: Kind): nat { if kind.Boost? then 160 else 200 }

  // ----- Update: countdown and respawn -----

  function Countdown(queue: seq<int>): (q: seq<int>)
    ensures |q| <= |queue|
  {
    if queue == [] then []
    else
      var t := queue[|queue| - 1] - TICK;
      Countdown(queue[..|queue| - 1]) + (if t > 0 then [t] else [])
  }

  lemma CountdownStep(queue: seq<int>, i: nat)
    requires i < |queue|
    ensures Countdown(queue[..i + 1]) == Countdown(queue[..i]) + (if queue[i] - TICK > 0 then [queue[i] - TICK] else [])
  {
    assert queue[..i + 1][..i] == queue[..i];
  }

  function Due(queue: seq<int>): nat {
    |queue| - |Countdown(queue)|
  }

  /** u is s after Update, wherever the draws put the new items. */
  ghost predicate Respawned(s: Items, u: Items) {
    && u.queue == Countdown(s.queue)
    && u.nextID == s.nextID + Due(s.queue)
    && |u.active| == |s.active| + Due(s.queue)
    && Extends(s.active, u.active, s.nextID)
  }

  /** b is a and then new items, on the map, with the ids that follow nextID. */
  ghost predicate Extends(a: seq<Item>, b: seq<Item>, nextID: nat) {
    && |a| <= |b|
    && b[..|a|] == a
    && (forall i :: |a| <= i < |b| ==> b[i].id == nextID + 1 + (i - |a|) && OnMap(b[i]))
  }

  lemma ExtendsByOne(a: seq<Item>, b: seq<Item>, nextID: nat)
    requires |b| == |a| + 1 && b[..|a|] == a && b[|a|].id == nextID + 1 && OnMap(b[|a|])
    ensures Extends(a, b, nextID)
  {
  }

  lemma ExtendsChain(a: seq<Item>, b: seq<Item>, c: seq<Item>, nextID: nat)
    requires Extends(a, b, nextID) && Extends(b, c, nextID + |b| - |a|)
    ensures Extends(a, c, nextID)
  {
    assert forall i :: 0 <= i < |b| ==> c[i] == c[..|b|][i];
  }

  predicate OnMap(item: Item) {
    40.0 <= item.x < MAP_WIDTH - 40.0 && 40.0 <= item.y < MAP_HEIGHT - 40.0
  }

  function Places(items: seq<Item>): (places: seq<(real, real)>)
    ensures |places| == |items| && forall i :: 0 <= i < |items| ==> places[i] == (items[i].x, items[i].y)
  {
    seq(|items|, i requires 0 <= i < |items| => (items[i].x, items[i].y))
  }

  /** The spot keeps its distance from the middle of the map and from everything already there. */
  predicate Clear(at: (real, real), occupied: seq<(real, real)>) {
    && !Closer(at.0, at.1, MAP_WIDTH / 2.0, MAP_HEIGHT / 2.0, 300.0)
    && forall i :: 0 <= i < |occupied| ==> !Closer(at.0, at.1, occupied[i].0, occupied[i].1, 150.0)
  }

  /** How one item's place came out of at most 100 draws: the first clear one, or the last. */
  ghost predicate ItemDraw(draws: seq<(real, real)>, occupied: seq<(real, real)>, item: Item) {
    && 1 <= |draws| <= 100 && (item.x, item.y) == draws[|draws| - 1]
    && (forall i :: 0 <= i < |draws| - 1 ==> !Clear(draws[i], occupied))
    && (|draws| < 100 ==> Clear(draws[|draws| - 1], occupied))
  }

  /** b is a and then items that came out of these draws, each clear of the map and of the items before it. */
  ghost predicate ItemDraws(placed: seq<(real, real)>, a: seq<Item>, b: seq<Item>, draws: seq<seq<(real, real)>>) {
    && |b| == |a| + |draws|
    && forall i :: 0 <= i < |draws| ==> ItemDraw(draws[i], placed + Places(b[..|a| + i]), b[|a| + i])
  }

  lemma DrawsByOne(placed: seq<(real, real)>, a: seq<Item>, b: seq<Item>, draws: seq<seq<(real, real)>>,
                   item: Item, drawn: seq<(real, real)>)
    requires ItemDraws(placed, a, b, draws) && ItemDraw(drawn, placed + Places(b), item)
    ensures ItemDraws(placed, a, b + [item], draws + [drawn])
  {
    hide ItemDraw;
    var c, all := b + [item], draws + [drawn];
    forall i | 0 <= i < |all|
      ensures ItemDraw(all[i], placed + Places(c[..|a| + i]), c[|a| + i])
    {
      assert c[..|a| + i] == b[..|a| + i];
      assert b[..|b|] == b;
    }
  }

  /** So an item that needed fewer than 100 draws keeps its distance from everything that was there before it. */
  lemma DrawnClear(placed: seq<(real, real)>, a: seq<Item>, b: seq<Item>, draws: seq<seq<(real, real)>>, i: nat, k: nat)
    requires ItemDraws(placed, a, b, draws) && |a| <= i < |b| && |draws[i - |a|]| < 100
    ensures k < |placed| ==> !Closer(b[i].x, b[i].y, placed[k].0, placed[k].1, 150.0)
    ensures k < i ==> !Closer(b[i].x, b[i].y, b[k].x, b[k].y, 150.0)
    ensures !Closer(b[i].x, b[i].y, MAP_WIDTH / 2.0, MAP_HEIGHT / 2.0, 300.0)
  {
    var occupied := placed + Places(b[..i]);
    assert ItemDraw(draws[i - |a|], occupied, b[|a| + (i - |a|)]);
    assert Clear((b[i].x, b[i].y), occupied);
    hide Closer, ItemDraw, ItemDraws;
    assert k < |placed| ==> occupied[k] == placed[k];
    assert k < i ==> occupied[|placed| + k] == (b[k].x, b[k].y);
  }

  // ----- CheckPickup -----

  predicate Reaches(c: Core, item: Item) {
    c.state != Arrested && Within(c.x, c.y, item.x, item.y, PICKUP_RANGE)
  }

  /** The first player of the list who can take the item. */
  function Taker(item: Item, order: seq<Id>, w: World): Option<Id> {
    if order == [] then None
    else if order[0] in w && Reaches(w[order[0]], item) then Some(order[0])
    else Taker(item, order[1..], w)
  }

  function Left(active: seq<Item>, order: seq<Id>, w: World): (left: seq<Item>)
    ensures |left| <= |active|
  {
    if active == [] then []
    else
      var item := active[|active| - 1];
      Left(active[..|active| - 1], order, w) + (if Taker(item, order, w).None? then [item] else [])
  }

  /** Player id is the taker of one of the items. */
  predicate Takes(items: seq<Item>, order: seq<Id>, w: World, id: Id) {
    items != [] && (Takes(items[..|items| - 1], order, w, id) || Taker(items[|items| - 1], order, w) == Some(id))
  }

  lemma CollectStep(items: seq<Item>, i: nat, order: seq<Id>, w: World)
    requires i < |items|
    ensures Left(items[..i + 1], order, w)
            == Left(items[..i], order, w) + (if Taker(items[i], order, w).None? then [items[i]] else [])
    ensures forall id :: Takes(items[..i + 1], order, w, id) <==>
              Takes(items[..i], order, w, id) || Taker(items[i], order, w) == Some(id)
  {
    hide Taker;
    assert items[..i + 1] == items[..i] + [items[i]];
    assert items[..i + 1][..i] == items[..i];
  }

  /** A player's effects after a pickup phase in which it takes an item or not. */
  function Given(kind: Kind, takes: bool, e: Effects): Effects {
    if takes then e.Set(kind, Timer(true, EffectTime(kind))) else e
  }

  function PickedEffects(kind: Kind, active: seq<Item>, order: seq<Id>, w: World, fx: map<Id, Effects>)
    : (f: map<Id, Effects>)
    ensures f.Keys == fx.Keys
  {
    map id | id in fx :: Given(kind, Takes(active, order, w, id), fx[id])
  }

  function Repeat(t: int, n: nat): seq<int> {
    seq(n, _ => t)
  }

  function Pickup(kind: Kind, s: Items, order: seq<Id>, w: World): Items {
    var left := Left(s.active, order, w);
    Items(left, s.queue + Repeat(RespawnTime(kind), |s.active| - |left|), s.nextID)
  }

  function TickTimer(t: Timer): Timer {
    if !t.on then t
    else if t.left - TICK <= 0 then Timer(false, 0)
    else Timer(true, t.left - TICK)
  }

  function TickEffects(kind: Kind, fx: map<Id, Effects>): (f: map<Id, Effects>)
    ensures f.Keys == fx.Keys
  {
    map id | id in fx :: fx[id].Set(kind, TickTimer(fx[id].Get(kind)))
  }

  // ----- What every Update and pickup keeps -----

  ghost predicate Sorted(q: seq<int>) {
    forall i, j :: 0 <= i <= j < |q| ==> q[i] <= q[j]
  }

  ghost predicate Ascending(items: seq<Item>) {
    forall i, j :: 0 <= i < j < |items| ==> items[i].id < items[j].id
  }

  ghost predicate ItemsOk(kind: Kind, s: Items) {
    && |s.active| + |s.queue| == Cap(kind)
    && Ascending(s.active)
    && (forall i :: 0 <= i < |s.active| ==> 1 <= s.active[i].id <= s.nextID)
    && (forall i :: 0 <= i < |s.queue| ==> 0 < s.queue[i] <= RespawnTime(kind))
    && Sorted(s.queue)
  }

  ghost predicate Start(kind: Kind, s: Items) {
    && |s.active| == s.nextID == Cap(kind)
    && s.queue == []
    && Extends([], s.active, 0)
  }

  lemma {:induction false} CountdownBounded(queue: seq<int>, most: int)
    requires forall i :: 0 <= i < |queue| ==> queue[i] <= most
    ensures forall t :: t in Countdown(queue) ==> 0 < t <= most - TICK
  {
    if queue != [] {
      CountdownBounded(queue[..|queue| - 1], most);
    }
  }

  lemma {:induction false} CountdownSorted(queue: seq<int>)
    requires Sorted(queue)
    ensures Sorted(Countdown(queue))
  {
    if queue != [] {
      var front, last := queue[..|queue| - 1], queue[|queue| - 1];
      CountdownSorted(front);
      CountdownBounded(front, last);
      var before := Countdown(front);
      assert forall i :: 0 <= i < |before| ==> before[i] in before;
    }
  }

  lemma {:induction false} LeftMembers(active: seq<Item>, order: seq<Id>, w: World)
    ensures forall item :: item in Left(active, order, w) <==> item in active && Taker(item, order, w).None?
  {
    hide Taker;
    if active != [] {
      var front, last := active[..|active| - 1], active[|active| - 1];
      LeftMembers(front, order, w);
      assert active == front + [last];
    }
  }

  lemma {:induction false} LeftKeepsOrder(active: seq<Item>, order: seq<Id>, w: World)
    requires Ascending(active)
    ensures Ascending(Left(active, order, w))
  {
    if active != [] {
      var front, last := active[..|active| - 1], active[|active| - 1];
      LeftKeepsOrder(front, order, w);
      LeftMembers(front, order, w);
      var before := Left(front, order, w);
      forall i | 0 <= i < |before|
        ensures before[i].id < last.id
      {
        assert before[i] in front;
        var j :| 0 <= j < |front| && front[j] == before[i];
      }
      assert Left(active, order, w) == before + (if Taker(last, order, w).None? then [last] else []);
    }
  }

  lemma UpdateKeeps(kind: Kind, s: Items, u: Items)
    requires ItemsOk(kind, s) && Respawned(s, u)
    ensures ItemsOk(kind, u)
  {
    CountdownSorted(s.queue);
    CountdownBounded(s.queue, RespawnTime(kind));
    assert forall i :: 0 <= i < |u.queue| ==> u.queue[i] in u.queue;
    assert forall i :: 0 <= i < |s.active| ==> u.active[i] == u.active[..|s.active|][i];
    assert forall i :: 0 <= i < |s.active| ==> u.active[i].id == s.active[i].id;
  }

  lemma PickupKeeps(kind: Kind, u: Items, order: seq<Id>, w: World)
    requires ItemsOk(kind, u)
    ensures ItemsOk(kind, Pickup(kind, u, order, w))
  {
    LeftKeepsOrder(u.active, order, w);
    LeftMembers(u.active, order, w);
    var left := Left(u.active, order, w);
    forall i | 0 <= i < |left|
      ensures 1 <= left[i].id <= u.nextID
    {
      assert left[i] in left;
      var j :| 0 <= j < |u.active| && u.active[j] == left[i];
    }
  }

  /** Conservation, distinct ids and a sorted queue survive a whole tick of the manager. */
  lemma ItemTickKeeps(kind: Kind, s: Items, u: Items, order: seq<Id>, w: World)
    requires ItemsOk(kind, s) && Respawned(s, u)
    ensures ItemsOk(kind, u) && ItemsOk(kind, Pickup(kind, u, order, w))
  {
    UpdateKeeps(kind, s, u);
    PickupKeeps(kind, u, order, w);
  }
}
