/**
 Whole runs of one item manager: the respawn queue and the id counter as functions of the pickup
 history alone, and the bound this puts on the number of items a game can ever spawn.
 */
module ItemRuns {
  import opened GameTypes
  import opened ItemSpec

  /** One tick of the manager: the state after Update, then the pickups of the listed players. */
  datatype ItemStep = ItemStep(updated: Items, order: seq<Id>, world: World)

  ghost predicate ItemNext(kind: Kind, s: Items, step: ItemStep, v: Items) {
    Respawned(s, step.updated) && v == Pickup(kind, step.updated, step.order, step.world)
  }

  ghost predicate ItemRun(kind: Kind, run: seq<Items>, steps: seq<ItemStep>) {
    && |run| == |steps| + 1
    && Start(kind, run[0])
    && (forall t {:trigger steps[t]} :: 0 <= t < |steps| ==> ItemNext(kind, run[t], steps[t], run[t + 1]))
  }

  /** The number of items collected in a tick. */
  function Picked(step: ItemStep): nat {
    |step.updated.active| - |Left(step.updated.active, step.order, step.world)|
  }

  function Picks(steps: seq<ItemStep>): (p: seq<nat>)
    ensures |p| == |steps|
  {
    if steps == [] then [] else Picks(steps[..|steps| - 1]) + [Picked(steps[|steps| - 1])]
  }

  function Sum(s: seq<nat>): nat {
    if s == [] then 0 else Sum(s[..|s| - 1]) + s[|s| - 1]
  }

  /**
   The queue a pickup history leaves when its last tick lies age updates back: the items collected
   at each of the last RespawnTicks ticks, oldest first, each with its time to go.
   */
  function QueueAfter(kind: Kind, picks: seq<nat>, age: nat): seq<int> {
    if picks == [] || age >= RespawnTicks(kind) then []
    else
      QueueAfter(kind, picks[..|picks| - 1], age + 1)
      + Repeat(RespawnTime(kind) - age * TICK, picks[|picks| - 1])
  }

  lemma {:induction false} CountdownConcat(a: seq<int>, b: seq<int>)
    ensures Countdown(a + b) == Countdown(a) + Countdown(b)
  {
    if b == [] {
      assert a + b == a;
    } else {
      CountdownConcat(a, b[..|b| - 1]);
      assert (a + b)[..|a + b| - 1] == a + b[..|b| - 1];
    }
  }

  lemma {:induction false} CountdownRepeat(t: int, n: nat)
    ensures Countdown(Repeat(t, n)) == if t - TICK > 0 then Repeat(t - TICK, n) else []
  {
    if n > 0 {
      CountdownRepeat(t, n - 1);
      assert Repeat(t, n)[..n - 1] == Repeat(t, n - 1);
    }
  }

  lemma QueueUnfolds(kind: Kind, picks: seq<nat>, age: nat)
    requires picks != []
    ensures QueueAfter(kind, picks, age) ==
            if age >= RespawnTicks(kind) then []
            else QueueAfter(kind, picks[..|picks| - 1], age + 1)
                 + Repeat(RespawnTime(kind) - age * TICK, picks[|picks| - 1])
  {
  }

  lemma StillWaiting(kind: Kind, age: nat)
    ensures RespawnTime(kind) - age * TICK - TICK == RespawnTime(kind) - (age + 1) * TICK
    ensures RespawnTime(kind) - (age + 1) * TICK > 0 <==> age + 1 < RespawnTicks(kind)
  {
  }

  /** One Update makes every entry of the history one tick older and drops the oldest ones. */
  lemma {:induction false} CountdownAges(kind: Kind, picks: seq<nat>, age: nat)
    ensures Countdown(QueueAfter(kind, picks, age)) == QueueAfter(kind, picks, age + 1)
    decreases |picks|
  {
    hide *;
    if picks == [] || age >= RespawnTicks(kind) {
      OldQueue(kind, picks, age);
      OldQueue(kind, picks, age + 1);
    } else {
      var front, n := picks[..|picks| - 1], picks[|picks| - 1];
      var t := RespawnTime(kind) - age * TICK;
      QueueUnfolds(kind, picks, age);
      QueueUnfolds(kind, picks, age + 1);
      CountdownAges(kind, front, age + 1);
      CountdownConcat(QueueAfter(kind, front, age + 1), Repeat(t, n));
      CountdownRepeat(t, n);
      StillWaiting(kind, age);
      if age + 1 >= RespawnTicks(kind) {
        OldQueue(kind, front, age + 1);
        OldQueue(kind, front, age + 2);
      }
    }
  }

  lemma OldQueue(kind: Kind, picks: seq<nat>, age: nat)
    requires picks == [] || age >= RespawnTicks(kind)
    ensures QueueAfter(kind, picks, age) == [] && Countdown([]) == []
  {
  }

  /** The entries an Update drops are exactly the pickups of RespawnTicks ticks ago. */
  lemma {:induction false} DueIsOldPicks(kind: Kind, picks: seq<nat>, age: nat)
    requires age < RespawnTicks(kind)
    ensures Due(QueueAfter(kind, picks, age)) ==
            var ago := RespawnTicks(kind) - age;
            if |picks| >= ago then picks[|picks| - ago] else 0
    decreases |picks|
  {
    CountdownAges(kind, picks, age);
    if picks != [] && age + 1 < RespawnTicks(kind) {
      CountdownAges(kind, picks[..|picks| - 1], age + 1);
      DueIsOldPicks(kind, picks[..|picks| - 1], age + 1);
    }
  }

  lemma {:induction false} RunKeeps(kind: Kind, run: seq<Items>, steps: seq<ItemStep>)
    requires ItemRun(kind, run, steps)
    ensures ItemsOk(kind, run[|steps|])
    decreases |steps|
  {
    var n := |steps|;
    if n > 0 {
      RunKeeps(kind, run[..n], steps[..n - 1]);
      ItemTickKeeps(kind, run[n - 1], steps[n - 1].updated, steps[n - 1].order, steps[n - 1].world);
    }
  }

  lemma LatestPicks(kind: Kind, picks: seq<nat>, n: nat)
    ensures QueueAfter(kind, picks + [n], 0) == QueueAfter(kind, picks, 1) + Repeat(RespawnTime(kind), n)
  {
    assert (picks + [n])[..|picks|] == picks;
  }

  lemma QueueStep(kind: Kind, s: Items, step: ItemStep, picks: seq<nat>)
    requires Respawned(s, step.updated)
    requires s.queue == QueueAfter(kind, picks, 0)
    ensures Pickup(kind, step.updated, step.order, step.world).queue == QueueAfter(kind, picks + [Picked(step)], 0)
  {
    hide QueueAfter, Countdown, Repeat, Extends, Left, RespawnTime, RespawnTicks;
    CountdownAges(kind, picks, 0);
    LatestPicks(kind, picks, Picked(step));
  }

  lemma {:induction false} QueueOfRun(kind: Kind, run: seq<Items>, steps: seq<ItemStep>)
    requires ItemRun(kind, run, steps)
    ensures run[|steps|].queue == QueueAfter(kind, Picks(steps), 0)
    decreases |steps|
  {
    var n := |steps|;
    if n > 0 {
      QueueOfRun(kind, run[..n], steps[..n - 1]);
      QueueStep(kind, run[n - 1], steps[n - 1], Picks(steps[..n - 1]));
    }
  }

  /** Ids given out by the pickups that are at least RespawnTicks ticks old. */
  function Replaced(kind: Kind, picks: seq<nat>): nat {
    if |picks| >= RespawnTicks(kind) then Sum(picks[..|picks| - RespawnTicks(kind)]) else 0
  }

  lemma ReplacedStep(kind: Kind, picks: seq<nat>)
    requires picks != []
    ensures var front := picks[..|picks| - 1];
            Replaced(kind, picks) == Replaced(kind, front) + Due(QueueAfter(kind, front, 0))
  {
    var front, d := picks[..|picks| - 1], RespawnTicks(kind);
    DueIsOldPicks(kind, front, 0);
    if |front| >= d {
      var served := picks[..|picks| - d];
      assert served[..|served| - 1] == front[..|front| - d];
    }
  }

  /**
   After any run of ticks the queue is the queue of the pickup history, in order, and the ids given
   out are the initial ones plus one for every pickup at least RespawnTicks ticks old: each
   collected item is replaced exactly RespawnTicks updates later, first collected, first replaced.
   */
  lemma {:induction false} QueueIsHistory(kind: Kind, run: seq<Items>, steps: seq<ItemStep>)
    requires ItemRun(kind, run, steps)
    ensures ItemsOk(kind, run[|steps|])
    ensures run[|steps|].queue == QueueAfter(kind, Picks(steps), 0)
    ensures run[|steps|].nextID == Cap(kind) + Replaced(kind, Picks(steps))
    decreases |steps|
  {
    hide ItemNext, ItemsOk, QueueAfter, Replaced, Picks, Cap;
    NothingReplaced(kind);
    RunKeeps(kind, run, steps);
    QueueOfRun(kind, run, steps);
    var n := |steps|;
    if n > 0 {
      QueueIsHistory(kind, run[..n], steps[..n - 1]);
      LastPicks(steps);
      IdsStep(kind, run[n - 1], steps[n - 1], run[n], Picks(steps));
    }
  }

  lemma NothingReplaced(kind: Kind)
    ensures Picks([]) == [] && Replaced(kind, []) == 0
  {
  }

  lemma LastPicks(steps: seq<ItemStep>)
    requires steps != []
    ensures Picks(steps)[..|steps| - 1] == Picks(steps[..|steps| - 1])
  {
  }

  lemma IdsStep(kind: Kind, s: Items, step: ItemStep, t: Items, picks: seq<nat>)
    requires ItemNext(kind, s, step, t) && picks != []
    requires var front := picks[..|picks| - 1];
             s.queue == QueueAfter(kind, front, 0) && s.nextID == Cap(kind) + Replaced(kind, front)
    ensures t.nextID == Cap(kind) + Replaced(kind, picks)
  {
    ReplacedStep(kind, picks);
    hide Replaced, QueueAfter, Countdown, Extends, Left;
  }

  lemma {:induction false} PicksAt(steps: seq<ItemStep>, i: nat)
    requires i < |steps|
    ensures Picks(steps)[i] == Picked(steps[i])
  {
    hide Picked;
    if i < |steps| - 1 {
      PicksAt(steps[..|steps| - 1], i);
    }
  }

  /**
   On every tick of a run as many boosters come back as were taken 160 ticks before, and as many stones as 200
   ticks before: none earlier, none later.
   */
  lemma RespawnRule(kind: Kind, run: seq<Items>, steps: seq<ItemStep>, t: nat)
    requires ItemRun(kind, run, steps) && t < |steps|
    ensures var ago := if kind == Boost then 160 else 200;
            |steps[t].updated.active| - |run[t].active| ==
            if t >= ago then |steps[t - ago].updated.active| - |run[t - ago + 1].active| else 0
  {
    var picks, ago := Picks(steps[..t]), RespawnTicks(kind);
    hide ItemNext, Start, Picked, Picks, QueueAfter, Due;
    QueueAt(kind, run, steps, t);
    DueIsOldPicks(kind, picks, 0);
    InOneTick(kind, run[t], steps[t], run[t + 1]);
    if t >= ago {
      PicksAt(steps[..t], t - ago);
      InOneTick(kind, run[t - ago], steps[t - ago], run[t - ago + 1]);
    }
  }

  lemma QueueAt(kind: Kind, run: seq<Items>, steps: seq<ItemStep>, t: nat)
    requires ItemRun(kind, run, steps) && t <= |steps|
    ensures run[t].queue == QueueAfter(kind, Picks(steps[..t]), 0)
  {
    hide ItemNext, Start, Picks, QueueAfter;
    QueueOfRun(kind, run[..t + 1], steps[..t]);
  }

  lemma InOneTick(kind: Kind, s: Items, step: ItemStep, v: Items)
    requires ItemNext(kind, s, step, v)
    ensures |step.updated.active| == |s.active| + Due(s.queue)
    ensures Picked(step) == |step.updated.active| - |v.active|
  {
    hide Left, Countdown, Extends;
  }

  // ----- Bounded spawning -----

  /** Time already waited, summed over the queue, in milliseconds. */
  function Waited(kind: Kind, queue: seq<int>): int {
    if queue == [] then 0
    else Waited(kind, queue[..|queue| - 1]) + RespawnTime(kind) - queue[|queue| - 1]
  }

  function Potential(kind: Kind, s: Items): int {
    RespawnTime(kind) * (s.nextID - Cap(kind)) + Waited(kind, s.queue)
  }

  /** Queue entries are positive whole numbers of ticks. */
  ghost predicate Whole(queue: seq<int>) {
    forall i :: 0 <= i < |queue| ==> 0 < queue[i] && queue[i] % TICK == 0
  }

  lemma {:induction false} CountdownWhole(queue: seq<int>)
    requires Whole(queue)
    ensures Whole(Countdown(queue))
  {
    if queue != [] {
      CountdownWhole(queue[..|queue| - 1]);
    }
  }

  lemma {:induction false} CountdownWaits(kind: Kind, queue: seq<int>)
    requires Whole(queue)
    ensures Waited(kind, Countdown(queue)) + RespawnTime(kind) * Due(queue)
            == Waited(kind, queue) + TICK * |queue|
  {
    if queue != [] {
      var front, last := queue[..|queue| - 1], queue[|queue| - 1];
      CountdownWaits(kind, front);
      var before := Countdown(front);
      hide RespawnTime;
      if last - TICK > 0 {
        assert (before + [last - TICK])[..|before|] == before;
        assert Due(queue) == Due(front);
      } else {
        assert last == TICK;
        assert Countdown(queue) == before;
        Distribute(RespawnTime(kind), Due(front), 1);
      }
    }
  }

  lemma Distribute(a: int, b: int, c: int)
    ensures a * (b + c) == a * b + a * c
  {
  }

  lemma {:induction false} PickupWaits(kind: Kind, queue: seq<int>, n: nat)
    ensures Waited(kind, queue + Repeat(RespawnTime(kind), n)) == Waited(kind, queue)
  {
    if n == 0 {
      assert queue + Repeat(RespawnTime(kind), n) == queue;
    } else {
      PickupWaits(kind, queue, n - 1);
      var all := queue + Repeat(RespawnTime(kind), n);
      assert all[..|all| - 1] == queue + Repeat(RespawnTime(kind), n - 1);
    }
  }

  /** A tick adds one tick of waiting for every queued item, respawned or not. */
  lemma PotentialStep(kind: Kind, s: Items, step: ItemStep)
    requires Respawned(s, step.updated) && Whole(s.queue)
    ensures var v := Pickup(kind, step.updated, step.order, step.world);
            Potential(kind, v) == Potential(kind, s) + TICK * |s.queue| && Whole(v.queue)
  {
    hide Left, Waited, Countdown, Extends;
    CountdownWaits(kind, s.queue);
    CountdownWhole(s.queue);
    PickupWaits(kind, step.updated.queue, Picked(step));
    Distribute(RespawnTime(kind), s.nextID - Cap(kind), Due(s.queue));
  }

  /** A new manager has used up nothing. */
  lemma PotentialStart(kind: Kind, s: Items)
    requires Start(kind, s)
    ensures Potential(kind, s) == 0 && Whole(s.queue) && |s.queue| == 0
  {
    Distribute(RespawnTime(kind), s.nextID - Cap(kind), 0);
  }

  lemma OneTickMore(cap: nat, queued: nat, ticks: int)
    requires queued <= cap
    ensures cap * TICK * (ticks - 1) + TICK * queued <= cap * TICK * ticks
  {
    Distribute(cap * TICK, ticks - 1, 1);
  }

  lemma PotentialGrows(kind: Kind, s: Items, step: ItemStep, t: Items, ticks: int)
    requires ItemNext(kind, s, step, t) && Whole(s.queue) && |s.queue| <= Cap(kind)
    requires Potential(kind, s) <= Cap(kind) * TICK * (ticks - 1)
    ensures Potential(kind, t) <= Cap(kind) * TICK * ticks && Whole(t.queue)
  {
    PotentialStep(kind, s, step);
    hide Potential, Cap;
    OneTickMore(Cap(kind), |s.queue|, ticks);
  }

  /** The potential of any run stays below the cap times the time since its first tick. */
  lemma {:induction false} PotentialBound(kind: Kind, run: seq<Items>, steps: seq<ItemStep>)
    requires ItemRun(kind, run, steps) && |steps| > 0
    ensures Potential(kind, run[|steps|]) <= Cap(kind) * TICK * (|steps| - 1)
    ensures Whole(run[|steps|].queue)
    decreases |steps|
  {
    hide Potential, Cap, ItemNext, Start, Whole, QueueAfter, Replaced;
    var n := |steps|;
    if n == 1 {
      PotentialStart(kind, run[0]);
      FirstPotential(kind, run[0], steps[0], run[1]);
    } else {
      PotentialBound(kind, run[..n], steps[..n - 1]);
      QueueIsHistory(kind, run[..n], steps[..n - 1]);
      QueueWithinCap(kind, run[n - 1]);
      PotentialGrows(kind, run[n - 1], steps[n - 1], run[n], n - 1);
    }
  }

  lemma QueueWithinCap(kind: Kind, s: Items)
    requires ItemsOk(kind, s)
    ensures |s.queue| <= Cap(kind)
  {
  }

  /** The first tick finds nothing in the queue. */
  lemma FirstPotential(kind: Kind, s: Items, step: ItemStep, t: Items)
    requires ItemNext(kind, s, step, t) && Whole(s.queue) && |s.queue| == 0 && Potential(kind, s) == 0
    ensures Potential(kind, t) == 0 && Whole(t.queue) && Cap(kind) * TICK * 0 == 0
  {
    PotentialStep(kind, s, step);
    hide Potential;
  }

  lemma {:induction false} WaitedNonNegative(kind: Kind, queue: seq<int>)
    requires forall i :: 0 <= i < |queue| ==> queue[i] <= RespawnTime(kind)
    ensures Waited(kind, queue) >= 0
  {
    if queue != [] {
      WaitedNonNegative(kind, queue[..|queue| - 1]);
    }
  }

  /** A game of at most 3600 ticks gives out at most 93 booster ids and 56 stone ids. */
  lemma SpawnBound(kind: Kind, run: seq<Items>, steps: seq<ItemStep>)
    requires ItemRun(kind, run, steps) && |steps| <= 3600
    ensures run[|steps|].nextID <= if kind.Boost? then 93 else 56
  {
    if |steps| > 0 {
      PotentialBound(kind, run, steps);
      QueueIsHistory(kind, run, steps);
      WaitedNonNegative(kind, run[|steps|].queue);
      if kind.Boost? {
        assert 8000 * (run[|steps|].nextID - 4) <= 200 * (|steps| - 1);
      } else {
        assert 10000 * (run[|steps|].nextID - 3) <= 150 * (|steps| - 1);
      }
    }
  }
}
