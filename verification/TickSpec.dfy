/**
 The arrest and rescue mechanics of one tick, twice: as the game loop performs them, folding over
 lists whose order comes from map iteration, and as a function of the players alone, with no order.
 */
module TickSpec {
  import opened GameTypes

  // ----- Invincibility -----

  function Awake(c: Core): Core {
    if c.state != Invincible then c
    else if c.invincibleTimer - TICK <= 0 then c.(state := Free, invincibleTimer := 0)
    else c.(invincibleTimer := c.invincibleTimer - TICK)
  }

  function AwakeAll(w: World): (v: World)
    ensures v.Keys == w.Keys
  {
    map id | id in w :: Awake(w[id])
  }

  // ----- Arrest -----

  predicate InArrestRange(cop: Core, thief: Core) {
    Within(cop.x, cop.y, thief.x, thief.y, ARREST_RANGE)
  }

  /** cop and thief are one of the pairs the arrest mechanics acts on. */
  predicate Chases(w: World, cop: Id, thief: Id) {
    && cop in w && thief in w
    && w[cop].role == Police && w[thief].FreeThief()
    && InArrestRange(w[cop], w[thief])
  }

  function Chasers(w: World, thief: Id): set<Id> {
    set cop | cop in w && Chases(w, cop, thief)
  }

  /** What one pair does to its thief; the thief may already have been arrested by an earlier pair. */
  function ArrestStep(c: Core): Core {
    if c.arrestGauge + TICK >= ARREST_DURATION then c.(state := Arrested, arrestGauge := 0)
    else c.(arrestGauge := c.arrestGauge + TICK)
  }

  function ArrestSteps(c: Core, n: nat): Core {
    if n == 0 then c else ArrestStep(ArrestSteps(c, n - 1))
  }

  /** The pair loop, in the order of the list. */
  function RunPairs(pairs: seq<(Id, Id)>, w: World): (v: World)
    requires forall p :: p in pairs ==> p.1 in w
    ensures v.Keys == w.Keys
  {
    if pairs == [] then w
    else
      var u := RunPairs(pairs[..|pairs| - 1], w);
      var t := pairs[|pairs| - 1].1;
      u[t := ArrestStep(u[t])]
  }

  /** The same phase for every thief on its own. */
  function ArrestPhase(w: World): (v: World)
    ensures v.Keys == w.Keys
  {
    map id | id in w :: ArrestSteps(w[id], |Chasers(w, id)|)
  }

  /** pairs is the snapshot: every (police, free thief) pair in range, once each, in some order. */
  ghost predicate ListsChases(pairs: seq<(Id, Id)>, w: World) {
    && (forall i, j :: 0 <= i < j < |pairs| ==> pairs[i] != pairs[j])
    && (forall p :: p in pairs <==> Chases(w, p.0, p.1))
  }

  function Hits(pairs: seq<(Id, Id)>, thief: Id): nat {
    if pairs == [] then 0
    else Hits(pairs[..|pairs| - 1], thief) + (if pairs[|pairs| - 1].1 == thief then 1 else 0)
  }

  lemma {:induction false} PairLoopPerThief(pairs: seq<(Id, Id)>, w: World, id: Id)
    requires forall p :: p in pairs ==> p.1 in w
    requires id in w
    ensures RunPairs(pairs, w)[id] == ArrestSteps(w[id], Hits(pairs, id))
  {
    if pairs != [] {
      PairLoopPerThief(pairs[..|pairs| - 1], w, id);
    }
  }

  lemma {:induction false} HitsCountsCops(pairs: seq<(Id, Id)>, thief: Id)
    requires forall i, j :: 0 <= i < j < |pairs| ==> pairs[i] != pairs[j]
    ensures Hits(pairs, thief) == |set p | p in pairs && p.1 == thief|
  {
    if pairs != [] {
      var front, last := pairs[..|pairs| - 1], pairs[|pairs| - 1];
      HitsCountsCops(front, thief);
      assert pairs == front + [last];
      var a := set p | p in front && p.1 == thief;
      var b := set p | p in pairs && p.1 == thief;
      if last.1 == thief {
        assert b == a + {last};
        assert last !in front;
      } else {
        assert b == a;
      }
    }
  }

  /** Two sets in one-to-one correspondence through f have the same size. */
  lemma {:induction false} SameSize<A, B>(a: set<A>, b: set<B>, f: A -> B)
    requires forall x, y :: x in a && y in a && f(x) == f(y) ==> x == y
    requires forall x :: x in a ==> f(x) in b
    requires forall z :: z in b ==> exists x :: x in a && f(x) == z
    ensures |a| == |b|
  {
    if a == {} {
      assert b == {};
    } else {
      var x :| x in a;
      SameSize(a - {x}, b - {f(x)}, f);
    }
  }

  /**
   The pair loop over the stale snapshot gives every thief, independently of all others and of the
   order of the list, one arrest step per cop in range.
   */
  lemma PairLoopOrderFree(pairs: seq<(Id, Id)>, w: World)
    requires ListsChases(pairs, w)
    ensures RunPairs(pairs, w) == ArrestPhase(w)
  {
    forall id | id in w
      ensures RunPairs(pairs, w)[id] == ArrestPhase(w)[id]
    {
      PairLoopPerThief(pairs, w, id);
      HitsCountsCops(pairs, id);
      var a := set p | p in pairs && p.1 == id;
      forall cop | cop in Chasers(w, id)
        ensures exists p :: p in a && p.0 == cop
      {
        assert (cop, id) in a;
      }
      SameSize(a, Chasers(w, id), (p: (Id, Id)) => p.0);
    }
  }

  /** Ticks of chase that fill an arrest gauge. */
  const ARREST_TICKS: nat := 30

  /**
   n arrest steps in closed form. The gauge wraps: pairs that come after the arresting one keep
   adding, so an arrested thief may be left with a gauge above zero.
   */
  lemma {:induction false} ArrestStepsClosed(c: Core, m: nat, n: nat)
    requires c.state == Free && m < ARREST_TICKS && c.arrestGauge == m * TICK
    ensures ArrestSteps(c, n) == c.(state := if m + n < ARREST_TICKS then Free else Arrested,
                                    arrestGauge := (m + n) % ARREST_TICKS * TICK)
  {
    if n > 0 {
      ArrestStepsClosed(c, m, n - 1);
      var g := (m + n - 1) % ARREST_TICKS;
      assert (m + n) % ARREST_TICKS == if g + 1 == ARREST_TICKS then 0 else g + 1;
    }
  }

  // ----- Rescue -----

  predicate InJailRange(c: Core) {
    Within(c.x, c.y, JAIL_X, JAIL_Y, JAIL_RANGE)
  }

  predicate Rescuer(c: Core) {
    c.FreeThief() && InJailRange(c)
  }

  function Rescuers(w: World): set<Id> {
    set id | id in w && Rescuer(w[id])
  }

  /** This tick fills the rescue gauge of c. */
  predicate Completes(c: Core) {
    Rescuer(c) && c.rescueGauge + TICK >= RESCUE_DURATION
  }

  function Release(c: Core): Core {
    c.(state := Invincible, invincibleTimer := INVINCIBLE_TIME, arrestGauge := 0, rescueGauge := 0)
  }

  function ReleaseAll(w: World): (v: World)
    ensures v.Keys == w.Keys
  {
    map id | id in w :: if w[id].JailedThief() then Release(w[id]) else w[id]
  }

  /** What the rescue loop does for one candidate, mass release included. */
  function RescueStep(w: World, id: Id): (v: World)
    requires id in w
    ensures v.Keys == w.Keys
  {
    var u := w[id := w[id].(rescueGauge := w[id].rescueGauge + TICK)];
    if u[id].rescueGauge >= RESCUE_DURATION then
      var r := ReleaseAll(u);
      r[id := r[id].(rescueGauge := 0)]
    else u
  }

  /** The candidate loop, in the order of the list. */
  function RunRescuers(ids: seq<Id>, w: World): (v: World)
    requires forall id :: id in ids ==> id in w
    ensures v.Keys == w.Keys
  {
    if ids == [] then w
    else RescueStep(RunRescuers(ids[..|ids| - 1], w), ids[|ids| - 1])
  }

  /** The final pass: a free thief that was no candidate this tick loses its rescue gauge. */
  function ResetStragglers(w: World, rescuing: set<Id>): (v: World)
    ensures v.Keys == w.Keys
  {
    map id | id in w ::
      if w[id].FreeThief() && id !in rescuing then w[id].(rescueGauge := 0) else w[id]
  }

  predicate RescueFires(w: World) {
    exists id :: id in w && Completes(w[id])
  }

  function AfterRescue(c: Core, fires: bool): Core {
    if c.FreeThief() then
      c.(rescueGauge := if InJailRange(c) && !Completes(c) then c.rescueGauge + TICK else 0)
    else if c.JailedThief() && fires then Release(c)
    else c
  }

  /** The same phase for every player on its own, given only whether some rescue completes. */
  function RescuePhase(w: World): (v: World)
    ensures v.Keys == w.Keys
  {
    map id | id in w :: AfterRescue(w[id], RescueFires(w))
  }

  /** Where the candidate loop stands after the prefix ids. */
  lemma {:induction false} RescueLoopPrefix(ids: seq<Id>, w: World, id: Id)
    requires forall i, j :: 0 <= i < j < |ids| ==> ids[i] != ids[j]
    requires forall k :: k in ids ==> k in w && Rescuer(w[k])
    requires id in w
    ensures RunRescuers(ids, w)[id] ==
      if id in ids then
        w[id].(rescueGauge := if Completes(w[id]) then 0 else w[id].rescueGauge + TICK)
      else if w[id].JailedThief() && exists k :: k in ids && Completes(w[k]) then Release(w[id])
      else w[id]
  {
    if ids != [] {
      var front, last := ids[..|ids| - 1], ids[|ids| - 1];
      assert last !in front;
      RescueLoopPrefix(front, w, id);
      RescueLoopPrefix(front, w, last);
      assert ids == front + [last];
    }
  }

  /** Whatever the order of the candidates, the rescue loop comes to the same players. */
  lemma RescueLoopOrderFree(ids: seq<Id>, w: World)
    requires Lists(ids, Rescuers(w))
    ensures ResetStragglers(RunRescuers(ids, w), Rescuers(w)) == RescuePhase(w)
  {
    assert (exists k :: k in ids && Completes(w[k])) <==> RescueFires(w) by {
      if RescueFires(w) {
        var k :| k in w && Completes(w[k]);
        assert k in Rescuers(w);
      }
    }
    forall id | id in w
      ensures ResetStragglers(RunRescuers(ids, w), Rescuers(w))[id] == RescuePhase(w)[id]
    {
      RescueLoopPrefix(ids, w, id);
    }
  }

  // ----- One tick -----

  /** Arrests, rescues and invincibility of one tick; no order and no items in sight. */
  function CoreTick(w: World): (v: World)
    ensures v.Keys == w.Keys
  {
    RescuePhase(ArrestPhase(AwakeAll(w)))
  }

  /** Police win: there is a thief and every thief is arrested. */
  predicate PoliceWin(w: World) {
    && (exists id :: id in w && w[id].role == Thief)
    && (forall id :: id in w && w[id].role == Thief ==> w[id].state == Arrested)
  }

  predicate ThiefWin(w: World, timerExpired: bool) {
    timerExpired && exists id :: id in w && w[id].role == Thief && w[id].state != Arrested
  }
}
