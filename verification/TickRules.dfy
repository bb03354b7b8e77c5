/** The rules of a tick in plain numbers: pixels, milliseconds, and who is how far from whom. */
module TickRules {
  import opened GameTypes
  import opened Geometry
  import opened TickSpec
  import History

  function Place(c: Core): Position {
    Position(c.x, c.y)
  }

  // ----- Who is in range -----

  /** A pair of the arrest mechanics: any police player and any free thief at most 100 px apart. */
  lemma ChaseRule(w: World, cop: Id, thief: Id, d: real)
    requires cop in w && thief in w && IsDistance(Place(w[cop]), Place(w[thief]), d)
    ensures Chases(w, cop, thief) <==>
            w[cop].role == Police && w[thief].role == Thief && w[thief].state == Free && d <= 100.0
  {
    WithinIsDistance(Place(w[cop]), Place(w[thief]), d, 100.0);
  }

  /** A candidate of the rescue mechanics: any free thief at most 150 px from (1620, 4608). */
  lemma RescuerRule(w: World, id: Id, d: real)
    requires id in w && IsDistance(Place(w[id]), Position(1620.0, 4608.0), d)
    ensures id in Rescuers(w) <==> w[id].role == Thief && w[id].state == Free && d <= 150.0
  {
    WithinIsDistance(Place(w[id]), Position(1620.0, 4608.0), d, 150.0);
  }

  /** Somebody completes a rescue exactly if a free thief there has 1950 ms or more on its gauge. */
  lemma FiringRule(w: World)
    ensures RescueFires(w) <==>
            exists id :: id in w && w[id].role == Thief && w[id].state == Free && w[id].rescueGauge >= 1950
                         && Near(Place(w[id]), Position(1620.0, 4608.0), 150.0)
  {
    if RescueFires(w) {
      var id :| id in w && Completes(w[id]);
      assert Near(Place(w[id]), Position(1620.0, 4608.0), 150.0);
    }
    if id :| id in w && w[id].role == Thief && w[id].state == Free && w[id].rescueGauge >= 1950
             && Near(Place(w[id]), Position(1620.0, 4608.0), 150.0) {
      assert Completes(w[id]);
    }
  }

  // ----- What the three phases do to a player -----

  /** Invincibility loses 50 ms a tick and ends at zero. */
  lemma WakeRule(w: World, id: Id)
    requires id in w
    ensures var c, d := w[id], AwakeAll(w)[id];
            if c.state == Invincible && c.invincibleTimer <= 50 then d == c.(state := Free, invincibleTimer := 0)
            else if c.state == Invincible then d == c.(invincibleTimer := c.invincibleTimer - 50)
            else d == c
  {
  }

  /** The cops at most 100 px from a place. */
  function CopsNear(w: World, at: Position): set<Id> {
    set cop | cop in w && w[cop].role == Police && Near(Place(w[cop]), at, 100.0)
  }

  /**
   Each cop within 100 px puts 50 ms on the gauge of a free thief, and at 1500 the thief is arrested, with
   what is left over on its gauge. Nobody else changes, however many cops are near.
   */
  lemma ArrestRule(w: World, id: Id)
    requires id in w && 0 <= w[id].arrestGauge < 1500 && w[id].arrestGauge % 50 == 0
    ensures var c, gauge := w[id], w[id].arrestGauge + 50 * |CopsNear(w, Place(w[id]))|;
            ArrestPhase(w)[id] ==
            if c.role == Thief && c.state == Free then
              c.(state := if gauge < 1500 then Free else Arrested, arrestGauge := gauge % 1500)
            else c
  {
    var c := w[id];
    if c.role == Thief && c.state == Free {
      assert Chasers(w, id) == CopsNear(w, Place(c));
      ArrestStepsClosed(c, c.arrestGauge / 50, |Chasers(w, id)|);
      Wraps(c.arrestGauge / 50 + |Chasers(w, id)|);
    } else {
      assert Chasers(w, id) == {};
    }
  }

  lemma Wraps(n: nat)
    ensures n % 30 * 50 == n * 50 % 1500
  {
    var q, r := n / 30, n % 30;
    assert n * 50 == 1500 * q + r * 50;
  }

  /**
   A free thief at the jail gains 50 ms, or completes the rescue from 1950 on and starts over; away from the
   jail it loses its gauge. When somebody completes, every arrested thief goes free at once: invincible for
   3000 ms, with empty gauges, where it stands. Nobody else changes.
   */
  lemma RescueRule(w: World, id: Id)
    requires id in w
    ensures var c, d := w[id], RescuePhase(w)[id];
            var there := Near(Place(c), Position(1620.0, 4608.0), 150.0);
            if c.role == Thief && c.state == Free then
              d == c.(rescueGauge := if there && c.rescueGauge < 1950 then c.rescueGauge + 50 else 0)
            else if c.role == Thief && c.state == Arrested && RescueFires(w) then
              d == Core(Thief, Invincible, c.x, c.y, 0, 0, 3000)
            else d == c
  {
    hide RescueFires;
  }

  lemma ArrestKeepsPlace(w: World, id: Id)
    requires id in w
    ensures Place(ArrestPhase(w)[id]) == Place(w[id]) && ArrestPhase(w)[id].role == w[id].role
  {
    History.ArrestStepsKeepRest(w[id], |Chasers(w, id)|);
    hide Chasers, ArrestSteps;
  }

  /** A tick moves nobody and changes no role. */
  lemma TickKeepsPlaces(w: World, id: Id)
    requires id in w
    ensures Place(CoreTick(w)[id]) == Place(w[id]) && CoreTick(w)[id].role == w[id].role
  {
    hide AwakeAll, ArrestPhase, RescuePhase, RescueFires, Near;
    WakeRule(w, id);
    ArrestKeepsPlace(AwakeAll(w), id);
    RescueRule(ArrestPhase(AwakeAll(w)), id);
  }

  // ----- Over a run -----

  /** Being at the jail on a tick: a thief, free once the tick's arrests are done, at most 150 px from (1620, 4608). */
  lemma AtJailRule(pres: seq<World>, k: nat, id: Id, d: real)
    requires k < |pres| && id in pres[k] && IsDistance(Place(pres[k][id]), Position(1620.0, 4608.0), d)
    ensures History.AtJail(pres, k, id) <==>
            pres[k][id].role == Thief && History.ChasedAt(pres, k)[id].state == Free && d <= 150.0
  {
    History.ChasedFrom(pres, k, id);
    hide History.ChasedAt;
    RescuerRule(History.ChasedAt(pres, k), id, d);
  }

  /** A thief that stays after its release is invincible on the next 59 ticks and free again on the 60th. */
  lemma SixtyTicksInvincible(pres: seq<World>, r: nat, k: nat, id: Id)
    requires r < k < |pres| && k <= r + 60 && History.ReleasedAt(pres, r, id)
    requires forall j :: r < j <= k ==> History.Carried(pres, j, id)
    ensures id in pres[k] && pres[k][id].state == Invincible && pres[k][id].invincibleTimer == 3000 - 50 * (k - r - 1)
    ensures History.AwakeAt(pres, k)[id].state == if k < r + 60 then Invincible else Free
  {
    hide History.ReleasedAt, History.Carried;
    History.InvincibleAfterRelease(pres, r, k, id);
  }
}
