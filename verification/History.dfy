/**
 Whole runs of the arrest and rescue mechanics: every gauge is a function of who was near whom and
 when, and from that follow the exact tick of each arrest and release and the gaps between them.
 */
module History {
  import opened GameTypes
  import opened TickSpec

  /** A player as a reset or a join leaves it: free, with empty gauges. */
  predicate Fresh(c: Core) {
    c.state == Free && c.arrestGauge == 0 && c.rescueGauge == 0 && c.invincibleTimer == 0
  }

  /** Player id is on b as on a, but for its position and its role. */
  predicate Kept(a: World, b: World, id: Id) {
    id in a && id in b && b[id] == a[id].(x := b[id].x, y := b[id].y, role := b[id].role)
  }

  /** The worlds of tick k after the invincibility timers, after the arrests, and at its end. */
  function AwakeAt(pres: seq<World>, k: nat): (w: World)
    requires k < |pres|
    ensures w.Keys == pres[k].Keys
  {
    AwakeAll(pres[k])
  }

  function ChasedAt(pres: seq<World>, k: nat): (w: World)
    requires k < |pres|
    ensures w.Keys == pres[k].Keys
  {
    ArrestPhase(AwakeAt(pres, k))
  }

  function After(pres: seq<World>, k: nat): (w: World)
    requires k < |pres|
    ensures w.Keys == pres[k].Keys
  {
    CoreTick(pres[k])
  }

  /** Player id came to tick k from tick k - 1. */
  predicate Carried(pres: seq<World>, k: nat, id: Id): (carried: bool)
    requires k < |pres|
    ensures carried ==> k > 0 && id in pres[k - 1] && id in pres[k]
  {
    k > 0 && Kept(After(pres, k - 1), pres[k], id)
  }

  predicate Reached(pres: seq<World>, k: nat, id: Id)
    requires k < |pres| && id in pres[k]
  {
    Fresh(pres[k][id]) || Carried(pres, k, id)
  }

  /**
   pres lists the worlds the ticks of a game start from. Between two ticks players may move, change
   role, join and leave; nothing else touches their gauges.
   */
  ghost predicate Run(pres: seq<World>) {
    forall k, id :: 0 <= k < |pres| && id in pres[k] ==> Reached(pres, k, id)
  }

  predicate ReleasedAt(pres: seq<World>, k: nat, id: Id)
    requires k < |pres|
  {
    var w := ChasedAt(pres, k);
    id in w && w[id].JailedThief() && RescueFires(w)
  }

  predicate ArrestedAt(pres: seq<World>, k: nat, id: Id)
    requires k < |pres|
  {
    && id in pres[k]
    && pres[k][id].state != Arrested && ChasedAt(pres, k)[id].state == Arrested
  }

  // ----- Arrests -----

  /** Cops in range, summed over the ticks id spent as a free thief since it joined or was released. */
  function CopSum(pres: seq<World>, k: nat, id: Id): nat
    requires k < |pres|
    decreases k, 1
  {
    CopSumBefore(pres, k, id) + |Chasers(AwakeAt(pres, k), id)|
  }

  /** The sum as tick k finds it. */
  function CopSumBefore(pres: seq<World>, k: nat, id: Id): nat
    requires k < |pres|
    decreases k, 0
  {
    if Carried(pres, k, id) && !ReleasedAt(pres, k - 1, id) then CopSum(pres, k - 1, id) else 0
  }

  /** The gauge and state that a sum of cops leaves. */
  predicate HasSum(c: Core, sum: nat) {
    c.arrestGauge == sum % ARREST_TICKS * TICK && (c.state == Arrested <==> sum >= ARREST_TICKS)
  }

  /** One arrest phase adds the cops in range to the sum of a free thief, and to nobody else's. */
  lemma ArrestPhaseAdds(w: World, id: Id, sum: nat)
    requires id in w && HasSum(w[id], sum)
    ensures HasSum(ArrestPhase(w)[id], sum + |Chasers(w, id)|)
  {
    if w[id].FreeThief() {
      ArrestStepsClosed(w[id], sum, |Chasers(w, id)|);
    } else {
      assert Chasers(w, id) == {};
    }
  }

  lemma RescueKeepsSum(c: Core, fires: bool, sum: nat)
    requires HasSum(c, sum)
    ensures HasSum(AfterRescue(c, fires), if c.JailedThief() && fires then 0 else sum)
  {
  }

  lemma SumCarries(pres: seq<World>, k: nat, id: Id)
    requires 0 < k < |pres| && Carried(pres, k, id)
    requires HasSum(ChasedAt(pres, k - 1)[id], CopSum(pres, k - 1, id))
    ensures HasSum(pres[k][id], CopSumBefore(pres, k, id))
  {
    var w := ChasedAt(pres, k - 1);
    RescueKeepsSum(w[id], RescueFires(w), CopSum(pres, k - 1, id));
    assert After(pres, k - 1)[id] == AfterRescue(w[id], RescueFires(w));
  }

  lemma AwakeKeepsSum(c: Core, sum: nat)
    requires HasSum(c, sum)
    ensures HasSum(Awake(c), sum)
  {
  }

  lemma SumGrows(pres: seq<World>, k: nat, id: Id)
    requires k < |pres| && id in pres[k] && HasSum(pres[k][id], CopSumBefore(pres, k, id))
    ensures HasSum(ChasedAt(pres, k)[id], CopSum(pres, k, id))
  {
    var sum, w := CopSumBefore(pres, k, id), AwakeAt(pres, k);
    assert HasSum(w[id], sum) by {
      AwakeKeepsSum(pres[k][id], sum);
    }
    ArrestPhaseAdds(w, id, sum);
    assert ChasedAt(pres, k) == ArrestPhase(w);
    assert CopSum(pres, k, id) == sum + |Chasers(w, id)|;
  }

  /**
   The arrest gauge of every player is one tick for each cop in range in each of its free ticks as a
   thief since it joined or was last released; it is arrested exactly while that sum is 30 or more.
   */
  lemma {:induction false} ArrestIsHistory(pres: seq<World>, k: nat, id: Id)
    requires Run(pres) && k < |pres| && id in pres[k]
    ensures HasSum(ChasedAt(pres, k)[id], CopSum(pres, k, id))
    ensures HasSum(pres[k][id], CopSumBefore(pres, k, id))
  {
    assert Reached(pres, k, id);
    if Carried(pres, k, id) {
      ArrestIsHistory(pres, k - 1, id);
      SumCarries(pres, k, id);
    }
    SumGrows(pres, k, id);
  }

  /** A thief is arrested exactly on the tick its sum of cops comes to 30. */
  lemma ArrestTick(pres: seq<World>, k: nat, id: Id)
    requires Run(pres) && k < |pres| && id in pres[k]
    ensures ArrestedAt(pres, k, id) <==> CopSumBefore(pres, k, id) < ARREST_TICKS <= CopSum(pres, k, id)
  {
    ArrestIsHistory(pres, k, id);
  }

  // ----- Rescues -----

  /** On tick k the rescue mechanics finds id free at the jail. */
  predicate AtJail(pres: seq<World>, k: nat, id: Id): (there: bool)
    requires k < |pres|
    ensures there ==> id in pres[k]
  {
    id in pres[k] && Rescuer(ChasedAt(pres, k)[id])
  }

  /** Ticks at the jail that fill a rescue gauge. */
  const RESCUE_TICKS: nat := 40

  /**
   Ticks id has spent as a free thief at the jail without a break, as counted at the end of tick k.
   The count starts over when it completes a rescue, and stands still while id cannot move it: as a
   police player, in jail or invincible.
   */
  function Streak(pres: seq<World>, k: nat, id: Id): nat
    requires k < |pres| && id in pres[k]
    decreases k, 1
  {
    var w := ChasedAt(pres, k);
    NextStreak(w[id], RescueFires(w), StreakBefore(pres, k, id))
  }

  function NextStreak(c: Core, fires: bool, before: nat): nat {
    if c.JailedThief() && fires then 0
    else if Rescuer(c) then (if before + 1 < RESCUE_TICKS then before + 1 else 0)
    else if c.FreeThief() then 0
    else before
  }

  /** The streak as tick k finds it. */
  function StreakBefore(pres: seq<World>, k: nat, id: Id): nat
    requires k < |pres|
    decreases k, 0
  {
    if Carried(pres, k, id) then Streak(pres, k - 1, id) else 0
  }

  predicate HasStreak(c: Core, streak: nat) {
    c.rescueGauge == TICK * streak && streak < RESCUE_TICKS
  }

  lemma StreakStep(c: Core, fires: bool, before: nat)
    requires HasStreak(c, before)
    ensures HasStreak(AfterRescue(c, fires), NextStreak(c, fires, before))
  {
    hide InJailRange;
  }

  /** The arrest phase, player by player. */
  lemma ChasedFrom(pres: seq<World>, k: nat, id: Id)
    requires k < |pres| && id in pres[k]
    ensures var a, c := Awake(pres[k][id]), ChasedAt(pres, k)[id];
            && c == a.(state := c.state, arrestGauge := c.arrestGauge)
            && (c.state == a.state || c.state == Arrested)
            && c == ArrestSteps(a, |Chasers(AwakeAt(pres, k), id)|)
            && (!a.FreeThief() ==> c == a && |Chasers(AwakeAt(pres, k), id)| == 0)
  {
    ArrestStepsKeepRest(AwakeAt(pres, k)[id], |Chasers(AwakeAt(pres, k), id)|);
    if !Awake(pres[k][id]).FreeThief() {
      assert Chasers(AwakeAt(pres, k), id) == {};
    }
  }

  /** The rescue phase, player by player. */
  lemma AfterFrom(pres: seq<World>, k: nat, id: Id)
    requires k < |pres| && id in pres[k]
    ensures After(pres, k)[id] == AfterRescue(ChasedAt(pres, k)[id], RescueFires(ChasedAt(pres, k)))
    ensures ReleasedAt(pres, k, id) <==> ChasedAt(pres, k)[id].JailedThief() && RescueFires(ChasedAt(pres, k))
  {
  }

  /** The rescue gauge of every player is one tick for each tick of its streak. */
  lemma {:induction false} RescueIsHistory(pres: seq<World>, k: nat, id: Id)
    requires Run(pres) && k < |pres| && id in pres[k]
    ensures HasStreak(ChasedAt(pres, k)[id], StreakBefore(pres, k, id))
    ensures HasStreak(After(pres, k)[id], Streak(pres, k, id))
  {
    hide AwakeAt, ChasedAt, After, RescueFires, NextStreak, AfterRescue;
    assert Reached(pres, k, id);
    if Carried(pres, k, id) {
      RescueIsHistory(pres, k - 1, id);
    }
    ChasedFrom(pres, k, id);
    AfterFrom(pres, k, id);
    StreakStep(ChasedAt(pres, k)[id], RescueFires(ChasedAt(pres, k)), StreakBefore(pres, k, id));
  }

  lemma {:induction false} ArrestStepsKeepRest(c: Core, n: nat)
    ensures var d := ArrestSteps(c, n);
            d == c.(state := d.state, arrestGauge := d.arrestGauge)
    ensures ArrestSteps(c, n).state == c.state || ArrestSteps(c, n).state == Arrested
  {
    if n > 0 {
      ArrestStepsKeepRest(c, n - 1);
    }
  }

  /** A mass release fires exactly on the ticks where some free thief's streak comes to 40. */
  lemma ReleaseTick(pres: seq<World>, k: nat)
    requires Run(pres) && k < |pres|
    ensures RescueFires(ChasedAt(pres, k)) <==>
            exists id :: id in pres[k] && AtJail(pres, k, id) && StreakBefore(pres, k, id) + 1 == RESCUE_TICKS
  {
    forall id | id in pres[k]
      ensures Completes(ChasedAt(pres, k)[id]) <==>
              AtJail(pres, k, id) && StreakBefore(pres, k, id) + 1 == RESCUE_TICKS
    {
      RescueIsHistory(pres, k, id);
    }
    var w := ChasedAt(pres, k);
    if RescueFires(w) {
      var id :| id in w && Completes(w[id]);
      assert id in pres[k];
    }
  }

  lemma {:induction false} InvincibleHasNoStreak(pres: seq<World>, k: nat, id: Id)
    requires Run(pres) && k < |pres| && id in pres[k]
    ensures After(pres, k)[id].state == Invincible ==> Streak(pres, k, id) == 0
    ensures ChasedAt(pres, k)[id].state == Invincible ==> StreakBefore(pres, k, id) == 0
  {
    hide AwakeAt, ChasedAt, After, RescueFires, InJailRange;
    assert Reached(pres, k, id);
    if Carried(pres, k, id) {
      InvincibleHasNoStreak(pres, k - 1, id);
    }
    ChasedFrom(pres, k, id);
    AfterFrom(pres, k, id);
  }

  /** A thief that is free at the jail was, one tick before, there too or without a streak. */
  lemma FreeWasFree(c: Core, fires: bool, pre: Core, d: Core)
    requires var after := AfterRescue(c, fires);
             pre == after.(x := pre.x, y := pre.y, role := pre.role)
    requires d == Awake(pre).(state := d.state, arrestGauge := d.arrestGauge)
    requires d.state == Awake(pre).state || d.state == Arrested
    requires Rescuer(d) && c.role == Thief
    ensures c.FreeThief() || c.state == Invincible || (c.JailedThief() && fires)
  {
  }

  /** A running streak was one tick shorter one tick before, and the thief was at the jail then. */
  lemma StreakShrinks(pres: seq<World>, k: nat, id: Id)
    requires Run(pres) && 0 < k < |pres| && Carried(pres, k, id)
    requires AtJail(pres, k, id) && pres[k - 1][id].role == Thief && StreakBefore(pres, k, id) > 0
    ensures AtJail(pres, k - 1, id) && StreakBefore(pres, k - 1, id) + 1 == StreakBefore(pres, k, id)
  {
    hide AwakeAt, ChasedAt, After, AfterRescue, InJailRange, RescueFires;
    ChasedFrom(pres, k - 1, id);
    AfterFrom(pres, k - 1, id);
    ChasedFrom(pres, k, id);
    InvincibleHasNoStreak(pres, k - 1, id);
    var w := ChasedAt(pres, k - 1);
    FreeWasFree(w[id], RescueFires(w), pres[k][id], ChasedAt(pres, k)[id]);
  }

  lemma {:induction false} ThievesStreak(pres: seq<World>, k: nat, id: Id, m: nat)
    requires Run(pres) && k < |pres| && id in pres[k]
    requires AtJail(pres, k, id) && m <= StreakBefore(pres, k, id)
    requires ThiefBefore(pres, k, id, m)
    ensures InARow(pres, k, id, m)
    decreases k
  {
    hide AwakeAt, ChasedAt, After, ReleasedAt, AtJail, Streak;
    if m > 0 {
      assert Carried(pres, k, id) && id in pres[k - 1];
      StreakShrinks(pres, k, id);
      ThievesStreak(pres, k - 1, id, m - 1);
    }
  }

  lemma ThiefAtJail(pres: seq<World>, k: nat, id: Id)
    requires k < |pres| && AtJail(pres, k, id)
    ensures pres[k][id].role == Thief
  {
    ChasedFrom(pres, k, id);
  }

  /** id was a thief on each of the m ticks before tick k. */
  predicate ThiefBefore(pres: seq<World>, k: nat, id: Id, m: nat)
    requires k < |pres|
  {
    forall j :: 0 <= j < k && k <= j + m && id in pres[j] ==> pres[j][id].role == Thief
  }

  /** id was at the jail on tick k and on each of the m ticks before it. */
  predicate InARow(pres: seq<World>, k: nat, id: Id, m: nat)
    requires k < |pres|
  {
    m <= k && forall j :: k - m <= j <= k ==> AtJail(pres, j, id)
  }

  /**
   A streak of m ticks before tick k means m ticks in a row at the jail if and only if the player was a
   thief on each of them.
   */
  lemma StreakIsUnbroken(pres: seq<World>, k: nat, id: Id, m: nat)
    requires Run(pres) && k < |pres| && id in pres[k]
    requires AtJail(pres, k, id) && m <= StreakBefore(pres, k, id)
    ensures InARow(pres, k, id, m) <==> ThiefBefore(pres, k, id, m)
  {
    hide AtJail, StreakBefore, Run;
    if ThiefBefore(pres, k, id, m) {
      ThievesStreak(pres, k, id, m);
    }
    if InARow(pres, k, id, m) {
      forall j | k - m <= j <= k
        ensures id in pres[j] && pres[j][id].role == Thief
      {
        assert AtJail(pres, j, id);
        ThiefAtJail(pres, j, id);
      }
    }
  }

  /** Behind every mass release stands a player with 40 ticks in a row there, exactly if a thief throughout. */
  lemma ReleaseNeedsFortyTicks(pres: seq<World>, k: nat)
    requires Run(pres) && k < |pres| && RescueFires(ChasedAt(pres, k))
    ensures exists id :: AtJail(pres, k, id) && StreakBefore(pres, k, id) + 1 == RESCUE_TICKS &&
              (InARow(pres, k, id, RESCUE_TICKS - 1) <==> ThiefBefore(pres, k, id, RESCUE_TICKS - 1))
  {
    hide AwakeAt, ChasedAt, Run, StreakBefore, AtJail, InARow, ThiefBefore;
    ReleaseTick(pres, k);
    var id :| id in pres[k] && AtJail(pres, k, id) && StreakBefore(pres, k, id) + 1 == RESCUE_TICKS;
    StreakIsUnbroken(pres, k, id, RESCUE_TICKS - 1);
  }

  /**
   The streak is not continuous for everyone: a tick away from the jail clears it if and only if the
   player is a free thief or is being released. A thief that switches to police for a tick keeps it.
   */
  lemma LapseClears(pres: seq<World>, k: nat, id: Id)
    requires Run(pres) && k < |pres| && id in pres[k] && !AtJail(pres, k, id) && StreakBefore(pres, k, id) > 0
    ensures After(pres, k)[id].rescueGauge == 0 <==>
            ChasedAt(pres, k)[id].FreeThief() || ReleasedAt(pres, k, id)
  {
    hide AwakeAt, RescueFires, InJailRange;
    RescueIsHistory(pres, k, id);
    AfterFrom(pres, k, id);
  }

  /** The streak grows on every tick at the jail that completes nothing. */
  lemma StreakGrows(pres: seq<World>, k: nat, id: Id)
    requires Run(pres) && k + 1 < |pres| && id in pres[k]
    requires AtJail(pres, k, id) && !RescueFires(ChasedAt(pres, k))
    requires Carried(pres, k + 1, id)
    ensures StreakBefore(pres, k + 1, id) == StreakBefore(pres, k, id) + 1
  {
    var w := ChasedAt(pres, k);
    assert !Completes(w[id]);
    RescueIsHistory(pres, k, id);
    AfterFrom(pres, k, id);
  }

  lemma {:induction false} StreakForcesRelease(pres: seq<World>, from: nat, k: nat, id: Id)
    requires Run(pres) && from <= k < |pres|
    requires forall j :: from <= j <= k ==> AtJail(pres, j, id)
    requires forall j :: from < j <= k ==> Carried(pres, j, id)
    ensures k - from <= StreakBefore(pres, k, id) || exists j :: from <= j <= k && RescueFires(ChasedAt(pres, j))
    decreases k
  {
    hide AwakeAt, ChasedAt, Carried, RescueFires, AtJail, StreakBefore, Run;
    if from < k {
      StreakForcesRelease(pres, from, k - 1, id);
      assert AtJail(pres, k - 1, id) && Carried(pres, k, id);
      if !RescueFires(ChasedAt(pres, k - 1)) {
        StreakGrows(pres, k - 1, id);
      }
    }
  }

  /** 40 ticks in a row at the jail force a mass release within them. */
  lemma FortyTicksRelease(pres: seq<World>, from: nat, id: Id)
    requires Run(pres) && from + 39 < |pres|
    requires forall j :: from <= j <= from + 39 ==> AtJail(pres, j, id)
    requires forall j :: from < j <= from + 39 ==> Carried(pres, j, id)
    ensures exists j :: from <= j <= from + 39 && RescueFires(ChasedAt(pres, j))
  {
    StreakForcesRelease(pres, from, from + 39, id);
    ReleaseTick(pres, from + 39);
    RescueIsHistory(pres, from + 39, id);
  }

  // ----- Gaps between arrests -----

  ghost predicate PoliceCapped(pres: seq<World>, cap: nat) {
    forall k :: 0 <= k < |pres| ==> |PoliceIn(pres[k])| <= cap
  }

  lemma ChasersCapped(pres: seq<World>, k: nat, id: Id, cap: nat)
    requires k < |pres| && PoliceCapped(pres, cap)
    ensures |Chasers(AwakeAt(pres, k), id)| <= cap
  {
    SubsetSize(Chasers(AwakeAt(pres, k), id), PoliceIn(pres[k]));
  }

  /** Every tick adds at most two. */
  lemma {:induction false} SumGrowsSlowly(pres: seq<World>, from: nat, k: nat, id: Id)
    requires from <= k < |pres| && PoliceCapped(pres, MAX_POLICE)
    ensures CopSum(pres, k, id) <= CopSumBefore(pres, from, id) + 2 * (k - from + 1)
    decreases k
  {
    hide AwakeAt, Carried, ReleasedAt;
    ChasersCapped(pres, k, id, MAX_POLICE);
    assert CopSum(pres, k, id) <= CopSumBefore(pres, k, id) + 2;
    if from < k {
      SumGrowsSlowly(pres, from, k - 1, id);
    }
  }

  /**
   With at most two police an arrest takes as long as two cops need to fill what is missing from the
   count: 15 ticks from an empty one, as a join, a reset or a release leaves it, and less from a gauge
   that an earlier game has left.
   */
  lemma FifteenTicks(pres: seq<World>, from: nat, k: nat, id: Id)
    requires Run(pres) && from <= k < |pres| && id in pres[k] && PoliceCapped(pres, MAX_POLICE)
    requires ArrestedAt(pres, k, id)
    ensures CopSumBefore(pres, from, id) + 2 * (k - from + 1) >= ARREST_TICKS
    ensures CopSumBefore(pres, from, id) == 0 ==> k >= from + 14
    ensures id in pres[from] && pres[from][id].state != Arrested ==>
              pres[from][id].arrestGauge + 2 * TICK * (k - from + 1) >= ARREST_DURATION
  {
    hide AwakeAt, ChasedAt, Carried, ReleasedAt, ArrestedAt, CopSum, CopSumBefore, PoliceCapped, Run;
    ArrestTick(pres, k, id);
    SumGrowsSlowly(pres, from, k, id);
    if id in pres[from] {
      ArrestIsHistory(pres, from, id);
    }
  }

  /** One tick of invincibility, or the release that starts it. */
  lemma InvincibleStep(pres: seq<World>, k: nat, id: Id)
    requires k + 1 < |pres| && id in pres[k] && Carried(pres, k + 1, id)
    requires ReleasedAt(pres, k, id) || (pres[k][id].state == Invincible && pres[k][id].invincibleTimer > TICK)
    ensures id in pres[k + 1] && pres[k + 1][id].state == Invincible
    ensures pres[k + 1][id].invincibleTimer ==
            if ReleasedAt(pres, k, id) then INVINCIBLE_TIME else pres[k][id].invincibleTimer - TICK
    ensures CopSumBefore(pres, k + 1, id) == if ReleasedAt(pres, k, id) then 0 else CopSumBefore(pres, k, id)
  {
    ChasedFrom(pres, k, id);
    AfterFrom(pres, k, id);
  }

  /** For 60 ticks after a release the thief is invincible, with the timer running down. */
  lemma {:induction false} InvincibleAfterRelease(pres: seq<World>, r: nat, k: nat, id: Id)
    requires r < k < |pres| && k <= r + 60 && ReleasedAt(pres, r, id)
    requires forall j :: r < j <= k ==> Carried(pres, j, id)
    ensures id in pres[k] && pres[k][id].state == Invincible
    ensures pres[k][id].invincibleTimer == INVINCIBLE_TIME - TICK * (k - r - 1)
    ensures CopSumBefore(pres, k, id) == 0
    decreases k
  {
    hide AwakeAt, ChasedAt, ReleasedAt, CopSumBefore, Carried;
    if r + 1 < k {
      InvincibleAfterRelease(pres, r, k - 1, id);
      ChasedFrom(pres, k - 1, id);
      AfterFrom(pres, k - 1, id);
    }
    assert Carried(pres, k, id);
    InvincibleStep(pres, k - 1, id);
  }

  lemma CarriedRearrest(pres: seq<World>, r: nat, k: nat, id: Id)
    requires Run(pres) && r < k < |pres| && PoliceCapped(pres, MAX_POLICE)
    requires ReleasedAt(pres, r, id) && ArrestedAt(pres, k, id)
    requires forall j :: r < j <= k ==> Carried(pres, j, id)
    ensures k >= r + 74
  {
    hide AwakeAt, ChasedAt, Carried, ReleasedAt;
    if k < r + 60 {
      InvincibleAfterRelease(pres, r, k, id);
      ChasedFrom(pres, k, id);
    } else {
      InvincibleAfterRelease(pres, r, r + 60, id);
      FifteenTicks(pres, r + 60, k, id);
    }
  }

  /** On tick j the player starts over: it has just joined, or a return to the lobby has reset it. */
  predicate StartsOver(pres: seq<World>, j: nat, id: Id)
    requires j < |pres|
  {
    id in pres[j] && Fresh(pres[j][id]) && !Carried(pres, j, id)
  }

  /** A player that is there on tick k but was not carried all the way from tick r has started over since. */
  lemma {:induction false} LastStart(pres: seq<World>, r: nat, k: nat, id: Id) returns (j: nat)
    requires Run(pres) && r < k < |pres| && id in pres[k]
    requires exists i :: r < i <= k && !Carried(pres, i, id)
    ensures r < j <= k && StartsOver(pres, j, id)
    decreases k
  {
    hide AwakeAt, After, Kept;
    if Carried(pres, k, id) {
      j := LastStart(pres, r, k - 1, id);
    } else {
      assert Reached(pres, k, id);
      j := k;
    }
  }

  /**
   With at most two police, a thief released on tick r is arrested again on tick r + 74 at the earliest,
   unless it has started over in between; and then 14 ticks after that at the earliest.
   */
  lemma SeventyFourTicks(pres: seq<World>, r: nat, k: nat, id: Id)
    requires Run(pres) && r < k < |pres| && PoliceCapped(pres, MAX_POLICE)
    requires ReleasedAt(pres, r, id) && ArrestedAt(pres, k, id)
    ensures k >= r + 74 || exists j :: r < j <= k - 14 && StartsOver(pres, j, id)
  {
    hide Run, PoliceCapped, Carried, ReleasedAt, ChasedAt, AwakeAt;
    if forall j :: r < j <= k ==> Carried(pres, j, id) {
      CarriedRearrest(pres, r, k, id);
    } else {
      var j := LastStart(pres, r, k, id);
      FifteenTicks(pres, j, k, id);
    }
  }

  /** The bound is sharp: with two cops in range on every tick the arrest comes on the 15th. */
  lemma {:induction false} TwoCopsSum(pres: seq<World>, k: nat, id: Id)
    requires k < |pres|
    requires forall j :: 0 <= j <= k ==> |Chasers(AwakeAt(pres, j), id)| == 2
    requires forall j :: 0 < j <= k ==> Carried(pres, j, id) && !ReleasedAt(pres, j - 1, id)
    ensures CopSum(pres, k, id) == 2 * (k + 1)
  {
    hide AwakeAt, Carried, ReleasedAt, Chasers;
    if k > 0 {
      TwoCopsSum(pres, k - 1, id);
    }
  }

  // ----- Well-formed players -----

  /** What every reachable player satisfies when at most cap police have been in the room. */
  predicate WellFormed(c: Core, cap: nat) {
    && (c.state == Invincible <==> 0 < c.invincibleTimer)
    && 0 <= c.invincibleTimer <= INVINCIBLE_TIME
    && 0 <= c.arrestGauge < ARREST_DURATION && c.arrestGauge % TICK == 0
    && 0 <= c.rescueGauge < RESCUE_DURATION && c.rescueGauge % TICK == 0
    && (c.state == Invincible ==> c.arrestGauge == 0 && c.rescueGauge == 0)
    && (c.state == Arrested ==> c.arrestGauge <= TICK * (cap - 1))
  }

  lemma ChaseKeepsWellFormed(c: Core, n: nat, cap: nat)
    requires WellFormed(c, cap) && n <= cap <= ARREST_TICKS && (c.FreeThief() || n == 0)
    ensures WellFormed(ArrestSteps(c, n), cap)
  {
    if c.FreeThief() {
      ArrestStepsClosed(c, c.arrestGauge / TICK, n);
    }
  }

  lemma AwakeKeepsWellFormed(c: Core, cap: nat)
    requires WellFormed(c, cap)
    ensures WellFormed(Awake(c), cap)
  {
  }

  lemma RescueKeepsWellFormed(c: Core, fires: bool, cap: nat)
    requires WellFormed(c, cap)
    ensures WellFormed(AfterRescue(c, fires), cap)
  {
  }

  lemma TickKeepsWellFormed(pres: seq<World>, k: nat, id: Id, cap: nat)
    requires k < |pres| && id in pres[k] && WellFormed(pres[k][id], cap)
    requires PoliceCapped(pres, cap) && cap <= ARREST_TICKS
    ensures WellFormed(After(pres, k)[id], cap)
  {
    hide AwakeAt, ChasedAt, After, RescueFires, Awake, AfterRescue, ArrestSteps, Chasers, WellFormed;
    var c, a, n := ChasedAt(pres, k)[id], Awake(pres[k][id]), |Chasers(AwakeAt(pres, k), id)|;
    ChasersCapped(pres, k, id, cap);
    ChasedFrom(pres, k, id);
    AfterFrom(pres, k, id);
    AwakeKeepsWellFormed(pres[k][id], cap);
    ChaseKeepsWellFormed(a, n, cap);
    RescueKeepsWellFormed(c, RescueFires(ChasedAt(pres, k)), cap);
  }

  lemma {:induction false} PlayersStayWellFormed(pres: seq<World>, k: nat, id: Id, cap: nat)
    requires Run(pres) && k < |pres| && id in pres[k]
    requires PoliceCapped(pres, cap) && cap <= ARREST_TICKS
    ensures WellFormed(pres[k][id], cap) && WellFormed(After(pres, k)[id], cap)
  {
    hide AwakeAt, ChasedAt, After;
    assert Reached(pres, k, id);
    if Carried(pres, k, id) {
      PlayersStayWellFormed(pres, k - 1, id, cap);
    }
    TickKeepsWellFormed(pres, k, id, cap);
  }

  // ----- The winner -----

  /** The tick that completes a rescue is never a police win. */
  lemma RescueTickIsNoPoliceWin(pres: seq<World>, k: nat)
    requires k < |pres| && RescueFires(ChasedAt(pres, k))
    ensures !PoliceWin(After(pres, k))
  {
    var w := ChasedAt(pres, k);
    var id :| id in w && Completes(w[id]);
    assert After(pres, k)[id] == AfterRescue(w[id], true);
  }
}
