/** Runs that show the history theorems sharp, and the streak at the jail not continuous. */
module Scenes {
  import opened GameTypes
  import opened TickSpec
  import opened History

  // ----- Two cops who never leave a thief, and a friend at the jail -----

  const COP: Core := Core(Police, Free, 100.0, 100.0, 0, 0, 0)

  /** The thief on tick k: chased, in jail from tick 15, released on tick 39, chased again from tick 99. */
  function Prey(k: nat): Core {
    if k <= 14 then Core(Thief, Free, 100.0, 100.0, 2 * TICK * k, 0, 0)
    else if k <= 39 then Core(Thief, Arrested, 100.0, 100.0, 0, 0, 0)
    else if k <= 99 then Core(Thief, Invincible, 100.0, 100.0, 0, 0, INVINCIBLE_TIME - TICK * (k - 40))
    else Core(Thief, Free, 100.0, 100.0, 2 * TICK * (k - 99), 0, 0)
  }

  function Friend(k: nat): Core {
    Core(Thief, Free, JAIL_X, JAIL_Y, 0, TICK * (k % RESCUE_TICKS), 0)
  }

  /** Four different players. */
  datatype Cast = Cast(a: Id, b: Id, prey: Id, friend: Id)
  {
    predicate Distinct() {
      a != b && a != prey && a != friend && b != prey && b != friend && prey != friend
    }
  }

  function Scene(q: Cast, k: nat): World {
    map[q.a := COP, q.b := COP, q.prey := Prey(k), q.friend := Friend(k)]
  }

  lemma Distances()
    ensures Within(100.0, 100.0, 100.0, 100.0, ARREST_RANGE)
    ensures !Within(100.0, 100.0, JAIL_X, JAIL_Y, ARREST_RANGE) && !Within(100.0, 100.0, JAIL_X, JAIL_Y, JAIL_RANGE)
    ensures Within(JAIL_X, JAIL_Y, JAIL_X, JAIL_Y, JAIL_RANGE)
  {
  }

  lemma SceneChasers(q: Cast, k: nat)
    requires q.Distinct()
    ensures var w := AwakeAll(Scene(q, k));
            && Chasers(w, q.prey) == (if Awake(Prey(k)).state == Free then {q.a, q.b} else {})
            && Chasers(w, q.friend) == {} && Chasers(w, q.a) == {} && Chasers(w, q.b) == {}
  {
    hide Within;
    Distances();
  }

  lemma TwoSteps(c: Core)
    ensures ArrestSteps(c, 0) == c
    ensures ArrestSteps(c, 2) == ArrestStep(ArrestStep(c))
  {
    assert ArrestSteps(c, 1) == ArrestStep(c);
  }

  function PreyChased(k: nat): Core {
    var c := Awake(Prey(k));
    if c.state == Free then ArrestStep(ArrestStep(c)) else c
  }

  lemma PreyPhase(q: Cast, k: nat)
    requires q.Distinct()
    ensures ArrestPhase(AwakeAll(Scene(q, k)))[q.prey] == PreyChased(k)
  {
    SceneChasers(q, k);
    SceneAwake(q, k);
    assert |{q.a, q.b}| == 2;
    hide Chasers, ArrestSteps, ArrestStep, Awake, AwakeAll, ArrestPhase, Prey;
    PhaseAt(AwakeAll(Scene(q, k)), q.prey);
    TwoSteps(AwakeAll(Scene(q, k))[q.prey]);
  }

  lemma OthersPhase(q: Cast, k: nat, id: Id)
    requires q.Distinct() && id in Scene(q, k) && id != q.prey
    ensures ArrestPhase(AwakeAll(Scene(q, k)))[id] == Scene(q, k)[id]
  {
    SceneChasers(q, k);
    SceneAwake(q, k);
    hide Chasers, ArrestSteps, ArrestStep, Awake, AwakeAll, ArrestPhase, Prey;
    PhaseAt(AwakeAll(Scene(q, k)), id);
    TwoSteps(AwakeAll(Scene(q, k))[id]);
  }

  lemma SceneChased(q: Cast, k: nat)
    requires q.Distinct()
    ensures ArrestPhase(AwakeAll(Scene(q, k))) ==
            map[q.a := COP, q.b := COP, q.prey := PreyChased(k), q.friend := Friend(k)]
  {
    hide AwakeAll, ArrestPhase, Prey, PreyChased, Friend;
    PreyPhase(q, k);
    OthersPhase(q, k, q.a);
    OthersPhase(q, k, q.b);
    OthersPhase(q, k, q.friend);
  }

  lemma PhaseAt(w: World, id: Id)
    requires id in w
    ensures ArrestPhase(w)[id] == ArrestSteps(w[id], |Chasers(w, id)|)
  {
  }

  lemma SceneAwake(q: Cast, k: nat)
    requires q.Distinct()
    ensures AwakeAll(Scene(q, k)) == map[q.a := COP, q.b := COP, q.prey := Awake(Prey(k)), q.friend := Friend(k)]
  {
  }

  /** Only the friend can complete a rescue, every 40 ticks. */
  lemma SceneFires(q: Cast, k: nat)
    requires q.Distinct()
    ensures RescueFires(ArrestPhase(AwakeAll(Scene(q, k)))) <==> k % RESCUE_TICKS == RESCUE_TICKS - 1
  {
    SceneChased(q, k);
    Distances();
    hide ArrestPhase, AwakeAll, Within;
    var w := ArrestPhase(AwakeAll(Scene(q, k)));
    assert Completes(w[q.friend]) <==> k % RESCUE_TICKS == RESCUE_TICKS - 1;
    assert !Completes(w[q.prey]) && !Completes(COP);
  }

  lemma FriendStep(k: nat)
    ensures AfterRescue(Friend(k), k % RESCUE_TICKS == RESCUE_TICKS - 1) == Friend(k + 1)
  {
    Distances();
    hide Within;
    assert (k + 1) % RESCUE_TICKS == if k % RESCUE_TICKS == RESCUE_TICKS - 1 then 0 else k % RESCUE_TICKS + 1;
  }

  lemma PreyStep(k: nat)
    requires k < 113
    ensures AfterRescue(PreyChased(k), k % RESCUE_TICKS == RESCUE_TICKS - 1) == Prey(k + 1)
  {
    Distances();
    hide Within;
  }

  lemma RescueAt(w: World, id: Id)
    requires id in w
    ensures RescuePhase(w)[id] == AfterRescue(w[id], RescueFires(w))
  {
  }

  lemma SceneStepAt(q: Cast, k: nat, id: Id)
    requires q.Distinct() && k < 113 && id in Scene(q, k)
    ensures CoreTick(Scene(q, k))[id] == Scene(q, k + 1)[id]
  {
    SceneChased(q, k);
    SceneFires(q, k);
    PreyStep(k);
    FriendStep(k);
    assert AfterRescue(COP, k % RESCUE_TICKS == RESCUE_TICKS - 1) == COP;
    hide ArrestPhase, AwakeAll, RescueFires, RescuePhase, AfterRescue, Prey, PreyChased, Friend;
    RescueAt(ArrestPhase(AwakeAll(Scene(q, k))), id);
  }

  lemma SceneStep(q: Cast, k: nat)
    requires q.Distinct() && k < 113
    ensures CoreTick(Scene(q, k)) == Scene(q, k + 1)
  {
    hide CoreTick, Prey, Friend;
    forall id | id in Scene(q, k)
      ensures CoreTick(Scene(q, k))[id] == Scene(q, k + 1)[id]
    {
      SceneStepAt(q, k, id);
    }
    assert Scene(q, k).Keys == Scene(q, k + 1).Keys;
  }

  function Scenes(q: Cast, n: nat): (pres: seq<World>)
    ensures |pres| == n && forall k :: 0 <= k < n ==> pres[k] == Scene(q, k)
  {
    seq(n, k requires 0 <= k < n => Scene(q, k))
  }

  lemma SceneCarries(q: Cast, n: nat, k: nat, id: Id)
    requires q.Distinct() && 0 < k < n <= 114 && id in Scene(q, k)
    ensures Carried(Scenes(q, n), k, id)
  {
    hide CoreTick, Prey, Friend;
    SceneStep(q, k - 1);
  }

  lemma ScenesRun(q: Cast, n: nat)
    requires q.Distinct() && n <= 114
    ensures Run(Scenes(q, n)) && PoliceCapped(Scenes(q, n), MAX_POLICE)
  {
    hide Carried;
    var pres := Scenes(q, n);
    forall k, id | 0 <= k < n && id in pres[k]
      ensures Reached(pres, k, id)
    {
      if k > 0 {
        SceneCarries(q, n, k, id);
      }
    }
    forall k | 0 <= k < n
      ensures |PoliceIn(pres[k])| <= MAX_POLICE
    {
      assert PoliceIn(Scene(q, k)) == {q.a, q.b};
    }
  }

  lemma SceneArrests(q: Cast, n: nat, k: nat)
    requires q.Distinct() && k < n <= 114 && (k == 14 || k == 113)
    ensures ArrestedAt(Scenes(q, n), k, q.prey)
  {
    hide ArrestPhase, AwakeAll;
    SceneChased(q, k);
  }

  lemma SceneReleases(q: Cast, n: nat)
    requires q.Distinct() && 39 < n <= 114
    ensures ReleasedAt(Scenes(q, n), 39, q.prey)
  {
    hide ArrestPhase, AwakeAll, RescueFires;
    SceneChased(q, 39);
    SceneFires(q, 39);
  }

  /**
   Both bounds are met: chased by two cops from the start the thief is arrested on its 15th tick, and
   released on tick 39 it is arrested again on tick 39 + 74.
   */
  lemma BoundsAreSharp(q: Cast) returns (pres: seq<World>)
    requires q.Distinct()
    ensures |pres| == 114 && Run(pres) && PoliceCapped(pres, MAX_POLICE)
    ensures CopSumBefore(pres, 0, q.prey) == 0 && ArrestedAt(pres, 14, q.prey)
    ensures ReleasedAt(pres, 39, q.prey) && ArrestedAt(pres, 113, q.prey)
    ensures forall j :: 39 < j <= 113 ==> Carried(pres, j, q.prey)
  {
    hide ArrestedAt, ReleasedAt, Carried, Prey, Friend, PoliceCapped, Run;
    pres := Scenes(q, 114);
    ScenesRun(q, 114);
    SceneArrests(q, 114, 14);
    SceneReleases(q, 114);
    SceneArrests(q, 114, 113);
    forall j | 39 < j <= 113
      ensures Carried(pres, j, q.prey)
    {
      SceneCarries(q, 114, j, q.prey);
    }
    StartsAtZero(pres, q.prey);
  }

  lemma StartsAtZero(pres: seq<World>, id: Id)
    requires pres != []
    ensures CopSumBefore(pres, 0, id) == 0
  {
  }

  lemma SameTick(a: seq<World>, i: nat, b: seq<World>, j: nat, id: Id)
    requires i < |a| && j < |b| && a[i] == b[j]
    ensures ArrestedAt(a, i, id) == ArrestedAt(b, j, id) && ReleasedAt(a, i, id) == ReleasedAt(b, j, id)
  {
  }

  lemma TwiceRuns(q: Cast, n: nat, m: nat)
    requires q.Distinct() && n <= 114 && m <= 114
    ensures Run(Scenes(q, n) + Scenes(q, m)) && PoliceCapped(Scenes(q, n) + Scenes(q, m), MAX_POLICE)
  {
    hide CoreTick, Prey, Friend, PoliceIn;
    ScenesRun(q, n);
    ScenesRun(q, m);
    var pres := Scenes(q, n) + Scenes(q, m);
    forall k, id | 0 <= k < |pres| && id in pres[k]
      ensures Reached(pres, k, id)
    {
      var i := if k < n then k else k - n;
      if i > 0 {
        SceneStep(q, i - 1);
      } else {
        FirstScene(q, id);
      }
    }
    forall k | 0 <= k < |pres|
      ensures |PoliceIn(pres[k])| <= MAX_POLICE
    {
      assert pres[k] == if k < n then Scenes(q, n)[k] else Scenes(q, m)[k - n];
    }
  }

  lemma FirstScene(q: Cast, id: Id)
    requires id in Scene(q, 0)
    ensures Fresh(Scene(q, 0)[id])
  {
  }

  /**
   A return to the lobby cuts the 74 ticks short: released on tick 39, reset before tick 40 and chased again
   in a new game, the thief is arrested 15 ticks after its release.
   */
  lemma ResetCutsShort(q: Cast) returns (pres: seq<World>)
    requires q.Distinct()
    ensures Run(pres) && PoliceCapped(pres, MAX_POLICE) && |pres| == 55
    ensures ReleasedAt(pres, 39, q.prey) && ArrestedAt(pres, 54, q.prey)
    ensures StartsOver(pres, 40, q.prey)
  {
    hide ArrestedAt, ReleasedAt, PoliceCapped, Run;
    pres := Scenes(q, 40) + Scenes(q, 15);
    TwiceRuns(q, 40, 15);
    SceneReleases(q, 40);
    SceneArrests(q, 15, 14);
    SameTick(pres, 39, Scenes(q, 40), 39, q.prey);
    SameTick(pres, 54, Scenes(q, 15), 14, q.prey);
    FirstScene(q, q.prey);
    NotCarriedOver(q, pres);
  }

  lemma NotCarriedOver(q: Cast, pres: seq<World>)
    requires q.Distinct() && pres == Scenes(q, 40) + Scenes(q, 15)
    ensures !Carried(pres, 40, q.prey)
  {
    SceneStep(q, 39);
    hide CoreTick;
  }

  // ----- A thief that is police for a tick -----

  const WAITER: Core := Core(Thief, Free, JAIL_X, JAIL_Y, 0, 0, 0)

  lemma AloneTick(t: Id, c: Core)
    requires c.state == Free && c.x == JAIL_X && c.y == JAIL_Y && 0 <= c.rescueGauge < RESCUE_DURATION - TICK
    ensures var w: World := map[t := c];
            && ArrestPhase(AwakeAll(w)) == w && !RescueFires(w)
            && CoreTick(w) == map[t := if c.role == Thief then c.(rescueGauge := c.rescueGauge + TICK) else c]
  {
    var w: World := map[t := c];
    Distances();
    assert AwakeAll(w) == w;
    assert Chasers(w, t) == {};
    assert ArrestPhase(w) == w;
    assert !RescueFires(w);
  }

  function Waits(t: Id): seq<World> {
    var c := WAITER.(rescueGauge := TICK);
    [map[t := WAITER], map[t := c.(role := Police)], map[t := c]]
  }

  lemma WaitsCarry(t: Id, k: nat)
    requires 0 < k < 3
    ensures Carried(Waits(t), k, t)
  {
    hide CoreTick;
    var c := WAITER.(rescueGauge := TICK);
    AloneTick(t, WAITER);
    AloneTick(t, c.(role := Police));
  }

  lemma WaitsAtJail(t: Id, k: nat)
    requires k < 3
    ensures AtJail(Waits(t), k, t) <==> k != 1
  {
    hide ArrestPhase, AwakeAll;
    AloneTick(t, Waits(t)[k][t]);
    Distances();
  }

  /** A thief at the jail, police for one tick and a thief again, goes on with the streak it had. */
  lemma StreakOutlivesARoleChange(t: Id) returns (pres: seq<World>)
    ensures |pres| == 3 && Run(pres)
    ensures AtJail(pres, 0, t) && !AtJail(pres, 1, t) && AtJail(pres, 2, t)
    ensures StreakBefore(pres, 2, t) == 1 && !InARow(pres, 2, t, 1)
  {
    hide Carried, AtJail, StreakBefore;
    pres := Waits(t);
    WaitsCarry(t, 1);
    WaitsCarry(t, 2);
    WaitsAtJail(t, 0);
    WaitsAtJail(t, 1);
    WaitsAtJail(t, 2);
    assert Run(pres);
    RescueIsHistory(pres, 2, t);
    WaitsChased(t);
  }

  lemma WaitsChased(t: Id)
    ensures ChasedAt(Waits(t), 2)[t].rescueGauge == TICK
  {
    hide ArrestPhase, AwakeAll;
    AloneTick(t, Waits(t)[2][t]);
  }
}
