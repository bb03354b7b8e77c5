/** The arrest, rescue and win mechanics of the game loop, as loops over the player list. */
module Mechanics {
  import opened GameTypes
  import opened Geometry
  import opened TickSpec
  import opened Players

  method UpdateInvincibility(ps: seq<Player>, ghost m: map<Id, Player>)
    requires Roster(ps, m)
    modifies m.Values`core
    ensures WorldOf(m) == AwakeAll(old(WorldOf(m)))
  {
    for i := 0 to |ps|
      invariant forall k :: 0 <= k < i ==> ps[k].core == Awake(old(ps[k].core))
      invariant forall k :: i <= k < |ps| ==> ps[k].core == old(ps[k].core)
    {
      var p := ps[i];
      if p.core.state == Invincible {
        p.core := p.core.(invincibleTimer := p.core.invincibleTimer - TICK);
        if p.core.invincibleTimer <= 0 {
          p.core := p.core.(state := Free, invincibleTimer := 0);
        }
      }
    }
    assert forall id :: id in m ==> m[id] in ps;
  }

  function PairIds(pairs: seq<(Player, Player)>): (ids: seq<(Id, Id)>)
    ensures |ids| == |pairs|
    ensures forall i :: 0 <= i < |pairs| ==> ids[i] == (pairs[i].0.id, pairs[i].1.id)
  {
    seq(|pairs|, i requires 0 <= i < |pairs| => (pairs[i].0.id, pairs[i].1.id))
  }

  /** Splits the list into police and free thieves, then pairs them up, cop by cop. */
  method FindArrestPairs(ps: seq<Player>, ghost m: map<Id, Player>) returns (pairs: seq<(Player, Player)>)
    requires Roster(ps, m)
    ensures forall i :: 0 <= i < |pairs| ==> pairs[i].0 in m.Values && pairs[i].1 in m.Values
    ensures forall q :: q in pairs <==>
              && q.0 in ps && q.1 in ps && q.0.core.role == Police && q.1.core.role == Thief && q.1.core.state == Free
              && Near(Position(q.0.core.x, q.0.core.y), Position(q.1.core.x, q.1.core.y), 100.0)
    ensures ListsChases(PairIds(pairs), WorldOf(m))
  {
    var police: seq<Player>, thieves: seq<Player> := [], [];
    for i := 0 to |ps|
      invariant forall p :: p in police <==> p in ps[..i] && p.core.role == Police
      invariant forall p :: p in thieves <==> p in ps[..i] && p.core.role == Thief && p.core.state == Free
      invariant forall j, k :: 0 <= j < k < |police| ==> police[j] != police[k]
      invariant forall j, k :: 0 <= j < k < |thieves| ==> thieves[j] != thieves[k]
    {
      var p := ps[i];
      match p.core.role
      case Police => police := police + [p];
      case Thief => if p.core.state == Free { thieves := thieves + [p]; }
      case NoRole =>
    }
    pairs := [];
    for i := 0 to |police|
      invariant forall j, k :: 0 <= j < k < |pairs| ==> pairs[j] != pairs[k]
      invariant forall q :: q in pairs <==>
        q.0 in police[..i] && q.1 in thieves && InArrestRange(q.0.core, q.1.core)
    {
      for t := 0 to |thieves|
        invariant forall j, k :: 0 <= j < k < |pairs| ==> pairs[j] != pairs[k]
        invariant forall q :: q in pairs <==>
          && InArrestRange(q.0.core, q.1.core)
          && ((q.0 in police[..i] && q.1 in thieves) || (q.0 == police[i] && q.1 in thieves[..t]))
      {
        if InArrestRange(police[i].core, thieves[t].core) {
          pairs := pairs + [(police[i], thieves[t])];
        }
      }
    }
    PairsAreChases(ps, m, pairs);
  }

  /** The pairs of police and free thieves in range are the chases of the players' world. */
  lemma PairsAreChases(ps: seq<Player>, m: map<Id, Player>, pairs: seq<(Player, Player)>)
    requires Roster(ps, m)
    requires forall j, k :: 0 <= j < k < |pairs| ==> pairs[j] != pairs[k]
    requires forall q :: q in pairs <==>
      && q.0 in ps && q.1 in ps && q.0.core.role == Police && q.1.core.FreeThief()
      && InArrestRange(q.0.core, q.1.core)
    ensures forall i :: 0 <= i < |pairs| ==> pairs[i].0 in m.Values && pairs[i].1 in m.Values
    ensures ListsChases(PairIds(pairs), WorldOf(m))
  {
    var ids, w := PairIds(pairs), WorldOf(m);
    forall i | 0 <= i < |pairs|
      ensures pairs[i].0 in m.Values && pairs[i].1 in m.Values && Chases(w, ids[i].0, ids[i].1)
    {
      assert pairs[i] in pairs;
    }
    forall c, t | Chases(w, c, t)
      ensures (c, t) in ids
    {
      var q := (m[c], m[t]);
      assert q in pairs;
      var i :| 0 <= i < |pairs| && pairs[i] == q;
      assert ids[i] == (c, t);
    }
    forall i, j | 0 <= i < j < |ids|
      ensures ids[i] != ids[j]
    {
      assert pairs[i] in pairs && pairs[j] in pairs;
    }
  }

  /** One pair: the gauge grows by a tick and the thief is arrested at the threshold. */
  method Chase(thief: Player, ghost m: map<Id, Player>)
    requires Registered(m) && thief in m.Values
    modifies thief`core
    ensures WorldOf(m) == old(WorldOf(m)[thief.id := ArrestStep(WorldOf(m)[thief.id])])
  {
    thief.core := thief.core.(arrestGauge := thief.core.arrestGauge + TICK);
    if thief.core.arrestGauge >= ARREST_DURATION {
      thief.Arrest();
    }
  }

  /** The cumulative arrest gauge: one step per pair of the snapshot, in the order of the list. */
  method UpdateArrests(ps: seq<Player>, ghost m: map<Id, Player>) returns (ghost chases: seq<(Id, Id)>)
    requires Roster(ps, m)
    modifies m.Values`core
    ensures ListsChases(chases, old(WorldOf(m)))
    ensures WorldOf(m) == RunPairs(chases, old(WorldOf(m))) == ArrestPhase(old(WorldOf(m)))
    ensures EffectsOf(m) == old(EffectsOf(m))
  {
    assert Registered(m);
    hide *;
    var pairs := TakeSnapshot(ps, m);
    chases := PairIds(pairs);
    RunChases(pairs, m);
  }

  /** The pairs, with what running them will come to. */
  method TakeSnapshot(ps: seq<Player>, ghost m: map<Id, Player>) returns (pairs: seq<(Player, Player)>)
    requires Roster(ps, m)
    ensures forall i :: 0 <= i < |pairs| ==> pairs[i].1 in m.Values
    ensures forall p :: p in PairIds(pairs) ==> p.1 in m
    ensures ListsChases(PairIds(pairs), WorldOf(m))
    ensures RunPairs(PairIds(pairs), WorldOf(m)) == ArrestPhase(WorldOf(m))
  {
    hide *;
    pairs := FindArrestPairs(ps, m);
    SnapshotRuns(PairIds(pairs), WorldOf(m));
  }

  lemma SnapshotRuns(chases: seq<(Id, Id)>, w: World)
    requires ListsChases(chases, w)
    ensures forall p :: p in chases ==> p.1 in w
    ensures RunPairs(chases, w) == ArrestPhase(w)
  {
    assert forall p :: p in chases ==> Chases(w, p.0, p.1);
    PairLoopOrderFree(chases, w);
  }

  method RunChases(pairs: seq<(Player, Player)>, ghost m: map<Id, Player>)
    requires Registered(m)
    requires forall i :: 0 <= i < |pairs| ==> pairs[i].1 in m.Values
    requires forall p :: p in PairIds(pairs) ==> p.1 in m
    modifies m.Values`core
    ensures WorldOf(m) == RunPairs(PairIds(pairs), old(WorldOf(m)))
  {
    hide ArrestStep, WorldOf, PairIds;
    ghost var w, chases := WorldOf(m), PairIds(pairs);
    for i := 0 to |pairs|
      invariant WorldOf(m) == RunPairs(chases[..i], w)
    {
      assert chases[..i + 1][..i] == chases[..i];
      Chase(pairs[i].1, m);
    }
    assert chases[..|pairs|] == chases;
  }

  method FindJailRescueCandidates(ps: seq<Player>, ghost m: map<Id, Player>) returns (candidates: seq<Player>)
    requires Roster(ps, m)
    ensures forall p :: p in candidates ==> p in m.Values
    ensures forall p :: p in candidates <==>
              && p in ps && p.core.role == Thief && p.core.state == Free
              && Near(Position(p.core.x, p.core.y), Position(1620.0, 4608.0), 150.0)
    ensures Lists(IdsOf(candidates), Rescuers(WorldOf(m)))
  {
    candidates := [];
    for i := 0 to |ps|
      invariant forall p :: p in candidates <==> p in ps[..i] && Rescuer(p.core)
      invariant forall j, k :: 0 <= j < k < |candidates| ==> candidates[j] != candidates[k]
    {
      var p := ps[i];
      if p.core.role == Thief && p.core.state == Free && InJailRange(p.core) {
        candidates := candidates + [p];
      }
    }
    CandidatesAreRescuers(ps, m, candidates);
  }

  lemma CandidatesAreRescuers(ps: seq<Player>, m: map<Id, Player>, candidates: seq<Player>)
    requires Roster(ps, m)
    requires forall j, k :: 0 <= j < k < |candidates| ==> candidates[j] != candidates[k]
    requires forall p :: p in candidates <==> p in ps && Rescuer(p.core)
    ensures Lists(IdsOf(candidates), Rescuers(WorldOf(m)))
  {
    var ids := IdsOf(candidates);
    forall i | 0 <= i < |ids|
      ensures ids[i] in Rescuers(WorldOf(m)) && m[ids[i]] == candidates[i]
    {
      assert candidates[i] in candidates;
    }
    forall id | id in Rescuers(WorldOf(m))
      ensures id in ids
    {
      assert m[id] in candidates;
      var i :| 0 <= i < |candidates| && candidates[i] == m[id];
      assert ids[i] == id;
    }
  }

  /** Every arrested thief goes free at once, invincible for a while. */
  method ReleaseArrested(ps: seq<Player>, ghost m: map<Id, Player>)
    requires Roster(ps, m)
    modifies m.Values`core
    ensures WorldOf(m) == ReleaseAll(old(WorldOf(m)))
  {
    for i := 0 to |ps|
      invariant forall k :: 0 <= k < i ==>
        ps[k].core == if old(ps[k].core.JailedThief()) then Release(old(ps[k].core)) else old(ps[k].core)
      invariant forall k :: i <= k < |ps| ==> ps[k].core == old(ps[k].core)
    {
      var p := ps[i];
      if p.core.role == Thief && p.core.state == Arrested {
        p.Release();
      }
    }
    assert forall id :: id in m ==> m[id] in ps;
  }

  /** One candidate: a tick on its gauge, and the mass release when the gauge is full. */
  method Rescue(thief: Player, ps: seq<Player>, ghost m: map<Id, Player>)
    requires Roster(ps, m) && thief in m.Values
    modifies m.Values`core
    ensures WorldOf(m) == RescueStep(old(WorldOf(m)), thief.id)
  {
    RaiseRescueGauge(thief, m);
    if thief.core.rescueGauge >= RESCUE_DURATION {
      CompleteRescue(thief, ps, m);
    }
  }

  method CompleteRescue(thief: Player, ps: seq<Player>, ghost m: map<Id, Player>)
    requires Roster(ps, m) && thief in m.Values
    modifies m.Values`core
    ensures var r := ReleaseAll(old(WorldOf(m)));
            WorldOf(m) == r[thief.id := r[thief.id].(rescueGauge := 0)]
  {
    ReleaseArrested(ps, m);
    ClearRescueGauge(thief, m);
  }

  method RaiseRescueGauge(thief: Player, ghost m: map<Id, Player>)
    requires Registered(m) && thief in m.Values
    modifies thief`core
    ensures var w := old(WorldOf(m)); var c := w[thief.id];
            WorldOf(m) == w[thief.id := c.(rescueGauge := c.rescueGauge + TICK)]
  {
    thief.core := thief.core.(rescueGauge := thief.core.rescueGauge + TICK);
  }

  method ClearRescueGauge(thief: Player, ghost m: map<Id, Player>)
    requires Registered(m) && thief in m.Values
    modifies thief`core
    ensures var w := old(WorldOf(m)); WorldOf(m) == w[thief.id := w[thief.id].(rescueGauge := 0)]
  {
    thief.core := thief.core.(rescueGauge := 0);
  }

  /** The continuous rescue gauge, with the mass release inside the candidate loop. */
  method UpdateRescues(ps: seq<Player>, ghost m: map<Id, Player>) returns (ghost rescuers: seq<Id>)
    requires Roster(ps, m)
    modifies m.Values`core
    ensures Lists(rescuers, Rescuers(old(WorldOf(m))))
    ensures WorldOf(m) == ResetStragglers(RunRescuers(rescuers, old(WorldOf(m))), set id | id in rescuers)
    ensures WorldOf(m) == RescuePhase(old(WorldOf(m)))
    ensures EffectsOf(m) == old(EffectsOf(m))
  {
    hide *;
    var candidates := FindJailRescueCandidates(ps, m);
    rescuers := IdsOf(candidates);
    CandidatesRun(rescuers, WorldOf(m));
    var rescuing := RunCandidates(candidates, ps, m);
    ResetRescueGauges(ps, m, rescuing);
  }

  lemma CandidatesRun(rescuers: seq<Id>, w: World)
    requires Lists(rescuers, Rescuers(w))
    ensures forall id :: id in rescuers ==> id in w
    ensures ResetStragglers(RunRescuers(rescuers, w), set id | id in rescuers) == RescuePhase(w)
  {
    assert forall id :: id in rescuers ==> id in Rescuers(w);
    RescueLoopOrderFree(rescuers, w);
    assert (set id | id in rescuers) == Rescuers(w);
  }

  method RunCandidates(candidates: seq<Player>, ps: seq<Player>, ghost m: map<Id, Player>) returns (rescuing: set<Id>)
    requires Roster(ps, m)
    requires forall i :: 0 <= i < |candidates| ==> candidates[i] in m.Values
    requires forall id :: id in IdsOf(candidates) ==> id in m
    modifies m.Values`core
    ensures WorldOf(m) == RunRescuers(IdsOf(candidates), old(WorldOf(m)))
    ensures rescuing == set id | id in IdsOf(candidates)
  {
    hide RescueStep, WorldOf, IdsOf;
    ghost var w, ids := WorldOf(m), IdsOf(candidates);
    rescuing := {};
    for i := 0 to |candidates|
      invariant rescuing == set id | id in ids[..i]
      invariant WorldOf(m) == RunRescuers(ids[..i], w)
    {
      assert ids[..i + 1][..i] == ids[..i];
      rescuing := rescuing + {candidates[i].id};
      Rescue(candidates[i], ps, m);
    }
    assert ids[..|candidates|] == ids;
  }

  method ResetRescueGauges(ps: seq<Player>, ghost m: map<Id, Player>, rescuing: set<Id>)
    requires Roster(ps, m)
    modifies m.Values`core
    ensures WorldOf(m) == ResetStragglers(old(WorldOf(m)), rescuing)
  {
    for i := 0 to |ps|
      invariant forall k :: 0 <= k < i ==>
        ps[k].core == if old(ps[k].core.FreeThief()) && ps[k].id !in rescuing
                        then old(ps[k].core).(rescueGauge := 0) else old(ps[k].core)
      invariant forall k :: i <= k < |ps| ==> ps[k].core == old(ps[k].core)
    {
      var p := ps[i];
      if p.core.role == Thief && p.core.state == Free && p.id !in rescuing {
        p.core := p.core.(rescueGauge := 0);
      }
    }
    assert forall id :: id in m ==> m[id] in ps;
  }

  /** Some player of the list is a thief, and all its thieves are arrested. */
  ghost predicate AllJailed(ps: seq<Player>)
    reads ps`core
  {
    && (exists p :: p in ps && p.core.role == Thief)
    && (forall p :: p in ps && p.core.role == Thief ==> p.core.state == Arrested)
  }

  method CheckPoliceWin(ps: seq<Player>) returns (win: bool)
    ensures win <==> AllJailed(ps)
  {
    var thieves, arrested := 0, 0;
    for i := 0 to |ps|
      invariant 0 <= arrested <= thieves
      invariant thieves > 0 <==> exists p :: p in ps[..i] && p.core.role == Thief
      invariant thieves == arrested <==> forall p :: p in ps[..i] && p.core.role == Thief ==> p.core.state == Arrested
    {
      if ps[i].core.role == Thief {
        thieves := thieves + 1;
        if ps[i].core.state == Arrested {
          arrested := arrested + 1;
        }
      }
      assert ps[..i + 1] == ps[..i] + [ps[i]];
    }
    assert ps[..|ps|] == ps;
    win := thieves > 0 && thieves == arrested;
  }

  method CheckThiefWin(ps: seq<Player>, timerExpired: bool) returns (win: bool)
    ensures win <==> timerExpired && exists p :: p in ps && p.core.role == Thief && p.core.state != Arrested
  {
    if !timerExpired {
      return false;
    }
    for i := 0 to |ps|
      invariant forall p :: p in ps[..i] ==> !(p.core.role == Thief && p.core.state != Arrested)
    {
      if ps[i].core.role == Thief && ps[i].core.state != Arrested {
        return true;
      }
    }
    return false;
  }

  /** On a roster, the two checks are the order-free verdicts on the players' world. */
  lemma ChecksAreVerdicts(ps: seq<Player>, m: map<Id, Player>)
    requires Roster(ps, m)
    ensures PoliceWin(WorldOf(m)) <==> AllJailed(ps)
    ensures ThiefWin(WorldOf(m), true) <==> exists p :: p in ps && p.core.role == Thief && p.core.state != Arrested
  {
    var w := WorldOf(m);
    assert forall id :: id in w ==> m[id] in ps && w[id] == m[id].core;
    assert forall p :: p in ps ==> p.id in w && w[p.id] == p.core;
  }
}
