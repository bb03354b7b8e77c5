/** The players of a room as the lobby sees them, and what it does to all of them at once. */
module Crews {
  import opened GameTypes
  import opened Geometry
  import opened Players
  import opened LobbySpec
  import opened ItemSpec
  import TickSpec
  import Movement
  import Spawning

  ghost function MembersOf(m: map<Id, Player>): (members: map<Id, Member>)
    reads m.Values`core, m.Values`ready
    ensures members.Keys == m.Keys
  {
    map id | id in m :: Member(m[id].core.role, m[id].ready)
  }

  /** The same players, moved to spawn positions in their zones. */
  ghost predicate Spawned(w: World, v: World) {
    && v.Keys == w.Keys
    && forall id :: id in w ==>
         && v[id] == w[id].(x := v[id].x, y := v[id].y)
         && Spawning.Zone(w[id].role).Holds(Position(v[id].x, v[id].y))
  }

  ghost function PoliceAmong(ps: seq<Player>): set<Id>
    reads ps`core
  {
    set p | p in ps && p.core.role == Police :: p.id
  }

  method CountPolice(ps: seq<Player>) returns (count: nat)
    requires forall i, j :: 0 <= i < j < |ps| ==> ps[i].id != ps[j].id
    ensures count == |PoliceAmong(ps)|
  {
    hide PoliceAmong;
    ghost var police: set<Id> := {};
    count := 0;
    for i := 0 to |ps|
      invariant count == |police|
      invariant forall k :: 0 <= k < i ==> (ps[k].id in police <==> ps[k].core.role == Police)
      invariant forall id :: id in police ==> exists k :: 0 <= k < i && ps[k].id == id && ps[k].core.role == Police
    {
      if ps[i].core.role == Police {
        count := count + 1;
        assert ps[i].id !in police;
        police := police + {ps[i].id};
      }
    }
    AmongThese(ps, police);
  }

  lemma AmongThese(ps: seq<Player>, police: set<Id>)
    requires forall k :: 0 <= k < |ps| ==> (ps[k].id in police <==> ps[k].core.role == Police)
    requires forall id :: id in police ==> exists k :: 0 <= k < |ps| && ps[k].id == id && ps[k].core.role == Police
    ensures police == PoliceAmong(ps)
  {
    forall id | id in police
      ensures id in PoliceAmong(ps)
    {
      var k :| 0 <= k < |ps| && ps[k].id == id && ps[k].core.role == Police;
      assert ps[k] in ps;
    }
  }

  lemma PoliceAreMembers(ps: seq<Player>, m: map<Id, Player>)
    requires Roster(ps, m)
    ensures PoliceAmong(ps) == PoliceOf(MembersOf(m))
  {
    var members := MembersOf(m);
    assert forall id :: id in members ==> m[id] in ps && members[id].role == m[id].core.role;
  }

  /** Every player is ready in a team and both teams are there. */
  ghost predicate Complete(ps: seq<Player>)
    reads ps`core, ps`ready
  {
    && (forall p :: p in ps ==> p.ready && p.core.role != NoRole)
    && (exists p :: p in ps && p.core.role == Police)
    && (exists p :: p in ps && p.core.role == Thief)
  }

  method CheckTeams(ps: seq<Player>) returns (ready: bool)
    ensures ready <==> Complete(ps)
  {
    var police, thieves := 0, 0;
    for i := 0 to |ps|
      invariant 0 <= police && 0 <= thieves
      invariant forall k :: 0 <= k < i ==> ps[k].ready && ps[k].core.role != NoRole
      invariant if police > 0 then exists p :: p in ps && p.core.role == Police
                else forall k :: 0 <= k < i ==> ps[k].core.role != Police
      invariant if thieves > 0 then exists p :: p in ps && p.core.role == Thief
                else forall k :: 0 <= k < i ==> ps[k].core.role != Thief
    {
      var p := ps[i];
      if !p.ready || p.core.role == NoRole {
        return false;
      }
      match p.core.role
      case Police => police := police + 1;
      case Thief => thieves := thieves + 1;
      case NoRole =>
    }
    return police >= 1 && thieves >= 1;
  }

  lemma TeamsAreMembers(ps: seq<Player>, m: map<Id, Player>)
    requires Roster(ps, m)
    ensures AllReady(MembersOf(m)) <==> |m| >= MIN_PLAYERS && Complete(ps)
  {
    var members := MembersOf(m);
    assert |members| == |m|;
    assert forall id :: id in m ==> m[id] in ps && members[id] == Member(m[id].core.role, m[id].ready);
    assert forall p :: p in ps ==> p.id in m && m[p.id] == p;
  }

  method ResetPlayers(ps: seq<Player>)
    requires forall i, j :: 0 <= i < j < |ps| ==> ps[i] != ps[j]
    modifies ps
    ensures forall p :: p in ps ==>
              && p.core == NEWCOMER.(role := old(p.core).role) && !p.ready
              && p.effects == NO_EFFECTS && p.lastMoveTime == None
  {
    for i := 0 to |ps|
      invariant forall k :: 0 <= k < i ==>
        && ps[k].core == NEWCOMER.(role := old(ps[k].core).role) && !ps[k].ready
        && ps[k].effects == NO_EFFECTS && ps[k].lastMoveTime == None
      invariant forall k :: i <= k < |ps| ==> ps[k].core == old(ps[k].core)
    {
      ps[i].Reset();
    }
  }

  method MovePlayers(ps: seq<Player>, positions: map<Id, Position>)
    requires forall i, j :: 0 <= i < j < |ps| ==> ps[i] != ps[j]
    requires forall p :: p in ps ==> p.id in positions
    modifies ps`core
    ensures forall p :: p in ps ==> p.core == old(p.core).(x := positions[p.id].x, y := positions[p.id].y)
  {
    for i := 0 to |ps|
      invariant forall k :: 0 <= k < i ==>
        ps[k].core == old(ps[k].core).(x := positions[ps[k].id].x, y := positions[ps[k].id].y)
      invariant forall k :: i <= k < |ps| ==> ps[k].core == old(ps[k].core)
    {
      var pos := positions[ps[i].id];
      ps[i].SetPosition(pos.x, pos.y);
    }
  }

  /** Where the spawn generator puts each player lies in the zone of its role. */
  lemma SpawnedFrom(ps: seq<Player>, m: map<Id, Player>, w: World, placed: seq<Position>)
    requires Roster(ps, m) && w.Keys == m.Keys && |placed| == |ps|
    requires forall i :: 0 <= i < |ps| ==>
               && Spawning.Zone(w[ps[i].id].role).Holds(placed[i])
               && ps[i].core == w[ps[i].id].(x := placed[i].x, y := placed[i].y)
    ensures Spawned(w, WorldOf(m))
  {
    hide Spawning.Zone;
    assert forall id :: id in m ==> m[id] in ps;
  }

  lemma SameTeams(m: map<Id, Player>, w: World, members: map<Id, Member>)
    requires Spawned(w, WorldOf(m)) && members.Keys == m.Keys
    requires forall id :: id in m ==> members[id] == Member(w[id].role, m[id].ready)
    ensures MembersOf(m) == members
  {
  }

  function PlacesOf(v: World, order: seq<Id>): (places: seq<Position>)
    requires forall id :: id in order ==> id in v
    ensures |places| == |order| && forall i :: 0 <= i < |order| ==> places[i] == Position(v[order[i]].x, v[order[i]].y)
  {
    seq(|order|, i requires 0 <= i < |order| => Position(v[order[i]].x, v[order[i]].y))
  }

  /** The players of v, in that order, came to their places by these draws. */
  ghost predicate SpawnedBy(v: World, order: seq<Id>, draws: seq<seq<Position>>) {
    Lists(order, v.Keys) && Spawning.Drawn(PlacesOf(v, order), draws)
  }

  method DrawPositions(ps: seq<Player>)
    returns (positions: map<Id, Position>, ghost placed: seq<Position>, ghost draws: seq<seq<Position>>)
    requires forall i, j :: 0 <= i < j < |ps| ==> ps[i].id != ps[j].id
    ensures forall p :: p in ps ==> p.id in positions && Spawning.Zone(p.core.role).Holds(positions[p.id])
    ensures |placed| == |ps| && forall i :: 0 <= i < |ps| ==> positions[ps[i].id] == placed[i]
    ensures Spawning.Drawn(placed, draws)
  {
    positions, placed, draws := Spawning.GenerateSpawnPositions(ps);
  }

  lemma PlacedAsDrawn(ps: seq<Player>, m: map<Id, Player>, placed: seq<Position>, draws: seq<seq<Position>>)
    requires Roster(ps, m) && |placed| == |ps| && Spawning.Drawn(placed, draws)
    requires forall i :: 0 <= i < |ps| ==> Position(ps[i].core.x, ps[i].core.y) == placed[i]
    ensures SpawnedBy(WorldOf(m), IdsOf(ps), draws)
  {
    hide Spawning.Drawn;
    RosterLists(ps, m);
    assert forall i :: 0 <= i < |ps| ==> ps[i] in ps;
    assert PlacesOf(WorldOf(m), IdsOf(ps)) == placed;
  }

  method DrawAndMove(ps: seq<Player>) returns (ghost placed: seq<Position>, ghost draws: seq<seq<Position>>)
    requires forall i, j :: 0 <= i < j < |ps| ==> ps[i] != ps[j] && ps[i].id != ps[j].id
    modifies ps`core
    ensures |placed| == |ps| && Spawning.Drawn(placed, draws)
    ensures forall i :: 0 <= i < |ps| ==>
              && ps[i].core == old(ps[i].core).(x := placed[i].x, y := placed[i].y)
              && Spawning.Zone(old(ps[i].core.role)).Holds(placed[i])
  {
    hide Spawning.Drawn, Spawning.Zone;
    var positions;
    positions, placed, draws := DrawPositions(ps);
    assert forall i :: 0 <= i < |ps| ==> ps[i] in ps;
    MovePlayers(ps, positions);
  }

  method SpawnListed(ps: seq<Player>, ghost m: map<Id, Player>) returns (ghost draws: seq<seq<Position>>)
    requires Roster(ps, m)
    modifies m.Values`core
    ensures Spawned(old(WorldOf(m)), WorldOf(m)) && SpawnedBy(WorldOf(m), IdsOf(ps), draws)
    ensures MembersOf(m) == old(MembersOf(m)) && EffectsOf(m) == old(EffectsOf(m))
  {
    ghost var w, members := WorldOf(m), MembersOf(m);
    hide Spawning.Drawn, Spawning.Zone, SpawnedBy, EffectsOf, Spawned;
    ghost var placed;
    placed, draws := DrawAndMove(ps);
    SpawnedFrom(ps, m, w, placed);
    PlacedAsDrawn(ps, m, placed, draws);
    SameTeams(m, w, members);
  }

  /** Everyone goes to the spawn position drawn for it. */
  method SpawnPlayers(m: map<Id, Player>) returns (ghost order: seq<Id>, ghost draws: seq<seq<Position>>)
    requires Registered(m)
    modifies m.Values`core
    ensures Spawned(old(WorldOf(m)), WorldOf(m)) && SpawnedBy(WorldOf(m), order, draws)
    ensures MembersOf(m) == old(MembersOf(m)) && EffectsOf(m) == old(EffectsOf(m))
  {
    hide Spawned, SpawnedBy, MembersOf, EffectsOf, WorldOf;
    var ps := ListPlayers(m);
    order := IdsOf(ps);
    draws := SpawnListed(ps, m);
  }

  /** The first id that Go's range over the map happens to give. */
  method AnyKey(m: map<Id, Player>) returns (id: Id)
    requires |m| > 0
    ensures id in m
  {
    assert m.Keys != {};
    id :| id in m.Keys;
  }

  lemma MembersAdded(m: map<Id, Player>, p: Player)
    ensures Registered(m) ==> Registered(m[p.id := p])
    ensures MembersOf(m[p.id := p]) == MembersOf(m)[p.id := Member(p.core.role, p.ready)]
    ensures WorldOf(m[p.id := p]) == WorldOf(m)[p.id := p.core]
  {
  }

  lemma MembersRemoved(m: map<Id, Player>, id: Id)
    ensures Registered(m) ==> Registered(m - {id})
    ensures MembersOf(m - {id}) == MembersOf(m) - {id}
    ensures WorldOf(m - {id}) == WorldOf(m) - {id}
  {
  }

  lemma MembersCounted(m: map<Id, Player>)
    ensures |MembersOf(m)| == |m|
  {
  }

  lemma NoMembers(m: map<Id, Player>)
    ensures |m| > 0 <==> MembersOf(m) != map[]
  {
    if |m| > 0 {
      var id :| id in m.Keys;
      assert id in MembersOf(m);
    }
  }

  /** The lobby's cap on police is the cap on the police that the mechanics see. */
  lemma SamePolice(m: map<Id, Player>)
    ensures PoliceOf(MembersOf(m)) == PoliceIn(WorldOf(m))
  {
  }

  /** When a game starts, every thief is 400 or more away from the police, so no arrest is under way. */
  lemma NoChaseAtSpawn(w: World, v: World, cop: Id, other: Id)
    requires Spawned(w, v) && cop in v && other in v && v[cop].role == Police && v[other].role != Police
    ensures !TooClose(Position(v[cop].x, v[cop].y), Position(v[other].x, v[other].y), 400.0)
    ensures !TickSpec.InArrestRange(v[cop], v[other]) && !TickSpec.Chases(v, cop, other)
  {
    var a, b := Position(v[cop].x, v[cop].y), Position(v[other].x, v[other].y);
    Spawning.ZonesApart(v[other].role, a, b);
    assert Near(a, b, ARREST_RANGE) <==> TickSpec.InArrestRange(v[cop], v[other]);
  }

  /** Everyone starts on the field. */
  lemma SpawnedOnField(w: World, v: World, id: Id)
    requires Spawned(w, v) && id in v
    ensures Movement.OnField(Position(v[id].x, v[id].y))
  {
    Spawning.ZonesOnField(w[id].role, Position(v[id].x, v[id].y));
  }
}
