/** Players as mutable objects, and the player list a tick works on. */
module Players {
  import opened GameTypes
  import TickSpec
  import opened ItemSpec

  class Player {
    const id: Id
    var core: Core
    var effects: Effects
    var ready: bool
    var lastMoveTime: Option<real>

    constructor (id: Id)
      ensures this.id == id && !ready && lastMoveTime == None
      ensures core == NEWCOMER == Core(NoRole, Free, 0.0, 0.0, 0, 0, 0)
      ensures effects == NO_EFFECTS == Effects(Timer(false, 0), Timer(false, 0))
    {
      this.id := id;
      core := Core(NoRole, Free, 0.0, 0.0, 0, 0, 0);
      effects := NO_EFFECTS;
      ready, lastMoveTime := false, None;
    }

    method SetRole(role: Role)
      modifies `core
      ensures core == old(core).(role := role)
    {
      core := core.(role := role);
    }

    method SetPosition(x: real, y: real)
      modifies `core
      ensures core == old(core).(x := x, y := y)
    {
      core := core.(x := x, y := y);
    }

    method Arrest()
      modifies `core
      ensures core == old(core).(state := Arrested, arrestGauge := 0)
    {
      core := core.(state := Arrested);
      core := core.(arrestGauge := 0);
    }

    method Release()
      modifies `core
      ensures core == TickSpec.Release(old(core))
      ensures core == old(core).(state := Invincible, invincibleTimer := 3000, arrestGauge := 0, rescueGauge := 0)
    {
      core := core.(state := Invincible);
      core := core.(invincibleTimer := INVINCIBLE_TIME);
      core := core.(arrestGauge := 0);
      core := core.(rescueGauge := 0);
    }

    /** Everything but the role goes back to its initial value. */
    method Reset()
      modifies this
      ensures core == NEWCOMER.(role := old(core).role) == Core(old(core).role, Free, 0.0, 0.0, 0, 0, 0)
      ensures effects == NO_EFFECTS == Effects(Timer(false, 0), Timer(false, 0))
      ensures !ready && lastMoveTime == None
    {
      core := core.(state := Free, x := 0.0, y := 0.0);
      ready := false;
      lastMoveTime := None;
      core := core.(arrestGauge := 0, rescueGauge := 0, invincibleTimer := 0);
      effects := NO_EFFECTS;
    }

    /** Counts one tick off the timer of a running effect and ends it at zero. */
    method TickEffect(kind: Kind)
      modifies `effects
      ensures effects == old(effects).Set(kind, TickTimer(old(effects).Get(kind)))
    {
      var t := effects.Get(kind);
      if t.on {
        t := t.(left := t.left - TICK);
        if t.left <= 0 {
          t := Timer(false, 0);
        }
        effects := effects.Set(kind, t);
      }
    }
  }

  /** m maps every id to the player that bears it. */
  ghost predicate Registered(m: map<Id, Player>) {
    forall id :: id in m ==> m[id].id == id
  }

  /** ps lists the players of m, once each, in some order. */
  ghost predicate Roster(ps: seq<Player>, m: map<Id, Player>) {
    && Registered(m)
    && (forall i, j :: 0 <= i < j < |ps| ==> ps[i] != ps[j])
    && (forall p :: p in ps ==> p.id in m && m[p.id] == p && p in m.Values)
    && (forall id :: id in m ==> m[id] in ps)
  }

  /** The players of the list have distinct ids and the cores that w gives them. */
  ghost predicate Sees(ps: seq<Player>, w: World)
    reads ps`core
  {
    && (forall p, q :: p in ps && q in ps && p.id == q.id ==> p == q)
    && (forall p :: p in ps ==> p.id in w && w[p.id] == p.core)
  }

  function IdsOf(ps: seq<Player>): (ids: seq<Id>)
    ensures |ids| == |ps| && forall i :: 0 <= i < |ps| ==> ids[i] == ps[i].id
  {
    seq(|ps|, i requires 0 <= i < |ps| => ps[i].id)
  }

  lemma RosterLists(ps: seq<Player>, m: map<Id, Player>)
    requires Roster(ps, m)
    ensures Lists(IdsOf(ps), m.Keys)
  {
    var ids := IdsOf(ps);
    forall id | id in m
      ensures id in ids
    {
      var i :| 0 <= i < |ps| && ps[i] == m[id];
      assert ids[i] == id;
    }
  }

  ghost function WorldOf(m: map<Id, Player>): (w: World)
    reads m.Values`core
    ensures w.Keys == m.Keys
  {
    map id | id in m :: m[id].core
  }

  ghost function EffectsOf(m: map<Id, Player>): (fx: map<Id, Effects>)
    reads m.Values`effects
    ensures fx.Keys == m.Keys
  {
    map id | id in m :: m[id].effects
  }

  /** Go's range over the player map: any order. */
  method ListPlayers(m: map<Id, Player>) returns (ps: seq<Player>)
    requires Registered(m)
    ensures Roster(ps, m)
  {
    ps := [];
    var left := m.Keys;
    while left != {}
      invariant left <= m.Keys
      invariant forall i, j :: 0 <= i < j < |ps| ==> ps[i] != ps[j]
      invariant forall p :: p in ps ==> p.id in m && m[p.id] == p && p in m.Values && p.id !in left
      invariant forall id :: id in m && id !in left ==> m[id] in ps
    {
      var id :| id in left;
      assert m[id] in m.Values;
      ps := ps + [m[id]];
      left := left - {id};
    }
  }
}
