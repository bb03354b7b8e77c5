/** The movement handler: clamping, the speed check of one move, and the speed bound over a whole game. */
module Movement {
  import opened GameTypes
  import opened ItemSpec
  import opened Geometry
  import opened Players

  const MOVE_SPEED: real := 400.0
  const BOOSTER_SPEED_MULT: real := 1.3
  const STUMBLE_SLOW_MULT: real := 0.7
  const JITTER_TOLERANCE: real := 1.5
  const TICK_SECONDS: real := 0.05

  /** The fastest a move can be accepted at: boosted, with the jitter tolerance. */
  const TOP_SPEED: real := 780.0

  predicate OnField(p: Position) {
    && PLAYER_RADIUS <= p.x <= MAP_WIDTH - PLAYER_RADIUS
    && PLAYER_RADIUS <= p.y <= MAP_HEIGHT - PLAYER_RADIUS
  }

  /** q is the point of the field nearest to p, coordinate by coordinate. */
  ghost predicate Clamps(p: Position, q: Position) {
    && OnField(q)
    && (OnField(p) ==> q == p)
    && forall f: Position :: OnField(f) ==>
         (p.x <= q.x <= f.x || f.x <= q.x <= p.x) && (p.y <= q.y <= f.y || f.y <= q.y <= p.y)
  }

  /** The same point in plain numbers. */
  function Nearest(x: real, y: real): Position {
    Position(if x < 50.0 then 50.0 else if x > 3190.0 then 3190.0 else x,
             if y < 50.0 then 50.0 else if y > 5710.0 then 5710.0 else y)
  }

  method ClampPosition(p: Position) returns (q: Position)
    ensures Clamps(p, q)
    ensures q == Nearest(p.x, p.y)
  {
    var minX, maxX := PLAYER_RADIUS, MAP_WIDTH - PLAYER_RADIUS;
    var minY, maxY := PLAYER_RADIUS, MAP_HEIGHT - PLAYER_RADIUS;
    var x, y := p.x, p.y;
    if x < minX {
      x := minX;
    } else if x > maxX {
      x := maxX;
    }
    if y < minY {
      y := minY;
    } else if y > maxY {
      y := maxY;
    }
    q := Position(x, y);
  }

  /** Where a player stands and when its last move was accepted. */
  datatype Track = Track(at: Position, last: Option<real>)

  /** A requested move, already clamped, with the clock and the effects it meets. */
  datatype Request = Request(to: Position, now: real, effects: Effects)

  function MaxDistance(t: Track, r: Request): real {
    var elapsed := if t.last.None? then TICK_SECONDS else r.now - t.last.value;
    var boosted := if r.effects.boost.on then MOVE_SPEED * BOOSTER_SPEED_MULT else MOVE_SPEED;
    var speed := if r.effects.slow.on then boosted * STUMBLE_SLOW_MULT else boosted;
    speed * elapsed * JITTER_TOLERANCE
  }

  /** No distance is at most a negative maximum. */
  predicate Accepted(t: Track, r: Request) {
    0.0 <= MaxDistance(t, r) && Near(t.at, r.to, MaxDistance(t, r))
  }

  function Advance(t: Track, r: Request): Track {
    if Accepted(t, r) then Track(r.to, Some(r.now)) else t
  }

  ghost function TrackOf(p: Player): Track
    reads p`core, p`lastMoveTime
  {
    Track(Position(p.core.x, p.core.y), p.lastMoveTime)
  }

  /** The speed check and the commit, for a player found in a playing room. */
  method MovePlayer(p: Player, to: Position, now: real) returns (accepted: bool)
    modifies p`core, p`lastMoveTime
    ensures accepted <==> Accepted(old(TrackOf(p)), Request(to, now, p.effects))
    ensures TrackOf(p) == Advance(old(TrackOf(p)), Request(to, now, p.effects))
    ensures p.core == old(p.core).(x := p.core.x, y := p.core.y)
    ensures var e := if old(p.lastMoveTime) == None then 0.05 else now - old(p.lastMoveTime).value;
            var most := if p.effects.boost.on && p.effects.slow.on then 546.0 * e
                        else if p.effects.boost.on then 780.0 * e
                        else if p.effects.slow.on then 420.0 * e
                        else 600.0 * e;
            accepted <==> 0.0 <= e && Near(Position(old(p.core.x), old(p.core.y)), to, most)
    ensures accepted ==> p.core == old(p.core).(x := to.x, y := to.y) && p.lastMoveTime == Some(now)
    ensures !accepted ==> p.core == old(p.core) && p.lastMoveTime == old(p.lastMoveTime)
  {
    var elapsed := TICK_SECONDS;
    if p.lastMoveTime.Some? {
      elapsed := now - p.lastMoveTime.value;
    }
    var speed := MOVE_SPEED;
    if p.effects.boost.on {
      speed := speed * BOOSTER_SPEED_MULT;
    }
    if p.effects.slow.on {
      speed := speed * STUMBLE_SLOW_MULT;
    }
    var maxDist := speed * elapsed * JITTER_TOLERANCE;
    if maxDist < 0.0 || !Within(p.core.x, p.core.y, to.x, to.y, maxDist) {
      return false;
    }
    p.SetPosition(to.x, to.y);
    p.lastMoveTime := Some(now);
    return true;
  }

  /**
   The speed check in plain numbers. With e seconds since the last move, or a twentieth of one before the first, a
   move is taken if and only if it is not longer than 600 e, with a boost 780 e, slowed 420 e, and with both
   546 e. If time has run backwards, none is.
   */
  lemma MoveRule(t: Track, r: Request, d: real, e: real)
    requires IsDistance(t.at, r.to, d) && e == if t.last == None then 0.05 else r.now - t.last.value
    ensures Advance(t, r) ==
            if 0.0 <= e && d <= (if r.effects.boost.on && r.effects.slow.on then 546.0 * e
                                 else if r.effects.boost.on then 780.0 * e
                                 else if r.effects.slow.on then 420.0 * e
                                 else 600.0 * e)
            then Track(r.to, Some(r.now)) else t
  {
    var m := MaxDistance(t, r);
    if 0.0 <= m {
      WithinIsDistance(t.at, r.to, d, m);
    }
  }

  /** So the first move after a reset is held to 30 px, boosted to 39, slowed to 21, and with both to 27.3. */
  lemma FirstMoveRule(t: Track, r: Request, d: real)
    requires IsDistance(t.at, r.to, d) && t.last == None
    ensures Advance(t, r) ==
            if d <= (if r.effects.boost.on && r.effects.slow.on then 27.3
                     else if r.effects.boost.on then 39.0
                     else if r.effects.slow.on then 21.0
                     else 30.0)
            then Track(r.to, Some(r.now)) else t
  {
    hide Advance;
    MoveRule(t, r, d, 0.05);
  }

  /** tracks follows one player through the requests of a game. The clock may do as it likes. */
  ghost predicate Journey(tracks: seq<Track>, requests: seq<Request>) {
    && |tracks| == |requests| + 1
    && (forall i {:trigger requests[i]} :: 0 <= i < |requests| ==> tracks[i + 1] == Advance(tracks[i], requests[i]))
  }

  /** One accepted move goes at most at top speed. */
  lemma MoveBound(t: Track, r: Request)
    requires Accepted(t, r)
    ensures t.last.None? ==> Near(t.at, r.to, 39.0)
    ensures t.last.Some? ==> t.last.value <= r.now && Near(t.at, r.to, TOP_SPEED * (r.now - t.last.value))
  {
    var m := MaxDistance(t, r);
    if t.last.None? {
      assert m <= 39.0;
      Widen(t.at, r.to, m, 39.0);
    } else {
      var elapsed := r.now - t.last.value;
      assert m <= TOP_SPEED * elapsed && 0.0 <= elapsed;
      Widen(t.at, r.to, m, TOP_SPEED * elapsed);
    }
  }

  /**
   Any two positions a player holds after accepted moves of the same game, the moves at times t1 and
   t2, are at most 780 * (t2 - t1) apart, whatever came between them, accepted or refused.
   */
  lemma {:induction false} SpeedBound(tracks: seq<Track>, requests: seq<Request>, i: nat, j: nat)
    requires Journey(tracks, requests) && i <= j <= |requests| && tracks[i].last.Some?
    ensures tracks[j].last.Some? && tracks[i].last.value <= tracks[j].last.value
    ensures Near(tracks[i].at, tracks[j].at, TOP_SPEED * (tracks[j].last.value - tracks[i].last.value))
    decreases j
  {
    if i < j {
      SpeedBound(tracks, requests, i, j - 1);
      var t, r := tracks[j - 1], requests[j - 1];
      assert tracks[j] == Advance(t, r);
      if Accepted(t, r) {
        MoveBound(t, r);
        var d1, d2 := t.last.value - tracks[i].last.value, r.now - t.last.value;
        Triangle(tracks[i].at, t.at, r.to, TOP_SPEED * d1, TOP_SPEED * d2);
      }
    }
  }

  /** Some request before the k-th was accepted. */
  predicate MovedBefore(tracks: seq<Track>, requests: seq<Request>, k: nat)
    requires |tracks| == |requests| + 1 && k <= |requests|
  {
    exists i :: 0 <= i < k && Accepted(tracks[i], requests[i])
  }

  /**
   How far a player can be from its spawn: with no move since its last reset, 39 + 780 * (t - t1), where t1 and
   t are the times of its first and its latest accepted move; with the time t0 of a move left from the game
   before, which preparing a game does not clear, 780 * (t - t0).
   */
  lemma SpawnBound(tracks: seq<Track>, requests: seq<Request>, first: nat, j: nat)
    requires Journey(tracks, requests) && first < j <= |requests|
    requires !MovedBefore(tracks, requests, first) && Accepted(tracks[first], requests[first])
    ensures tracks[j].last.Some?
    ensures match tracks[0].last
            case None =>
              Near(tracks[0].at, tracks[j].at, 39.0 + TOP_SPEED * (tracks[j].last.value - requests[first].now))
            case Some(t0) => Near(tracks[0].at, tracks[j].at, TOP_SPEED * (tracks[j].last.value - t0))
  {
    hide Near, Accepted;
    StillAtSpawn(tracks, requests, first);
    assert tracks[first + 1] == Advance(tracks[first], requests[first]);
    if tracks[0].last.Some? {
      SpeedBound(tracks, requests, 0, j);
    } else {
      MoveBound(tracks[first], requests[first]);
      SpeedBound(tracks, requests, first + 1, j);
      Triangle(tracks[0].at, tracks[first + 1].at, tracks[j].at, 39.0,
               TOP_SPEED * (tracks[j].last.value - tracks[first + 1].last.value));
    }
  }

  lemma {:induction false} StillAtSpawn(tracks: seq<Track>, requests: seq<Request>, k: nat)
    requires Journey(tracks, requests) && k <= |requests| && !MovedBefore(tracks, requests, k)
    ensures tracks[k] == tracks[0]
    decreases k
  {
    hide Accepted;
    if k > 0 {
      StillAtSpawn(tracks, requests, k - 1);
      assert tracks[k] == Advance(tracks[k - 1], requests[k - 1]);
    }
  }

  /** The first move of a game is held to 39 px if and only if the player has not moved since its last reset. */
  lemma FirstMoveIff(t: Track)
    requires OnField(t.at)
    ensures (forall r: Request :: OnField(r.to) && Accepted(t, r) ==> Near(t.at, r.to, 39.0)) <==> t.last.None?
  {
    if t.last.Some? {
      var to := Position(if t.at.x < 1000.0 then t.at.x + 100.0 else t.at.x - 100.0, t.at.y);
      var r := Request(to, t.last.value + 30.0, NO_EFFECTS);
      FieldWideMove(t.at, to, t.last.value);
      assert (t.at.x - to.x) * (t.at.x - to.x) == 10000.0;
      assert !Near(t.at, to, 39.0);
      assert OnField(r.to) && Accepted(t, r);
    } else {
      forall r: Request | Accepted(t, r)
        ensures Near(t.at, r.to, 39.0)
      {
        MoveBound(t, r);
      }
    }
  }

  /** Half a minute after its last move a player may go from anywhere on the field to anywhere else at once. */
  lemma FieldWideMove(from: Position, to: Position, last: real)
    requires OnField(from) && OnField(to)
    ensures Accepted(Track(from, Some(last)), Request(to, last + 30.0, NO_EFFECTS))
  {
    assert MaxDistance(Track(from, Some(last)), Request(to, last + 30.0, NO_EFFECTS)) == 18000.0;
    Reach(from.x - to.x, MAP_WIDTH);
    Reach(from.y - to.y, MAP_HEIGHT);
  }

  lemma Reach(d: real, bound: real)
    requires -bound <= d <= bound
    ensures d * d <= bound * bound
  {
    assert 0.0 <= (bound - d) * (bound + d) == bound * bound - d * d;
  }

  /** A player is on the field if and only if it started there or has moved: no move leads off it. */
  lemma {:induction false} StaysOnField(tracks: seq<Track>, requests: seq<Request>, k: nat)
    requires Journey(tracks, requests) && k <= |requests|
    requires forall i :: 0 <= i < |requests| ==> OnField(requests[i].to)
    ensures OnField(tracks[k].at) <==> OnField(tracks[0].at) || MovedBefore(tracks, requests, k)
    decreases k
  {
    hide Accepted, OnField;
    if k > 0 {
      StaysOnField(tracks, requests, k - 1);
      assert tracks[k] == Advance(tracks[k - 1], requests[k - 1]);
    }
  }

  /** How a player that joins while the room plays starts out: at the origin, off the field. */
  const LATE: Track := Track(Position(NEWCOMER.x, NEWCOMER.y), None)

  lemma LateIsRefused(r: Request)
    requires OnField(r.to)
    ensures !Accepted(LATE, r)
  {
    var m := MaxDistance(LATE, r);
    assert m <= 39.0;
    if 0.0 <= m {
      SquareOrder(m, 39.0);
      SquareOrder(50.0, r.to.x);
    }
  }

  /** A late joiner never gets onto the field: its first move may be 39 long, and the field is further away. */
  lemma {:induction false} LateIsStuck(tracks: seq<Track>, requests: seq<Request>, k: nat)
    requires Journey(tracks, requests) && k <= |requests| && tracks[0] == LATE
    requires forall i :: 0 <= i < |requests| ==> OnField(requests[i].to)
    ensures tracks[k] == LATE && !OnField(tracks[k].at)
    decreases k
  {
    if k > 0 {
      LateIsStuck(tracks, requests, k - 1);
      LateIsRefused(requests[k - 1]);
      assert tracks[k] == Advance(tracks[k - 1], requests[k - 1]);
    }
  }

  /** Present from the start or late: a player of a game is on the field at any time if and only if it began there. */
  lemma OnFieldIff(tracks: seq<Track>, requests: seq<Request>, k: nat)
    requires Journey(tracks, requests) && k <= |requests| && (OnField(tracks[0].at) || tracks[0] == LATE)
    requires forall i :: 0 <= i < |requests| ==> OnField(requests[i].to)
    ensures OnField(tracks[k].at) <==> OnField(tracks[0].at)
  {
    if tracks[0] == LATE {
      LateIsStuck(tracks, requests, k);
    } else {
      StaysOnField(tracks, requests, k);
    }
  }
}
