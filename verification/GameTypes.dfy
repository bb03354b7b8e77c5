/** Constants, enumerations and plain-value views shared by every part of the game server. */
module GameTypes {
  type Id = string

  // Player limits.
  const MIN_PLAYERS: nat := 2
  const MAX_PLAYERS: nat := 8
  const MAX_POLICE: nat := 2

  // Map and distances, in pixels.
  const MAP_WIDTH: real := 3240.0
  const MAP_HEIGHT: real := 5760.0
  const PLAYER_RADIUS: real := 50.0
  const ARREST_RANGE: real := 100.0
  const JAIL_RANGE: real := 150.0
  const JAIL_X: real := 1620.0
  const JAIL_Y: real := 4608.0
  const PICKUP_RANGE: real := 60.0

  // Durations and gauges, in milliseconds; one tick is 50 ms.
  const TICK: int := 50
  const ARREST_DURATION: int := 1500
  const RESCUE_DURATION: int := 2000
  const INVINCIBLE_TIME: int := 3000
  const GAME_DURATION: int := 180000

  datatype Option<+T> = None | Some(value: T)
  datatype Role = NoRole | Police | Thief
  datatype PlayerState = Free | Arrested | Invincible
  datatype RoomState = Waiting | Playing | Ended
  datatype WinResult = WinPolice | WinThief

  /** The part of a player that decides arrests, rescues and the winner. */
  datatype Core = Core(role: Role, state: PlayerState, x: real, y: real,
                       arrestGauge: int, rescueGauge: int, invincibleTimer: int)
  {
    predicate FreeThief() { role == Thief && state == Free }
    predicate JailedThief() { role == Thief && state == Arrested }
  }

  /** A player that has just been made, or reset. */
  const NEWCOMER: Core := Core(NoRole, Free, 0.0, 0.0, 0, 0, 0)

  type World = map<Id, Core>

  function PoliceIn(w: World): set<Id> {
    set id | id in w && w[id].role == Police
  }

  /** Euclidean distance at most r, for r >= 0, without the square root. */
  predicate Within(x1: real, y1: real, x2: real, y2: real, r: real) {
    (x1 - x2) * (x1 - x2) + (y1 - y2) * (y1 - y2) <= r * r
  }

  /** Euclidean distance strictly below r, for r >= 0. */
  predicate Closer(x1: real, y1: real, x2: real, y2: real, r: real) {
    (x1 - x2) * (x1 - x2) + (y1 - y2) * (y1 - y2) < r * r
  }

  /** s enumerates the set ids, each element exactly once. */
  ghost predicate Lists<T>(s: seq<T>, ids: set<T>) {
    && (forall i, j :: 0 <= i < j < |s| ==> s[i] != s[j])
    && (forall x :: x in s ==> x in ids)
    && (forall x :: x in ids ==> x in s)
  }

  lemma {:induction false} SubsetSize<T>(a: set<T>, b: set<T>)
    requires a <= b
    ensures |a| <= |b|
  {
    if a != {} {
      var x :| x in a;
      SubsetSize(a - {x}, b - {x});
    }
  }
}
