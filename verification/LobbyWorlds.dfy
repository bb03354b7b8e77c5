/** What each lobby step does to the players of the rooms as the mechanics see them. */
module LobbyWorlds {
  import opened GameTypes
  import opened Geometry
  import opened LobbySpec
  import GameSpec

  function RoomOf(worlds: map<Code, World>, code: Code): World {
    if code in worlds then worlds[code] else map[]
  }

  /** A new player in a room with space. */
  function Entered(s: Server, worlds: map<Code, World>, code: Code, player: Id): map<Code, World> {
    if code in s.rooms && !Full(s.rooms[code]) then worlds[code := RoomOf(worlds, code)[player := NEWCOMER]]
    else worlds
  }

  /** One player in another role. */
  function Recast(w: World, id: Id, role: Role): World {
    if id in w then w[id := w[id].(role := role)] else w
  }

  /** One player at another place. */
  function Moved(w: World, id: Id, to: Position): World {
    if id in w then w[id := w[id].(x := to.x, y := to.y)] else w
  }

  /** The room without that player, or no such room if it was the last. */
  function Left(worlds: map<Code, World>, code: Code, id: Id): map<Code, World> {
    var w := RoomOf(worlds, code) - {id};
    if w == map[] then worlds - {code} else worlds[code := w]
  }

  /** spawn: where a game that the step prepares puts everyone. */
  ghost function HubWorlds(s: Server, worlds: map<Code, World>, step: Step, spawn: World): map<Code, World>
    requires Enabled(s, step)
  {
    match step
    case Create(_, code, player) => worlds[code := map[player := NEWCOMER]]
    case Join(_, code, player) => Entered(s, worlds, code, player)
    case RandomJoin(_, _, found, player) =>
      if found.Some? then Entered(s, worlds, found.value, player) else worlds
    case SelectTeam(client, at, role) =>
      if at.None? || role == NoRole || !CanSelect(s.rooms[at.value], role) then worlds
      else worlds[at.value := Recast(RoomOf(worlds, at.value), PlayerOf(s, client), role)]
    case Ready(_, at) => if at.Some? && Prepares(s, step, at.value) then worlds[at.value := spawn] else worlds
    case Return(_, at) =>
      if at.None? || s.rooms[at.value].state != Ended then worlds
      else worlds[at.value := GameSpec.ResetWorld(RoomOf(worlds, at.value))]
    case Leave(client, at, _) =>
      if PlayerOf(s, client) == "" || at.None? then worlds else Left(worlds, at.value, PlayerOf(s, client))
    case GameOver(_) => worlds
  }
}
