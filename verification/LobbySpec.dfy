/**
 The lobby on plain values: every hub message, disconnect and game end as one step on all rooms and
 on the map from clients to players. What the server leaves to chance is part of the step.
 */
module LobbySpec {
  import opened GameTypes

  type Code = string

  datatype Member = Member(role: Role, ready: bool)

  /** What the lobby sees of a room. */
  datatype Party = Party(state: RoomState, members: map<Id, Member>, clients: map<Id, Id>, host: Id)

  const NOBODY: Party := Party(Waiting, map[], map[], "")
  const NEW_MEMBER: Member := Member(NoRole, false)

  // ----- One room -----

  function PoliceOf(members: map<Id, Member>): set<Id> {
    set id | id in members && members[id].role == Police
  }

  predicate Full(p: Party) {
    |p.members| >= MAX_PLAYERS
  }

  predicate CanSelect(p: Party, role: Role) {
    role == Police ==> |PoliceOf(p.members)| < MAX_POLICE
  }

  predicate Open(p: Party) {
    p.state == Waiting && !Full(p)
  }

  function Added(p: Party, id: Id, member: Member, client: Id): Party {
    var members := p.members[id := member];
    p.(members := members, clients := p.clients[id := client], host := if |members| == 1 then id else p.host)
  }

  /** Who may become host when id leaves: anyone who stays. */
  predicate Heir(p: Party, id: Id, heir: Id) {
    if p.host == id && p.members - {id} != map[] then heir in p.members - {id} else heir == p.host
  }

  function Removed(p: Party, id: Id, heir: Id): Party {
    p.(members := p.members - {id}, clients := p.clients - {id}, host := heir)
  }

  function Selected(p: Party, id: Id, role: Role): Party {
    if id in p.members then p.(members := p.members[id := p.members[id].(role := role)]) else p
  }

  function Toggled(p: Party, id: Id): Party {
    if id in p.members then p.(members := p.members[id := p.members[id].(ready := !p.members[id].ready)]) else p
  }

  predicate AllReady(members: map<Id, Member>) {
    && |members| >= MIN_PLAYERS
    && (forall id :: id in members ==> members[id].ready && members[id].role != NoRole)
    && (exists id :: id in members && members[id].role == Police)
    && (exists id :: id in members && members[id].role == Thief)
  }

  function Rested(p: Party): Party {
    p.(state := Waiting, members := map id | id in p.members :: p.members[id].(ready := false))
  }

  // ----- The server -----

  datatype Server = Server(rooms: map<Code, Party>, playerMap: map<Id, Id>)

  const EMPTY: Server := Server(map[], map[])

  datatype Step =
    | Create(client: Id, code: Code, player: Id)
    | Join(client: Id, code: Code, player: Id)
    | RandomJoin(client: Id, preferred: Role, found: Option<Code>, player: Id)
    | SelectTeam(client: Id, at: Option<Code>, role: Role)  // NoRole: an invalid role
    | Ready(client: Id, at: Option<Code>)
    | Return(client: Id, at: Option<Code>)
    | Leave(client: Id, at: Option<Code>, heir: Id)         // or a disconnect
    | GameOver(code: Code)                                  // a game loop's win check

  function PlayerOf(s: Server, client: Id): Id {
    if client in s.playerMap then s.playerMap[client] else ""
  }

  predicate Seated(s: Server, code: Code, id: Id) {
    code in s.rooms && id in s.rooms[code].members
  }

  /** at is a room with that player, or None when there is no such room. */
  ghost predicate Finds(s: Server, id: Id, at: Option<Code>) {
    match at
    case Some(code) => Seated(s, code, id)
    case None => forall code :: !Seated(s, code, id)
  }

  /** The rooms a random join may pick from: with the preferred role open, if there is such a room. */
  ghost predicate Offers(rooms: map<Code, Party>, preferred: Role, found: Option<Code>) {
    match found
    case None => forall code :: code in rooms ==> !Open(rooms[code])
    case Some(code) =>
      && code in rooms && Open(rooms[code])
      && (CanSelect(rooms[code], preferred)
          || forall c :: c in rooms && Open(rooms[c]) ==> !CanSelect(rooms[c], preferred))
  }

  ghost predicate Enabled(s: Server, step: Step) {
    match step
    case Create(_, _, _) => true
    case Join(_, _, _) => true
    case RandomJoin(_, preferred, found, _) => Offers(s.rooms, preferred, found)
    case SelectTeam(client, at, _) => Finds(s, PlayerOf(s, client), at)
    case Ready(client, at) => Finds(s, PlayerOf(s, client), at)
    case Return(client, at) => Finds(s, PlayerOf(s, client), at)
    case Leave(client, at, heir) =>
      PlayerOf(s, client) != "" ==>
        && Finds(s, PlayerOf(s, client), at)
        && (at.Some? ==> Heir(s.rooms[at.value], PlayerOf(s, client), heir))
    case GameOver(code) => code in s.rooms
  }

  function Seat(s: Server, client: Id, code: Code, room: Party, player: Id): Server {
    Server(s.rooms[code := Added(room, player, NEW_MEMBER, client)], s.playerMap[client := player])
  }

  function Enter(s: Server, client: Id, code: Code, player: Id): Server {
    if code in s.rooms && !Full(s.rooms[code]) then Seat(s, client, code, s.rooms[code], player) else s
  }

  function Put(s: Server, code: Code, room: Party): Server {
    s.(rooms := s.rooms[code := room])
  }

  /** Toggling one's readiness may start the game, whatever the room is doing. */
  function Readied(p: Party, id: Id): Party {
    var t := Toggled(p, id);
    if AllReady(t.members) then t.(state := Playing) else t
  }

  function Departed(s: Server, client: Id, at: Option<Code>, heir: Id): Server
    requires at.Some? ==> at.value in s.rooms
  {
    var rooms := match at
      case None => s.rooms
      case Some(code) =>
        var room := Removed(s.rooms[code], PlayerOf(s, client), heir);
        if room.members == map[] then s.rooms - {code} else s.rooms[code := room];
    Server(rooms, s.playerMap - {client})
  }

  ghost function Next(s: Server, step: Step): Server
    requires Enabled(s, step)
  {
    match step
    case Create(client, code, player) => Seat(s, client, code, NOBODY, player)
    case Join(client, code, player) => Enter(s, client, code, player)
    case RandomJoin(client, _, found, player) => if found.Some? then Enter(s, client, found.value, player) else s
    case SelectTeam(client, at, role) =>
      if at.None? || role == NoRole || !CanSelect(s.rooms[at.value], role) then s
      else Put(s, at.value, Selected(s.rooms[at.value], PlayerOf(s, client), role))
    case Ready(client, at) =>
      if at.None? then s else Put(s, at.value, Readied(s.rooms[at.value], PlayerOf(s, client)))
    case Return(client, at) =>
      if at.None? || s.rooms[at.value].state != Ended then s
      else Put(s, at.value, Rested(s.rooms[at.value]))
    case Leave(client, at, heir) => if PlayerOf(s, client) == "" then s else Departed(s, client, at, heir)
    case GameOver(code) =>
      if s.rooms[code].state != Playing then s else Put(s, code, s.rooms[code].(state := Ended))
  }

  /** The step prepares a game in that room. */
  ghost predicate Prepares(s: Server, step: Step, code: Code) {
    && step.Ready? && step.at == Some(code) && code in s.rooms
    && AllReady(Toggled(s.rooms[code], PlayerOf(s, step.client)).members)
  }

  // ----- The registry invariant -----

  ghost predicate PartyOk(p: Party) {
    && p.clients.Keys == p.members.Keys
    && p.host in p.members
    && |p.members| <= MAX_PLAYERS
    && |PoliceOf(p.members)| <= MAX_POLICE
    && "" !in p.members
  }

  /** The client's player sits in that room under that client. */
  predicate Serves(s: Server, code: Code, client: Id, id: Id) {
    Seated(s, code, id) && id in s.rooms[code].clients && s.rooms[code].clients[id] == client
  }

  ghost predicate RoomsOk(s: Server) {
    forall code :: code in s.rooms ==> PartyOk(s.rooms[code])
  }

  /** Rooms share no player. */
  ghost predicate Parted(s: Server) {
    forall a, b, id :: Seated(s, a, id) && Seated(s, b, id) ==> a == b
  }

  ghost predicate Served(s: Server, client: Id) {
    client in s.playerMap && exists code :: Serves(s, code, client, s.playerMap[client])
  }

  /** No room is empty, rooms share no player, and every mapped player sits in a room under its client. */
  ghost predicate Sound(s: Server) {
    RoomsOk(s) && Parted(s) && forall c :: c in s.playerMap ==> Served(s, c)
  }

  /** The player ids and room codes that a step draws have not been used. */
  ghost predicate FreshPlayer(s: Server, id: Id) {
    id != "" && forall code :: !Seated(s, code, id)
  }

  ghost predicate FreshIds(s: Server, step: Step) {
    match step
    case Create(_, code, player) => code !in s.rooms && FreshPlayer(s, player)
    case Join(_, code, player) => code in s.rooms && !Full(s.rooms[code]) ==> FreshPlayer(s, player)
    case RandomJoin(_, _, found, player) => found.Some? ==> FreshPlayer(s, player)
    case _ => true
  }

  lemma Alone(s: Server, c: Id, d: Id)
    requires Parted(s) && Served(s, c) && Served(s, d)
    ensures s.playerMap[c] == s.playerMap[d] ==> c == d
  {
    var a :| Serves(s, a, c, s.playerMap[c]);
    var b :| Serves(s, b, d, s.playerMap[d]);
    assert Seated(s, a, s.playerMap[c]) && Seated(s, b, s.playerMap[d]);
  }

  /** No two clients have the same player, and every mapped player is in exactly one room. */
  lemma OneClientOneRoom(s: Server)
    requires Sound(s)
    ensures forall c, d :: c in s.playerMap && d in s.playerMap && s.playerMap[c] == s.playerMap[d] ==> c == d
    ensures forall c :: c in s.playerMap ==>
              exists code :: Seated(s, code, s.playerMap[c]) && forall b :: Seated(s, b, s.playerMap[c]) ==> b == code
  {
    forall c, d | c in s.playerMap && d in s.playerMap && s.playerMap[c] == s.playerMap[d]
      ensures c == d
    {
      Alone(s, c, d);
    }
    forall c | c in s.playerMap
      ensures exists code :: Seated(s, code, s.playerMap[c]) && forall b :: Seated(s, b, s.playerMap[c]) ==> b == code
    {
      assert Served(s, c);
      var a :| Serves(s, a, c, s.playerMap[c]);
      assert Seated(s, a, s.playerMap[c]);
    }
  }
}
