/** Runs of the lobby: a game of two, its end, and what the handlers allow next. */
module LobbyScenes {
  import opened GameTypes
  import opened LobbySpec
  import opened LobbyRuns

  /** A cop and a thief, their clients and their room. */
  datatype Cast = Cast(code: Code, cop: Id, thief: Id, copClient: Id, thiefClient: Id)
  {
    predicate Distinct() {
      cop != thief && copClient != thiefClient && cop != "" && thief != ""
    }
  }

  const OPENING: nat := 6

  /** The cop creates the room, the thief joins, both pick a team and get ready. */
  function OpeningStep(q: Cast, k: nat): Step
    requires k < OPENING
  {
    match k
    case 0 => Create(q.copClient, q.code, q.cop)
    case 1 => Join(q.thiefClient, q.code, q.thief)
    case 2 => SelectTeam(q.copClient, Some(q.code), Police)
    case 3 => SelectTeam(q.thiefClient, Some(q.code), Thief)
    case 4 => Ready(q.copClient, Some(q.code))
    case _ => Ready(q.thiefClient, Some(q.code))
  }

  function Pair(q: Cast, state: RoomState, cop: Member, thief: Member): Server {
    Server(map[q.code := Party(state, map[q.cop := cop, q.thief := thief],
                               map[q.cop := q.copClient, q.thief := q.thiefClient], q.cop)],
           map[q.copClient := q.cop, q.thiefClient := q.thief])
  }

  function Solo(q: Cast, state: RoomState, cop: Member): Server {
    Server(map[q.code := Party(state, map[q.cop := cop], map[q.cop := q.copClient], q.cop)], map[q.copClient := q.cop])
  }

  function Opening(q: Cast, k: nat): Server
    requires k <= OPENING
  {
    match k
    case 0 => EMPTY
    case 1 => Solo(q, Waiting, NEW_MEMBER)
    case 2 => Pair(q, Waiting, NEW_MEMBER, NEW_MEMBER)
    case 3 => Pair(q, Waiting, Member(Police, false), NEW_MEMBER)
    case 4 => Pair(q, Waiting, Member(Police, false), Member(Thief, false))
    case 5 => Pair(q, Waiting, Member(Police, true), Member(Thief, false))
    case _ => Pair(q, Playing, Member(Police, true), Member(Thief, true))
  }

  lemma PairSeats(q: Cast, state: RoomState, cop: Member, thief: Member)
    requires q.Distinct()
    ensures var s := Pair(q, state, cop, thief);
            && Finds(s, q.cop, Some(q.code)) && Finds(s, q.thief, Some(q.code))
            && PlayerOf(s, q.copClient) == q.cop && PlayerOf(s, q.thiefClient) == q.thief
            && PoliceOf(s.rooms[q.code].members) ==
               (if cop.role == Police then {q.cop} else {}) + (if thief.role == Police then {q.thief} else {})
  {
    var s := Pair(q, state, cop, thief);
    assert Seated(s, q.code, q.cop) && Seated(s, q.code, q.thief);
  }

  lemma CreateScene(q: Cast)
    requires q.Distinct()
    ensures Moves(Opening(q, 0), OpeningStep(q, 0), Opening(q, 1))
  {
    var s := Opening(q, 1);
    assert |s.rooms[q.code].members| == 1;
  }

  lemma JoinScene(q: Cast)
    requires q.Distinct()
    ensures Moves(Opening(q, 1), OpeningStep(q, 1), Opening(q, 2))
  {
    var s := Opening(q, 1);
    assert |s.rooms[q.code].members| == 1;
    assert |Opening(q, 2).rooms[q.code].members| == 2;
  }

  lemma PairPut(q: Cast, state: RoomState, cop: Member, thief: Member, p: Party, newCop: Member, newThief: Member)
    requires q.Distinct() && p.members == map[q.cop := newCop, q.thief := newThief]
    requires p == Pair(q, state, cop, thief).rooms[q.code].(members := p.members)
    ensures Put(Pair(q, state, cop, thief), q.code, p) == Pair(q, state, newCop, newThief)
  {
  }

  lemma PairSelects(q: Cast, state: RoomState, cop: Member, thief: Member, role: Role)
    requires q.Distinct()
    ensures var s, p := Pair(q, state, cop, thief), Pair(q, state, cop, thief).rooms[q.code];
            && Put(s, q.code, Selected(p, q.cop, role)) == Pair(q, state, cop.(role := role), thief)
            && Put(s, q.code, Selected(p, q.thief, role)) == Pair(q, state, cop, thief.(role := role))
  {
    var p := Pair(q, state, cop, thief).rooms[q.code];
    PairPut(q, state, cop, thief, Selected(p, q.cop, role), cop.(role := role), thief);
    PairPut(q, state, cop, thief, Selected(p, q.thief, role), cop, thief.(role := role));
  }

  lemma PairToggles(q: Cast, state: RoomState, cop: Member, thief: Member)
    requires q.Distinct()
    ensures var s, p := Pair(q, state, cop, thief), Pair(q, state, cop, thief).rooms[q.code];
            && Put(s, q.code, Toggled(p, q.cop)) == Pair(q, state, cop.(ready := !cop.ready), thief)
            && Put(s, q.code, Toggled(p, q.thief)) == Pair(q, state, cop, thief.(ready := !thief.ready))
            && Toggled(p, q.cop) == Pair(q, state, cop.(ready := !cop.ready), thief).rooms[q.code]
            && Toggled(p, q.thief) == Pair(q, state, cop, thief.(ready := !thief.ready)).rooms[q.code]
  {
    var p := Pair(q, state, cop, thief).rooms[q.code];
    PairPut(q, state, cop, thief, Toggled(p, q.cop), cop.(ready := !cop.ready), thief);
    PairPut(q, state, cop, thief, Toggled(p, q.thief), cop, thief.(ready := !thief.ready));
  }

  lemma PairTeams(q: Cast, state: RoomState, cop: Member, thief: Member)
    requires q.Distinct() && cop.role == Police && thief.role == Thief
    ensures AllReady(Pair(q, state, cop, thief).rooms[q.code].members) <==> cop.ready && thief.ready
  {
    PairSize(q, state, cop, thief);
    var members := Pair(q, state, cop, thief).rooms[q.code].members;
    assert members[q.cop] == cop && members[q.thief] == thief;
  }

  lemma PickScene(q: Cast, k: nat)
    requires q.Distinct() && 2 <= k <= 3
    ensures Moves(Opening(q, k), OpeningStep(q, k), Opening(q, k + 1))
  {
    PairSeats(q, Waiting, NEW_MEMBER, NEW_MEMBER);
    PairSeats(q, Waiting, Member(Police, false), NEW_MEMBER);
    PairSelects(q, Waiting, NEW_MEMBER, NEW_MEMBER, Police);
    PairSelects(q, Waiting, Member(Police, false), NEW_MEMBER, Thief);
    hide PoliceOf, Finds, Selected;
  }

  lemma ReadyScene(q: Cast, k: nat)
    requires q.Distinct() && 4 <= k <= 5
    ensures Moves(Opening(q, k), OpeningStep(q, k), Opening(q, k + 1))
    ensures k == 5 ==> Prepares(Opening(q, k), OpeningStep(q, k), q.code)
  {
    PairSeats(q, Waiting, Member(Police, false), Member(Thief, false));
    PairSeats(q, Waiting, Member(Police, true), Member(Thief, false));
    PairToggles(q, Waiting, Member(Police, false), Member(Thief, false));
    PairToggles(q, Waiting, Member(Police, true), Member(Thief, false));
    PairTeams(q, Waiting, Member(Police, true), Member(Thief, false));
    PairTeams(q, Waiting, Member(Police, true), Member(Thief, true));
    hide PoliceOf, Finds, Toggled, AllReady;
  }

  lemma PairSize(q: Cast, state: RoomState, cop: Member, thief: Member)
    requires q.Distinct()
    ensures |Pair(q, state, cop, thief).rooms[q.code].members| == 2
  {
    assert Pair(q, state, cop, thief).rooms[q.code].members.Keys == {q.cop, q.thief};
  }

  /** From an empty server six steps lead to a playing room with a complete team. */
  lemma OpeningRuns(q: Cast) returns (run: seq<Server>, steps: seq<Step>)
    requires q.Distinct()
    ensures Runs(run, steps) && |steps| == OPENING
    ensures run[OPENING] == Pair(q, Playing, Member(Police, true), Member(Thief, true))
    ensures AllReady(run[OPENING].rooms[q.code].members) && Prepares(run[5], steps[5], q.code)
  {
    hide Moves, Pair, Solo, AllReady;
    run := seq(OPENING + 1, k requires 0 <= k <= OPENING => Opening(q, k));
    steps := seq(OPENING, k requires 0 <= k < OPENING => OpeningStep(q, k));
    CreateScene(q);
    JoinScene(q);
    PickScene(q, 2);
    PickScene(q, 3);
    ReadyScene(q, 4);
    ReadyScene(q, 5);
    PairTeams(q, Playing, Member(Police, true), Member(Thief, true));
  }

  lemma RunsOn(run: seq<Server>, steps: seq<Step>, step: Step, t: Server)
    requires Runs(run, steps) && Moves(run[|steps|], step, t)
    ensures Runs(run + [t], steps + [step])
  {
    hide Moves;
  }

  /** The only thief may leave during a game: the room plays on with none. */
  lemma ThiefLeaves(q: Cast) returns (run: seq<Server>, steps: seq<Step>)
    requires q.Distinct()
    ensures Runs(run, steps)
    ensures run[|steps|] == Solo(q, Playing, Member(Police, true))
  {
    run, steps := OpeningRuns(q);
    LeaveScene(q);
    hide Runs, Moves, Pair, Solo;
    RunsOn(run, steps, Leave(q.thiefClient, Some(q.code), q.cop), Solo(q, Playing, Member(Police, true)));
    run := run + [Solo(q, Playing, Member(Police, true))];
    steps := steps + [Leave(q.thiefClient, Some(q.code), q.cop)];
  }

  lemma LeaveScene(q: Cast)
    requires q.Distinct()
    ensures Moves(Pair(q, Playing, Member(Police, true), Member(Thief, true)),
                  Leave(q.thiefClient, Some(q.code), q.cop), Solo(q, Playing, Member(Police, true)))
  {
    PairSeats(q, Playing, Member(Police, true), Member(Thief, true));
    hide PoliceOf, Finds;
    var s := Pair(q, Playing, Member(Police, true), Member(Thief, true));
    var room := Removed(s.rooms[q.code], q.thief, q.cop);
    assert room.members == map[q.cop := Member(Police, true)];
    assert room.clients == map[q.cop := q.copClient];
    assert room.members != map[];
    assert s.playerMap - {q.thiefClient} == map[q.copClient := q.cop];
    assert s.rooms[q.code := room] == map[q.code := room];
  }

  /** A finished game may be followed by another without a return to the lobby. */
  lemma Rematch(q: Cast) returns (run: seq<Server>, steps: seq<Step>)
    requires q.Distinct()
    ensures Runs(run, steps) && |steps| == 9
    ensures q.code in run[8].rooms && run[8].rooms[q.code].state == Ended && Prepares(run[8], steps[8], q.code)
    ensures run[9] == Pair(q, Playing, Member(Police, true), Member(Thief, true))
  {
    run, steps := OpeningRuns(q);
    EndScene(q);
    var off := Ready(q.copClient, Some(q.code));
    var s7 := Pair(q, Ended, Member(Police, true), Member(Thief, true));
    var s8 := Pair(q, Ended, Member(Police, false), Member(Thief, true));
    var s9 := Pair(q, Playing, Member(Police, true), Member(Thief, true));
    RematchScene(q, Ended);
    hide Moves, Pair;
    RunsOn(run, steps, GameOver(q.code), s7);
    RunsOn(run + [s7], steps + [GameOver(q.code)], off, s8);
    RunsOn(run + [s7] + [s8], steps + [GameOver(q.code)] + [off], off, s9);
    run := run + [s7] + [s8] + [s9];
    steps := steps + [GameOver(q.code)] + [off] + [off];
  }

  lemma EndScene(q: Cast)
    requires q.Distinct()
    ensures Moves(Pair(q, Playing, Member(Police, true), Member(Thief, true)), GameOver(q.code),
                  Pair(q, Ended, Member(Police, true), Member(Thief, true)))
  {
  }

  /** In any state the cop of a ready pair toggles twice. */
  lemma RematchScene(q: Cast, state: RoomState)
    requires q.Distinct()
    ensures var off, s := Ready(q.copClient, Some(q.code)), Pair(q, state, Member(Police, false), Member(Thief, true));
            && Moves(Pair(q, state, Member(Police, true), Member(Thief, true)), off, s)
            && Moves(s, off, Pair(q, Playing, Member(Police, true), Member(Thief, true)))
            && s.rooms[q.code].state == state && Prepares(s, off, q.code)
  {
    CopToggles(q, state, true);
    CopToggles(q, state, false);
    hide Moves, Prepares;
  }

  lemma CopToggles(q: Cast, state: RoomState, ready: bool)
    requires q.Distinct()
    ensures var off, s := Ready(q.copClient, Some(q.code)), Pair(q, state, Member(Police, ready), Member(Thief, true));
            && Moves(s, off, Pair(q, if ready then state else Playing, Member(Police, !ready), Member(Thief, true)))
            && (Prepares(s, off, q.code) <==> !ready)
  {
    var cop, thief := Member(Police, ready), Member(Thief, true);
    PairSeats(q, state, cop, thief);
    PairToggles(q, state, cop, thief);
    PairTeams(q, state, cop.(ready := !ready), thief);
    hide PoliceOf, Finds, Toggled, AllReady;
  }
}
