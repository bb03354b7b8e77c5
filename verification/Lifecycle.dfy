/**
 The life of one room as the hub and the game loops interleave: a hub step is atomic, and so are the
 two halves of a tick, the locked mechanics and the unlocked win check that may stop the game.
 */
module Lifecycle {
  import opened GameTypes

  /** stopCh is None before the first game, then whether the current stop channel is closed. */
  datatype Life = Life(state: RoomState, stopCh: Option<bool>, remaining: int, gameOvers: seq<WinResult>)

  function Prepared(l: Life): Life {
    l.(state := Playing, stopCh := Some(false), remaining := GAME_DURATION)
  }

  function Stopped(l: Life, result: WinResult): Life {
    if l.state != Playing then l
    else l.(state := Ended, stopCh := Some(true), gameOvers := l.gameOvers + [result])
  }

  /** A game loop is waiting at its select, or between its unlock and its win check. */
  datatype Loop = Selecting | Checking(expired: bool)

  /** The room, its live loops, and what an observer counts: games started, ticks of the latest. */
  datatype System = System(life: Life, loops: seq<Loop>, games: nat, ticks: nat)

  datatype Step =
    | Prepare                          // all ready: PrepareGame and StartGameLoop
    | Return                           // return to the lobby after the game
    | Tick(loop: nat)                  // the ticker fires; the locked half runs
    | Quit(loop: nat)                  // the loop sees the closed stop channel
    | Check(loop: nat, policeWin: bool)

  predicate Enabled(s: System, step: Step) {
    match step
    case Prepare => true
    case Return => s.life.state == Ended
    case Tick(i) => i < |s.loops| && s.loops[i].Selecting?
    case Quit(i) => i < |s.loops| && s.loops[i].Selecting? && s.life.stopCh == Some(true)
    case Check(i, _) => i < |s.loops| && s.loops[i].Checking?
  }

  function Without(loops: seq<Loop>, i: nat): seq<Loop>
    requires i < |loops|
  {
    loops[..i] + loops[i + 1..]
  }

  function Next(s: System, step: Step): System
    requires Enabled(s, step)
  {
    match step
    case Prepare =>
      System(Prepared(s.life), s.loops + [Selecting], s.games + 1, 0)
    case Return =>
      s.(life := s.life.(state := Waiting))
    case Tick(i) =>
      var remaining := s.life.remaining - TICK;
      s.(life := s.life.(remaining := remaining), loops := s.loops[i := Checking(remaining <= 0)], ticks := s.ticks + 1)
    case Quit(i) =>
      s.(loops := Without(s.loops, i))
    case Check(i, policeWin) =>
      if policeWin then s.(life := Stopped(s.life, WinPolice), loops := Without(s.loops, i))
      else if s.loops[i].expired then s.(life := Stopped(s.life, WinThief), loops := Without(s.loops, i))
      else s.(loops := s.loops[i := Selecting])
  }

  const START: System := System(Life(Waiting, None, 0, []), [], 0, 0)

  ghost predicate Steps(run: seq<System>, steps: seq<Step>) {
    && |run| == |steps| + 1
    && run[0] == START
    && (forall k {:trigger steps[k]} :: 0 <= k < |steps| ==> Goes(run[k], steps[k], run[k + 1]))
  }

  predicate Goes(s: System, step: Step, t: System) {
    Enabled(s, step) && t == Next(s, step)
  }

  /** No game is prepared while one is being played. */
  ghost predicate Orderly(run: seq<System>, steps: seq<Step>)
    requires |run| == |steps| + 1
  {
    forall k :: 0 <= k < |steps| && steps[k].Prepare? ==> run[k].life.state != Playing
  }

  /**
   A loop is alive exactly while the room plays, and alone; the stop channel is open exactly then; the
   clock accounts for every tick; and every finished game was announced once.
   */
  predicate Sound(s: System) {
    && |s.loops| <= 1
    && (|s.loops| == 1 <==> s.life.state == Playing)
    && (s.life.stopCh == Some(false) <==> s.life.state == Playing)
    && |s.life.gameOvers| + |s.loops| == s.games
    && (s.games > 0 ==> s.life.remaining + 50 * s.ticks == 180000 && s.ticks <= 3600)
    && (|s.loops| == 1 && s.loops[0].Selecting? ==> s.life.remaining > 0)
    && (|s.loops| == 1 && s.loops[0].Checking? ==> s.loops[0].expired == (s.life.remaining <= 0) && s.ticks > 0)
  }

  lemma SoundStep(s: System, step: Step)
    requires Sound(s) && Enabled(s, step) && (step.Prepare? ==> s.life.state != Playing)
    ensures Sound(Next(s, step))
  {
  }

  /** Every orderly run is sound throughout: no tick after the end, 3600 ticks at most, one announcement a game. */
  lemma {:induction false} OrderlyIsSound(run: seq<System>, steps: seq<Step>, k: nat)
    requires Steps(run, steps) && Orderly(run, steps) && k <= |steps|
    ensures Sound(run[k])
    decreases k
  {
    if k > 0 {
      OrderlyIsSound(run, steps, k - 1);
      assert Goes(run[k - 1], steps[k - 1], run[k]);
      hide Sound, Enabled, Next;
      SoundStep(run[k - 1], steps[k - 1]);
    }
  }

  /** Preparing a game keeps a sound room sound if and only if it is not playing. */
  lemma PrepareIsSafeIff(s: System)
    requires Sound(s)
    ensures Sound(Next(s, Prepare)) <==> s.life.state != Playing
  {
  }

  /** Once the room has ended, no loop can tick until the next game is prepared. */
  lemma NoTickAfterEnd(run: seq<System>, steps: seq<Step>, k: nat)
    requires Steps(run, steps) && Orderly(run, steps) && k < |steps| && steps[k].Tick?
    ensures run[k].life.state == Playing && run[k].life.remaining > 0 && run[k + 1].ticks <= 3600
  {
    OrderlyIsSound(run, steps, k);
    OrderlyIsSound(run, steps, k + 1);
    assert Goes(run[k], steps[k], run[k + 1]);
  }

  /** A step out of Playing is a win check that announces exactly one result and leaves no loop behind. */
  lemma EndAnnouncesOnce(run: seq<System>, steps: seq<Step>, k: nat)
    requires Steps(run, steps) && Orderly(run, steps) && k < |steps|
    ensures (run[k].life.state == Playing && run[k + 1].life.state != Playing) <==>
            |run[k + 1].life.gameOvers| > |run[k].life.gameOvers|
    ensures run[k].life.state == Playing && run[k + 1].life.state != Playing ==>
              && steps[k].Check? && run[k + 1].life.state == Ended && run[k + 1].loops == []
              && run[k + 1].life.gameOvers ==
                 run[k].life.gameOvers + [if steps[k].policeWin then WinPolice else WinThief]
    ensures run[k].life.gameOvers <= run[k + 1].life.gameOvers
  {
    OrderlyIsSound(run, steps, k);
    assert Goes(run[k], steps[k], run[k + 1]);
  }

  /**
   Without the hypothesis all this fails. The ready handler does not look at the room's state, so a
   player who toggles twice during a game prepares another: two loops then run one clock, and after one
   of them has ended the game the other still ticks.
   */
  lemma TwoLoops() returns (run: seq<System>, steps: seq<Step>)
    ensures Steps(run, steps) && !Orderly(run, steps)
    ensures exists k :: 0 <= k < |steps| && run[k].life.state == Ended && steps[k].Tick?
  {
    steps := [Prepare, Prepare, Tick(0), Check(0, true), Tick(0)];
    var s1 := Next(START, Prepare);
    var s2 := Next(s1, Prepare);
    var s3 := Next(s2, Tick(0));
    var s4 := Next(s3, Check(0, true));
    var s5 := Next(s4, Tick(0));
    run := [START, s1, s2, s3, s4, s5];
    assert steps[1].Prepare? && run[1].life.state == Playing;
    assert run[4].life.state == Ended && steps[4].Tick?;
  }

  /**
   An orderly run may prepare a game in a room that has ended, without a return in between: the ready
   handler lets it, and nothing here forbids it.
   */
  lemma Rematch() returns (run: seq<System>, steps: seq<Step>)
    ensures Steps(run, steps) && Orderly(run, steps)
    ensures exists k :: 0 <= k < |steps| && run[k].life.state == Ended && steps[k].Prepare?
  {
    steps := [Prepare, Tick(0), Check(0, true), Prepare];
    var s1 := Next(START, Prepare);
    var s2 := Next(s1, Tick(0));
    var s3 := Next(s2, Check(0, true));
    var s4 := Next(s3, Prepare);
    run := [START, s1, s2, s3, s4];
    assert run[3].life.state == Ended && steps[3].Prepare?;
  }

  /** The whole run is sound if and only if no game is prepared while one is played. */
  lemma SoundIffOrderly(run: seq<System>, steps: seq<Step>)
    requires Steps(run, steps)
    ensures (forall k :: 0 <= k <= |steps| ==> Sound(run[k])) <==> Orderly(run, steps)
  {
    if Orderly(run, steps) {
      forall k | 0 <= k <= |steps|
        ensures Sound(run[k])
      {
        OrderlyIsSound(run, steps, k);
      }
    } else {
      var k :| 0 <= k < |steps| && steps[k].Prepare? && run[k].life.state == Playing;
      assert Goes(run[k], steps[k], run[k + 1]);
      if Sound(run[k]) {
        PrepareIsSafeIff(run[k]);
      }
    }
  }

  // ----- The game comes to an end -----

  /** Ticks and win checks since the game was prepared. */
  function Progress(s: System): int {
    2 * s.ticks - if |s.loops| == 1 && s.loops[0].Checking? then 1 else 0
  }

  lemma PlayingProgresses(s: System, step: Step, t: System)
    requires Sound(s) && s.life.state == Playing && Goes(s, step, t) && !step.Prepare?
    requires t.life.state == Playing
    ensures Progress(t) == Progress(s) + 1
  {
  }

  lemma PlayingBounded(s: System)
    requires Sound(s) && s.life.state == Playing
    ensures 0 <= Progress(s) < 7200
  {
  }

  /**
   Every step of a playing room is a tick or a win check of its loop, and after 3600 of each the game is
   over, even if every player has left and no police win ever comes.
   */
  lemma {:induction false} GameEnds(run: seq<System>, steps: seq<Step>, i: nat, j: nat)
    requires Steps(run, steps) && Orderly(run, steps) && i <= j <= |steps|
    requires forall k :: i <= k <= j ==> run[k].life.state == Playing
    ensures Progress(run[j]) == Progress(run[i]) + (j - i)
    ensures j - i < 7200
    decreases j
  {
    hide Sound, Goes, Progress;
    OrderlyIsSound(run, steps, i);
    OrderlyIsSound(run, steps, j);
    PlayingBounded(run[i]);
    PlayingBounded(run[j]);
    if i < j {
      GameEnds(run, steps, i, j - 1);
      OrderlyIsSound(run, steps, j - 1);
      PlayingProgresses(run[j - 1], steps[j - 1], run[j]);
    }
  }
}
