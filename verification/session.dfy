/** A whole game driven through the engine's event methods: start, three
    countdown ticks, one spawned letter hit by its key, its hit-removal
    timeout, a pause and a resume, then clock ticks until time is up. */
module Session {
  import Settings
  import opened Letters
  import opened Game

  /** Playing one game on a fresh page with nothing stored, hitting the one
      letter drawn by `r`, ends the game at time 0 with 10 points, and the
      highscore becomes 10. */
  method PlayOneHit(d: Settings.Difficulty, r: nat) returns (finalScore: int, finalTime: int, best: int)
    requires r < 26
    ensures finalScore == HIT_POINTS && finalTime == 0 && best == HIT_POINTS
  {
    var g := new TypingGame(None, false);
    Start(g, d);
    SpawnAndHit(g, r);
    PauseAndResume(g, d);
    RunClock(g);
    finalScore, finalTime, best := g.score, g.remainingTime, g.highscore;
  }

  /** The start button and the three countdown ticks: the game is running
      with a full minute, no score and no letters. */
  method Start(g: TypingGame, d: Settings.Difficulty)
    requires g.Valid() && !g.gameRunning && g.letters == [] && g.pendingHits == [] && g.timers.live == map[]
    modifies g
    ensures g.Valid() && g.gameRunning && !g.gamePaused && g.pauseEnabled
    ensures g.score == 0 && g.remainingTime == GAME_DURATION && g.letters == [] && g.pendingHits == []
    ensures g.highscore == old(g.highscore)
  {
    g.ClickStart();
    var countdown := g.timers.countdownInterval;
    g.CountdownTick(countdown, d);
    g.CountdownTick(countdown, d);
    assert !g.gameRunning;
    g.CountdownTick(countdown, d);
  }

  /** One letter is spawned, its key is pressed, and its removal fires: 10
      points and an empty play area. */
  method SpawnAndHit(g: TypingGame, r: nat)
    requires g.Valid() && g.gameRunning && !g.gamePaused && r < 26
    requires g.score == 0 && g.letters == [] && g.pendingHits == []
    modifies g
    ensures g.Valid() && g.gameRunning && !g.gamePaused && g.pauseEnabled == old(g.pauseEnabled)
    ensures g.score == HIT_POINTS && g.letters == [] && g.pendingHits == []
    ensures g.remainingTime == old(g.remainingTime) && g.highscore == old(g.highscore)
  {
    g.GenerateTick(g.timers.generateInterval, r);
    assert |g.letters| == 1 && g.letters[0].text == LetterFor(r);
    var key := [LetterFor(r)];
    assert ToUpper(key) == key;
    g.KeyDown(key);
    assert g.score == HIT_POINTS && g.pendingHits == [g.letters[0].id];
    g.HitTimeout();
  }

  /** Two clicks on the pause button change nothing but the intervals. */
  method PauseAndResume(g: TypingGame, d: Settings.Difficulty)
    requires g.Valid() && g.gameRunning && !g.gamePaused && g.pauseEnabled
    modifies g
    ensures g.Valid() && g.gameRunning && !g.gamePaused
    ensures g.score == old(g.score) && g.remainingTime == old(g.remainingTime) && g.highscore == old(g.highscore)
  {
    g.ClickPause(d);
    assert g.gamePaused;
    g.ClickPause(d);
  }

  /** Clock ticks until the game ends: it ends exactly when the time reaches
      0, and the score becomes the highscore when it beats it. */
  method RunClock(g: TypingGame)
    requires g.Valid() && g.gameRunning && !g.gamePaused
    modifies g
    ensures !g.gameRunning && g.remainingTime == 0 && g.score == old(g.score)
    ensures g.highscore == (if old(g.highscore) < g.score then g.score else old(g.highscore))
  {
    ghost var best := g.highscore;
    while g.gameRunning
      invariant g.Valid() && !g.gamePaused && g.score == old(g.score)
      invariant g.gameRunning ==> g.highscore == best
      invariant !g.gameRunning ==> g.remainingTime == 0 && g.highscore == (if best < g.score then g.score else best)
      decreases g.remainingTime
    {
      g.TimerTick(g.timers.timerInterval);
    }
  }
}
