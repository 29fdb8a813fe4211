/** The game engine: the page's closure variables as the fields of one object
    and every callback (button click, interval tick, key press, animation end,
    hit timeout) as a method that runs to completion. */
module Game {
  import Settings
  import Scheduler
  import opened Letters

  datatype Option<T> = None | Some(value: T)

  /** Length of a game in seconds. */
  const GAME_DURATION: int := 60

  /** Points for each letter a key press hits. */
  const HIT_POINTS: int := 10

  /** Every live interval is reachable through its handle variable; while
      paused no spawn or clock interval is live, while running no countdown
      is, and while running and not paused both a spawn and a clock interval
      are; the countdown counter is 1, 2 or 3. */
  ghost predicate PhaseOk(t: Scheduler.Timers, running: bool, paused: bool)
  {
    Scheduler.Tracked(t) &&
    (paused ==> t.generateInterval !in t.live && t.timerInterval !in t.live) &&
    (running ==> t.countdownInterval !in t.live) &&
    (running && !paused ==> t.generateInterval in t.live && t.timerInterval in t.live) &&
    (t.countdownInterval in t.live ==> 0 < t.live[t.countdownInterval].count <= Scheduler.COUNTDOWN_START)
  }

  /** The score is a non-negative multiple of the points per hit. */
  predicate ScoreOk(score: int)
  {
    0 <= score && score % HIT_POINTS == 0
  }

  /** Adding points for any number of hits keeps the score a non-negative
      multiple of the points per hit. */
  lemma {:induction false} ScoreOkAdd(score: int, hits: nat)
    requires ScoreOk(score)
    ensures ScoreOk(score + HIT_POINTS * hits)
  {
    if hits > 0 {
      ScoreOkAdd(score, hits - 1);
      assert score + HIT_POINTS * hits == (score + HIT_POINTS * (hits - 1)) + HIT_POINTS;
    }
  }

  /** The letters are capital letters in spawn order, with identities below
      the next one to be given out, and every letter marked hit still has a
      removal timeout pending. */
  ghost predicate LettersOk(ls: seq<FallingLetter>, nextId: nat, pending: seq<nat>)
  {
    Increasing(ls) &&
    (forall i :: 0 <= i < |ls| ==> 'A' <= ls[i].text <= 'Z' && ls[i].id < nextId) &&
    HitsPending(ls, pending)
  }

  /** A key press keeps the letters well formed. */
  lemma KeyPressKeepsLettersOk(ls: seq<FallingLetter>, nextId: nat, pending: seq<nat>, pressed: string)
    requires LettersOk(ls, nextId, pending)
    ensures LettersOk(MarkHits(ls, pressed), nextId, pending + MatchingIds(ls, pressed))
  {
    MarkHitsKeepsOrder(ls, pressed);
    MarkHitsKeepsPending(ls, pending, pressed);
  }

  /** The remaining time is within 0..60, and positive while the clock
      interval is live or the pause button is enabled. */
  ghost predicate ClockOk(t: Scheduler.Timers, remaining: int, pauseEnabled: bool)
  {
    0 <= remaining <= GAME_DURATION &&
    (pauseEnabled ==> remaining > 0) &&
    (t.timerInterval in t.live ==> remaining > 0)
  }

  class TypingGame {
    var gameRunning: bool
    var gamePaused: bool
    var score: int
    var remainingTime: int
    var highscore: int
    /** The falling letters that are children of the play area, in order. */
    var letters: seq<FallingLetter>
    /** Identity of the next letter element to be created. */
    var nextLetterId: nat
    /** The letters whose 50 ms hit-removal timeouts have not fired yet, one
        entry per hit, in the order the timeouts were set (and will fire). */
    var pendingHits: seq<nat>
    /** The live intervals and the three interval handle variables. */
    var timers: Scheduler.Timers
    /** Whether the pause button can be clicked. */
    var pauseEnabled: bool

    /** The invariant apart from the remaining time: the intervals agree with
        the phase, the score is a non-negative multiple of the points per
        hit, the highscore is non-negative, and the letters are well formed. */
    ghost predicate Consistent()
      reads this
    {
      PhaseOk(timers, gameRunning, gamePaused) &&
      ScoreOk(score) && 0 <= highscore &&
      LettersOk(letters, nextLetterId, pendingHits)
    }

    /** The full invariant: the remaining time stays within 0..60 and is
        positive whenever the clock interval is live or the pause button is
        enabled, so the clock never counts below zero. */
    ghost predicate Valid()
      reads this
    {
      Consistent() && ClockOk(timers, remainingTime, pauseEnabled)
    }

    /** The page as loaded: the stored highscore, or 0 when nothing is
        stored; the initial state of the pause button is the page's. */
    constructor (stored: Option<nat>, pauseButtonEnabled: bool)
      ensures Valid()
      ensures !gameRunning && !gamePaused && score == 0 && remainingTime == GAME_DURATION
      ensures highscore == (if stored.Some? then stored.value else 0)
      ensures letters == [] && pendingHits == [] && timers.live == map[] && pauseEnabled == pauseButtonEnabled
    {
      remainingTime := GAME_DURATION;
      score := 0;
      highscore := if stored.Some? then stored.value else 0;
      gameRunning := false;
      gamePaused := false;
      letters := [];
      nextLetterId := 0;
      pendingHits := [];
      timers := Scheduler.Initial;
      pauseEnabled := pauseButtonEnabled;
    }

    /** The start button: reset, enable the pause button, start the countdown. */
    method ClickStart()
      requires Valid()
      modifies this`gameRunning, this`gamePaused, this`timers, this`letters, this`score,
               this`remainingTime, this`pauseEnabled
      ensures Valid()
      ensures !gameRunning && !gamePaused && score == 0 && remainingTime == GAME_DURATION && letters == []
      ensures pauseEnabled
      ensures timers.live == map[timers.countdownInterval := Scheduler.Countdown(Scheduler.COUNTDOWN_START)]
    {
      ResetGame();
      pauseEnabled := true;
      StartCountdown();
    }

    /** The pause button: pause when running, resume when paused. */
    method ClickPause(d: Settings.Difficulty)
      requires Valid() && pauseEnabled
      modifies this`gamePaused, this`timers
      ensures Valid()
      ensures gamePaused == !old(gamePaused)
      ensures !old(gamePaused) ==> timers == Scheduler.ClearPlay(old(timers))
      ensures old(gamePaused) ==> timers == Scheduler.SchedulePlay(old(timers), Settings.For(d).fallDuration)
    {
      if !gamePaused {
        PauseGame();
      } else {
        ResumeGame(d);
      }
    }

    /** The reset button. */
    method ClickReset()
      requires Valid()
      modifies this`gameRunning, this`gamePaused, this`timers, this`letters, this`score,
               this`remainingTime, this`pauseEnabled
      ensures Valid()
      ensures !gameRunning && !gamePaused && score == 0 && remainingTime == GAME_DURATION && letters == []
      ensures timers.live == map[] && !pauseEnabled
    {
      ResetGame();
    }

    /** `startCountdown`: a countdown interval whose counter starts at 3. */
    method StartCountdown()
      requires Valid() && !gameRunning && timers.countdownInterval !in timers.live
      modifies this`timers
      ensures Valid()
      ensures timers == Scheduler.StartCountdown(old(timers))
    {
      timers := Scheduler.StartCountdown(timers);
    }

    /** One tick of the countdown interval `h`; `d` is the difficulty selected
        at that moment. The counter drops by one; when it reaches 0 the
        interval is cleared and the game starts. */
    method CountdownTick(h: nat, d: Settings.Difficulty)
      requires Valid() && h in timers.live && timers.live[h].Countdown?
      modifies this`gameRunning, this`gamePaused, this`score, this`remainingTime, this`timers
      ensures Valid()
      ensures var count := old(timers.live[h].count) - 1;
              if count > 0 then
                timers == old(timers).(live := old(timers.live)[h := Scheduler.Countdown(count)]) &&
                gameRunning == old(gameRunning) && gamePaused == old(gamePaused) &&
                score == old(score) && remainingTime == old(remainingTime)
              else
                gameRunning && !gamePaused && score == 0 && remainingTime == GAME_DURATION &&
                timers == Scheduler.SchedulePlay(Scheduler.StopCountdown(old(timers)), Settings.For(d).fallDuration)
    {
      var count := timers.live[h].count - 1;
      if count <= 0 {
        timers := Scheduler.StopCountdown(timers);
        StartGame(d);
      } else {
        timers := timers.(live := timers.live[h := Scheduler.Countdown(count)]);
      }
    }

    /** `startGame`: running, not paused, score 0, a full minute, and a spawn
        and a clock interval for difficulty `d`. */
    method StartGame(d: Settings.Difficulty)
      requires Valid() && timers.countdownInterval !in timers.live
      modifies this`gameRunning, this`gamePaused, this`score, this`remainingTime, this`timers
      ensures Valid()
      ensures gameRunning && !gamePaused && score == 0 && remainingTime == GAME_DURATION
      ensures timers == Scheduler.SchedulePlay(old(timers), Settings.For(d).fallDuration)
    {
      gameRunning := true;
      gamePaused := false;
      score := 0;
      remainingTime := GAME_DURATION;
      var setting := Settings.For(d);
      timers := Scheduler.SchedulePlay(timers, setting.fallDuration);
    }

    /** One tick of the spawn interval `h`; `r` is the random draw. */
    method GenerateTick(h: nat, r: nat)
      requires Valid() && h in timers.live && timers.live[h].Spawn? && r < 26
      modifies this`letters, this`nextLetterId
      ensures Valid()
      ensures !gameRunning || gamePaused ==> letters == old(letters) && nextLetterId == old(nextLetterId)
      ensures gameRunning && !gamePaused ==>
                letters == old(letters) + [FallingLetter(old(nextLetterId), LetterFor(r), timers.live[h].fallDuration, false)] &&
                nextLetterId == old(nextLetterId) + 1
    {
      CreateFallingLetter(timers.live[h].fallDuration, r);
    }

    /** `createFallingLetter`: unless the game is stopped or paused, append
        one new letter, drawn by `r`, falling for `duration` ms. */
    method CreateFallingLetter(duration: nat, r: nat)
      requires Valid() && r < 26
      modifies this`letters, this`nextLetterId
      ensures Valid()
      ensures !gameRunning || gamePaused ==> letters == old(letters) && nextLetterId == old(nextLetterId)
      ensures gameRunning && !gamePaused ==>
                letters == old(letters) + [FallingLetter(old(nextLetterId), LetterFor(r), duration, false)] &&
                nextLetterId == old(nextLetterId) + 1
    {
      if !gameRunning || gamePaused {
        return;
      }
      var letter := FallingLetter(nextLetterId, LetterFor(r), duration, false);
      letters := letters + [letter];
      nextLetterId := nextLetterId + 1;
    }

    /** One tick of the clock interval `h`. The clock is never live while
        paused, so the remaining time drops by exactly one; when it reaches 0
        the game ends. */
    method TimerTick(h: nat)
      requires Valid() && h in timers.live && timers.live[h].Clock?
      modifies this`remainingTime, this`gameRunning, this`timers, this`pauseEnabled, this`highscore
      ensures Valid()
      ensures remainingTime == old(remainingTime) - 1
      ensures remainingTime > 0 ==>
                gameRunning == old(gameRunning) && timers == old(timers) &&
                pauseEnabled == old(pauseEnabled) && highscore == old(highscore)
      ensures remainingTime == 0 ==>
                !gameRunning && !pauseEnabled && timers == Scheduler.ClearPlay(old(timers)) &&
                highscore == (if old(highscore) < score then score else old(highscore))
    {
      if !gamePaused {
        remainingTime := remainingTime - 1;
        if remainingTime <= 0 {
          EndGame();
        }
      }
    }

    /** A key press. Unless the game is stopped or paused, every live letter
        whose text equals the upper-cased key is marked hit, gets a removal
        timeout, and is worth 10 points; letters already marked hit but not
        yet removed score again. */
    method KeyDown(key: string)
      requires Valid()
      modifies this`score, this`letters, this`pendingHits
      ensures Valid()
      ensures !gameRunning || gamePaused ==>
                score == old(score) && letters == old(letters) && pendingHits == old(pendingHits)
      ensures gameRunning && !gamePaused ==>
                score == old(score) + HIT_POINTS * CountMatching(old(letters), ToUpper(key)) &&
                letters == MarkHits(old(letters), ToUpper(key)) &&
                pendingHits == old(pendingHits) + MatchingIds(old(letters), ToUpper(key))
    {
      if !gameRunning || gamePaused {
        return;
      }
      var pressed := ToUpper(key);
      KeyPressKeepsLettersOk(letters, nextLetterId, pendingHits, pressed);
      ScoreOkAdd(score, CountMatching(letters, pressed));
      HitEach(pressed);
    }

    /** The loop of the key handler over the falling letters: each one whose
        text equals `pressed` adds 10 points, is marked hit and gets a
        removal timeout. */
    method HitEach(pressed: string)
      modifies this`score, this`letters, this`pendingHits
      ensures score == old(score) + HIT_POINTS * CountMatching(old(letters), pressed)
      ensures letters == MarkHits(old(letters), pressed)
      ensures pendingHits == old(pendingHits) + MatchingIds(old(letters), pressed)
    {
      var snapshot := letters;
      var i := 0;
      while i < |snapshot|
        invariant 0 <= i <= |snapshot|
        invariant score == old(score) + HIT_POINTS * CountMatching(snapshot[..i], pressed)
        invariant pendingHits == old(pendingHits) + MatchingIds(snapshot[..i], pressed)
        invariant |letters| == |snapshot|
        invariant forall j :: 0 <= j < i ==> letters[j] == Mark(snapshot[j], pressed)
        invariant forall j :: i <= j < |snapshot| ==> letters[j] == snapshot[j]
      {
        var letter := snapshot[i];
        PrefixStep(snapshot, i, pressed);
        if Matches(letter, pressed) {
          score := score + HIT_POINTS;
          letters := letters[i := letter.(hit := true)];
          pendingHits := pendingHits + [letter.id];
        }
        i := i + 1;
      }
      assert snapshot[..i] == snapshot;
      assert letters == MarkHits(snapshot, pressed);
    }

    /** `pauseGame`: paused, and the spawn and clock intervals cleared, so
        neither the score nor the remaining time can change until resumed. */
    method PauseGame()
      requires Valid()
      modifies this`gamePaused, this`timers
      ensures Valid()
      ensures gamePaused && timers == Scheduler.ClearPlay(old(timers))
      ensures Scheduler.PlayStopped(timers)
    {
      gamePaused := true;
      timers := Scheduler.ClearPlay(timers);
    }

    /** `resumeGame`: not paused, and a fresh spawn and clock interval for
        difficulty `d`, with the score and the remaining time untouched. */
    method ResumeGame(d: Settings.Difficulty)
      requires Valid() && remainingTime > 0
      modifies this`gamePaused, this`timers
      ensures Valid()
      ensures !gamePaused && timers == Scheduler.SchedulePlay(old(timers), Settings.For(d).fallDuration)
    {
      gamePaused := false;
      var setting := Settings.For(d);
      timers := Scheduler.SchedulePlay(timers, setting.fallDuration);
    }

    /** `endGame`, reached when the remaining time has dropped to 0: stopped,
        spawn and clock intervals cleared, pause button disabled, highscore
        updated. The letters on screen keep falling. */
    method EndGame()
      requires Consistent() && remainingTime == 0
      modifies this`gameRunning, this`timers, this`pauseEnabled, this`highscore
      ensures Valid()
      ensures !gameRunning && !pauseEnabled && timers == Scheduler.ClearPlay(old(timers))
      ensures highscore == (if old(highscore) < score then score else old(highscore))
    {
      gameRunning := false;
      timers := Scheduler.ClearPlay(timers);
      pauseEnabled := false;
      UpdateHighscore();
    }

    /** `resetGame`: stopped, not paused, every interval cleared, the play
        area emptied, score 0 and a full minute; the highscore is untouched. */
    method ResetGame()
      requires Valid()
      modifies this`gameRunning, this`gamePaused, this`timers, this`letters, this`score,
               this`remainingTime, this`pauseEnabled
      ensures Valid()
      ensures !gameRunning && !gamePaused && score == 0 && remainingTime == GAME_DURATION && letters == []
      ensures timers == Scheduler.ClearAll(old(timers)) && timers.live == map[]
      ensures !pauseEnabled
    {
      gameRunning := false;
      gamePaused := false;
      timers := Scheduler.ClearAll(timers);
      while |letters| > 0
        modifies this`letters
        decreases |letters|
      {
        letters := letters[1..];
      }
      score := 0;
      remainingTime := GAME_DURATION;
      pauseEnabled := false;
    }

    /** `updateHighscore`: the highscore becomes the larger of itself and the
        score, so it never decreases. */
    method UpdateHighscore()
      modifies this`highscore
      ensures highscore == (if old(highscore) < score then score else old(highscore))
      ensures highscore >= old(highscore) && highscore >= score
    {
      if score > highscore {
        highscore := score;
      }
    }

    /** The end of letter `id`'s fall animation, and the common body of the
        hit-removal timeout: remove the element if the play area still
        contains it. The score is untouched. */
    method RemoveLetter(id: nat)
      requires Valid()
      modifies this`letters
      ensures Valid()
      ensures letters == Remove(old(letters), id)
      ensures Contains(old(letters), id) ==> |letters| == |old(letters)| - 1
      ensures !Contains(old(letters), id) ==> letters == old(letters)
    {
      if Contains(letters, id) {
        RemovePresent(letters, id);
        letters := Remove(letters, id);
      } else {
        RemoveAbsent(letters, id);
      }
    }

    /** The oldest pending 50 ms hit-removal timeout fires: the letter it was
        set for is removed if the play area still contains it. */
    method HitTimeout()
      requires Valid() && pendingHits != []
      modifies this`letters, this`pendingHits
      ensures Valid()
      ensures pendingHits == old(pendingHits[1..])
      ensures letters == Remove(old(letters), old(pendingHits[0]))
    {
      var id := pendingHits[0];
      RemoveLetter(id);
      pendingHits := pendingHits[1..];
    }
  }
}
