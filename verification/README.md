# Typing Rhythm Trainer Pro — the game engine in Dafny

The model covers the game engine of `script.js`. Capital letters fall down a
play area, and the player scores 10 points for every live letter whose text
equals the pressed key. A session goes through these steps:

- The start button resets the game and begins a 3-2-1 countdown.
- When the countdown ends, the game runs for 60 seconds. During that time a
  spawn interval adds letters and a one-second clock interval counts the time
  down.
- The pause button stops both intervals. Resuming creates them again.
- When the time reaches 0 the game ends, and the score replaces the
  highscore if it is higher.

The engine is imperative, so it is modelled as one class,
`Game.TypingGame`. Its fields are the page's state:

- the closure variables `gameRunning`, `gamePaused`, `score`, `remainingTime`
  and `highscore`
- the live letters, the DOM children of the play area, kept as a `seq`
- `nextLetterId`, the identity the next letter element gets
- the pending 50 ms hit-removal timeouts
- the browser's live intervals together with the three handle variables
- whether the pause button is enabled, a DOM attribute

Each DOM callback is one method that runs to completion: a button click, an
interval tick, a key press, the end of a letter's fall animation, or a
hit-removal timeout. The handler's state change is that method's
postcondition. Every event method requires and ensures the class invariant
`Valid()`. Three helpers differ: `EndGame` requires only `Consistent()` and a
remaining time of 0, and ensures `Valid()`; `HitEach` and `UpdateHighscore`
state only the fields they change. The invariant says:

- the live intervals agree with the phase of the game;
- the score is a non-negative multiple of 10;
- the letters are capital letters in spawn order, each with a unique identity;
- every letter marked hit still has a removal pending;
- the remaining time stays within 0..60 and is positive while the clock
  interval is live.

The pure parts are modules of functions and lemmas:

- **`Settings`**: the difficulty table.
- **`Letters`**: key upper-casing, hit matching and counting, marking hits,
  and removing a letter element.
- **`Scheduler`**: `setInterval`/`clearInterval` as a value. It is a map from
  handles to live intervals, plus the three handle variables.

`Session.PlayOneHit` drives one whole game through the class methods:

1. start, then three countdown ticks;
2. one spawn tick, its key, and its removal;
3. pause, then resume;
4. clock ticks until the time is up.

It proves that the game ends at time 0 with 10 points, and that 10 becomes
the highscore.

## Behaviour worth knowing

- A key press scores every live letter with the pressed text. A letter that
  is already marked hit but not yet removed scores again.
- The end of the game leaves the letters on screen.
- The pause button is enabled from the start click to the end of the game,
  including during the countdown.
- Pausing cancels the spawn and clock intervals; their callbacks also check
  `gamePaused`, which matters only for an interval that was never cancelled.

## Model

| member | source | states |
|---|---|---|
| Settings.For | script.js:29-33 | every fall duration and spawn period is positive, and a letter is spawned more often than one takes to fall |
| Letters.LetterFor | script.js:112 | a random draw in 0..25 yields a capital letter |
| Letters.EveryLetterSpawnable | script.js:112 | every capital letter can be drawn |
| Letters.UpperChar | script.js:134 | the result is a capital letter exactly when the input is a letter of either case, the dotless i or the long s; capitals are unchanged, each lower-case letter becomes its own capital, the dotless i becomes 'I' and the long s 'S' |
| Letters.MatchNeedsLetterKey | script.js:134-139 | a key hits a capital letter exactly when it is one character whose upper case is that letter |
| Letters.Matches | script.js:139 | a key hits a letter exactly when the upper-cased key, as a string, equals the letter's text |
| Letters.KeyHits | script.js:134-139 | the keys that hit a capital letter are exactly that letter, its lower-case form, and the dotless i for 'I' and the long s for 'S' |
| Letters.CountMatching | script.js:138-141 | the number of hit letters never exceeds the number of live letters |
| Letters.CountMatchingExtremes | script.js:138-141 | the count is 0 exactly when no letter matches, and equals the number of letters exactly when all match |
| Letters.CountMatchingAppend | script.js:138-141 | hits over a concatenation add up |
| Letters.MatchingIds | script.js:144-146 | the removal timeouts a key press sets, in play-area order: at most one per live letter |
| Letters.MatchingIdsFromHits | script.js:138-146 | every removal scheduled by a key press targets a letter that the key hits |
| Letters.MatchingIdsCount | script.js:138-146 | one removal is scheduled per hit letter, as many as the points awarded |
| Letters.MatchingIdsAppend | script.js:138-146 | removals scheduled over a concatenation are those of the parts, in order |
| Letters.PrefixStep | script.js:138-146 | one more step of the letter loop adds that letter's hit, if any, to the count and to the removals |
| Letters.Mark | script.js:139-143 | a letter keeps its identity, text and fall duration, and carries the hit class exactly when it had it or the key hits it |
| Letters.MarkHits | script.js:138-143 | a key press keeps every letter in place, marks exactly the hit ones and changes nothing else |
| Letters.MarkHitsKeepsOrder | script.js:138-143 | marking hits keeps the letters in spawn order |
| Letters.MatchingIdsHas | script.js:139-146 | every hit letter gets a removal scheduled |
| Letters.MarkHitsKeepsPending | script.js:143-146 | after a key press every letter marked hit still has a pending removal |
| Letters.NoMatchNoChange | script.js:133-141 | a key that hits no letter leaves the letters unchanged and schedules no removal |
| Letters.Contains | script.js:124 | the play area holds the element with that identity |
| Letters.Remove | script.js:123-127 | removing an element drops exactly the letters with that identity, adds nothing and never grows the list |
| Letters.RemoveAbsent | script.js:124 | removing an element that is no longer in the play area changes nothing |
| Letters.RemovePresent | script.js:124-125 | removing a present element removes exactly one letter and keeps spawn order |
| Letters.RemoveKeepsIncreasing | script.js:123-127 | removal never breaks spawn order |
| Scheduler.Clear | script.js:73 | clearing a handle kills that interval and no other; every other interval keeps its payload and the handle variables are unchanged |
| Scheduler.StartCountdown | script.js:66-70 | a countdown interval with counter 3 becomes live at a fresh handle stored in the countdown handle variable; existing intervals are kept, nothing else appears, the other handle variables stay, and when no countdown was live every interval stays tracked |
| Scheduler.StopCountdown | script.js:72-73 | the countdown interval is dead and every other interval stays live with its payload, the handle variables unchanged; with no play interval live nothing is left live |
| Scheduler.ClearPlay | script.js:154-155 | exactly the intervals of the spawn and clock handle variables die; every other interval keeps its payload and the handle variables are unchanged; when every interval is tracked no spawn or clock interval is live afterwards |
| Scheduler.ClearAll | script.js:200-202 | exactly the intervals of the three handle variables die; every surviving interval keeps its payload and the handle variables are unchanged; when every interval is tracked nothing is live afterwards |
| Scheduler.SchedulePlayAsWritten | script.js:94-106 | a spawn interval with the captured fall duration and a clock interval become live and the countdown handle variable stays; when every interval is tracked, the new handles are fresh, every interval already live stays live, and nothing else appears |
| Scheduler.SchedulePlay | script.js:94-106 | the same two intervals are live; every interval stays tracked, nothing besides them and the countdown is live, and the countdown is kept |
| Scheduler.AsWrittenLeaks | script.js:98-106 | scheduling over a live clock interval leaves the old one live and unreachable from any handle variable |
| Scheduler.LeakScenario | script.js:162-178 | start, pause, resume during the countdown, countdown end, then reset: a clock interval is still live |
| Scheduler.FixedScenario | script.js:197-202 | the same sequence with cancel-before-reschedule leaves nothing live after reset |
| Game.ScoreOkAdd | script.js:140 | adding 10 points per hit keeps the score a non-negative multiple of 10 |
| Game.KeyPressKeepsLettersOk | script.js:138-146 | a key press keeps the letters capital, in spawn order and covered by pending removals |
| Game.TypingGame.constructor | script.js:18-26 | a stopped, unpaused game with score 0, 60 seconds, no letters, no intervals, and the stored highscore or 0 |
| Game.TypingGame.ClickStart | script.js:41-47 | the game is reset, the pause button enabled, and exactly one interval is live: a countdown at 3 |
| Game.TypingGame.ClickPause | script.js:50-58 | the paused flag flips; pausing clears the play intervals and resuming schedules them again |
| Game.TypingGame.ClickReset | script.js:61-63 | not running, not paused, score 0, 60 seconds, no letters, no live interval |
| Game.TypingGame.StartCountdown | script.js:66-80 | the interval table gains a countdown at 3 |
| Game.TypingGame.CountdownTick | script.js:70-79 | the counter drops by one; when it reaches 0 the countdown is cleared and the game starts |
| Game.TypingGame.StartGame | script.js:83-107 | running, not paused, score 0, 60 seconds, with a spawn and a clock interval for the chosen difficulty |
| Game.TypingGame.GenerateTick | script.js:94-96 | a spawn tick creates a letter with the fall duration its interval captured |
| Game.TypingGame.CreateFallingLetter | script.js:110-129 | nothing changes unless running and not paused; otherwise exactly one new unhit capital letter is appended |
| Game.TypingGame.TimerTick | script.js:98-106 | the remaining time drops by exactly 1; at 0 the game ends, the play intervals are cleared and the highscore updated |
| Game.TypingGame.KeyDown | script.js:132-149 | nothing changes unless running and not paused; otherwise the score grows by 10 per hit letter, exactly the hit letters are marked, and one removal per hit is scheduled |
| Game.TypingGame.HitEach | script.js:138-148 | the loop over the letters adds 10 per hit, marks the hits in place and schedules their removals in order |
| Game.TypingGame.PauseGame | script.js:152-159 | paused, and no spawn or clock interval is live |
| Game.TypingGame.ResumeGame | script.js:162-182 | unpaused, with the play intervals scheduled again |
| Game.TypingGame.EndGame | script.js:185-194 | not running, the pause button disabled, the play intervals cleared, and the highscore the larger of the old highscore and the score |
| Game.TypingGame.ResetGame | script.js:197-213 | not running, not paused, score 0, 60 seconds, no letters, no live interval; the highscore is untouched |
| Game.TypingGame.UpdateHighscore | script.js:216-221 | the highscore never decreases and becomes the larger of the old highscore and the score |
| Game.TypingGame.RemoveLetter | script.js:123-127 | the element is removed if it is still present, and only then does the play area shrink; the score is outside its frame |
| Game.TypingGame.HitTimeout | script.js:144-146 | the oldest pending removal fires and removes its letter if it is still present |
| Session.PlayOneHit | script.js:41-221 | one game with one hit on a fresh page ends at time 0 with 10 points and a highscore of 10 |
| Session.Start | script.js:41-89 | the start click and three countdown ticks lead to a running game with 60 seconds, score 0 and no letters |
| Session.SpawnAndHit | script.js:110-146 | one spawned letter hit by its key gives 10 points and leaves the play area empty |
| Session.PauseAndResume | script.js:50-58 | pausing and resuming keeps the score and the remaining time |
| Session.RunClock | script.js:98-106 | clock ticks end the game exactly when the time reaches 0, and the highscore becomes the larger of the old highscore and the score |

## Left out

- DOM lookups, text updates, button labels, the theme toggle and `alert`.
  They are presentation only. The pause button's disabled flag is modelled,
  because it decides when pause and resume can happen.
- Game.TypingGame.ClickStart and Game.TypingGame.ClickReset are accepted in
  every state. The page allows them only while their buttons are enabled:
  the start button is disabled from the start click (script.js:43) until
  `endGame` or `resetGame` (190, 210), and the reset button is enabled by
  the start click (45) and disabled by `resetGame` (212). These two flags
  are not modelled, so the model admits more click sequences than the page;
  every property proved holds for those sequences too.
- `localStorage`. The stored highscore is a constructor parameter (`None` when
  missing). Writing it back is not modelled. The numeric coercion of the
  stored string is not modelled either; the stored value is taken to be a
  non-negative integer.
- Real time. Each interval or timeout firing is an explicit method call, and
  the relative order of ticks is left to the caller. The 50 ms hit-removal
  timeout is the `HitTimeout` event. The timeouts fire in the order they
  were set.
- `Math.random` and the pixel position `posX`. The letter draw is a
  parameter in 0..25. The position is a floating-point layout value with no
  effect on the game state.
- CSS animation play state. The end of a letter's fall (`RemoveLetter`) is
  accepted while paused too. That is more than the browser allows, so the
  invariants proved are stronger than the page needs.
- The initial `disabled` state of the pause button comes from the page
  markup, which is not part of this model. It is a constructor parameter.
- Game.TypingGame.TimerTick: its contract covers only the live clock
  interval, which the invariant keeps off while paused. The `!gamePaused`
  guard is kept in the body but is never false there.
- Letters.UpperChar: upper-casing covers only the characters whose upper case
  is a single capital letter (a-z, the dotless i and the long s). Every
  other character is left unchanged, and the key's length is kept. Keys
  that upper-case to several characters (such as the sharp s) cannot hit a
  letter either way.
- Scheduler.LeakScenario: it states that the leaked clock interval is live
  after the reset. It does not give the whole interval table.
- Game.TypingGame.StartGame and Game.TypingGame.ResumeGame use the corrected
  scheduling `Scheduler.SchedulePlay`, not the code as written (see
  Findings). The class therefore does not reproduce the leaked interval.

## Findings

| source | as written | input that shows it | evidently intended | confidence | as-written member | corrected member |
|---|---|---|---|---|---|---|
| script.js:94-106 | `startGame` assigns fresh interval handles to `generateInterval` and `timerInterval` without clearing the intervals those variables hold | start, pause during the countdown (the pause button is enabled at line 44), resume during the countdown, let the countdown finish: the spawn and clock intervals made by the resume (167-178) are overwritten by `startGame` without being cleared. It keeps decrementing the time after `endGame`, calls `endGame` every second after the time is up, and survives `resetGame` | cancel the spawn and clock intervals before scheduling new ones, so every live interval stays reachable and a reset stops them all | not executed | Scheduler.SchedulePlayAsWritten, Scheduler.AsWrittenLeaks, Scheduler.LeakScenario | Scheduler.SchedulePlay, Scheduler.FixedScenario |
