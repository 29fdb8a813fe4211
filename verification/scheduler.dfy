/** The game's periodic callbacks, modelled as the browser's interval table:
    `setInterval` hands out a fresh positive handle and makes the callback
    live, `clearInterval` makes it dead, and a handle variable that is
    overwritten without being cleared leaves its interval live and
    unreachable. */
module Scheduler {

  /** What a live interval does when it fires. A countdown interval carries
      the counter of its closure; a spawn interval carries the fall duration
      its closure captured; the clock interval decrements the remaining time. */
  datatype Interval = Countdown(count: int) | Spawn(fallDuration: nat) | Clock

  /** The live intervals by handle, the next handle `setInterval` returns, and
      the three variables that hold the last handle of each kind. A handle
      variable is 0 before its first assignment; since handles start at 1,
      clearing it then clears nothing, like clearing `undefined`. */
  datatype Timers = Timers(
    live: map<nat, Interval>,
    nextHandle: nat,
    countdownInterval: nat,
    generateInterval: nat,
    timerInterval: nat)

  /** The countdown shows 3, 2, 1 before the game starts. */
  const COUNTDOWN_START: int := 3

  /** No interval has been created yet. */
  const Initial: Timers := Timers(map[], 1, 0, 0, 0)

  /** Every live interval is reachable through the handle variable of its
      kind, so clearing the three variables stops every callback; handles
      already given out are below `nextHandle`. */
  predicate Tracked(t: Timers)
  {
    0 < t.nextHandle &&
    t.countdownInterval < t.nextHandle && t.generateInterval < t.nextHandle && t.timerInterval < t.nextHandle &&
    (forall h :: h in t.live ==> 0 < h < t.nextHandle) &&
    (forall h :: h in t.live && t.live[h].Countdown? ==> h == t.countdownInterval) &&
    (forall h :: h in t.live && t.live[h].Spawn? ==> h == t.generateInterval) &&
    (forall h :: h in t.live && t.live[h].Clock? ==> h == t.timerInterval) &&
    (t.countdownInterval in t.live ==> t.live[t.countdownInterval].Countdown?) &&
    (t.generateInterval in t.live ==> t.live[t.generateInterval].Spawn?) &&
    (t.timerInterval in t.live ==> t.live[t.timerInterval].Clock?)
  }

  /** No spawn and no clock interval is live. */
  predicate PlayStopped(t: Timers)
  {
    forall h :: h in t.live ==> t.live[h].Countdown?
  }

  /** `clearInterval(h)`. */
  function Clear(t: Timers, h: nat): (r: Timers)
    ensures h !in r.live
    ensures forall k :: k in r.live <==> k in t.live && k != h
    ensures forall k :: k in r.live ==> r.live[k] == t.live[k]
    ensures r.(live := t.live) == t
  {
    t.(live := t.live - {h})
  }

  /** `startCountdown`: a fresh countdown interval whose counter starts at 3. */
  function StartCountdown(t: Timers): (r: Timers)
    ensures r.countdownInterval in r.live && r.live[r.countdownInterval] == Countdown(COUNTDOWN_START)
    ensures Tracked(t) && t.countdownInterval !in t.live ==> Tracked(r)
    ensures Tracked(t) ==> forall h :: h in t.live ==> h in r.live && r.live[h] == t.live[h]
    ensures Tracked(t) ==> r.countdownInterval !in t.live && forall k :: k in r.live ==> k in t.live || k == r.countdownInterval
    ensures r.generateInterval == t.generateInterval && r.timerInterval == t.timerInterval
  {
    var h := t.nextHandle;
    t.(live := t.live[h := Countdown(COUNTDOWN_START)], nextHandle := h + 1, countdownInterval := h)
  }

  /** The countdown callback clearing its own interval; every other interval,
      such as a spawn and a clock interval created by a resume during the
      countdown, stays live with its handle and payload. */
  function StopCountdown(t: Timers): (r: Timers)
    ensures r.countdownInterval !in r.live
    ensures forall k :: k in r.live <==> k in t.live && k != t.countdownInterval
    ensures forall k :: k in r.live ==> r.live[k] == t.live[k]
    ensures r.(live := t.live) == t
    ensures Tracked(t) ==> Tracked(r) && (PlayStopped(t) ==> r.live == map[])
  {
    Clear(t, t.countdownInterval)
  }

  /** `pauseGame` and `endGame`: clear the spawn and the clock interval.
      When every interval is tracked, no spawn or clock interval survives and
      the countdown is left alone. */
  function ClearPlay(t: Timers): (r: Timers)
    ensures r.generateInterval !in r.live && r.timerInterval !in r.live
    ensures forall k :: k in r.live <==> k in t.live && k != t.generateInterval && k != t.timerInterval
    ensures forall k :: k in r.live ==> r.live[k] == t.live[k]
    ensures r.(live := t.live) == t
    ensures Tracked(t) ==> Tracked(r) && PlayStopped(r)
    ensures Tracked(t) && t.countdownInterval in t.live ==>
              r.countdownInterval in r.live && r.live[r.countdownInterval] == t.live[t.countdownInterval]
  {
    Clear(Clear(t, t.generateInterval), t.timerInterval)
  }

  /** `resetGame`: clear the intervals of the three handle variables. When
      every interval is tracked nothing is left live, so no callback of the
      old session can fire; an interval no handle variable holds survives. */
  function ClearAll(t: Timers): (r: Timers)
    ensures forall k :: k in r.live <==> k in t.live && k != t.generateInterval && k != t.timerInterval && k != t.countdownInterval
    ensures forall k :: k in r.live ==> r.live[k] == t.live[k]
    ensures r.(live := t.live) == t
    ensures Tracked(t) ==> Tracked(r) && r.live == map[]
  {
    var r := Clear(ClearPlay(t), t.countdownInterval);
    assert Tracked(t) ==> r.live.Keys == {};
    r
  }

  /** `startGame` and `resumeGame` as written: two fresh intervals, a spawn
      interval that captured `fallDuration` and a clock interval, whose
      handles overwrite the two handle variables without clearing the
      intervals those held. */
  function SchedulePlayAsWritten(t: Timers, fallDuration: nat): (r: Timers)
    ensures r.generateInterval in r.live && r.live[r.generateInterval] == Spawn(fallDuration)
    ensures r.timerInterval in r.live && r.live[r.timerInterval] == Clock
    ensures Tracked(t) ==> forall h :: h in t.live ==> h in r.live && r.live[h] == t.live[h]
    ensures Tracked(t) ==> r.generateInterval !in t.live && r.timerInterval !in t.live &&
                           forall k :: k in r.live ==> k in t.live || k == r.generateInterval || k == r.timerInterval
    ensures r.countdownInterval == t.countdownInterval
  {
    var g := t.nextHandle;
    t.(live := t.live[g := Spawn(fallDuration)][g + 1 := Clock],
       nextHandle := g + 2, generateInterval := g, timerInterval := g + 1)
  }

  /** `startGame` and `resumeGame` corrected: cancel the spawn and clock
      intervals before creating new ones. Exactly one spawn and one clock
      interval are live afterwards, and every interval stays tracked. */
  function SchedulePlay(t: Timers, fallDuration: nat): (r: Timers)
    ensures r.generateInterval in r.live && r.live[r.generateInterval] == Spawn(fallDuration)
    ensures r.timerInterval in r.live && r.live[r.timerInterval] == Clock
    ensures Tracked(t) ==> Tracked(r)
    ensures Tracked(t) ==> forall h :: h in r.live ==> h == r.generateInterval || h == r.timerInterval || h == t.countdownInterval
    ensures r.countdownInterval == t.countdownInterval
    ensures Tracked(t) ==> (t.countdownInterval in t.live <==> r.countdownInterval in r.live)
    ensures Tracked(t) && t.countdownInterval in t.live ==> r.live[r.countdownInterval] == t.live[t.countdownInterval]
  {
    SchedulePlayAsWritten(ClearPlay(t), fallDuration)
  }

  /** The as-written scheduling loses track of a live clock interval: the old
      one stays live but no handle variable reaches it any more, so neither
      `pauseGame`, `endGame` nor `resetGame` can ever clear it. */
  lemma AsWrittenLeaks(t: Timers, fallDuration: nat)
    requires Tracked(t) && t.timerInterval in t.live
    ensures t.timerInterval in SchedulePlayAsWritten(t, fallDuration).live
    ensures !Tracked(SchedulePlayAsWritten(t, fallDuration))
    ensures SchedulePlayAsWritten(t, fallDuration).timerInterval != t.timerInterval
  {
    var r := SchedulePlayAsWritten(t, fallDuration);
    assert r.live[t.timerInterval] == Clock;
  }

  /** Start, pause during the countdown, resume during the countdown, let the
      countdown finish, then reset, with the intervals as written: the clock
      interval created by the resume outlives the reset and keeps firing. */
  lemma LeakScenario(fallDuration: nat)
    ensures var counting := StartCountdown(ClearAll(Initial));
            var resumed := SchedulePlayAsWritten(ClearPlay(counting), fallDuration);
            var started := SchedulePlayAsWritten(StopCountdown(resumed), fallDuration);
            3 in ClearAll(started).live && ClearAll(started).live[3] == Clock
  {
    var counting := StartCountdown(ClearAll(Initial));
    assert counting.countdownInterval == 1 && counting.nextHandle == 2;
    assert counting.generateInterval == 0 && counting.timerInterval == 0;
    var resumed := SchedulePlayAsWritten(ClearPlay(counting), fallDuration);
    assert resumed.timerInterval == 3 && resumed.live[3] == Clock && resumed.nextHandle == 4;
    var started := SchedulePlayAsWritten(StopCountdown(resumed), fallDuration);
    assert started.live[3] == Clock;
    assert started.countdownInterval == 1 && started.generateInterval == 4 && started.timerInterval == 5;
  }

  /** The same sequence with the corrected scheduling leaves nothing live. */
  lemma FixedScenario(fallDuration: nat)
    ensures var counting := StartCountdown(ClearAll(Initial));
            var resumed := SchedulePlay(ClearPlay(counting), fallDuration);
            var started := SchedulePlay(StopCountdown(resumed), fallDuration);
            ClearAll(started).live == map[]
  {
    assert Tracked(Initial);
  }
}
