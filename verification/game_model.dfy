/**
 The state machine of the NumberGuessing component, on values.

 The component keeps six React state cells. Each click handler issues a batch of
 `setX` calls, which React applies together; after the batch, the effect keyed on
 `gameStarted` and `paused` runs when one of them changed and, if the game is
 started and not paused, draws a new secret number. `Step` is exactly that: the
 batched update of the handler (`Handle`) followed by the effect (`Effect`).

 The random draw `Math.floor(Math.random() * 10) + 1` is an explicit argument in
 1..10, and the value of `parseInt` is an abstract `ParsedInt` (a number or NaN).
 */
module GameModel {

  /** Bounds of `Math.floor(Math.random() * 10) + 1`. */
  const DrawMin: int := 1
  const DrawMax: int := 10

  predicate ValidDraw(d: int) {
    DrawMin <= d <= DrawMax
  }

  /** The `number | string` cell `userGuess`: the initial `""`, or whatever
      `parseInt` returned, which is an integer or NaN. */
  datatype Guess = Empty | Num(value: int) | NaN

  /** What `parseInt` can return: never the empty string. */
  type ParsedInt = g: Guess | !g.Empty? witness NaN

  /** The record `NumberGuessingState`: one field per state cell. */
  datatype NumberGuessingState = NumberGuessingState(
    gameStarted: bool,
    gameOver: bool,
    paused: bool,
    targetNumber: int,
    userGuess: Guess,
    attempts: int)

  /** The initial values passed to `useState`. */
  function Initial(): (r: NumberGuessingState)
    ensures Consistent(r) && !r.gameStarted && r.userGuess.Empty?
  {
    NumberGuessingState(false, false, false, 0, Empty, 0)
  }

  /** The six handlers; `ChangeGuess` carries the parsed input value. */
  datatype Action =
    | StartGame
    | PauseGame
    | ResumeGame
    | SubmitGuess
    | TryAgain
    | ChangeGuess(parsed: ParsedInt)

  /** The test in `handleGuess`: the guess is of type number and strictly equal
      to the target. NaN has type number but equals nothing. */
  predicate IsCorrect(g: Guess, target: int)
    ensures IsCorrect(g, target) <==> g == Num(target)
  {
    g.Num? && g.value == target
  }

  /** The batch of `setX` calls a handler issues, before the effect runs. No
      handler sets the target itself, and none makes the counter negative. */
  function Handle(s: NumberGuessingState, a: Action): (r: NumberGuessingState)
    ensures r.targetNumber == s.targetNumber
    ensures s.attempts >= 0 ==> r.attempts >= 0
  {
    match a
    case StartGame => s.(gameStarted := true, gameOver := false, attempts := 0, paused := false)
    case PauseGame => s.(paused := true)
    case ResumeGame => s.(paused := false)
    case SubmitGuess =>
      if IsCorrect(s.userGuess, s.targetNumber) then s.(gameOver := true)
      else s.(attempts := s.attempts + 1)
    case TryAgain => s.(gameStarted := false, gameOver := false, userGuess := Empty, attempts := 0)
    case ChangeGuess(g) => s.(userGuess := g)
  }

  /** The effect runs when a dependency changed, and draws when the game is
      started and not paused. */
  predicate EffectFires(before: NumberGuessingState, after: NumberGuessingState)
    ensures before.gameStarted == after.gameStarted && before.paused == after.paused
            ==> !EffectFires(before, after)
    ensures EffectFires(before, after) ==> after.gameStarted && !after.paused
  {
    (before.gameStarted != after.gameStarted || before.paused != after.paused)
    && after.gameStarted && !after.paused
  }

  /** The effect touches the target only, and only by setting it to the draw. */
  function Effect(before: NumberGuessingState, after: NumberGuessingState, draw: int): (r: NumberGuessingState)
    ensures r.(targetNumber := after.targetNumber) == after
    ensures r.targetNumber == after.targetNumber || r.targetNumber == draw
  {
    if EffectFires(before, after) then after.(targetNumber := draw) else after
  }

  /** One handler invocation followed by the effect. `draw` is the value the
      random source yields should the effect fire. */
  function Step(s: NumberGuessingState, a: Action, draw: int): (r: NumberGuessingState)
    ensures r.(targetNumber := s.targetNumber) == Handle(s, a)
    ensures r.targetNumber == s.targetNumber || r.targetNumber == draw
  {
    Effect(s, Handle(s, a), draw)
  }

  /** Which handlers the rendered UI exposes: the Start button only before the
      game starts, the Pause/Resume button (one or the other by `paused`), the
      input and the Guess button while started and not over, the Try Again
      button once over. */
  predicate Enabled(s: NumberGuessingState, a: Action)
    ensures Enabled(s, a) && Consistent(s) && !s.gameStarted ==> a.StartGame?
    ensures Enabled(s, a) && s.gameOver ==> a.TryAgain? || a.StartGame?
  {
    match a
    case StartGame => !s.gameStarted
    case PauseGame => s.gameStarted && !s.gameOver && !s.paused
    case ResumeGame => s.gameStarted && !s.gameOver && s.paused
    case SubmitGuess => s.gameStarted && !s.gameOver
    case ChangeGuess(_) => s.gameStarted && !s.gameOver
    case TryAgain => s.gameOver
  }

  /** Holds in every state the handlers can produce, whatever order they are
      called in: the counter is never negative, the target is the initial 0 or a
      draw, and a started game always has a drawn target. */
  predicate WellFormed(s: NumberGuessingState) {
    && s.attempts >= 0
    && 0 <= s.targetNumber <= DrawMax
    && (s.gameStarted ==> ValidDraw(s.targetNumber))
  }

  /** Holds in every state reachable through the UI: in addition, a game is
      only over once it has been started. */
  predicate Consistent(s: NumberGuessingState) {
    WellFormed(s) && (s.gameOver ==> s.gameStarted)
  }

  // ---------------------------------------------------------------------------
  // The handlers one by one

  /** Start resets the flags and the counter; the effect then draws the target
      unless the game was already running unpaused, which the UI never allows. */
  lemma StartResets(s: NumberGuessingState, d: int)
    requires ValidDraw(d)
    ensures var r := Step(s, StartGame, d);
      && r.gameStarted && !r.gameOver && !r.paused && r.attempts == 0
      && r.userGuess == s.userGuess
      && r.targetNumber == (if s.gameStarted && !s.paused then s.targetNumber else d)
    ensures Enabled(s, StartGame) ==> Step(s, StartGame, d).targetNumber == d
  {
  }

  /** Pause sets `paused` and nothing else; the effect cannot fire after it. */
  lemma PauseOnlyPauses(s: NumberGuessingState, d: int)
    ensures Step(s, PauseGame, d) == s.(paused := true)
  {
  }

  /** Resume of a started game clears `paused` and, when it was paused, the
      effect replaces the target by a fresh draw; counter and guess are kept. */
  lemma ResumeRedraws(s: NumberGuessingState, d: int)
    requires s.gameStarted
    ensures Step(s, ResumeGame, d)
         == s.(paused := false, targetNumber := if s.paused then d else s.targetNumber)
  {
  }

  /** A correct guess ends the game and keeps the counter; any other guess
      (a wrong number, NaN, or the empty string) counts one more attempt. */
  lemma GuessOutcome(s: NumberGuessingState, d: int)
    ensures IsCorrect(s.userGuess, s.targetNumber) ==> Step(s, SubmitGuess, d) == s.(gameOver := true)
    ensures !IsCorrect(s.userGuess, s.targetNumber) ==> Step(s, SubmitGuess, d) == s.(attempts := s.attempts + 1)
  {
  }

  /** A guess that did not parse, or was never entered, is never correct and
      still counts as an attempt. */
  lemma UnparsedGuessCounts(s: NumberGuessingState, d: int)
    requires s.userGuess.NaN? || s.userGuess.Empty?
    ensures Step(s, SubmitGuess, d).attempts == s.attempts + 1
    ensures Step(s, SubmitGuess, d).gameOver == s.gameOver
  {
  }

  /** Try Again stops the game, clears the flags, the input and the counter; it
      keeps `paused` and the old target, and no draw happens. */
  lemma TryAgainResets(s: NumberGuessingState, d: int)
    ensures Step(s, TryAgain, d)
         == s.(gameStarted := false, gameOver := false, userGuess := Empty, attempts := 0)
  {
  }

  /** Editing the input changes only `userGuess`. */
  lemma ChangeGuessOnlyEdits(s: NumberGuessingState, g: ParsedInt, d: int)
    ensures Step(s, ChangeGuess(g), d) == s.(userGuess := g)
  {
  }

  // ---------------------------------------------------------------------------
  // Properties of a single step

  /** The effect fires exactly after Start from a stopped or paused game, and
      after Resume from a paused started game. */
  lemma RedrawIff(s: NumberGuessingState, a: Action)
    ensures EffectFires(s, Handle(s, a))
        <==> ((a.StartGame? && (!s.gameStarted || s.paused))
              || (a.ResumeGame? && s.gameStarted && s.paused))
  {
  }

  /** The target only ever changes by becoming the draw, so every value it
      takes after the initial 0 lies in 1..10. */
  lemma TargetChangesOnlyToDraw(s: NumberGuessingState, a: Action, d: int)
    requires ValidDraw(d)
    ensures var r := Step(s, a, d);
      r.targetNumber != s.targetNumber ==> r.targetNumber == d && DrawMin <= r.targetNumber <= DrawMax
  {
  }

  /** The counter goes back to 0 on Start and Try Again, grows by one on a
      wrong guess, and is otherwise unchanged. */
  lemma AttemptsStep(s: NumberGuessingState, a: Action, d: int)
    ensures var r := Step(s, a, d);
      && ((a.StartGame? || a.TryAgain?) ==> r.attempts == 0)
      && (a.SubmitGuess? && !IsCorrect(s.userGuess, s.targetNumber) ==> r.attempts == s.attempts + 1)
      && (!a.StartGame? && !a.TryAgain? && !(a.SubmitGuess? && !IsCorrect(s.userGuess, s.targetNumber))
          ==> r.attempts == s.attempts)
  {
  }

  /** `gameOver` becomes true only through a correct guess. */
  lemma GameOverOnlyByMatch(s: NumberGuessingState, a: Action, d: int)
    requires !s.gameOver && Step(s, a, d).gameOver
    ensures a.SubmitGuess? && IsCorrect(s.userGuess, s.targetNumber)
  {
  }

  /** Guessing is possible while paused: the Guess button is rendered outside
      the pause condition. */
  lemma GuessWhilePaused(s: NumberGuessingState, d: int)
    requires s.gameStarted && !s.gameOver && s.paused
    ensures Enabled(s, SubmitGuess) && !Enabled(s, PauseGame) && Enabled(s, ResumeGame)
    ensures !IsCorrect(s.userGuess, s.targetNumber) ==> Step(s, SubmitGuess, d).attempts == s.attempts + 1
  {
  }

  lemma StepPreservesWellFormed(s: NumberGuessingState, a: Action, d: int)
    requires WellFormed(s) && ValidDraw(d)
    ensures WellFormed(Step(s, a, d))
  {
  }

  lemma StepPreservesConsistent(s: NumberGuessingState, a: Action, d: int)
    requires Consistent(s) && Enabled(s, a) && ValidDraw(d)
    ensures Consistent(Step(s, a, d))
  {
    StepPreservesWellFormed(s, a, d);
  }

  /** Without the UI guards, a correct guess before the game starts ends a game
      that never started; `Consistent` needs the guards. */
  lemma UnguardedGuessBreaksConsistency()
    ensures var s := Initial().(userGuess := Num(0));
      Consistent(s) && !Enabled(s, SubmitGuess) && !Consistent(Step(s, SubmitGuess, DrawMin))
  {
  }

  /** In a consistent state exactly one of the three panels is rendered: the
      Start button, the running game, or the game-over panel. */
  lemma OnePanelAtATime(s: NumberGuessingState)
    requires Consistent(s)
    ensures Enabled(s, StartGame) || Enabled(s, SubmitGuess) || Enabled(s, TryAgain)
    ensures !(Enabled(s, StartGame) && Enabled(s, SubmitGuess))
    ensures !(Enabled(s, StartGame) && Enabled(s, TryAgain))
    ensures !(Enabled(s, SubmitGuess) && Enabled(s, TryAgain))
  {
  }

  /** Pausing and resuming a running game changes nothing but the target, which
      is redrawn. */
  lemma PauseResumeRedraws(s: NumberGuessingState, d1: int, d2: int)
    requires s.gameStarted && !s.paused
    ensures Step(Step(s, PauseGame, d1), ResumeGame, d2) == s.(targetNumber := d2)
  {
    PauseOnlyPauses(s, d1);
    ResumeRedraws(s.(paused := true), d2);
  }

  /** Since the range holds ten values, some draw makes a pause and resume
      change the secret number. */
  lemma PauseResumeCanChangeTarget(s: NumberGuessingState)
    requires s.gameStarted && !s.paused
    ensures exists d :: ValidDraw(d) && Step(Step(s, PauseGame, d), ResumeGame, d).targetNumber != s.targetNumber
  {
    var d := if s.targetNumber == DrawMin then DrawMin + 1 else DrawMin;
    PauseResumeRedraws(s, d, d);
  }

  // ---------------------------------------------------------------------------
  // Sequences of handler invocations

  /** One click together with the value the random source would yield. */
  datatype Event = Event(action: Action, draw: int)

  function Run(s: NumberGuessingState, evs: seq<Event>): NumberGuessingState
    decreases |evs|
  {
    if |evs| == 0 then s else Run(Step(s, evs[0].action, evs[0].draw), evs[1..])
  }

  predicate DrawsValid(evs: seq<Event>) {
    forall i :: 0 <= i < |evs| ==> ValidDraw(evs[i].draw)
  }

  /** Every click is on a button the UI shows at that moment. */
  predicate Legal(s: NumberGuessingState, evs: seq<Event>)
    decreases |evs|
  {
    |evs| == 0 ||
    (Enabled(s, evs[0].action) && ValidDraw(evs[0].draw)
     && Legal(Step(s, evs[0].action, evs[0].draw), evs[1..]))
  }

  predicate NoReset(evs: seq<Event>) {
    forall i :: 0 <= i < |evs| ==> !evs[i].action.StartGame? && !evs[i].action.TryAgain?
  }

  lemma {:induction false} RunPreservesWellFormed(s: NumberGuessingState, evs: seq<Event>)
    requires WellFormed(s) && DrawsValid(evs)
    ensures WellFormed(Run(s, evs))
    decreases |evs|
  {
    if |evs| > 0 {
      StepPreservesWellFormed(s, evs[0].action, evs[0].draw);
      assert DrawsValid(evs[1..]) by {
        forall i | 0 <= i < |evs[1..]| ensures ValidDraw(evs[1..][i].draw) {
          assert evs[1..][i] == evs[i + 1];
        }
      }
      RunPreservesWellFormed(Step(s, evs[0].action, evs[0].draw), evs[1..]);
    }
  }

  /** Every state reached from the initial one through the UI is consistent. */
  lemma {:induction false} RunPreservesConsistent(s: NumberGuessingState, evs: seq<Event>)
    requires Consistent(s) && Legal(s, evs)
    ensures Consistent(Run(s, evs))
    decreases |evs|
  {
    if |evs| > 0 {
      StepPreservesConsistent(s, evs[0].action, evs[0].draw);
      RunPreservesConsistent(Step(s, evs[0].action, evs[0].draw), evs[1..]);
    }
  }

  lemma ReachableIsConsistent(evs: seq<Event>)
    requires Legal(Initial(), evs)
    ensures Consistent(Run(Initial(), evs))
  {
    RunPreservesConsistent(Initial(), evs);
  }

  /** Between two resets the counter never decreases, and grows by at most one
      per click. */
  lemma {:induction false} RunAttemptsMonotone(s: NumberGuessingState, evs: seq<Event>)
    requires NoReset(evs)
    ensures s.attempts <= Run(s, evs).attempts <= s.attempts + |evs|
    decreases |evs|
  {
    if |evs| > 0 {
      var t := Step(s, evs[0].action, evs[0].draw);
      AttemptsStep(s, evs[0].action, evs[0].draw);
      assert NoReset(evs[1..]) by {
        forall i | 0 <= i < |evs[1..]|
          ensures !evs[1..][i].action.StartGame? && !evs[1..][i].action.TryAgain?
        {
          assert evs[1..][i] == evs[i + 1];
        }
      }
      RunAttemptsMonotone(t, evs[1..]);
    }
  }

  /** Between two resets the game, once over, stays over. */
  lemma {:induction false} RunGameOverStays(s: NumberGuessingState, evs: seq<Event>)
    requires s.gameOver && NoReset(evs)
    ensures Run(s, evs).gameOver
    decreases |evs|
  {
    if |evs| > 0 {
      assert NoReset(evs[1..]) by {
        forall i | 0 <= i < |evs[1..]|
          ensures !evs[1..][i].action.StartGame? && !evs[1..][i].action.TryAgain?
        {
          assert evs[1..][i] == evs[i + 1];
        }
      }
      RunGameOverStays(Step(s, evs[0].action, evs[0].draw), evs[1..]);
    }
  }

  /** After any sequence of clicks the target is the one it started with or
      the draw of a Start or Resume click: no other click draws. */
  lemma {:induction false} RunTargetFromDraws(s: NumberGuessingState, evs: seq<Event>)
    ensures var t := Run(s, evs).targetNumber;
      || t == s.targetNumber
      || exists i :: 0 <= i < |evs| && (evs[i].action.StartGame? || evs[i].action.ResumeGame?) && evs[i].draw == t
    decreases |evs|
  {
    if |evs| > 0 {
      var s' := Step(s, evs[0].action, evs[0].draw);
      RunTargetFromDraws(s', evs[1..]);
      var t := Run(s, evs).targetNumber;
      assert Run(s, evs) == Run(s', evs[1..]);
      if t != s'.targetNumber {
        var i :| 0 <= i < |evs[1..]| && (evs[1..][i].action.StartGame? || evs[1..][i].action.ResumeGame?)
                 && evs[1..][i].draw == t;
        assert evs[i + 1] == evs[1..][i];
      } else if t != s.targetNumber {
        RedrawIff(s, evs[0].action);
        assert evs[0].draw == t && (evs[0].action.StartGame? || evs[0].action.ResumeGame?);
      }
    }
  }

  /** A session played through the UI: start with 7 drawn, guess 5, guess 7,
      try again. */
  lemma WinAfterOneMiss()
    ensures var s1 := Run(Initial(), [Event(StartGame, 7), Event(ChangeGuess(Num(5)), 7), Event(SubmitGuess, 7)]);
      && s1.gameStarted && !s1.gameOver && s1.attempts == 1
      && var s2 := Run(s1, [Event(ChangeGuess(Num(7)), 7), Event(SubmitGuess, 7)]);
      && s2.gameOver && s2.attempts == 1
      && var s3 := Step(s2, TryAgain, 7);
      && !s3.gameStarted && !s3.gameOver && s3.attempts == 0 && s3.userGuess == Empty
  {
  }
}
