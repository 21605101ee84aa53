# Number guessing game: the state machine of `NumberGuessing`

This project models the game state machine of the React component
`NumberGuessing` (components/numberguessing.tsx). The component holds six
state cells: `gameStarted`, `gameOver`, `paused`, `targetNumber`, `userGuess`
and `attempts`. Six click handlers update them: start, pause, resume, guess,
try again, and edit the guess. An effect keyed on `gameStarted` and `paused`
draws a new secret number in 1..10 whenever one of the two changed and the
game is started and not paused.

- `game_model.dfy`, module `GameModel`, models the component on values. The
  record `NumberGuessingState` holds the six cells. `Handle` is the batch of
  `setX` calls a handler makes, which React applies together. `Effect` is the
  redraw rule. `Step` is a handler followed by the effect. `Enabled` gives the
  buttons the rendered UI shows. `Run` and `Legal` describe sequences of
  clicks. The lemmas state what each handler does and what holds across runs.
- `number_guessing.dfy`, module `NumberGuessingComponent`, holds the class
  `NumberGuessing`. It has the six cells as fields and one method per handler.
  Start and Resume end by running the effect (`RunEffect`), and their
  postconditions tie the new state to `Step` of the old state. The other four
  handlers never trigger a draw. Their postconditions say the new state is
  `Handle` of the old one and that the effect does not fire.

The random draw is a `draw` argument in 1..10. Only Start and Resume take one,
and `RedrawIff` shows that no other handler can cause a draw. The value of
`parseInt` is abstract: `Num(n)` or `NaN`. The initial empty string is `Empty`.

Some behaviours of the component are worth noting:
- Resuming a paused game redraws the secret number. The effect fires whenever
  `paused` turns false while the game is started (`ResumeRedraws`,
  `PauseResumeRedraws`, `PauseResumeCanChangeTarget`). The player is never told
  that the number changed. The screen keeps asking them to guess the number
  between 1 and 10 (components/numberguessing.tsx:72).
- A guess that is not a number counts as an attempt, and so does one that was
  never entered. That covers both the empty string and NaN
  (`UnparsedGuessCounts`). The test at components/numberguessing.tsx:47 fails
  for both, and they fall into the branch that counts an attempt.
- Guessing while paused is possible. The Guess button is rendered outside the
  pause condition (`GuessWhilePaused`).
- Try Again leaves `paused` and the old target as they are (`TryAgainResets`).
  Before the first start the target is 0.

## Model

| member | source | states |
|---|---|---|
| GameModel.Initial | components/numberguessing.tsx:17-22 | The `useState` initial values form a consistent state: the game is not started and the guess is empty. |
| GameModel.IsCorrect | components/numberguessing.tsx:47 | A guess is correct exactly when it is the number equal to the target. NaN and the empty string never are. |
| GameModel.Handle | components/numberguessing.tsx:31-63 | The batch of updates of each of the six handlers. No handler writes the target itself, and none makes a non-negative counter negative. |
| GameModel.EffectFires | components/numberguessing.tsx:24-25 | The effect does not run when neither `gameStarted` nor `paused` changed. When it draws, the game is started and not paused. |
| GameModel.Effect | components/numberguessing.tsx:24-29 | The effect changes only the target, and only to the draw. |
| GameModel.Step | components/numberguessing.tsx:24-63 | A handler followed by the effect equals the handler's batch, except that the target may become the draw. |
| GameModel.Enabled | components/numberguessing.tsx:75-128 | The buttons the page shows. In a consistent state before the game starts, only Start is shown. Once the game is over, only Try Again (or Start) is shown. |
| GameModel.StartResets | components/numberguessing.tsx:24-36 | Start sets started, clears over and paused, zeroes attempts and keeps the guess. The effect then sets the target to the draw. The one exception is an already running, unpaused game, which the UI never allows. |
| GameModel.PauseOnlyPauses | components/numberguessing.tsx:38-40 | Pause sets `paused` and changes nothing else. No redraw happens. |
| GameModel.ResumeRedraws | components/numberguessing.tsx:42-44 | Resume of a started game clears `paused`. If the game was paused, the target is replaced by the draw. Attempts, guess and flags are kept. |
| GameModel.GuessOutcome | components/numberguessing.tsx:46-52 | A guess that is a number equal to the target sets `gameOver` and changes nothing else. Any other guess adds exactly 1 to `attempts` and changes nothing else. |
| GameModel.UnparsedGuessCounts | components/numberguessing.tsx:47-51 | A NaN or empty guess is never correct. It adds 1 to `attempts` and leaves `gameOver` as it was. |
| GameModel.TryAgainResets | components/numberguessing.tsx:54-59 | Try Again clears started and over, empties the guess and zeroes attempts. It keeps `paused` and the target, and no draw happens. |
| GameModel.ChangeGuessOnlyEdits | components/numberguessing.tsx:61-63 | Editing the input replaces `userGuess` by the parsed value and changes nothing else. |
| GameModel.RedrawIff | components/numberguessing.tsx:24-29 | The effect draws exactly after Start from a stopped or paused game, or after Resume of a paused started game. No other handler ever draws. |
| GameModel.TargetChangesOnlyToDraw | components/numberguessing.tsx:24-29 | When a step changes the target, the new value is the draw, which lies in 1..10. |
| GameModel.AttemptsStep | components/numberguessing.tsx:31-59 | Start and Try Again reset `attempts` to 0. A wrong guess adds 1. Every other step keeps it. |
| GameModel.GameOverOnlyByMatch | components/numberguessing.tsx:46-48 | `gameOver` goes from false to true only through a guess that is a number equal to the target. |
| GameModel.GuessWhilePaused | components/numberguessing.tsx:86-120 | While paused and not over, Guess and Resume are shown and Pause is not. A wrong guess made while paused still adds 1 to `attempts`. |
| GameModel.StepPreservesWellFormed | components/numberguessing.tsx:17-63 | Every handler, in any state, keeps `attempts` non-negative and the target in 0..10. A started game's target stays in 1..10. |
| GameModel.StepPreservesConsistent | components/numberguessing.tsx:75-128 | A handler whose button is shown also keeps "over implies started". |
| GameModel.UnguardedGuessBreaksConsistency | components/numberguessing.tsx:46-48 | Without the render guards, a correct guess before Start ends a game that never started. |
| GameModel.OnePanelAtATime | components/numberguessing.tsx:75-128 | In a consistent state exactly one panel is shown: the Start button, the running game, or the game-over panel. |
| GameModel.PauseResumeRedraws | components/numberguessing.tsx:24-44 | Pause then Resume of a running game gives back the same state except that the target is the second draw. |
| GameModel.PauseResumeCanChangeTarget | components/numberguessing.tsx:24-44 | Some draw in 1..10 makes pause then resume change the secret number. |
| GameModel.RunPreservesWellFormed | components/numberguessing.tsx:17-63 | Well-formedness holds after any sequence of clicks with draws in 1..10, whatever the order. |
| GameModel.RunPreservesConsistent | components/numberguessing.tsx:75-128 | Consistency holds after any sequence of clicks on buttons the UI shows. |
| GameModel.ReachableIsConsistent | components/numberguessing.tsx:17-22 | Every state reached from the initial `useState` values through the UI is consistent. |
| GameModel.RunAttemptsMonotone | components/numberguessing.tsx:31-59 | Between resets `attempts` never decreases, and each click adds at most 1. |
| GameModel.RunGameOverStays | components/numberguessing.tsx:46-59 | Between resets a game that is over stays over. |
| GameModel.RunTargetFromDraws | components/numberguessing.tsx:24-29 | After any sequence of clicks the target is either its earlier value or the draw of some Start or Resume click. No other click draws. |
| GameModel.WinAfterOneMiss | components/numberguessing.tsx:31-59 | Start with 7 drawn, guess 5, guess 7, try again: attempts go 1, 1, 0. The game ends on the second guess, and Try Again stops it. |
| NumberGuessingComponent.NumberGuessing.constructor | components/numberguessing.tsx:17-22 | The fields start at the `useState` initial values. |
| NumberGuessingComponent.NumberGuessing.RunEffect | components/numberguessing.tsx:24-29 | The target becomes the draw exactly when `gameStarted` or `paused` changed and the game is started and not paused. |
| NumberGuessingComponent.NumberGuessing.HandleStartGame | components/numberguessing.tsx:31-36 | The new state is `Step` of the old one for Start. Attempts are 0. The target is the draw when the game was not started. |
| NumberGuessingComponent.NumberGuessing.HandlePauseGame | components/numberguessing.tsx:38-40 | The new state is the old one with `paused` set, and the effect does not fire. |
| NumberGuessingComponent.NumberGuessing.HandleResumeGame | components/numberguessing.tsx:42-44 | `paused` is cleared and attempts and guess are kept. The target is the draw when a started game was paused. |
| NumberGuessingComponent.NumberGuessing.HandleGuess | components/numberguessing.tsx:46-52 | A correct guess sets `gameOver` and keeps attempts. Otherwise attempts grow by 1. The target is unchanged. |
| NumberGuessingComponent.NumberGuessing.HandleTryAgain | components/numberguessing.tsx:54-59 | Started, over, guess and attempts are reset. `paused` and the target are kept. |
| NumberGuessingComponent.NumberGuessing.HandleUserGuessChange | components/numberguessing.tsx:61-63 | The new state is the old one with `userGuess` set to the parsed value. |
| NumberGuessingComponent.PlaySession | components/numberguessing.tsx:31-63 | A client session: a miss, a pause, a correct guess while paused, then try again. It ends with attempts 1 at the win and the game stopped. |

## Left out

- Rendering: the JSX, the styling classes and the imported `Button` and
  `Input` components (components/numberguessing.tsx:4-5, 65-146). Only the
  render conditions at lines 75, 86, 89 and 128 are kept, as `Enabled`.
- `Math.random()` with its floating-point multiply and floor. It is replaced by
  an integer `draw` argument in 1..10. Uniformity of the draw is not modelled.
- `parseInt` on the input text. Its result is the abstract `ParsedInt`, an
  integer or NaN.
- React scheduling: render cycles, how dependency arrays are compared beyond
  "a dependency changed", and stale closures. Each handler is one atomic batch
  followed by the effect.
- `attempts` is an unbounded integer. JavaScript numbers lose precision above
  2^53, which no game reaches.
