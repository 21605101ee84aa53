/**
 The NumberGuessing component as an object: its six state cells are fields, and
 each handler is a method that applies the handler's batch of updates. Start and
 Resume then run the effect on `targetNumber` and are specified by
 `GameModel.Step`. The other four are specified by `GameModel.Handle` together
 with the fact that the effect does not fire after them, which is `Step` with no
 draw. The properties of both are proved in module GameModel.
 */
module NumberGuessingComponent {
  import opened GameModel

  class NumberGuessing {
    var gameStarted: bool
    var gameOver: bool
    var paused: bool
    var targetNumber: int
    var userGuess: Guess
    var attempts: int

    /** The current values of the six cells, as one record. */
    function State(): NumberGuessingState
      reads this
    {
      NumberGuessingState(gameStarted, gameOver, paused, targetNumber, userGuess, attempts)
    }

    predicate Valid()
      reads this
    {
      WellFormed(State())
    }

    /** The `useState` initial values. */
    constructor ()
      ensures Valid() && State() == Initial()
    {
      gameStarted, gameOver, paused := false, false, false;
      targetNumber, userGuess, attempts := 0, Empty, 0;
    }

    /** The `useEffect` keyed on `gameStarted` and `paused`: when either differs
        from its value before the handler ran and the game is started and not
        paused, the target becomes `draw`. */
    method RunEffect(wasStarted: bool, wasPaused: bool, draw: int)
      modifies this`targetNumber
      ensures targetNumber
           == if (wasStarted != gameStarted || wasPaused != paused) && gameStarted && !paused
              then draw else old(targetNumber)
    {
      if (wasStarted != gameStarted || wasPaused != paused) && gameStarted && !paused {
        targetNumber := draw;
      }
    }

    method HandleStartGame(draw: int)
      requires Valid() && ValidDraw(draw)
      modifies this
      ensures Valid() && State() == Step(old(State()), StartGame, draw)
      ensures gameStarted && !gameOver && !paused && attempts == 0 && userGuess == old(userGuess)
      ensures !old(gameStarted) ==> targetNumber == draw
    {
      var wasStarted, wasPaused := gameStarted, paused;
      gameStarted := true;
      gameOver := false;
      attempts := 0;
      paused := false;
      RunEffect(wasStarted, wasPaused, draw);
    }

    /** The effect cannot fire after this handler, so it takes no draw. */
    method HandlePauseGame()
      requires Valid()
      modifies this
      ensures Valid() && State() == Handle(old(State()), PauseGame)
      ensures !EffectFires(old(State()), State())
      ensures State() == old(State()).(paused := true)
    {
      paused := true;
    }

    method HandleResumeGame(draw: int)
      requires Valid() && ValidDraw(draw)
      modifies this
      ensures Valid() && State() == Step(old(State()), ResumeGame, draw)
      ensures !paused && attempts == old(attempts) && userGuess == old(userGuess)
      ensures gameStarted == old(gameStarted) && gameOver == old(gameOver)
      ensures old(gameStarted) && old(paused) ==> targetNumber == draw
    {
      var wasStarted, wasPaused := gameStarted, paused;
      paused := false;
      RunEffect(wasStarted, wasPaused, draw);
    }

    /** The effect cannot fire after this handler, so it takes no draw. */
    method HandleGuess()
      requires Valid()
      modifies this
      ensures Valid() && State() == Handle(old(State()), SubmitGuess)
      ensures !EffectFires(old(State()), State())
      ensures IsCorrect(old(userGuess), old(targetNumber)) ==> gameOver && attempts == old(attempts)
      ensures !IsCorrect(old(userGuess), old(targetNumber)) ==>
                gameOver == old(gameOver) && attempts == old(attempts) + 1
      ensures targetNumber == old(targetNumber)
    {
      if IsCorrect(userGuess, targetNumber) {
        gameOver := true;
      } else {
        attempts := attempts + 1;
      }
    }

    /** The effect cannot fire after this handler, so it takes no draw. */
    method HandleTryAgain()
      requires Valid()
      modifies this
      ensures Valid() && State() == Handle(old(State()), TryAgain)
      ensures !EffectFires(old(State()), State())
      ensures !gameStarted && !gameOver && userGuess == Empty && attempts == 0
      ensures paused == old(paused) && targetNumber == old(targetNumber)
    {
      gameStarted := false;
      gameOver := false;
      userGuess := Empty;
      attempts := 0;
    }

    /** `parsed` is the value of `parseInt` on the input's text. The effect
        cannot fire after this handler, so it takes no draw. */
    method HandleUserGuessChange(parsed: ParsedInt)
      requires Valid()
      modifies this
      ensures Valid() && State() == Handle(old(State()), ChangeGuess(parsed))
      ensures !EffectFires(old(State()), State())
      ensures State() == old(State()).(userGuess := parsed)
    {
      userGuess := parsed;
    }
  }

  /** A client of the component: start with 7 drawn, miss with 5, pause, guess
      7 while paused, try again. */
  method PlaySession() returns (attemptsAtWin: int, startedAfter: bool)
    ensures attemptsAtWin == 1 && !startedAfter
  {
    var game := new NumberGuessing();
    game.HandleStartGame(7);
    game.HandleUserGuessChange(Num(5));
    game.HandleGuess();
    assert game.attempts == 1 && !game.gameOver;
    game.HandlePauseGame();
    game.HandleUserGuessChange(Num(7));
    game.HandleGuess();
    assert game.gameOver && game.paused;
    attemptsAtWin := game.attempts;
    game.HandleTryAgain();
    assert game.attempts == 0 && game.userGuess == Empty;
    startedAfter := game.gameStarted;
  }
}
