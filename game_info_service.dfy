/** The game service over a log of saved game-info records. Creating a game saves one
    "game" record, storing a guess saves one "guess" record, and finding a game
    replays every record saved under its id: the last game record gives the word and
    the limit, the guess records give the guessed letters. */
module GameInfoServices {
  import opened Wrappers
  import opened LetterStates
  import opened PlayStates
  import opened PlayStateProperties
  import opened Games
  import opened GameInfos

  /** The ways `findGameWithGuesses` fails instead of returning a game. */
  datatype LookupError =
    | NoGameRecord        // no game record under the id: the game info stays null
    | MissingGuessCount   // the game record has no guess count to unbox
    | MissingGuessLetter  // a guess record has no letter to take a code point of
    | EmptyGuessLetter    // a guess record's letter is empty: no code point at index 0
    | MissingWord         // the game record has no word to measure

  // ----- reading the log -----

  /** `findAllByGameId`: the records saved under the id, in the order they were saved. */
  function RecordsFor(log: seq<GameInfoRecord>, gameId: Text): seq<GameInfoRecord>
  {
    if log == [] then []
    else
      var last := log[|log| - 1];
      RecordsFor(log[..|log| - 1], gameId) + (if last.gameId == Some(gameId) then [last] else [])
  }

  /** The game record the replay ends up with: the last one. */
  function LastGame(records: seq<GameInfoRecord>): Option<GameInfoRecord>
  {
    if records == [] then None
    else if records[|records| - 1].IsGame() then Some(records[|records| - 1])
    else LastGame(records[..|records| - 1])
  }

  /** The word data of the guess records, in the order of the records. */
  function GuessLetters(records: seq<GameInfoRecord>): seq<Option<Text>>
  {
    if records == [] then []
    else
      var last := records[|records| - 1];
      GuessLetters(records[..|records| - 1]) + (if last.IsGame() then [] else [last.wordData])
  }

  /** A guess letter whose first code point can be taken. */
  predicate Usable(letter: Option<Text>)
  {
    letter.Some? && |letter.value| >= 1
  }

  /** The failure of taking the first code point of an unusable letter. */
  function LetterError(letter: Option<Text>): LookupError
  {
    if letter.None? then MissingGuessLetter else EmptyGuessLetter
  }

  /** The first code point of every guess letter, in order; the first unusable letter
      stops the conversion with its failure. */
  function FirstCodePoints(letters: seq<Option<Text>>): Result<seq<CodePoint>, LookupError>
  {
    if letters == [] then Ok([])
    else if !Usable(letters[0]) then Err(LetterError(letters[0]))
    else
      match FirstCodePoints(letters[1..])
      case Err(e) => Err(e)
      case Ok(rest) => Ok([letters[0].value[0]] + rest)
  }

  /** What finding a game reads back: id, limit, word and the guessed code points in
      the order they were stored. */
  datatype StoredGame = StoredGame(id: Text, maxWrongGuesses: int, word: Text, guesses: seq<CodePoint>)

  /** The specification of `findGameWithGuesses` on a log: the failures in the order the
      code meets them, else the last game record's word and limit with the first code
      point of every guess letter. */
  function Rebuild(log: seq<GameInfoRecord>, gameId: Text): Result<StoredGame, LookupError>
  {
    var records := RecordsFor(log, gameId);
    var game := LastGame(records);
    if game.None? then Err(NoGameRecord)
    else if game.value.guessCountData.None? then Err(MissingGuessCount)
    else
      match FirstCodePoints(GuessLetters(records))
      case Err(e) => Err(e)
      case Ok(guesses) =>
        if game.value.wordData.None? then Err(MissingWord)
        else Ok(StoredGame(gameId, game.value.guessCountData.value, game.value.wordData.value, guesses))
  }

  // ----- the service -----

  class GameInfoServiceImpl {
    /** Every record saved so far, oldest first. */
    var log: seq<GameInfoRecord>

    constructor (log: seq<GameInfoRecord>)
      ensures this.log == log
    {
      this.log := log;
    }

    /** `storeGame`: saves the game record of the game, stamped `createdAt`. */
    method StoreGame(game: Game, createdAt: Millis)
      modifies this
      ensures log == old(log) + [GameRecord(game.id, createdAt, game.wordBeingGuessed, game.maxWrongGuesses)]
    {
      var gameInfo := new GameInfo();
      gameInfo.MakeGame(game.id, createdAt, game.wordBeingGuessed, game.maxWrongGuesses);
      log := log + [gameInfo.Record()];
    }

    /** `createGame`: a game on `word` with no guesses yet, saved under `id`. The word,
        the id and the time are what the random pick, the id generator and the clock
        supplied. */
    method CreateGame(maxWrongGuesses: int, word: Text, id: Text, createdAt: Millis) returns (game: Game)
      modifies this
      ensures fresh(game)
      ensures game.id == id && game.maxWrongGuesses == maxWrongGuesses && game.wordBeingGuessed == word
      ensures game.playState == Derive(maxWrongGuesses, [], word)
      ensures game.playState.remainingWrongGuesses == maxWrongGuesses
      ensures game.playState.missedGuesses == []
      ensures forall i :: 0 <= i < |word| ==> game.playState.maskedWord[i] == EmptyState
      ensures game.Valid()
      ensures log == old(log) + [GameRecord(id, createdAt, word, maxWrongGuesses)]
    {
      var playState := Build(maxWrongGuesses, [], word);
      BuildWithNoGuesses(maxWrongGuesses, word);
      BuildConsistent(maxWrongGuesses, [], word);
      game := new Game(id, maxWrongGuesses, word, playState);
      StoreGame(game, createdAt);
    }

    /** `storeGuess`: saves a guess record of the letter under the game's id. */
    method StoreGuess(game: Game, letter: Text, createdAt: Millis)
      modifies this
      ensures log == old(log) + [GuessRecord(game.id, createdAt, letter)]
    {
      var gameInfo := new GameInfo();
      gameInfo.MakeGuess(game.id, createdAt, letter);
      log := log + [gameInfo.Record()];
    }

    /** `findGameWithGuesses`: replays the records saved under the id. */
    method FindGameWithGuesses(gameId: Text) returns (r: Result<Game, LookupError>)
      ensures Rebuild(log, gameId).Err? ==> r == Err(Rebuild(log, gameId).error)
      ensures Rebuild(log, gameId).Ok? ==>
                var stored := Rebuild(log, gameId).value;
                r.Ok? && fresh(r.value) &&
                r.value.id == stored.id &&
                r.value.maxWrongGuesses == stored.maxWrongGuesses &&
                r.value.wordBeingGuessed == stored.word &&
                r.value.playState == Derive(stored.maxWrongGuesses, stored.guesses, stored.word) &&
                r.value.Valid()
    {
      var gameAndGuesses := RecordsFor(log, gameId);
      var actualGameInfo: Option<GameInfoRecord> := None;
      var letters: seq<Option<Text>> := [];
      for i := 0 to |gameAndGuesses|
        invariant actualGameInfo == LastGame(gameAndGuesses[..i])
        invariant letters == GuessLetters(gameAndGuesses[..i])
      {
        var gameInfo := gameAndGuesses[i];
        assert gameAndGuesses[..i + 1][..i] == gameAndGuesses[..i];
        if gameInfo.IsGame() {
          actualGameInfo := Some(gameInfo);
        } else {
          letters := letters + [gameInfo.wordData];
        }
      }
      assert gameAndGuesses[..|gameAndGuesses|] == gameAndGuesses;
      if actualGameInfo.None? {
        return Err(NoGameRecord);
      }
      var info := actualGameInfo.value;
      if info.guessCountData.None? {
        return Err(MissingGuessCount);
      }
      var guesses := FirstCodePoints(letters);
      if guesses.Err? {
        return Err(guesses.error);
      }
      if info.wordData.None? {
        return Err(MissingWord);
      }
      var limit, word := info.guessCountData.value, info.wordData.value;
      var playState := Build(limit, guesses.value, word);
      BuildConsistent(limit, guesses.value, word);
      var game := new Game(gameId, limit, word, playState);
      return Ok(game);
    }
  }
}
