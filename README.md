# Hangman game core in Dafny

This project models the core of a hangman web service: the play state of one game
(the masked word, the missed guesses, the wrong guesses left and the index from each
letter of the word to its positions), the classification of a guess as a match, a
miss, a repeat or one guess too many, the game that holds a play state, the game-info
records the service saves, and the service that creates games, stores guesses and
finds a game again by replaying its records.

Letters are Unicode code points (`CodePoint`, an `int` from 0 to 0x10FFFF) and words
are sequences of them (`Text`). Java's `null` is `None` of an `Option`.

Modules, one per file:

- `LetterStates` (`letter_state.dfy`): the letter state of one slot, `EmptyState`,
  `fromCodePoint`, `isForLetter`, `isFilled`.
- `GuessResults` (`guess_result.dfy`): the four result states and the result pair.
- `PlayStates` (`play_state.dfy`): the immutable play state. `Build` is the loop of
  `build`, proved equal to the specification `Derive` (the set of guessed code points,
  the mask of the word under that set, the misses in ascending order and the location
  map). `RecordGuess` is `recordGuess` with `CloneWithHitFilledIn` as a loop, proved
  equal to the total function `Guess`.
- `PlayStateProperties` (`play_state_properties.dfy`): what `build` and `recordGuess`
  promise, a consistency invariant that both keep, the agreement between recording a
  new guess and building again with it, and the unit-test cases.
- `Games` (`game.dfy`): the `Game` class with its four fields, `recordGuess`,
  `setPlayState`, and the serialized view: id, limit, and the play state's count,
  masked word and misses, without the word and the letter positions.
- `GameInfos` (`game_info.dfy`): the sort keys `game#{millis}` and
  `guess#{millis}#{letter}`, their classification by `isGame` and their injectivity,
  the saved record, and the `GameInfo` class with its lazily allocated composite key.
- `GameInfoServices` (`game_info_service.dfy`): the service as a class over the list
  of saved records (`log`), `Rebuild` as the specification of `findGameWithGuesses`
  including each way it fails.
- `GameInfoServiceProperties` (`game_info_service_properties.dfy`): what replaying the
  log gives after creating a game, storing a guess, storing a repeat, saving another
  game record, and the unit-test case.

Where the usual hangman rules and the code differ, the model follows the code:

- There is no "already won" result and nothing stops a game once the word is shown:
  `recordGuess` only checks for a repeat, then for no wrong guesses left, then
  classifies the guess as a match or a miss.
- `build` lists the misses in ascending code-point order, because it collects them in
  a `TreeSet`. `recordGuess` appends a new miss at the end. The two orders can differ.
  `GuessAgreesWithRebuild` proves that they hold the same letters.
- A game is found again by replaying its records: the last game record gives the word
  and limit, and every guess record adds its letter, repeats included. `build` ignores
  repeats and the order of the guesses. While wrong guesses remain, storing a new letter
  and replaying gives the same masked word and count as recording it on the found
  state, and the same misses as a set (`StoredGuessAgreesWithGuess`); a stored repeat
  changes nothing (`StoredRepeatChangesNothing`). The replay never checks the limit:
  recording guesses one by one stops with "too many wrong guesses" once none are left,
  while a stored guess past the limit is still replayed as a miss.

## Model

| member | source | states |
|---|---|---|
| LetterStates.LetterState.IsForLetter | src/main/java/name/voses/hangman/resources/LetterState.java:32-34 | true exactly when both letters are absent or both are present and equal; a slot for a present letter is filled |
| LetterStates.LetterState.IsFilled | src/main/java/name/voses/hangman/resources/LetterState.java:36-39 | filled exactly when the slot is not for the absent letter |
| LetterStates.FromCodePoint | src/main/java/name/voses/hangman/resources/LetterState.java:16-18 | the state is filled with that code point, is for it, and is for no other code point |
| LetterStates.EmptyStateMatchesNoLetter | src/main/java/name/voses/hangman/resources/LetterState.java:11 | the empty placeholder is unfilled, is for the absent letter, and is for no code point |
| PlayStates.IndicesOfSpec | src/main/java/name/voses/hangman/resources/PlayState.java:34-43 | a letter's location list holds exactly the positions of that letter in the word, each once, in increasing order |
| PlayStates.WordIndexExtend | src/main/java/name/voses/hangman/resources/PlayState.java:37-43 | one more position of the word appends that position to its letter's list and creates the list for a new letter |
| PlayStates.AscendingElements | src/main/java/name/voses/hangman/resources/PlayState.java:55-59 | the ascending listing of the misses holds each missed code point once and nothing else |
| PlayStates.AscendingSorted | src/main/java/name/voses/hangman/resources/PlayState.java:55-59 | the ascending listing of the misses is strictly increasing |
| PlayStates.AscendingLetters | src/main/java/name/voses/hangman/resources/PlayState.java:55-59 | taking the least remaining miss each time yields the letter states of the ascending listing |
| PlayStates.Build | src/main/java/name/voses/hangman/resources/PlayState.java:25-63 | the walk over the word yields exactly the derived state: limit less distinct misses, ascending misses, the word masked by the guessed set, the location map |
| PlayStates.IncludesLetter | src/main/java/name/voses/hangman/resources/PlayState.java:65-67 | true exactly when some entry of the list is for the letter |
| PlayStates.CloneWithExtraMiss | src/main/java/name/voses/hangman/resources/PlayState.java:118-127 | one miss for the letter appended after the old ones, one wrong guess fewer, masked word and locations kept |
| PlayStates.CloneWithHitFilledIn | src/main/java/name/voses/hangman/resources/PlayState.java:129-139 | the loop overwrites exactly the listed positions with the letter and keeps every other field |
| PlayStates.Guess | src/main/java/name/voses/hangman/resources/PlayState.java:98-116 | repeat exactly when already shown or missed; too many exactly when new and none left; miss exactly when new, some left and not in the word; match otherwise; the successor state of each case; the locations never change; a non-negative count stays non-negative |
| PlayStates.RecordGuess | src/main/java/name/voses/hangman/resources/PlayState.java:98-116 | the method returns what the specification of a guess gives |
| PlayStateProperties.BuildMaskedWord | src/main/java/name/voses/hangman/resources/PlayState.java:34-50 | the masked word has the word's length and shows position i exactly when word[i] was guessed |
| PlayStateProperties.BuildMissedGuesses | src/main/java/name/voses/hangman/resources/PlayState.java:44-59 | the misses are the guessed code points absent from the word, each present, strictly ascending; the count left is the limit less their number |
| PlayStateProperties.BuildWithNoGuesses | src/test/java/name/voses/hangman/resources/PlayStateTest.java:17-27 | with no guesses every slot is empty, there are no misses and the full limit remains |
| PlayStateProperties.BuildDependsOnlyOnGuessSet | src/main/java/name/voses/hangman/resources/PlayState.java:26-28 | two guess lists with the same members build the same state |
| PlayStateProperties.BuildIgnoresGuessOrder | src/main/java/name/voses/hangman/resources/PlayState.java:26-28 | a reordering of the guesses builds the same state |
| PlayStateProperties.BuildIgnoresRepeatedGuess | src/main/java/name/voses/hangman/resources/PlayState.java:26-28 | a guess repeated at the end builds the same state |
| PlayStateProperties.MoreGuessesNeverRaiseRemaining | src/main/java/name/voses/hangman/resources/PlayState.java:52-54 | more guesses never leave more wrong guesses |
| PlayStateProperties.AllHitsMissNothing | src/main/java/name/voses/hangman/resources/PlayState.java:44-54 | guesses that all occur in the word leave no misses and the full limit |
| PlayStateProperties.ConsistentMissesDisjointFromMask | src/main/java/name/voses/hangman/resources/PlayState.java:44-48 | in a consistent state no code point is both shown in the masked word and listed as a miss |
| PlayStateProperties.ConsistentLocationsFit | src/main/java/name/voses/hangman/resources/PlayState.java:129-133 | in a consistent state every listed location lies inside the masked word |
| PlayStateProperties.BuildConsistent | src/main/java/name/voses/hangman/resources/PlayState.java:25-63 | a built state is consistent with its limit and word |
| PlayStateProperties.GuessPreservesConsistent | src/main/java/name/voses/hangman/resources/PlayState.java:98-139 | recording any guess on a consistent state gives a consistent state |
| PlayStateProperties.RepeatIffGuessed | src/main/java/name/voses/hangman/resources/PlayState.java:99-102 | on a built state, a guess is a repeat exactly when it was among the guesses |
| PlayStateProperties.MatchAgreesWithRebuild | src/main/java/name/voses/hangman/resources/PlayState.java:107-139 | a new guess in the word with guesses left is a match whose state equals building with the guess added |
| PlayStateProperties.MissAgreesWithRebuild | src/main/java/name/voses/hangman/resources/PlayState.java:107-127 | a new guess not in the word with guesses left is a miss whose masked word and count equal building with it added, with the same misses in another order |
| PlayStateProperties.GuessAgreesWithRebuild | src/main/java/name/voses/hangman/resources/PlayState.java:98-139 | a new guess with guesses left: match exactly when in the word, miss exactly when not, and the result agrees with building again |
| PlayStateProperties.CountsWrongGuesses | src/test/java/name/voses/hangman/resources/PlayStateTest.java:29-35 | guesses m and z on mywordmy with limit 10 give the one miss z and 9 left |
| PlayStateProperties.MasksAllHits | src/test/java/name/voses/hangman/resources/PlayStateTest.java:37-47 | guesses m and o on mywordmy show m, o and m at positions 0, 3 and 6, with no misses and 10 left |
| PlayStateProperties.MasksAllNewHitsOnGuess | src/test/java/name/voses/hangman/resources/PlayStateTest.java:49-63 | guessing o after m on mywordmy is a match that shows both letters at all their positions |
| Games.Game.constructor | src/main/java/name/voses/hangman/resources/Game.java:19-24 | the four fields hold the given values |
| Games.Game.View | src/main/java/name/voses/hangman/resources/Game.java:26-47 | the serialized view carries id, limit and the play state's count, masked word and misses; neither the word nor the location map |
| Games.ViewHidesWord | src/main/java/name/voses/hangman/resources/PlayState.java:80-96 | two games whose id, limit, count, masked word and misses agree serialize alike, whatever their words and location maps |
| Games.ShownStateIgnoresUnguessedLetters | src/main/java/name/voses/hangman/resources/PlayState.java:80-96 | after the same guesses, two words of one length that agree at every guessed position and hold the same guessed letters show the same count, masked word and misses |
| Games.FreshGamesLookAlike | src/main/java/name/voses/hangman/resources/Game.java:26-47 | fresh games with the same id and limit on two words of the same length serialize alike |
| Games.ViewDoesNotDetermineWord | src/main/java/name/voses/hangman/resources/PlayState.java:80-96 | fresh states on "ab" and "cd" show the same view while the full states differ |
| Games.Game.RecordGuess | src/main/java/name/voses/hangman/resources/Game.java:49-51 | returns the play state's result for the guess |
| Games.Game.SetPlayState | src/main/java/name/voses/hangman/resources/Game.java:53-55 | replaces the play state and no other field |
| Games.RecordAndApplyGuess | src/main/java/name/voses/hangman/api/GamesController.java:120-121 | the game takes the result's play state; a repeat or a guess past the limit leaves it unchanged; a consistent game stays consistent |
| GameInfos.DecimalShape | src/main/java/name/voses/hangman/persistence/GameInfo.java:54 | the printed time is non-empty, its first character is a minus sign exactly for negative times, and every later character is a digit, so it holds no brace |
| GameInfos.NatDecimalInjective | src/main/java/name/voses/hangman/persistence/GameInfo.java:54 | different natural numbers print differently |
| GameInfos.DecimalInjective | src/main/java/name/voses/hangman/persistence/GameInfo.java:54 | different times print differently |
| GameInfos.GameSortKey | src/main/java/name/voses/hangman/persistence/GameInfo.java:54 | the key starts with "game#{", ends with a brace, and the time's numeral reads back between them |
| GameInfos.GuessSortKey | src/main/java/name/voses/hangman/persistence/GameInfo.java:63 | the key starts with "guess#{" and reads on as the time's numeral, a brace, then the letter in "#{" and "}" |
| GameInfos.SortKeysClassify | src/main/java/name/voses/hangman/persistence/GameInfo.java:68-72 | a game key classifies as a game, a guess key and an absent key do not |
| GameInfos.GuessSortKeyInjective | src/main/java/name/voses/hangman/persistence/GameInfo.java:60-66 | guesses at different times or of different letters get different keys |
| GameInfos.GameRecord | src/main/java/name/voses/hangman/persistence/GameInfo.java:52-58 | the saved game record classifies as a game |
| GameInfos.GuessRecord | src/main/java/name/voses/hangman/persistence/GameInfo.java:60-66 | the saved guess record does not classify as a game |
| GameInfos.GameInfoId.constructor | src/main/java/name/voses/hangman/persistence/GameInfo.java:18-42 | a new key has no game id and no sort key |
| GameInfos.GameInfo.constructor | src/main/java/name/voses/hangman/persistence/GameInfo.java:44-50 | a new entity has every attribute absent and no key object |
| GameInfos.GameInfo.GetGameId | src/main/java/name/voses/hangman/persistence/GameInfo.java:97-100 | absent while there is no key object, else the key's game id |
| GameInfos.GameInfo.GetSK | src/main/java/name/voses/hangman/persistence/GameInfo.java:110-113 | absent while there is no key object, else the key's sort key |
| GameInfos.GameInfo.IsGame | src/main/java/name/voses/hangman/persistence/GameInfo.java:68-72 | the entity classifies as the record it saves; without a sort key it is not a game |
| GameInfos.GameInfo.SetGameId | src/main/java/name/voses/hangman/persistence/GameInfo.java:102-108 | sets the game id, allocating the key object when there is none, and keeps the sort key and the other attributes |
| GameInfos.GameInfo.SetSK | src/main/java/name/voses/hangman/persistence/GameInfo.java:115-121 | sets the sort key, allocating the key object when there is none, and keeps the game id and the other attributes |
| GameInfos.GameInfo.MakeGame | src/main/java/name/voses/hangman/persistence/GameInfo.java:52-58 | id, game key, word, limit and time are set and the entity is a game |
| GameInfos.GameInfo.MakeGuess | src/main/java/name/voses/hangman/persistence/GameInfo.java:60-66 | id, guess key, letter and time are set, the guess count is kept and the entity is not a game |
| GameInfoServices.GameInfoServiceImpl.constructor | src/main/java/name/voses/hangman/persistence/GameInfoServiceImpl.java:20-22 | the service starts over the given saved records |
| GameInfoServices.GameInfoServiceImpl.StoreGame | src/main/java/name/voses/hangman/persistence/GameInfoServiceImpl.java:74-78 | saves exactly the game record of the game |
| GameInfoServices.GameInfoServiceImpl.CreateGame | src/main/java/name/voses/hangman/persistence/GameInfoServiceImpl.java:31-39 | a fresh consistent game on the word with no guesses, the full limit, all slots empty, and its game record saved |
| GameInfoServices.GameInfoServiceImpl.StoreGuess | src/main/java/name/voses/hangman/persistence/GameInfoServiceImpl.java:41-45 | saves exactly the guess record of the letter under the game's id |
| GameInfoServices.GameInfoServiceImpl.FindGameWithGuesses | src/main/java/name/voses/hangman/persistence/GameInfoServiceImpl.java:47-72 | fails exactly as the replay of the log does, else returns a fresh consistent game with the replayed id, limit, word and the state built from the replayed guesses |
| GameInfoServiceProperties.RecordsForMembers | src/main/java/name/voses/hangman/persistence/GameInfoRepository.java:13 | the records found for an id are exactly the saved records with that id |
| GameInfoServiceProperties.LastGameSpec | src/main/java/name/voses/hangman/persistence/GameInfoServiceImpl.java:54-60 | the replay keeps the last game record, and none exactly when no record is a game |
| GameInfoServiceProperties.FirstCodePointsSpec | src/main/java/name/voses/hangman/resources/PlayState.java:26-28 | every letter usable gives one code point per letter, each its first; otherwise the error is that of the first absent or empty letter |
| GameInfoServiceProperties.RebuildIgnoresOtherGames | src/main/java/name/voses/hangman/persistence/GameInfoServiceImpl.java:47-60 | a record saved under another id does not change what finding a game gives |
| GameInfoServiceProperties.NoGameRecordIff | src/main/java/name/voses/hangman/persistence/GameInfoServiceImpl.java:51-66 | finding fails for want of a game record exactly when none was saved under the id |
| GameInfoServiceProperties.RebuildAfterCreate | src/test/java/name/voses/hangman/persistence/GameInfoServiceImplTest.java:54-61 | a game created under a fresh id is found with the same id, limit and word and no guesses |
| GameInfoServiceProperties.LaterGameRecordWins | src/main/java/name/voses/hangman/persistence/GameInfoServiceImpl.java:54-57 | a later game record's word and limit replace the earlier ones, with the stored guesses kept |
| GameInfoServiceProperties.RebuildAfterGuess | src/main/java/name/voses/hangman/persistence/GameInfoServiceImpl.java:41-72 | after storing a guess the game is found with the letter's code point replayed last; an empty letter makes it unfindable |
| GameInfoServiceProperties.StoredGuessAgreesWithGuess | src/main/java/name/voses/hangman/persistence/GameInfoServiceImpl.java:41-72 | with wrong guesses left, storing a letter whose first code point is new and finding the game again agrees with recording that code point on the found state |
| GameInfoServiceProperties.StoredRepeatChangesNothing | src/main/java/name/voses/hangman/persistence/GameInfoServiceImpl.java:41-72 | storing a letter whose first code point was already stored: recording that code point is a repeat, and the game is found with the same play state |
| GameInfoServiceProperties.RecordsForConcat | src/main/java/name/voses/hangman/persistence/GameInfoRepository.java:13 | the records of an id in two stretches of the log are those of the first stretch, then the second's |
| GameInfoServiceProperties.LastGameConcat | src/main/java/name/voses/hangman/persistence/GameInfoServiceImpl.java:54-60 | over two stretches the replay keeps the second stretch's game record if it has one, else the first's |
| GameInfoServiceProperties.GuessLettersConcat | src/main/java/name/voses/hangman/persistence/GameInfoServiceImpl.java:54-60 | over two stretches the letters are the first stretch's, then the second's |
| GameInfoServiceProperties.FirstCodePointsConcat | src/main/java/name/voses/hangman/resources/PlayState.java:26-28 | two runs of letters convert exactly when each does, giving the first run's code points then the second's |
| GameInfoServiceProperties.GuessStretchReplay | src/main/java/name/voses/hangman/persistence/GameInfoServiceImpl.java:54-60 | a stretch of guess records in the middle of the log leaves the game record to the stretches around it and puts its letters between theirs |
| GameInfoServiceProperties.PermutedLetters | src/main/java/name/voses/hangman/resources/PlayState.java:26-28 | replacing a run of letters by one that converts to a permutation of its code points keeps the conversion successful and permutes its result |
| GameInfoServiceProperties.ConvertSwapped | src/main/java/name/voses/hangman/resources/PlayState.java:26-28 | two runs of letters convert in either order alike, up to the order of the code points |
| GameInfoServiceProperties.SwappedLetters | src/main/java/name/voses/hangman/persistence/GameInfoServiceImpl.java:54-60 | the letters of two records in either order are each record's letters in that order |
| GameInfoServiceProperties.SwapKeepsGameRecord | src/main/java/name/voses/hangman/persistence/GameInfoServiceImpl.java:54-57 | swapping two neighbouring guess records keeps the replay's game record |
| GameInfoServiceProperties.SwapPermutesLetters | src/main/java/name/voses/hangman/persistence/GameInfoServiceImpl.java:54-64 | swapping two neighbouring guess records keeps a successful conversion successful and permutes the code points |
| GameInfoServiceProperties.RebuildIgnoresGuessRecordOrder | src/main/java/name/voses/hangman/persistence/GameInfoServiceImpl.java:54-64 | a game found from a log is found as well with two neighbouring guess records swapped: same id, limit and word, the guesses permuted, the same play state |
| GameInfoServiceProperties.StoredGuessIsFound | src/test/java/name/voses/hangman/persistence/GameInfoServiceImplTest.java:64-80 | a game created with limit 10 and then guessed z is found with z as its one guess |
| GameInfoServiceProperties.StoredMissIsCounted | src/test/java/name/voses/hangman/persistence/GameInfoServiceImplTest.java:64-80 | on a word without z, that game has 9 wrong guesses left and z as its one miss |

## Left out

- The web controller, the in-memory game store, the DynamoDB repository and table
  management, and the Spring and Jetty configuration are not part of this model. The
  repository is the service's `log` field, and `findAllByGameId` is `RecordsFor`.
- `findAllByGameId` returns records in the order they were saved. DynamoDB returns them
  in sort-key order, which this model does not capture.
- The random word pick, the generated game id and the clock are parameters of
  `CreateGame` and `StoreGuess`. The exception `randomWord` throws on an empty word
  list is not modelled.
- Words are sequences of code points, one per position. Java walks UTF-16 units, so a
  character outside the Basic Multilingual Plane takes two positions there, and the
  second one holds the lone low surrogate. That is not modelled.
- A guess is one code point. `recordGuess` takes a string and compares the whole string
  against the slots. It then fills in the whole string for the string's first code
  point. A longer guess, a null guess and an empty guess are not modelled. The
  controller admits only one-character guesses.
- PlayStates.RecordGuess: requires the letter's locations to lie inside the masked word.
  A built or consistent state meets this (`ConsistentLocationsFit`). On another state
  Java throws only when the guess is neither a repeat nor past the limit and the letter
  has locations, one of them outside the masked word; the function `Guess` covers every
  state.
- GameInfoServiceProperties.StoredGuessAgreesWithGuess: speaks of the stored letter's
  first code point, which is what the replay keeps. Java's `recordGuess` on a longer
  string compares and fills in the whole string, which this model does not capture.
- GameInfoServiceProperties.StoredRepeatChangesNothing: speaks of the stored letter's
  first code point, for the same reason.
- `int` overflow of the wrong-guess count is not modelled, and neither is the 64-bit
  range of millisecond times; both are unbounded integers.
- The no-argument `Game` constructor is not modelled. Serialization is modelled as the
  values it shows (`View`), not as JSON text. The `GameInfo` getters and setters for word,
  time and guess count are plain field accesses.
- The interface `GameInfoService` declares `storeGuess` as returning a game; the
  implementation returns nothing, and so does the model.
- `findGameWithGuesses` throws a Java exception in each failure case. The model returns
  an error value instead: `NoGameRecord`, `MissingGuessCount`, `MissingGuessLetter`,
  `EmptyGuessLetter` or `MissingWord`, in the order the code meets them.
- Concurrency and transactions are not modelled.
