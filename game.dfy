/** A game: its id, its wrong-guess limit, its secret word and its current play state.
    The play state is the one field that is replaced after construction; guessing is
    delegated to the play state and changes nothing in the game itself. */
module Games {
  import opened LetterStates
  import opened GuessResults
  import opened PlayStates
  import opened PlayStateProperties

  /** What a play state shows when it is serialized: its three annotated properties.
      The letter-to-positions map is not one of them. */
  datatype PlayStateView = PlayStateView(remainingWrongGuesses: int, maskedWord: seq<LetterState>, missedGuesses: seq<LetterState>)

  /** What a game shows when it is serialized: the secret word is not part of it. */
  datatype GameView = GameView(id: Text, maxWrongGuesses: int, playState: PlayStateView)

  /** The serialized properties of a play state. */
  function ShownPlayState(s: PlayState): PlayStateView
  {
    PlayStateView(s.remainingWrongGuesses, s.maskedWord, s.missedGuesses)
  }

  class Game {
    var id: Text
    var maxWrongGuesses: int
    var playState: PlayState
    var wordBeingGuessed: Text

    /** The play state is consistent with the game's own limit and word. */
    ghost predicate Valid()
      reads this
    {
      Consistent(playState, maxWrongGuesses, wordBeingGuessed)
    }

    /** Stores the four values exactly as given. */
    constructor (id: Text, maxWrongGuesses: int, wordBeingGuessed: Text, playState: PlayState)
      ensures this.id == id && this.maxWrongGuesses == maxWrongGuesses
      ensures this.wordBeingGuessed == wordBeingGuessed && this.playState == playState
    {
      this.id := id;
      this.maxWrongGuesses := maxWrongGuesses;
      this.playState := playState;
      this.wordBeingGuessed := wordBeingGuessed;
    }

    /** The serialized view: id, limit and the play state's count, masked word and
        misses; neither the word nor the letter positions. */
    function View(): (v: GameView)
      reads this
      ensures v.id == id && v.maxWrongGuesses == maxWrongGuesses
      ensures v.playState.remainingWrongGuesses == playState.remainingWrongGuesses
      ensures v.playState.maskedWord == playState.maskedWord
      ensures v.playState.missedGuesses == playState.missedGuesses
    {
      GameView(id, maxWrongGuesses, ShownPlayState(playState))
    }

    /** `recordGuess`: what the play state's `recordGuess` returns; no field changes. */
    method RecordGuess(letter: CodePoint) returns (r: GuessResult<PlayState>)
      requires LocationsFit(playState, letter)
      ensures r == Guess(playState, letter)
    {
      r := PlayStates.RecordGuess(playState, letter);
    }

    /** `setPlayState`: replaces the play state and nothing else. */
    method SetPlayState(playState: PlayState)
      modifies this
      ensures this.playState == playState
      ensures id == old(id) && maxWrongGuesses == old(maxWrongGuesses)
      ensures wordBeingGuessed == old(wordBeingGuessed)
    {
      this.playState := playState;
    }
  }

  /** Two games whose shown fields agree serialize alike, whatever their words and
      letter positions. */
  lemma ViewHidesWord(a: Game, b: Game)
    requires a.id == b.id && a.maxWrongGuesses == b.maxWrongGuesses
    requires a.playState.remainingWrongGuesses == b.playState.remainingWrongGuesses
    requires a.playState.maskedWord == b.playState.maskedWord
    requires a.playState.missedGuesses == b.playState.missedGuesses
    ensures a.View() == b.View()
  {
  }

  /** Two words of the same length that agree wherever either holds a guessed letter,
      and that hold the same guessed letters, show the same play state after the same
      guesses: the view gives away only the guessed positions. */
  lemma {:induction false} ShownStateIgnoresUnguessedLetters(maxWrongGuesses: int, guesses: seq<CodePoint>, word1: Text, word2: Text)
    requires |word1| == |word2|
    requires forall i :: 0 <= i < |word1| && (word1[i] in guesses || word2[i] in guesses) ==> word1[i] == word2[i]
    requires forall g :: g in guesses ==> (g in word1 <==> g in word2)
    ensures ShownPlayState(Derive(maxWrongGuesses, guesses, word1)) ==
            ShownPlayState(Derive(maxWrongGuesses, guesses, word2))
  {
    var s1, s2 := Derive(maxWrongGuesses, guesses, word1), Derive(maxWrongGuesses, guesses, word2);
    assert MissedSet(guesses, word1) == MissedSet(guesses, word2);
    BuildMaskedWord(maxWrongGuesses, guesses, word1);
    BuildMaskedWord(maxWrongGuesses, guesses, word2);
    assert s1.maskedWord == s2.maskedWord by {
      forall i | 0 <= i < |word1|
        ensures s1.maskedWord[i] == s2.maskedWord[i]
      {
        if word1[i] in guesses || word2[i] in guesses {
          assert word1[i] == word2[i];
        }
      }
    }
  }

  /** A fresh game shows the length of its word and nothing else of it: fresh games on
      two words of the same length, with the same id and limit, serialize alike. */
  lemma FreshGamesLookAlike(a: Game, b: Game)
    requires a.id == b.id && a.maxWrongGuesses == b.maxWrongGuesses
    requires |a.wordBeingGuessed| == |b.wordBeingGuessed|
    requires a.playState == Derive(a.maxWrongGuesses, [], a.wordBeingGuessed)
    requires b.playState == Derive(b.maxWrongGuesses, [], b.wordBeingGuessed)
    ensures a.View() == b.View()
  {
    ShownStateIgnoresUnguessedLetters(a.maxWrongGuesses, [], a.wordBeingGuessed, b.wordBeingGuessed);
  }

  /** The view does not determine the word: "ab" and "cd", fresh with the same limit,
      show the same play state while their full states differ. */
  lemma ViewDoesNotDetermineWord()
    ensures ShownPlayState(Derive(6, [], Str("ab"))) == ShownPlayState(Derive(6, [], Str("cd")))
    ensures Derive(6, [], Str("ab")) != Derive(6, [], Str("cd"))
  {
    ShownStateIgnoresUnguessedLetters(6, [], Str("ab"), Str("cd"));
    var m := Derive(6, [], Str("ab")).codePointToWordLocations;
    assert 'a' as int in Str("ab");
    assert 'a' as int in m;
    assert 'a' as int !in Str("cd");
  }

  /** Recording a guess and then installing the play state it returns. A repeat or a
      guess past the limit leaves the game as it was, and a consistent game stays
      consistent. */
  method RecordAndApplyGuess(game: Game, letter: CodePoint) returns (r: GuessResult<PlayState>)
    requires LocationsFit(game.playState, letter)
    modifies game
    ensures r == Guess(old(game.playState), letter)
    ensures game.playState == r.playState
    ensures game.id == old(game.id) && game.maxWrongGuesses == old(game.maxWrongGuesses)
    ensures game.wordBeingGuessed == old(game.wordBeingGuessed)
    ensures r.resultState == Repeat || r.resultState == TooManyWrongGuesses ==>
              game.playState == old(game.playState)
    ensures old(game.Valid()) ==> game.Valid()
  {
    ghost var before := game.playState;
    if game.Valid() {
      GuessPreservesConsistent(before, game.maxWrongGuesses, game.wordBeingGuessed, letter);
    }
    r := game.RecordGuess(letter);
    game.SetPlayState(r.playState);
  }
}
